/** Octets read as numbers, the most significant one first. */
module Octets {
  import opened Words

  function Octet(b: seq<u8>, at: nat): int
    requires at < |b|
  {
    b[at]
  }

  function Two(b: seq<u8>, at: nat): nat
    requires at + 2 <= |b|
  {
    256 * Octet(b, at) + Octet(b, at + 1)
  }

  function Three(b: seq<u8>, at: nat): int
    requires at + 3 <= |b|
  {
    65536 * Octet(b, at) + 256 * Octet(b, at + 1) + Octet(b, at + 2)
  }

  function Four(b: seq<u8>, at: nat): int
    requires at + 4 <= |b|
  {
    16777216 * Octet(b, at) + 65536 * Octet(b, at + 1) + 256 * Octet(b, at + 2) + Octet(b, at + 3)
  }

  ghost predicate WordsAt(b: seq<u8>, at: nat, words: seq<u32>)
    requires at + 4 * |words| <= |b|
  {
    forall k | 0 <= k < |words| :: words[k] == Four(b, at + 4 * k)
  }

  lemma FourIs(b: seq<u8>, at: nat)
    requires at + 4 <= |b|
    ensures FromBe32(b, at) == Four(b, at)
  {
  }

  lemma Parts<T>(first: T, rest: seq<T>, all: seq<T>)
    requires all != []
    ensures [first] + rest == all <==> first == all[0] && rest == all[1..]
  {
    assert all == [all[0]] + all[1..];
    assert ([first] + rest)[1..] == rest;
  }

  lemma {:induction false} WordsRead(b: seq<u8>, at: nat, n: nat, words: seq<u32>)
    requires at + 4 * n <= |b|
    ensures FromBe32List(b, at, n) == words <==>
            |words| == n && WordsAt(b, at, words)
    decreases n
  {
    hide FromBe32, Four;
    if n != 0 && |words| == n {
      FourIs(b, at);
      WordsRead(b, at + 4, n - 1, words[1..]);
      Parts(FromBe32(b, at), FromBe32List(b, at + 4, n - 1), words);
      WordsMore(b, at, words);
      hide WordsAt;
    }
  }

  lemma WordsMore(b: seq<u8>, at: nat, words: seq<u32>)
    requires words != [] && at + 4 * |words| <= |b|
    ensures WordsAt(b, at, words) <==> words[0] == Four(b, at) && WordsAt(b, at + 4, words[1..])
  {
    hide Four;
    if WordsAt(b, at, words) {
      assert words[0] == Four(b, at + 4 * 0);
      forall k | 0 <= k < |words[1..]| ensures words[1..][k] == Four(b, at + 4 + 4 * k) {
        assert words[k + 1] == Four(b, at + 4 * (k + 1));
      }
    }
    if words[0] == Four(b, at) && WordsAt(b, at + 4, words[1..]) {
      forall k | 0 <= k < |words| ensures words[k] == Four(b, at + 4 * k) {
        assert k > 0 ==> words[1..][k - 1] == Four(b, at + 4 + 4 * (k - 1));
      }
    }
  }
}
