/** The fixed-width unsigned words of the program, and arithmetic that wraps around in them. */
module Words {
  type u8 = n: nat | n < 0x100
  type u16 = n: nat | n < 0x1_0000
  type u32 = n: nat | n < 0x1_0000_0000

  function Wrap16(n: int): u16 { n % 0x1_0000 }

  function Wrap32(n: int): u32 { n % 0x1_0000_0000 }

  lemma FourPlusFour(a: nat, b: nat)
    requires a % 4 == 0 && b % 4 == 0
    ensures (a + b) % 4 == 0
  {
  }

  lemma SmallIsItself(n: nat)
    requires n < 0x1_0000_0000
    ensures Wrap32(n) == n
  {
  }

  /** The signed reading of a 32-bit word. */
  function Signed32(n: u32): (r: int)
    ensures -0x8000_0000 <= r < 0x8000_0000
  {
    if n < 0x8000_0000 then n else n - 0x1_0000_0000
  }

  /** A word in network byte order. */
  function Be32(n: u32): (b: seq<u8>)
    ensures |b| == 4
  {
    [n / 0x100_0000, (n / 0x1_0000) % 0x100, (n / 0x100) % 0x100, n % 0x100]
  }

  function FromBe32(b: seq<u8>, at: nat): u32
    requires at + 4 <= |b|
  {
    b[at] as int * 0x100_0000 + b[at + 1] as int * 0x1_0000 + b[at + 2] as int * 0x100 + b[at + 3]
  }

  function Be16(n: u16): (b: seq<u8>)
    ensures |b| == 2
  {
    [n / 0x100, n % 0x100]
  }

  function FromBe16(b: seq<u8>, at: nat): u16
    requires at + 2 <= |b|
  {
    b[at] as int * 0x100 + b[at + 1]
  }

  function Be24(n: u32): (b: seq<u8>)
    requires n < 0x100_0000
    ensures |b| == 3
  {
    [n / 0x1_0000, (n / 0x100) % 0x100, n % 0x100]
  }

  function FromBe24(b: seq<u8>, at: nat): (n: u32)
    requires at + 3 <= |b|
    ensures n < 0x100_0000
  {
    b[at] as int * 0x1_0000 + b[at + 1] as int * 0x100 + b[at + 2]
  }

  lemma Be24RoundTrip(n: u32, b: seq<u8>, at: nat)
    requires n < 0x100_0000 && at + 3 <= |b| && b[at..at + 3] == Be24(n)
    ensures FromBe24(b, at) == n
  {
    var s := b[at..at + 3];
    assert s[0] == b[at] && s[1] == b[at + 1] && s[2] == b[at + 2];
    Octets(n);
  }

  lemma Be32RoundTrip(n: u32, b: seq<u8>, at: nat)
    requires at + 4 <= |b| && b[at..at + 4] == Be32(n)
    ensures FromBe32(b, at) == n
  {
    var s := b[at..at + 4];
    assert s[0] == b[at] && s[1] == b[at + 1] && s[2] == b[at + 2] && s[3] == b[at + 3];
    Octets(n);
  }

  lemma Octets(n: u32)
    ensures n == (n / 0x100_0000) * 0x100_0000 + ((n / 0x1_0000) % 0x100) * 0x1_0000 + ((n / 0x100) % 0x100) * 0x100 + n % 0x100
  {
    var low, high := n % 0x1_0000, n / 0x1_0000;
    assert n == high * 0x1_0000 + low;
    assert n / 0x100 == high * 0x100 + low / 0x100;
    assert (n / 0x100) % 0x100 == low / 0x100;
    assert n % 0x100 == low % 0x100;
    assert n / 0x100_0000 == high / 0x100;
  }

  lemma Be16RoundTrip(n: u16, b: seq<u8>, at: nat)
    requires at + 2 <= |b| && b[at..at + 2] == Be16(n)
    ensures FromBe16(b, at) == n
  {
    var s := b[at..at + 2];
    assert s[0] == b[at] && s[1] == b[at + 1];
  }

  /** A list of words, one after the other. */
  function Be32List(words: seq<u32>): (b: seq<u8>)
    ensures |b| == 4 * |words|
  {
    if words == [] then [] else Be32(words[0]) + Be32List(words[1..])
  }

  function FromBe32List(b: seq<u8>, at: nat, n: nat): (words: seq<u32>)
    requires at + 4 * n <= |b|
    ensures |words| == n
    decreases n
  {
    if n == 0 then [] else [FromBe32(b, at)] + FromBe32List(b, at + 4, n - 1)
  }

  lemma {:induction false} Be32ListRoundTrip(words: seq<u32>, b: seq<u8>, at: nat)
    requires at + 4 * |words| <= |b| && b[at..at + 4 * |words|] == Be32List(words)
    ensures FromBe32List(b, at, |words|) == words
    decreases |words|
  {
    if words != [] {
      var s := b[at..at + 4 * |words|];
      assert b[at..at + 4] == s[..4] == Be32(words[0]);
      Be32RoundTrip(words[0], b, at);
      assert b[at + 4..at + 4 * |words|] == s[4..] == Be32List(words[1..]);
      Be32ListRoundTrip(words[1..], b, at + 4);
    }
  }

  lemma {:induction false} Be32ListSnoc(words: seq<u32>, w: u32)
    ensures Be32List(words + [w]) == Be32List(words) + Be32(w)
  {
    if words == [] {
      assert [w][1..] == [];
    } else {
      assert (words + [w])[1..] == words[1..] + [w];
      Be32ListSnoc(words[1..], w);
    }
  }

  datatype Option<+T> = None | Some(value: T)
}
