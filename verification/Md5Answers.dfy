/** A known answer (section A.5 of RFC 1321): the digest of "abc". */
module Md5Answers {
  import opened Md5

  const ABC: seq<bv8> := [0x61, 0x62, 0x63]

  /** The one block that the message is padded to. */
  function Abc(): Block {
    [0x80636261, 0, 0, 0, 0, 0, 0, 0, 0, 0, 0, 0, 0, 0, 24, 0]
  }

  /** The registers after step 4 q + 3 of round r. */
  function Traced(r: nat, q: nat): Abcd {
    match (r, q)
    case (0, 0) => Abcd(0xd6d117b4, 0x7ad956f2, 0x2f6fbd72, 0x344a8432)
    case (0, 1) => Abcd(0xc73741ef, 0x928d99f6, 0x207dc67b, 0x8bac3051)
    case (0, 2) => Abcd(0x854b3712, 0x5ed49596, 0x3020401c, 0x74e2f284)
    case (0, 3) => Abcd(0xdda9b9a6, 0x72aff2e0, 0xe396856b, 0xa1051895)
    case (1, 0) => Abcd(0x3e9e9126, 0xb5b204e4, 0xe25e1652, 0x4a1d804e)
    case (1, 1) => Abcd(0x59a8ffda, 0x47092c07, 0xabfc7920, 0x6d002f1e)
    case (1, 2) => Abcd(0xb7f268cf, 0x786acb8f, 0xfe1623b1, 0x09388eff)
    case (1, 3) => Abcd(0x790a77fb, 0x726342d3, 0xa62884aa, 0x9f47e4f8)
    case (2, 0) => Abcd(0xb3707ebf, 0x3b0875c7, 0x8d212ff5, 0x60127b2e)
    case (2, 1) => Abcd(0x21b117b9, 0x5a2f5ea5, 0x3575227e, 0x6e7429d5)
    case (2, 2) => Abcd(0x11de1779, 0x4c6124f4, 0x31c465ca, 0xfadcaa38)
    case (2, 3) => Abcd(0x7f2e507b, 0x7beb9700, 0x8fae6399, 0x99d9679d)
    case (3, 0) => Abcd(0x7b201df8, 0x8bf025c4, 0xb298cefd, 0xf4e8e96e)
    case (3, 1) => Abcd(0x06cc5e8a, 0x3bfa2c27, 0x7d632dd0, 0x5b0d97aa)
    case (3, 2) => Abcd(0x7f81cc35, 0x7327d604, 0x4f9dbe3f, 0x094454ab)
    case (_, _) => Abcd(0x310ade8f, 0xc08226b3, 0xe484b9d8, 0x624d8cb2)
  }

  /** The registers before the four steps from 4 q on. */
  function Before(r: nat, q: nat): Abcd {
    if q != 0 then Traced(r, q - 1) else if r != 0 then Traced(r - 1, 3) else MAGIC
  }

  /** Four steps with these words, shifts and constants lead from one to the other. */
  predicate Leads(r: nat, s: Abcd, t: Abcd, w0: bv32, w1: bv32, w2: bv32, w3: bv32, n0: nat, n1: nat, n2: nat, n3: nat, k: Four)
    requires n0 <= 32 && n1 <= 32 && n2 <= 32 && n3 <= 32
  {
    && t.a == Mixed(r, s.a, s.b, s.c, s.d, w0, n0, k.t0)
    && t.d == Mixed(r, s.d, t.a, s.b, s.c, w1, n1, k.t1)
    && t.c == Mixed(r, s.c, t.d, t.a, s.b, w2, n2, k.t2)
    && t.b == Mixed(r, s.b, t.c, t.d, t.a, w3, n3, k.t3)
  }

  lemma First0()
    ensures Mixed(0, 0x67452301, 0xefcdab89, 0x98badcfe, 0x10325476, 0x80636261, 7, 0xd76aa478) == 0xd6d117b4
    ensures Mixed(0, 0x10325476, 0xd6d117b4, 0xefcdab89, 0x98badcfe, 0, 12, 0xe8c7b756) == 0x344a8432
    ensures Mixed(0, 0x98badcfe, 0x344a8432, 0xd6d117b4, 0xefcdab89, 0, 17, 0x242070db) == 0x2f6fbd72
    ensures Mixed(0, 0xefcdab89, 0x2f6fbd72, 0x344a8432, 0xd6d117b4, 0, 22, 0xc1bdceee) == 0x7ad956f2
  {
  }

  lemma First1()
    ensures Mixed(0, 0xd6d117b4, 0x7ad956f2, 0x2f6fbd72, 0x344a8432, 0, 7, 0xf57c0faf) == 0xc73741ef
    ensures Mixed(0, 0x344a8432, 0xc73741ef, 0x7ad956f2, 0x2f6fbd72, 0, 12, 0x4787c62a) == 0x8bac3051
    ensures Mixed(0, 0x2f6fbd72, 0x8bac3051, 0xc73741ef, 0x7ad956f2, 0, 17, 0xa8304613) == 0x207dc67b
    ensures Mixed(0, 0x7ad956f2, 0x207dc67b, 0x8bac3051, 0xc73741ef, 0, 22, 0xfd469501) == 0x928d99f6
  {
  }

  lemma First2()
    ensures Mixed(0, 0xc73741ef, 0x928d99f6, 0x207dc67b, 0x8bac3051, 0, 7, 0x698098d8) == 0x854b3712
    ensures Mixed(0, 0x8bac3051, 0x854b3712, 0x928d99f6, 0x207dc67b, 0, 12, 0x8b44f7af) == 0x74e2f284
    ensures Mixed(0, 0x207dc67b, 0x74e2f284, 0x854b3712, 0x928d99f6, 0, 17, 0xffff5bb1) == 0x3020401c
    ensures Mixed(0, 0x928d99f6, 0x3020401c, 0x74e2f284, 0x854b3712, 0, 22, 0x895cd7be) == 0x5ed49596
  {
  }

  lemma First3()
    ensures Mixed(0, 0x854b3712, 0x5ed49596, 0x3020401c, 0x74e2f284, 0, 7, 0x6b901122) == 0xdda9b9a6
    ensures Mixed(0, 0x74e2f284, 0xdda9b9a6, 0x5ed49596, 0x3020401c, 0, 12, 0xfd987193) == 0xa1051895
    ensures Mixed(0, 0x3020401c, 0xa1051895, 0xdda9b9a6, 0x5ed49596, 24, 17, 0xa679438e) == 0xe396856b
    ensures Mixed(0, 0x5ed49596, 0xe396856b, 0xa1051895, 0xdda9b9a6, 0, 22, 0x49b40821) == 0x72aff2e0
  {
  }

  lemma Second0()
    ensures Mixed(1, 0xdda9b9a6, 0x72aff2e0, 0xe396856b, 0xa1051895, 0, 5, 0xf61e2562) == 0x3e9e9126
    ensures Mixed(1, 0xa1051895, 0x3e9e9126, 0x72aff2e0, 0xe396856b, 0, 9, 0xc040b340) == 0x4a1d804e
    ensures Mixed(1, 0xe396856b, 0x4a1d804e, 0x3e9e9126, 0x72aff2e0, 0, 14, 0x265e5a51) == 0xe25e1652
    ensures Mixed(1, 0x72aff2e0, 0xe25e1652, 0x4a1d804e, 0x3e9e9126, 0x80636261, 20, 0xe9b6c7aa) == 0xb5b204e4
  {
  }

  lemma Second1()
    ensures Mixed(1, 0x3e9e9126, 0xb5b204e4, 0xe25e1652, 0x4a1d804e, 0, 5, 0xd62f105d) == 0x59a8ffda
    ensures Mixed(1, 0x4a1d804e, 0x59a8ffda, 0xb5b204e4, 0xe25e1652, 0, 9, 0x02441453) == 0x6d002f1e
    ensures Mixed(1, 0xe25e1652, 0x6d002f1e, 0x59a8ffda, 0xb5b204e4, 0, 14, 0xd8a1e681) == 0xabfc7920
    ensures Mixed(1, 0xb5b204e4, 0xabfc7920, 0x6d002f1e, 0x59a8ffda, 0, 20, 0xe7d3fbc8) == 0x47092c07
  {
  }

  lemma Second2()
    ensures Mixed(1, 0x59a8ffda, 0x47092c07, 0xabfc7920, 0x6d002f1e, 0, 5, 0x21e1cde6) == 0xb7f268cf
    ensures Mixed(1, 0x6d002f1e, 0xb7f268cf, 0x47092c07, 0xabfc7920, 24, 9, 0xc33707d6) == 0x09388eff
    ensures Mixed(1, 0xabfc7920, 0x09388eff, 0xb7f268cf, 0x47092c07, 0, 14, 0xf4d50d87) == 0xfe1623b1
    ensures Mixed(1, 0x47092c07, 0xfe1623b1, 0x09388eff, 0xb7f268cf, 0, 20, 0x455a14ed) == 0x786acb8f
  {
  }

  lemma Second3()
    ensures Mixed(1, 0xb7f268cf, 0x786acb8f, 0xfe1623b1, 0x09388eff, 0, 5, 0xa9e3e905) == 0x790a77fb
    ensures Mixed(1, 0x09388eff, 0x790a77fb, 0x786acb8f, 0xfe1623b1, 0, 9, 0xfcefa3f8) == 0x9f47e4f8
    ensures Mixed(1, 0xfe1623b1, 0x9f47e4f8, 0x790a77fb, 0x786acb8f, 0, 14, 0x676f02d9) == 0xa62884aa
    ensures Mixed(1, 0x786acb8f, 0xa62884aa, 0x9f47e4f8, 0x790a77fb, 0, 20, 0x8d2a4c8a) == 0x726342d3
  {
  }

  lemma Third0()
    ensures Mixed(2, 0x790a77fb, 0x726342d3, 0xa62884aa, 0x9f47e4f8, 0, 4, 0xfffa3942) == 0xb3707ebf
    ensures Mixed(2, 0x9f47e4f8, 0xb3707ebf, 0x726342d3, 0xa62884aa, 0, 11, 0x8771f681) == 0x60127b2e
    ensures Mixed(2, 0xa62884aa, 0x60127b2e, 0xb3707ebf, 0x726342d3, 0, 16, 0x6d9d6122) == 0x8d212ff5
    ensures Mixed(2, 0x726342d3, 0x8d212ff5, 0x60127b2e, 0xb3707ebf, 24, 23, 0xfde5380c) == 0x3b0875c7
  {
  }

  lemma Third1()
    ensures Mixed(2, 0xb3707ebf, 0x3b0875c7, 0x8d212ff5, 0x60127b2e, 0, 4, 0xa4beea44) == 0x21b117b9
    ensures Mixed(2, 0x60127b2e, 0x21b117b9, 0x3b0875c7, 0x8d212ff5, 0, 11, 0x4bdecfa9) == 0x6e7429d5
    ensures Mixed(2, 0x8d212ff5, 0x6e7429d5, 0x21b117b9, 0x3b0875c7, 0, 16, 0xf6bb4b60) == 0x3575227e
    ensures Mixed(2, 0x3b0875c7, 0x3575227e, 0x6e7429d5, 0x21b117b9, 0, 23, 0xbebfbc70) == 0x5a2f5ea5
  {
  }

  lemma Third2()
    ensures Mixed(2, 0x21b117b9, 0x5a2f5ea5, 0x3575227e, 0x6e7429d5, 0, 4, 0x289b7ec6) == 0x11de1779
    ensures Mixed(2, 0x6e7429d5, 0x11de1779, 0x5a2f5ea5, 0x3575227e, 0x80636261, 11, 0xeaa127fa) == 0xfadcaa38
    ensures Mixed(2, 0x3575227e, 0xfadcaa38, 0x11de1779, 0x5a2f5ea5, 0, 16, 0xd4ef3085) == 0x31c465ca
    ensures Mixed(2, 0x5a2f5ea5, 0x31c465ca, 0xfadcaa38, 0x11de1779, 0, 23, 0x04881d05) == 0x4c6124f4
  {
  }

  lemma Third3()
    ensures Mixed(2, 0x11de1779, 0x4c6124f4, 0x31c465ca, 0xfadcaa38, 0, 4, 0xd9d4d039) == 0x7f2e507b
    ensures Mixed(2, 0xfadcaa38, 0x7f2e507b, 0x4c6124f4, 0x31c465ca, 0, 11, 0xe6db99e5) == 0x99d9679d
    ensures Mixed(2, 0x31c465ca, 0x99d9679d, 0x7f2e507b, 0x4c6124f4, 0, 16, 0x1fa27cf8) == 0x8fae6399
    ensures Mixed(2, 0x4c6124f4, 0x8fae6399, 0x99d9679d, 0x7f2e507b, 0, 23, 0xc4ac5665) == 0x7beb9700
  {
  }

  lemma Fourth0()
    ensures Mixed(3, 0x7f2e507b, 0x7beb9700, 0x8fae6399, 0x99d9679d, 0x80636261, 6, 0xf4292244) == 0x7b201df8
    ensures Mixed(3, 0x99d9679d, 0x7b201df8, 0x7beb9700, 0x8fae6399, 0, 10, 0x432aff97) == 0xf4e8e96e
    ensures Mixed(3, 0x8fae6399, 0xf4e8e96e, 0x7b201df8, 0x7beb9700, 24, 15, 0xab9423a7) == 0xb298cefd
    ensures Mixed(3, 0x7beb9700, 0xb298cefd, 0xf4e8e96e, 0x7b201df8, 0, 21, 0xfc93a039) == 0x8bf025c4
  {
  }

  lemma Fourth1()
    ensures Mixed(3, 0x7b201df8, 0x8bf025c4, 0xb298cefd, 0xf4e8e96e, 0, 6, 0x655b59c3) == 0x06cc5e8a
    ensures Mixed(3, 0xf4e8e96e, 0x06cc5e8a, 0x8bf025c4, 0xb298cefd, 0, 10, 0x8f0ccc92) == 0x5b0d97aa
    ensures Mixed(3, 0xb298cefd, 0x5b0d97aa, 0x06cc5e8a, 0x8bf025c4, 0, 15, 0xffeff47d) == 0x7d632dd0
    ensures Mixed(3, 0x8bf025c4, 0x7d632dd0, 0x5b0d97aa, 0x06cc5e8a, 0, 21, 0x85845dd1) == 0x3bfa2c27
  {
  }

  lemma Fourth2()
    ensures Mixed(3, 0x06cc5e8a, 0x3bfa2c27, 0x7d632dd0, 0x5b0d97aa, 0, 6, 0x6fa87e4f) == 0x7f81cc35
    ensures Mixed(3, 0x5b0d97aa, 0x7f81cc35, 0x3bfa2c27, 0x7d632dd0, 0, 10, 0xfe2ce6e0) == 0x094454ab
    ensures Mixed(3, 0x7d632dd0, 0x094454ab, 0x7f81cc35, 0x3bfa2c27, 0, 15, 0xa3014314) == 0x4f9dbe3f
    ensures Mixed(3, 0x3bfa2c27, 0x4f9dbe3f, 0x094454ab, 0x7f81cc35, 0, 21, 0x4e0811a1) == 0x7327d604
  {
  }

  lemma Fourth3()
    ensures Mixed(3, 0x7f81cc35, 0x7327d604, 0x4f9dbe3f, 0x094454ab, 0, 6, 0xf7537e82) == 0x310ade8f
    ensures Mixed(3, 0x094454ab, 0x310ade8f, 0x7327d604, 0x4f9dbe3f, 0, 10, 0xbd3af235) == 0x624d8cb2
    ensures Mixed(3, 0x4f9dbe3f, 0x624d8cb2, 0x310ade8f, 0x7327d604, 0, 15, 0x2ad7d2bb) == 0xe484b9d8
    ensures Mixed(3, 0x7327d604, 0xe484b9d8, 0x624d8cb2, 0x310ade8f, 0, 21, 0xeb86d391) == 0xc08226b3
  {
  }

  /** The four steps from 4 q on, with the words they use. */
  ghost predicate AllLead(r: nat, q: nat)
    requires r < 4 && q < 4
  {
    var x := Abc();
    Leads(r, Before(r, q), Traced(r, q), x[WordOf(r, 4 * q)], x[WordOf(r, 4 * q + 1)], x[WordOf(r, 4 * q + 2)],
          x[WordOf(r, 4 * q + 3)], Shift(r, 0), Shift(r, 1), Shift(r, 2), Shift(r, 3), Sines(r, q))
  }

  lemma AbcWords()
    ensures Abc()[0] == 0x80636261 && Abc()[14] == 24 && forall k | 0 < k < 16 && k != 14 :: Abc()[k] == 0
  {
  }

  lemma FirstLead(q: nat)
    requires q < 4
    ensures AllLead(0, q)
  {
    hide Mixed, WordOf, Shift, Abc;
    FirstOrder();
    AbcWords();
    if q == 0 {
      First0();
    } else if q == 1 {
      First1();
    } else if q == 2 {
      First2();
    } else {
      First3();
    }
  }

  lemma SecondLead(q: nat)
    requires q < 4
    ensures AllLead(1, q)
  {
    hide Mixed, WordOf, Shift, Abc;
    SecondOrder();
    AbcWords();
    if q == 0 {
      Second0();
    } else if q == 1 {
      Second1();
    } else if q == 2 {
      Second2();
    } else {
      Second3();
    }
  }

  lemma ThirdLead(q: nat)
    requires q < 4
    ensures AllLead(2, q)
  {
    hide Mixed, WordOf, Shift, Abc;
    ThirdOrder();
    AbcWords();
    if q == 0 {
      Third0();
    } else if q == 1 {
      Third1();
    } else if q == 2 {
      Third2();
    } else {
      Third3();
    }
  }

  lemma FourthLead(q: nat)
    requires q < 4
    ensures AllLead(3, q)
  {
    hide Mixed, WordOf, Shift, Abc;
    FourthOrder();
    AbcWords();
    if q == 0 {
      Fourth0();
    } else if q == 1 {
      Fourth1();
    } else if q == 2 {
      Fourth2();
    } else {
      Fourth3();
    }
  }

  lemma EachLeads(r: nat, q: nat)
    requires r < 4 && q < 4
    ensures AllLead(r, q)
  {
    hide AllLead;
    match r
    case 0 => FirstLead(q);
    case 1 => SecondLead(q);
    case 2 => ThirdLead(q);
    case _ => FourthLead(q);
  }

  lemma {:induction false} RoundTraced(r: nat, q: nat)
    requires r < 4 && q < 4
    ensures Steps(r, 4 * q + 4, Before(r, 0), Abc()) == Traced(r, q)
    decreases q
  {
    hide Traced, Steps, Abc;
    if q == 0 {
      NoStep(r, Before(r, 0), Abc());
    } else {
      RoundTraced(r, q - 1);
    }
    QuarterTraced(r, q, Before(r, 0));
  }

  lemma QuarterTraced(r: nat, q: nat, s: Abcd)
    requires r < 4 && q < 4 && Steps(r, 4 * q, s, Abc()) == Before(r, q)
    ensures Steps(r, 4 * q + 4, s, Abc()) == Traced(r, q)
  {
    hide Traced, Mixed, Steps, Sine, Sines, Shift, WordOf, Abc, Before;
    var b := Before(r, q);
    EachLeads(r, q);
    AtFour(r, q);
    FourSteps(r, 4 * q, s, Abc(), b.a, b.b, b.c, b.d);
  }

  lemma NoStep(r: nat, s: Abcd, x: Block)
    ensures Steps(r, 0, s, x) == s
  {
  }

  lemma Compressed()
    ensures Compress(MAGIC, Abc()) == Abcd(0x98500190, 0xb04fd23c, 0x7d3f96d6, 0x727fe128)
  {
    hide Steps, Abc;
    RoundTraced(0, 3);
    RoundTraced(1, 3);
    RoundTraced(2, 3);
    RoundTraced(3, 3);
  }

  lemma PaddedAbc()
    ensures Padded(ABC) == ABC + ([0x80] + seq(52, _ => 0)) + [24, 0, 0, 0, 0, 0, 0, 0] && |Padded(ABC)| == 64
  {
    assert LowWord(3) == 24 && HighWord(3) == 0;
    assert WordOctets(24) == [24, 0, 0, 0] && WordOctets(0) == [0, 0, 0, 0];
    assert [24, 0, 0, 0] + [0, 0, 0, 0] == [24 as bv8, 0, 0, 0, 0, 0, 0, 0];
  }

  lemma DecodedAbc()
    ensures Decode(Padded(ABC)) == Abc()
  {
    PaddedAbc();
    hide Padded;
    var b: seq<bv8> := ABC + ([0x80] + seq(52, _ => 0)) + [24, 0, 0, 0, 0, 0, 0, 0];
    assert forall i | 4 <= i < 56 :: b[i] == 0;
    assert WordAt(b, 0) == 0x80636261;
    assert WordAt(b, 56) == 24 && WordAt(b, 60) == 0;
    forall i | 1 <= i < 14 ensures WordAt(b, 4 * i) == 0 {
    }
  }

  /** What the program computes for "abc", octet by octet. */
  lemma DigestOfAbc()
    ensures Digest(ABC) ==
            [0x90, 0x01, 0x50, 0x98, 0x3c, 0xd2, 0x4f, 0xb0, 0xd6, 0x96, 0x3f, 0x7d, 0x28, 0xe1, 0x7f, 0x72]
  {
    hide Compress, Decode, Padded, Fold, Abc;
    Compressed();
    PaddedAbc();
    DecodedAbc();
    FoldBlock(MAGIC, Padded(ABC));
    DigestOctets();
  }

  lemma DigestOctets()
    ensures EncodeState(Abcd(0x98500190, 0xb04fd23c, 0x7d3f96d6, 0x727fe128)) ==
            [0x90, 0x01, 0x50, 0x98, 0x3c, 0xd2, 0x4f, 0xb0, 0xd6, 0x96, 0x3f, 0x7d, 0x28, 0xe1, 0x7f, 0x72]
  {
  }
}
