/**
 MD5 (RFC 1321), by which the program turns host entropy into random words: a message arrives in
 chunks of any size, and its digest must not depend on how it was cut.
 */
module Md5 {
  import opened Words

  type Block = x: seq<bv32> | |x| == 16 witness seq(16, _ => 0)

  /** The four registers. */
  datatype Abcd = Abcd(a: bv32, b: bv32, c: bv32, d: bv32)

  const MAGIC := Abcd(0x67452301, 0xefcdab89, 0x98badcfe, 0x10325476)

  // ---------------------------------------------------------------- one block, by the table

  function F(x: bv32, y: bv32, z: bv32): bv32 { (x & y) | (!x & z) }

  function G(x: bv32, y: bv32, z: bv32): bv32 { (x & z) | (y & !z) }

  function H(x: bv32, y: bv32, z: bv32): bv32 { x ^ y ^ z }

  function I(x: bv32, y: bv32, z: bv32): bv32 { y ^ (x | !z) }

  function RotateLeft(x: bv32, n: nat): bv32
    requires n <= 32
  {
    (x << n) | (x >> (32 - n))
  }

  /** Addition modulo 2^32. */
  function Plus(x: bv32, y: bv32): bv32 { x + y }

  /** Four entries of the table of section 3.4. */
  datatype Four = Four(t0: bv32, t1: bv32, t2: bv32, t3: bv32)

  /** The integer part of 4294967296 times abs(sin(i + 1)), for i from 16 r + 4 q on. */
  function Sines(r: nat, q: nat): Four {
    match r
    case 0 => FirstSines(q)
    case 1 => SecondSines(q)
    case 2 => ThirdSines(q)
    case _ => FourthSines(q)
  }

  function FirstSines(q: nat): Four {
    match q
    case 0 => Four(0xd76aa478, 0xe8c7b756, 0x242070db, 0xc1bdceee)
    case 1 => Four(0xf57c0faf, 0x4787c62a, 0xa8304613, 0xfd469501)
    case 2 => Four(0x698098d8, 0x8b44f7af, 0xffff5bb1, 0x895cd7be)
    case _ => Four(0x6b901122, 0xfd987193, 0xa679438e, 0x49b40821)
  }

  function SecondSines(q: nat): Four {
    match q
    case 0 => Four(0xf61e2562, 0xc040b340, 0x265e5a51, 0xe9b6c7aa)
    case 1 => Four(0xd62f105d, 0x02441453, 0xd8a1e681, 0xe7d3fbc8)
    case 2 => Four(0x21e1cde6, 0xc33707d6, 0xf4d50d87, 0x455a14ed)
    case _ => Four(0xa9e3e905, 0xfcefa3f8, 0x676f02d9, 0x8d2a4c8a)
  }

  function ThirdSines(q: nat): Four {
    match q
    case 0 => Four(0xfffa3942, 0x8771f681, 0x6d9d6122, 0xfde5380c)
    case 1 => Four(0xa4beea44, 0x4bdecfa9, 0xf6bb4b60, 0xbebfbc70)
    case 2 => Four(0x289b7ec6, 0xeaa127fa, 0xd4ef3085, 0x04881d05)
    case _ => Four(0xd9d4d039, 0xe6db99e5, 0x1fa27cf8, 0xc4ac5665)
  }

  function FourthSines(q: nat): Four {
    match q
    case 0 => Four(0xf4292244, 0x432aff97, 0xab9423a7, 0xfc93a039)
    case 1 => Four(0x655b59c3, 0x8f0ccc92, 0xffeff47d, 0x85845dd1)
    case 2 => Four(0x6fa87e4f, 0xfe2ce6e0, 0xa3014314, 0x4e0811a1)
    case _ => Four(0xf7537e82, 0xbd3af235, 0x2ad7d2bb, 0xeb86d391)
  }

  /** The entry for step `j` of round `r`. */
  function Sine(r: nat, j: nat): bv32 {
    var t := Sines(r, j / 4);
    match j % 4
    case 0 => t.t0
    case 1 => t.t1
    case 2 => t.t2
    case _ => t.t3
  }

  function Shift(r: nat, j: nat): (n: nat)
    ensures n <= 32
  {
    match (r, j % 4)
    case (0, 0) => 7 case (0, 1) => 12 case (0, 2) => 17 case (0, 3) => 22
    case (1, 0) => 5 case (1, 1) => 9 case (1, 2) => 14 case (1, 3) => 20
    case (2, 0) => 4 case (2, 1) => 11 case (2, 2) => 16 case (2, 3) => 23
    case (_, 0) => 6 case (_, 1) => 10 case (_, 2) => 15 case (_, _) => 21
  }

  /** The word of the block that a step uses. */
  function WordOf(r: nat, j: nat): (k: nat)
    ensures k < 16
  {
    match r
    case 0 => j % 16
    case 1 => (5 * j + 1) % 16
    case 2 => (3 * j + 5) % 16
    case _ => (7 * j) % 16
  }

  function Auxiliary(r: nat, x: bv32, y: bv32, z: bv32): bv32 {
    match r
    case 0 => F(x, y, z)
    case 1 => G(x, y, z)
    case 2 => H(x, y, z)
    case _ => I(x, y, z)
  }

  function Turn(s: Abcd, b: bv32): Abcd {
    Abcd(s.d, b, s.b, s.c)
  }

  /** Step `j` of round `r`: the registers move on by one. */
  function Step(r: nat, j: nat, s: Abcd, x: Block): Abcd {
    Turn(s, Mixed(r, s.a, s.b, s.c, s.d, x[WordOf(r, j)], Shift(r, j), Sine(r, j)))
  }

  function Mixed(r: nat, a: bv32, b: bv32, c: bv32, d: bv32, x: bv32, n: nat, ac: bv32): bv32
    requires n <= 32
  {
    Plus(RotateLeft(Plus(a, Plus(Plus(Auxiliary(r, b, c, d), x), ac)), n), b)
  }

  /** The first `n` steps of round `r`. */
  function Steps(r: nat, n: nat, s: Abcd, x: Block): Abcd
    decreases n
  {
    if n == 0 then s else Step(r, n - 1, Steps(r, n - 1, s, x), x)
  }

  /** What one block does to the state. */
  function Compress(s: Abcd, x: Block): Abcd {
    Sum(s, Steps(3, 16, Steps(2, 16, Steps(1, 16, Steps(0, 16, s, x), x), x), x))
  }

  function Sum(s: Abcd, r: Abcd): Abcd {
    Abcd(Plus(s.a, r.a), Plus(s.b, r.b), Plus(s.c, r.c), Plus(s.d, r.d))
  }

  // ---------------------------------------------------------------- one block, unrolled

  function FF(a: bv32, b: bv32, c: bv32, d: bv32, x: bv32, n: nat, ac: bv32): bv32
    requires n <= 32
  {
    Plus(RotateLeft(Plus(a, Plus(Plus(F(b, c, d), x), ac)), n), b)
  }

  function GG(a: bv32, b: bv32, c: bv32, d: bv32, x: bv32, n: nat, ac: bv32): bv32
    requires n <= 32
  {
    Plus(RotateLeft(Plus(a, Plus(Plus(G(b, c, d), x), ac)), n), b)
  }

  function HH(a: bv32, b: bv32, c: bv32, d: bv32, x: bv32, n: nat, ac: bv32): bv32
    requires n <= 32
  {
    Plus(RotateLeft(Plus(a, Plus(Plus(H(b, c, d), x), ac)), n), b)
  }

  function II(a: bv32, b: bv32, c: bv32, d: bv32, x: bv32, n: nat, ac: bv32): bv32
    requires n <= 32
  {
    Plus(RotateLeft(Plus(a, Plus(Plus(I(b, c, d), x), ac)), n), b)
  }

  /** Four steps bring each register back to its place. */
  lemma FourSteps(r: nat, j: nat, s: Abcd, x: Block, a: bv32, b: bv32, c: bv32, d: bv32)
    requires Steps(r, j, s, x) == Abcd(a, b, c, d)
    ensures var a1 := Mixed(r, a, b, c, d, x[WordOf(r, j)], Shift(r, j), Sine(r, j));
            var d1 := Mixed(r, d, a1, b, c, x[WordOf(r, j + 1)], Shift(r, j + 1), Sine(r, j + 1));
            var c1 := Mixed(r, c, d1, a1, b, x[WordOf(r, j + 2)], Shift(r, j + 2), Sine(r, j + 2));
            var b1 := Mixed(r, b, c1, d1, a1, x[WordOf(r, j + 3)], Shift(r, j + 3), Sine(r, j + 3));
            Steps(r, j + 4, s, x) == Abcd(a1, b1, c1, d1)
  {
    hide Mixed, WordOf, Shift, Sine;
    assert Steps(r, j + 2, s, x) == Step(r, j + 1, Steps(r, j + 1, s, x), x);
    assert Steps(r, j + 4, s, x) == Step(r, j + 3, Steps(r, j + 3, s, x), x);
  }

  /** The tables at the four steps from a multiple of four on. */
  lemma AtFour(r: nat, q: nat)
    ensures Sine(r, 4 * q) == Sines(r, q).t0 && Sine(r, 4 * q + 1) == Sines(r, q).t1
    ensures Sine(r, 4 * q + 2) == Sines(r, q).t2 && Sine(r, 4 * q + 3) == Sines(r, q).t3
    ensures Shift(r, 4 * q) == Shift(r, 0) && Shift(r, 4 * q + 1) == Shift(r, 1)
    ensures Shift(r, 4 * q + 2) == Shift(r, 2) && Shift(r, 4 * q + 3) == Shift(r, 3)
  {
    hide Sines;
  }

  lemma FirstOrder()
    ensures WordOf(0, 0) == 0 && WordOf(0, 1) == 1 && WordOf(0, 2) == 2 && WordOf(0, 3) == 3
    ensures WordOf(0, 4) == 4 && WordOf(0, 5) == 5 && WordOf(0, 6) == 6 && WordOf(0, 7) == 7
    ensures WordOf(0, 8) == 8 && WordOf(0, 9) == 9 && WordOf(0, 10) == 10 && WordOf(0, 11) == 11
    ensures WordOf(0, 12) == 12 && WordOf(0, 13) == 13 && WordOf(0, 14) == 14 && WordOf(0, 15) == 15
    ensures Shift(0, 0) == 7 && Shift(0, 1) == 12 && Shift(0, 2) == 17 && Shift(0, 3) == 22
  {
  }

  lemma SecondOrder()
    ensures WordOf(1, 0) == 1 && WordOf(1, 1) == 6 && WordOf(1, 2) == 11 && WordOf(1, 3) == 0
    ensures WordOf(1, 4) == 5 && WordOf(1, 5) == 10 && WordOf(1, 6) == 15 && WordOf(1, 7) == 4
    ensures WordOf(1, 8) == 9 && WordOf(1, 9) == 14 && WordOf(1, 10) == 3 && WordOf(1, 11) == 8
    ensures WordOf(1, 12) == 13 && WordOf(1, 13) == 2 && WordOf(1, 14) == 7 && WordOf(1, 15) == 12
    ensures Shift(1, 0) == 5 && Shift(1, 1) == 9 && Shift(1, 2) == 14 && Shift(1, 3) == 20
  {
  }

  lemma ThirdOrder()
    ensures WordOf(2, 0) == 5 && WordOf(2, 1) == 8 && WordOf(2, 2) == 11 && WordOf(2, 3) == 14
    ensures WordOf(2, 4) == 1 && WordOf(2, 5) == 4 && WordOf(2, 6) == 7 && WordOf(2, 7) == 10
    ensures WordOf(2, 8) == 13 && WordOf(2, 9) == 0 && WordOf(2, 10) == 3 && WordOf(2, 11) == 6
    ensures WordOf(2, 12) == 9 && WordOf(2, 13) == 12 && WordOf(2, 14) == 15 && WordOf(2, 15) == 2
    ensures Shift(2, 0) == 4 && Shift(2, 1) == 11 && Shift(2, 2) == 16 && Shift(2, 3) == 23
  {
  }

  lemma FourthOrder()
    ensures WordOf(3, 0) == 0 && WordOf(3, 1) == 7 && WordOf(3, 2) == 14 && WordOf(3, 3) == 5
    ensures WordOf(3, 4) == 12 && WordOf(3, 5) == 3 && WordOf(3, 6) == 10 && WordOf(3, 7) == 1
    ensures WordOf(3, 8) == 8 && WordOf(3, 9) == 15 && WordOf(3, 10) == 6 && WordOf(3, 11) == 13
    ensures WordOf(3, 12) == 4 && WordOf(3, 13) == 11 && WordOf(3, 14) == 2 && WordOf(3, 15) == 9
    ensures Shift(3, 0) == 6 && Shift(3, 1) == 10 && Shift(3, 2) == 15 && Shift(3, 3) == 21
  {
  }

  lemma FirstFour(j: nat, s: Abcd, x: Block, a: bv32, b: bv32, c: bv32, d: bv32)
    requires Steps(0, j, s, x) == Abcd(a, b, c, d)
    ensures var a1 := FF(a, b, c, d, x[WordOf(0, j)], Shift(0, j), Sine(0, j));
            var d1 := FF(d, a1, b, c, x[WordOf(0, j + 1)], Shift(0, j + 1), Sine(0, j + 1));
            var c1 := FF(c, d1, a1, b, x[WordOf(0, j + 2)], Shift(0, j + 2), Sine(0, j + 2));
            var b1 := FF(b, c1, d1, a1, x[WordOf(0, j + 3)], Shift(0, j + 3), Sine(0, j + 3));
            Steps(0, j + 4, s, x) == Abcd(a1, b1, c1, d1)
  {
    hide Steps, WordOf, Shift, Sine, Plus, RotateLeft, F;
    FourSteps(0, j, s, x, a, b, c, d);
  }

  lemma SecondFour(j: nat, s: Abcd, x: Block, a: bv32, b: bv32, c: bv32, d: bv32)
    requires Steps(1, j, s, x) == Abcd(a, b, c, d)
    ensures var a1 := GG(a, b, c, d, x[WordOf(1, j)], Shift(1, j), Sine(1, j));
            var d1 := GG(d, a1, b, c, x[WordOf(1, j + 1)], Shift(1, j + 1), Sine(1, j + 1));
            var c1 := GG(c, d1, a1, b, x[WordOf(1, j + 2)], Shift(1, j + 2), Sine(1, j + 2));
            var b1 := GG(b, c1, d1, a1, x[WordOf(1, j + 3)], Shift(1, j + 3), Sine(1, j + 3));
            Steps(1, j + 4, s, x) == Abcd(a1, b1, c1, d1)
  {
    hide Steps, WordOf, Shift, Sine, Plus, RotateLeft, G;
    FourSteps(1, j, s, x, a, b, c, d);
  }

  lemma ThirdFour(j: nat, s: Abcd, x: Block, a: bv32, b: bv32, c: bv32, d: bv32)
    requires Steps(2, j, s, x) == Abcd(a, b, c, d)
    ensures var a1 := HH(a, b, c, d, x[WordOf(2, j)], Shift(2, j), Sine(2, j));
            var d1 := HH(d, a1, b, c, x[WordOf(2, j + 1)], Shift(2, j + 1), Sine(2, j + 1));
            var c1 := HH(c, d1, a1, b, x[WordOf(2, j + 2)], Shift(2, j + 2), Sine(2, j + 2));
            var b1 := HH(b, c1, d1, a1, x[WordOf(2, j + 3)], Shift(2, j + 3), Sine(2, j + 3));
            Steps(2, j + 4, s, x) == Abcd(a1, b1, c1, d1)
  {
    hide Steps, WordOf, Shift, Sine, Plus, RotateLeft, H;
    FourSteps(2, j, s, x, a, b, c, d);
  }

  lemma FourthFour(j: nat, s: Abcd, x: Block, a: bv32, b: bv32, c: bv32, d: bv32)
    requires Steps(3, j, s, x) == Abcd(a, b, c, d)
    ensures var a1 := II(a, b, c, d, x[WordOf(3, j)], Shift(3, j), Sine(3, j));
            var d1 := II(d, a1, b, c, x[WordOf(3, j + 1)], Shift(3, j + 1), Sine(3, j + 1));
            var c1 := II(c, d1, a1, b, x[WordOf(3, j + 2)], Shift(3, j + 2), Sine(3, j + 2));
            var b1 := II(b, c1, d1, a1, x[WordOf(3, j + 3)], Shift(3, j + 3), Sine(3, j + 3));
            Steps(3, j + 4, s, x) == Abcd(a1, b1, c1, d1)
  {
    hide Steps, WordOf, Shift, Sine, Plus, RotateLeft, I;
    FourSteps(3, j, s, x, a, b, c, d);
  }

  lemma FirstQuarter(q: nat, s: Abcd, x: Block, a: bv32, b: bv32, c: bv32, d: bv32)
    requires Steps(0, 4 * q, s, x) == Abcd(a, b, c, d)
    ensures var t := Sines(0, q);
            var a1 := FF(a, b, c, d, x[WordOf(0, 4 * q)], 7, t.t0);
            var d1 := FF(d, a1, b, c, x[WordOf(0, 4 * q + 1)], 12, t.t1);
            var c1 := FF(c, d1, a1, b, x[WordOf(0, 4 * q + 2)], 17, t.t2);
            var b1 := FF(b, c1, d1, a1, x[WordOf(0, 4 * q + 3)], 22, t.t3);
            Steps(0, 4 * q + 4, s, x) == Abcd(a1, b1, c1, d1)
  {
    FirstOrder();
    hide FF, Steps, WordOf, Shift, Sine, Sines;
    AtFour(0, q);
    FirstFour(4 * q, s, x, a, b, c, d);
  }

  method FirstRound(s: Abcd, x: Block) returns (r: Abcd)
    ensures r == Steps(0, 16, s, x)
  {
    assert Steps(0, 0, s, x) == s;
    FirstOrder();
    hide FF, Steps, WordOf, Shift, Sine;
    var a, b, c, d := s.a, s.b, s.c, s.d;
    FirstQuarter(0, s, x, a, b, c, d);
    a := FF(a, b, c, d, x[0], 7, 0xd76aa478);
    d := FF(d, a, b, c, x[1], 12, 0xe8c7b756);
    c := FF(c, d, a, b, x[2], 17, 0x242070db);
    b := FF(b, c, d, a, x[3], 22, 0xc1bdceee);
    FirstQuarter(1, s, x, a, b, c, d);
    a := FF(a, b, c, d, x[4], 7, 0xf57c0faf);
    d := FF(d, a, b, c, x[5], 12, 0x4787c62a);
    c := FF(c, d, a, b, x[6], 17, 0xa8304613);
    b := FF(b, c, d, a, x[7], 22, 0xfd469501);
    FirstQuarter(2, s, x, a, b, c, d);
    a := FF(a, b, c, d, x[8], 7, 0x698098d8);
    d := FF(d, a, b, c, x[9], 12, 0x8b44f7af);
    c := FF(c, d, a, b, x[10], 17, 0xffff5bb1);
    b := FF(b, c, d, a, x[11], 22, 0x895cd7be);
    FirstQuarter(3, s, x, a, b, c, d);
    a := FF(a, b, c, d, x[12], 7, 0x6b901122);
    d := FF(d, a, b, c, x[13], 12, 0xfd987193);
    c := FF(c, d, a, b, x[14], 17, 0xa679438e);
    b := FF(b, c, d, a, x[15], 22, 0x49b40821);
    return Abcd(a, b, c, d);
  }

  lemma SecondQuarter(q: nat, s: Abcd, x: Block, a: bv32, b: bv32, c: bv32, d: bv32)
    requires Steps(1, 4 * q, s, x) == Abcd(a, b, c, d)
    ensures var t := Sines(1, q);
            var a1 := GG(a, b, c, d, x[WordOf(1, 4 * q)], 5, t.t0);
            var d1 := GG(d, a1, b, c, x[WordOf(1, 4 * q + 1)], 9, t.t1);
            var c1 := GG(c, d1, a1, b, x[WordOf(1, 4 * q + 2)], 14, t.t2);
            var b1 := GG(b, c1, d1, a1, x[WordOf(1, 4 * q + 3)], 20, t.t3);
            Steps(1, 4 * q + 4, s, x) == Abcd(a1, b1, c1, d1)
  {
    SecondOrder();
    hide GG, Steps, WordOf, Shift, Sine, Sines;
    AtFour(1, q);
    SecondFour(4 * q, s, x, a, b, c, d);
  }

  method SecondRound(s: Abcd, x: Block) returns (r: Abcd)
    ensures r == Steps(1, 16, s, x)
  {
    assert Steps(1, 0, s, x) == s;
    SecondOrder();
    hide GG, Steps, WordOf, Shift, Sine;
    var a, b, c, d := s.a, s.b, s.c, s.d;
    SecondQuarter(0, s, x, a, b, c, d);
    a := GG(a, b, c, d, x[1], 5, 0xf61e2562);
    d := GG(d, a, b, c, x[6], 9, 0xc040b340);
    c := GG(c, d, a, b, x[11], 14, 0x265e5a51);
    b := GG(b, c, d, a, x[0], 20, 0xe9b6c7aa);
    SecondQuarter(1, s, x, a, b, c, d);
    a := GG(a, b, c, d, x[5], 5, 0xd62f105d);
    d := GG(d, a, b, c, x[10], 9, 0x02441453);
    c := GG(c, d, a, b, x[15], 14, 0xd8a1e681);
    b := GG(b, c, d, a, x[4], 20, 0xe7d3fbc8);
    SecondQuarter(2, s, x, a, b, c, d);
    a := GG(a, b, c, d, x[9], 5, 0x21e1cde6);
    d := GG(d, a, b, c, x[14], 9, 0xc33707d6);
    c := GG(c, d, a, b, x[3], 14, 0xf4d50d87);
    b := GG(b, c, d, a, x[8], 20, 0x455a14ed);
    SecondQuarter(3, s, x, a, b, c, d);
    a := GG(a, b, c, d, x[13], 5, 0xa9e3e905);
    d := GG(d, a, b, c, x[2], 9, 0xfcefa3f8);
    c := GG(c, d, a, b, x[7], 14, 0x676f02d9);
    b := GG(b, c, d, a, x[12], 20, 0x8d2a4c8a);
    return Abcd(a, b, c, d);
  }

  lemma ThirdQuarter(q: nat, s: Abcd, x: Block, a: bv32, b: bv32, c: bv32, d: bv32)
    requires Steps(2, 4 * q, s, x) == Abcd(a, b, c, d)
    ensures var t := Sines(2, q);
            var a1 := HH(a, b, c, d, x[WordOf(2, 4 * q)], 4, t.t0);
            var d1 := HH(d, a1, b, c, x[WordOf(2, 4 * q + 1)], 11, t.t1);
            var c1 := HH(c, d1, a1, b, x[WordOf(2, 4 * q + 2)], 16, t.t2);
            var b1 := HH(b, c1, d1, a1, x[WordOf(2, 4 * q + 3)], 23, t.t3);
            Steps(2, 4 * q + 4, s, x) == Abcd(a1, b1, c1, d1)
  {
    ThirdOrder();
    hide HH, Steps, WordOf, Shift, Sine, Sines;
    AtFour(2, q);
    ThirdFour(4 * q, s, x, a, b, c, d);
  }

  method ThirdRound(s: Abcd, x: Block) returns (r: Abcd)
    ensures r == Steps(2, 16, s, x)
  {
    assert Steps(2, 0, s, x) == s;
    ThirdOrder();
    hide HH, Steps, WordOf, Shift, Sine;
    var a, b, c, d := s.a, s.b, s.c, s.d;
    ThirdQuarter(0, s, x, a, b, c, d);
    a := HH(a, b, c, d, x[5], 4, 0xfffa3942);
    d := HH(d, a, b, c, x[8], 11, 0x8771f681);
    c := HH(c, d, a, b, x[11], 16, 0x6d9d6122);
    b := HH(b, c, d, a, x[14], 23, 0xfde5380c);
    ThirdQuarter(1, s, x, a, b, c, d);
    a := HH(a, b, c, d, x[1], 4, 0xa4beea44);
    d := HH(d, a, b, c, x[4], 11, 0x4bdecfa9);
    c := HH(c, d, a, b, x[7], 16, 0xf6bb4b60);
    b := HH(b, c, d, a, x[10], 23, 0xbebfbc70);
    ThirdQuarter(2, s, x, a, b, c, d);
    a := HH(a, b, c, d, x[13], 4, 0x289b7ec6);
    d := HH(d, a, b, c, x[0], 11, 0xeaa127fa);
    c := HH(c, d, a, b, x[3], 16, 0xd4ef3085);
    b := HH(b, c, d, a, x[6], 23, 0x04881d05);
    ThirdQuarter(3, s, x, a, b, c, d);
    a := HH(a, b, c, d, x[9], 4, 0xd9d4d039);
    d := HH(d, a, b, c, x[12], 11, 0xe6db99e5);
    c := HH(c, d, a, b, x[15], 16, 0x1fa27cf8);
    b := HH(b, c, d, a, x[2], 23, 0xc4ac5665);
    return Abcd(a, b, c, d);
  }

  lemma FourthQuarter(q: nat, s: Abcd, x: Block, a: bv32, b: bv32, c: bv32, d: bv32)
    requires Steps(3, 4 * q, s, x) == Abcd(a, b, c, d)
    ensures var t := Sines(3, q);
            var a1 := II(a, b, c, d, x[WordOf(3, 4 * q)], 6, t.t0);
            var d1 := II(d, a1, b, c, x[WordOf(3, 4 * q + 1)], 10, t.t1);
            var c1 := II(c, d1, a1, b, x[WordOf(3, 4 * q + 2)], 15, t.t2);
            var b1 := II(b, c1, d1, a1, x[WordOf(3, 4 * q + 3)], 21, t.t3);
            Steps(3, 4 * q + 4, s, x) == Abcd(a1, b1, c1, d1)
  {
    FourthOrder();
    hide II, Steps, WordOf, Shift, Sine, Sines;
    AtFour(3, q);
    FourthFour(4 * q, s, x, a, b, c, d);
  }

  method FourthRound(s: Abcd, x: Block) returns (r: Abcd)
    ensures r == Steps(3, 16, s, x)
  {
    assert Steps(3, 0, s, x) == s;
    FourthOrder();
    hide II, Steps, WordOf, Shift, Sine;
    var a, b, c, d := s.a, s.b, s.c, s.d;
    FourthQuarter(0, s, x, a, b, c, d);
    a := II(a, b, c, d, x[0], 6, 0xf4292244);
    d := II(d, a, b, c, x[7], 10, 0x432aff97);
    c := II(c, d, a, b, x[14], 15, 0xab9423a7);
    b := II(b, c, d, a, x[5], 21, 0xfc93a039);
    FourthQuarter(1, s, x, a, b, c, d);
    a := II(a, b, c, d, x[12], 6, 0x655b59c3);
    d := II(d, a, b, c, x[3], 10, 0x8f0ccc92);
    c := II(c, d, a, b, x[10], 15, 0xffeff47d);
    b := II(b, c, d, a, x[1], 21, 0x85845dd1);
    FourthQuarter(2, s, x, a, b, c, d);
    a := II(a, b, c, d, x[8], 6, 0x6fa87e4f);
    d := II(d, a, b, c, x[15], 10, 0xfe2ce6e0);
    c := II(c, d, a, b, x[6], 15, 0xa3014314);
    b := II(b, c, d, a, x[13], 21, 0x4e0811a1);
    FourthQuarter(3, s, x, a, b, c, d);
    a := II(a, b, c, d, x[4], 6, 0xf7537e82);
    d := II(d, a, b, c, x[11], 10, 0xbd3af235);
    c := II(c, d, a, b, x[2], 15, 0x2ad7d2bb);
    b := II(b, c, d, a, x[9], 21, 0xeb86d391);
    return Abcd(a, b, c, d);
  }

  /** All sixty-four steps, written out as the program has them. */
  method Unrolled(s: Abcd, x: Block) returns (r: Abcd)
    ensures r == Compress(s, x)
  {
    hide Steps, Sum;
    r := FirstRound(s, x);
    r := SecondRound(r, x);
    r := ThirdRound(r, x);
    r := FourthRound(r, x);
    return Sum(s, r);
  }

  // ---------------------------------------------------------------- bytes and words

  /** A word of four octets, the lowest first. */
  function WordAt(b: seq<bv8>, at: nat): bv32
    requires at + 4 <= |b|
  {
    (b[at] as bv32) | ((b[at + 1] as bv32) << 8) | ((b[at + 2] as bv32) << 16) | ((b[at + 3] as bv32) << 24)
  }

  function WordOctets(w: bv32): (b: seq<bv8>)
    ensures |b| == 4
  {
    [(w & 0xff) as bv8, ((w >> 8) & 0xff) as bv8, ((w >> 16) & 0xff) as bv8, ((w >> 24) & 0xff) as bv8]
  }

  lemma WordOctetsRoundTrip(w: bv32)
    ensures WordAt(WordOctets(w), 0) == w
  {
  }

  function Decode(block: seq<bv8>): (x: Block)
    requires |block| == 64
  {
    seq(16, i requires 0 <= i < 16 => WordAt(block, 4 * i))
  }

  function EncodeState(s: Abcd): (b: seq<bv8>)
    ensures |b| == 16
  {
    WordOctets(s.a) + WordOctets(s.b) + WordOctets(s.c) + WordOctets(s.d)
  }

  // ---------------------------------------------------------------- the digest of a message

  /** All whole blocks of `b`, one after the other. */
  function Fold(s: Abcd, b: seq<bv8>): Abcd
    decreases |b|
  {
    if |b| < 64 then s else Fold(Compress(s, Decode(b[..64])), b[64..])
  }

  /** A one bit, then zeros: the first `k` octets of the padding table. */
  function Padding(k: nat): (b: seq<bv8>)
    requires 1 <= k <= 64
    ensures |b| == k
  {
    [0x80] + seq(k - 1, _ => 0)
  }

  /** How many octets of padding bring `n` octets to 56 modulo 64. */
  function PadLength(n: nat): (k: nat)
    ensures 1 <= k <= 64 && (n + k) % 64 == 56
  {
    if n % 64 < 56 then 56 - n % 64 else 120 - n % 64
  }

  lemma PadAligned(n: nat)
    ensures 1 <= PadLength(n) <= 64 && (n + PadLength(n) + 8) % 64 == 0
  {
  }

  /** The number of bits modulo 2^64, low word first. */
  function LengthOctets(n: nat): (b: seq<bv8>)
    ensures |b| == 8
  {
    CountOctets(LowWord(n), HighWord(n))
  }

  function CountOctets(low: u32, high: u32): (b: seq<bv8>)
    ensures |b| == 8
  {
    WordOctets(low as bv32) + WordOctets(high as bv32)
  }

  function LowWord(n: nat): u32 { 8 * n % 0x1_0000_0000 }

  function HighWord(n: nat): u32 { 8 * n / 0x1_0000_0000 % 0x1_0000_0000 }

  /** Sections 3.1 and 3.2. */
  function Padded(message: seq<bv8>): (b: seq<bv8>)
    ensures |b| % 64 == 0 && |message| < |b| && b[..|message|] == message
  {
    PadAligned(|message|);
    hide PadLength;
    message + Padding(PadLength(|message|)) + LengthOctets(|message|)
  }

  function Digest(message: seq<bv8>): (b: seq<bv8>)
    ensures |b| == 16
  {
    EncodeState(Fold(MAGIC, Padded(message)))
  }

  lemma {:induction false} FoldAppend(s: Abcd, a: seq<bv8>, b: seq<bv8>)
    requires |a| % 64 == 0
    ensures Fold(s, a + b) == Fold(Fold(s, a), b)
    decreases |a|
  {
    hide Compress, Decode;
    if a == [] {
      assert a + b == b;
    } else {
      assert (a + b)[..64] == a[..64] && (a + b)[64..] == a[64..] + b;
      FoldAppend(Compress(s, Decode(a[..64])), a[64..], b);
    }
  }

  lemma FoldBlock(s: Abcd, block: seq<bv8>)
    requires |block| == 64
    ensures Fold(s, block) == Compress(s, Decode(block))
  {
    hide Compress, Decode;
    assert block[..64] == block && block[64..] == [];
  }

  /** The two-word counter of bits, with the carry the program computes. */
  lemma CountBits(n: nat, len: nat)
    requires len < 0x1_0000_0000
    ensures var shifted := 8 * len % 0x1_0000_0000;
            var low := (LowWord(n) + shifted) % 0x1_0000_0000;
            var high := if low < shifted then (HighWord(n) + 1) % 0x1_0000_0000 else HighWord(n);
            && low == LowWord(n + len)
            && (high + len / 0x2000_0000) % 0x1_0000_0000 == HighWord(n + len)
  {
    var q, p := 8 * n / 0x1_0000_0000, len / 0x2000_0000;
    var a, b := LowWord(n), LowWord(len);
    assert 8 * n == q * 0x1_0000_0000 + a && 8 * len == p * 0x1_0000_0000 + b;
    hide LowWord;
    CarryOut(q, p, a, b, 8 * (n + len));
    HighWords(q, p, if a + b < 0x1_0000_0000 then 0 else 1);
  }

  lemma CarryOut(q: nat, p: nat, a: u32, b: u32, bits: nat)
    requires bits == (q + p) * 0x1_0000_0000 + a + b
    ensures var low, carry := (a + b) % 0x1_0000_0000, if a + b < 0x1_0000_0000 then 0 else 1;
            && (low < b <==> carry == 1)
            && bits % 0x1_0000_0000 == low && bits / 0x1_0000_0000 == q + p + carry
  {
  }

  lemma HighWords(q: nat, p: nat, carry: nat)
    requires carry <= 1
    ensures var high := if carry == 1 then (q % 0x1_0000_0000 + 1) % 0x1_0000_0000 else q % 0x1_0000_0000;
            (high + p) % 0x1_0000_0000 == (q + p + carry) % 0x1_0000_0000
  {
  }

  lemma IndexOf(n: nat)
    ensures LowWord(n) / 8 % 64 == n % 64
  {
    var q := 8 * n / 0x1_0000_0000;
    assert n == q * 0x2000_0000 + LowWord(n) / 8;
    assert n == 64 * (q * 0x80_0000) + LowWord(n) / 8;
  }

  lemma PadIndex(count0: u32, n: nat)
    requires count0 == LowWord(n)
    ensures var index := count0 / 8 % 64;
            PadLength(n) == if index < 56 then 56 - index else 120 - index
  {
    IndexOf(n);
  }

  /** What the program appends, from its two-word counter. */
  lemma PaddingFor(count0: u32, count1: u32, message: seq<bv8>)
    requires count0 == LowWord(|message|) && count1 == HighWord(|message|)
    ensures var index := count0 / 8 % 64;
            var padLen := if index < 56 then 56 - index else 120 - index;
            && 1 <= padLen <= 64
            && Padded(message) == (message + Padding(padLen)) + CountOctets(count0, count1)
  {
    hide LowWord, HighWord, CountOctets, Padding, PadLength;
    PadIndex(count0, |message|);
  }

  // ---------------------------------------------------------------- the streaming context

  class Md5Context {
    const state: array<bv32>
    var count0: u32
    var count1: u32
    const buffer: array<bv8>

    /** Everything hashed so far. */
    ghost var message: seq<bv8>

    ghost function StateNow(): Abcd
      reads state
      requires state.Length == 4
    {
      Abcd(state[0], state[1], state[2], state[3])
    }

    /** The state is the fold over all whole blocks, the buffer holds the rest, and the count is
        the number of bits modulo 2^64. */
    ghost predicate Valid()
      reads this, state, buffer
    {
      && state.Length == 4 && buffer.Length == 64
      && count0 == LowWord(|message|) && count1 == HighWord(|message|)
      && Hashed()
    }

    ghost predicate Hashed()
      reads this, state, buffer
    {
      var whole := |message| - |message| % 64;
      && state.Length == 4 && buffer.Length == 64
      && StateNow() == Fold(MAGIC, message[..whole]) && buffer[..|message| % 64] == message[whole..]
    }

    constructor ()
      ensures Valid() && fresh(state) && fresh(buffer) && message == []
    {
      state := new bv32[4];
      buffer := new bv8[64](_ => 0);
      count0, count1 := 0, 0;
      message := [];
      new;
      state[0], state[1], state[2], state[3] := MAGIC.a, MAGIC.b, MAGIC.c, MAGIC.d;
    }

    method Transform(block: seq<bv8>)
      requires state.Length == 4 && |block| == 64
      modifies state
      ensures StateNow() == Compress(old(StateNow()), Decode(block))
    {
      hide Compress, Decode;
      var x := DecodeBlock(block);
      var r := Unrolled(Abcd(state[0], state[1], state[2], state[3]), x);
      state[0], state[1], state[2], state[3] := r.a, r.b, r.c, r.d;
    }

    method Copy(at: nat, bytes: seq<bv8>)
      requires at + |bytes| <= buffer.Length
      modifies buffer
      ensures buffer[..at + |bytes|] == old(buffer[..at]) + bytes
    {
      for i := 0 to |bytes|
        invariant buffer[..at + i] == old(buffer[..at]) + bytes[..i]
      {
        buffer[at + i] := bytes[i];
        assert buffer[..at + i + 1] == buffer[..at + i] + [bytes[i]];
      }
      assert bytes[..|bytes|] == bytes;
    }

    /** Another chunk of the message, of any size the length arithmetic can take. */
    method Update(input: seq<bv8>)
      requires Valid() && |input| <= 0x1_0000_0000 - 64
      modifies this, state, buffer
      ensures Valid() && message == old(message) + input
    {
      hide LowWord, HighWord, Fold;
      IndexOf(|message|);
      var index := count0 / 8 % 64;
      Count(|input|);
      var i := 0;
      if |input| >= 64 - index {
        i := TransformBlocks(input, index);
        index := 0;
      }
      Buffer(input, i, index);
    }

    /** Transforms as many times as possible; returns how much of the input that has used. */
    method TransformBlocks(input: seq<bv8>, index: nat) returns (i: nat)
      requires Hashed() && index == |message| % 64 && |input| >= 64 - index
      modifies state, buffer
      ensures 0 < i <= |input| && |input| - i < 64 && (|message| + i) % 64 == 0
      ensures StateNow() == Fold(MAGIC, message + input[..i])
    {
      hide Fold;
      var partLen := 64 - index;
      FirstBlock(input[..partLen]);
      i := partLen;
      while i + 63 < |input|
        modifies state
        invariant partLen <= i <= |input| && (|message| + i) % 64 == 0
        invariant StateNow() == Fold(MAGIC, message + input[..i])
      {
        assert message + input[..i] + input[i..i + 64] == message + input[..i + 64];
        NextBlock(message + input[..i], input[i..i + 64]);
        i := i + 64;
      }
    }

    /** Keeps the rest of the input, from `i` on, in the buffer. */
    method Buffer(input: seq<bv8>, i: nat, index: nat)
      requires state.Length == 4 && buffer.Length == 64
      requires i <= |input| && |input| - i + index < 64
      requires count0 == LowWord(|message| + |input|) && count1 == HighWord(|message| + |input|)
      requires if i == 0 then Hashed() && index == |message| % 64
               else index == 0 && (|message| + i) % 64 == 0 && StateNow() == Fold(MAGIC, message + input[..i])
      modifies this`message, buffer
      ensures Valid() && message == old(message) + input
    {
      hide Fold, LowWord, HighWord;
      Copy(index, input[i..]);
      Chunked(message, input, i, index);
      message := message + input;
    }

    method Count(len: nat)
      requires len < 0x1_0000_0000
      requires count0 == LowWord(|message|) && count1 == HighWord(|message|)
      modifies this`count0, this`count1
      ensures count0 == LowWord(|message| + len) && count1 == HighWord(|message| + len)
    {
      CountBits(|message|, len);
      hide LowWord, HighWord;
      var shifted := 8 * len % 0x1_0000_0000;
      count0 := (count0 + shifted) % 0x1_0000_0000;
      if count0 < shifted {
        count1 := (count1 + 1) % 0x1_0000_0000;
      }
      count1 := (count1 + len / 0x2000_0000) % 0x1_0000_0000;
    }

    /** Completes the block in the buffer. */
    method FirstBlock(input: seq<bv8>)
      requires Hashed() && |message| % 64 + |input| == 64
      modifies state, buffer
      ensures StateNow() == Fold(MAGIC, message + input)
    {
      hide Fold;
      ghost var whole := |message| - |message| % 64;
      var index := 64 - |input|;
      Copy(index, input);
      assert buffer[..64] == buffer[..];
      NextBlock(message[..whole], buffer[..]);
      assert message[..whole] + (message[whole..] + input) == message + input;
    }

    method NextBlock(ghost before: seq<bv8>, block: seq<bv8>)
      requires state.Length == 4 && |before| % 64 == 0 && |block| == 64 && StateNow() == Fold(MAGIC, before)
      modifies state
      ensures StateNow() == Fold(MAGIC, before + block)
    {
      FoldAppend(MAGIC, before, block);
      FoldBlock(Fold(MAGIC, before), block);
      hide Fold, Compress, Decode;
      Transform(block);
    }

    /** Pads the message and returns its digest; the context is wiped. */
    method Final() returns (digest: seq<bv8>)
      requires Valid()
      modifies this, state, buffer
      ensures digest == Digest(old(message))
      ensures state[..] == [0, 0, 0, 0] && count0 == count1 == 0 && buffer[..] == seq(64, _ => 0 as bv8)
    {
      hide LowWord, HighWord, WordOctets, Fold, Padded;
      AppendPadding();
      assert message[..|message|] == message;
      digest := EncodeState(Abcd(state[0], state[1], state[2], state[3]));
      Wipe();
    }

    lemma CountIsLength()
      requires Valid()
      ensures count0 == LowWord(|message|) && count1 == HighWord(|message|)
    {
    }

    method AppendPadding()
      requires Valid()
      modifies this, state, buffer
      ensures Valid() && message == Padded(old(message))
    {
      hide Valid, LowWord, HighWord, CountOctets, Padding, PadLength, Padded, LengthOctets;
      CountIsLength();
      var bits := CountOctets(count0, count1);
      var index := count0 / 8 % 64;
      var padLen := if index < 56 then 56 - index else 120 - index;
      PaddingFor(count0, count1, message);
      Update(Padding(padLen));
      Update(bits);
    }

    method Wipe()
      requires state.Length == 4 && buffer.Length == 64
      modifies this`count0, this`count1, state, buffer
      ensures state[..] == [0, 0, 0, 0] && count0 == count1 == 0 && buffer[..] == seq(64, _ => 0 as bv8)
    {
      count0, count1 := 0, 0;
      state[0], state[1], state[2], state[3] := 0, 0, 0, 0;
      for i := 0 to 64
        modifies buffer
        invariant forall k | 0 <= k < i :: buffer[k] == 0
      {
        buffer[i] := 0;
      }
    }
  }

  method DecodeBlock(block: seq<bv8>) returns (x: Block)
    requires |block| == 64
    ensures x == Decode(block)
  {
    hide WordAt;
    var words := new bv32[16];
    for i := 0 to 16
      invariant forall k | 0 <= k < i :: words[k] == WordAt(block, 4 * k)
    {
      words[i] := WordAt(block, 4 * i);
    }
    return words[..];
  }

  /** After a chunk: `i` octets of it have completed blocks, the others lie in the buffer. */
  lemma Chunked(message: seq<bv8>, input: seq<bv8>, i: nat, index: nat)
    requires i <= |input| && |input| - i + index < 64
    requires if i == 0 then index == |message| % 64 else index == 0 && (|message| + i) % 64 == 0
    ensures var all := message + input;
            var whole := |all| - |all| % 64;
            && |all| % 64 == index + (|input| - i)
            && (i == 0 ==> all[..whole] == message[..|message| - |message| % 64]
                           && all[whole..] == message[|message| - |message| % 64..] + input[i..])
            && (i > 0 ==> all[..whole] == message + input[..i] && all[whole..] == input[i..])
  {
  }

  /** However a message is cut into chunks, its digest is the same. */
  method HashChunks(chunks: seq<seq<bv8>>) returns (digest: seq<bv8>)
    requires forall k | 0 <= k < |chunks| :: |chunks[k]| <= 0x1_0000_0000 - 64
    ensures digest == Digest(Joined(chunks))
  {
    hide Digest, Md5Context.Valid;
    var context := new Md5Context();
    for k := 0 to |chunks|
      invariant fresh(context) && fresh(context.state) && fresh(context.buffer)
      invariant context.Valid() && context.message == Joined(chunks[..k])
    {
      context.Update(chunks[k]);
      assert chunks[..k + 1][..k] == chunks[..k];
    }
    assert chunks[..|chunks|] == chunks;
    digest := context.Final();
  }

  function Joined(chunks: seq<seq<bv8>>): seq<bv8> {
    if chunks == [] then [] else Joined(chunks[..|chunks| - 1]) + chunks[|chunks| - 1]
  }
}
