/**
 The telnet reader: bytes go through a state machine one at a time and come out as data bytes,
 option negotiations and subnegotiations.
 */
module TelnetReader {
  import opened Words

  const IAC: u8 := 255
  const DONT: u8 := 254
  const DO: u8 := 253
  const WONT: u8 := 252
  const WILL: u8 := 251
  const SB: u8 := 250
  const SE: u8 := 240

  const BUFFER_SIZE: nat := 32

  datatype Phase = Start | RxIac | RxOption | RxSb | WaitForSe

  /** What a stream is made of, and what the reader hands to its user. */
  datatype Token =
    | Byte(d: u8)
    | Negotiation(command: u8, opt: u8)
    | Subnegotiation(data: seq<u8>)

  // ---------------------------------------------------------------- the state machine

  /** `sub` is the part of the buffer in use; `out` is what the callbacks have received. */
  datatype Reader = Reader(phase: Phase, command: u8, opt: u8, sub: seq<u8>, out: seq<Token>)

  predicate Negotiates(command: u8) {
    command == DO || command == DONT || command == WILL || command == WONT
  }

  function Next(r: Reader, d: u8): Reader {
    match r.phase
    case Start => if d == IAC then r.(phase := RxIac) else r.(out := r.out + [Byte(d)])
    case RxIac =>
      if d == IAC then r.(phase := Start, out := r.out + [Byte(IAC)])
      else if Negotiates(d) then r.(command := d, phase := RxOption)
      else if d == SB then r.(command := d, phase := RxSb, sub := [])
      else r.(command := d, phase := Start)
    case RxOption => r.(opt := d, out := r.out + [Negotiation(r.command, d)], phase := Start)
    case RxSb =>
      if d == IAC then r.(phase := WaitForSe)
      else if |r.sub| < BUFFER_SIZE then r.(sub := r.sub + [d])
      else r.(phase := Start)
    case WaitForSe => r.(phase := Start, out := if d == SE then r.out + [Subnegotiation(r.sub)] else r.out)
  }

  function Feed(r: Reader, bytes: seq<u8>): Reader
    decreases |bytes|
  {
    if bytes == [] then r else Feed(Next(r, bytes[0]), bytes[1..])
  }

  /** The reader does not care how a stream is cut into chunks. */
  lemma {:induction false} FeedChunks(r: Reader, a: seq<u8>, b: seq<u8>)
    ensures Feed(r, a + b) == Feed(Feed(r, a), b)
    decreases |a|
  {
    hide Next;
    if a == [] {
      assert a + b == b;
    } else {
      assert (a + b)[0] == a[0] && (a + b)[1..] == a[1..] + b;
      FeedChunks(Next(r, a[0]), a[1..], b);
    }
  }

  // ---------------------------------------------------------------- streams

  predicate NoIac(data: seq<u8>) {
    forall i | 0 <= i < |data| :: data[i] != IAC
  }

  /** What a sender may put into a stream. */
  predicate Sendable(t: Token) {
    match t
    case Byte(_) => true
    case Negotiation(command, _) => Negotiates(command)
    case Subnegotiation(_) => true
  }

  function EscapeByte(d: u8): seq<u8> {
    if d == IAC then [IAC, IAC] else [d]
  }

  function EscapeData(data: seq<u8>): seq<u8> {
    if data == [] then [] else EscapeByte(data[0]) + EscapeData(data[1..])
  }

  function Escape(t: Token): seq<u8> {
    match t
    case Byte(d) => EscapeByte(d)
    case Negotiation(command, opt) => [IAC, command, opt]
    case Subnegotiation(data) => [IAC, SB] + EscapeData(data) + [IAC, SE]
  }

  function EscapeAll(ts: seq<Token>): seq<u8> {
    if ts == [] then [] else Escape(ts[0]) + EscapeAll(ts[1..])
  }

  function Bytes(data: seq<u8>): seq<Token> {
    if data == [] then [] else [Byte(data[0])] + Bytes(data[1..])
  }

  /** At most 32 octets, none of which had to be escaped. */
  predicate Fits(t: Token) {
    t.Subnegotiation? ==> |t.data| <= 32 && NoIac(t.data)
  }

  /** How many octets of a subnegotiation are stored, with room for so many: up to the first 255. */
  function Stored(data: seq<u8>, room: nat): (n: nat)
    ensures n <= |data|
    ensures n == |data| <==> |data| <= room && NoIac(data)
  {
    if data == [] || data[0] == IAC || room == 0 then 0
    else
      assert data == [data[0]] + data[1..];
      1 + Stored(data[1..], room - 1)
  }

  /** What becomes of one token: of a subnegotiation that does not fit, the first octet that is not
      stored is dropped and the rest is taken for data. */
  function Recovered(t: Token): seq<Token> {
    if Fits(t) then [t] else Bytes(t.data[Stored(t.data, BUFFER_SIZE) + 1..])
  }

  lemma {:induction false} PlainBytes(r: Reader, data: seq<u8>)
    requires r.phase == Start
    ensures Feed(r, EscapeData(data)) == r.(out := r.out + Bytes(data))
    decreases |data|
  {
    if data != [] {
      var d := data[0];
      if d == IAC {
        TwoBytes(r, IAC, IAC);
      } else {
        OneByte(r, d);
      }
      hide Next, Feed;
      FeedChunks(r, EscapeByte(d), EscapeData(data[1..]));
      PlainBytes(r.(out := r.out + [Byte(d)]), data[1..]);
      assert r.out + [Byte(d)] + Bytes(data[1..]) == r.out + Bytes(data);
    } else {
      assert r.out + [] == r.out;
    }
  }

  /** Octets of a subnegotiation are stored as long as there is room and none is 255; the first that is
      not ends it. */
  lemma {:induction false} BufferedBytes(r: Reader, data: seq<u8>)
    requires r.phase == RxSb && |r.sub| <= BUFFER_SIZE
    ensures var t, n := Feed(r, EscapeData(data)), Stored(data, BUFFER_SIZE - |r.sub|);
            if n == |data| then t == r.(sub := r.sub + data)
            else t.phase == Start && t.out == r.out + Bytes(data[n + 1..])
    decreases |data|
  {
    hide Feed, Next, EscapeByte, Bytes;
    if data == [] {
      NothingFed(r);
      assert r.sub + [] == r.sub;
    } else {
      var d, rest := data[0], data[1..];
      FeedChunks(r, EscapeByte(d), EscapeData(rest));
      OneBuffered(r, d);
      hide EscapeData;
      if d == IAC || |r.sub| == BUFFER_SIZE {
        PlainBytes(r.(phase := Start), rest);
      } else {
        BufferedBytes(r.(sub := r.sub + [d]), rest);
        assert r.sub + [d] + rest == r.sub + data;
        var n := Stored(rest, BUFFER_SIZE - |r.sub| - 1);
        assert n < |rest| ==> rest[n + 1..] == data[n + 2..];
      }
    }
  }

  lemma OneBuffered(r: Reader, d: u8)
    requires r.phase == RxSb && |r.sub| <= BUFFER_SIZE
    ensures Feed(r, EscapeByte(d)) == if d == IAC || |r.sub| == BUFFER_SIZE then r.(phase := Start) else r.(sub := r.sub + [d])
  {
    hide Feed;
    if d == IAC {
      TwoBytes(r, IAC, IAC);
    } else {
      OneByte(r, d);
    }
  }

  lemma OneByte(r: Reader, a: u8)
    ensures Feed(r, [a]) == Next(r, a)
  {
    hide Next;
    assert [a][1..] == [];
  }

  lemma TwoBytes(r: Reader, a: u8, b: u8)
    ensures Feed(r, [a, b]) == Next(Next(r, a), b)
  {
    hide Next;
    assert [a, b][1..] == [b];
    OneByte(Next(r, a), b);
  }

  lemma ThreeBytes(r: Reader, a: u8, b: u8, c: u8)
    ensures Feed(r, [a, b, c]) == Next(Next(Next(r, a), b), c)
  {
    hide Next;
    assert [a, b, c][1..] == [b, c];
    TwoBytes(Next(r, a), b, c);
  }

  lemma SubnegotiationFed(r: Reader, data: seq<u8>)
    requires r.phase == Start
    ensures var t := Feed(r, Escape(Subnegotiation(data)));
            t.phase == Start && t.out == r.out + Recovered(Subnegotiation(data))
  {
    hide Feed, EscapeData, Stored, Bytes, Escape, Fits;
    var open := r.(command := SB, phase := RxSb, sub := []);
    InThreeParts(r, data);
    BufferedBytes(open, data);
    assert [] + data == data;
    Closes(Feed(open, EscapeData(data)));
    FitsIf(data);
  }

  lemma FitsIf(data: seq<u8>)
    ensures Fits(Subnegotiation(data)) <==> Stored(data, BUFFER_SIZE) == |data|
  {
    hide Stored;
  }

  lemma InThreeParts(r: Reader, data: seq<u8>)
    requires r.phase == Start
    ensures Feed(r, Escape(Subnegotiation(data))) == Feed(Feed(r.(command := SB, phase := RxSb, sub := []), EscapeData(data)), [IAC, SE])
  {
    hide Feed, EscapeData;
    Opens(r);
    FeedChunks(r, [IAC, SB] + EscapeData(data), [IAC, SE]);
    FeedChunks(r, [IAC, SB], EscapeData(data));
  }

  lemma Opens(r: Reader)
    requires r.phase == Start
    ensures Feed(r, [IAC, SB]) == r.(command := SB, phase := RxSb, sub := [])
  {
    hide Feed;
    TwoBytes(r, IAC, SB);
  }

  /** The end of a subnegotiation hands it over if it is still being stored, and is skipped otherwise. */
  lemma Closes(r: Reader)
    requires r.phase == Start || r.phase == RxSb
    ensures var t := Feed(r, [IAC, SE]);
            t.phase == Start && t.out == if r.phase == RxSb then r.out + [Subnegotiation(r.sub)] else r.out
  {
    hide Feed;
    TwoBytes(r, IAC, SE);
  }

  lemma TokenFed(r: Reader, t: Token)
    requires r.phase == Start && Sendable(t)
    ensures var s := Feed(r, Escape(t)); s.phase == Start && s.out == r.out + Recovered(t)
  {
    match t
    case Byte(d) =>
      if d == IAC {
        TwoBytes(r, IAC, IAC);
      } else {
        OneByte(r, d);
      }
    case Negotiation(command, opt) => ThreeBytes(r, IAC, command, opt);
    case Subnegotiation(data) => SubnegotiationFed(r, data);
  }

  function RecoveredAll(ts: seq<Token>): seq<Token> {
    if ts == [] then [] else Recovered(ts[0]) + RecoveredAll(ts[1..])
  }

  lemma {:induction false} StreamFed(r: Reader, ts: seq<Token>)
    requires r.phase == Start && forall t | t in ts :: Sendable(t)
    ensures var s := Feed(r, EscapeAll(ts)); s.phase == Start && s.out == r.out + RecoveredAll(ts)
    decreases |ts|
  {
    hide Feed, Next, Escape, Recovered, Sendable;
    if ts == [] {
      NothingFed(r);
      assert r.out + [] == r.out;
    } else {
      FeedChunks(r, Escape(ts[0]), EscapeAll(ts[1..]));
      TokenFed(r, ts[0]);
      StreamFed(Feed(r, Escape(ts[0])), ts[1..]);
      Regroup(r.out, Recovered(ts[0]), RecoveredAll(ts[1..]));
    }
  }

  lemma Regroup(a: seq<Token>, b: seq<Token>, c: seq<Token>)
    ensures (a + b) + c == a + (b + c)
  {
  }

  lemma NothingFed(r: Reader)
    ensures Feed(r, []) == r
  {
  }

  /** The codes on the wire (RFC 854 and RFC 855): 255 starts a command and stands doubled for itself, 251 to 254
      negotiate an option, 250 starts a subnegotiation and 240 ends it. */
  lemma CodesOnTheWire(r: Reader, d: u8, command: u8, opt: u8, data: seq<u8>)
    requires r.phase == Start && d != 255 && 251 <= command <= 254
    requires |data| <= 32 && forall k | 0 <= k < |data| :: data[k] != 255
    ensures Feed(r, [d]).out == r.out + [Byte(d)] && Feed(r, [255, 255]).out == r.out + [Byte(255)]
    ensures Feed(r, [255, command, opt]).out == r.out + [Negotiation(command, opt)]
    ensures Feed(r, [255, 250] + data + [255, 240]).out == r.out + [Subnegotiation(data)]
  {
    OneByte(r, d);
    TwoBytes(r, 255, 255);
    ThreeBytes(r, 255, command, opt);
    NothingEscaped(data);
    hide Feed;
    SubnegotiationFed(r, data);
  }

  lemma {:induction false} NothingEscaped(data: seq<u8>)
    requires NoIac(data)
    ensures EscapeData(data) == data
  {
    if data != [] {
      NothingEscaped(data[1..]);
      assert data == [data[0]] + data[1..];
    }
  }

  // ---------------------------------------------------------------- exact recovery

  function Subnegotiations(ts: seq<Token>): nat {
    if ts == [] then 0 else (if ts[0].Subnegotiation? then 1 else 0) + Subnegotiations(ts[1..])
  }

  lemma {:induction false} SubnegotiationsAppend(a: seq<Token>, b: seq<Token>)
    ensures Subnegotiations(a + b) == Subnegotiations(a) + Subnegotiations(b)
  {
    if a == [] {
      assert a + b == b;
    } else {
      assert (a + b)[1..] == a[1..] + b;
      SubnegotiationsAppend(a[1..], b);
    }
  }

  lemma {:induction false} NoneInBytes(data: seq<u8>)
    ensures Subnegotiations(Bytes(data)) == 0
  {
    if data != [] {
      NoneInBytes(data[1..]);
      assert Bytes(data)[1..] == Bytes(data[1..]);
    }
  }

  lemma {:induction false} LostOnes(ts: seq<Token>)
    ensures Subnegotiations(RecoveredAll(ts)) <= Subnegotiations(ts)
    ensures (exists t :: t in ts && !Fits(t)) ==> Subnegotiations(RecoveredAll(ts)) < Subnegotiations(ts)
  {
    if ts != [] {
      LostOnes(ts[1..]);
      SubnegotiationsAppend(Recovered(ts[0]), RecoveredAll(ts[1..]));
      if !Fits(ts[0]) {
        NoneInBytes(ts[0].data[Stored(ts[0].data, BUFFER_SIZE) + 1..]);
      }
      assert forall t | t in ts :: t == ts[0] || t in ts[1..];
    }
  }

  lemma {:induction false} AllRecovered(ts: seq<Token>)
    requires forall t | t in ts :: Fits(t)
    ensures RecoveredAll(ts) == ts
  {
    if ts != [] {
      AllRecovered(ts[1..]);
      assert ts == [ts[0]] + ts[1..];
    }
  }

  /** A whole escaped stream is recovered exactly, whatever it consists of, if and only if none of
      its subnegotiations has more than 32 octets or one of 255; either way the reader is back at its start. */
  lemma RecoveredIffFits(r: Reader, ts: seq<Token>)
    requires r.phase == Start && r.out == [] && forall t | t in ts :: Sendable(t)
    ensures Feed(r, EscapeAll(ts)).phase == Start
    ensures Feed(r, EscapeAll(ts)).out == ts <==> forall t | t in ts :: Fits(t)
  {
    hide Feed, RecoveredAll, Subnegotiations, EscapeAll, Fits, Sendable;
    StreamFed(r, ts);
    assert r.out + RecoveredAll(ts) == RecoveredAll(ts);
    if forall t | t in ts :: Fits(t) {
      AllRecovered(ts);
    } else {
      LostOnes(ts);
    }
  }

  // ---------------------------------------------------------------- the reader object

  class TelnetReader {
    const buffer: array<u8>
    var bufNdx: nat
    var state: Phase
    var command: u8
    var opt: u8
    ghost var out: seq<Token>

    ghost predicate Valid()
      reads this
    {
      buffer.Length == BUFFER_SIZE && bufNdx <= BUFFER_SIZE && (state.RxSb? || state.WaitForSe? ==> command == SB)
    }

    ghost function Abs(): Reader
      reads this, buffer
      requires Valid()
    {
      Reader(state, command, opt, buffer[..bufNdx], out)
    }

    constructor ()
      ensures Valid() && fresh(buffer) && state == Start && bufNdx == 0 && out == []
    {
      buffer := new u8[BUFFER_SIZE](_ => 0);
      bufNdx, state, command, opt := 0, Start, 0, 0;
      out := [];
    }

    /** Returns false if the command is not known. */
    method HandleCommand(d: u8) returns (ok: bool)
      requires Valid() && state == RxIac && d != IAC
      modifies this`command, this`state, this`bufNdx
      ensures Valid() && ok == (Negotiates(d) || d == SB)
      ensures ok ==> Abs() == Next(old(Abs()), d)
      ensures !ok ==> state == RxIac && Abs() == old(Abs()).(command := d)
    {
      command := d;
      if d == DO || d == DONT || d == WILL || d == WONT {
        state := RxOption;
        return true;
      }
      if d == SB {
        bufNdx := 0;
        state := RxSb;
        return true;
      }
      return false;
    }

    /** Returns false if the buffer is full. */
    method HandleSubcommand(d: u8) returns (ok: bool)
      requires Valid() && state == RxSb
      modifies this`state, this`bufNdx, buffer
      ensures Valid() && ok == (d == IAC || old(bufNdx) < BUFFER_SIZE)
      ensures Abs() == if ok then Next(old(Abs()), d) else old(Abs())
    {
      if d == IAC {
        state := WaitForSe;
        return true;
      }
      if bufNdx < BUFFER_SIZE {
        buffer[bufNdx] := d;
        bufNdx := bufNdx + 1;
        return true;
      }
      return false;
    }

    method StateMachine(d: u8)
      requires Valid()
      modifies this, buffer
      ensures Valid() && Abs() == Next(old(Abs()), d)
    {
      match state
      case Start =>
        if d == IAC {
          state := RxIac;
        } else {
          out := out + [Byte(d)];
        }
      case RxIac =>
        if d == IAC {
          state := Start;
          out := out + [Byte(IAC)];
        } else {
          var ok := HandleCommand(d);
          if !ok {
            state := Start;
          }
        }
      case RxOption =>
        opt := d;
        out := out + [Negotiation(command, opt)];
        state := Start;
      case RxSb =>
        var ok := HandleSubcommand(d);
        if !ok {
          state := Start;
        }
      case WaitForSe =>
        if d == SE {
          out := out + [Subnegotiation(buffer[..bufNdx])];
        }
        state := Start;
    }

    method FeedBytes(data: seq<u8>)
      requires Valid()
      modifies this, buffer
      ensures Valid() && Abs() == Feed(old(Abs()), data)
    {
      hide Next;
      for i := 0 to |data|
        invariant Valid()
        invariant Feed(Abs(), data[i..]) == Feed(old(Abs()), data)
      {
        assert data[i..][0] == data[i] && data[i..][1..] == data[i + 1..];
        StateMachine(data[i]);
      }
      assert data[|data|..] == [];
    }
  }
}
