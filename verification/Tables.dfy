/**
 The tables of a session, updated in place: the member table with its used and free lists, and
 the table of conflicting addresses.  Both are tied to the functions of the pure state machine.
 */
module Tables {
  import opened Words
  import opened SoftTimer
  import opened SessionTimers
  import opened ConflictTable
  import opened Session

  // ---------------------------------------------------------------- members

  class MemberTable {
    const slots: array<Member>
    var used: seq<Slot>
    var free: seq<Slot>
    var numMembers: u32

    ghost predicate Valid()
      reads this
    {
      slots.Length == MAX_MEMBERS && |used| + |free| <= MAX_MEMBERS
    }

    ghost function Members(): Slots
      reads this, slots
      requires Valid()
    {
      slots[..]
    }

    /** All slots are free; a slot that was never used holds a blank member. */
    constructor ()
      ensures Valid() && fresh(slots)
      ensures used == [] && numMembers == 0 && Members() == seq(MAX_MEMBERS, _ => BLANK_MEMBER)
      ensures free == seq(MAX_MEMBERS, i requires 0 <= i < MAX_MEMBERS => i)
    {
      slots := new Member[MAX_MEMBERS](_ => BLANK_MEMBER);
      used, free, numMembers := [], [], 0;
      new;
      for i := 0 to MAX_MEMBERS
        modifies this`free
        invariant free == seq(i, k requires 0 <= k < i => k)
        invariant used == [] && numMembers == 0
      {
        free := free + [i];
      }
    }

    method Set(i: Slot, m: Member)
      requires Valid()
      modifies slots
      ensures Members() == old(Members())[i := m]
    {
      slots[i] := m;
    }

    method Lookup(ssrc: u32) returns (r: Option<Slot>)
      requires Valid()
      ensures r == FindSsrc(Members(), used, ssrc)
    {
      var k := 0;
      while k < |used|
        invariant 0 <= k <= |used|
        invariant FindSsrc(Members(), used, ssrc) == FindSsrc(Members(), used[k..], ssrc)
      {
        if slots[used[k]].ssrc == ssrc {
          return Some(used[k]);
        }
        assert used[k..][1..] == used[k + 1..];
        k := k + 1;
      }
      return None;
    }

    method Alloc(ssrc: u32) returns (r: Option<Slot>)
      requires Valid()
      modifies this, slots
      ensures Valid()
      ensures old(free) == [] ==>
                r == None && used == old(used) && free == [] && numMembers == old(numMembers) && Members() == old(Members())
      ensures old(free) != [] ==>
                var i := old(free)[0];
                && r == Some(i) && used == old(used) + [i] && free == old(free)[1..]
                && numMembers == Wrap32(old(numMembers) + 1) && Members() == old(Members())[i := Fresh(old(Members())[i], ssrc)]
    {
      if free == [] {
        return None;
      }
      var i := free[0];
      free := free[1..];
      Set(i, Fresh(slots[i], ssrc));
      used := used + [i];
      numMembers := Wrap32(numMembers + 1);
      return Some(i);
    }

    method Free(i: Slot)
      requires Valid() && i in used
      modifies this
      ensures Valid()
      ensures used == Remove(old(used), i) && free == old(free) + [i] && numMembers == Wrap32(old(numMembers) - 1)
    {
      RemoveShrinks(used, i);
      used := Remove(used, i);
      numMembers := Wrap32(numMembers - 1);
      free := free + [i];
    }

    /** Draws until it finds an SSRC that nobody in the table uses; returns the next draw. */
    method ChangeRandomSsrc(i: Slot, random32: nat -> u32, at: nat) returns (next: nat)
      requires Valid() && Escapes(random32, at, SsrcsIn(Members(), used))
      modifies slots
      ensures var k := DrawnAt(random32, at, SsrcsIn(old(Members()), used));
              next == k + 1 && Members() == old(Members())[i := old(Members())[i].(ssrc := random32(k))]
    {
      hide Escapes;
      ghost var taken := SsrcsIn(Members(), used);
      ghost var stop := DrawnAt(random32, at, taken);
      next := at;
      var ssrc := random32(next);
      var other := Lookup(ssrc);
      while other.Some?
        modifies {}
        invariant at <= next <= stop && ssrc == random32(next) && other == FindSsrc(Members(), used, ssrc)
        decreases stop - next
      {
        next := next + 1;
        ssrc := random32(next);
        other := Lookup(ssrc);
      }
      assert ssrc !in taken;
      Set(i, slots[i].(ssrc := ssrc));
      next := next + 1;
    }
  }

  lemma {:induction false} RemoveShrinks(s: seq<Slot>, i: Slot)
    requires i in s
    ensures |Remove(s, i)| < |s|
  {
    RemoveLength(s[1..], i);
    if s[0] != i {
      RemoveShrinks(s[1..], i);
    }
  }

  // ---------------------------------------------------------------- conflicting addresses

  class ConflictCache {
    const tmr: Wheel<TimerId>
    const addrs: array<Addr>
    var used: seq<Entry>
    var free: seq<Entry>
    ghost var touched: map<Addr, nat>

    ghost predicate Valid()
      reads this, tmr, tmr.buckets
    {
      addrs.Length == CONFLICT_TABLE_SIZE && tmr.Valid() && tmr.rate == TICK_RATE
    }

    ghost function Abs(): Conflicts
      reads this, addrs
      requires addrs.Length == CONFLICT_TABLE_SIZE
    {
      Conflicts(addrs[..], used, free, touched)
    }

    constructor (tmr: Wheel<TimerId>)
      requires tmr.Valid() && tmr.rate == TICK_RATE
      ensures Valid() && fresh(addrs) && this.tmr == tmr && Abs() == EMPTY
    {
      this.tmr := tmr;
      addrs := new Addr[CONFLICT_TABLE_SIZE](_ => NO_ADDR);
      used, free, touched := [], [], map[];
      new;
      for i := 0 to CONFLICT_TABLE_SIZE
        modifies this`free
        invariant free == seq(i, k requires 0 <= k < i => k)
        invariant used == [] && touched == map[]
      {
        free := free + [i];
      }
    }

    /** A hit also restarts the entry's timer. */
    method Lookup(addr: Addr) returns (found: bool)
      requires Valid()
      modifies this`touched, tmr, tmr.buckets
      ensures Valid() && (Abs(), tmr.flat, found) == LookupAddr(old(Abs()), old(tmr.flat), addr)
    {
      var k := 0;
      while k < |used|
        invariant 0 <= k <= |used|
        invariant Valid() && Abs() == old(Abs()) && tmr.flat == old(tmr.flat)
        invariant Find(addrs[..], used, addr) == Find(addrs[..], used[k..], addr)
      {
        if addrs[used[k]] == addr {
          touched := touched[addr := tmr.flat.now];
          tmr.Stop(ConflictTimer(used[k]));
          tmr.Start(ConflictTimer(used[k]), CONFLICT_TIMEOUT);
          return true;
        }
        assert used[k..][1..] == used[k + 1..];
        k := k + 1;
      }
      return false;
    }

    method Add(addr: Addr) returns (ok: bool)
      requires Valid()
      modifies this, addrs, tmr, tmr.buckets
      ensures Valid() && (Abs(), tmr.flat, ok) == AddAddr(old(Abs()), old(tmr.flat), addr)
    {
      if free == [] {
        return false;
      }
      var j := free[0];
      free := free[1..];
      addrs[j] := addr;
      used := used + [j];
      touched := touched[addr := tmr.flat.now];
      tmr.Start(ConflictTimer(j), CONFLICT_TIMEOUT);
      return true;
    }

    method Expired(j: Entry)
      requires Valid()
      modifies this
      ensures Valid() && Abs() == Expire(old(Abs()), j)
    {
      used := Remove(used, j);
      free := free + [j];
    }
  }
}
