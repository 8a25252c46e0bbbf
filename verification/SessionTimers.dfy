/** The timers of one session, on the flat reference of the soft timer. */
module SessionTimers {
  import opened Words
  import opened SoftTimer

  const MAX_MEMBERS: nat := 32
  const CONFLICT_TABLE_SIZE: nat := 16

  type Slot = n: nat | n < MAX_MEMBERS
  type Entry = n: nat | n < CONFLICT_TABLE_SIZE

  datatype TimerId =
    | RtcpTimer
    | MemberTimer(slot: Slot)
    | SenderTimer(slot: Slot)
    | LeaveTimer(slot: Slot)
    | ConflictTimer(entry: Entry)

  const TICK_RATE: int := 100

  type Timers = f: Flat<TimerId> | WellFormed(f) && f.rate == TICK_RATE witness Flat(TICK_RATE, 0, [], [])

  const MEMBER_TIMEOUT: int := 10000
  const SENDER_TIMEOUT: int := 5000
  const LEAVE_TIMEOUT: int := 3000
  const CONFLICT_TIMEOUT: int := 5000

  lemma TimeoutTicks()
    ensures Delay(TICK_RATE, MEMBER_TIMEOUT) == 100
    ensures Delay(TICK_RATE, SENDER_TIMEOUT) == 50
    ensures Delay(TICK_RATE, LEAVE_TIMEOUT) == 30
    ensures Delay(TICK_RATE, CONFLICT_TIMEOUT) == 50
  {
  }

  /** The tick a timer is armed for, if it is armed. */
  function DueAt(t: Timers, e: TimerId): Option<nat> {
    DeadlineOf(t.armed, e)
  }

  function Arm(t: Timers, e: TimerId, millis: int): (r: Timers)
    ensures r.now == t.now && Due(r) == Due(t) && (Settled(t) ==> Settled(r))
    ensures forall f :: DueAt(r, f) ==
                        if f == e && DueAt(t, e).None? then Some(t.now + Delay(TICK_RATE, millis)) else DueAt(t, f)
  {
    ArmMeans(t, e, millis);
    AddKeeps(t, e, millis);
    Add(t, e, millis)
  }

  lemma ArmMeans(t: Timers, e: TimerId, millis: int)
    ensures forall f :: DeadlineOf(Add(t, e, millis).armed, f) ==
                        if f == e && DueAt(t, e).None? then Some(t.now + Delay(TICK_RATE, millis)) else DueAt(t, f)
  {
    hide DeadlineOf, Names;
    if e !in Names(t.armed) {
      var x := Armed(e, t.now + Delay(TICK_RATE, millis));
      forall f
        ensures DeadlineOf(t.armed + [x], f) == if f == e then Some(x.deadline) else DueAt(t, f)
      {
        AppendDeadline(t.armed, x, f);
      }
    }
  }

  function Disarm(t: Timers, e: TimerId): (r: Timers)
    ensures r.now == t.now && |Due(r)| <= |Due(t)| && (Settled(t) ==> Settled(r))
    ensures forall f :: DueAt(r, f) == if f == e then None else DueAt(t, f)
  {
    DisarmMeans(t, e);
    DelKeeps(t, e);
    RemoveLength(Due(t), e);
    Del(t, e)
  }

  lemma DisarmMeans(t: Timers, e: TimerId)
    ensures forall f :: DeadlineOf(Del(t, e).armed, f) == if f == e then None else DueAt(t, f)
  {
    forall f {
      WithoutDeadline(t.armed, e, f);
    }
  }

  function Rearm(t: Timers, e: TimerId, millis: int): (r: Timers)
    ensures r.now == t.now && |Due(r)| <= |Due(t)| && (Settled(t) ==> Settled(r))
    ensures forall f :: DueAt(r, f) == if f == e then Some(t.now + Delay(TICK_RATE, millis)) else DueAt(t, f)
  {
    hide Arm, Disarm, DueAt, Delay, Due, Settled, WellFormed;
    var u := Disarm(t, e);
    Arm(u, e, millis)
  }

  /** Takes the first due timer out, to run its callback. */
  function TakeFirst(t: Timers): (r: Timers)
    requires Due(t) != []
    ensures r.now == t.now && Due(r) == Due(t)[1..]
    ensures DueAt(t, Due(t)[0]) == Some(t.now)
    ensures forall f :: DueAt(r, f) == if f == Due(t)[0] then None else DueAt(t, f)
  {
    TakeMeans(t);
    FireKeeps(t);
    Fire(t)
  }

  lemma TakeMeans(t: Timers)
    requires Due(t) != []
    ensures DueAt(t, Due(t)[0]) == Some(t.now)
    ensures forall f :: DeadlineOf(Fire(t).armed, f) == if f == Due(t)[0] then None else DueAt(t, f)
  {
    FireKeeps(t);
    DistinctDeadline(t.armed, Armed(Due(t)[0], t.now));
    forall f {
      WithoutDeadline(t.armed, Due(t)[0], f);
    }
  }

  function AdvanceTimers(t: Timers): (r: Timers)
    requires Settled(t)
    ensures r.now == t.now + 1
    ensures forall f :: DueAt(r, f) == DueAt(t, f)
  {
    Advance(t)
  }

  /** No armed timer is overdue, and between ticks none is due. */
  lemma NotOverdue(t: Timers, e: TimerId)
    requires DueAt(t, e).Some?
    ensures t.now <= DueAt(t, e).value
    ensures Settled(t) ==> t.now < DueAt(t, e).value
  {
  }

  lemma NothingDue(t: Timers)
    requires Due(t) == []
    ensures Settled(t)
  {
    forall x | x in t.armed ensures t.now < x.deadline {
      if x.deadline == t.now {
        ListedHas(t.armed, t.now, TIMEOUT_LIST, x);
      }
    }
  }
}
