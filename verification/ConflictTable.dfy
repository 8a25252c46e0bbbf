/** The table of transport addresses found to collide with our own SSRC (section 8.2 of RFC
    3550): a cache of sixteen addresses, each forgotten after a quiet time. */
module ConflictTable {
  import opened Words
  import opened SoftTimer
  import opened SessionTimers

  /** A socket address, compared octet by octet. */
  datatype Addr = Addr(family: u16, port: u16, ip: u32, zero: seq<u8>)

  const NO_ADDR := Addr(0, 0, 0, [])

  type AddrTable = s: seq<Addr> | |s| == CONFLICT_TABLE_SIZE witness seq(CONFLICT_TABLE_SIZE, _ => NO_ADDR)

  /** `touched` is a history variable: the tick of the last add or successful lookup. */
  datatype Conflicts = Conflicts(addrs: AddrTable, used: seq<Entry>, free: seq<Entry>, touched: map<Addr, nat>)

  const EMPTY := Conflicts(seq(CONFLICT_TABLE_SIZE, _ => NO_ADDR), [],
                           seq(CONFLICT_TABLE_SIZE, i requires 0 <= i < CONFLICT_TABLE_SIZE => i), map[])

  function Find(addrs: AddrTable, used: seq<Entry>, addr: Addr): (r: Option<Entry>)
    ensures r.Some? ==> r.value in used && addrs[r.value] == addr
    ensures r.None? ==> forall j | j in used :: addrs[j] != addr
  {
    if used == [] then None
    else if addrs[used[0]] == addr then Some(used[0])
    else
      assert used == [used[0]] + used[1..];
      Find(addrs, used[1..], addr)
  }

  /** A hit also restarts the quiet time of the address. */
  function LookupAddr(c: Conflicts, t: Timers, addr: Addr): (Conflicts, Timers, bool) {
    match Find(c.addrs, c.used, addr)
    case None => (c, t, false)
    case Some(j) => (c.(touched := c.touched[addr := t.now]), Rearm(t, ConflictTimer(j), CONFLICT_TIMEOUT), true)
  }

  function AddAddr(c: Conflicts, t: Timers, addr: Addr): (Conflicts, Timers, bool) {
    if c.free == [] then (c, t, false)
    else
      var j := c.free[0];
      (Conflicts(c.addrs[j := addr], c.used + [j], c.free[1..], c.touched[addr := t.now]),
       Arm(t, ConflictTimer(j), CONFLICT_TIMEOUT), true)
  }

  function Expire(c: Conflicts, j: Entry): Conflicts {
    c.(used := Remove(c.used, j), free := c.free + [j])
  }
}
