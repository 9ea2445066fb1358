/**
 One iteration of the client loop as a function on states.  Clock readings and
 random draws of the iteration come in as a Tick; the socket table is that of
 SocketTable.  Step describes the effect of an iteration by filters on the table
 and the map, not by the order in which the loop reaches it.
 */
module Scheduler {
  import opened Common
  import opened SocketTable

  /** Nanoseconds since the epoch. */
  type Time = nat

  const NANOS_PER_MILLI: nat := 1_000_000

  datatype Config = Config(
    base: nat,           // address, as a 32-bit number
    staticConns: nat,    // connections_static
    dynMax: nat,         // connections_dyn_max
    perAddr: nat,        // conns_per_addr
    sendInterval: nat,   // send_interval, milliseconds
    preempt: bool)

  /**
   Configuration values in their integer widths.  No connections per address is a
   division by zero, and preemption with no dynamic connections draws from an empty
   range; the program aborts on both at the first arrival.
   */
  predicate ValidConfig(c: Config) {
    && c.base < U32 && c.staticConns < U32 && c.dynMax < U32
    && 0 < c.perAddr < U16 && c.sendInterval < U64
    && (c.preempt ==> 0 < c.dynMax)
  }

  /** When a dynamic connection was opened and its lifetime in rounded milliseconds. */
  datatype Deadline = Deadline(since: Time, life: nat)

  datatype State = State(
    sockets: Table,
    dynamic: map<Handle, Deadline>,
    total: nat,          // total_conns
    arrivals: Time,
    interval: nat,       // rounded milliseconds until the next arrival
    sendTimer: Time,
    now: Time)           // latest clock reading taken so far

  /** What the loop reads while it examines one socket. */
  datatype Visit = Visit(ageAt: Time, maySend: bool, sendAt: Time, resetAt: Time)

  /** Readings and draws of one iteration, in the order the loop takes them. */
  datatype Tick = Tick(
    polledAt: Time,
    arrivalAt: Time,
    lifetime: nat,
    victim: nat,
    openedAt: Time,
    nextInterval: nat,
    rearmedAt: Time,
    visits: Handle -> Visit,
    doneAt: Time)

  /** The readings taken for slot h are in order and within the sweep. */
  predicate SlotOrder(t: Tick, h: Handle) {
    t.rearmedAt <= t.visits(h).ageAt <= t.visits(h).sendAt <= t.visits(h).resetAt <= t.doneAt
  }

  /** Slot g is done with before slot h is looked at. */
  predicate SlotBefore(t: Tick, g: Handle, h: Handle) {
    t.visits(g).resetAt <= t.visits(h).ageAt
  }

  /** The readings of one iteration never go back. */
  ghost predicate Monotone(t: Tick) {
    && t.polledAt <= t.arrivalAt <= t.openedAt <= t.rearmedAt <= t.doneAt
    && (forall h: Handle :: SlotOrder(t, h))
    && (forall g: Handle, h: Handle :: g < h ==> SlotBefore(t, g, h))
  }

  /** A tick that can follow a state whose last reading was `now`. */
  ghost predicate TickOk(c: Config, now: Time, t: Tick) {
    now <= t.polledAt && Monotone(t) && (c.preempt ==> t.victim < c.dynMax)
  }

  /** Whole milliseconds between two readings. */
  function Elapsed(since: Time, at: Time): nat
    requires since <= at
  {
    (at - since) / NANOS_PER_MILLI
  }

  function StaticSet(st: State): set<Handle> {
    OriginSet(st.sockets, Static)
  }

  /** What holds whenever control is at the head of the loop. */
  ghost predicate Inv(c: Config, st: State) {
    && OriginSet(st.sockets, Dynamic) == st.dynamic.Keys
    && |st.dynamic| <= c.dynMax
    && |StaticSet(st)| <= c.staticConns
    && |st.sockets| <= c.staticConns + c.dynMax + 1
    && (forall h :: Live(st.sockets, h) ==> st.sockets[h].value.index < U32)
    && st.total < U32
    && st.arrivals <= st.now && st.sendTimer <= st.now
    && (forall h :: h in st.dynamic ==> st.dynamic[h].since <= st.now)
  }

  // ----- arrival: admission, refusal and preemption

  predicate Arrives(st: State, t: Tick)
    requires st.arrivals <= t.arrivalAt
  {
    Elapsed(st.arrivals, t.arrivalAt) > st.interval
  }

  /** The connections limit is reached and somebody has to go. */
  predicate MustPreempt(c: Config, st: State) {
    |st.dynamic| == c.dynMax && c.preempt
  }

  /** The socket picked as victim: the idx-th of all live sockets, static ones included. */
  function Victim(c: Config, st: State, t: Tick): (h: Handle)
    requires Inv(c, st) && MustPreempt(c, st) && t.victim < c.dynMax
    ensures Live(st.sockets, h)
  {
    EnoughLive(c, st);
    Handles(st.sockets)[t.victim]
  }

  /** `nth(idx)` stays in range because dynamic sockets are live sockets. */
  lemma EnoughLive(c: Config, st: State)
    requires Inv(c, st)
    ensures |st.dynamic| <= |Handles(st.sockets)|
    ensures |Handles(st.sockets)| <= c.staticConns + c.dynMax
  {
    HandlesCount(st.sockets);
    OriginSplit(st.sockets);
    assert |st.dynamic| == |st.dynamic.Keys|;
  }

  /** The handle removed from the map and put on the close list by an arrival. */
  function Preempted(c: Config, st: State, t: Tick): set<Handle>
    requires Inv(c, st) && t.polledAt <= t.arrivalAt && st.now <= t.polledAt
    requires c.preempt ==> t.victim < c.dynMax
  {
    if Arrives(st, t) && MustPreempt(c, st) then {Victim(c, st, t)} else {}
  }

  /** An arrival opens a socket exactly when the map has room after preemption. */
  predicate Opens(c: Config, st: State, t: Tick)
    requires Inv(c, st) && t.polledAt <= t.arrivalAt && st.now <= t.polledAt
    requires c.preempt ==> t.victim < c.dynMax
  {
    Arrives(st, t) && |st.dynamic - Preempted(c, st, t)| < c.dynMax
  }

  /** The value a 32-bit counter shows. */
  function Wrap32(x: int): nat {
    x % 0x1_0000_0000
  }

  /** `total_conns += 1` on 32 bits. */
  function Increment(total: nat): nat {
    Wrap32(total + 1)
  }

  /** `total_conns -= 1` on 32 bits, n times. */
  function Decrement(total: nat, n: nat): nat {
    Wrap32(total - n)
  }

  /** A new dynamic connection, its endpoint derived from the counter. */
  function Opened(st: State, t: Tick): State {
    st.(sockets := Add(st.sockets, Socket(st.total, Dynamic)),
        dynamic := st.dynamic[FirstFree(st.sockets) := Deadline(t.openedAt, t.lifetime)])
  }

  /** The interval until the next arrival starts now. */
  function Rearmed(st: State, t: Tick): State {
    st.(arrivals := t.rearmedAt, interval := t.nextInterval)
  }

  /** State after the arrival phase.  An arrival counts itself before it is known to be admitted. */
  function Admit(c: Config, st: State, t: Tick): State
    requires Inv(c, st) && t.polledAt <= t.arrivalAt && st.now <= t.polledAt
    requires c.preempt ==> t.victim < c.dynMax
  {
    if !Arrives(st, t) then st
    else
      var kept := st.(total := Increment(st.total), dynamic := st.dynamic - Preempted(c, st, t));
      Rearmed(if Opens(c, st, t) then Opened(kept, t) else kept, t)
  }

  // ----- sweep and drain

  predicate Overdue(d: Deadline, at: Time)
    requires d.since <= at
  {
    Elapsed(d.since, at) > d.life
  }

  /** Every entry of the map was opened before it is examined. */
  ghost predicate Examinable(dynamic: map<Handle, Deadline>, t: Tick) {
    forall h :: h in dynamic ==> dynamic[h].since <= t.visits(h).ageAt
  }

  /** Dynamic connections whose lifetime has passed when the sweep examines them. */
  ghost function Expired(dynamic: map<Handle, Deadline>, t: Tick): set<Handle>
    requires Examinable(dynamic, t)
  {
    set h | h in dynamic && Overdue(dynamic[h], t.visits(h).ageAt)
  }

  datatype Sends = Sends(timer: Time, log: seq<Time>)

  /** A socket that the sweep offers to the send throttle. */
  predicate Offered(sockets: Table, gone: set<Handle>, t: Tick, h: Handle) {
    Live(sockets, h) && h !in gone && t.visits(h).maySend
  }

  /** The throttle lets a socket send once the elapsed milliseconds, cut to 64 bits, pass the interval. */
  predicate Releases(c: Config, timer: Time, at: Time)
    requires timer <= at
  {
    Elapsed(timer, at) % 0x1_0000_0000_0000_0000 > c.sendInterval
  }

  /** The timer was set before slot h is looked at. */
  predicate TimerBefore(timer: Time, t: Tick, h: Handle) {
    timer <= t.visits(h).ageAt
  }

  lemma TimerStart(timer: Time, t: Tick)
    requires Monotone(t) && timer <= t.rearmedAt
    ensures forall h: Handle :: TimerBefore(timer, t, h)
  {
    forall h: Handle
      ensures TimerBefore(timer, t, h)
    {
      assert SlotOrder(t, h);
    }
  }

  lemma TimerReset(t: Tick, n: Handle)
    requires Monotone(t)
    ensures forall h: Handle :: h > n ==> TimerBefore(t.visits(n).resetAt, t, h)
  {
    forall h: Handle | h > n
      ensures TimerBefore(t.visits(n).resetAt, t, h)
    {
      assert SlotBefore(t, n, h);
    }
  }

  /** Throttled sending over the first n slots: one global timer, reset by each send. */
  ghost function SendScan(c: Config, sockets: Table, gone: set<Handle>, timer: Time, t: Tick, n: nat): (r: Sends)
    requires Monotone(t) && timer <= t.rearmedAt
    ensures forall h: Handle :: h >= n ==> TimerBefore(r.timer, t, h)
    ensures timer <= r.timer <= t.doneAt
  {
    if n == 0 then
      TimerStart(timer, t);
      Sends(timer, [])
    else
      var r := SendScan(c, sockets, gone, timer, t, n - 1);
      var v := t.visits(n - 1);
      assert TimerBefore(r.timer, t, n - 1) && SlotOrder(t, n - 1);
      TimerReset(t, n - 1);
      if Offered(sockets, gone, t, n - 1) && Releases(c, r.timer, v.sendAt)
      then Sends(v.resetAt, r.log + [v.sendAt])
      else r
  }

  /** Nothing the sweep looks at was recorded later than it is looked at. */
  lemma AdmitReady(c: Config, st: State, t: Tick)
    requires ValidConfig(c) && Inv(c, st) && TickOk(c, st.now, t)
    ensures var a := Admit(c, st, t);
            && Examinable(a.dynamic, t)
            && (forall h :: h in a.dynamic ==> a.dynamic[h].since <= t.rearmedAt)
            && a.arrivals <= t.rearmedAt && a.sendTimer <= t.rearmedAt
  {
    var a := Admit(c, st, t);
    forall h | h in a.dynamic
      ensures a.dynamic[h].since <= t.rearmedAt <= t.visits(h).ageAt
    {
      assert SlotOrder(t, h);
      AdmitEntry(c, st, t, h);
    }
  }

  /** Entries of the map after admission are old ones or the one just opened. */
  lemma AdmitEntry(c: Config, st: State, t: Tick, h: Handle)
    requires ValidConfig(c) && Inv(c, st) && TickOk(c, st.now, t)
    requires h in Admit(c, st, t).dynamic
    ensures var d := Admit(c, st, t).dynamic[h];
            || (h in st.dynamic && d == st.dynamic[h])
            || (Opens(c, st, t) && d == Deadline(t.openedAt, t.lifetime))
  {
    hide Inv, Preempted, MustPreempt;
  }

  /** Everything on the close list when draining starts. */
  ghost function Closing(c: Config, st: State, t: Tick): set<Handle>
    requires ValidConfig(c) && Inv(c, st) && TickOk(c, st.now, t)
  {
    AdmitReady(c, st, t);
    Preempted(c, st, t) + Expired(Admit(c, st, t).dynamic, t)
  }

  /** The sends of one iteration and the timer they leave behind. */
  ghost function StepSends(c: Config, st: State, t: Tick): (r: Sends)
    requires ValidConfig(c) && Inv(c, st) && TickOk(c, st.now, t)
    ensures st.sendTimer <= r.timer <= t.doneAt
  {
    AdmitReady(c, st, t);
    var a := Admit(c, st, t);
    SendScan(c, a.sockets, Expired(a.dynamic, t), a.sendTimer, t, |a.sockets|)
  }

  /** The state an iteration leaves behind, given what it closes. */
  ghost function Drained(a: State, closing: set<Handle>, expired: set<Handle>, timer: Time, at: Time): State {
    a.(sockets := Clear(a.sockets, closing),
       dynamic := a.dynamic - expired,
       total := Decrement(a.total, |closing|),
       sendTimer := timer,
       now := at)
  }

  /** One iteration of the loop. */
  ghost function Step(c: Config, st: State, t: Tick): (st': State)
    requires ValidConfig(c) && Inv(c, st) && TickOk(c, st.now, t)
    ensures Inv(c, st') && st'.now == t.doneAt
  {
    AdmitReady(c, st, t);
    StepKeepsPartition(c, st, t);
    var a := Admit(c, st, t);
    Drained(a, Closing(c, st, t), Expired(a.dynamic, t), StepSends(c, st, t).timer, t.doneAt)
  }

  // ----- why the partition survives an iteration

  /** State of the table between admission and sweep. */
  ghost predicate Admitted(c: Config, a: State, victim: set<Handle>) {
    && victim <= LiveSet(a.sockets)
    && victim !! a.dynamic.Keys
    && |victim| <= 1
    && OriginSet(a.sockets, Dynamic) - victim == a.dynamic.Keys
    && |a.dynamic| <= c.dynMax
    && |OriginSet(a.sockets, Static)| <= c.staticConns
    && |a.sockets| <= c.staticConns + c.dynMax + 1
    && (forall h :: Live(a.sockets, h) ==> a.sockets[h].value.index < U32)
    && a.total < U32
  }

  /** Removing keys from a map removes them from its domain. */
  lemma MinusKeys<K, V>(m: map<K, V>, gone: set<K>)
    ensures (m - gone).Keys == m.Keys - gone
    ensures |m - gone| == |m.Keys - gone| <= |m|
    ensures gone !! m.Keys ==> m - gone == m
    ensures forall k :: gone == {k} && k in m ==> |m - gone| == |m| - 1
  {
    SubsetSize(m.Keys - gone, m.Keys);
    forall k | gone == {k} && k in m
      ensures |m - gone| == |m| - 1
    {
      assert m.Keys == (m.Keys - gone) + {k};
    }
  }

  lemma PutKey<K, V>(m: map<K, V>, keys: set<K>, without: set<K>, k: K, v: V)
    requires keys - without == m.Keys && k !in keys && k !in without
    ensures m[k := v].Keys == keys + {k} - without
    ensures |m[k := v]| == |m| + 1
  {
    assert m[k := v].Keys == m.Keys + {k};
  }

  /** Opening a connection adds one dynamic socket, under a handle that was not live. */
  lemma OpenKeepsOrigins(sockets: Table, kept: map<Handle, Deadline>, victim: set<Handle>, s: Socket, d: Deadline)
    requires s.origin == Dynamic
    requires OriginSet(sockets, Dynamic) - victim == kept.Keys
    requires victim <= LiveSet(sockets)
    ensures var h := FirstFree(sockets);
            && OriginSet(Add(sockets, s), Dynamic) - victim == kept[h := d].Keys
            && OriginSet(Add(sockets, s), Static) == OriginSet(sockets, Static)
            && victim <= LiveSet(Add(sockets, s))
            && h !in victim && h !in kept
            && |kept[h := d]| == |kept| + 1
  {
    AddOrigins(sockets, s, Dynamic);
    AddOrigins(sockets, s, Static);
    AddEffect(sockets, s);
    PutKey(kept, OriginSet(sockets, Dynamic), victim, FirstFree(sockets), d);
  }

  /** After preemption the map lists every dynamic socket but the victim. */
  lemma PreemptKeepsOrigins(c: Config, st: State, t: Tick)
    requires ValidConfig(c) && Inv(c, st) && TickOk(c, st.now, t)
    ensures var victim := Preempted(c, st, t);
            && victim <= LiveSet(st.sockets)
            && |victim| <= 1
            && OriginSet(st.sockets, Dynamic) - victim == (st.dynamic - victim).Keys
            && |st.dynamic - victim| <= |st.dynamic|
  {
    MinusKeys(st.dynamic, Preempted(c, st, t));
  }

  lemma AdmitKeepsPartition(c: Config, st: State, t: Tick)
    requires ValidConfig(c) && Inv(c, st) && TickOk(c, st.now, t)
    ensures Admitted(c, Admit(c, st, t), Preempted(c, st, t))
  {
    PreemptKeepsOrigins(c, st, t);
    if Opens(c, st, t) {
      var s := Socket(Increment(st.total), Dynamic);
      OpenKeepsOrigins(st.sockets, st.dynamic - Preempted(c, st, t), Preempted(c, st, t), s,
                       Deadline(t.openedAt, t.lifetime));
      OpenKeepsBounds(c, st, s);
    }
  }

  lemma OpenKeepsBounds(c: Config, st: State, s: Socket)
    requires Inv(c, st) && s.index < U32
    ensures |Add(st.sockets, s)| <= c.staticConns + c.dynMax + 1
    ensures forall h :: Live(Add(st.sockets, s), h) ==> Add(st.sockets, s)[h].value.index < U32
  {
    AddEffect(st.sockets, s);
    AddLength(st.sockets, s);
    EnoughLive(c, st);
    HandlesCount(st.sockets);
  }

  /** Clearing the victim and the expired connections leaves exactly the surviving entries of the map. */
  lemma DrainKeepsOrigins(sockets: Table, dynamic: map<Handle, Deadline>, victim: set<Handle>, expired: set<Handle>)
    requires OriginSet(sockets, Dynamic) - victim == dynamic.Keys
    requires expired <= dynamic.Keys
    ensures OriginSet(Clear(sockets, victim + expired), Dynamic) == (dynamic - expired).Keys
    ensures OriginSet(Clear(sockets, victim + expired), Static) <= OriginSet(sockets, Static)
    ensures |OriginSet(Clear(sockets, victim + expired), Static)| <= |OriginSet(sockets, Static)|
    ensures |dynamic - expired| <= |dynamic|
    ensures |victim + expired| == |victim| + |expired|
  {
    ClearEffect(sockets, victim + expired);
    MinusKeys(dynamic, expired);
    SubsetSize(OriginSet(sockets, Static) - (victim + expired), OriginSet(sockets, Static));
    assert victim !! expired;
  }

  lemma StepKeepsPartition(c: Config, st: State, t: Tick)
    requires ValidConfig(c) && Inv(c, st) && TickOk(c, st.now, t)
    ensures var a := Admit(c, st, t);
            && Examinable(a.dynamic, t)
            && var expired := Expired(a.dynamic, t);
            && var closing := Closing(c, st, t);
            && var sockets := Clear(a.sockets, closing);
            && OriginSet(sockets, Dynamic) == (a.dynamic - expired).Keys
            && |a.dynamic - expired| <= c.dynMax
            && |OriginSet(sockets, Static)| <= c.staticConns
            && |sockets| <= c.staticConns + c.dynMax + 1
            && (forall h :: Live(sockets, h) ==> sockets[h].value.index < U32)
  {
    AdmitReady(c, st, t);
    AdmitKeepsPartition(c, st, t);
    var a := Admit(c, st, t);
    DrainKeepsOrigins(a.sockets, a.dynamic, Preempted(c, st, t), Expired(a.dynamic, t));
    ClearEffect(a.sockets, Closing(c, st, t));
  }
}
