/**
 Properties of whole runs: any number of iterations from start-up, with any
 monotone clock readings and any draws in their legal ranges.
 */
module Runs {
  import opened Common
  import opened SocketTable
  import opened Scheduler
  import opened Addressing
  import ConnectionLoop

  /** Readings and draw made before the loop is entered. */
  datatype Boot = Boot(timerAt: Time, arrivalsAt: Time, interval: nat)

  function LastReading(b: Boot, ticks: seq<Tick>): Time {
    if ticks == [] then b.arrivalsAt else ticks[|ticks| - 1].doneAt
  }

  ghost predicate Schedule(c: Config, b: Boot, ticks: seq<Tick>) {
    ticks == [] ||
    var n := |ticks| - 1;
    Schedule(c, b, ticks[..n]) && TickOk(c, LastReading(b, ticks[..n]), ticks[n])
  }

  ghost predicate ValidRun(c: Config, b: Boot, ticks: seq<Tick>) {
    ValidConfig(c) && b.timerAt <= b.arrivalsAt && Schedule(c, b, ticks)
  }

  /** The state at the loop head after the given iterations. */
  ghost function Reach(c: Config, b: Boot, ticks: seq<Tick>): (st: State)
    requires ValidRun(c, b, ticks)
    ensures Inv(c, st) && st.now == LastReading(b, ticks)
  {
    if ticks == [] then
      ConnectionLoop.InitialInv(c, b.timerAt, b.arrivalsAt, b.interval);
      ConnectionLoop.Initial(c, b.timerAt, b.arrivalsAt, b.interval)
    else
      var n := |ticks| - 1;
      Step(c, Reach(c, b, ticks[..n]), ticks[n])
  }

  /** Where every run starts: the static connections in the first slots, each counted, and the timers as first read. */
  lemma RunStarts(c: Config, b: Boot)
    requires ValidRun(c, b, [])
    ensures var st := Reach(c, b, []);
            && |st.sockets| == c.staticConns == st.total && st.dynamic == map[]
            && (forall h :: 0 <= h < c.staticConns ==> st.sockets[h] == Some(Socket(h, Static)))
            && st.arrivals == b.arrivalsAt && st.interval == b.interval && st.sendTimer == b.timerAt
  {
  }

  /** A run and one more iteration. */
  ghost predicate Extends(c: Config, b: Boot, ticks: seq<Tick>, t: Tick) {
    ValidRun(c, b, ticks) && TickOk(c, LastReading(b, ticks), t)
  }

  lemma ReachNext(c: Config, b: Boot, ticks: seq<Tick>, t: Tick)
    requires Extends(c, b, ticks, t)
    ensures ValidRun(c, b, ticks + [t])
    ensures Reach(c, b, ticks + [t]) == Step(c, Reach(c, b, ticks), t)
  {
    assert (ticks + [t])[..|ticks|] == ticks;
  }

  /** The imperative client, driven through any run, arrives at the state Reach describes. */
  method RunClient(c: Config, b: Boot, ticks: seq<Tick>) returns (client: ConnectionLoop.Client)
    requires ValidRun(c, b, ticks)
    ensures client.cfg == c && client.State() == Reach(c, b, ticks)
  {
    client := new ConnectionLoop.Client(c, b.timerAt, b.arrivalsAt, b.interval);
    for i := 0 to |ticks|
      invariant fresh(client) && client.cfg == c
      invariant ValidRun(c, b, ticks[..i]) && client.State() == Reach(c, b, ticks[..i])
    {
      RunPrefix(c, b, ticks, i);
      client.Iterate(ticks[i]);
    }
    assert ticks[..|ticks|] == ticks;
  }

  lemma {:induction false} RunPrefix(c: Config, b: Boot, ticks: seq<Tick>, i: nat)
    requires ValidRun(c, b, ticks) && i < |ticks|
    ensures Extends(c, b, ticks[..i], ticks[i])
    ensures ValidRun(c, b, ticks[..i + 1])
    ensures Reach(c, b, ticks[..i + 1]) == Step(c, Reach(c, b, ticks[..i]), ticks[i])
  {
    hide Scheduler.Step;
    var n := |ticks| - 1;
    if i < n {
      RunPrefix(c, b, ticks[..n], i);
      assert ticks[..n][..i] == ticks[..i] && ticks[..n][..i + 1] == ticks[..i + 1];
    } else {
      assert ticks[..n + 1] == ticks;
    }
  }

  // ----- partition

  /**
   At every loop head the live sockets are the surviving static ones and the keys
   of the map, without overlap, within both limits and within a table that never
   outgrows them by more than one slot.
   */
  lemma Partition(c: Config, b: Boot, ticks: seq<Tick>)
    requires ValidRun(c, b, ticks)
    ensures var st := Reach(c, b, ticks);
            && LiveSet(st.sockets) == StaticSet(st) + st.dynamic.Keys
            && StaticSet(st) !! st.dynamic.Keys
            && |st.dynamic| <= c.dynMax
            && |LiveSet(st.sockets)| <= c.staticConns + c.dynMax
            && |st.sockets| <= c.staticConns + c.dynMax + 1
  {
    var st := Reach(c, b, ticks);
    OriginSplit(st.sockets);
    assert |st.dynamic| == |st.dynamic.Keys|;
  }

  /** Inside an iteration at most one socket exceeds the limits, and the victim's index is in range. */
  lemma ExcessIsOne(c: Config, b: Boot, ticks: seq<Tick>, t: Tick)
    requires Extends(c, b, ticks, t)
    ensures var st := Reach(c, b, ticks);
            && |LiveSet(Admit(c, st, t).sockets)| <= c.staticConns + c.dynMax + 1
            && (MustPreempt(c, st) ==> t.victim < |Handles(st.sockets)|)
  {
    Partition(c, b, ticks);
    AdmitLive(c, Reach(c, b, ticks), t);
    EnoughLive(c, Reach(c, b, ticks));
  }

  /**
   The close list when draining starts: the victim and the expired connections,
   never the same handle twice, all of them live.
   */
  lemma CloseListSound(c: Config, b: Boot, ticks: seq<Tick>, t: Tick)
    requires Extends(c, b, ticks, t)
    ensures var st := Reach(c, b, ticks);
            && var a := Admit(c, st, t);
            && Examinable(a.dynamic, t)
            && Preempted(c, st, t) !! Expired(a.dynamic, t)
            && Closing(c, st, t) <= LiveSet(a.sockets)
            && |Closing(c, st, t)| == |Preempted(c, st, t)| + |Expired(a.dynamic, t)|
  {
    var st := Reach(c, b, ticks);
    AdmitReady(c, st, t);
    AdmitKeepsPartition(c, st, t);
    var a := Admit(c, st, t);
    OriginSplit(a.sockets);
    DrainKeepsOrigins(a.sockets, a.dynamic, Preempted(c, st, t), Expired(a.dynamic, t));
  }

  /** What an iteration removes from the table and the map, handle by handle, and what it leaves alone. */
  lemma IterationIsFilter(c: Config, b: Boot, ticks: seq<Tick>, t: Tick, h: Handle)
    requires Extends(c, b, ticks, t)
    ensures var st := Reach(c, b, ticks);
            && var a := Admit(c, st, t);
            && Examinable(a.dynamic, t)
            && var out := h in a.dynamic && Overdue(a.dynamic[h], t.visits(h).ageAt);
            && var st' := Step(c, st, t);
            && (Live(st'.sockets, h) <==> Live(a.sockets, h) && h !in Preempted(c, st, t) && !out)
            && (Live(st'.sockets, h) ==> st'.sockets[h] == a.sockets[h])
            && (h in st'.dynamic <==> h in a.dynamic && !out)
            && (h in st'.dynamic ==> st'.dynamic[h] == a.dynamic[h])
  {
    var st := Reach(c, b, ticks);
    AdmitReady(c, st, t);
    ClearEffect(Admit(c, st, t).sockets, Closing(c, st, t));
  }

  // ----- the connection counter

  /** Arrivals so far. */
  ghost function Arrivals(c: Config, b: Boot, ticks: seq<Tick>): nat
    requires ValidRun(c, b, ticks)
  {
    if ticks == [] then 0
    else
      var n := |ticks| - 1;
      Arrivals(c, b, ticks[..n]) + if Arrives(Reach(c, b, ticks[..n]), ticks[n]) then 1 else 0
  }

  /** Arrivals so far that opened no socket. */
  ghost function Missed(c: Config, b: Boot, ticks: seq<Tick>): nat
    requires ValidRun(c, b, ticks)
  {
    if ticks == [] then 0
    else
      var n := |ticks| - 1;
      var st := Reach(c, b, ticks[..n]);
      Missed(c, b, ticks[..n]) + if Arrives(st, ticks[n]) && !Opens(c, st, ticks[n]) then 1 else 0
  }

  /** The table after the arrival phase. */
  lemma AdmitTable(c: Config, st: State, t: Tick)
    requires ValidConfig(c) && Inv(c, st) && TickOk(c, st.now, t)
    ensures Admit(c, st, t).sockets ==
            if Opens(c, st, t) then Add(st.sockets, Socket(Increment(st.total), Dynamic)) else st.sockets
    ensures Opens(c, st, t) ==> Arrives(st, t)
  {
    hide Scheduler.Inv, Scheduler.Preempted, SocketTable.Add;
  }

  /** How an arrival phase changes the number of live sockets. */
  lemma AdmitLive(c: Config, st: State, t: Tick)
    requires ValidConfig(c) && Inv(c, st) && TickOk(c, st.now, t)
    ensures |LiveSet(Admit(c, st, t).sockets)| == |LiveSet(st.sockets)| + if Opens(c, st, t) then 1 else 0
    ensures Admit(c, st, t).total == if Arrives(st, t) then Increment(st.total) else st.total
    ensures Opens(c, st, t) ==> Arrives(st, t)
  {
    if Opens(c, st, t) {
      AddEffect(st.sockets, Socket(Increment(st.total), Dynamic));
    }
  }

  /** Draining closes as many sockets as it counts off. */
  lemma DrainLive(c: Config, st: State, t: Tick)
    requires ValidConfig(c) && Inv(c, st) && TickOk(c, st.now, t)
    ensures var a := Admit(c, st, t);
            && |LiveSet(Step(c, st, t).sockets)| == |LiveSet(a.sockets)| - |Closing(c, st, t)|
            && Step(c, st, t).total == Decrement(a.total, |Closing(c, st, t)|)
  {
    AdmitReady(c, st, t);
    AdmitKeepsPartition(c, st, t);
    var a := Admit(c, st, t);
    OriginSplit(a.sockets);
    var closing := Closing(c, st, t);
    assert closing <= LiveSet(a.sockets);
    ClearEffect(a.sockets, closing);
    assert LiveSet(a.sockets) == (LiveSet(a.sockets) - closing) + closing;
  }

  lemma ModStep(x: int, d: int)
    ensures (x % 0x1_0000_0000 + d) % 0x1_0000_0000 == (x + d) % 0x1_0000_0000
  {
  }

  /** Counting up for an arrival and down for n closings, on 32 bits. */
  lemma CountSteps(total: nat, x: int, n: nat, arrived: bool)
    requires total == Wrap32(x)
    ensures Decrement(if arrived then Increment(total) else total, n)
         == Wrap32(x + (if arrived then 1 else 0) - n)
  {
    var up := if arrived then 1 else 0;
    ModStep(x, up);
    ModStep(x + up, 0 - n);
  }

  lemma NoWrap(total: nat, up: nat, n: nat)
    ensures Increment(total) < U32 && (total + 1 < U32 ==> Increment(total) == total + 1)
    ensures n <= up < U32 ==> Decrement(up, n) == up - n
  {
  }

  lemma CounterStep(c: Config, st: State, t: Tick, missed: nat)
    requires ValidConfig(c) && Inv(c, st) && TickOk(c, st.now, t)
    requires st.total == Wrap32(|LiveSet(st.sockets)| + missed)
    ensures var missed' := missed + if Arrives(st, t) && !Opens(c, st, t) then 1 else 0;
            Step(c, st, t).total == Wrap32(|LiveSet(Step(c, st, t).sockets)| + missed')
  {
    hide Scheduler.Step, Scheduler.Opens, Scheduler.Arrives, Scheduler.Admit, Scheduler.Closing, SocketTable.LiveSet;
    hide Scheduler.Wrap32, Scheduler.Increment, Scheduler.Decrement;
    AdmitLive(c, st, t);
    DrainLive(c, st, t);
    CountSteps(st.total, |LiveSet(st.sockets)| + missed, |Closing(c, st, t)|, Arrives(st, t));
  }

  lemma CounterStart(c: Config, b: Boot)
    requires ValidConfig(c) && b.timerAt <= b.arrivalsAt
    ensures var st := Reach(c, b, []);
            st.total == |LiveSet(st.sockets)| == c.staticConns && st.total == Wrap32(st.total)
  {
    ConnectionLoop.InitialInv(c, b.timerAt, b.arrivalsAt, b.interval);
    var st := Reach(c, b, []);
    OriginSplit(st.sockets);
    assert st.dynamic.Keys == {};
  }

  /**
   The counter is the number of live sockets plus the number of arrivals that
   opened none, on 32 bits, at every loop head of every run.
   */
  lemma {:induction false} CounterConservation(c: Config, b: Boot, ticks: seq<Tick>)
    requires ValidRun(c, b, ticks)
    ensures var st := Reach(c, b, ticks);
            st.total == Wrap32(|LiveSet(st.sockets)| + Missed(c, b, ticks))
  {
    hide Scheduler.Step, Scheduler.Opens, SocketTable.LiveSet, Scheduler.Wrap32;
    if ticks == [] {
      CounterStart(c, b);
    } else {
      var n := |ticks| - 1;
      CounterConservation(c, b, ticks[..n]);
      CounterStep(c, Reach(c, b, ticks[..n]), ticks[n], Missed(c, b, ticks[..n]));
    }
  }

  lemma SameModulo(live: nat, missed: nat)
    ensures (live + missed) % 0x1_0000_0000 == live <==> live < U32 && missed % 0x1_0000_0000 == 0
  {
  }

  /**
   The counter is the open-connection count exactly when no arrival (modulo 2^32) was
   turned away and the count fits it.
   */
  lemma CounterIsOpenConnections(c: Config, b: Boot, ticks: seq<Tick>)
    requires ValidRun(c, b, ticks)
    ensures var st := Reach(c, b, ticks);
            st.total == |LiveSet(st.sockets)|
            <==> Missed(c, b, ticks) % 0x1_0000_0000 == 0 && |LiveSet(st.sockets)| < U32
  {
    hide Scheduler.Step, Scheduler.Opens, Scheduler.Inv, Reach;
    CounterConservation(c, b, ticks);
    SameModulo(|LiveSet(Reach(c, b, ticks).sockets)|, Missed(c, b, ticks));
  }

  /** Unless the count left 32 bits, draining never takes the counter below zero. */
  lemma DrainNeverUnderflows(c: Config, b: Boot, ticks: seq<Tick>, t: Tick)
    requires Extends(c, b, ticks, t)
    ensures var st := Reach(c, b, ticks);
            |LiveSet(st.sockets)| + Missed(c, b, ticks) + 1 < U32 ==>
              && |Closing(c, st, t)| <= Admit(c, st, t).total
              && Step(c, st, t).total == Admit(c, st, t).total - |Closing(c, st, t)|
  {
    hide Scheduler.Step, Scheduler.Opens, Scheduler.Admit, Scheduler.Closing, Reach, Missed, SocketTable.LiveSet;
    CounterConservation(c, b, ticks);
    if |LiveSet(Reach(c, b, ticks).sockets)| + Missed(c, b, ticks) + 1 < U32 {
      NoUnderflowStep(c, Reach(c, b, ticks), t, Missed(c, b, ticks));
    }
  }

  lemma NoUnderflowStep(c: Config, st: State, t: Tick, missed: nat)
    requires ValidConfig(c) && Inv(c, st) && TickOk(c, st.now, t)
    requires |LiveSet(st.sockets)| + missed + 1 < U32 && st.total == |LiveSet(st.sockets)| + missed
    ensures |Closing(c, st, t)| <= Admit(c, st, t).total
    ensures Step(c, st, t).total == Admit(c, st, t).total - |Closing(c, st, t)|
  {
    hide Scheduler.Step, Scheduler.Arrives, Scheduler.Opens, Scheduler.Admit, Scheduler.Closing;
    hide SocketTable.LiveSet, Scheduler.Wrap32, Scheduler.Increment, Scheduler.Decrement;
    AdmitLive(c, st, t);
    DrainLive(c, st, t);
    NoWrap(st.total, Admit(c, st, t).total, |Closing(c, st, t)|);
  }

  // ----- static connections

  /** A step closes a static connection exactly by preempting it, and never opens one. */
  lemma StaticStep(c: Config, st: State, t: Tick)
    requires ValidConfig(c) && Inv(c, st) && TickOk(c, st.now, t)
    ensures StaticSet(Step(c, st, t)) == StaticSet(st) - Preempted(c, st, t)
    ensures forall h :: h in StaticSet(Step(c, st, t)) ==> Step(c, st, t).sockets[h] == st.sockets[h]
  {
    hide Scheduler.Admit, Scheduler.Preempted, SocketTable.OriginSet, SocketTable.Clear;
    AdmitStatics(c, st, t);
    AdmitReady(c, st, t);
    AdmitKeepsPartition(c, st, t);
    var a := Admit(c, st, t);
    ClearStatics(a.sockets, Preempted(c, st, t), Expired(a.dynamic, t));
  }

  lemma ClearStatics(t: Table, victim: set<Handle>, expired: set<Handle>)
    requires expired <= OriginSet(t, Dynamic)
    ensures OriginSet(Clear(t, victim + expired), Static) == OriginSet(t, Static) - victim
    ensures forall h :: h in OriginSet(t, Static) - victim ==> Clear(t, victim + expired)[h] == t[h]
  {
    ClearEffect(t, victim + expired);
    OriginSplit(t);
  }

  lemma AdmitStatics(c: Config, st: State, t: Tick)
    requires ValidConfig(c) && Inv(c, st) && TickOk(c, st.now, t)
    ensures OriginSet(Admit(c, st, t).sockets, Static) == StaticSet(st)
    ensures forall h :: h in StaticSet(st) ==> Admit(c, st, t).sockets[h] == st.sockets[h]
  {
    hide Scheduler.Admit, Scheduler.Inv, SocketTable.Add, SocketTable.OriginSet;
    AdmitTable(c, st, t);
    OriginIsLive(st.sockets, Static);
    if Opens(c, st, t) {
      AddOrigins(st.sockets, Socket(Increment(st.total), Dynamic), Static);
      AddEffect(st.sockets, Socket(Increment(st.total), Dynamic));
    }
  }

  /** Whatever static connections are left are original ones, under their original handles. */
  lemma {:induction false} StaticsAreOriginal(c: Config, b: Boot, ticks: seq<Tick>)
    requires ValidRun(c, b, ticks)
    ensures var st := Reach(c, b, ticks);
            forall h :: h in StaticSet(st) ==> h < c.staticConns && st.sockets[h] == Some(Socket(h, Static))
  {
    hide Scheduler.Step;
    OriginIsLive(Reach(c, b, ticks).sockets, Static);
    if ticks != [] {
      var n := |ticks| - 1;
      StaticsAreOriginal(c, b, ticks[..n]);
      StaticStep(c, Reach(c, b, ticks[..n]), ticks[n]);
    }
  }

  /** Without preemption every static connection lives throughout the run. */
  lemma {:induction false} StaticSurvival(c: Config, b: Boot, ticks: seq<Tick>, h: Handle)
    requires ValidRun(c, b, ticks) && !c.preempt && h < c.staticConns
    ensures var st := Reach(c, b, ticks);
            Live(st.sockets, h) && st.sockets[h] == Some(Socket(h, Static))
  {
    hide Scheduler.Step;
    if ticks == [] {
      assert Reach(c, b, ticks).sockets[h] == Some(Socket(h, Static));
    } else {
      var n := |ticks| - 1;
      StaticSurvival(c, b, ticks[..n], h);
      StaticStep(c, Reach(c, b, ticks[..n]), ticks[n]);
      assert h in StaticSet(Reach(c, b, ticks));
    }
  }

  /** With preemption the static connections only ever become fewer. */
  lemma StaticsNeverIncrease(c: Config, b: Boot, ticks: seq<Tick>, t: Tick)
    requires Extends(c, b, ticks, t)
    ensures StaticSet(Step(c, Reach(c, b, ticks), t)) <= StaticSet(Reach(c, b, ticks))
    ensures |StaticSet(Step(c, Reach(c, b, ticks), t))| <= |StaticSet(Reach(c, b, ticks))|
  {
    StaticStep(c, Reach(c, b, ticks), t);
    SubsetSize(StaticSet(Step(c, Reach(c, b, ticks), t)), StaticSet(Reach(c, b, ticks)));
  }

  /**
   An arrival at the limit under preemption schedules exactly one handle for closing
   and opens a connection exactly when that handle was dynamic; the new handle is
   another one, and the map is back at the limit before the sweep.
   */
  lemma PreemptiveAdmission(c: Config, b: Boot, ticks: seq<Tick>, t: Tick)
    requires Extends(c, b, ticks, t)
    ensures var st := Reach(c, b, ticks);
            Arrives(st, t) && MustPreempt(c, st) ==> PreemptsOne(c, st, t)
  {
    hide Reach;
    var st := Reach(c, b, ticks);
    if Arrives(st, t) && MustPreempt(c, st) {
      PreemptionStep(c, st, t);
    }
  }

  ghost predicate PreemptsOne(c: Config, st: State, t: Tick)
    requires ValidConfig(c) && Inv(c, st) && TickOk(c, st.now, t) && MustPreempt(c, st)
  {
    var victim := Victim(c, st, t);
    var a := Admit(c, st, t);
    && Preempted(c, st, t) == {victim}
    && (Opens(c, st, t) <==> victim in st.dynamic)
    && Live(a.sockets, victim) && victim !in a.dynamic
    && |a.dynamic| == c.dynMax
    && (Opens(c, st, t) ==> FirstFree(st.sockets) in a.dynamic && FirstFree(st.sockets) != victim)
    && (!Opens(c, st, t) ==> a.sockets == st.sockets && a.dynamic == st.dynamic)
  }

  lemma PreemptionStep(c: Config, st: State, t: Tick)
    requires ValidConfig(c) && Inv(c, st) && TickOk(c, st.now, t)
    requires Arrives(st, t) && MustPreempt(c, st)
    ensures PreemptsOne(c, st, t)
  {
    var victim := Victim(c, st, t);
    MinusKeys(st.dynamic, {victim});
    if Opens(c, st, t) {
      var s := Socket(Increment(st.total), Dynamic);
      PreemptKeepsOrigins(c, st, t);
      OpenKeepsOrigins(st.sockets, st.dynamic - {victim}, {victim}, s, Deadline(t.openedAt, t.lifetime));
      AddEffect(st.sockets, s);
    }
  }

  /** The victim is the idx-th live socket in slot order: exactly that many live ones come before it. */
  lemma VictimIsNth(c: Config, st: State, t: Tick)
    requires Inv(c, st) && MustPreempt(c, st) && t.victim < c.dynMax
    ensures var victim := Victim(c, st, t);
            && Live(st.sockets, victim)
            && |LiveBelow(st.sockets, victim)| == t.victim
  {
    EnoughLive(c, st);
    NthHandle(st.sockets, t.victim);
  }

  /**
   An arrival opens a connection exactly if there are fewer than dynMax dynamic ones, or
   the limit is reached and the preempted socket is one of them.
   */
  lemma AdmissionExactly(c: Config, st: State, t: Tick)
    requires ValidConfig(c) && Inv(c, st) && TickOk(c, st.now, t)
    ensures Opens(c, st, t)
            <==> && st.arrivals + (st.interval + 1) * 1_000_000 <= t.arrivalAt
                 && (|st.dynamic| < c.dynMax || (c.preempt && Victim(c, st, t) in st.dynamic))
    ensures Admit(c, st, t).sockets ==
            if Opens(c, st, t) then Add(st.sockets, Socket((st.total + 1) % 0x1_0000_0000, Dynamic)) else st.sockets
  {
    ArrivesInTime(st, t);
    MinusKeys(st.dynamic, Preempted(c, st, t));
    if MustPreempt(c, st) && Arrives(st, t) {
      PreemptionStep(c, st, t);
    }
    AdmitTable(c, st, t);
  }

  lemma ArrivesInTime(st: State, t: Tick)
    requires st.arrivals <= t.arrivalAt
    ensures Arrives(st, t) <==> st.arrivals + (st.interval + 1) * 1_000_000 <= t.arrivalAt
  {
  }

  // ----- endpoints

  ghost function EndpointOf(c: Config, s: Socket): Endpoint
    requires ValidConfig(c)
  {
    LocalEndpoint(c.base, c.perAddr, s.index)
  }

  /** All live connections have different local endpoints. */
  ghost predicate EndpointsDistinct(c: Config, t: Table)
    requires ValidConfig(c)
  {
    forall g, h :: Live(t, g) && Live(t, h) && g != h ==> EndpointOf(c, t[g].value) != EndpointOf(c, t[h].value)
  }

  /** No iteration of the run closed anything. */
  ghost predicate NothingClosed(c: Config, b: Boot, ticks: seq<Tick>)
    requires ValidRun(c, b, ticks)
  {
    ticks == [] ||
    var n := |ticks| - 1;
    && NothingClosed(c, b, ticks[..n])
    && Closing(c, Reach(c, b, ticks[..n]), ticks[n]) == {}
  }

  /** Indices of live connections are different and do not exceed the counter. */
  ghost predicate IndicesBelow(t: Table, total: nat) {
    && (forall h :: Live(t, h) ==> t[h].value.index <= total)
    && (forall g, h :: Live(t, g) && Live(t, h) && g != h ==> t[g].value.index != t[h].value.index)
  }

  lemma ClearNothing(t: Table)
    ensures Clear(t, {}) == t
  {
  }

  lemma AddIndexed(t: Table, total: nat, s: Socket)
    requires IndicesBelow(t, total) && s.index == total + 1
    ensures IndicesBelow(Add(t, s), total + 1)
  {
    AddEffect(t, s);
  }

  lemma {:induction false} IndicesGrow(c: Config, b: Boot, ticks: seq<Tick>)
    requires ValidRun(c, b, ticks) && NothingClosed(c, b, ticks)
    requires c.staticConns + Arrivals(c, b, ticks) < U32
    ensures var st := Reach(c, b, ticks);
            st.total == c.staticConns + Arrivals(c, b, ticks) && IndicesBelow(st.sockets, st.total)
  {
    if ticks != [] {
      var n := |ticks| - 1;
      IndicesGrow(c, b, ticks[..n]);
      IndicesStep(c, Reach(c, b, ticks[..n]), ticks[n]);
    }
  }

  lemma IndicesStep(c: Config, st: State, t: Tick)
    requires ValidConfig(c) && Inv(c, st) && TickOk(c, st.now, t)
    requires Closing(c, st, t) == {} && IndicesBelow(st.sockets, st.total)
    requires Arrives(st, t) ==> st.total + 1 < U32
    ensures Step(c, st, t).total == st.total + if Arrives(st, t) then 1 else 0
    ensures IndicesBelow(Step(c, st, t).sockets, Step(c, st, t).total)
  {
    hide Scheduler.Closing, Scheduler.Admit, Scheduler.Opens, Scheduler.Inv, IndicesBelow;
    CounterExact(c, st, t);
    ClearNothing(Admit(c, st, t).sockets);
    AdmitTable(c, st, t);
    NoWrap(st.total, 0, 0);
    if Opens(c, st, t) {
      AddIndexed(st.sockets, st.total, Socket(Increment(st.total), Dynamic));
    } else if Arrives(st, t) {
      IndicesLoosen(st.sockets, st.total);
    }
  }

  lemma CounterExact(c: Config, st: State, t: Tick)
    requires ValidConfig(c) && Inv(c, st) && TickOk(c, st.now, t)
    requires Closing(c, st, t) == {}
    requires Arrives(st, t) ==> st.total + 1 < U32
    ensures Step(c, st, t).total == st.total + if Arrives(st, t) then 1 else 0
  {
    hide Scheduler.Step, Scheduler.Arrives, Scheduler.Opens, Scheduler.Admit, Scheduler.Closing;
    hide SocketTable.LiveSet, Scheduler.Wrap32, Scheduler.Increment, Scheduler.Decrement;
    AdmitLive(c, st, t);
    DrainLive(c, st, t);
    NoWrap(st.total, Admit(c, st, t).total, |Closing(c, st, t)|);
  }

  lemma IndicesLoosen(t: Table, total: nat)
    requires IndicesBelow(t, total)
    ensures IndicesBelow(t, total + 1)
  {
  }

  /**
   As long as nothing has been closed and the counter has not left 32 bits, all
   connections opened so far have different local address and port.
   */
  lemma DistinctUntilFirstClose(c: Config, b: Boot, ticks: seq<Tick>)
    requires ValidRun(c, b, ticks)
    ensures NothingClosed(c, b, ticks) && c.staticConns + Arrivals(c, b, ticks) < U32 ==>
              EndpointsDistinct(c, Reach(c, b, ticks).sockets)
  {
    if NothingClosed(c, b, ticks) && c.staticConns + Arrivals(c, b, ticks) < U32 {
      IndicesGrow(c, b, ticks);
      DistinctByIndex(c, Reach(c, b, ticks));
    }
  }

  lemma DistinctByIndex(c: Config, st: State)
    requires ValidConfig(c) && Inv(c, st) && IndicesBelow(st.sockets, st.total)
    ensures EndpointsDistinct(c, st.sockets)
  {
    var t := st.sockets;
    forall g, h | Live(t, g) && Live(t, h) && g != h
      ensures EndpointOf(c, t[g].value) != EndpointOf(c, t[h].value)
    {
      EndpointInjective(c.base, c.perAddr, t[g].value.index, t[h].value.index);
    }
  }

  /** In any state, a new connection repeats a live endpoint exactly when a live one holds the next index. */
  lemma EndpointRepeats(c: Config, b: Boot, ticks: seq<Tick>)
    requires ValidRun(c, b, ticks)
    ensures var st := Reach(c, b, ticks);
            && var next := Socket(Increment(st.total), Dynamic);
            (exists h :: Live(st.sockets, h) && EndpointOf(c, st.sockets[h].value) == EndpointOf(c, next))
            <==> (exists h :: Live(st.sockets, h) && st.sockets[h].value.index == Increment(st.total))
  {
    var st := Reach(c, b, ticks);
    forall h | Live(st.sockets, h)
      ensures EndpointOf(c, st.sockets[h].value) == EndpointOf(c, Socket(Increment(st.total), Dynamic))
              <==> st.sockets[h].value.index == Increment(st.total)
    {
      EndpointInjective(c.base, c.perAddr, st.sockets[h].value.index, Increment(st.total));
    }
  }

  /** The iteration opens a connection that outlives it beside one with the same index. */
  ghost predicate TakesLiveIndex(c: Config, st: State, t: Tick)
    requires ValidConfig(c) && Inv(c, st) && TickOk(c, st.now, t)
  {
    var after := Step(c, st, t).sockets;
    var h := FirstFree(st.sockets);
    && Opens(c, st, t) && Live(after, h)
    && exists g :: Live(after, g) && g != h && after[g].value.index == Increment(st.total)
  }

  /** After an iteration every socket is an old one or the one just opened. */
  lemma SocketsAfter(c: Config, st: State, t: Tick, h: Handle)
    requires ValidConfig(c) && Inv(c, st) && TickOk(c, st.now, t) && Live(Step(c, st, t).sockets, h)
    ensures var after := Step(c, st, t).sockets;
            if Opens(c, st, t) && h == FirstFree(st.sockets) then after[h] == Some(Socket(Increment(st.total), Dynamic))
            else Live(st.sockets, h) && after[h] == st.sockets[h]
  {
    hide Scheduler.Admit, Scheduler.Opens, Scheduler.Inv, SocketTable.Add, Scheduler.Increment;
    AdmitTable(c, st, t);
    var a := Admit(c, st, t).sockets;
    assert Live(a, h) && Step(c, st, t).sockets[h] == a[h] by { ClearEffect(a, Closing(c, st, t)); }
    if Opens(c, st, t) {
      AddEffect(st.sockets, Socket(Increment(st.total), Dynamic));
    }
  }

  lemma SameIndexSameEndpoint(c: Config, st: State, g: Handle, h: Handle)
    requires ValidConfig(c) && Inv(c, st) && Live(st.sockets, g) && Live(st.sockets, h)
    ensures EndpointOf(c, st.sockets[g].value) == EndpointOf(c, st.sockets[h].value)
            <==> st.sockets[g].value.index == st.sockets[h].value.index
  {
    EndpointInjective(c.base, c.perAddr, st.sockets[g].value.index, st.sockets[h].value.index);
  }

  /**
   An iteration keeps all local endpoints different if and only if it opens no connection
   under an index that a connection surviving the iteration holds.
   */
  lemma DistinctStep(c: Config, st: State, t: Tick)
    requires ValidConfig(c) && Inv(c, st) && TickOk(c, st.now, t) && EndpointsDistinct(c, st.sockets)
    ensures EndpointsDistinct(c, Step(c, st, t).sockets) <==> !TakesLiveIndex(c, st, t)
  {
    hide Scheduler.Step, Scheduler.Opens, Scheduler.Inv, EndpointOf;
    var after := Step(c, st, t);
    var n := FirstFree(st.sockets);
    if TakesLiveIndex(c, st, t) {
      var g :| Live(after.sockets, g) && g != n && after.sockets[g].value.index == Increment(st.total);
      SocketsAfter(c, st, t, n);
      SameIndexSameEndpoint(c, after, g, n);
    } else {
      forall g, h | Live(after.sockets, g) && Live(after.sockets, h) && g != h
        ensures EndpointOf(c, after.sockets[g].value) != EndpointOf(c, after.sockets[h].value)
      {
        SocketsAfter(c, st, t, g);
        SocketsAfter(c, st, t, h);
        SameIndexSameEndpoint(c, after, g, h);
      }
    }
  }
}
