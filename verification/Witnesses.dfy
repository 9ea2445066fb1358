/**
 Concrete runs that refute what one might expect of the client: that the counter
 is the number of open connections, that static connections live throughout the
 run, and that live connections never share a local endpoint.
 */
module Witnesses {
  import opened Common
  import opened SocketTable
  import opened Scheduler
  import opened Runs

  /** An iteration that takes no time at all and sends nothing. */
  function Instant(at: Time, lifetime: nat, victim: nat, interval: nat): Tick {
    Tick(at, at, lifetime, victim, at, interval, at, _ => Visit(at, false, at, at), at)
  }

  const BOOT := Boot(0, 0, 0)

  lemma InstantOk(c: Config, now: Time, at: Time, lifetime: nat, victim: nat, interval: nat)
    requires now <= at && (c.preempt ==> victim < c.dynMax)
    ensures TickOk(c, now, Instant(at, lifetime, victim, interval))
  {
  }

  /** A run can be continued by an instant at any later time. */
  lemma Extend(c: Config, b: Boot, ticks: seq<Tick>, at: Time, lifetime: nat, victim: nat, interval: nat)
    requires ValidRun(c, b, ticks) && LastReading(b, ticks) <= at && (c.preempt ==> victim < c.dynMax)
    ensures Extends(c, b, ticks, Instant(at, lifetime, victim, interval))
    ensures ValidRun(c, b, ticks + [Instant(at, lifetime, victim, interval)])
    ensures Reach(c, b, ticks + [Instant(at, lifetime, victim, interval)])
         == Step(c, Reach(c, b, ticks), Instant(at, lifetime, victim, interval))
  {
    InstantOk(c, LastReading(b, ticks), at, lifetime, victim, interval);
    ReachNext(c, b, ticks, Instant(at, lifetime, victim, interval));
  }

  /** One instant, given which connections are overdue. */
  lemma InstantStep(c: Config, st: State, t: Tick, a: State, overdue: set<Handle>)
    requires ValidConfig(c) && Inv(c, st) && TickOk(c, st.now, t)
    requires t == Instant(t.doneAt, t.lifetime, t.victim, t.nextInterval)
    requires a == Admit(c, st, t)
    requires forall h :: h in a.dynamic ==> a.dynamic[h].since <= t.doneAt
    requires forall h :: h in overdue <==> h in a.dynamic && Overdue(a.dynamic[h], t.doneAt)
    ensures var gone := Preempted(c, st, t) + overdue;
            && var st' := Step(c, st, t);
            && st'.sockets == Clear(a.sockets, gone)
            && st'.total == Decrement(a.total, |gone|)
            && st'.dynamic == a.dynamic - overdue
            && st'.arrivals == a.arrivals && st'.interval == a.interval
  {
    hide Scheduler.Admit, Scheduler.Preempted, Scheduler.Inv;
    AdmitReady(c, st, t);
    assert Expired(a.dynamic, t) == overdue;
  }

  /** An instant that opens a connection and closes none. */
  lemma OpeningStep(c: Config, st: State, t: Tick)
    requires ValidConfig(c) && Inv(c, st) && TickOk(c, st.now, t)
    requires t == Instant(t.doneAt, t.lifetime, t.victim, t.nextInterval)
    requires Arrives(st, t) && |st.dynamic| < c.dynMax
    requires forall h :: h in st.dynamic ==> !Overdue(st.dynamic[h], t.doneAt)
    ensures var st' := Step(c, st, t);
            && st'.sockets == Add(st.sockets, Socket(Increment(st.total), Dynamic))
            && st'.dynamic == st.dynamic[FirstFree(st.sockets) := Deadline(t.doneAt, t.lifetime)]
            && st'.total == Increment(st.total)
            && st'.arrivals == t.doneAt && st'.interval == t.nextInterval
  {
    hide SocketTable.Add, Scheduler.Step, Scheduler.Expired, Scheduler.Admit, Scheduler.Preempted;
    hide SocketTable.Clear, Scheduler.Decrement, Scheduler.Increment, Scheduler.Overdue, Scheduler.Elapsed;
    AdmitOpening(c, st, t);
    var a := Admit(c, st, t);
    Newborn(t.doneAt, t.lifetime);
    InstantStep(c, st, t, a, {});
    assert Preempted(c, st, t) + {} == {};
    ClearNothing(a.sockets);
    MinusKeys(a.dynamic, {});
    NoWrap(0, a.total, 0);
  }

  lemma Newborn(at: Time, life: nat)
    ensures !Overdue(Deadline(at, life), at)
  {
  }

  lemma AdmitOpening(c: Config, st: State, t: Tick)
    requires ValidConfig(c) && Inv(c, st) && TickOk(c, st.now, t)
    requires Arrives(st, t) && |st.dynamic| < c.dynMax
    ensures Preempted(c, st, t) == {}
    ensures Admit(c, st, t) == Rearmed(Opened(st.(total := Increment(st.total)), t), t)
    ensures Increment(st.total) < U32
  {
    hide SocketTable.Add, Scheduler.Inv;
    MinusKeys(st.dynamic, {});
  }

  /** An instant without an arrival. */
  lemma ExpiringStep(c: Config, st: State, t: Tick, overdue: set<Handle>)
    requires ValidConfig(c) && Inv(c, st) && TickOk(c, st.now, t)
    requires t == Instant(t.doneAt, t.lifetime, t.victim, t.nextInterval)
    requires !Arrives(st, t)
    requires forall h :: h in overdue <==> h in st.dynamic && Overdue(st.dynamic[h], t.doneAt)
    ensures var st' := Step(c, st, t);
            && st'.sockets == Clear(st.sockets, overdue)
            && st'.dynamic == st.dynamic - overdue
            && st'.total == Decrement(st.total, |overdue|)
            && st'.arrivals == st.arrivals && st'.interval == st.interval
  {
    hide Scheduler.Step, Scheduler.Expired, SocketTable.Clear, Scheduler.Decrement, Scheduler.Inv;
    InstantStep(c, st, t, Admit(c, st, t), overdue);
    assert Preempted(c, st, t) + overdue == overdue;
  }

  // ----- the counter drifts from the open connections

  const REFUSING := Config(0x0a00_0001, 0, 0, 100, 100, false)

  /** An arrival that is refused is counted all the same. */
  lemma CounterDrifts()
    ensures var ticks := [Instant(1_000_000, 5, 0, 5)];
            && ValidRun(REFUSING, BOOT, ticks)
            && Reach(REFUSING, BOOT, ticks).total == 1
            && LiveSet(Reach(REFUSING, BOOT, ticks).sockets) == {}
  {
    var t := Instant(1_000_000, 5, 0, 5);
    Extend(REFUSING, BOOT, [], 1_000_000, 5, 0, 5);
    assert [] + [t] == [t];
    var st := Reach(REFUSING, BOOT, []);
    InstantStep(REFUSING, st, t, Admit(REFUSING, st, t), {});
  }

  // ----- preemption reaches a static connection

  const PREEMPTING := Config(0x0a00_0001, 1, 1, 100, 100, true)

  lemma OneStaticOneDynamic()
    ensures var ticks := [Instant(1_000_000, 1000, 0, 0)];
            && ValidRun(PREEMPTING, BOOT, ticks)
            && var st := Reach(PREEMPTING, BOOT, ticks);
            && st.sockets == [Some(Socket(0, Static)), Some(Socket(2, Dynamic))]
            && st.dynamic == map[1 := Deadline(1_000_000, 1000)]
            && st.total == 2 && st.arrivals == 1_000_000 && st.interval == 0
  {
    hide Scheduler.Step;
    var t := Instant(1_000_000, 1000, 0, 0);
    Extend(PREEMPTING, BOOT, [], 1_000_000, 1000, 0, 0);
    assert [] + [t] == [t];
    var st := Reach(PREEMPTING, BOOT, []);
    assert st.sockets == [Some(Socket(0, Static))];
    assert FirstFree(st.sockets) == 1 by { assert Live(st.sockets, 0); }
    OpeningStep(PREEMPTING, st, t);
  }

  /** Victim zero is the only static connection: two arrivals are enough to lose it. */
  lemma StaticConnectionClosed()
    ensures var ticks := [Instant(1_000_000, 1000, 0, 0), Instant(2_000_000, 1000, 0, 0)];
            && PREEMPTING.staticConns == 1
            && ValidRun(PREEMPTING, BOOT, ticks)
            && StaticSet(Reach(PREEMPTING, BOOT, ticks)) == {}
  {
    hide Scheduler.Step;
    OneStaticOneDynamic();
    var t0, t := Instant(1_000_000, 1000, 0, 0), Instant(2_000_000, 1000, 0, 0);
    Extend(PREEMPTING, BOOT, [t0], 2_000_000, 1000, 0, 0);
    assert [t0] + [t] == [t0, t];
    var st := Reach(PREEMPTING, BOOT, [t0]);
    assert Victim(PREEMPTING, st, t) == 0 by {
      assert Live(st.sockets, 0);
      assert 0 in Handles(st.sockets);
    }
    StaticStep(PREEMPTING, st, t);
    assert Preempted(PREEMPTING, st, t) == {0};
  }

  /** One arrival per millisecond, each connection outliving the run. */
  function Filling(c: Config, k: nat): seq<Tick> {
    if k == 0 then [] else Filling(c, k - 1) + [Instant(k * NANOS_PER_MILLI, c.dynMax + 1, 0, 0)]
  }

  /** The state after k of them: k dynamic connections, and the first static one is still there. */
  ghost predicate FilledUp(c: Config, st: State, k: nat) {
    && |st.dynamic| == k && st.now == st.arrivals == k * NANOS_PER_MILLI && st.interval == 0
    && (forall h :: h in st.dynamic ==> st.dynamic[h].life == c.dynMax + 1)
    && (c.staticConns > 0 ==> Live(st.sockets, 0) && st.sockets[0].value.origin == Static)
  }

  lemma Milliseconds(since: Time, k: nat)
    requires since <= k * NANOS_PER_MILLI
    ensures Elapsed(since, k * NANOS_PER_MILLI) <= k
    ensures Elapsed(k * NANOS_PER_MILLI, (k + 1) * NANOS_PER_MILLI) == 1
  {
  }

  /** What the next arrival meets: it is due, and nobody's time is up. */
  lemma FillingTick(c: Config, st: State, k: nat)
    requires ValidConfig(c) && Inv(c, st) && k <= c.dynMax && FilledUp(c, st, k)
    ensures var t := Instant((k + 1) * NANOS_PER_MILLI, c.dynMax + 1, 0, 0);
            && (c.preempt || 0 < c.dynMax ==> TickOk(c, st.now, t)) && st.arrivals <= t.doneAt && Arrives(st, t)
            && (forall h :: h in st.dynamic ==> st.dynamic[h].since <= t.doneAt && !Overdue(st.dynamic[h], t.doneAt))
  {
    var t := Instant((k + 1) * NANOS_PER_MILLI, c.dynMax + 1, 0, 0);
    Milliseconds(0, k);
    forall h | h in st.dynamic
      ensures st.dynamic[h].since <= t.doneAt && !Overdue(st.dynamic[h], t.doneAt)
    {
      Milliseconds(st.dynamic[h].since, k + 1);
    }
  }

  lemma FillingStep(c: Config, st: State, k: nat)
    requires ValidConfig(c) && Inv(c, st) && k < c.dynMax && FilledUp(c, st, k)
    ensures var t := Instant((k + 1) * NANOS_PER_MILLI, c.dynMax + 1, 0, 0);
            TickOk(c, st.now, t) && FilledUp(c, Step(c, st, t), k + 1)
  {
    hide Scheduler.Step, SocketTable.Add, Scheduler.Increment, Scheduler.Overdue, Scheduler.Arrives, Scheduler.TickOk;
    var t := Instant((k + 1) * NANOS_PER_MILLI, c.dynMax + 1, 0, 0);
    FillingTick(c, st, k);
    OpeningStep(c, st, t);
    NewKey(st.sockets, st.dynamic, Deadline(t.doneAt, t.lifetime));
    AddEffect(st.sockets, Socket(Increment(st.total), Dynamic));
  }

  /** The handle of a new connection is not in the map yet. */
  lemma NewKey(sockets: Table, dynamic: map<Handle, Deadline>, d: Deadline)
    requires OriginSet(sockets, Dynamic) == dynamic.Keys
    ensures |dynamic[FirstFree(sockets) := d]| == |dynamic| + 1
  {
    OriginIsLive(sockets, Dynamic);
    PutKey(dynamic, dynamic.Keys, {}, FirstFree(sockets), d);
  }

  lemma FillNone(c: Config)
    requires ValidConfig(c)
    ensures ValidRun(c, BOOT, []) && FilledUp(c, Reach(c, BOOT, []), 0)
  {
    if c.staticConns > 0 {
      assert Live(Reach(c, BOOT, []).sockets, 0);
    }
  }

  lemma {:induction false} FillUp(c: Config, k: nat)
    requires ValidConfig(c) && k <= c.dynMax
    ensures ValidRun(c, BOOT, Filling(c, k)) && FilledUp(c, Reach(c, BOOT, Filling(c, k)), k)
  {
    hide Scheduler.Step, FilledUp, ValidRun, Reach, Scheduler.TickOk, Scheduler.Inv;
    if k == 0 {
      FillNone(c);
    } else {
      FillUp(c, k - 1);
      var ticks := Filling(c, k - 1);
      var t := Instant(k * NANOS_PER_MILLI, c.dynMax + 1, 0, 0);
      FillingStep(c, Reach(c, BOOT, ticks), k - 1);
      ReachNext(c, BOOT, ticks, t);
    }
  }

  lemma FirstIsVictim(c: Config, st: State, t: Tick)
    requires Inv(c, st) && MustPreempt(c, st) && t.victim == 0 < c.dynMax && Live(st.sockets, 0)
    ensures Victim(c, st, t) == 0
  {
    assert 0 in Handles(st.sockets);
  }

  /** At the limit, one more arrival can close the first static connection. */
  lemma FirstStaticLost(c: Config, st: State)
    requires ValidConfig(c) && Inv(c, st) && c.preempt && FilledUp(c, st, c.dynMax) && c.staticConns > 0
    ensures var t := Instant((c.dynMax + 1) * NANOS_PER_MILLI, 0, 0, 0);
            TickOk(c, st.now, t) && 0 !in StaticSet(Step(c, st, t))
  {
    hide Scheduler.Step;
    var t := Instant((c.dynMax + 1) * NANOS_PER_MILLI, 0, 0, 0);
    InstantOk(c, st.now, t.doneAt, 0, 0, 0);
    assert Arrives(st, t) by { assert Elapsed(st.arrivals, t.doneAt) == 1; }
    FirstIsVictim(c, st, t);
    StaticStep(c, st, t);
  }

  lemma StaticLost(c: Config)
    requires ValidConfig(c) && c.preempt && c.staticConns > 0
    ensures exists ticks :: ValidRun(c, BOOT, ticks) && 0 !in StaticSet(Reach(c, BOOT, ticks))
  {
    hide Scheduler.Step;
    FillUp(c, c.dynMax);
    var ticks := Filling(c, c.dynMax);
    FirstStaticLost(c, Reach(c, BOOT, ticks));
    var t := Instant((c.dynMax + 1) * NANOS_PER_MILLI, 0, 0, 0);
    ReachNext(c, BOOT, ticks, t);
    assert ValidRun(c, BOOT, ticks + [t]);
  }

  /** All static connections survive every run of a configuration exactly when there are none or nothing is preempted. */
  lemma StaticsSurviveExactly(c: Config)
    requires ValidConfig(c)
    ensures (forall b, ticks, h: Handle :: ValidRun(c, b, ticks) && h < c.staticConns ==>
               h in StaticSet(Reach(c, b, ticks)))
            <==> !c.preempt || c.staticConns == 0
  {
    hide Scheduler.Step, ValidRun;
    if c.preempt && c.staticConns > 0 {
      StaticLost(c);
      var ticks :| ValidRun(c, BOOT, ticks) && 0 !in StaticSet(Reach(c, BOOT, ticks));
    } else {
      forall b, ticks, h: Handle | ValidRun(c, b, ticks) && h < c.staticConns
        ensures h in StaticSet(Reach(c, b, ticks))
      {
        StaticSurvival(c, b, ticks, h);
      }
    }
  }

  // ----- a live endpoint is used again

  const REUSING := Config(0x0a00_0001, 0, 2, 100, 100, false)

  /** Two connections, opened one millisecond apart; the first one is short-lived. */
  function FirstTwo(): seq<Tick> {
    [Instant(1_000_000, 3, 0, 0), Instant(2_000_000, 1000, 0, 4)]
  }

  /** The first connection expires, then a third one arrives. */
  function ThenTwoMore(): seq<Tick> {
    [Instant(5_000_000, 0, 0, 0), Instant(7_000_000, 1000, 0, 1000)]
  }

  lemma FirstOpened()
    ensures ValidRun(REUSING, BOOT, FirstTwo()[..1])
    ensures var st := Reach(REUSING, BOOT, FirstTwo()[..1]);
            && st.sockets == [Some(Socket(1, Dynamic))]
            && st.dynamic == map[0 := Deadline(1_000_000, 3)]
            && st.total == 1 && st.arrivals == 1_000_000 && st.interval == 0
  {
    hide Scheduler.Step;
    var t := Instant(1_000_000, 3, 0, 0);
    Extend(REUSING, BOOT, [], 1_000_000, 3, 0, 0);
    assert [] + [t] == FirstTwo()[..1];
    var st := Reach(REUSING, BOOT, []);
    OpeningStep(REUSING, st, t);
  }

  lemma SecondOpened()
    ensures ValidRun(REUSING, BOOT, FirstTwo())
    ensures var st := Reach(REUSING, BOOT, FirstTwo());
            && st.sockets == [Some(Socket(1, Dynamic)), Some(Socket(2, Dynamic))]
            && st.dynamic == map[0 := Deadline(1_000_000, 3), 1 := Deadline(2_000_000, 1000)]
            && st.total == 2 && st.arrivals == 2_000_000 && st.interval == 4
  {
    hide Scheduler.Step;
    FirstOpened();
    var ticks := FirstTwo()[..1];
    var t := Instant(2_000_000, 1000, 0, 4);
    Extend(REUSING, BOOT, ticks, 2_000_000, 1000, 0, 4);
    assert ticks + [t] == FirstTwo();
    var st := Reach(REUSING, BOOT, ticks);
    assert FirstFree(st.sockets) == 1 by { assert Live(st.sockets, 0); }
    OpeningStep(REUSING, st, t);
  }

  /** The first of two connections taken out of the table and the map. */
  lemma FirstTaken()
    ensures Clear([Some(Socket(1, Dynamic)), Some(Socket(2, Dynamic))], {0}) == [None, Some(Socket(2, Dynamic))]
    ensures map[0 := Deadline(1_000_000, 3), 1 := Deadline(2_000_000, 1000)] - {0}
         == map[1 := Deadline(2_000_000, 1000)]
  {
    var m := map[0 := Deadline(1_000_000, 3), 1 := Deadline(2_000_000, 1000)];
    assert (m - {0}).Keys == {1};
  }

  lemma FirstExpired()
    ensures var ticks := FirstTwo() + ThenTwoMore()[..1];
            && ValidRun(REUSING, BOOT, ticks)
            && var st := Reach(REUSING, BOOT, ticks);
            && st.sockets == [None, Some(Socket(2, Dynamic))]
            && st.dynamic == map[1 := Deadline(2_000_000, 1000)]
            && st.total == 1 && st.arrivals == 2_000_000 && st.interval == 4
  {
    hide Scheduler.Step, Scheduler.Wrap32, Scheduler.Decrement, SocketTable.Clear, Scheduler.Inv, Reach, ValidRun;
    hide Scheduler.TickOk, Scheduler.Monotone;
    SecondOpened();
    var t := Instant(5_000_000, 0, 0, 0);
    Extend(REUSING, BOOT, FirstTwo(), 5_000_000, 0, 0, 0);
    assert FirstTwo() + [t] == FirstTwo() + ThenTwoMore()[..1];
    var st := Reach(REUSING, BOOT, FirstTwo());
    ExpiringStep(REUSING, st, t, {0});
    NoWrap(0, 2, 1);
    FirstTaken();
  }

  /** The third connection gets the endpoint the second one is still using. */
  lemma LiveEndpointRepeated()
    ensures var ticks := FirstTwo() + ThenTwoMore();
            && ValidRun(REUSING, BOOT, ticks)
            && !EndpointsDistinct(REUSING, Reach(REUSING, BOOT, ticks).sockets)
  {
    hide Scheduler.Step;
    FirstExpired();
    var ticks := FirstTwo() + ThenTwoMore()[..1];
    var t := Instant(7_000_000, 1000, 0, 1000);
    Extend(REUSING, BOOT, ticks, 7_000_000, 1000, 0, 1000);
    assert ticks + [t] == FirstTwo() + ThenTwoMore();
    var st := Reach(REUSING, BOOT, ticks);
    assert FirstFree(st.sockets) == 0;
    OpeningStep(REUSING, st, t);
    var sockets := Reach(REUSING, BOOT, ticks + [t]).sockets;
    assert Live(sockets, 0) && Live(sockets, 1);
  }
}
