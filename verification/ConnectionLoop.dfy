/**
 The client loop in its imperative form: the socket table, the map of dynamic
 connections, the close list, the counter and the timers are updated in place.
 Iterate is proved to compute Scheduler.Step.  The table operations, `nth` and
 every elapsed-time computation carry preconditions where the program would
 panic, so verification also shows that none of them does.
 */
module ConnectionLoop {
  import opened Common
  import opened SocketTable
  import opened Scheduler

  /** State when the main loop is first entered. */
  function Initial(c: Config, timerAt: Time, arrivalsAt: Time, interval: nat): State {
    State(seq(c.staticConns, i requires 0 <= i => Some(Socket(i, Static))), map[], c.staticConns,
          arrivalsAt, interval, timerAt, arrivalsAt)
  }

  lemma InitialInv(c: Config, timerAt: Time, arrivalsAt: Time, interval: nat)
    requires ValidConfig(c) && timerAt <= arrivalsAt
    ensures Inv(c, Initial(c, timerAt, arrivalsAt, interval))
    ensures |StaticSet(Initial(c, timerAt, arrivalsAt, interval))| == c.staticConns
  {
    var st := Initial(c, timerAt, arrivalsAt, interval);
    AllLive(st.sockets);
    assert LiveSet(st.sockets) == StaticSet(st);
    assert OriginSet(st.sockets, Dynamic) == {};
  }

  lemma DecrementOnce(total: nat, k: nat)
    ensures Decrement(Decrement(total, k), 1) == Decrement(total, k + 1)
  {
    var x, w := total - k, U32;
    assert x == x / w * w + x % w;
    if x % w == 0 {
      assert (x - 1) == (x / w - 1) * w + (w - 1);
    }
  }

  // ----- the sweep, slot by slot

  /** What the sweep changes: the map, the close list, the send timer and the sends. */
  datatype Scan = Scan(dynamic: map<Handle, Deadline>, closing: seq<Handle>, timer: Time, log: seq<Time>)

  /** The sweep can examine slot h: no stored time lies in the future. */
  predicate Ready(s: Scan, t: Tick, h: Handle) {
    && s.timer <= t.visits(h).ageAt <= t.visits(h).sendAt
    && (h in s.dynamic ==> s.dynamic[h].since <= t.visits(h).ageAt)
  }

  /** One live socket: close it if it is dynamic and overdue, otherwise offer it the throttle. */
  function Examined(c: Config, s: Scan, t: Tick, h: Handle): Scan
    requires Ready(s, t, h)
  {
    if h in s.dynamic && Overdue(s.dynamic[h], t.visits(h).ageAt) then
      s.(dynamic := s.dynamic - {h}, closing := s.closing + [h])
    else if t.visits(h).maySend && Releases(c, s.timer, t.visits(h).sendAt) then
      s.(timer := t.visits(h).resetAt, log := s.log + [t.visits(h).sendAt])
    else s
  }

  lemma ReadyStart(s0: Scan, t: Tick)
    requires Monotone(t) && Examinable(s0.dynamic, t) && s0.timer <= t.rearmedAt
    ensures forall h: Handle :: Ready(s0, t, h)
  {
    forall h: Handle
      ensures Ready(s0, t, h)
    {
      assert SlotOrder(t, h);
    }
  }

  lemma ReadyNext(c: Config, s: Scan, t: Tick, n: Handle)
    requires Monotone(t) && forall h: Handle :: h >= n ==> Ready(s, t, h)
    ensures Ready(s, t, n)
    ensures forall h: Handle :: h > n ==> Ready(Examined(c, s, t, n), t, h)
  {
    assert Ready(s, t, n);
    forall h: Handle | h > n
      ensures Ready(Examined(c, s, t, n), t, h)
    {
      assert Ready(s, t, h) && SlotOrder(t, h) && SlotBefore(t, n, h);
    }
  }

  /** The scan after the first n slots. */
  ghost function Scanned(c: Config, sockets: Table, s0: Scan, t: Tick, n: nat): (s: Scan)
    requires Monotone(t) && Examinable(s0.dynamic, t) && s0.timer <= t.rearmedAt
    ensures forall h: Handle :: h >= n ==> Ready(s, t, h)
    ensures forall h :: h in s.dynamic ==> h in s0.dynamic && s.dynamic[h] == s0.dynamic[h]
  {
    if n == 0 then
      ReadyStart(s0, t);
      s0
    else
      var s := Scanned(c, sockets, s0, t, n - 1);
      ReadyNext(c, s, t, n - 1);
      if Live(sockets, n - 1) then Examined(c, s, t, n - 1) else s
  }

  ghost predicate Sweepable(sockets: Table, s0: Scan, t: Tick) {
    && Monotone(t) && Examinable(s0.dynamic, t) && s0.timer <= t.rearmedAt
    && s0.dynamic.Keys <= LiveSet(sockets) && Elements(s0.closing) <= LiveSet(sockets)
    && Distinct(s0.closing) && Elements(s0.closing) !! s0.dynamic.Keys
  }

  lemma ExpiredHere(c: Config, sockets: Table, s0: Scan, t: Tick, n: nat)
    requires Sweepable(sockets, s0, t)
    requires var s := Scanned(c, sockets, s0, t, n);
             forall h :: h in s.dynamic <==> h in s0.dynamic && !(h in Expired(s0.dynamic, t) && h < n)
    ensures var s := Scanned(c, sockets, s0, t, n);
            n in Expired(s0.dynamic, t) <==> n in s.dynamic && Overdue(s.dynamic[n], t.visits(n).ageAt)
    ensures n in s0.dynamic ==> Live(sockets, n) && n !in s0.closing
  {
    assert n in s0.dynamic ==> n in LiveSet(sockets) && n !in Elements(s0.closing);
  }

  /** The scan so far has removed exactly the expired handles below n. */
  lemma {:induction false} ScannedMap(c: Config, sockets: Table, s0: Scan, t: Tick, n: nat)
    requires Sweepable(sockets, s0, t)
    ensures var s := Scanned(c, sockets, s0, t, n);
            forall h :: h in s.dynamic <==> h in s0.dynamic && !(h in Expired(s0.dynamic, t) && h < n)
  {
    if n > 0 {
      ScannedMap(c, sockets, s0, t, n - 1);
      ExpiredHere(c, sockets, s0, t, n - 1);
    }
  }

  /** The scan so far has listed exactly the expired handles below n, each once. */
  lemma {:induction false} ScannedClosing(c: Config, sockets: Table, s0: Scan, t: Tick, n: nat)
    requires Sweepable(sockets, s0, t)
    ensures var s := Scanned(c, sockets, s0, t, n);
            && Distinct(s.closing)
            && (forall h :: h in s.closing <==> h in s0.closing || (h in Expired(s0.dynamic, t) && h < n))
  {
    if n > 0 {
      ScannedClosing(c, sockets, s0, t, n - 1);
      ScannedMap(c, sockets, s0, t, n - 1);
      ExpiredHere(c, sockets, s0, t, n - 1);
      var s := Scanned(c, sockets, s0, t, n - 1);
      if n - 1 in Expired(s0.dynamic, t) {
        DistinctAppend(s.closing, n - 1);
        assert Scanned(c, sockets, s0, t, n).closing == s.closing + [n - 1];
      } else {
        assert Scanned(c, sockets, s0, t, n).closing == s.closing;
      }
    }
  }

  /** The scan so far sends what the throttle specification sends. */
  lemma {:induction false} ScannedSends(c: Config, sockets: Table, s0: Scan, t: Tick, n: nat)
    requires Sweepable(sockets, s0, t) && s0.log == []
    ensures var s := Scanned(c, sockets, s0, t, n);
            Sends(s.timer, s.log) == SendScan(c, sockets, Expired(s0.dynamic, t), s0.timer, t, n)
  {
    if n > 0 {
      ScannedSends(c, sockets, s0, t, n - 1);
      ScannedMap(c, sockets, s0, t, n - 1);
      ExpiredHere(c, sockets, s0, t, n - 1);
    }
  }

  /** The complete sweep is a filter on the map. */
  lemma SweepIsFilter(c: Config, sockets: Table, s0: Scan, t: Tick)
    requires Sweepable(sockets, s0, t)
    ensures var s := Scanned(c, sockets, s0, t, |sockets|);
            && s.dynamic == s0.dynamic - Expired(s0.dynamic, t)
            && Distinct(s.closing)
            && Elements(s.closing) == Elements(s0.closing) + Expired(s0.dynamic, t)
            && Elements(s.closing) <= LiveSet(sockets)
  {
    ScannedMap(c, sockets, s0, t, |sockets|);
    ScannedClosing(c, sockets, s0, t, |sockets|);
    assert forall h :: h in Expired(s0.dynamic, t) ==> h in LiveSet(sockets) && h < |sockets|;
  }

  /** Admission, written in the order the loop performs it. */
  lemma AdmitByPhases(c: Config, st: State, t: Tick, closing: seq<Handle>)
    requires ValidConfig(c) && Inv(c, st) && TickOk(c, st.now, t) && Arrives(st, t)
    requires MustPreempt(c, st) ==> t.victim < |Handles(st.sockets)|
    requires closing == if MustPreempt(c, st) then [Handles(st.sockets)[t.victim]] else []
    ensures Distinct(closing) && Elements(closing) == Preempted(c, st, t)
    ensures var kept := st.(total := Increment(st.total), dynamic := st.dynamic - Elements(closing));
            Admit(c, st, t) == Rearmed(if |kept.dynamic| < c.dynMax then Opened(kept, t) else kept, t)
  {
    hide SocketTable.OriginSet, SocketTable.Add;
    assert Elements(closing) == Preempted(c, st, t);
  }

  /** An iteration, written in the order the loop performs it. */
  lemma StepByPhases(c: Config, st: State, t: Tick)
    requires ValidConfig(c) && Inv(c, st) && TickOk(c, st.now, t)
    ensures var a := Admit(c, st, t);
            && Examinable(a.dynamic, t)
            && var gone := Closing(c, st, t);
               var swept := a.(dynamic := a.dynamic - Expired(a.dynamic, t), sendTimer := StepSends(c, st, t).timer);
               var drained := swept.(sockets := Clear(a.sockets, gone), total := Decrement(a.total, |gone|));
               Step(c, st, t) == drained.(now := t.doneAt)
  {
    AdmitReady(c, st, t);
  }

  /** After admission everything is in place for sweep and drain. */
  lemma AdmittedIsSweepable(c: Config, st: State, t: Tick, closing: seq<Handle>)
    requires ValidConfig(c) && Inv(c, st) && TickOk(c, st.now, t)
    requires Distinct(closing) && Elements(closing) == Preempted(c, st, t)
    ensures var a := Admit(c, st, t);
            && Sweepable(a.sockets, Scan(a.dynamic, closing, a.sendTimer, []), t)
            && Closing(c, st, t) == Preempted(c, st, t) + Expired(a.dynamic, t)
            && StepSends(c, st, t) == SendScan(c, a.sockets, Expired(a.dynamic, t), a.sendTimer, t, |a.sockets|)
  {
    AdmitReady(c, st, t);
    AdmitKeepsPartition(c, st, t);
    var a := Admit(c, st, t);
    OriginSplit(a.sockets);
  }

  class Client {
    const cfg: Config
    var sockets: Table
    var dynamic: map<Handle, Deadline>
    var closing: seq<Handle>
    var total: nat
    var arrivals: Time
    var interval: nat
    var sendTimer: Time
    var now: Time
    var sent: seq<Time>

    ghost function State(): State
      reads this
    {
      Scheduler.State(sockets, dynamic, total, arrivals, interval, sendTimer, now)
    }

    /** Opens the static connections and arms both timers. */
    constructor (cfg: Config, timerAt: Time, arrivalsAt: Time, interval: nat)
      requires ValidConfig(cfg) && timerAt <= arrivalsAt
      ensures this.cfg == cfg
      ensures State() == Initial(cfg, timerAt, arrivalsAt, interval)
      ensures Inv(cfg, State())
    {
      var table: Table := [];
      for i := 0 to cfg.staticConns
        invariant |table| == i
        invariant forall k :: 0 <= k < i ==> table[k] == Some(Socket(0, Static))
      {
        assert forall k :: 0 <= k < i ==> Live(table, k);
        table := Add(table, Socket(0, Static));
      }
      for i := 0 to |table|
        invariant |table| == cfg.staticConns
        invariant forall k :: 0 <= k < i ==> table[k] == Some(Socket(k, Static))
      {
        table := table[i := Some(Socket(i, Static))];
      }
      this.cfg := cfg;
      sockets, dynamic, closing, total := table, map[], [], cfg.staticConns;
      this.arrivals, this.interval, sendTimer := arrivalsAt, interval, timerAt;
      now, sent := arrivalsAt, [];
      InitialInv(cfg, timerAt, arrivalsAt, interval);
    }

    /** At the limit, picks a victim among all live sockets, forgets it as dynamic and schedules its closing. */
    method Preempt(idx: nat)
      requires cfg.preempt && |dynamic| == cfg.dynMax ==> idx < |Handles(sockets)|
      requires closing == []
      modifies `dynamic, `closing
      ensures closing == if cfg.preempt && old(|dynamic|) == cfg.dynMax then [Handles(sockets)[idx]] else []
      ensures State() == old(State()).(dynamic := old(dynamic) - Elements(closing))
    {
      if |dynamic| == cfg.dynMax && cfg.preempt {
        var key := Handles(sockets)[idx];
        dynamic := dynamic - {key};
        closing := closing + [key];
        assert Elements(closing) == {key};
      } else {
        assert Elements(closing) == {};
        MinusKeys(dynamic, {});
      }
    }

    /** Opens one more dynamic connection. */
    method Open(t: Tick)
      modifies `sockets, `dynamic
      ensures State() == Opened(old(State()), t)
    {
      var handle := FirstFree(sockets);
      sockets := Add(sockets, Socket(total, Dynamic));
      dynamic := dynamic[handle := Deadline(t.openedAt, t.lifetime)];
    }

    /** An arrival: count it, maybe preempt, maybe open, re-arm. */
    method Arrival(t: Tick)
      requires cfg.preempt && |dynamic| == cfg.dynMax ==> t.victim < |Handles(sockets)|
      requires closing == []
      modifies `sockets, `dynamic, `closing, `total, `arrivals, `interval
      ensures closing ==
              if cfg.preempt && old(|dynamic|) == cfg.dynMax then [Handles(old(sockets))[t.victim]] else []
      ensures var kept := old(State()).(total := Increment(old(total)), dynamic := old(dynamic) - Elements(closing));
              State() == Rearmed(if |kept.dynamic| < cfg.dynMax then Opened(kept, t) else kept, t)
    {
      total := Increment(total);
      Preempt(t.victim);
      if |dynamic| < cfg.dynMax {
        Open(t);
      }
      interval := t.nextInterval;
      arrivals := t.rearmedAt;
    }

    /** The arrival phase of an iteration. */
    method Poll(t: Tick)
      requires ValidConfig(cfg) && Inv(cfg, State()) && TickOk(cfg, now, t)
      requires closing == []
      modifies `sockets, `dynamic, `closing, `total, `arrivals, `interval
      ensures State() == Admit(cfg, old(State()), t)
      ensures Distinct(closing) && Elements(closing) == Preempted(cfg, old(State()), t)
    {
      ghost var before := State();
      if Elapsed(arrivals, t.arrivalAt) > interval {
        EnoughLive(cfg, before);
        Arrival(t);
        AdmitByPhases(cfg, before, t, closing);
      }
    }

    function Progress(): Scan
      reads this
    {
      Scan(dynamic, closing, sendTimer, sent)
    }

    /** Examines one live socket. */
    method Examine(h: Handle, t: Tick)
      requires Ready(Progress(), t, h)
      modifies `dynamic, `closing, `sendTimer, `sent
      ensures Progress() == Examined(cfg, old(Progress()), t, h)
    {
      var visit := t.visits(h);
      if h in dynamic && Elapsed(dynamic[h].since, visit.ageAt) > dynamic[h].life {
        dynamic := dynamic - {h};
        closing := closing + [h];
      } else if visit.maySend && Elapsed(sendTimer, visit.sendAt) % 0x1_0000_0000_0000_0000 > cfg.sendInterval {
        sendTimer := visit.resetAt;
        sent := sent + [visit.sendAt];
      }
    }

    /** The sweep: expire dynamic connections and let the throttle pick senders. */
    method Sweep(t: Tick)
      requires Sweepable(sockets, Progress(), t) && sent == []
      modifies `dynamic, `closing, `sendTimer, `sent
      ensures State() == old(State()).(dynamic := old(dynamic) - Expired(old(dynamic), t), sendTimer := sendTimer)
      ensures Distinct(closing) && Elements(closing) <= LiveSet(sockets)
      ensures Elements(closing) == old(Elements(closing)) + Expired(old(dynamic), t)
      ensures Sends(sendTimer, sent)
           == SendScan(cfg, sockets, Expired(old(dynamic), t), old(sendTimer), t, |sockets|)
    {
      ghost var s0 := Progress();
      for h := 0 to |sockets|
        invariant Progress() == Scanned(cfg, sockets, s0, t, h)
      {
        if sockets[h].Some? {
          Examine(h, t);
        }
      }
      SweepIsFilter(cfg, sockets, s0, t);
      ScannedSends(cfg, sockets, s0, t, |sockets|);
    }

    /** The drain: every handle on the close list is removed and counted off. */
    method Drain()
      requires Distinct(closing) && Elements(closing) <= LiveSet(sockets)
      requires total < U32
      modifies `sockets, `total
      ensures State() == old(State()).(sockets := Clear(old(sockets), Elements(closing)),
                                       total := Decrement(old(total), |Elements(closing)|))
    {
      DistinctSize(closing);
      for i := 0 to |closing|
        invariant sockets == Clear(old(sockets), Elements(closing[..i]))
        invariant total == Decrement(old(total), i)
      {
        assert closing[i] in Elements(closing) && closing[i] !in closing[..i];
        assert Elements(closing[..i + 1]) == Elements(closing[..i]) + {closing[i]};
        sockets := Remove(sockets, closing[i]);
        DecrementOnce(old(total), i);
        total := Decrement(total, 1);
      }
      assert closing[..|closing|] == closing;
    }

    /** One iteration of the main loop. */
    method Iterate(t: Tick)
      requires ValidConfig(cfg) && Inv(cfg, State()) && TickOk(cfg, now, t)
      modifies this
      ensures State() == Step(cfg, old(State()), t) && Inv(cfg, State())
      ensures sent == StepSends(cfg, old(State()), t).log
      ensures Distinct(closing) && Elements(closing) == Closing(cfg, old(State()), t)
    {
      ghost var before := State();
      closing, sent := [], [];
      Poll(t);
      AdmittedIsSweepable(cfg, before, t, closing);
      StepByPhases(cfg, before, t);
      Sweep(t);
      Drain();
      now := t.doneAt;
    }
  }
}
