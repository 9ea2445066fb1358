/**
 Real-time properties of runs: how often data is sent, and how long a dynamic
 connection can outlive its lifetime.
 */
module Timing {
  import opened SocketTable
  import opened Scheduler
  import opened Runs

  // ----- send throttle

  /** All sends of a run, in order. */
  ghost function SendLog(c: Config, b: Boot, ticks: seq<Tick>): seq<Time>
    requires ValidRun(c, b, ticks)
  {
    if ticks == [] then []
    else
      var n := |ticks| - 1;
      SendLog(c, b, ticks[..n]) + StepSends(c, Reach(c, b, ticks[..n]), ticks[n]).log
  }

  /** The least time between two sends: send_interval plus one, in milliseconds. */
  function LeastGap(c: Config): nat {
    (c.sendInterval + 1) * NANOS_PER_MILLI
  }

  /** The k-th send (from zero) is no earlier than k + 1 gaps after `start`, counting `before` earlier sends. */
  ghost predicate Throttled(c: Config, start: Time, before: nat, log: seq<Time>, timer: Time) {
    && (forall k :: 0 <= k < |log| ==> start + (before + k + 1) * LeastGap(c) <= log[k])
    && start + (before + |log|) * LeastGap(c) <= timer
  }

  /** The throttle opens only a full gap after the timer was set. */
  lemma ReleaseTakesAGap(c: Config, timer: Time, at: Time)
    requires timer <= at && Releases(c, timer, at)
    ensures timer + LeastGap(c) <= at
  {
  }

  lemma OneMoreGap(n: nat, g: nat)
    ensures (n + 1) * g == n * g + g
  {
  }

  lemma {:induction false} ScanThrottled(c: Config, sockets: Table, gone: set<Handle>, timer: Time, t: Tick, n: nat,
                                         start: Time, before: nat)
    requires Monotone(t) && timer <= t.rearmedAt
    requires start + before * LeastGap(c) <= timer
    ensures var r := SendScan(c, sockets, gone, timer, t, n);
            Throttled(c, start, before, r.log, r.timer)
  {
    hide LeastGap, Releases;
    if n > 0 {
      ScanThrottled(c, sockets, gone, timer, t, n - 1, start, before);
      var r := SendScan(c, sockets, gone, timer, t, n - 1);
      var v := t.visits(n - 1);
      assert SlotOrder(t, n - 1) && TimerBefore(r.timer, t, n - 1);
      if Offered(sockets, gone, t, n - 1) && Releases(c, r.timer, v.sendAt) {
        ReleaseTakesAGap(c, r.timer, v.sendAt);
        OneMoreGap(before + |r.log|, LeastGap(c));
      }
    }
  }

  /**
   Across all sockets and iterations, the k-th send of a run happens at least k
   times (send_interval + 1) milliseconds after the timer was first set.
   */
  lemma {:induction false} SendThrottle(c: Config, b: Boot, ticks: seq<Tick>)
    requires ValidRun(c, b, ticks)
    ensures Throttled(c, b.timerAt, 0, SendLog(c, b, ticks), Reach(c, b, ticks).sendTimer)
  {
    hide Scheduler.StepSends, Scheduler.Step, LeastGap, Throttled;
    if ticks == [] {
      ThrottledStart(c, b);
    } else {
      var n := |ticks| - 1;
      var st, log := Reach(c, b, ticks[..n]), SendLog(c, b, ticks[..n]);
      SendThrottle(c, b, ticks[..n]);
      TimerAfter(c, b.timerAt, log, st.sendTimer);
      StepThrottled(c, st, ticks[n], b.timerAt, |log|);
      var r := StepSends(c, st, ticks[n]);
      ThrottledAppend(c, b.timerAt, log, st.sendTimer, r.log, r.timer);
    }
  }

  lemma ThrottledStart(c: Config, b: Boot)
    requires ValidRun(c, b, [])
    ensures Throttled(c, b.timerAt, 0, [], Reach(c, b, []).sendTimer)
  {
  }

  lemma TimerAfter(c: Config, start: Time, log: seq<Time>, timer: Time)
    requires Throttled(c, start, 0, log, timer)
    ensures start + |log| * LeastGap(c) <= timer
  {
  }

  lemma ThrottledAppend(c: Config, start: Time, log: seq<Time>, timer: Time, log': seq<Time>, timer': Time)
    requires Throttled(c, start, 0, log, timer) && Throttled(c, start, |log|, log', timer')
    ensures Throttled(c, start, 0, log + log', timer')
  {
    hide LeastGap;
    forall k | 0 <= k < |log + log'|
      ensures start + (k + 1) * LeastGap(c) <= (log + log')[k]
    {
      if k >= |log| {
        assert (log + log')[k] == log'[k - |log|];
        assert start + (|log| + (k - |log|) + 1) * LeastGap(c) <= log'[k - |log|];
      } else {
        assert start + (0 + k + 1) * LeastGap(c) <= log[k];
      }
    }
  }

  lemma StepThrottled(c: Config, st: State, t: Tick, start: Time, before: nat)
    requires ValidConfig(c) && Inv(c, st) && TickOk(c, st.now, t)
    requires start + before * LeastGap(c) <= st.sendTimer
    ensures Throttled(c, start, before, StepSends(c, st, t).log, StepSends(c, st, t).timer)
    ensures Step(c, st, t).sendTimer == StepSends(c, st, t).timer
  {
    hide Throttled, LeastGap, Scheduler.Admit, Scheduler.Expired;
    AdmitReady(c, st, t);
    AdmitTimer(c, st, t);
    var a := Admit(c, st, t);
    ScanThrottled(c, a.sockets, Expired(a.dynamic, t), a.sendTimer, t, |a.sockets|, start, before);
  }

  lemma AdmitTimer(c: Config, st: State, t: Tick)
    requires ValidConfig(c) && Inv(c, st) && TickOk(c, st.now, t)
    ensures Admit(c, st, t).sendTimer == st.sendTimer
  {
    hide Scheduler.Inv, Scheduler.Preempted, Scheduler.Opens;
  }

  /** So the number of sends is bounded by the time the run has taken. */
  lemma SendCount(c: Config, b: Boot, ticks: seq<Tick>)
    requires ValidRun(c, b, ticks)
    ensures |SendLog(c, b, ticks)| * LeastGap(c) <= LastReading(b, ticks) - b.timerAt
  {
    SendThrottle(c, b, ticks);
  }

  // ----- arrivals

  /** When the arrival timer was last set in a run, and the interval drawn then. */
  ghost function Armed(c: Config, b: Boot, ticks: seq<Tick>): (Time, nat)
    requires ValidRun(c, b, ticks)
  {
    if ticks == [] then (b.arrivalsAt, b.interval)
    else
      var n := |ticks| - 1;
      if Arrives(Reach(c, b, ticks[..n]), ticks[n]) then (ticks[n].rearmedAt, ticks[n].nextInterval)
      else Armed(c, b, ticks[..n])
  }

  lemma StepTimers(c: Config, st: State, t: Tick)
    requires ValidConfig(c) && Inv(c, st) && TickOk(c, st.now, t)
    ensures var st' := Step(c, st, t);
            (st'.arrivals, st'.interval) ==
            if Arrives(st, t) then (t.rearmedAt, t.nextInterval) else (st.arrivals, st.interval)
  {
    hide Scheduler.Inv, Scheduler.Preempted, Scheduler.Opens, Scheduler.Closing;
  }

  lemma {:induction false} TimersAreArmed(c: Config, b: Boot, ticks: seq<Tick>)
    requires ValidRun(c, b, ticks)
    ensures (Reach(c, b, ticks).arrivals, Reach(c, b, ticks).interval) == Armed(c, b, ticks)
  {
    hide Scheduler.Step;
    if ticks != [] {
      var n := |ticks| - 1;
      TimersAreArmed(c, b, ticks[..n]);
      StepTimers(c, Reach(c, b, ticks[..n]), ticks[n]);
    }
  }

  /** The next connection arrives exactly once the drawn interval has passed since the last arrival. */
  lemma ArrivalSpacing(c: Config, b: Boot, ticks: seq<Tick>, t: Tick)
    requires Extends(c, b, ticks, t)
    ensures Arrives(Reach(c, b, ticks), t) <==>
            Armed(c, b, ticks).0 + (Armed(c, b, ticks).1 + 1) * NANOS_PER_MILLI <= t.arrivalAt
  {
    hide Scheduler.Step;
    TimersAreArmed(c, b, ticks);
  }

  // ----- lateness

  /** The cap on waiting between iterations: 100 milliseconds. */
  const MAX_WAIT: nat := 100 * NANOS_PER_MILLI

  /** Iterations take at most `work`, and the wait in between honours the cap. */
  ghost predicate Paced(ticks: seq<Tick>, work: nat) {
    && (forall i :: 0 <= i < |ticks| ==> ticks[i].doneAt <= ticks[i].polledAt + work)
    && (forall i :: 0 < i < |ticks| ==> ticks[i].polledAt <= ticks[i - 1].doneAt + MAX_WAIT)
  }

  /** The first instant at which a connection counts as expired. */
  function ExpiresAt(d: Deadline): Time {
    d.since + (d.life + 1) * NANOS_PER_MILLI
  }

  lemma OverdueFrom(d: Deadline, at: Time)
    requires d.since <= at
    ensures Overdue(d, at) <==> ExpiresAt(d) <= at
  {
  }

  lemma {:induction false} ScheduleTick(c: Config, b: Boot, ticks: seq<Tick>, i: nat)
    requires Schedule(c, b, ticks) && i < |ticks|
    ensures Monotone(ticks[i]) && LastReading(b, ticks[..i]) <= ticks[i].polledAt
  {
    var n := |ticks| - 1;
    if i < n {
      ScheduleTick(c, b, ticks[..n], i);
      assert ticks[..n][..i] == ticks[..i];
    }
  }

  /** Consecutive checks of the same handle are at most two work periods and one wait apart. */
  lemma ChecksAreClose(c: Config, b: Boot, ticks: seq<Tick>, work: nat, i: nat, h: Handle)
    requires ValidRun(c, b, ticks) && Paced(ticks, work) && 0 < i < |ticks|
    ensures ticks[i].visits(h).ageAt <= ticks[i - 1].visits(h).ageAt + 2 * work + MAX_WAIT
  {
    ScheduleTick(c, b, ticks, i);
    ScheduleTick(c, b, ticks, i - 1);
    assert SlotOrder(ticks[i], h) && SlotOrder(ticks[i - 1], h);
  }

  /** A connection still in the map at the loop head was not expired at its latest check. */
  lemma SurvivorsNotExpired(c: Config, b: Boot, ticks: seq<Tick>, h: Handle)
    requires ValidRun(c, b, ticks)
    ensures h in Reach(c, b, ticks).dynamic ==>
              ticks != [] && ticks[|ticks| - 1].visits(h).ageAt < ExpiresAt(Reach(c, b, ticks).dynamic[h])
  {
    if ticks != [] && h in Reach(c, b, ticks).dynamic {
      var n := |ticks| - 1;
      IterationIsFilter(c, b, ticks[..n], ticks[n], h);
      var d := Reach(c, b, ticks).dynamic[h];
      AdmitReady(c, Reach(c, b, ticks[..n]), ticks[n]);
      OverdueFrom(d, ticks[n].visits(h).ageAt);
    }
  }

  /** At no loop head has a connection in the map been expired for longer than one work period. */
  lemma OverstayBound(c: Config, b: Boot, ticks: seq<Tick>, work: nat, h: Handle)
    requires ValidRun(c, b, ticks) && Paced(ticks, work)
    ensures h in Reach(c, b, ticks).dynamic ==>
              Reach(c, b, ticks).now < ExpiresAt(Reach(c, b, ticks).dynamic[h]) + work
  {
    SurvivorsNotExpired(c, b, ticks, h);
    if h in Reach(c, b, ticks).dynamic {
      ScheduleTick(c, b, ticks, |ticks| - 1);
      assert SlotOrder(ticks[|ticks| - 1], h);
    }
  }

  /**
   Expiry is timely: a connection closed for its age is found expired no later than
   two work periods and one wait after the first instant it counts as expired.
   */
  lemma ExpiryIsTimely(c: Config, b: Boot, ticks: seq<Tick>, t: Tick, work: nat, h: Handle)
    requires Extends(c, b, ticks, t) && Paced(ticks + [t], work)
    ensures var a := Admit(c, Reach(c, b, ticks), t);
            && Examinable(a.dynamic, t)
            && (h in Expired(a.dynamic, t) ==>
                  ExpiresAt(a.dynamic[h]) <= t.visits(h).ageAt <= ExpiresAt(a.dynamic[h]) + 2 * work + MAX_WAIT)
  {
    hide Scheduler.Admit, Scheduler.Opens;
    var st := Reach(c, b, ticks);
    var a := Admit(c, st, t);
    AdmitReady(c, st, t);
    if h in Expired(a.dynamic, t) {
      var d := a.dynamic[h];
      var all := ticks + [t];
      OverdueFrom(d, t.visits(h).ageAt);
      AdmitEntry(c, st, t, h);
      assert SlotOrder(t, h);
      assert all[|ticks|] == t && t.doneAt <= t.polledAt + work;
      if h in st.dynamic && d == st.dynamic[h] {
        SurvivorsNotExpired(c, b, ticks, h);
        ReachNext(c, b, ticks, t);
        ChecksAreClose(c, b, all, work, |ticks|, h);
        assert all[|ticks| - 1] == ticks[|ticks| - 1];
      }
    }
  }

  /**
   No connection overstays: once an iteration starts at or after the instant a
   connection expires, that connection is out of the map when the iteration ends.
   */
  lemma NoOverstay(c: Config, b: Boot, ticks: seq<Tick>, t: Tick, h: Handle)
    requires Extends(c, b, ticks, t)
    ensures var st := Reach(c, b, ticks);
            h in st.dynamic && ExpiresAt(st.dynamic[h]) <= t.polledAt ==> h !in Step(c, st, t).dynamic
  {
    hide Scheduler.Admit, Scheduler.Opens;
    var st := Reach(c, b, ticks);
    IterationIsFilter(c, b, ticks, t, h);
    if h in st.dynamic && h in Admit(c, st, t).dynamic {
      AdmitKeepsEntry(c, st, t, h);
      assert SlotOrder(t, h);
      OverdueFrom(st.dynamic[h], t.visits(h).ageAt);
    }
  }

  lemma AdmitKeepsEntry(c: Config, st: State, t: Tick, h: Handle)
    requires ValidConfig(c) && Inv(c, st) && TickOk(c, st.now, t)
    requires h in st.dynamic && h in Admit(c, st, t).dynamic
    ensures Admit(c, st, t).dynamic[h] == st.dynamic[h]
  {
    OriginIsLive(st.sockets, Dynamic);
    assert FirstFree(st.sockets) !in st.dynamic;
    hide Scheduler.Inv;
  }
}
