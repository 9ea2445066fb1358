/**
 Exactly when data is sent, in plain arithmetic: which sockets send in an iteration,
 in which order, and what is left in the timer.
 */
module Sending {
  import opened SocketTable
  import opened Scheduler
  import opened Timing

  /** When the timer was last set before slot h is reached, if the given slots have sent so far. */
  function TimerAt(timer: Time, t: Tick, senders: seq<Handle>, h: Handle): Time {
    if senders == [] then timer
    else
      var n := |senders| - 1;
      if senders[n] < h then t.visits(senders[n]).resetAt else TimerAt(timer, t, senders[..n], h)
  }

  /** The timer left behind by the last sender. */
  function TimerLeft(timer: Time, t: Tick, senders: seq<Handle>): Time {
    if senders == [] then timer else t.visits(senders[|senders| - 1]).resetAt
  }

  /** More than sendInterval whole milliseconds have passed, as 64 bits show them. */
  predicate Waited(c: Config, since: Time, at: Time) {
    since <= at && (at - since) / 1_000_000 % 0x1_0000_0000_0000_0000 > c.sendInterval
  }

  /** Unless 2^64 milliseconds have passed, this means a full gap. */
  lemma WaitedAGap(c: Config, since: Time, at: Time)
    requires since <= at < since + 0x1_0000_0000_0000_0000 * 1_000_000
    ensures Waited(c, since, at) <==> since + (c.sendInterval + 1) * 1_000_000 <= at
  {
  }

  lemma ReleasesIsWaited(c: Config, since: Time, at: Time)
    requires since <= at
    ensures Releases(c, since, at) <==> Waited(c, since, at)
  {
  }

  /** The slots below n that may send: live, not expired, and willing. */
  predicate Willing(sockets: Table, dynamic: map<Handle, Deadline>, t: Tick, h: Handle) {
    && Live(sockets, h) && t.visits(h).maySend
    && !(h in dynamic && dynamic[h].since + (dynamic[h].life + 1) * 1_000_000 <= t.visits(h).ageAt)
  }

  /** The senders below n: in slot order, and exactly the willing ones the timer lets through. */
  ghost predicate Senders(c: Config, sockets: Table, dynamic: map<Handle, Deadline>, timer: Time, t: Tick, n: nat,
                          senders: seq<Handle>) {
    && (forall i, j :: 0 <= i < j < |senders| ==> senders[i] < senders[j])
    && (forall h: Handle :: h in senders <==>
          && h < n && Willing(sockets, dynamic, t, h)
          && Waited(c, TimerAt(timer, t, senders, h), t.visits(h).sendAt))
  }

  /** The readings at which they send. */
  function SendTimes(t: Tick, senders: seq<Handle>): (log: seq<Time>)
    ensures |log| == |senders| && forall i :: 0 <= i < |log| ==> log[i] == t.visits(senders[i]).sendAt
  {
    seq(|senders|, i requires 0 <= i < |senders| => t.visits(senders[i]).sendAt)
  }

  // ----- the scan, slot by slot

  /** All senders are below n, so at n the timer is what the last one left. */
  lemma TimerAtEnd(timer: Time, t: Tick, senders: seq<Handle>, n: nat)
    requires forall i :: 0 <= i < |senders| ==> senders[i] < n
    ensures TimerAt(timer, t, senders, n) == TimerLeft(timer, t, senders)
  {
  }

  /** A sender at n does not change what the timer was before. */
  lemma TimerAtBefore(timer: Time, t: Tick, senders: seq<Handle>, n: nat, h: Handle)
    requires h <= n
    ensures TimerAt(timer, t, senders + [n], h) == TimerAt(timer, t, senders, h)
  {
    assert (senders + [n])[..|senders|] == senders;
  }

  lemma WillingIsOffered(sockets: Table, dynamic: map<Handle, Deadline>, t: Tick, h: Handle)
    requires Examinable(dynamic, t)
    ensures Willing(sockets, dynamic, t, h) <==> Offered(sockets, Expired(dynamic, t), t, h)
  {
    if h in dynamic {
      OverdueFrom(dynamic[h], t.visits(h).ageAt);
    }
  }

  lemma SendersNext(c: Config, sockets: Table, dynamic: map<Handle, Deadline>, timer: Time, t: Tick, n: nat,
                    senders: seq<Handle>, sends: bool)
    requires Senders(c, sockets, dynamic, timer, t, n, senders)
    requires sends <==> Willing(sockets, dynamic, t, n) && Waited(c, TimerLeft(timer, t, senders), t.visits(n).sendAt)
    ensures Senders(c, sockets, dynamic, timer, t, n + 1, if sends then senders + [n] else senders)
  {
    hide Willing, Waited;
    assert forall i :: 0 <= i < |senders| ==> senders[i] in senders;
    TimerAtEnd(timer, t, senders, n);
    var all := if sends then senders + [n] else senders;
    forall h: Handle
      ensures h in all <==>
                && h < n + 1 && Willing(sockets, dynamic, t, h)
                && Waited(c, TimerAt(timer, t, all, h), t.visits(h).sendAt)
    {
      if sends && h <= n {
        TimerAtBefore(timer, t, senders, n, h);
      }
      assert h in all <==> h in senders || (sends && h == n);
    }
  }

  lemma {:induction false} ScanSenders(c: Config, sockets: Table, dynamic: map<Handle, Deadline>, timer: Time, t: Tick,
                                       n: nat) returns (senders: seq<Handle>)
    requires Monotone(t) && timer <= t.rearmedAt && Examinable(dynamic, t)
    ensures Senders(c, sockets, dynamic, timer, t, n, senders)
    ensures SendScan(c, sockets, Expired(dynamic, t), timer, t, n)
         == Sends(TimerLeft(timer, t, senders), SendTimes(t, senders))
  {
    hide Willing, Waited, Releases, Offered, Senders;
    if n == 0 {
      senders := [];
      NoSenders(c, sockets, dynamic, timer, t);
    } else {
      var before := ScanSenders(c, sockets, dynamic, timer, t, n - 1);
      var r := SendScan(c, sockets, Expired(dynamic, t), timer, t, n - 1);
      assert SlotOrder(t, n - 1) && TimerBefore(r.timer, t, n - 1);
      var at := t.visits(n - 1).sendAt;
      WillingIsOffered(sockets, dynamic, t, n - 1);
      ReleasesIsWaited(c, r.timer, at);
      var sends := Willing(sockets, dynamic, t, n - 1) && Waited(c, r.timer, at);
      SendersNext(c, sockets, dynamic, timer, t, n - 1, before, sends);
      senders := if sends then before + [n - 1] else before;
      assert sends ==> SendTimes(t, senders) == SendTimes(t, before) + [at];
    }
  }

  lemma NoSenders(c: Config, sockets: Table, dynamic: map<Handle, Deadline>, timer: Time, t: Tick)
    ensures Senders(c, sockets, dynamic, timer, t, 0, [])
  {
  }

  // ----- iterations

  /** The senders of an iteration, found in the state after the arrival phase. */
  ghost predicate IterationSenders(c: Config, st: State, t: Tick, senders: seq<Handle>)
    requires ValidConfig(c) && Inv(c, st) && TickOk(c, st.now, t)
  {
    var a := Admit(c, st, t);
    Senders(c, a.sockets, a.dynamic, st.sendTimer, t, |a.sockets|, senders)
  }

  /**
   What an iteration sends: exactly the sockets that are live after the arrival phase,
   not expired and willing, whenever the timer set by the sender before them, or left by
   the iteration before, has run for long enough; in slot order.
   */
  lemma SendsExactly(c: Config, st: State, t: Tick) returns (senders: seq<Handle>)
    requires ValidConfig(c) && Inv(c, st) && TickOk(c, st.now, t)
    ensures IterationSenders(c, st, t, senders)
    ensures StepSends(c, st, t).log == SendTimes(t, senders)
    ensures Step(c, st, t).sendTimer == StepSends(c, st, t).timer == TimerLeft(st.sendTimer, t, senders)
  {
    hide Senders, Scheduler.Admit, Scheduler.SendScan, Scheduler.Expired;
    AdmitReady(c, st, t);
    AdmitTimer(c, st, t);
    var a := Admit(c, st, t);
    senders := ScanSenders(c, a.sockets, a.dynamic, a.sendTimer, t, |a.sockets|);
    StepTimer(c, st, t);
  }

  lemma StepTimer(c: Config, st: State, t: Tick)
    requires ValidConfig(c) && Inv(c, st) && TickOk(c, st.now, t)
    ensures Step(c, st, t).sendTimer == StepSends(c, st, t).timer
  {
    hide Scheduler.Admit, Scheduler.Expired, Scheduler.SendScan;
  }

  /** There is only one such list of senders, so it determines what is sent. */
  lemma {:induction false} SendersUnique(c: Config, sockets: Table, dynamic: map<Handle, Deadline>, timer: Time, t: Tick,
                                         n: nat, s: seq<Handle>, s': seq<Handle>)
    requires Senders(c, sockets, dynamic, timer, t, n, s) && Senders(c, sockets, dynamic, timer, t, n, s')
    ensures s == s'
    decreases n
  {
    hide Willing, Waited;
    if n == 0 {
      NothingIn(s);
      NothingIn(s');
    } else {
      var r, r' := Below(s, n - 1), Below(s', n - 1);
      SendersBelow(c, sockets, dynamic, timer, t, n, s);
      SendersBelow(c, sockets, dynamic, timer, t, n, s');
      SendersUnique(c, sockets, dynamic, timer, t, n - 1, r, r');
      assert n - 1 in s <==> n - 1 in s';
    }
  }

  /** The senders below n. */
  function Below(s: seq<Handle>, n: nat): seq<Handle> {
    if s != [] && s[|s| - 1] >= n then s[..|s| - 1] else s
  }

  lemma NothingIn(s: seq<Handle>)
    requires forall h: Handle :: h !in s
    ensures s == []
  {
    SomethingIn(s);
  }

  lemma SomethingIn(s: seq<Handle>)
    ensures s != [] ==> exists h: Handle :: h in s
  {
    if s != [] {
      assert s[0] in s;
    }
  }

  /** An increasing list below n is what is below n - 1, and perhaps n - 1. */
  lemma BelowParts(s: seq<Handle>, n: nat)
    requires n > 0 && (forall i, j :: 0 <= i < j < |s| ==> s[i] < s[j]) && forall h :: h in s ==> h < n
    ensures var r := Below(s, n - 1);
            && s == (if n - 1 in s then r + [n - 1] else r)
            && (forall i, j :: 0 <= i < j < |r| ==> r[i] < r[j])
            && (forall i :: 0 <= i < |r| ==> r[i] < n - 1)
            && (forall h: Handle :: h in r <==> h in s && h < n - 1)
  {
    assert forall i :: 0 <= i < |s| ==> s[i] in s;
    if n - 1 in s {
      var k :| 0 <= k < |s| && s[k] == n - 1;
      assert k == |s| - 1;
    }
  }

  lemma SendersBelow(c: Config, sockets: Table, dynamic: map<Handle, Deadline>, timer: Time, t: Tick, n: nat,
                     s: seq<Handle>)
    requires n > 0 && Senders(c, sockets, dynamic, timer, t, n, s)
    ensures var r := Below(s, n - 1);
            && Senders(c, sockets, dynamic, timer, t, n - 1, r)
            && s == (if n - 1 in s then r + [n - 1] else r)
            && (n - 1 in s <==> Willing(sockets, dynamic, t, n - 1)
                                && Waited(c, TimerLeft(timer, t, r), t.visits(n - 1).sendAt))
  {
    hide Willing, Waited, Below, TimerLeft;
    BelowParts(s, n);
    var r := Below(s, n - 1);
    TimerAtEnd(timer, t, r, n - 1);
    forall h: Handle | h <= n - 1
      ensures TimerAt(timer, t, s, h) == TimerAt(timer, t, r, h)
    {
      if n - 1 in s {
        TimerAtBefore(timer, t, r, n - 1, h);
      }
    }
  }

  /**
   The law in plain arithmetic, for an iteration that ends within 2^64 milliseconds of
   the timer: a slot sends exactly if it is live after the arrival phase, not expired and
   willing, and a full gap has passed since the last send.
   */
  lemma SendsWhenDue(c: Config, st: State, t: Tick, h: Handle) returns (senders: seq<Handle>)
    requires ValidConfig(c) && Inv(c, st) && TickOk(c, st.now, t)
    requires t.doneAt < st.sendTimer + 0x1_0000_0000_0000_0000 * 1_000_000
    ensures StepSends(c, st, t).log == SendTimes(t, senders)
    ensures forall i, j :: 0 <= i < j < |senders| ==> senders[i] < senders[j]
    ensures var a, v := Admit(c, st, t), t.visits(h);
            h in senders <==>
              && Live(a.sockets, h) && v.maySend
              && (h in a.dynamic ==> v.ageAt < a.dynamic[h].since + (a.dynamic[h].life + 1) * 1_000_000)
              && TimerAt(st.sendTimer, t, senders, h) + (c.sendInterval + 1) * 1_000_000 <= v.sendAt
    ensures Step(c, st, t).sendTimer == TimerLeft(st.sendTimer, t, senders)
  {
    hide Scheduler.Admit, Scheduler.Step, Scheduler.StepSends, Scheduler.Inv, Waited;
    senders := SendsExactly(c, st, t);
    TimerAtRange(c, st, t, senders, h);
    assert SlotOrder(t, h);
    WaitedAGap(c, TimerAt(st.sendTimer, t, senders, h), t.visits(h).sendAt);
  }

  /** The timer never lies behind the reading it is compared with, nor before the iteration's own. */
  lemma {:induction false} TimerAtRange(c: Config, st: State, t: Tick, senders: seq<Handle>, h: Handle)
    requires ValidConfig(c) && Inv(c, st) && TickOk(c, st.now, t)
    ensures st.sendTimer <= TimerAt(st.sendTimer, t, senders, h) <= t.visits(h).ageAt
    decreases |senders|
  {
    assert SlotOrder(t, h);
    if senders != [] {
      var g := senders[|senders| - 1];
      if g < h {
        assert SlotBefore(t, g, h) && SlotOrder(t, g);
      } else {
        TimerAtRange(c, st, t, senders[..|senders| - 1], h);
      }
    }
  }
}
