/** What each step of the daemon does in every reachable state: which events are taken, where
    a wait ends, when entries go stale, and that the daemon stops when it is told to. */
module DaemonSteps {
  import opened Common
  import opened KnockTable
  import opened KnockCourse
  import opened KnockRuns
  import opened Daemon
  import DR = DaemonRuns
  import G = GrantTable
  import R = Ring
  import Q = QueueRuns

  // ---------- what has been decided so far ----------

  /** The steps that stop the processor loop, and those that stop the queue. */
  predicate Halts(st: Step) {
    st.Signal? || (st.CaptureEnds? && st.failed)
  }

  predicate Stops(st: Step) {
    st.CaptureEnds? || st.StopQueue?
  }

  ghost predicate Halted(steps: seq<Step>, k: nat)
    requires k <= |steps|
  {
    exists i :: 0 <= i < k && Halts(steps[i])
  }

  ghost predicate QueueStopped(steps: seq<Step>, k: nat)
    requires k <= |steps|
  {
    exists i :: 0 <= i < k && Stops(steps[i])
  }

  ghost predicate CaptureEnded(steps: seq<Step>, k: nat)
    requires k <= |steps|
  {
    exists i :: 0 <= i < k && steps[i].CaptureEnds?
  }

  lemma DecidedNext(steps: seq<Step>, k: nat)
    requires k < |steps|
    ensures Halted(steps, k + 1) <==> Halted(steps, k) || Halts(steps[k])
    ensures QueueStopped(steps, k + 1) <==> QueueStopped(steps, k) || Stops(steps[k])
    ensures CaptureEnded(steps, k + 1) <==> CaptureEnded(steps, k) || steps[k].CaptureEnds?
  {
    if Halted(steps, k) {
      var i :| 0 <= i < k && Halts(steps[i]);
      assert 0 <= i < k + 1 && Halts(steps[i]);
    }
    if QueueStopped(steps, k) {
      var i :| 0 <= i < k && Stops(steps[i]);
      assert 0 <= i < k + 1 && Stops(steps[i]);
    }
    if CaptureEnded(steps, k) {
      var i :| 0 <= i < k && steps[i].CaptureEnds?;
      assert 0 <= i < k + 1 && steps[i].CaptureEnds?;
    }
  }

  /** The loop runs until a signal or a failed capture and no longer; capture runs until it
      ends; the queue stops when capture does or the main thread says so. */
  ghost predicate StatusInv(steps: seq<Step>, k: nat, s: State)
    requires k <= |steps|
  {
    && (s.running <==> !Halted(steps, k))
    && (s.capturing <==> !CaptureEnded(steps, k))
    && (s.sync.q.shuttingDown <==> QueueStopped(steps, k))
    && (s.pc in {Stopped, Joining, Down} ==> !s.running)
  }

  lemma {:induction false} StatusExactly(cfg: Settings, states: seq<State>, steps: seq<Step>, k: nat)
    requires IsRun(cfg, states, steps) && k <= |steps|
    ensures StatusInv(steps, k, states[k])
  {
    hide Enabled, Next, Halted, CaptureEnded, QueueStopped, StatusInv, Halts, Stops;
    if k == 0 {
      StatusStarts(cfg, states[0], steps);
    } else {
      assert Goes(cfg, states, steps, k - 1);
      StatusExactly(cfg, states, steps, k - 1);
      DecidedNext(steps, k - 1);
      StatusStep(cfg, states[k - 1], steps[k - 1]);
      StatusNext(steps, k - 1, states[k - 1], states[k]);
    }
  }

  lemma StatusStarts(cfg: Settings, s: State, steps: seq<Step>)
    requires Starts(cfg, s)
    ensures StatusInv(steps, 0, s)
  {
  }

  /** What a step does to the three flags. */
  ghost predicate FlagsMove(s: State, st: Step, t: State) {
    && (t.running <==> s.running && !Halts(st) && !st.StopQueue?)
    && (t.capturing <==> s.capturing && !st.CaptureEnds?)
    && (t.sync.q.shuttingDown <==> s.sync.q.shuttingDown || Stops(st))
    && (st.StopQueue? ==> s.pc == Stopped)
    && (t.pc in {Stopped, Joining, Down} ==> s.pc in {Stopped, Joining, Down} || !s.running)
  }

  lemma StatusStep(cfg: Settings, s: State, st: Step)
    requires Enabled(cfg, s, st)
    ensures FlagsMove(s, st, Next(cfg, s, st))
  {
    hide TableInv, Process, Sweep, G.Open, G.Tick, G.Shutdown, R.IsPow2, R.Wrap, R.Contents;
  }

  lemma StatusNext(steps: seq<Step>, k: nat, s: State, t: State)
    requires k < |steps| && StatusInv(steps, k, s) && FlagsMove(s, steps[k], t)
    requires Halted(steps, k + 1) <==> Halted(steps, k) || Halts(steps[k])
    requires QueueStopped(steps, k + 1) <==> QueueStopped(steps, k) || Stops(steps[k])
    requires CaptureEnded(steps, k + 1) <==> CaptureEnded(steps, k) || steps[k].CaptureEnds?
    ensures StatusInv(steps, k + 1, t)
  {
    hide Halted, CaptureEnded, QueueStopped;
  }

  // ---------- the queue's ends ----------

  /** A captured event is taken if and only if there is room for it, and no other step takes
      one. The room never changes. */
  lemma CaptureTakes(cfg: Settings, states: seq<State>, steps: seq<Step>, k: nat)
    requires IsRun(cfg, states, steps) && k < |steps|
    ensures R.QInv(states[k].sync.q) && |states[k + 1].sync.q.ring| == |states[k].sync.q.ring|
    ensures var s, st := states[k], steps[k];
            states[k + 1].accepted
            == if st.Capture? && |R.Contents(s.sync.q)| < |s.sync.q.ring| then s.accepted + [st.e] else s.accepted
  {
    hide Q.Next, Q.Enabled, R.IsPow2, R.Wrap, Queued, Enabled, Next, DR.QOp;
    assert Goes(cfg, states, steps, k);
    RunInv(cfg, states, steps, k);
    DR.QStep(cfg, states[k], steps[k]);
    DR.PushIsCapture(states[k], steps[k]);
    DR.HeadInRange(states[k].sync);
    assert |R.Contents(states[k].sync.q)| == states[k].sync.q.count;
    if DR.QOp(states[k], steps[k]).Some? {
      Q.StepSync(states[k].sync, DR.QOp(states[k], steps[k]).value);
    }
  }

  /** Where the processor is when it has asked the queue for an event: at the top of its loop
      it stops if it was told to; else it has the oldest event if there is one; and with none
      it waits on only if the queue has not stopped and its deadline has not passed. */
  lemma WaitOutcome(cfg: Settings, states: seq<State>, steps: seq<Step>, k: nat)
    requires IsRun(cfg, states, steps) && k < |steps|
    requires steps[k].BeginWait? || steps[k].Resume? || steps[k].Drain?
    ensures R.QInv(states[k].sync.q)
    ensures var c, st := R.Contents(states[k].sync.q), steps[k];
            states[k + 1].pc
            == if st.BeginWait? && Halted(steps, k) then Stopped
               else if c != [] then Handling(c[0])
               else if st.Drain? || (st.Resume? && st.timedOut) || QueueStopped(steps, k) then Ticking
               else Waiting
  {
    hide Halted, QueueStopped, CaptureEnded;
    assert Goes(cfg, states, steps, k);
    StatusExactly(cfg, states, steps, k);
    RunInv(cfg, states, steps, k);
    AskStep(cfg, states[k], steps[k]);
  }

  lemma AskStep(cfg: Settings, s: State, st: Step)
    requires Enabled(cfg, s, st) && (st.BeginWait? || st.Resume? || st.Drain?)
    ensures R.QInv(s.sync.q)
    ensures var c := R.Contents(s.sync.q);
            Next(cfg, s, st).pc
            == if st.BeginWait? && !s.running then Stopped
               else if c != [] then Handling(c[0])
               else if st.Drain? || (st.Resume? && st.timedOut) || s.sync.q.shuttingDown then Ticking
               else Waiting
  {
    hide TableInv, R.IsPow2;
    R.TakeRemoves(s.sync.q);
  }

  // ---------- the other steps ----------

  /** A knock is handled with its own address, port and times, and the firewall is opened next
      if and only if it completed the sequence; a sweep is made if and only if it is due. */
  lemma CallsMade(cfg: Settings, states: seq<State>, steps: seq<Step>, k: nat)
    requires IsRun(cfg, states, steps) && k < |steps|
    ensures KnockInv(cfg, states[k]) && KnockInv(cfg, states[k + 1])
    ensures var s, t := states[k], states[k + 1];
            match steps[k]
            case Handle(now, nowAlloc) =>
              && s.pc.Handling?
              && t.calls == s.calls + [Knock(s.pc.e.srcIp, s.pc.e.dstPort, now, nowAlloc)]
              && t.pc == (if ResultAt(cfg, t.calls, |s.calls|) == Some(Complete)
                          then Opening(s.pc.e.srcIp, |s.calls|) else Draining)
            case SweepCheck(now, sweepNow) =>
              && t.pc == LoopTop
              && if now - s.lastCleanup >= STALE_SCAN_INTERVAL
                 then t.calls == s.calls + [Cleanup(sweepNow)] && t.lastCleanup == now
                 else t.calls == s.calls && t.lastCleanup == s.lastCleanup
            case _ => t.calls == s.calls && t.lastCleanup == s.lastCleanup
  {
    hide After, Exec, Enabled, Next, QueueInv, OpenInv, GrantInv, KnockInv;
    assert Goes(cfg, states, steps, k);
    RunInv(cfg, states, steps, k);
    RunInv(cfg, states, steps, k + 1);
    CallStep(cfg, states[k], steps[k]);
  }

  lemma CallStep(cfg: Settings, s: State, st: Step)
    requires KnockInv(cfg, s) && Enabled(cfg, s, st)
    ensures var t := Next(cfg, s, st);
            match st
            case Handle(now, nowAlloc) =>
              && s.pc.Handling?
              && t.calls == s.calls + [Knock(s.pc.e.srcIp, s.pc.e.dstPort, now, nowAlloc)]
              && t.pc == (if ResultAt(cfg, t.calls, |s.calls|) == Some(Complete)
                          then Opening(s.pc.e.srcIp, |s.calls|) else Draining)
            case SweepCheck(now, sweepNow) =>
              && t.pc == LoopTop
              && if now - s.lastCleanup >= STALE_SCAN_INTERVAL
                 then t.calls == s.calls + [Cleanup(sweepNow)] && t.lastCleanup == now
                 else t.calls == s.calls && t.lastCleanup == s.lastCleanup
            case _ => t.calls == s.calls && t.lastCleanup == s.lastCleanup
  {
    hide After, EventsOf, Process, Sweep, G.Open, G.Tick, G.Shutdown, R.Push, R.Take, Q.SyncInv, ClockMonotone, TableInv;
    if st.Handle? {
      CallAppended(cfg, s.calls, Knock(s.pc.e.srcIp, s.pc.e.dstPort, st.now, st.nowAlloc), 0);
    }
  }

  /** The sweep is due at this check. */
  predicate Sweeps(s: State, st: Step) {
    st.SweepCheck? && st.now - s.lastCleanup >= STALE_SCAN_INTERVAL
  }

  /** What became of an entry that was stale at some time: still there, or not. */
  predicate Refreshed(t: seq<Client>, a: Address, since: int) {
    Lookup(t, a).Some? ==> Lookup(t, a).value.lastKnock >= since
  }

  /** One step and a stale entry: it stays as it is, or it goes or starts afresh, and a due
      sweep does not leave it. */
  lemma StaleStep(cfg: Settings, s: State, st: Step, a: Address, since: int)
    requires Enabled(cfg, s, st) && since <= s.clock
    requires Lookup(s.table, a).Some? && Stale(cfg, Lookup(s.table, a).value, since)
    ensures var t := Next(cfg, s, st);
            || Refreshed(t.table, a, since)
            || (Lookup(t.table, a) == Lookup(s.table, a) && !Sweeps(s, st))
  {
    hide Process, Sweep, Lookup, G.Open, G.Tick, G.Shutdown, R.Push, R.Take, Q.SyncInv, Q.Next, Q.Delivers, TableInv;
    match st
    case Handle(now, nowAlloc) =>
      if s.pc.e.srcIp == a {
        OwnKnock(cfg, s.table, a, s.pc.e.dstPort, now, nowAlloc);
      } else {
        OtherKnock(cfg, s.table, a, s.pc.e.srcIp, s.pc.e.dstPort, now, nowAlloc);
      }
    case SweepCheck(now, sweepNow) => SweepEffect(cfg, s.table, a, sweepNow);
    case _ =>
  }

  /** Where the sweep's timer stands. */
  lemma {:induction false} LastCleanup(cfg: Settings, states: seq<State>, steps: seq<Step>, j: nat, k: nat)
    requires IsRun(cfg, states, steps) && j <= k <= |steps|
    ensures states[k].lastCleanup <= states[k].clock
    ensures states[j].lastCleanup <= states[k].lastCleanup
    ensures states[k].lastCleanup != states[j].lastCleanup ==>
              exists p :: j <= p < k && Sweeps(states[p], steps[p]) && steps[p].now == states[k].lastCleanup
    decreases k
  {
    hide Enabled, Next;
    if k > 0 {
      assert Goes(cfg, states, steps, k - 1);
      LastCleanup(cfg, states, steps, if j < k then j else k - 1, k - 1);
      CleanupStep(cfg, states[k - 1], steps[k - 1]);
    }
  }

  lemma CleanupStep(cfg: Settings, s: State, st: Step)
    requires Enabled(cfg, s, st) && s.lastCleanup <= s.clock
    ensures var t := Next(cfg, s, st);
            && s.clock <= t.clock && t.lastCleanup <= t.clock && s.lastCleanup <= t.lastCleanup
            && t.lastCleanup == if Sweeps(s, st) then st.now else s.lastCleanup
  {
    hide TableInv, Q.SyncInv, Process, Sweep, G.Open, G.Tick, G.Shutdown, Q.Next, Q.Delivers;
  }

  lemma {:induction false} StaleStays(cfg: Settings, states: seq<State>, steps: seq<Step>, j: nat, m: nat, a: Address)
    requires IsRun(cfg, states, steps) && j <= m <= |steps|
    requires Lookup(states[j].table, a).Some? && Stale(cfg, Lookup(states[j].table, a).value, states[j].clock)
    ensures || (exists p :: j <= p <= m && Refreshed(states[p].table, a, states[j].clock))
            || (Lookup(states[m].table, a) == Lookup(states[j].table, a)
                && forall p :: j <= p < m ==> !Sweeps(states[p], steps[p]))
    decreases m
  {
    hide Enabled, Next, Lookup, Refreshed, Sweeps;
    if j < m {
      StaleStays(cfg, states, steps, j, m - 1, a);
      assert Goes(cfg, states, steps, m - 1);
      if p :| j <= p <= m - 1 && Refreshed(states[p].table, a, states[j].clock) {
        assert j <= p <= m && Refreshed(states[p].table, a, states[j].clock);
      } else {
        DR.ClockForward(cfg, states, steps, j, m - 1);
        StaleStep(cfg, states[m - 1], steps[m - 1], a, states[j].clock);
        assert j <= m <= m;
      }
    }
  }

  /** Stale entries go: the first sweep check at least 5 seconds after an entry was stale finds
      it dropped or started afresh, at that check or before it. */
  lemma StaleSwept(cfg: Settings, states: seq<State>, steps: seq<Step>, j: nat, k: nat, a: Address)
    requires IsRun(cfg, states, steps) && j <= k < |steps| && steps[k].SweepCheck?
    requires steps[k].now >= states[j].clock + STALE_SCAN_INTERVAL
    requires Lookup(states[j].table, a).Some? && Stale(cfg, Lookup(states[j].table, a).value, states[j].clock)
    ensures exists p :: j <= p <= k + 1 && Refreshed(states[p].table, a, states[j].clock)
  {
    hide Goes, Lookup, Refreshed;
    StaleStays(cfg, states, steps, j, k + 1, a);
    LastCleanup(cfg, states, steps, j, k);
    LastCleanup(cfg, states, steps, j, j);
    assert steps[k].now - states[k].lastCleanup >= STALE_SCAN_INTERVAL ==> Sweeps(states[k], steps[k]);
  }

  // ---------- stopping ----------

  /** A step of the main thread. */
  predicate MainStep(st: Step) {
    !st.Capture? && !st.CaptureEnds? && !st.Signal? && !st.Stir?
  }

  /** How many of the steps from j up to k are the main thread's. */
  function MainSteps(steps: seq<Step>, j: nat, k: nat): nat
    requires j <= k <= |steps|
  {
    if k == j then 0 else MainSteps(steps, j, k - 1) + if MainStep(steps[k - 1]) then 1 else 0
  }

  /** How far at most the main thread is from the end once both loops have been told to stop. */
  function Left(s: State): nat {
    var events := 3 * s.sync.q.count;
    match s.pc
    case Down => 0
    case Joining => 1
    case Stopped => 2
    case LoopTop => 3
    case Sweeping => 4
    case Ticking => 5
    case Draining => 6 + events
    case Waiting => 6 + events
    case Opening(_, _) => 7 + events
    case Handling(_) => 8 + events
  }

  predicate ToldToStop(s: State) {
    !s.running && !s.capturing && s.sync.q.shuttingDown
  }

  lemma LeftStep(cfg: Settings, s: State, st: Step)
    requires Enabled(cfg, s, st) && ToldToStop(s)
    ensures ToldToStop(Next(cfg, s, st))
    ensures Left(Next(cfg, s, st)) + (if MainStep(st) then 1 else 0) <= Left(s)
  {
    hide TableInv, Process, Sweep, G.Open, G.Tick, G.Shutdown, R.IsPow2, R.Wrap, R.Contents;
  }

  lemma {:induction false} LeftShrinks(cfg: Settings, states: seq<State>, steps: seq<Step>, j: nat, k: nat)
    requires IsRun(cfg, states, steps) && j <= k <= |steps| && ToldToStop(states[j])
    ensures ToldToStop(states[k]) && Left(states[k]) + MainSteps(steps, j, k) <= Left(states[j])
    decreases k
  {
    hide Enabled, Next, Left, ToldToStop, MainStep;
    if j < k {
      LeftShrinks(cfg, states, steps, j, k - 1);
      assert Goes(cfg, states, steps, k - 1);
      LeftStep(cfg, states[k - 1], steps[k - 1]);
    }
  }

  /** The daemon stops: once the loop has been told to stop and the capture thread has ended,
      the main thread takes at most 8 steps more and 3 for each event the queue can hold,
      whatever is in the queue. */
  lemma StopsInTime(cfg: Settings, states: seq<State>, steps: seq<Step>, j: nat, k: nat)
    requires IsRun(cfg, states, steps) && j <= k <= |steps|
    requires Halted(steps, j) && CaptureEnded(steps, j)
    ensures MainSteps(steps, j, k) <= 8 + 3 * |states[j].sync.q.ring|
  {
    hide Halted, CaptureEnded, Halts, Goes;
    StatusExactly(cfg, states, steps, j);
    EndedStops(steps, j);
    RunInv(cfg, states, steps, j);
    LeftShrinks(cfg, states, steps, j, k);
  }

  lemma EndedStops(steps: seq<Step>, k: nat)
    requires k <= |steps| && CaptureEnded(steps, k)
    ensures QueueStopped(steps, k)
  {
    var i :| 0 <= i < k && steps[i].CaptureEnds?;
    assert Stops(steps[i]);
  }

  /** And it is never stuck on the way: until the teardown is done the main thread has a step
      to take, at whatever time it reads. */
  lemma NeverStuck(cfg: Settings, states: seq<State>, steps: seq<Step>, k: nat, now: int) returns (st: Step)
    requires IsRun(cfg, states, steps) && k <= |steps| && states[k].clock <= now
    requires CaptureEnded(steps, k) && states[k].pc != Down
    ensures MainStep(st) && Enabled(cfg, states[k], st)
  {
    hide CaptureEnded, Halted, After, EventsOf, Latest, ClockMonotone, R.Contents, OpenInv, GrantInv;
    StatusExactly(cfg, states, steps, k);
    EndedStops(steps, k);
    RunInv(cfg, states, steps, k);
    match states[k].pc
    case LoopTop => st := BeginWait;
    case Waiting => st := Resume(false);
    case Handling(_) => st := Handle(now, now);
    case Opening(_, _) => st := OpenGrant(now, true);
    case Draining => st := Drain;
    case Ticking => st := Tick(now, seq(G.MAX_EXPIRY_PER_TICK, _ => true));
    case Sweeping => st := SweepCheck(now, now);
    case Stopped => st := StopQueue;
    case Joining => st := Teardown(true, true, true);
  }
}
