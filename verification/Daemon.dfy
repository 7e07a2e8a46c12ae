/** The two threads together (src/main.c): every interleaving of the capture thread's pushes
    with the processor's waits, knocks, grants, ticks and sweeps, one locked region or one
    uninterrupted call at a time. */
module Daemon {
  import opened Common
  import opened KnockTable
  import opened KnockCourse
  import opened KnockRuns
  import opened Netfilter
  import G = GrantTable
  import F = FirewallRuns
  import R = Ring
  import Q = QueueRuns

  const STALE_SCAN_INTERVAL := 5
  const PROCESSOR: Q.Thread := 0

  /** Where the main thread is in run_processor, and in main after it. */
  datatype Pc =
    | LoopTop
    | Waiting
    | Handling(e: KnockEvent)
    | Opening(ip: Address, at: nat)
    | Draining
    | Ticking
    | Sweeping
    | Stopped
    | Joining
    | Down

  /** The latest firewall_open for an address: for which completing call, and when. */
  datatype OpenCall = OpenCall(at: nat, now: int)

  /** The first line is the daemon's state; the second is history kept for the proofs. */
  datatype State = State(
    sync: Q.Sync, table: seq<Client>, fw: G.Fw, pc: Pc, running: bool, capturing: bool, lastCleanup: int,
    clock: int, calls: seq<Call>, accepted: seq<KnockEvent>, delivered: seq<KnockEvent>, lastOpen: map<Address, OpenCall>)

  datatype Step =
    | Capture(e: KnockEvent, now: int, wake: set<Q.Thread>)
    | CaptureEnds(failed: bool)
    | Signal
    | BeginWait
    | Stir
    | Resume(timedOut: bool)
    | Handle(now: int, nowAlloc: int)
    | OpenGrant(now: int, ok: bool)
    | Drain
    | Tick(now: int, oks: seq<bool>)
    | SweepCheck(now: int, sweepNow: int)
    | StopQueue
    | Teardown(flushOk: bool, unhookOk: bool, delOk: bool)

  /** The queue's own step inside a daemon step. */
  function QueueStep(st: Step): Option<Q.Step> {
    match st
    case Capture(e, now, wake) => Some(Q.PushStep(e, now, wake))
    case CaptureEnds(_) => Some(Q.ShutdownStep)
    case BeginWait => Some(Q.WaitStep(PROCESSOR))
    case Stir => Some(Q.StirStep(PROCESSOR))
    case Resume(timedOut) => Some(Q.ResumeStep(PROCESSOR, timedOut))
    case Drain => Some(Q.PopStep)
    case StopQueue => Some(Q.ShutdownStep)
    case _ => None
  }

  /** The clock readings of a step, first and last. */
  function Readings(st: Step): Option<(int, int)> {
    match st
    case Capture(_, now, _) => Some((now, now))
    case Handle(now, nowAlloc) => Some((now, nowAlloc))
    case OpenGrant(now, _) => Some((now, now))
    case Tick(now, _) => Some((now, now))
    case SweepCheck(now, sweepNow) => Some((now, sweepNow))
    case _ => None
  }

  /** Whether a step can be taken, at times no earlier than any before it. */
  ghost predicate Enabled(cfg: Settings, s: State, st: Step) {
    && TableInv(cfg, s.table)
    && Q.SyncInv(s.sync) && s.sync.q.head < |s.sync.q.ring|
    && (QueueStep(st).Some? && (st.BeginWait? ==> s.running) ==> Q.Enabled(s.sync, QueueStep(st).value))
    && (match Readings(st) case Some((first, last)) => s.clock <= first <= last case None => true)
    && match st
       case Capture(_, _, _) => s.capturing
       case CaptureEnds(failed) => s.capturing && (failed || !s.running)
       case Signal => true
       case BeginWait => s.pc == LoopTop
       case Stir => true
       case Resume(_) => s.pc == Waiting
       case Handle(_, _) => s.pc.Handling?
       case OpenGrant(_, _) => s.pc.Opening?
       case Drain => s.pc == Draining
       case Tick(_, oks) => s.pc == Ticking && |oks| == G.MAX_EXPIRY_PER_TICK
       case SweepCheck(_, _) => s.pc == Sweeping
       case StopQueue => s.pc == Stopped
       case Teardown(_, _, _) => s.pc == Joining && !s.capturing
  }

  /** The state with the queue moved on, and what it handed over on record. */
  function Queued(s: State, qs: Q.Step): State
    requires s.sync.q.tail < |s.sync.q.ring| && s.sync.q.head < |s.sync.q.ring|
  {
    var pushed := qs.PushStep? && s.sync.q.count < |s.sync.q.ring|;
    s.(sync := Q.Next(s.sync, qs),
       accepted := if pushed then s.accepted + [qs.e] else s.accepted,
       delivered := match Q.Delivers(s.sync, qs) case Some(e) => s.delivered + [e] case None => s.delivered)
  }

  /** Where the processor goes once the queue has answered: to the event, or to other. */
  function Answered(s: State, qs: Q.Step, other: Pc): Pc
    requires s.sync.q.tail < |s.sync.q.ring|
  {
    match Q.Delivers(s.sync, qs)
    case Some(e) => Handling(e)
    case None => other
  }

  function AfterWait(s: State, qs: Q.Step): State
    requires s.sync.q.tail < |s.sync.q.ring| && s.sync.q.head < |s.sync.q.ring|
  {
    var t := Queued(s, qs);
    t.(pc := Answered(s, qs, if PROCESSOR in t.sync.asleep then Waiting else Ticking))
  }

  ghost function Next(cfg: Settings, s: State, st: Step): State
    requires Enabled(cfg, s, st)
  {
    match st
    case Capture(e, now, wake) => Queued(s, Q.PushStep(e, now, wake)).(clock := now)
    case CaptureEnds(failed) => Queued(s, Q.ShutdownStep).(capturing := false, running := s.running && !failed)
    case Signal => s.(running := false)
    case BeginWait => if s.running then AfterWait(s, Q.WaitStep(PROCESSOR)) else s.(pc := Stopped)
    case Stir => Queued(s, Q.StirStep(PROCESSOR))
    case Resume(timedOut) => AfterWait(s, Q.ResumeStep(PROCESSOR, timedOut))
    case Handle(now, nowAlloc) =>
      var (t, r) := Process(cfg, s.table, s.pc.e.srcIp, s.pc.e.dstPort, now, nowAlloc);
      s.(table := t, calls := s.calls + [Knock(s.pc.e.srcIp, s.pc.e.dstPort, now, nowAlloc)], clock := nowAlloc,
         pc := if r == Complete then Opening(s.pc.e.srcIp, |s.calls|) else Draining)
    case OpenGrant(now, ok) =>
      s.(fw := G.Open(cfg, s.fw, s.pc.ip, now, ok).0, lastOpen := s.lastOpen[s.pc.ip := OpenCall(s.pc.at, now)],
         clock := now, pc := Draining)
    case Drain => Queued(s, Q.PopStep).(pc := Answered(s, Q.PopStep, Ticking))
    case Tick(now, oks) => s.(fw := G.Tick(cfg, s.fw, now, oks), clock := now, pc := Sweeping)
    case SweepCheck(now, sweepNow) =>
      if now - s.lastCleanup >= STALE_SCAN_INTERVAL then
        s.(table := Sweep(cfg, s.table, sweepNow), calls := s.calls + [Cleanup(sweepNow)],
           lastCleanup := now, clock := sweepNow, pc := LoopTop)
      else s.(clock := sweepNow, pc := LoopTop)
    case StopQueue => Queued(s, Q.ShutdownStep).(running := false, pc := Joining)
    case Teardown(flushOk, unhookOk, delOk) => s.(fw := G.Shutdown(s.fw, flushOk, unhookOk, delOk), pc := Down)
  }

  /** Everything initialised at time now, the capture thread started. */
  ghost predicate Starts(cfg: Settings, s: State) {
    && cfg.Valid()
    && R.IsPow2(|s.sync.q.ring|)
    && s.sync == Q.Sync(Q.StartQueue(s.sync.q.ring), {}, {})
    && s.table == EmptyTable(cfg)
    && (exists fw, o :: G.Init(cfg, fw, o) == (s.fw, true))
    && s.pc == LoopTop && s.running && s.capturing && s.lastCleanup == s.clock
    && s.calls == [] && s.accepted == [] && s.delivered == [] && s.lastOpen == map[]
  }

  ghost predicate Goes(cfg: Settings, states: seq<State>, steps: seq<Step>, k: nat)
    requires k < |steps| && |states| == |steps| + 1
  {
    Enabled(cfg, states[k], steps[k]) && states[k + 1] == Next(cfg, states[k], steps[k])
  }

  ghost predicate IsRun(cfg: Settings, states: seq<State>, steps: seq<Step>) {
    && |states| == |steps| + 1
    && Starts(cfg, states[0])
    && forall k :: 0 <= k < |steps| ==> Goes(cfg, states, steps, k)
  }

  // ---------- invariants, part by part ----------

  /** The queue: only the processor waits, and it waits nowhere else; nothing is lost,
      duplicated or reordered between capture and processor. */
  ghost predicate QueueInv(s: State) {
    && Q.SyncInv(s.sync)
    && s.sync.asleep + s.sync.woken == (if s.pc == Waiting then {PROCESSOR} else {})
    && s.delivered + R.Contents(s.sync.q) == s.accepted
  }

  /** The events the state machine has been given, in order. */
  function EventsOf(calls: seq<Call>, k: nat): seq<KnockEvent>
    requires k <= |calls|
  {
    if k == 0 then []
    else if calls[k - 1].Knock? then EventsOf(calls, k - 1) + [KnockEvent(calls[k - 1].ip, calls[k - 1].port)]
    else EventsOf(calls, k - 1)
  }

  /** The state machine has handled what was delivered, on a clock that never went back. */
  ghost predicate KnockInv(cfg: Settings, s: State) {
    && cfg.Valid()
    && s.table == After(cfg, s.calls, |s.calls|)
    && ClockMonotone(s.calls)
    && (s.calls != [] ==> End(s.calls[|s.calls| - 1]) <= s.clock)
    && s.delivered == EventsOf(s.calls, |s.calls|) + (if s.pc.Handling? then [s.pc.e] else [])
  }

  /** The last call among the first k that completed the sequence for a. */
  function Latest(cfg: Settings, calls: seq<Call>, a: Address, k: nat): (r: Option<nat>)
    requires cfg.Valid() && k <= |calls|
    ensures r.Some? ==> r.value < k && Own(calls, a, r.value) && ResultAt(cfg, calls, r.value) == Some(Complete)
  {
    if k == 0 then None
    else if Own(calls, a, k - 1) && ResultAt(cfg, calls, k - 1) == Some(Complete) then Some(k - 1)
    else Latest(cfg, calls, a, k - 1)
  }

  /** The firewall was last opened for an address for its latest completion, not before it,
      unless that completion is the one about to be acted on. */
  ghost predicate OpenInv(cfg: Settings, s: State)
    requires cfg.Valid()
  {
    && (forall a :: a in s.lastOpen ==>
          s.lastOpen[a].at < |s.calls| && Own(s.calls, a, s.lastOpen[a].at)
          && ResultAt(cfg, s.calls, s.lastOpen[a].at) == Some(Complete)
          && End(s.calls[s.lastOpen[a].at]) <= s.lastOpen[a].now <= s.clock)
    && (forall a :: Latest(cfg, s.calls, a, |s.calls|)
          == if s.pc.Opening? && s.pc.ip == a then Some(s.pc.at)
             else if a in s.lastOpen then Some(s.lastOpen[a].at) else None)
  }

  /** Every grant runs accessTimeout from the latest open of its address, and every rule in
      the chain is for an address that was opened. */
  ghost predicate GrantInv(cfg: Settings, s: State) {
    s.pc != Down ==>
      && G.Inv(cfg, s.fw)
      && (forall i :: 0 <= i < |s.fw.grants.value| && s.fw.grants.value[i].active ==>
            && s.fw.grants.value[i].ip in s.lastOpen
            && s.fw.grants.value[i].expiresAt == s.lastOpen[s.fw.grants.value[i].ip].now + cfg.accessTimeout)
      && (forall a :: G.RuleFor(cfg, a) in s.fw.rules.chain.value ==> a in s.lastOpen)
  }

  lemma StartInv(cfg: Settings, s: State)
    requires Starts(cfg, s)
    ensures QueueInv(s) && KnockInv(cfg, s) && OpenInv(cfg, s) && GrantInv(cfg, s)
  {
    var fw, o :| G.Init(cfg, fw, o) == (s.fw, true);
    G.InitInv(cfg, fw, o);
    assert R.Contents(s.sync.q) == [];
  }

  /** The queue's part of any step keeps its books. */
  lemma QueuedKept(s: State, qs: Q.Step)
    requires Q.SyncInv(s.sync) && Q.Enabled(s.sync, qs) && s.sync.q.head < |s.sync.q.ring|
    requires s.delivered + R.Contents(s.sync.q) == s.accepted
    ensures var t := Queued(s, qs);
            Q.SyncInv(t.sync) && t.delivered + R.Contents(t.sync.q) == t.accepted
  {
    hide R.Contents, Q.Next, Q.Delivers;
    Q.StepSync(s.sync, qs);
    Q.StepFifo(s.sync, qs);
  }

  /** A wait, or its continuation, ends asleep or with the processor out of the queue. */
  lemma AfterWaitKept(s: State, qs: Q.Step)
    requires QueueInv(s) && Q.Enabled(s.sync, qs) && s.sync.q.head < |s.sync.q.ring|
    requires (qs == Q.WaitStep(PROCESSOR) && s.pc == LoopTop) || (qs.ResumeStep? && qs.t == PROCESSOR && s.pc == Waiting)
    ensures QueueInv(AfterWait(s, qs))
  {
    hide R.Contents, R.Take, R.QInv;
    QueuedKept(s, qs);
  }

  lemma CaptureKept(s: State, e: KnockEvent, now: int, wake: set<Q.Thread>)
    requires QueueInv(s) && Q.Enabled(s.sync, Q.PushStep(e, now, wake)) && s.sync.q.head < |s.sync.q.ring|
    ensures QueueInv(Queued(s, Q.PushStep(e, now, wake)))
  {
    hide R.Contents, R.Push, R.QInv;
    QueuedKept(s, Q.PushStep(e, now, wake));
    assert s.sync.asleep - wake + (s.sync.woken + wake) == s.sync.asleep + s.sync.woken;
  }

  /** A step of the queue that hands over nothing moves the processor between asleep and
      woken at most. */
  lemma QuietKept(s: State, qs: Q.Step)
    requires QueueInv(s) && Q.Enabled(s.sync, qs) && s.sync.q.head < |s.sync.q.ring|
    requires qs == Q.ShutdownStep || qs == Q.StirStep(PROCESSOR)
    ensures QueueInv(Queued(s, qs)) && Queued(s, qs).pc == s.pc
  {
    hide R.Contents, R.QInv;
    QueuedKept(s, qs);
  }

  lemma DrainKept(s: State)
    requires QueueInv(s) && s.pc == Draining && s.sync.q.head < |s.sync.q.ring|
    ensures QueueInv(Queued(s, Q.PopStep).(pc := Answered(s, Q.PopStep, Ticking)))
  {
    hide R.Contents, R.Take, R.QInv;
    QueuedKept(s, Q.PopStep);
  }

  lemma QueueKept(cfg: Settings, s: State, st: Step)
    requires QueueInv(s) && Enabled(cfg, s, st)
    ensures QueueInv(Next(cfg, s, st))
  {
    hide Queued, AfterWait, Answered, R.Contents, Q.SyncInv, Q.Enabled, Process, G.Open, G.Tick, G.Shutdown, Sweep, TableInv;
    match st
    case Capture(e, now, wake) => CaptureKept(s, e, now, wake);
    case CaptureEnds(_) => QuietKept(s, Q.ShutdownStep);
    case BeginWait => if s.running { AfterWaitKept(s, Q.WaitStep(PROCESSOR)); }
    case Stir => QuietKept(s, Q.StirStep(PROCESSOR));
    case Resume(timedOut) => AfterWaitKept(s, Q.ResumeStep(PROCESSOR, timedOut));
    case Drain => DrainKept(s);
    case StopQueue => QuietKept(s, Q.ShutdownStep);
    case _ =>
  }

  // ---------- the knocks ----------

  lemma {:induction false} EventsPrefix(calls: seq<Call>, more: seq<Call>, k: nat)
    requires k <= |calls| && k <= |more| && forall i :: 0 <= i < k ==> calls[i] == more[i]
    ensures EventsOf(calls, k) == EventsOf(more, k)
  {
    if k > 0 {
      EventsPrefix(calls, more, k - 1);
    }
  }

  lemma {:induction false} LatestPrefix(cfg: Settings, calls: seq<Call>, more: seq<Call>, a: Address, k: nat)
    requires cfg.Valid() && k <= |calls| && k <= |more| && forall i :: 0 <= i < k ==> calls[i] == more[i]
    ensures Latest(cfg, calls, a, k) == Latest(cfg, more, a, k)
  {
    hide After, Exec;
    if k > 0 {
      LatestPrefix(cfg, calls, more, a, k - 1);
      AfterPrefix(cfg, calls, more, k - 1);
    }
  }

  /** One more call on the record: what it does to the table, the events, the results so far
      and each address's latest completion. */
  lemma CallAppended(cfg: Settings, calls: seq<Call>, c: Call, a: Address)
    requires cfg.Valid()
    ensures var n, more := |calls|, calls + [c];
            && After(cfg, more, n) == After(cfg, calls, n)
            && After(cfg, more, n + 1) == Exec(cfg, After(cfg, calls, n), c).0
            && ResultAt(cfg, more, n) == Exec(cfg, After(cfg, calls, n), c).1
            && EventsOf(more, n + 1)
               == (if c.Knock? then EventsOf(calls, n) + [KnockEvent(c.ip, c.port)] else EventsOf(calls, n))
            && Latest(cfg, more, a, n + 1)
               == (if c.Knock? && c.ip == a && Exec(cfg, After(cfg, calls, n), c).1 == Some(Complete) then Some(n)
                   else Latest(cfg, calls, a, n))
  {
    hide Exec;
    AfterPrefix(cfg, calls, calls + [c], |calls|);
    EventsPrefix(calls, calls + [c], |calls|);
    LatestPrefix(cfg, calls, calls + [c], a, |calls|);
  }

  /** The state machine's books through a knock handled or a sweep. */
  lemma CallKept(cfg: Settings, s: State, c: Call, t: State)
    requires KnockInv(cfg, s) && s.clock <= c.now <= End(c)
    requires c.Knock? <==> s.pc.Handling?
    requires c.Knock? ==> c.ip == s.pc.e.srcIp && c.port == s.pc.e.dstPort
    requires t.table == Exec(cfg, s.table, c).0 && t.calls == s.calls + [c] && t.clock == End(c)
    requires t.delivered == s.delivered && !t.pc.Handling?
    ensures KnockInv(cfg, t)
  {
    hide Exec, After;
    CallAppended(cfg, s.calls, c, 0);
    var n := |s.calls|;
    assert forall i :: 0 <= i < n ==> t.calls[i] == s.calls[i];
    assert forall i :: 0 <= i < n ==> End(s.calls[i]) <= c.now by {
      assert forall i :: 0 <= i < n - 1 ==> End(s.calls[i]) <= s.calls[n - 1].now <= End(s.calls[n - 1]);
    }
    if s.pc.Handling? {
      assert KnockEvent(c.ip, c.port) == s.pc.e;
    }
  }

  lemma KnockKept(cfg: Settings, s: State, st: Step)
    requires KnockInv(cfg, s) && Enabled(cfg, s, st)
    ensures KnockInv(cfg, Next(cfg, s, st))
  {
    hide After, EventsOf, Process, Sweep, G.Open, G.Tick, G.Shutdown, R.Push, R.Take, Q.SyncInv, ClockMonotone;
    var t := Next(cfg, s, st);
    match st
    case Handle(now, nowAlloc) => CallKept(cfg, s, Knock(s.pc.e.srcIp, s.pc.e.dstPort, now, nowAlloc), t);
    case SweepCheck(now, sweepNow) =>
      if now - s.lastCleanup >= STALE_SCAN_INTERVAL {
        CallKept(cfg, s, Cleanup(sweepNow), t);
      }
    case _ =>
  }

  // ---------- completions and opens ----------

  lemma OpenKept(cfg: Settings, s: State, st: Step)
    requires KnockInv(cfg, s) && OpenInv(cfg, s) && Enabled(cfg, s, st)
    ensures OpenInv(cfg, Next(cfg, s, st))
  {
    hide OpenInv, After, EventsOf, Process, Sweep, G.Open, G.Tick, G.Shutdown, Q.Next, Q.Delivers, Q.SyncInv, Latest;
    var t := Next(cfg, s, st);
    match st
    case Handle(now, nowAlloc) => CallOpens(cfg, s, Knock(s.pc.e.srcIp, s.pc.e.dstPort, now, nowAlloc), t);
    case SweepCheck(now, sweepNow) =>
      if now - s.lastCleanup >= STALE_SCAN_INTERVAL {
        CallOpens(cfg, s, Cleanup(sweepNow), t);
      }
      else {
        OpenFrame(cfg, s, t);
      }
    case OpenGrant(now, ok) => OpenRecorded(cfg, s, now, t);
    case _ => OpenFrame(cfg, s, t);
  }

  lemma OpenFrame(cfg: Settings, s: State, t: State)
    requires cfg.Valid() && OpenInv(cfg, s)
    requires t.calls == s.calls && t.lastOpen == s.lastOpen && s.clock <= t.clock
    requires s.pc.Opening? || t.pc.Opening? ==> t.pc == s.pc
    ensures OpenInv(cfg, t)
  {
    hide After, ResultAt, Latest;
  }

  lemma CallOpens(cfg: Settings, s: State, c: Call, t: State)
    requires KnockInv(cfg, s) && OpenInv(cfg, s) && !s.pc.Opening?
    requires t.calls == s.calls + [c] && t.lastOpen == s.lastOpen && s.clock <= t.clock
    requires t.pc.Opening? <==> Exec(cfg, s.table, c).1 == Some(Complete)
    requires t.pc.Opening? ==> c.Knock? && t.pc == Opening(c.ip, |s.calls|)
    ensures OpenInv(cfg, t)
  {
    hide Exec, After, Latest, ResultAt;
    forall a
      ensures Latest(cfg, t.calls, a, |t.calls|)
           == if t.pc.Opening? && t.pc.ip == a then Some(t.pc.at)
              else if a in t.lastOpen then Some(t.lastOpen[a].at) else None
    {
      CallAppended(cfg, s.calls, c, a);
    }
    forall a | a in t.lastOpen
      ensures ResultAt(cfg, t.calls, t.lastOpen[a].at) == ResultAt(cfg, s.calls, t.lastOpen[a].at)
    {
      ResultPrefix(cfg, s.calls, t.calls, t.lastOpen[a].at);
    }
  }

  lemma ResultPrefix(cfg: Settings, calls: seq<Call>, more: seq<Call>, k: nat)
    requires cfg.Valid() && k < |calls| && k < |more| && forall i :: 0 <= i <= k ==> calls[i] == more[i]
    ensures ResultAt(cfg, calls, k) == ResultAt(cfg, more, k)
  {
    hide Exec, After;
    AfterPrefix(cfg, calls, more, k);
  }

  lemma OpenRecorded(cfg: Settings, s: State, now: int, t: State)
    requires KnockInv(cfg, s) && OpenInv(cfg, s) && s.pc.Opening? && s.clock <= now
    requires t.calls == s.calls && t.pc == Draining && t.clock == now
    requires t.lastOpen == s.lastOpen[s.pc.ip := OpenCall(s.pc.at, now)]
    ensures OpenInv(cfg, t)
  {
    hide After, ResultAt, EventsOf, TableInv, Latest;
    assert Latest(cfg, s.calls, s.pc.ip, |s.calls|) == Some(s.pc.at);
    assert s.pc.at < |s.calls| - 1 ==> End(s.calls[s.pc.at]) <= s.calls[|s.calls| - 1].now <= End(s.calls[|s.calls| - 1]);
  }

  // ---------- grants ----------

  lemma GrantKept(cfg: Settings, s: State, st: Step)
    requires GrantInv(cfg, s) && Enabled(cfg, s, st)
    ensures GrantInv(cfg, Next(cfg, s, st))
  {
    hide After, EventsOf, Process, Sweep, G.Open, G.Tick, G.Shutdown, R.Push, R.Take, Q.SyncInv, Latest;
    match st
    case OpenGrant(now, ok) => OpenGrants(cfg, s, now, ok);
    case Tick(now, oks) => TickGrants(cfg, s, now, oks);
    case _ =>
  }

  lemma OpenGrants(cfg: Settings, s: State, now: int, ok: bool)
    requires GrantInv(cfg, s) && s.pc.Opening?
    ensures GrantInv(cfg, s.(fw := G.Open(cfg, s.fw, s.pc.ip, now, ok).0,
                             lastOpen := s.lastOpen[s.pc.ip := OpenCall(s.pc.at, now)], pc := Draining))
  {
    hide G.Balanced;
    G.OpenInv(cfg, s.fw, s.pc.ip, now, ok);
  }

  lemma TickGrants(cfg: Settings, s: State, now: int, oks: seq<bool>)
    requires GrantInv(cfg, s) && s.pc == Ticking && |oks| == G.MAX_EXPIRY_PER_TICK
    ensures GrantInv(cfg, s.(fw := G.Tick(cfg, s.fw, now, oks), pc := Sweeping))
  {
    hide G.Balanced, G.Tick, G.Expire;
    G.TickInv(cfg, s.fw, now, oks);
    G.TickShrinks(cfg, s.fw, now, oks);
    F.ExpireOnlyReleases(s.fw.grants.value, now, 0, G.MAX_EXPIRY_PER_TICK);
  }

  // ---------- every reachable state ----------

  lemma {:induction false} RunInv(cfg: Settings, states: seq<State>, steps: seq<Step>, k: nat)
    requires IsRun(cfg, states, steps) && k <= |steps|
    ensures QueueInv(states[k]) && KnockInv(cfg, states[k]) && OpenInv(cfg, states[k]) && GrantInv(cfg, states[k])
  {
    hide QueueInv, KnockInv, OpenInv, GrantInv, Enabled, Next, Starts;
    if k == 0 {
      StartInv(cfg, states[0]);
    } else {
      assert Goes(cfg, states, steps, k - 1);
      RunInv(cfg, states, steps, k - 1);
      QueueKept(cfg, states[k - 1], steps[k - 1]);
      KnockKept(cfg, states[k - 1], steps[k - 1]);
      OpenKept(cfg, states[k - 1], steps[k - 1]);
      GrantKept(cfg, states[k - 1], steps[k - 1]);
    }
  }

  /** End to end, over every interleaving and whatever iptables does: a rule for a in the
      chain means that a's own dequeued knocks contain a full timed match of the sequence, the
      latest that firewall_open was called for; and those knocks are, in order, events the
      capture thread's pushes were accepted for. */
  lemma RuleMeansMatch(cfg: Settings, states: seq<State>, steps: seq<Step>, k: nat, a: Address) returns (idx: seq<nat>)
    requires IsRun(cfg, states, steps) && k <= |steps|
    requires states[k].pc != Down && states[k].fw.rules.chain.Some?
    requires G.RuleFor(cfg, a) in states[k].fw.rules.chain.value
    ensures var s := states[k];
            && a in s.lastOpen && s.lastOpen[a].at < |s.calls|
            && FullMatch(cfg, s.calls, a, idx, s.lastOpen[a].at)
            && s.calls[s.lastOpen[a].at].now <= s.lastOpen[a].now
            && EventsOf(s.calls, |s.calls|) <= s.delivered <= s.accepted
  {
    var s := states[k];
    RunInv(cfg, states, steps, k);
    var at := s.lastOpen[a].at;
    idx := CompletionSound(cfg, s.calls, a, at);
  }

  /** And a grant's deadline is accessTimeout after the latest firewall_open for its address,
      which was for the address's latest completion unless one is just being acted on. */
  lemma GrantDeadline(cfg: Settings, states: seq<State>, steps: seq<Step>, k: nat, i: nat)
    requires IsRun(cfg, states, steps) && k <= |steps| && states[k].pc != Down
    requires var fw := states[k].fw; fw.grants.Some? && i < |fw.grants.value| && fw.grants.value[i].active
    ensures var s, g := states[k], states[k].fw.grants.value[i];
            && g.ip in s.lastOpen
            && g.expiresAt == s.lastOpen[g.ip].now + cfg.accessTimeout
            && (!(s.pc.Opening? && s.pc.ip == g.ip) ==>
                  Latest(cfg, s.calls, g.ip, |s.calls|) == Some(s.lastOpen[g.ip].at))
  {
    hide After, Latest, EventsOf;
    RunInv(cfg, states, steps, k);
  }

  /** The rules in the chain are those of the active grants, and those of failed deletes. */
  lemma ChainInDaemon(cfg: Settings, states: seq<State>, steps: seq<Step>, k: nat, a: Address)
    requires IsRun(cfg, states, steps) && k <= |steps| && states[k].pc != Down
    ensures var fw := states[k].fw;
            && fw.grants.Some? && fw.rules.chain.Some?
            && (G.RuleFor(cfg, a) in fw.rules.chain.value <==> G.Active(fw.grants.value, a) || a in fw.leaked)
  {
    hide After, Latest, EventsOf;
    RunInv(cfg, states, steps, k);
    var fw := states[k].fw;
    var r := G.RuleFor(cfg, a);
    assert fw.rules.chain.value[r] == G.Held(fw.grants.value, r.source) + fw.leaked[r.source];
  }

  /** What an open step does for the address whose completion is being acted on. */
  ghost predicate Acted(cfg: Settings, s: State, st: Step, s': State)
    requires cfg.Valid() && st.OpenGrant?
  {
    && s.pc.Opening? && s.fw.grants.Some? && s'.fw.grants.Some? && s'.fw.rules.chain.Some?
    && Latest(cfg, s.calls, s.pc.ip, |s.calls|) == Some(s.pc.at)
    && if G.CanOpen(s.fw.grants.value, s.pc.ip, st.ok)
       then G.RuleFor(cfg, s.pc.ip) in s'.fw.rules.chain.value
            && G.Expiry(s'.fw, s.pc.ip) == Some(st.now + cfg.accessTimeout)
       else G.Expiry(s'.fw, s.pc.ip) == None
  }

  lemma OpenActs(cfg: Settings, s: State, st: Step)
    requires cfg.Valid() && OpenInv(cfg, s) && GrantInv(cfg, s) && Enabled(cfg, s, st) && st.OpenGrant?
    ensures Acted(cfg, s, st, Next(cfg, s, st))
  {
    hide After, Latest, ResultAt, G.Open, G.Expiry, G.Balanced, G.CanOpen, TableInv, Q.SyncInv;
    G.OpenOutcome(cfg, s.fw, s.pc.ip, st.now, st.ok);
  }

  /** And a completion is acted on: its open gives the address a rule at once and a grant of
      the full timeout, unless the insert fails or all slots are taken. */
  lemma CompletionOpens(cfg: Settings, states: seq<State>, steps: seq<Step>, k: nat)
    requires IsRun(cfg, states, steps) && k < |steps| && steps[k].OpenGrant?
    ensures Acted(cfg, states[k], steps[k], states[k + 1])
  {
    hide QueueInv, OpenInv, GrantInv, Enabled, Next, Acted;
    assert Goes(cfg, states, steps, k);
    RunInv(cfg, states, steps, k);
    OpenActs(cfg, states[k], steps[k]);
  }
}
