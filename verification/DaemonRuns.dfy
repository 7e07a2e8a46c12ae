/** What the parts promise over their own runs, carried over to the daemon: its firewall and
    its queue only ever go through runs of theirs, and each of its steps does its work. */
module DaemonRuns {
  import opened Common
  import opened KnockTable
  import opened KnockCourse
  import opened KnockRuns
  import opened Daemon
  import opened Netfilter
  import G = GrantTable
  import F = FirewallRuns
  import R = Ring
  import Q = QueueRuns

  // ---------- time ----------

  lemma ClockStep(cfg: Settings, s: State, st: Step)
    requires Enabled(cfg, s, st)
    ensures s.clock <= Next(cfg, s, st).clock
    ensures Readings(st).Some? ==>
              s.clock <= Readings(st).value.0 && Readings(st).value.1 == Next(cfg, s, st).clock
  {
    hide TableInv, Q.SyncInv, Process, Sweep, G.Open, G.Tick, G.Shutdown, Q.Next, Q.Delivers;
  }

  lemma {:induction false} ClockForward(cfg: Settings, states: seq<State>, steps: seq<Step>, j: nat, k: nat)
    requires IsRun(cfg, states, steps) && j <= k <= |steps|
    ensures states[j].clock <= states[k].clock
    decreases k
  {
    hide Enabled, Next;
    if j < k {
      ClockForward(cfg, states, steps, j, k - 1);
      assert Goes(cfg, states, steps, k - 1);
      ClockStep(cfg, states[k - 1], steps[k - 1]);
    }
  }

  // ---------- the firewall's share of a run ----------

  /** The firewall operation a step performs, if any. */
  function FwOp(s: State, st: Step): Option<F.Op> {
    match st
    case OpenGrant(now, ok) => if s.pc.Opening? then Some(F.OpenOp(s.pc.ip, now, ok)) else None
    case Tick(now, oks) => Some(F.TickOp(now, oks))
    case _ => None
  }

  /** The firewall operations of the steps from j up to k, and the firewall's states around them. */
  function FwOps(states: seq<State>, steps: seq<Step>, j: nat, k: nat): seq<F.Op>
    requires j <= k <= |steps| && |states| == |steps| + 1
  {
    if k == j then []
    else
      FwOps(states, steps, j, k - 1)
      + match FwOp(states[k - 1], steps[k - 1]) case Some(op) => [op] case None => []
  }

  function FwStates(states: seq<State>, steps: seq<Step>, j: nat, k: nat): (fws: seq<G.Fw>)
    requires j <= k <= |steps| && |states| == |steps| + 1
    ensures |fws| == |FwOps(states, steps, j, k)| + 1
  {
    if k == j then [states[j].fw]
    else
      FwStates(states, steps, j, k - 1) + if FwOp(states[k - 1], steps[k - 1]).Some? then [states[k].fw] else []
  }

  /** One step's share: the operation it performs, or nothing. Down is final. */
  lemma FwStep(cfg: Settings, s: State, st: Step)
    requires Enabled(cfg, s, st) && Next(cfg, s, st).pc != Down
    ensures s.pc != Down
    ensures match FwOp(s, st)
            case Some(op) => F.Allowed(s.fw, op) && Next(cfg, s, st).fw == F.Step(cfg, s.fw, op)
            case None => Next(cfg, s, st).fw == s.fw
  {
    hide TableInv, Q.SyncInv, Process, Sweep, G.Open, G.Tick, G.Shutdown, Q.Next, Q.Delivers;
  }

  /** Until the teardown the daemon's firewall goes through a run of the firewall manager: its
      operations are the opens and ticks of the processor, in order. */
  lemma {:induction false} FirewallRun(cfg: Settings, states: seq<State>, steps: seq<Step>, j: nat, k: nat)
    requires IsRun(cfg, states, steps) && j <= k <= |steps| && states[k].pc != Down
    ensures states[j].pc != Down
    ensures var fws, ops := FwStates(states, steps, j, k), FwOps(states, steps, j, k);
            F.IsRun(cfg, fws, ops) && fws[0] == states[j].fw && fws[|ops|] == states[k].fw
    decreases k
  {
    hide Enabled, Next, FwOp, F.Step, F.Allowed;
    if k == j {
      RunInv(cfg, states, steps, j);
    } else {
      assert Goes(cfg, states, steps, k - 1);
      FwStep(cfg, states[k - 1], steps[k - 1]);
      FirewallRun(cfg, states, steps, j, k - 1);
      var fws, ops := FwStates(states, steps, j, k - 1), FwOps(states, steps, j, k - 1);
      match FwOp(states[k - 1], steps[k - 1])
      case Some(op) => FwRunGrows(cfg, fws, ops, op, states[k].fw);
      case None => assert fws + [] == fws && ops + [] == ops;
    }
  }

  lemma FwRunGrows(cfg: Settings, fws: seq<G.Fw>, ops: seq<F.Op>, op: F.Op, fw: G.Fw)
    requires F.IsRun(cfg, fws, ops) && F.Allowed(fws[|ops|], op) && fw == F.Step(cfg, fws[|ops|], op)
    ensures F.IsRun(cfg, fws + [fw], ops + [op])
  {
    hide F.Step, F.Allowed;
    forall k | 0 <= k < |ops + [op]|
      ensures F.Takes(cfg, fws + [fw], ops + [op], k)
    {
      if k < |ops| {
        assert F.Takes(cfg, fws, ops, k);
      }
    }
  }

  /** Every state of that run is the firewall's in some state of the daemon. */
  lemma {:induction false} FwStateAt(states: seq<State>, steps: seq<Step>, j: nat, k: nat, m: nat) returns (p: nat)
    requires j <= k <= |steps| && |states| == |steps| + 1
    requires m < |FwStates(states, steps, j, k)|
    ensures j <= p <= k && states[p].fw == FwStates(states, steps, j, k)[m]
    decreases k
  {
    if k == j {
      p := j;
    } else if m < |FwStates(states, steps, j, k - 1)| {
      p := FwStateAt(states, steps, j, k - 1, m);
    } else {
      p := k;
    }
  }

  /** How many of the steps from j up to k are ticks. */
  function TickSteps(steps: seq<Step>, j: nat, k: nat): nat
    requires j <= k <= |steps|
  {
    if k == j then 0 else TickSteps(steps, j, k - 1) + if steps[k - 1].Tick? then 1 else 0
  }

  lemma {:induction false} TicksAgree(states: seq<State>, steps: seq<Step>, j: nat, k: nat)
    requires j <= k <= |steps| && |states| == |steps| + 1
    ensures var ops := FwOps(states, steps, j, k); F.Ticks(ops, |ops|) == TickSteps(steps, j, k)
    decreases k
  {
    if j < k {
      TicksAgree(states, steps, j, k - 1);
      var ops := FwOps(states, steps, j, k - 1);
      match FwOp(states[k - 1], steps[k - 1])
      case Some(op) => TicksPrefix(ops, op, |ops|);
      case None => assert ops + [] == ops;
    }
  }

  lemma {:induction false} TicksPrefix(ops: seq<F.Op>, op: F.Op, k: nat)
    requires k <= |ops|
    ensures F.Ticks(ops + [op], k) == F.Ticks(ops, k)
  {
    if k > 0 {
      TicksPrefix(ops, op, k - 1);
    }
  }

  /** The times the firewall reads in those steps. */
  lemma {:induction false} OpsInTime(cfg: Settings, states: seq<State>, steps: seq<Step>, j: nat, k: nat, horizon: int)
    requires IsRun(cfg, states, steps) && j <= k <= |steps|
    requires forall p :: j <= p < k && steps[p].Tick? ==> steps[p].now < horizon
    ensures forall op :: op in FwOps(states, steps, j, k) ==>
              && !op.CloseOp?
              && F.InSpan(op, states[j].clock, horizon)
    decreases k
  {
    hide Enabled, Next;
    if j < k {
      OpsInTime(cfg, states, steps, j, k - 1, horizon);
      ClockForward(cfg, states, steps, j, k - 1);
      assert Goes(cfg, states, steps, k - 1);
      ClockStep(cfg, states[k - 1], steps[k - 1]);
    }
  }

  /** Bounded expiry in the daemon: a grant in slot i that has run out is closed or extended
      within i / 16 + 1 ticks of the processor read before the clock then plus accessTimeout,
      whatever both threads do in between. */
  lemma DaemonExpires(cfg: Settings, states: seq<State>, steps: seq<Step>, j: nat, k: nat, i: nat)
    requires IsRun(cfg, states, steps) && j <= k <= |steps| && states[k].pc != Down
    requires var fw := states[j].fw;
             fw.grants.Some? && i < |fw.grants.value| && fw.grants.value[i].active
             && fw.grants.value[i].expiresAt <= states[j].clock
    requires forall p :: j <= p < k && steps[p].Tick? ==> steps[p].now < states[j].clock + cfg.accessTimeout
    requires TickSteps(steps, j, k) >= i / G.MAX_EXPIRY_PER_TICK + 1
    ensures exists p :: j <= p <= k && states[p].fw.grants.Some?
              && F.ClosedOrExtended(states[p].fw, states[j].fw.grants.value[i].ip, states[j].clock + cfg.accessTimeout)
  {
    hide FwStates, FwOps, F.ClosedOrExtended, F.Takes, Goes;
    var fws, ops, t0 := FwStates(states, steps, j, k), FwOps(states, steps, j, k), states[j].clock;
    FirewallRun(cfg, states, steps, j, k);
    TicksAgree(states, steps, j, k);
    OpsInTime(cfg, states, steps, j, k, t0 + cfg.accessTimeout);
    assert forall p :: 0 <= p < |ops| ==> ops[p] in ops;
    F.ExpiryBound(cfg, fws, ops, |ops|, i, t0);
    var m :| 0 <= m <= |ops| && fws[m].grants.Some?
             && F.ClosedOrExtended(fws[m], fws[0].grants.value[i].ip, t0 + cfg.accessTimeout);
    var p := FwStateAt(states, steps, j, k, m);
  }

  /** Access lasts in the daemon: a grant and its rule stay in force while ticks read times
      before its deadline, whatever both threads do. */
  lemma DaemonAccessLasts(cfg: Settings, states: seq<State>, steps: seq<Step>, j: nat, k: nat, a: Address)
    requires IsRun(cfg, states, steps) && j <= k <= |steps| && states[k].pc != Down
    requires states[j].fw.grants.Some? && G.Expiry(states[j].fw, a).Some?
    requires forall p :: j <= p < k && steps[p].Tick? ==> steps[p].now < G.Expiry(states[j].fw, a).value
    ensures var fw := states[k].fw;
            && fw.grants.Some? && fw.rules.chain.Some?
            && G.Expiry(fw, a).Some? && G.Expiry(fw, a).value >= G.Expiry(states[j].fw, a).value
            && G.RuleFor(cfg, a) in fw.rules.chain.value
  {
    hide FwStates, FwOps, F.Takes, Goes, G.Balanced, KnockInv, QueueInv, Latest;
    var fws, ops, deadline := FwStates(states, steps, j, k), FwOps(states, steps, j, k), G.Expiry(states[j].fw, a).value;
    FirewallRun(cfg, states, steps, j, k);
    RunInv(cfg, states, steps, j);
    OpsInTime(cfg, states, steps, j, k, deadline);
    assert forall p :: 0 <= p < |ops| ==> ops[p] in ops;
    assert deadline <= states[j].clock + cfg.accessTimeout;
    F.AccessLasts(cfg, fws, ops, |ops|, a, deadline);
  }

  // ---------- single steps ----------

  /** A tick does its work: a grant that has run out by the time it reads is released, or 16
      grants below it that have run out are; one that has not is left as it is. */
  lemma TickReleases(cfg: Settings, states: seq<State>, steps: seq<Step>, k: nat, i: nat)
    requires IsRun(cfg, states, steps) && k < |steps| && steps[k].Tick?
    ensures var g, g', now := states[k].fw.grants, states[k + 1].fw.grants, steps[k].now;
            && g.Some? && g'.Some? && |g'.value| == |g.value|
            && (i < |g.value| && g.value[i].active && g.value[i].expiresAt <= now ==>
                  || !g'.value[i].active
                  || F.Pending(g'.value, i, now + 1) + G.MAX_EXPIRY_PER_TICK == F.Pending(g.value, i, now + 1))
            && (i < |g.value| && !(g.value[i].active && g.value[i].expiresAt <= now) ==> g'.value[i] == g.value[i])
  {
    hide Enabled, Next, QueueInv, KnockInv, OpenInv, G.Balanced, G.Expire, G.Tick;
    assert Goes(cfg, states, steps, k);
    RunInv(cfg, states, steps, k);
    var fw, now, oks := states[k].fw, steps[k].now, steps[k].oks;
    TickStep(cfg, states[k], steps[k]);
    G.TickInv(cfg, fw, now, oks);
    F.ExpireOnlyReleases(fw.grants.value, now, 0, G.MAX_EXPIRY_PER_TICK);
    if i < |fw.grants.value| && fw.grants.value[i].active && fw.grants.value[i].expiresAt <= now {
      F.ExpireProgress(fw.grants.value, now, 0, G.MAX_EXPIRY_PER_TICK, i, now + 1);
    }
  }

  lemma TickStep(cfg: Settings, s: State, st: Step)
    requires Enabled(cfg, s, st) && st.Tick?
    ensures s.pc == Ticking && |st.oks| == G.MAX_EXPIRY_PER_TICK
    ensures Next(cfg, s, st).fw == G.Tick(cfg, s.fw, st.now, st.oks) && Next(cfg, s, st).pc == Sweeping
  {
  }

  /** And one failed delete does not stop the rest: an address whose delete works, with no leak
      from before, has lost its rule after the tick that releases it. */
  lemma TickRevokes(cfg: Settings, states: seq<State>, steps: seq<Step>, k: nat, m: nat)
    requires IsRun(cfg, states, steps) && k < |steps| && steps[k].Tick?
    requires states[k].fw.grants.Some? && m < |G.Released(states[k].fw, steps[k].now)|
    ensures |steps[k].oks| == G.MAX_EXPIRY_PER_TICK && states[k + 1].fw.rules.chain.Some?
    ensures var a := G.Released(states[k].fw, steps[k].now)[m];
            states[k + 1].fw.rules.chain.value[G.RuleFor(cfg, a)]
            == states[k].fw.leaked[a] + if steps[k].oks[m] then 0 else 1
  {
    hide Enabled, Next, QueueInv, KnockInv, OpenInv, G.Balanced, G.Released, G.Tick;
    assert Goes(cfg, states, steps, k);
    RunInv(cfg, states, steps, k);
    TickStep(cfg, states[k], steps[k]);
    G.TickDeletes(cfg, states[k].fw, steps[k].now, steps[k].oks, m);
  }

  /** Conservation in the daemon: until the teardown an address has one rule if it has an active
      grant, plus one for each of its deletes that failed in a tick; no other rule is there. */
  lemma DaemonConserves(cfg: Settings, states: seq<State>, steps: seq<Step>, k: nat, r: GrantRule)
    requires IsRun(cfg, states, steps) && k <= |steps| && states[k].pc != Down
    ensures F.IsRun(cfg, FwStates(states, steps, 0, k), FwOps(states, steps, 0, k))
    ensures var fw, fws, ops := states[k].fw, FwStates(states, steps, 0, k), FwOps(states, steps, 0, k);
            && fw.grants.Some? && fw.rules.chain.Some?
            && fw.rules.chain.value[r]
               == if r.dport == cfg.protectedPort
                  then (if G.Active(fw.grants.value, r.source) then 1 else 0)
                       + F.FailedDeletes(cfg, fws, ops, |ops|, r.source)
                  else 0
  {
    hide FwStates, FwOps, F.Takes, Goes, G.Init, F.FailedDeletes;
    var fws, ops := FwStates(states, steps, 0, k), FwOps(states, steps, 0, k);
    FirewallRun(cfg, states, steps, 0, k);
    var fw0, o :| G.Init(cfg, fw0, o) == (states[0].fw, true);
    F.Conservation(cfg, fw0, o, fws, ops, |ops|, r);
  }

  lemma {:induction false} NoEdits(states: seq<State>, steps: seq<Step>, j: nat, k: nat)
    requires j <= k <= |steps| && |states| == |steps| + 1
    ensures forall op :: op in FwOps(states, steps, j, k) ==> op.OpenOp? || op.TickOp?
    decreases k
  {
    if j < k {
      NoEdits(states, steps, j, k - 1);
    }
  }

  lemma {:induction false} InputUnedited(cfg: Settings, fws: seq<G.Fw>, ops: seq<F.Op>, k: nat)
    requires F.IsRun(cfg, fws, ops) && k <= |ops| && forall op :: op in ops ==> op.OpenOp? || op.TickOp?
    ensures fws[k].rules.input == fws[0].rules.input
  {
    hide F.Step, F.Allowed;
    if k > 0 {
      InputUnedited(cfg, fws, ops, k - 1);
      assert ops[k - 1] in ops && F.Takes(cfg, fws, ops, k - 1);
      F.RunInv(cfg, fws, ops, k - 1);
      F.StepInv(cfg, fws[k - 1], ops[k - 1]);
    }
  }

  /** Until the teardown INPUT is as init left it; after it, whatever fails, no rule of the
      operator's is lost, and a flush that worked revokes every grant. When nothing fails INPUT
      is as it was before the daemon started, whatever happened in between, and the chain is
      empty, or gone with the only jump. */
  lemma StopOutcome(cfg: Settings, fw0: G.Fw, o: G.InitOutcome, states: seq<State>, steps: seq<Step>, k: nat)
    requires IsRun(cfg, states, steps) && k < |steps| && steps[k].Teardown?
    requires !fw0.addedJump && G.Init(cfg, fw0, o) == (states[0].fw, true)
    ensures var end, st, hooked := states[k + 1].fw, steps[k], states[0].fw.addedJump;
            && end.grants == None
            && end.rules.input == (if hooked && !st.unhookOk then [Jump] + fw0.rules.input else fw0.rules.input)
            && (st.flushOk ==> end.rules.chain == (if hooked && st.unhookOk && st.delOk && Jump !in fw0.rules.input
                                                   then None else Some(multiset{})))
  {
    hide FwStates, FwOps, F.Takes, F.OperatorList, F.OwnInput, G.Init, G.Shutdown, G.Balanced;
    assert Goes(cfg, states, steps, k) && states[k].pc == Joining;
    var fws, ops := FwStates(states, steps, 0, k), FwOps(states, steps, 0, k);
    FirewallRun(cfg, states, steps, 0, k);
    F.RunInv(cfg, fws, ops, |ops|);
    NoEdits(states, steps, 0, k);
    InputUnedited(cfg, fws, ops, |ops|);
    InitInput(cfg, fw0, o);
    F.ShutdownSafe(cfg, states[k].fw, steps[k].flushOk, steps[k].unhookOk, steps[k].delOk);
    SameOwn(states[k].fw, states[0].fw);
  }

  lemma InitInput(cfg: Settings, fw0: G.Fw, o: G.InitOutcome)
    requires cfg.Valid() && !fw0.addedJump
    ensures var fw := G.Init(cfg, fw0, o).0;
            && F.OwnInput(fw) == fw0.rules.input
            && fw.rules.input == (if fw.addedJump then [Jump] + fw0.rules.input else fw0.rules.input)
  {
    F.InitKeepsOwn(cfg, fw0, o);
  }

  lemma SameOwn(fw: G.Fw, fw': G.Fw)
    requires fw.addedJump == fw'.addedJump && fw.rules.input == fw'.rules.input
    ensures F.OwnInput(fw) == F.OwnInput(fw')
    ensures !fw.addedJump ==> F.OwnInput(fw) == fw.rules.input
  {
  }

  // ---------- the queue's share of a run ----------

  /** The locked region of the queue that a step is, if any. */
  function QOp(s: State, st: Step): Option<Q.Step> {
    if st.BeginWait? && !s.running then None else QueueStep(st)
  }

  function QOps(states: seq<State>, steps: seq<Step>, k: nat): seq<Q.Step>
    requires k <= |steps| && |states| == |steps| + 1
  {
    if k == 0 then []
    else
      QOps(states, steps, k - 1)
      + match QOp(states[k - 1], steps[k - 1]) case Some(qs) => [qs] case None => []
  }

  function QStates(states: seq<State>, steps: seq<Step>, k: nat): (syncs: seq<Q.Sync>)
    requires k <= |steps| && |states| == |steps| + 1
    ensures |syncs| == |QOps(states, steps, k)| + 1
  {
    if k == 0 then [states[0].sync]
    else
      QStates(states, steps, k - 1) + if QOp(states[k - 1], steps[k - 1]).Some? then [states[k].sync] else []
  }

  lemma QStep(cfg: Settings, s: State, st: Step)
    requires Enabled(cfg, s, st)
    ensures R.QInv(s.sync.q) && s.sync.q.head < |s.sync.q.ring|
    ensures var t := Next(cfg, s, st);
            match QOp(s, st)
            case Some(qs) => Q.Enabled(s.sync, qs) && t.sync == Q.Next(s.sync, qs)
                             && t.accepted == Queued(s, qs).accepted
            case None => t.sync == s.sync && t.accepted == s.accepted
  {
    hide TableInv, R.QInv, Process, Sweep, G.Open, G.Tick, G.Shutdown, Q.Next, Q.Delivers;
  }

  lemma TakesGrows(syncs: seq<Q.Sync>, ops: seq<Q.Step>, qs: Q.Step, sync: Q.Sync, k: nat)
    requires |syncs| == |ops| + 1 && k <= |ops| && (k < |ops| ==> Q.Takes(syncs, ops, k))
    requires var last := syncs[|ops|];
             && last.q.tail < |last.q.ring| && last.q.head < |last.q.ring|
             && Q.Enabled(last, qs) && sync == Q.Next(last, qs)
    ensures Q.Takes(syncs + [sync], ops + [qs], k)
  {
    hide Q.Next, Q.Enabled;
  }

  lemma QRunGrows(syncs: seq<Q.Sync>, ops: seq<Q.Step>, qs: Q.Step, sync: Q.Sync)
    requires Q.IsRun(syncs, ops)
    requires var last := syncs[|ops|];
             && last.q.tail < |last.q.ring| && last.q.head < |last.q.ring|
             && Q.Enabled(last, qs) && sync == Q.Next(last, qs)
    ensures Q.IsRun(syncs + [sync], ops + [qs])
  {
    forall k | 0 <= k < |ops| + 1
      ensures Q.Takes(syncs + [sync], ops + [qs], k)
    {
      TakesGrows(syncs, ops, qs, sync, k);
    }
  }

  lemma BooksGrow(syncs: seq<Q.Sync>, ops: seq<Q.Step>, qs: Q.Step, sync: Q.Sync)
    requires |syncs| == |ops| + 1
    ensures Q.Pushes(ops + [qs], |ops| + 1) == Q.Pushes(ops, |ops|) + if qs.PushStep? then 1 else 0
    ensures var last, before := syncs[|ops|], Q.Accepted(syncs, ops, |ops|);
            Q.Accepted(syncs + [sync], ops + [qs], |ops| + 1)
            == if qs.PushStep? && last.q.count < |last.q.ring| then before + [qs.e] else before
  {
    BooksPrefix(syncs, ops, qs, sync, |ops|);
  }

  lemma {:induction false} BooksPrefix(syncs: seq<Q.Sync>, ops: seq<Q.Step>, qs: Q.Step, sync: Q.Sync, k: nat)
    requires k <= |ops| && |syncs| == |ops| + 1
    ensures Q.Accepted(syncs + [sync], ops + [qs], k) == Q.Accepted(syncs, ops, k)
    ensures Q.Pushes(ops + [qs], k) == Q.Pushes(ops, k)
  {
    if k > 0 {
      BooksPrefix(syncs, ops, qs, sync, k - 1);
    }
  }

  function Captures(steps: seq<Step>, k: nat): nat
    requires k <= |steps|
  {
    if k == 0 then 0 else Captures(steps, k - 1) + if steps[k - 1].Capture? then 1 else 0
  }

  /** The daemon's queue goes through a run of the queue, under its two threads: what holds of
      every such run holds here, and the daemon's accepted events are that run's. */
  lemma {:induction false} QueueRun(cfg: Settings, states: seq<State>, steps: seq<Step>, k: nat)
    requires IsRun(cfg, states, steps) && k <= |steps|
    ensures var syncs, ops := QStates(states, steps, k), QOps(states, steps, k);
            && Q.IsRun(syncs, ops) && syncs[|ops|] == states[k].sync
            && Q.Accepted(syncs, ops, |ops|) == states[k].accepted
            && Q.Pushes(ops, |ops|) == Captures(steps, k)
  {
    hide Enabled, Next, QOp, Q.Next, Q.Enabled, R.QInv, Queued;
    if k == 0 {
      StartQueueRun(cfg, states, steps);
    } else {
      assert Goes(cfg, states, steps, k - 1);
      QueueRun(cfg, states, steps, k - 1);
      QStep(cfg, states[k - 1], steps[k - 1]);
      var syncs, ops := QStates(states, steps, k - 1), QOps(states, steps, k - 1);
      PushIsCapture(states[k - 1], steps[k - 1]);
      match QOp(states[k - 1], steps[k - 1])
      case Some(qs) =>
        HeadInRange(states[k - 1].sync);
        QRunGrows(syncs, ops, qs, states[k].sync);
        BooksGrow(syncs, ops, qs, states[k].sync);
      case None => assert syncs + [] == syncs && ops + [] == ops;
    }
  }

  lemma StartQueueRun(cfg: Settings, states: seq<State>, steps: seq<Step>)
    requires |states| == |steps| + 1 && Starts(cfg, states[0])
    ensures Q.IsRun(QStates(states, steps, 0), QOps(states, steps, 0))
  {
  }

  lemma PushIsCapture(s: State, st: Step)
    ensures st.Capture? <==> QOp(s, st).Some? && QOp(s, st).value.PushStep?
    ensures st.Capture? ==> QOp(s, st).value.e == st.e
    ensures QOp(s, st).Some? && s.sync.q.tail < |s.sync.q.ring| && s.sync.q.head < |s.sync.q.ring| ==>
              var qs := QOp(s, st).value;
              Queued(s, qs).accepted
              == if qs.PushStep? && s.sync.q.count < |s.sync.q.ring| then s.accepted + [qs.e] else s.accepted
  {
    hide Q.Next, Q.Delivers;
  }

  lemma HeadInRange(sync: Q.Sync)
    requires R.QInv(sync.q)
    ensures sync.q.tail < |sync.q.ring|
  {
  }

  /** Every knock captured is accounted for: handled or to be handled, reported as dropped, or
      dropped and not yet reported. */
  lemma CapturesAccounted(cfg: Settings, states: seq<State>, steps: seq<Step>, k: nat)
    requires IsRun(cfg, states, steps) && k <= |steps|
    ensures Q.IsRun(QStates(states, steps, k), QOps(states, steps, k))
    ensures var syncs, ops := QStates(states, steps, k), QOps(states, steps, k);
            Captures(steps, k)
            == |states[k].accepted| + Q.SumDrops(Q.Reports(syncs, ops, |ops|)) + states[k].sync.q.dropped
  {
    hide QStates, QOps, Q.Takes, Goes;
    QueueRun(cfg, states, steps, k);
    Q.DropsAccounted(QStates(states, steps, k), QOps(states, steps, k), |QOps(states, steps, k)|);
  }
}
