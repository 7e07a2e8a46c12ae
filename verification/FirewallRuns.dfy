/** Whole lives of the firewall manager: init, then any mix of opens, closes, ticks and the
    operator's own edits to INPUT, then shutdown, with arbitrary iptables failures. */
module FirewallRuns {
  import opened Common
  import opened Netfilter
  import opened GrantTable

  datatype Op =
    | OpenOp(ip: Address, now: int, ok: bool)
    | CloseOp(ip: Address, ok: bool)
    | TickOp(now: int, oks: seq<bool>)
    | InsertRule(at: nat, id: nat)
    | DeleteRule(at: nat)

  /** The operator edits only rules of their own. */
  ghost predicate Allowed(fw: Fw, op: Op) {
    match op
    case OpenOp(_, _, _) => true
    case CloseOp(_, _) => true
    case TickOp(_, oks) => |oks| == MAX_EXPIRY_PER_TICK
    case InsertRule(at, _) => at <= |fw.rules.input|
    case DeleteRule(at) => at < |fw.rules.input| && fw.rules.input[at] != Jump
  }

  function WithInput(fw: Fw, input: seq<Rule>): Fw {
    fw.(rules := fw.rules.(input := input))
  }

  function Step(cfg: Settings, fw: Fw, op: Op): Fw
    requires Allowed(fw, op)
  {
    match op
    case OpenOp(ip, now, ok) => Open(cfg, fw, ip, now, ok).0
    case CloseOp(ip, ok) => Close(cfg, fw, ip, ok).0
    case TickOp(now, oks) => Tick(cfg, fw, now, oks)
    case InsertRule(at, id) => WithInput(fw, InsertAt(fw.rules.input, at, Operator(id)))
    case DeleteRule(at) => WithInput(fw, DeleteAt(fw.rules.input, at))
  }

  /** states is a run of ops: states[k] is the state before ops[k]. */
  ghost predicate IsRun(cfg: Settings, states: seq<Fw>, ops: seq<Op>) {
    && |states| == |ops| + 1
    && Inv(cfg, states[0])
    && forall k :: 0 <= k < |ops| ==> Takes(cfg, states, ops, k)
  }

  ghost predicate Takes(cfg: Settings, states: seq<Fw>, ops: seq<Op>, k: nat)
    requires k < |ops| && |states| == |ops| + 1
  {
    Allowed(states[k], ops[k]) && states[k + 1] == Step(cfg, states[k], ops[k])
  }

  /** How many deletes of a's rule the operation attempts in vain. */
  function FailedIn(fw: Fw, op: Op, a: Address): nat
    requires fw.grants.Some? && Allowed(fw, op)
  {
    match op
    case CloseOp(ip, ok) => if ip == a && !ok && Active(fw.grants.value, a) then 1 else 0
    case TickOp(now, oks) => Failures(Released(fw, now), oks, 0, a)
    case _ => 0
  }

  /** How many of a's deletes failed in the first k operations. */
  ghost function FailedDeletes(cfg: Settings, states: seq<Fw>, ops: seq<Op>, k: nat, a: Address): nat
    requires IsRun(cfg, states, ops) && k <= |ops|
  {
    if k == 0 then 0
    else
      RunInv(cfg, states, ops, k - 1);
      assert Takes(cfg, states, ops, k - 1);
      FailedDeletes(cfg, states, ops, k - 1, a) + FailedIn(states[k - 1], ops[k - 1], a)
  }

  /** iptables lets every delete of this operation work. */
  predicate DeletesSucceed(op: Op) {
    match op
    case CloseOp(_, ok) => ok
    case TickOp(_, oks) => forall j :: 0 <= j < |oks| ==> oks[j]
    case _ => true
  }

  // ---------- conservation ----------

  lemma StepInv(cfg: Settings, fw: Fw, op: Op)
    requires Inv(cfg, fw) && Allowed(fw, op)
    ensures Inv(cfg, Step(cfg, fw, op))
    ensures forall a :: Step(cfg, fw, op).leaked[a] == fw.leaked[a] + FailedIn(fw, op, a)
    ensures Step(cfg, fw, op).addedJump == fw.addedJump
    ensures !op.InsertRule? && !op.DeleteRule? ==> Step(cfg, fw, op).rules.input == fw.rules.input
  {
    hide Open, Close, Tick, Balanced, Failures, Released;
    match op
    case OpenOp(ip, now, ok) => OpenInv(cfg, fw, ip, now, ok);
    case CloseOp(ip, ok) => CloseInv(cfg, fw, ip, ok);
    case TickOp(now, oks) => TickInv(cfg, fw, now, oks);
    case InsertRule(_, _) =>
    case DeleteRule(_) =>
  }

  lemma {:induction false} RunInv(cfg: Settings, states: seq<Fw>, ops: seq<Op>, k: nat)
    requires IsRun(cfg, states, ops) && k <= |ops|
    ensures Inv(cfg, states[k])
    ensures states[k].addedJump == states[0].addedJump
  {
    hide Step;
    if k > 0 {
      assert Takes(cfg, states, ops, k - 1);
      RunInv(cfg, states, ops, k - 1);
      StepInv(cfg, states[k - 1], ops[k - 1]);
    }
  }

  lemma {:induction false} LeakedIsFailed(cfg: Settings, states: seq<Fw>, ops: seq<Op>, k: nat, a: Address)
    requires IsRun(cfg, states, ops) && k <= |ops|
    ensures states[k].leaked[a] == states[0].leaked[a] + FailedDeletes(cfg, states, ops, k, a)
  {
    hide Step, FailedIn;
    if k > 0 {
      assert Takes(cfg, states, ops, k - 1);
      RunInv(cfg, states, ops, k - 1);
      LeakedIsFailed(cfg, states, ops, k - 1, a);
      StepInv(cfg, states[k - 1], ops[k - 1]);
    }
  }

  lemma {:induction false} NoneFailed(cfg: Settings, states: seq<Fw>, ops: seq<Op>, k: nat, a: Address)
    requires IsRun(cfg, states, ops) && k <= |ops| && forall i :: 0 <= i < k ==> DeletesSucceed(ops[i])
    ensures FailedDeletes(cfg, states, ops, k, a) == 0
  {
    hide Step;
    if k > 0 {
      assert Takes(cfg, states, ops, k - 1);
      RunInv(cfg, states, ops, k - 1);
      NoneFailed(cfg, states, ops, k - 1, a);
      if ops[k - 1].TickOp? {
        NoFailures(Released(states[k - 1], ops[k - 1].now), ops[k - 1].oks, 0, a);
      }
    }
  }

  /** Conservation: after any run from a successful init, whatever iptables did, an address
      has one rule if it has an active grant, plus one for each of its deletes that failed; no
      other rule is in the chain, and no two active grants share an address. */
  lemma Conservation(cfg: Settings, fw0: Fw, o: InitOutcome, states: seq<Fw>, ops: seq<Op>, k: nat, r: GrantRule)
    requires cfg.Valid() && Init(cfg, fw0, o).1 && |states| > 0 && states[0] == Init(cfg, fw0, o).0
    requires IsRun(cfg, states, ops) && k <= |ops|
    ensures var fw := states[k];
            && fw.grants.Some? && fw.rules.chain.Some?
            && DistinctGrants(fw.grants.value)
            && fw.rules.chain.value[r]
               == if r.dport == cfg.protectedPort
                  then (if Active(fw.grants.value, r.source) then 1 else 0) + FailedDeletes(cfg, states, ops, k, r.source)
                  else 0
  {
    hide Init;
    InitInv(cfg, fw0, o);
    RunInv(cfg, states, ops, k);
    LeakedIsFailed(cfg, states, ops, k, r.source);
  }

  /** With no failed delete since init the chain is exactly the active grants, once each. */
  lemma ChainIsGrants(cfg: Settings, fw0: Fw, o: InitOutcome, states: seq<Fw>, ops: seq<Op>, k: nat, r: GrantRule)
    requires cfg.Valid() && Init(cfg, fw0, o).1 && |states| > 0 && states[0] == Init(cfg, fw0, o).0
    requires IsRun(cfg, states, ops) && k <= |ops|
    requires forall i :: 0 <= i < k ==> DeletesSucceed(ops[i])
    ensures states[k].rules.chain.Some? && states[k].grants.Some?
    ensures states[k].rules.chain.value[r] <= 1
    ensures r in states[k].rules.chain.value <==>
            r.dport == cfg.protectedPort && Active(states[k].grants.value, r.source)
  {
    hide Init;
    Conservation(cfg, fw0, o, states, ops, k, r);
    NoneFailed(cfg, states, ops, k, r.source);
  }

  // ---------- what the rules mean ----------

  /** While the jump is first, a packet is accepted if it is TCP to the protected port from
      an address with an active grant or a leaked rule; any other gets the operator's verdict. */
  lemma HookMeaning(cfg: Settings, fw: Fw, decide: (nat, Packet) -> Decision, policy: Decision, p: Packet)
    requires Inv(cfg, fw)
    requires fw.rules.input != [] && fw.rules.input[0] == Jump
    ensures Verdict(fw.rules.input, fw.rules.chain, decide, policy, p)
         == if p.tcp && p.dport == cfg.protectedPort && (Active(fw.grants.value, p.src) || p.src in fw.leaked) then Accept
            else Verdict(OperatorRules(fw.rules.input), None, decide, policy, p)
  {
    var r := GrantRule(p.src, p.dport);
    assert fw.rules.chain.value[r] ==
      if r.dport == cfg.protectedPort then Held(fw.grants.value, r.source) + fw.leaked[r.source] else 0;
    if !ChainAccepts(fw.rules.chain, p) {
      JumpsTransparent(fw.rules.input, fw.rules.chain, decide, policy, p);
    }
  }

  /** The firewall's meaning over runs: with the jump first after init, no failed delete and
      no operator edit, every packet is judged so after every operation, by the rules the
      operator had before init. */
  lemma RunMeaning(cfg: Settings, fw0: Fw, o: InitOutcome, states: seq<Fw>, ops: seq<Op>, k: nat,
                   decide: (nat, Packet) -> Decision, policy: Decision, p: Packet)
    requires cfg.Valid() && Init(cfg, fw0, o).1 && |states| > 0 && states[0] == Init(cfg, fw0, o).0
    requires IsRun(cfg, states, ops) && k <= |ops|
    requires states[0].rules.input != [] && states[0].rules.input[0] == Jump
    requires forall i :: 0 <= i < k ==> DeletesSucceed(ops[i]) && !ops[i].InsertRule? && !ops[i].DeleteRule?
    ensures states[k].grants.Some?
    ensures Verdict(states[k].rules.input, states[k].rules.chain, decide, policy, p)
         == if p.tcp && p.dport == cfg.protectedPort && Active(states[k].grants.value, p.src) then Accept
            else Verdict(OperatorRules(fw0.rules.input), None, decide, policy, p)
  {
    InitInv(cfg, fw0, o);
    RunInv(cfg, states, ops, k);
    LeakedIsFailed(cfg, states, ops, k, p.src);
    NoneFailed(cfg, states, ops, k, p.src);
    InputKept(cfg, states, ops, k);
    HookMeaning(cfg, states[k], decide, policy, p);
    InitKeepsRules(cfg, fw0, o);
  }

  lemma {:induction false} InputKept(cfg: Settings, states: seq<Fw>, ops: seq<Op>, k: nat)
    requires IsRun(cfg, states, ops) && k <= |ops|
    requires forall i :: 0 <= i < k ==> !ops[i].InsertRule? && !ops[i].DeleteRule?
    ensures states[k].rules.input == states[0].rules.input
  {
    if k > 0 {
      assert Takes(cfg, states, ops, k - 1);
      InputKept(cfg, states, ops, k - 1);
      RunInv(cfg, states, ops, k - 1);
      StepInv(cfg, states[k - 1], ops[k - 1]);
    }
  }

  lemma InitKeepsRules(cfg: Settings, fw: Fw, o: InitOutcome)
    requires cfg.Valid()
    ensures OperatorRules(Init(cfg, fw, o).0.rules.input) == OperatorRules(fw.rules.input)
  {
    assert ([Jump] + fw.rules.input)[1..] == fw.rules.input;
  }

  // ---------- the operator's INPUT ----------

  /** INPUT as it is without the jump knockd added. */
  function OwnInput(fw: Fw): seq<Rule> {
    if fw.addedJump then WithoutJump(fw.rules.input) else fw.rules.input
  }

  /** An operator's edit, as it acts on a list that lacks knockd's jump. */
  function EditOwn(fw: Fw, own: seq<Rule>, op: Op): seq<Rule> {
    var seen := (i: nat) => if fw.addedJump then Seen(fw.rules.input, i) else i;
    match op
    case InsertRule(at, id) => if seen(at) <= |own| then InsertAt(own, seen(at), Operator(id)) else own
    case DeleteRule(at) => if seen(at) < |own| then DeleteAt(own, seen(at)) else own
    case _ => own
  }

  /** The operator's list after k operations: what INPUT was before init, with the
      operator's own edits and nothing else. */
  function OperatorList(states: seq<Fw>, ops: seq<Op>, start: seq<Rule>, k: nat): seq<Rule>
    requires k <= |ops| && |states| == |ops| + 1
  {
    if k == 0 then start
    else EditOwn(states[k - 1], OperatorList(states, ops, start, k - 1), ops[k - 1])
  }

  lemma StepKeepsOwn(cfg: Settings, fw: Fw, op: Op)
    requires Inv(cfg, fw) && Allowed(fw, op)
    requires fw.addedJump ==> Jump in fw.rules.input
    ensures var fw' := Step(cfg, fw, op);
            && OwnInput(fw') == EditOwn(fw, OwnInput(fw), op)
            && (fw'.addedJump ==> Jump in fw'.rules.input)
  {
    StepInv(cfg, fw, op);
    if fw.addedJump {
      match op
      case InsertRule(at, id) => InsertCommutes(fw.rules.input, at, Operator(id));
      case DeleteRule(at) => DeleteCommutes(fw.rules.input, at);
      case _ =>
    }
  }

  /** Init puts its jump first and changes nothing else in INPUT. */
  lemma InitKeepsOwn(cfg: Settings, fw: Fw, o: InitOutcome)
    requires cfg.Valid() && !fw.addedJump
    ensures var (fw', ok) := Init(cfg, fw, o);
            && OwnInput(fw') == fw.rules.input
            && (fw'.addedJump ==> fw'.rules.input == [Jump] + fw.rules.input)
            && (ok ==> Jump in fw'.rules.input)
  {
    FirstJumpAt([Jump] + fw.rules.input, 0);
    assert DeleteAt([Jump] + fw.rules.input, 0) == fw.rules.input;
  }

  /** A jump that is found is left alone, and is not knockd's to take away; only if none is
      found is one inserted. A failed init leaves INPUT as it was. */
  lemma InitHooks(cfg: Settings, fw: Fw, o: InitOutcome)
    requires cfg.Valid()
    ensures var (fw', ok) := Init(cfg, fw, o);
            if ok && !(o.check && Jump in fw.rules.input)
            then fw'.rules.input == [Jump] + fw.rules.input && fw'.addedJump
            else fw'.rules.input == fw.rules.input && fw'.addedJump == fw.addedJump
  {
  }

  lemma {:induction false} RunKeepsOwn(cfg: Settings, states: seq<Fw>, ops: seq<Op>, start: seq<Rule>, k: nat)
    requires IsRun(cfg, states, ops) && k <= |ops|
    requires OwnInput(states[0]) == start && (states[0].addedJump ==> Jump in states[0].rules.input)
    ensures OwnInput(states[k]) == OperatorList(states, ops, start, k)
    ensures states[k].addedJump ==> Jump in states[k].rules.input
  {
    hide OwnInput, EditOwn, Step;
    if k > 0 {
      assert Takes(cfg, states, ops, k - 1);
      RunKeepsOwn(cfg, states, ops, start, k - 1);
      RunInv(cfg, states, ops, k - 1);
      StepKeepsOwn(cfg, states[k - 1], ops[k - 1]);
    }
  }

  /** The whole life: through init and any run, INPUT without knockd's jump is the operator's
      list; and after shutdown, if no step of it fails, INPUT is that list itself, with the
      chain empty, or gone when knockd had added the only jump. */
  lemma Lifecycle(cfg: Settings, fw0: Fw, o: InitOutcome, states: seq<Fw>, ops: seq<Op>, k: nat)
    requires cfg.Valid() && !fw0.addedJump
    requires Init(cfg, fw0, o).1 && |states| > 0 && states[0] == Init(cfg, fw0, o).0
    requires IsRun(cfg, states, ops) && k <= |ops|
    ensures var own := OperatorList(states, ops, fw0.rules.input, k);
            var end := Shutdown(states[k], true, true, true);
            && OwnInput(states[k]) == own
            && end.rules.input == own
            && end.rules.chain == (if states[k].addedJump && Jump !in own then None else Some(multiset{}))
  {
    hide Init, Shutdown, OwnInput, OperatorList;
    InitKeepsOwn(cfg, fw0, o);
    RunInv(cfg, states, ops, 0);
    RunKeepsOwn(cfg, states, ops, fw0.rules.input, k);
    RunInv(cfg, states, ops, k);
    ShutdownRestores(cfg, states[k]);
  }

  lemma ShutdownRestores(cfg: Settings, fw: Fw)
    requires Inv(cfg, fw) && (fw.addedJump ==> Jump in fw.rules.input)
    ensures var end := Shutdown(fw, true, true, true);
            && end.rules.input == OwnInput(fw)
            && end.rules.chain == (if fw.addedJump && Jump !in OwnInput(fw) then None else Some(multiset{}))
  {
  }

  /** Whatever fails during shutdown, no rule of the operator's is lost or reordered, and a
      flush that worked revokes every grant. The chain goes exactly if it was knockd that hooked
      it, every step it depends on worked, and no other jump uses it. */
  lemma ShutdownSafe(cfg: Settings, fw: Fw, flushOk: bool, unhookOk: bool, delOk: bool)
    requires Inv(cfg, fw) && (fw.addedJump ==> Jump in fw.rules.input)
    ensures var end := Shutdown(fw, flushOk, unhookOk, delOk);
            var emptied := flushOk || fw.rules.chain == Some(multiset{});
            && end.grants == None
            && end.rules.input == (if unhookOk then OwnInput(fw) else fw.rules.input)
            && end.rules.chain == (if fw.addedJump && unhookOk && delOk && emptied && Jump !in OwnInput(fw) then None
                                   else if emptied then Some(multiset{}) else fw.rules.chain)
  {
  }

  // ---------- bounded expiry ----------

  /** How many of the first n slots hold a grant that runs out before horizon. */
  function Pending(g: seq<Grant>, n: nat, horizon: int): nat
    requires n <= |g|
  {
    if n == 0 then 0
    else Pending(g, n - 1, horizon) + if g[n - 1].active && g[n - 1].expiresAt < horizon then 1 else 0
  }

  lemma {:induction false} PendingUpdate(g: seq<Grant>, n: nat, horizon: int, i: nat, x: Grant)
    requires n <= |g| && i < |g|
    ensures Pending(g[i := x], n, horizon) + (if i < n && g[i].active && g[i].expiresAt < horizon then 1 else 0)
         == Pending(g, n, horizon) + (if i < n && x.active && x.expiresAt < horizon then 1 else 0)
  {
    if n > 0 {
      PendingUpdate(g, n - 1, horizon, i, x);
    }
  }

  lemma {:induction false} PendingBound(g: seq<Grant>, n: nat, horizon: int)
    requires n <= |g|
    ensures Pending(g, n, horizon) <= n
  {
    if n > 0 {
      PendingBound(g, n - 1, horizon);
    }
  }

  /** A pass that does not reach an expired slot has released room grants below it. */
  lemma {:induction false} ExpireProgress(g: seq<Grant>, now: int, from: nat, room: nat, i: nat, horizon: int)
    requires from <= i < |g| && now < horizon && g[i].active && now >= g[i].expiresAt
    ensures var h := Expire(g, now, from, room).0;
            || h[i] == g[i].(active := false)
            || (h[i] == g[i] && Pending(h, i, horizon) + room == Pending(g, i, horizon))
    decreases i - from
  {
    if room > 0 {
      if from == i {
        BelowKept(g[i := g[i].(active := false)], now, i + 1, room - 1, i);
      } else if g[from].active && now >= g[from].expiresAt {
        var x := g[from].(active := false);
        PendingUpdate(g, i, horizon, from, x);
        ExpireProgress(g[from := x], now, from + 1, room - 1, i, horizon);
      } else {
        ExpireProgress(g, now, from + 1, room, i, horizon);
      }
    }
  }

  lemma {:induction false} BelowKept(g: seq<Grant>, now: int, from: nat, room: nat, i: nat)
    requires i < from <= |g|
    ensures Expire(g, now, from, room).0[i] == g[i]
    decreases |g| - from
  {
    if from < |g| && room > 0 {
      if g[from].active && now >= g[from].expiresAt {
        BelowKept(g[from := g[from].(active := false)], now, from + 1, room - 1, i);
      } else {
        BelowKept(g, now, from + 1, room, i);
      }
    }
  }

  /** The address has no grant, or one that runs until horizon at least. */
  ghost predicate ClosedOrExtended(fw: Fw, a: Address, horizon: int)
    requires fw.grants.Some?
  {
    forall i :: 0 <= i < |fw.grants.value| && fw.grants.value[i].active && fw.grants.value[i].ip == a ==>
      fw.grants.value[i].expiresAt >= horizon
  }

  /** Operations from time t0 on, with ticks before horizon. */
  ghost predicate InSpan(op: Op, t0: int, horizon: int) {
    match op
    case OpenOp(_, now, _) => t0 <= now
    case TickOp(now, _) => t0 <= now < horizon
    case _ => true
  }

  lemma {:induction false} ExpireOnlyReleases(g: seq<Grant>, now: int, from: nat, room: nat)
    requires from <= |g|
    ensures var h := Expire(g, now, from, room).0;
            forall j :: 0 <= j < |g| ==>
              h[j] == g[j] || (g[j].active && now >= g[j].expiresAt && h[j] == g[j].(active := false))
    decreases |g| - from
  {
    if from < |g| && room > 0 {
      if g[from].active && now >= g[from].expiresAt {
        ExpireOnlyReleases(g[from := g[from].(active := false)], now, from + 1, room - 1);
        BelowKept(g[from := g[from].(active := false)], now, from + 1, room - 1, from);
      } else {
        ExpireOnlyReleases(g, now, from + 1, room);
      }
    }
  }

  /** Either the grant of slot i is settled, or it is still there with at least done fewer
      grants below it that run out before horizon. */
  ghost predicate Progress(fw: Fw, fw': Fw, i: nat, horizon: int, done: nat)
    requires fw.grants.Some? && i < |fw.grants.value|
  {
    && fw'.grants.Some? && |fw'.grants.value| == |fw.grants.value|
    && (|| ClosedOrExtended(fw', fw.grants.value[i].ip, horizon)
        || (&& fw'.grants.value[i] == fw.grants.value[i]
            && Pending(fw'.grants.value, i, horizon) + done <= Pending(fw.grants.value, i, horizon)))
  }

  lemma OpenProgress(cfg: Settings, fw: Fw, ip: Address, now: int, ok: bool, i: nat, t0: int)
    requires Inv(cfg, fw) && t0 <= now
    requires i < |fw.grants.value| && fw.grants.value[i].active && fw.grants.value[i].expiresAt <= t0
    ensures Progress(fw, Open(cfg, fw, ip, now, ok).0, i, t0 + cfg.accessTimeout, 0)
  {
    hide Balanced, Run;
    var g, horizon, until := fw.grants.value, t0 + cfg.accessTimeout, now + cfg.accessTimeout;
    match FindGrant(g, ip)
    case Some(j) =>
      PendingUpdate(g, i, horizon, j, g[j].(expiresAt := until));
    case None =>
      if FreeFrom(g, 0).Some? {
        var j := FreeFrom(g, 0).value;
        PendingUpdate(g, i, horizon, j, Grant(ip, until, true));
        PendingUpdate(g, i, horizon, j, Grant(ip, until, false));
      }
  }

  lemma CloseProgress(cfg: Settings, fw: Fw, ip: Address, ok: bool, i: nat, horizon: int)
    requires Inv(cfg, fw)
    requires i < |fw.grants.value| && fw.grants.value[i].active
    ensures Progress(fw, Close(cfg, fw, ip, ok).0, i, horizon, 0)
  {
    hide Balanced, Run;
    var g := fw.grants.value;
    match FindGrant(g, ip)
    case Some(j) => PendingUpdate(g, i, horizon, j, g[j].(active := false));
    case None =>
  }

  lemma TickProgress(cfg: Settings, fw: Fw, now: int, oks: seq<bool>, i: nat, horizon: int)
    requires Inv(cfg, fw) && |oks| == MAX_EXPIRY_PER_TICK && now < horizon
    requires i < |fw.grants.value| && fw.grants.value[i].active && fw.grants.value[i].expiresAt <= now
    ensures Progress(fw, Tick(cfg, fw, now, oks), i, horizon, MAX_EXPIRY_PER_TICK)
  {
    hide Balanced, Tick;
    var g := fw.grants.value;
    TickInv(cfg, fw, now, oks);
    ExpireProgress(g, now, 0, MAX_EXPIRY_PER_TICK, i, horizon);
    ExpireOnlyReleases(g, now, 0, MAX_EXPIRY_PER_TICK);
  }

  lemma StepProgress(cfg: Settings, fw: Fw, op: Op, i: nat, t0: int)
    requires Inv(cfg, fw) && Allowed(fw, op) && InSpan(op, t0, t0 + cfg.accessTimeout)
    requires i < |fw.grants.value| && fw.grants.value[i].active && fw.grants.value[i].expiresAt <= t0
    ensures Progress(fw, Step(cfg, fw, op), i, t0 + cfg.accessTimeout, if op.TickOp? then MAX_EXPIRY_PER_TICK else 0)
  {
    hide Open, Close, Tick, Balanced;
    match op
    case OpenOp(ip, now, ok) => OpenProgress(cfg, fw, ip, now, ok, i, t0);
    case CloseOp(ip, ok) => CloseProgress(cfg, fw, ip, ok, i, t0 + cfg.accessTimeout);
    case TickOp(now, oks) => TickProgress(cfg, fw, now, oks, i, t0 + cfg.accessTimeout);
    case InsertRule(_, _) =>
    case DeleteRule(_) =>
  }

  function Ticks(ops: seq<Op>, k: nat): nat
    requires k <= |ops|
  {
    if k == 0 then 0 else Ticks(ops, k - 1) + if ops[k - 1].TickOp? then 1 else 0
  }

  lemma {:induction false} StillWaiting(cfg: Settings, states: seq<Fw>, ops: seq<Op>, k: nat, i: nat, t0: int)
    requires IsRun(cfg, states, ops) && k <= |ops|
    requires forall p :: 0 <= p < |ops| ==> InSpan(ops[p], t0, t0 + cfg.accessTimeout)
    requires var g := states[0].grants.value;
             i < |g| && g[i].active && g[i].expiresAt <= t0
    requires forall p :: 0 <= p <= k ==>
               states[p].grants.Some? && !ClosedOrExtended(states[p], states[0].grants.value[i].ip, t0 + cfg.accessTimeout)
    ensures var g := states[k].grants.value;
            && |g| == |states[0].grants.value| && g[i] == states[0].grants.value[i]
            && Pending(g, i, t0 + cfg.accessTimeout) + MAX_EXPIRY_PER_TICK * Ticks(ops, k) <= i
  {
    if k == 0 {
      PendingBound(states[0].grants.value, i, t0 + cfg.accessTimeout);
    } else {
      StillWaiting(cfg, states, ops, k - 1, i, t0);
      assert Takes(cfg, states, ops, k - 1);
      RunInv(cfg, states, ops, k - 1);
      StepProgress(cfg, states[k - 1], ops[k - 1], i, t0);
    }
  }

  /** Bounded expiry: a grant in slot i that has run out at t0 is closed or extended within
      i / 16 + 1 ticks read before t0 + accessTimeout, whatever is opened and closed in
      between: a tick that misses it closes 16 lower slots, none of which can run out again
      that soon. */
  lemma ExpiryBound(cfg: Settings, states: seq<Fw>, ops: seq<Op>, k: nat, i: nat, t0: int)
    requires IsRun(cfg, states, ops) && k <= |ops|
    requires forall p :: 0 <= p < |ops| ==> InSpan(ops[p], t0, t0 + cfg.accessTimeout)
    requires var g := states[0].grants.value;
             i < |g| && g[i].active && g[i].expiresAt <= t0
    requires Ticks(ops, k) >= i / MAX_EXPIRY_PER_TICK + 1
    ensures exists p :: 0 <= p <= k && states[p].grants.Some?
              && ClosedOrExtended(states[p], states[0].grants.value[i].ip, t0 + cfg.accessTimeout)
  {
    forall p | 0 <= p <= k
      ensures states[p].grants.Some?
    {
      RunInv(cfg, states, ops, p);
    }
    if forall p :: 0 <= p <= k ==> !ClosedOrExtended(states[p], states[0].grants.value[i].ip, t0 + cfg.accessTimeout) {
      StillWaiting(cfg, states, ops, k, i, t0);
      assert false;
    }
  }

  // ---------- access lasts ----------

  /** The operation cannot take a grant from a before its deadline. */
  predicate Spares(op: Op, a: Address, deadline: int) {
    match op
    case CloseOp(ip, _) => ip != a
    case TickOp(now, _) => now < deadline
    case _ => true
  }

  lemma StepSpares(cfg: Settings, fw: Fw, op: Op, a: Address, deadline: int)
    requires Inv(cfg, fw) && Allowed(fw, op) && Spares(op, a, deadline)
    requires Expiry(fw, a).Some? && Expiry(fw, a).value >= deadline
    requires op.OpenOp? ==> op.now + cfg.accessTimeout >= deadline
    ensures var fw' := Step(cfg, fw, op);
            fw'.grants.Some? && Expiry(fw', a).Some? && Expiry(fw', a).value >= deadline
  {
    hide Balanced, Run, Tick, Open;
    StepInv(cfg, fw, op);
    var i := FindGrant(fw.grants.value, a).value;
    match op
    case OpenOp(ip, now, ok) => OpenOutcome(cfg, fw, ip, now, ok);
    case CloseOp(ip, ok) => GrantAt(Step(cfg, fw, op).grants.value, i);
    case TickOp(now, oks) =>
      TickInv(cfg, fw, now, oks);
      ExpireOnlyReleases(fw.grants.value, now, 0, MAX_EXPIRY_PER_TICK);
      GrantAt(Step(cfg, fw, op).grants.value, i);
    case InsertRule(_, _) =>
    case DeleteRule(_) =>
  }

  /** Access lasts: a grant with a deadline stays in force, with its rule in the chain, through
      any operations that do not close it, as long as ticks read times before the deadline. */
  lemma {:induction false} AccessLasts(cfg: Settings, states: seq<Fw>, ops: seq<Op>, k: nat, a: Address, deadline: int)
    requires IsRun(cfg, states, ops) && k <= |ops|
    requires Inv(cfg, states[0]) && Expiry(states[0], a).Some? && Expiry(states[0], a).value >= deadline
    requires forall p :: 0 <= p < k ==> Spares(ops[p], a, deadline)
    requires forall p :: 0 <= p < k && ops[p].OpenOp? ==> ops[p].now + cfg.accessTimeout >= deadline
    ensures states[k].grants.Some? && states[k].rules.chain.Some?
    ensures Expiry(states[k], a).Some? && Expiry(states[k], a).value >= deadline
    ensures RuleFor(cfg, a) in states[k].rules.chain.value
  {
    hide Step, Allowed;
    RunInv(cfg, states, ops, k);
    if k > 0 {
      assert Takes(cfg, states, ops, k - 1);
      AccessLasts(cfg, states, ops, k - 1, a, deadline);
      RunInv(cfg, states, ops, k - 1);
      StepSpares(cfg, states[k - 1], ops[k - 1], a, deadline);
    }
    assert Held(states[k].grants.value, a) == 1;
  }
}
