/** knockd's grants and the rules they stand for: the firewall manager as functions on its
    state (src/firewall.c). The imperative form is in module Firewall. */
module GrantTable {
  import opened Common
  import opened Netfilter

  const MAX_EXPIRY_PER_TICK: nat := 16

  datatype Grant = Grant(ip: Address, expiresAt: int, active: bool)

  const ZERO_GRANT := Grant(0, 0, false)

  /** grants is None before a successful init and after shutdown. leaked is bookkeeping for
      the proofs: the addresses whose rule a failed delete left behind, once per failure. */
  datatype Fw = Fw(grants: Option<seq<Grant>>, addedJump: bool, rules: Ruleset, leaked: multiset<Address>)

  function RuleFor(cfg: Settings, ip: Address): GrantRule {
    GrantRule(ip, cfg.protectedPort)
  }

  // ---------- the table ----------

  predicate Active(g: seq<Grant>, a: Address) {
    exists i :: 0 <= i < |g| && g[i].active && g[i].ip == a
  }

  ghost predicate DistinctGrants(g: seq<Grant>) {
    forall i, j :: 0 <= i < j < |g| && g[i].active && g[j].active ==> g[i].ip != g[j].ip
  }

  function GrantFrom(g: seq<Grant>, ip: Address, from: nat): (r: Option<nat>)
    requires from <= |g|
    ensures r.Some? ==> from <= r.value < |g| && g[r.value].active && g[r.value].ip == ip
    ensures r.None? ==> forall i :: from <= i < |g| ==> !(g[i].active && g[i].ip == ip)
    decreases |g| - from
  {
    if from == |g| then None
    else if g[from].active && g[from].ip == ip then Some(from)
    else GrantFrom(g, ip, from + 1)
  }

  function FindGrant(g: seq<Grant>, ip: Address): Option<nat> {
    GrantFrom(g, ip, 0)
  }

  function FreeFrom(g: seq<Grant>, from: nat): (r: Option<nat>)
    requires from <= |g|
    ensures r.Some? ==> from <= r.value < |g| && !g[r.value].active
    ensures r.Some? ==> forall i :: from <= i < r.value ==> g[i].active
    ensures r.None? ==> forall i :: from <= i < |g| ==> g[i].active
    decreases |g| - from
  {
    if from == |g| then None
    else if !g[from].active then Some(from)
    else FreeFrom(g, from + 1)
  }

  // ---------- operations ----------

  /** How each step of an init fares. */
  datatype InitOutcome = InitOutcome(alloc: bool, newChain: bool, flush: bool, check: bool, add: bool)

  function EmptyGrants(cfg: Settings): seq<Grant>
    requires cfg.Valid()
  {
    seq(cfg.maxClients, _ => ZERO_GRANT)
  }

  function Init(cfg: Settings, fw: Fw, o: InitOutcome): (Fw, bool)
    requires cfg.Valid()
  {
    if !o.alloc then (fw.(grants := None), false)
    else
      var created := Run(fw.rules, NewChain, o.newChain).0;
      var (flushed, flushOk) := Run(created, FlushChain, o.flush);
      var base := fw.(grants := None, rules := flushed);
      if !flushOk then (base, false)
      else
        var ready := base.(grants := Some(EmptyGrants(cfg)), leaked := multiset{});
        if Run(flushed, CheckJump, o.check).1 then (ready, true)
        else
          var (hooked, addOk) := Run(flushed, InsertJump, o.add);
          if addOk then (ready.(rules := hooked, addedJump := true), true)
          else (base.(leaked := multiset{}), false)
  }

  /** Extend a grant the address already has, else insert a rule for a new one. */
  function Open(cfg: Settings, fw: Fw, ip: Address, now: int, ok: bool): (Fw, bool) {
    match fw.grants
    case None => (fw, false)
    case Some(g) =>
      var until := now + cfg.accessTimeout;
      match FindGrant(g, ip)
      case Some(i) => (fw.(grants := Some(g[i := g[i].(expiresAt := until)])), true)
      case None =>
        match FreeFrom(g, 0)
        case None => (fw, false)
        case Some(i) =>
          var (rules, done) := Run(fw.rules, InsertGrant(RuleFor(cfg, ip)), ok);
          (fw.(grants := Some(g[i := Grant(ip, until, done)]), rules := rules), done)
  }

  /** Delete one address's rule; a failure leaves it behind. */
  function Revoke(cfg: Settings, fw: Fw, ip: Address, ok: bool): (Fw, bool) {
    var (rules, done) := Run(fw.rules, DeleteGrant(RuleFor(cfg, ip)), ok);
    (fw.(rules := rules, leaked := if done then fw.leaked else fw.leaked + multiset{ip}), done)
  }

  function Close(cfg: Settings, fw: Fw, ip: Address, ok: bool): (Fw, bool) {
    match fw.grants
    case None => (fw, false)
    case Some(g) =>
      match FindGrant(g, ip)
      case None => (fw, true)
      case Some(i) => Revoke(cfg, fw.(grants := Some(g[i := g[i].(active := false)])), ip, ok)
  }

  /** Release the first room expired grants from slot from on, and say whose they were. */
  function Expire(g: seq<Grant>, now: int, from: nat, room: nat): (r: (seq<Grant>, seq<Address>))
    requires from <= |g|
    ensures |r.0| == |g| && |r.1| <= room
    decreases |g| - from
  {
    if from == |g| || room == 0 then (g, [])
    else if g[from].active && now >= g[from].expiresAt then
      var (h, ips) := Expire(g[from := g[from].(active := false)], now, from + 1, room - 1);
      (h, [g[from].ip] + ips)
    else Expire(g, now, from + 1, room)
  }

  /** Delete the rules of ips from the i-th on; oks says how each delete fares. */
  function RevokeFrom(cfg: Settings, fw: Fw, ips: seq<Address>, oks: seq<bool>, i: nat): Fw
    requires i <= |ips| <= |oks|
    decreases |ips| - i
  {
    if i == |ips| then fw
    else RevokeFrom(cfg, Revoke(cfg, fw, ips[i], oks[i]).0, ips, oks, i + 1)
  }

  function Tick(cfg: Settings, fw: Fw, now: int, oks: seq<bool>): Fw
    requires |oks| == MAX_EXPIRY_PER_TICK
  {
    match fw.grants
    case None => fw
    case Some(g) =>
      var (h, ips) := Expire(g, now, 0, MAX_EXPIRY_PER_TICK);
      RevokeFrom(cfg, fw.(grants := Some(h)), ips, oks, 0)
  }

  function Shutdown(fw: Fw, flushOk: bool, unhookOk: bool, delOk: bool): Fw {
    if fw.grants == None then fw
    else
      var (flushed, emptied) := Run(fw.rules, FlushChain, flushOk);
      var left := if emptied then multiset{} else fw.leaked;
      var done :=
        if !fw.addedJump then flushed
        else
          var (unhooked, removed) := Run(flushed, DeleteJump, unhookOk);
          if removed then Run(unhooked, DeleteChain, delOk).0 else unhooked;
      fw.(grants := None, rules := done, leaked := left)
  }

  /** Before init, after a failed one and after shutdown nothing touches the firewall. */
  lemma Uninitialised(cfg: Settings, fw: Fw, ip: Address, now: int, ok: bool, oks: seq<bool>)
    requires fw.grants == None && |oks| == MAX_EXPIRY_PER_TICK
    ensures Open(cfg, fw, ip, now, ok) == (fw, false) && Close(cfg, fw, ip, ok) == (fw, false)
    ensures Tick(cfg, fw, now, oks) == fw && Shutdown(fw, ok, ok, ok) == fw
  {
  }

  // ---------- conservation ----------

  function Held(g: seq<Grant>, a: Address): nat {
    if Active(g, a) then 1 else 0
  }

  /** The chain holds, for each address: its grant's rule, one more for each of its grants
      released but not yet deleted, one for each delete that failed; and nothing else. */
  ghost predicate Balanced(cfg: Settings, g: seq<Grant>, pending: multiset<Address>, leaked: multiset<Address>,
                           chain: multiset<GrantRule>)
  {
    forall r: GrantRule :: chain[r] ==
      if r.dport == cfg.protectedPort then Held(g, r.source) + pending[r.source] + leaked[r.source] else 0
  }

  ghost predicate Inv(cfg: Settings, fw: Fw) {
    && cfg.Valid()
    && fw.grants.Some? && fw.rules.chain.Some?
    && |fw.grants.value| == cfg.maxClients
    && DistinctGrants(fw.grants.value)
    && Balanced(cfg, fw.grants.value, multiset{}, fw.leaked, fw.rules.chain.value)
  }

  lemma HeldUpdate(g: seq<Grant>, i: nat, x: Grant, a: Address)
    requires i < |g| && DistinctGrants(g)
    requires g[i].active ==> x.ip == g[i].ip
    requires !g[i].active && x.active ==> !Active(g, x.ip)
    ensures DistinctGrants(g[i := x])
    ensures Held(g[i := x], a)
            == if a == x.ip && (g[i].active || x.active) then (if x.active then 1 else 0) else Held(g, a)
  {
    var h := g[i := x];
    if Active(h, a) {
      var j :| 0 <= j < |h| && h[j].active && h[j].ip == a;
      assert j != i ==> g[j].active && g[j].ip == a;
    }
    if Active(g, a) {
      var j :| 0 <= j < |g| && g[j].active && g[j].ip == a;
      assert j != i ==> h[j].active && h[j].ip == a;
    }
    assert x.active ==> h[i].active;
  }

  lemma InitInv(cfg: Settings, fw: Fw, o: InitOutcome)
    requires cfg.Valid()
    ensures var (fw', ok) := Init(cfg, fw, o);
            && (ok <==> && o.alloc && (fw.rules.chain.Some? || o.newChain) && o.flush
                        && ((o.check && Jump in fw.rules.input) || o.add))
            && (ok ==> Inv(cfg, fw') && fw'.leaked == multiset{} && fw'.rules.chain == Some(multiset{}))
            && (!ok ==> fw'.grants == None)
  {
  }

  lemma OpenInv(cfg: Settings, fw: Fw, ip: Address, now: int, ok: bool)
    requires Inv(cfg, fw)
    ensures Inv(cfg, Open(cfg, fw, ip, now, ok).0)
    ensures var fw' := Open(cfg, fw, ip, now, ok).0;
            fw'.leaked == fw.leaked && fw'.rules.input == fw.rules.input && fw'.addedJump == fw.addedJump
  {
    var g := fw.grants.value;
    var until := now + cfg.accessTimeout;
    forall a
      ensures match FindGrant(g, ip)
              case Some(i) => Held(g[i := g[i].(expiresAt := until)], a) == Held(g, a)
              case None => FreeFrom(g, 0).Some? ==>
                var i := FreeFrom(g, 0).value;
                && Held(g[i := Grant(ip, until, true)], a) == (if a == ip then 1 else Held(g, a))
                && Held(g[i := Grant(ip, until, false)], a) == Held(g, a)
    {
      match FindGrant(g, ip)
      case Some(i) => HeldUpdate(g, i, g[i].(expiresAt := until), a);
      case None =>
        if FreeFrom(g, 0).Some? {
          HeldUpdate(g, FreeFrom(g, 0).value, Grant(ip, until, true), a);
          HeldUpdate(g, FreeFrom(g, 0).value, Grant(ip, until, false), a);
        }
    }
  }

  /** The address already has a grant, or there is a free slot and the insert works. */
  predicate CanOpen(g: seq<Grant>, ip: Address, ok: bool) {
    Active(g, ip) || (ok && exists i :: 0 <= i < |g| && !g[i].active)
  }

  /** An open succeeds if and only if the address already has a grant, or there is a free slot
      and the insert works. Then the address has a rule and a grant until now + accessTimeout;
      otherwise it has no grant, and no rule of another address changes. */
  lemma OpenOutcome(cfg: Settings, fw: Fw, ip: Address, now: int, ok: bool)
    requires Inv(cfg, fw)
    ensures var (fw', done) := Open(cfg, fw, ip, now, ok);
            var g := fw.grants.value;
            && (done <==> CanOpen(g, ip, ok))
            && fw'.grants.Some? && fw'.rules.chain.Some?
            && (done ==> Expiry(fw', ip) == Some(now + cfg.accessTimeout) && RuleFor(cfg, ip) in fw'.rules.chain.value)
            && (!done ==> Expiry(fw', ip) == None && fw'.rules == fw.rules)
            && (forall b :: b != ip ==> Expiry(fw', b) == Expiry(fw, b))
            && (done && !Active(g, ip) ==>
                  exists i :: 0 <= i < |g| && fw'.grants.value[i] == Grant(ip, now + cfg.accessTimeout, true)
                           && !g[i].active && forall j :: 0 <= j < i ==> g[j].active)
  {
    OpenInv(cfg, fw, ip, now, ok);
    var fw' := Open(cfg, fw, ip, now, ok).0;
    var g, g' := fw.grants.value, fw'.grants.value;
    match FindGrant(g, ip) {
      case Some(i) => GrantAt(g', i);
      case None =>
        if FreeFrom(g, 0).Some? && g'[FreeFrom(g, 0).value].active {
          GrantAt(g', FreeFrom(g, 0).value);
        }
    }
    assert fw'.rules.chain.value[RuleFor(cfg, ip)] == Held(g', ip) + fw'.leaked[ip];
    forall b | b != ip
      ensures Expiry(fw', b) == Expiry(fw, b)
    {
      if FindGrant(g, b).Some? {
        GrantAt(g', FindGrant(g, b).value);
      }
    }
  }

  /** When an address's grant runs out; None if it has none. */
  function Expiry(fw: Fw, ip: Address): Option<int>
    requires fw.grants.Some?
  {
    match FindGrant(fw.grants.value, ip)
    case Some(i) => Some(fw.grants.value[i].expiresAt)
    case None => None
  }

  lemma GrantAt(g: seq<Grant>, i: nat)
    requires DistinctGrants(g) && i < |g| && g[i].active
    ensures FindGrant(g, g[i].ip) == Some(i)
  {
  }

  /** A released grant's rule is really there, so its delete fails only if iptables does;
      either way the books still balance. */
  lemma RevokeBalances(cfg: Settings, fw: Fw, ip: Address, pending: multiset<Address>, ok: bool)
    requires fw.grants.Some? && fw.rules.chain.Some? && ip in pending
    requires Balanced(cfg, fw.grants.value, pending, fw.leaked, fw.rules.chain.value)
    ensures var (fw', done) := Revoke(cfg, fw, ip, ok);
            && fw'.grants == fw.grants && fw'.rules.chain.Some? && fw'.rules.input == fw.rules.input
            && fw'.addedJump == fw.addedJump
            && done == ok
            && fw'.leaked == (if ok then fw.leaked else fw.leaked + multiset{ip})
            && Balanced(cfg, fw'.grants.value, pending - multiset{ip}, fw'.leaked, fw'.rules.chain.value)
  {
    assert fw.rules.chain.value[RuleFor(cfg, ip)] > 0;
  }

  lemma CloseInv(cfg: Settings, fw: Fw, ip: Address, ok: bool)
    requires Inv(cfg, fw)
    ensures var (fw', done) := Close(cfg, fw, ip, ok);
            && Inv(cfg, fw')
            && !Active(fw'.grants.value, ip)
            && done == (ok || !Active(fw.grants.value, ip))
            && (!Active(fw.grants.value, ip) ==> fw' == fw)
            && fw'.rules.input == fw.rules.input && fw'.addedJump == fw.addedJump
            && fw'.leaked == (if done then fw.leaked else fw.leaked + multiset{ip})
  {
    var g := fw.grants.value;
    match FindGrant(g, ip)
    case None =>
    case Some(i) =>
      var h := g[i := g[i].(active := false)];
      forall a
        ensures DistinctGrants(h)
        ensures Held(h, a) + multiset{ip}[a] == Held(g, a)
      {
        HeldUpdate(g, i, g[i].(active := false), a);
      }
      RevokeBalances(cfg, fw.(grants := Some(h)), ip, multiset{ip}, ok);
      assert multiset{ip} - multiset{ip} == multiset{};
  }

  /** A close touches no other address's grant. */
  lemma CloseOthers(cfg: Settings, fw: Fw, ip: Address, ok: bool, b: Address)
    requires Inv(cfg, fw) && b != ip
    ensures Close(cfg, fw, ip, ok).0.grants.Some?
    ensures Expiry(Close(cfg, fw, ip, ok).0, b) == Expiry(fw, b)
  {
    hide Balanced;
    CloseInv(cfg, fw, ip, ok);
    if FindGrant(fw.grants.value, b).Some? {
      GrantAt(Close(cfg, fw, ip, ok).0.grants.value, FindGrant(fw.grants.value, b).value);
    }
  }

  /** Expiry turns each active grant it releases into one pending delete, and touches no other. */
  lemma {:induction false} ExpireHeld(g: seq<Grant>, now: int, from: nat, room: nat, a: Address)
    requires from <= |g| && DistinctGrants(g)
    ensures var (h, ips) := Expire(g, now, from, room);
            DistinctGrants(h) && Held(h, a) + multiset(ips)[a] == Held(g, a)
    decreases |g| - from
  {
    if from < |g| && room > 0 {
      if g[from].active && now >= g[from].expiresAt {
        var x := g[from].(active := false);
        var (h, ips) := Expire(g[from := x], now, from + 1, room - 1);
        HeldUpdate(g, from, x, a);
        ExpireHeld(g[from := x], now, from + 1, room - 1, a);
        assert multiset([g[from].ip] + ips) == multiset{g[from].ip} + multiset(ips);
      } else {
        ExpireHeld(g, now, from + 1, room, a);
      }
    }
  }

  /** How many of the deletes from the i-th on are for a and fail. */
  function Failures(ips: seq<Address>, oks: seq<bool>, i: nat, a: Address): nat
    requires i <= |ips| <= |oks|
    decreases |ips| - i
  {
    if i == |ips| then 0
    else (if ips[i] == a && !oks[i] then 1 else 0) + Failures(ips, oks, i + 1, a)
  }

  lemma {:induction false} NoFailures(ips: seq<Address>, oks: seq<bool>, i: nat, a: Address)
    requires i <= |ips| <= |oks| && forall j :: i <= j < |ips| && ips[j] == a ==> oks[j]
    ensures Failures(ips, oks, i, a) == 0
    decreases |ips| - i
  {
    if i < |ips| {
      NoFailures(ips, oks, i + 1, a);
    }
  }

  lemma {:induction false} RevokeFromBalances(cfg: Settings, fw: Fw, ips: seq<Address>, oks: seq<bool>, i: nat)
    requires i <= |ips| <= |oks| && fw.grants.Some? && fw.rules.chain.Some?
    requires Balanced(cfg, fw.grants.value, multiset(ips[i..]), fw.leaked, fw.rules.chain.value)
    ensures var fw' := RevokeFrom(cfg, fw, ips, oks, i);
            && fw'.grants == fw.grants && fw'.rules.chain.Some? && fw'.rules.input == fw.rules.input
            && fw'.addedJump == fw.addedJump
            && (forall a :: fw'.leaked[a] == fw.leaked[a] + Failures(ips, oks, i, a))
            && Balanced(cfg, fw'.grants.value, multiset{}, fw'.leaked, fw'.rules.chain.value)
    decreases |ips| - i
  {
    if i < |ips| {
      assert ips[i..] == [ips[i]] + ips[i + 1..];
      RevokeBalances(cfg, fw, ips[i], multiset(ips[i..]), oks[i]);
      assert multiset(ips[i..]) - multiset{ips[i]} == multiset(ips[i + 1..]);
      RevokeFromBalances(cfg, Revoke(cfg, fw, ips[i], oks[i]).0, ips, oks, i + 1);
    }
  }

  /** What a tick releases: the first expired grants in slot order, at most 16, and whose. */
  function Released(fw: Fw, now: int): (ips: seq<Address>)
    requires fw.grants.Some?
    ensures |ips| <= MAX_EXPIRY_PER_TICK
  {
    Expire(fw.grants.value, now, 0, MAX_EXPIRY_PER_TICK).1
  }

  /** A tick attempts the delete of every grant it releases: for each address exactly its
      failed deletes are leaked, and the books balance. */
  lemma TickInv(cfg: Settings, fw: Fw, now: int, oks: seq<bool>)
    requires Inv(cfg, fw) && |oks| == MAX_EXPIRY_PER_TICK
    ensures var fw' := Tick(cfg, fw, now, oks);
            && Inv(cfg, fw')
            && fw'.grants == Some(Expire(fw.grants.value, now, 0, MAX_EXPIRY_PER_TICK).0)
            && fw'.rules.input == fw.rules.input && fw'.addedJump == fw.addedJump
            && forall a :: fw'.leaked[a] == fw.leaked[a] + Failures(Released(fw, now), oks, 0, a)
  {
    var g := fw.grants.value;
    var (h, ips) := Expire(g, now, 0, MAX_EXPIRY_PER_TICK);
    forall a
      ensures DistinctGrants(h)
      ensures Held(h, a) + multiset(ips)[a] == Held(g, a)
    {
      ExpireHeld(g, now, 0, MAX_EXPIRY_PER_TICK, a);
    }
    assert ips[0..] == ips;
    RevokeFromBalances(cfg, fw.(grants := Some(h)), ips, oks, 0);
  }

  /** One failed delete does not stop the rest: an address released by a tick is released once,
      and if its own delete works and it had no leak before, its rule is gone afterwards. */
  lemma TickDeletes(cfg: Settings, fw: Fw, now: int, oks: seq<bool>, j: nat)
    requires Inv(cfg, fw) && |oks| == MAX_EXPIRY_PER_TICK && j < |Released(fw, now)|
    ensures var ips, fw' := Released(fw, now), Tick(cfg, fw, now, oks);
            && (forall i :: 0 <= i < |ips| && i != j ==> ips[i] != ips[j])
            && fw'.grants.Some? && fw'.rules.chain.Some? && !Active(fw'.grants.value, ips[j])
            && fw'.rules.chain.value[RuleFor(cfg, ips[j])] == fw.leaked[ips[j]] + if oks[j] then 0 else 1
  {
    var g, ips, a := fw.grants.value, Released(fw, now), Released(fw, now)[j];
    var fw' := Tick(cfg, fw, now, oks);
    hide Tick, Expire, Balanced;
    ExpireHeld(g, now, 0, MAX_EXPIRY_PER_TICK, a);
    TickInv(cfg, fw, now, oks);
    OnlyOnce(ips, j);
    OneFailure(ips, oks, 0, j);
    BalancedAt(cfg, fw', a);
  }

  lemma BalancedAt(cfg: Settings, fw: Fw, a: Address)
    requires Inv(cfg, fw)
    ensures fw.rules.chain.value[RuleFor(cfg, a)] == Held(fw.grants.value, a) + fw.leaked[a]
  {
    var r := RuleFor(cfg, a);
    assert fw.rules.chain.value[r] == Held(fw.grants.value, r.source) + fw.leaked[r.source];
  }

  lemma OnlyOnce(ips: seq<Address>, j: nat)
    requires j < |ips|
    ensures multiset(ips)[ips[j]] >= 1
    ensures multiset(ips)[ips[j]] == 1 ==> forall i :: 0 <= i < |ips| && i != j ==> ips[i] != ips[j]
  {
    assert ips == ips[..j] + [ips[j]] + ips[j + 1..];
    forall i | 0 <= i < |ips| && i != j
      ensures ips[i] in ips[..j] || ips[i] in ips[j + 1..]
    {
      if i < j { assert ips[..j][i] == ips[i]; } else { assert ips[j + 1..][i - j - 1] == ips[i]; }
    }
  }

  lemma {:induction false} OneFailure(ips: seq<Address>, oks: seq<bool>, i: nat, j: nat)
    requires i <= |ips| <= |oks| && j < |ips|
    requires forall k :: 0 <= k < |ips| && k != j ==> ips[k] != ips[j]
    ensures Failures(ips, oks, i, ips[j]) == if i <= j && !oks[j] then 1 else 0
    decreases |ips| - i
  {
    if i < |ips| {
      OneFailure(ips, oks, i + 1, j);
    }
  }

  // ---------- only opening adds rules ----------

  lemma RevokeShrinks(cfg: Settings, fw: Fw, ip: Address, ok: bool)
    requires fw.rules.chain.Some?
    ensures var fw' := Revoke(cfg, fw, ip, ok).0;
            fw'.rules.chain.Some? && fw'.rules.chain.value <= fw.rules.chain.value
  {
  }

  lemma {:induction false} RevokeFromShrinks(cfg: Settings, fw: Fw, ips: seq<Address>, oks: seq<bool>, i: nat)
    requires i <= |ips| <= |oks| && fw.rules.chain.Some?
    ensures var fw' := RevokeFrom(cfg, fw, ips, oks, i);
            fw'.rules.chain.Some? && fw'.rules.chain.value <= fw.rules.chain.value
    decreases |ips| - i
  {
    if i < |ips| {
      RevokeShrinks(cfg, fw, ips[i], oks[i]);
      RevokeFromShrinks(cfg, Revoke(cfg, fw, ips[i], oks[i]).0, ips, oks, i + 1);
    }
  }

  /** A tick adds no rule. */
  lemma TickShrinks(cfg: Settings, fw: Fw, now: int, oks: seq<bool>)
    requires fw.grants.Some? && fw.rules.chain.Some? && |oks| == MAX_EXPIRY_PER_TICK
    ensures var fw' := Tick(cfg, fw, now, oks);
            fw'.rules.chain.Some? && fw'.rules.chain.value <= fw.rules.chain.value
  {
    var (h, ips) := Expire(fw.grants.value, now, 0, MAX_EXPIRY_PER_TICK);
    RevokeFromShrinks(cfg, fw.(grants := Some(h)), ips, oks, 0);
  }
}
