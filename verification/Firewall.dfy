/** The firewall manager as the daemon runs it: a grant table updated in place, and iptables
    commands issued one at a time against the kernel's rules. */
module Firewall {
  import opened Common
  import N = Netfilter
  import G = GrantTable
  import opened GrantTable

  class Manager {
    const cfg: Settings
    var grants: array?<Grant>
    var addedJump: bool
    /** The kernel's rules, which only RunIptables reads or writes. */
    var kernel: N.Ruleset
    ghost var leaked: multiset<Address>

    ghost function State(): Fw
      reads this, grants
    {
      Fw(if grants == null then None else Some(grants[..]), addedJump, kernel, leaked)
    }

    constructor (cfg: Settings, kernel: N.Ruleset)
      ensures this.cfg == cfg && State() == Fw(None, false, kernel, multiset{})
    {
      this.cfg, this.kernel := cfg, kernel;
      grants, addedJump, leaked := null, false, multiset{};
    }

    /** Run one iptables command; ok says whether anything outside the command makes it fail. */
    method RunIptables(c: N.Command, ok: bool) returns (rc: int)
      modifies this`kernel
      ensures (kernel, rc == 0) == N.Run(old(kernel), c, ok)
      ensures rc == 0 || rc == -1
    {
      if ok && N.Possible(kernel, c) {
        kernel := N.Effect(kernel, c);
        return 0;
      }
      return -1;
    }

    method FindGrant(ip: Address) returns (slot: int)
      requires grants != null
      ensures slot == (match G.FindGrant(grants[..], ip) case None => -1 case Some(i) => i)
    {
      for i := 0 to grants.Length
        invariant GrantFrom(grants[..], ip, i) == G.FindGrant(grants[..], ip)
      {
        if grants[i].active && grants[i].ip == ip {
          return i;
        }
      }
      return -1;
    }

    /** Allocate the table, create or empty the chain, and hook INPUT into it. */
    method Init(o: InitOutcome) returns (rc: int)
      requires cfg.Valid()
      modifies this
      ensures (State(), rc == 0) == G.Init(cfg, old(State()), o)
      ensures grants == null || fresh(grants)
    {
      if !o.alloc {
        grants := null;
        return -1;
      }
      grants := new Grant[cfg.maxClients](_ => ZERO_GRANT);
      assert grants[..] == EmptyGrants(cfg);
      var created := RunIptables(N.NewChain, o.newChain);
      var flushed := RunIptables(N.FlushChain, o.flush);
      if flushed != 0 {
        grants := null;
        return -1;
      }
      leaked := multiset{};
      var hooked := RunIptables(N.CheckJump, o.check);
      if hooked != 0 {
        var added := RunIptables(N.InsertJump, o.add);
        if added != 0 {
          grants := null;
          return -1;
        }
        addedJump := true;
      }
      return 0;
    }

    /** Grant ip access until now + accessTimeout. */
    method Open(ip: Address, now: int, ok: bool) returns (rc: int)
      modifies this`kernel, grants
      ensures grants == old(grants)
      ensures (State(), rc == 0) == G.Open(cfg, old(State()), ip, now, ok)
    {
      if grants == null {
        return -1;
      }
      var expiresAt := now + cfg.accessTimeout;
      var slot := FindGrant(ip);
      if slot != -1 {
        grants[slot] := grants[slot].(expiresAt := expiresAt);
        return 0;
      }
      for i := 0 to grants.Length
        invariant FreeFrom(grants[..], i) == FreeFrom(grants[..], 0)
        invariant slot == -1
      {
        if !grants[i].active {
          slot := i;
          break;
        }
      }
      if slot == -1 {
        return -1;
      }
      // The slot is reserved before iptables runs.
      grants[slot] := Grant(ip, expiresAt, true);
      var inserted := RunIptables(N.InsertGrant(RuleFor(cfg, ip)), ok);
      if inserted != 0 {
        grants[slot] := grants[slot].(active := false);
        assert grants[..] == old(grants[..])[slot := Grant(ip, expiresAt, false)];
        return -1;
      }
      return 0;
    }

    /** Delete the rule for ip; a failure is remembered in leaked. */
    method DeleteRule(ip: Address, ok: bool) returns (rc: int)
      modifies this`kernel, this`leaked
      ensures (State(), rc == 0) == Revoke(cfg, old(State()), ip, ok)
    {
      rc := RunIptables(N.DeleteGrant(RuleFor(cfg, ip)), ok);
      if rc != 0 {
        leaked := leaked + multiset{ip};
      }
    }

    method Close(ip: Address, ok: bool) returns (rc: int)
      modifies this`kernel, this`leaked, grants
      ensures grants == old(grants)
      ensures (State(), rc == 0) == G.Close(cfg, old(State()), ip, ok)
    {
      if grants == null {
        return -1;
      }
      var slot := FindGrant(ip);
      if slot == -1 {
        return 0;
      }
      grants[slot] := grants[slot].(active := false);
      rc := DeleteRule(ip, ok);
    }

    /** The locked half of a tick: release expired grants into the buffer expired. */
    method CollectExpired(now: int, expired: array<Address>) returns (count: nat)
      requires grants != null && expired.Length == MAX_EXPIRY_PER_TICK
      modifies grants, expired
      ensures count <= expired.Length
      ensures (grants[..], expired[..count]) == Expire(old(grants[..]), now, 0, MAX_EXPIRY_PER_TICK)
    {
      count := 0;
      ghost var goal := Expire(grants[..], now, 0, MAX_EXPIRY_PER_TICK);
      assert expired[..0] + goal.1 == goal.1;
      var i := 0;
      while i < grants.Length && count < MAX_EXPIRY_PER_TICK
        invariant 0 <= i <= grants.Length && 0 <= count <= MAX_EXPIRY_PER_TICK
        invariant var rest := Expire(grants[..], now, i, MAX_EXPIRY_PER_TICK - count);
                  goal == (rest.0, expired[..count] + rest.1)
      {
        if grants[i].active && now >= grants[i].expiresAt {
          ghost var before, closed := grants[..], expired[..count];
          ghost var rest := Expire(before[i := before[i].(active := false)], now, i + 1, MAX_EXPIRY_PER_TICK - count - 1);
          expired[count] := grants[i].ip;
          count := count + 1;
          grants[i] := grants[i].(active := false);
          assert grants[..] == before[i := before[i].(active := false)];
          assert expired[..count] == closed + [before[i].ip];
          assert closed + ([before[i].ip] + rest.1) == expired[..count] + rest.1;
        }
        i := i + 1;
      }
      assert expired[..count] + [] == expired[..count];
    }

    /** Close the grants whose deadline has passed, at most MAX_EXPIRY_PER_TICK of them. */
    method Tick(now: int, oks: seq<bool>)
      requires |oks| == MAX_EXPIRY_PER_TICK
      modifies this`kernel, this`leaked, grants
      ensures grants == old(grants)
      ensures State() == G.Tick(cfg, old(State()), now, oks)
    {
      hide Expire, Revoke;
      if grants == null {
        return;
      }
      var expired := new Address[MAX_EXPIRY_PER_TICK](_ => 0);
      var count := CollectExpired(now, expired);
      ghost var start, ips := State(), expired[..count];
      for j := 0 to count
        invariant expired[..count] == ips
        invariant RevokeFrom(cfg, State(), ips, oks, j) == RevokeFrom(cfg, start, ips, oks, 0)
        modifies this`kernel, this`leaked
      {
        var rc := DeleteRule(expired[j], oks[j]);
      }
    }

    /** Remove what knockd added. */
    method Shutdown(flushOk: bool, unhookOk: bool, delOk: bool)
      modifies this
      ensures State() == G.Shutdown(old(State()), flushOk, unhookOk, delOk)
    {
      if grants == null {
        return;
      }
      var flushed := RunIptables(N.FlushChain, flushOk);
      if flushed == 0 {
        leaked := multiset{};
      }
      if addedJump {
        var unhooked := RunIptables(N.DeleteJump, unhookOk);
        if unhooked == 0 {
          var deleted := RunIptables(N.DeleteChain, delOk);
        }
      }
      grants := null;
    }
  }
}
