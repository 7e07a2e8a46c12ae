/** The client table as the daemon holds it: a fixed array of slots updated in place. */
module Knocker {
  import opened Common
  import T = KnockTable
  import opened KnockTable

  class ClientTable {
    const cfg: Settings
    const clients: array<Client>

    ghost predicate Valid()
      reads this, clients
    {
      TableInv(cfg, clients[..])
    }

    constructor (cfg: Settings)
      requires cfg.Valid()
      ensures this.cfg == cfg && fresh(clients)
      ensures Valid() && clients[..] == EmptyTable(cfg)
    {
      this.cfg := cfg;
      clients := new Client[cfg.maxClients](_ => ZERO_CLIENT);
      new;
      assert clients[..] == EmptyTable(cfg);
      EmptyInv(cfg);
    }

    /** The index of the entry for ip, or -1. */
    method FindClient(ip: Address) returns (index: int)
      ensures index == (match Find(clients[..], ip) case None => -1 case Some(i) => i)
    {
      for i := 0 to clients.Length
        invariant FindFrom(clients[..], ip, i) == Find(clients[..], ip)
      {
        if clients[i].active && clients[i].ip == ip {
          return i;
        }
      }
      return -1;
    }

    /** Claim a zeroed slot for a new client; -1 if every entry is a live sequence. */
    method AllocClient(now: int) returns (index: int)
      modifies clients
      ensures index == (match AllocIndex(cfg, old(clients[..]), now) case None => -1 case Some(i) => i)
      ensures clients[..] == if index == -1 then old(clients[..]) else old(clients[..])[index := ZERO_CLIENT]
    {
      var oldest := -1;
      for i := 0 to clients.Length
        invariant FreeFrom(clients[..], i) == FreeFrom(clients[..], 0)
        invariant oldest == if i == 0 then -1 else Oldest(clients[..], i)
        invariant clients[..] == old(clients[..])
      {
        if !clients[i].active {
          clients[i] := ZERO_CLIENT;
          return i;
        }
        if oldest == -1 || clients[i].lastKnock < clients[oldest].lastKnock {
          oldest := i;
        }
      }
      if oldest == -1 || now - clients[oldest].lastKnock <= cfg.knockWindow {
        return -1;
      }
      clients[oldest] := ZERO_CLIENT;
      return oldest;
    }

    /** What a knock does to the slot it lands on, field by field. */
    method AdvanceSlot(c: nat, dstPort: Port, now: int) returns (result: KnockResult)
      requires cfg.Valid() && c < clients.Length && 0 <= clients[c].currentStep < |cfg.sequence|
      modifies clients
      ensures (clients[c], result) == Advance(cfg, old(clients[c]), dstPort, now)
      ensures clients[..] == old(clients[..])[c := clients[c]]
    {
      if dstPort == clients[c].lastPort && now - clients[c].lastKnock <= KNOCK_DEDUP_WINDOW {
        return InProgress;
      }
      if clients[c].currentStep > 0 && now - clients[c].lastKnock > cfg.knockWindow {
        clients[c] := clients[c].(currentStep := 0);
      }
      if dstPort == cfg.sequence[clients[c].currentStep] {
        clients[c] := clients[c].(currentStep := clients[c].currentStep + 1);
        clients[c] := clients[c].(lastKnock := now, lastPort := dstPort);
        if clients[c].currentStep >= |cfg.sequence| {
          clients[c] := clients[c].(active := false);
          return Complete;
        }
        return InProgress;
      }
      if dstPort == cfg.sequence[0] {
        clients[c] := clients[c].(currentStep := 1, lastKnock := now, lastPort := dstPort);
        return InProgress;
      }
      clients[c] := clients[c].(active := false);
      return Reset;
    }

    /** The state machine: one knock, with both of its clock readings. */
    method Process(srcIp: Address, dstPort: Port, now: int, nowAlloc: int) returns (result: KnockResult)
      requires Valid()
      modifies clients
      ensures Valid()
      ensures (clients[..], result) == T.Process(cfg, old(clients[..]), srcIp, dstPort, now, nowAlloc)
    {
      ProcessInv(cfg, clients[..], srcIp, dstPort, now, nowAlloc);
      var c := FindClient(srcIp);
      if c == -1 {
        if dstPort != cfg.sequence[0] {
          return Reset;
        }
        c := AllocClient(nowAlloc);
        if c == -1 {
          return Reset;
        }
        clients[c] := clients[c].(ip := srcIp, active := true);
      }
      result := AdvanceSlot(c, dstPort, now);
      assert clients[..] == old(clients[..])[c := clients[c]];
    }

    /** Drop every entry that has not knocked within the window. */
    method CleanupStale(now: int) returns (cleaned: nat)
      requires Valid()
      modifies clients
      ensures Valid()
      ensures clients[..] == Sweep(cfg, old(clients[..]), now)
      ensures cleaned == |set i | 0 <= i < clients.Length && old(clients[i].active) && !clients[i].active|
    {
      SweepInv(cfg, clients[..], now);
      cleaned := 0;
      ghost var dropped: set<int> := {};
      for i := 0 to clients.Length
        invariant forall j :: 0 <= j < i ==> clients[j] == SweepSlot(cfg, old(clients[j]), now)
        invariant forall j :: i <= j < clients.Length ==> clients[j] == old(clients[j])
        invariant dropped == set j | 0 <= j < i && old(clients[j].active) && !clients[j].active
        invariant cleaned == |dropped|
      {
        if clients[i].active && now - clients[i].lastKnock > cfg.knockWindow {
          clients[i] := clients[i].(active := false);
          cleaned := cleaned + 1;
          dropped := dropped + {i};
        }
      }
      assert clients[..] == Sweep(cfg, old(clients[..]), now);
      assert dropped == set i | 0 <= i < clients.Length && old(clients[i].active) && !clients[i].active;
    }
  }
}
