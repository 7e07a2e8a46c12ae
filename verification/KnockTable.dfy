/** The per-address knock automaton over the bounded client table, as functions on
    the table's contents (src/knocker.c). The imperative form is in module Knocker. */
module KnockTable {
  import opened Common

  const KNOCK_DEDUP_WINDOW := 5

  datatype KnockResult = Complete | InProgress | Reset

  /** One slot of the client table. */
  datatype Client = Client(ip: Address, currentStep: int, lastKnock: int, lastPort: Port, active: bool)

  const ZERO_CLIENT := Client(0, 0, 0, 0, false)

  /** What the table remembers about one tracked address. */
  datatype Entry = Entry(step: int, lastKnock: int, lastPort: Port)

  function EntryOf(c: Client): Entry {
    Entry(c.currentStep, c.lastKnock, c.lastPort)
  }

  // ---------- invariant ----------

  ghost predicate DistinctIps(t: seq<Client>) {
    forall i, j :: 0 <= i < j < |t| && t[i].active && t[j].active ==> t[i].ip != t[j].ip
  }

  ghost predicate GoodClient(cfg: Settings, c: Client)
    requires cfg.Valid()
  {
    && 1 <= c.currentStep < |cfg.sequence|
    && c.lastPort == cfg.sequence[c.currentStep - 1]
  }

  /** What holds of the table between any two calls. */
  ghost predicate TableInv(cfg: Settings, t: seq<Client>) {
    && cfg.Valid()
    && |t| == cfg.maxClients
    && DistinctIps(t)
    && forall i :: 0 <= i < |t| && t[i].active ==> GoodClient(cfg, t[i])
  }

  function EmptyTable(cfg: Settings): seq<Client>
    requires cfg.Valid()
  {
    seq(cfg.maxClients, _ => ZERO_CLIENT)
  }

  // ---------- lookup and allocation ----------

  /** The first active slot for ip at or after index from. */
  function FindFrom(t: seq<Client>, ip: Address, from: nat): (r: Option<nat>)
    requires from <= |t|
    ensures r.Some? ==> from <= r.value < |t| && t[r.value].active && t[r.value].ip == ip
    ensures r.None? ==> forall i :: from <= i < |t| ==> !(t[i].active && t[i].ip == ip)
    decreases |t| - from
  {
    if from == |t| then None
    else if t[from].active && t[from].ip == ip then Some(from)
    else FindFrom(t, ip, from + 1)
  }

  function Find(t: seq<Client>, ip: Address): (r: Option<nat>) {
    FindFrom(t, ip, 0)
  }

  function Lookup(t: seq<Client>, ip: Address): Option<Entry> {
    match Find(t, ip)
    case None => None
    case Some(i) => Some(EntryOf(t[i]))
  }

  /** The first free slot at or after index from. */
  function FreeFrom(t: seq<Client>, from: nat): (r: Option<nat>)
    requires from <= |t|
    ensures r.Some? ==> from <= r.value < |t| && !t[r.value].active
    ensures r.Some? ==> forall i :: from <= i < r.value ==> t[i].active
    ensures r.None? ==> forall i :: from <= i < |t| ==> t[i].active
    decreases |t| - from
  {
    if from == |t| then None
    else if !t[from].active then Some(from)
    else FreeFrom(t, from + 1)
  }

  /** The slot among the first n with the least lastKnock; the earliest of several. */
  function Oldest(t: seq<Client>, n: nat): (r: nat)
    requires 0 < n <= |t|
    ensures r < n
    ensures forall i :: 0 <= i < n ==> t[r].lastKnock <= t[i].lastKnock
    ensures forall i :: 0 <= i < r ==> t[r].lastKnock < t[i].lastKnock
  {
    if n == 1 then 0
    else
      var o := Oldest(t, n - 1);
      if t[n - 1].lastKnock < t[o].lastKnock then n - 1 else o
  }

  /** Every slot is in use. */
  predicate Full(t: seq<Client>) {
    forall i :: 0 <= i < |t| ==> t[i].active
  }

  /** The slot a new client gets: the first free one; and only in a full table the oldest, the
      earliest of equals, if it is past the window. */
  function AllocIndex(cfg: Settings, t: seq<Client>, now: int): (r: Option<nat>)
    ensures r.Some? ==> r.value < |t|
    ensures !Full(t) ==> r.Some? && !t[r.value].active && forall i :: 0 <= i < r.value ==> t[i].active
    ensures Full(t) && r.Some? ==>
              && now - t[r.value].lastKnock > cfg.knockWindow
              && (forall i :: 0 <= i < |t| ==> t[r.value].lastKnock <= t[i].lastKnock)
              && (forall i :: 0 <= i < r.value ==> t[r.value].lastKnock < t[i].lastKnock)
    ensures Full(t) && r.None? ==> forall i :: 0 <= i < |t| ==> now - t[i].lastKnock <= cfg.knockWindow
  {
    match FreeFrom(t, 0)
    case Some(i) => Some(i)
    case None =>
      if |t| == 0 || now - t[Oldest(t, |t|)].lastKnock <= cfg.knockWindow then None
      else Some(Oldest(t, |t|))
  }

  // ---------- the automaton ----------

  /** What one knock does to the slot it lands on. */
  function Advance(cfg: Settings, c: Client, port: Port, now: int): (Client, KnockResult)
    requires 0 <= c.currentStep < |cfg.sequence|
  {
    if port == c.lastPort && now - c.lastKnock <= KNOCK_DEDUP_WINDOW then
      (c, InProgress)
    else
      var d := if c.currentStep > 0 && now - c.lastKnock > cfg.knockWindow
               then c.(currentStep := 0) else c;
      if port == cfg.sequence[d.currentStep] then
        var e := d.(currentStep := d.currentStep + 1, lastKnock := now, lastPort := port);
        if e.currentStep >= |cfg.sequence| then (e.(active := false), Complete)
        else (e, InProgress)
      else if port == cfg.sequence[0] then
        (d.(currentStep := 1, lastKnock := now, lastPort := port), InProgress)
      else
        (d.(active := false), Reset)
  }

  /** One knock against the whole table. The clock is read twice: on entry and,
      for a new client, again inside the allocator. */
  function Process(cfg: Settings, t: seq<Client>, ip: Address, port: Port, now: int, nowAlloc: int)
    : (seq<Client>, KnockResult)
    requires TableInv(cfg, t)
  {
    match Find(t, ip)
    case Some(i) =>
      var (c, r) := Advance(cfg, t[i], port, now);
      (t[i := c], r)
    case None =>
      if port != cfg.sequence[0] then (t, Reset)
      else
        match AllocIndex(cfg, t, nowAlloc)
        case None => (t, Reset)
        case Some(i) =>
          var (c, r) := Advance(cfg, ZERO_CLIENT.(ip := ip, active := true), port, now);
          (t[i := c], r)
  }

  /** The periodic sweep: every slot past the window is released. */
  function SweepSlot(cfg: Settings, c: Client, now: int): Client {
    if c.active && now - c.lastKnock > cfg.knockWindow then c.(active := false) else c
  }

  function Sweep(cfg: Settings, t: seq<Client>, now: int): (r: seq<Client>)
    ensures |r| == |t|
  {
    seq(|t|, i requires 0 <= i < |t| => SweepSlot(cfg, t[i], now))
  }

  // ---------- the table keeps its invariant ----------

  lemma EmptyInv(cfg: Settings)
    requires cfg.Valid()
    ensures TableInv(cfg, EmptyTable(cfg))
    ensures forall a :: Lookup(EmptyTable(cfg), a) == None
  {
  }

  lemma UpdateInv(cfg: Settings, t: seq<Client>, i: nat, c: Client)
    requires TableInv(cfg, t) && i < |t|
    requires c.active ==> GoodClient(cfg, c)
    requires c.active ==> forall j :: 0 <= j < |t| && j != i && t[j].active ==> t[j].ip != c.ip
    ensures TableInv(cfg, t[i := c])
  {
  }

  /** Sequences have at least two distinct non-zero ports, so a fresh slot neither
      completes at once nor has its first knock taken for a repeat. */
  lemma ProcessInv(cfg: Settings, t: seq<Client>, ip: Address, port: Port, now: int, nowAlloc: int)
    requires TableInv(cfg, t)
    ensures TableInv(cfg, Process(cfg, t, ip, port, now, nowAlloc).0)
  {
    match Find(t, ip)
    case Some(i) =>
      UpdateInv(cfg, t, i, Advance(cfg, t[i], port, now).0);
    case None =>
      if port == cfg.sequence[0] && AllocIndex(cfg, t, nowAlloc).Some? {
        var i := AllocIndex(cfg, t, nowAlloc).value;
        UpdateInv(cfg, t, i, Advance(cfg, ZERO_CLIENT.(ip := ip, active := true), port, now).0);
      }
  }

  lemma SweepInv(cfg: Settings, t: seq<Client>, now: int)
    requires TableInv(cfg, t)
    ensures TableInv(cfg, Sweep(cfg, t, now))
  {
    var s := Sweep(cfg, t, now);
    assert forall i :: 0 <= i < |s| && s[i].active ==> s[i] == t[i];
  }

  // ---------- one address at a time ----------

  ghost predicate GoodEntry(cfg: Settings, e: Entry)
    requires cfg.Valid()
  {
    1 <= e.step < |cfg.sequence| && e.lastPort == cfg.sequence[e.step - 1]
  }

  /** With distinct addresses, the slot an address is found in is the only one. */
  lemma LookupAt(t: seq<Client>, i: nat)
    requires DistinctIps(t) && i < |t| && t[i].active
    ensures Find(t, t[i].ip) == Some(i)
    ensures Lookup(t, t[i].ip) == Some(EntryOf(t[i]))
  {
  }

  predicate Stale(cfg: Settings, e: Entry, now: int) {
    now - e.lastKnock > cfg.knockWindow
  }

  /** The automaton as one address sees it: what a knock does to its own entry, where
      admitted says whether a new client would be given a slot. */
  function OwnStep(cfg: Settings, o: Option<Entry>, port: Port, now: int, admitted: bool)
    : (Option<Entry>, KnockResult)
    requires cfg.Valid()
    requires o.Some? ==> 1 <= o.value.step < |cfg.sequence|
  {
    var first := (Some(Entry(1, now, port)), InProgress);
    match o
    case None =>
      if port == cfg.sequence[0] && admitted then first else (None, Reset)
    case Some(e) =>
      if port == e.lastPort && now - e.lastKnock <= KNOCK_DEDUP_WINDOW then (o, InProgress)
      else if !Stale(cfg, e, now) && port == cfg.sequence[e.step] then
        if e.step + 1 == |cfg.sequence| then (None, Complete)
        else (Some(Entry(e.step + 1, now, port)), InProgress)
      else if port == cfg.sequence[0] then first
      else (None, Reset)
  }

  lemma LookupGood(cfg: Settings, t: seq<Client>, a: Address)
    requires TableInv(cfg, t)
    ensures Lookup(t, a).Some? ==> GoodEntry(cfg, Lookup(t, a).value)
  {
  }

  /** A knock moves its own address exactly as OwnStep says. */
  lemma OwnKnock(cfg: Settings, t: seq<Client>, a: Address, port: Port, now: int, nowAlloc: int)
    requires TableInv(cfg, t)
    ensures Lookup(t, a).Some? ==> 1 <= Lookup(t, a).value.step < |cfg.sequence|
    ensures var (t', r) := Process(cfg, t, a, port, now, nowAlloc);
            (Lookup(t', a), r)
            == OwnStep(cfg, Lookup(t, a), port, now, AllocIndex(cfg, t, nowAlloc).Some?)
  {
    ProcessInv(cfg, t, a, port, now, nowAlloc);
    var (t', r) := Process(cfg, t, a, port, now, nowAlloc);
    match Find(t, a)
    case Some(i) =>
      LookupAt(t, i);
      if t'[i].active { LookupAt(t', i); }
    case None =>
      if port == cfg.sequence[0] && AllocIndex(cfg, t, nowAlloc).Some? {
        LookupAt(t', AllocIndex(cfg, t, nowAlloc).value);
      }
  }

  /** Someone else's knock leaves an address alone, or drops it only once it is stale. */
  lemma OtherKnock(cfg: Settings, t: seq<Client>, a: Address, b: Address, port: Port, now: int, nowAlloc: int)
    requires TableInv(cfg, t) && a != b
    ensures var t' := Process(cfg, t, b, port, now, nowAlloc).0;
            || Lookup(t', a) == Lookup(t, a)
            || (Lookup(t', a) == None && Lookup(t, a).Some? && Stale(cfg, Lookup(t, a).value, nowAlloc))
  {
    ProcessInv(cfg, t, b, port, now, nowAlloc);
    var t' := Process(cfg, t, b, port, now, nowAlloc).0;
    match Find(t, a)
    case Some(i) =>
      LookupAt(t, i);
      if t'[i].active && t'[i].ip == a { LookupAt(t', i); }
    case None =>
  }

  /** Eviction is the last resort: another address's knock drops an entry if and only if it
      comes from an untracked address on the first port, finds every slot in use, and the
      entry is the oldest (the earliest of equals) and past the window. */
  lemma EvictedExactly(cfg: Settings, t: seq<Client>, a: Address, b: Address, port: Port, now: int, nowAlloc: int)
    requires TableInv(cfg, t) && a != b && Lookup(t, a).Some?
    ensures var t' := Process(cfg, t, b, port, now, nowAlloc).0;
            Lookup(t', a) != Lookup(t, a) <==>
              && Lookup(t, b) == None && port == cfg.sequence[0] && Full(t)
              && Lookup(t, a).Some? && Stale(cfg, Lookup(t, a).value, nowAlloc)
              && Find(t, a) == Some(Oldest(t, |t|))
  {
    ProcessInv(cfg, t, b, port, now, nowAlloc);
    OtherKnock(cfg, t, a, b, port, now, nowAlloc);
    var t' := Process(cfg, t, b, port, now, nowAlloc).0;
    var i := Find(t, a).value;
    LookupAt(t, i);
    if t'[i].active && t'[i].ip == a { LookupAt(t', i); }
    if Full(t) && AllocIndex(cfg, t, nowAlloc).Some? {
      assert AllocIndex(cfg, t, nowAlloc) == Some(Oldest(t, |t|));
    }
  }

  /** While a slot is free nobody else's knock disturbs anyone, whatever the window. */
  lemma RoomDisturbsNobody(cfg: Settings, t: seq<Client>, a: Address, b: Address, port: Port, now: int, nowAlloc: int)
    requires TableInv(cfg, t) && a != b && !Full(t)
    ensures Lookup(Process(cfg, t, b, port, now, nowAlloc).0, a) == Lookup(t, a)
  {
    if Lookup(t, a).Some? {
      EvictedExactly(cfg, t, a, b, port, now, nowAlloc);
    } else {
      OtherKnock(cfg, t, a, b, port, now, nowAlloc);
    }
  }

  /** The sweep drops exactly the stale entries. */
  lemma SweepEffect(cfg: Settings, t: seq<Client>, a: Address, now: int)
    requires TableInv(cfg, t)
    ensures var o := Lookup(t, a);
            Lookup(Sweep(cfg, t, now), a)
            == if o.Some? && Stale(cfg, o.value, now) then None else o
  {
    SweepInv(cfg, t, now);
    var s := Sweep(cfg, t, now);
    match Find(t, a)
    case Some(i) =>
      LookupAt(t, i);
      if s[i].active { LookupAt(s, i); }
    case None =>
  }

  /** Self-stabilisation in one call: the first port leaves any tracked address at
      exactly step 1, whatever it was doing, with lastKnock now unless the knock was
      taken for a repeat of a first port accepted at most 5 seconds ago. */
  lemma FirstPortRestarts(cfg: Settings, t: seq<Client>, a: Address, now: int, nowAlloc: int)
    requires TableInv(cfg, t) && Lookup(t, a).Some?
    ensures var (t', r) := Process(cfg, t, a, cfg.sequence[0], now, nowAlloc);
            var before := Lookup(t, a).value;
            && r == InProgress
            && Lookup(t', a).Some?
            && Lookup(t', a).value.step == 1
            && Lookup(t', a).value.lastPort == cfg.sequence[0]
            && Lookup(t', a).value.lastKnock
               == (if before.step == 1 && now - before.lastKnock <= KNOCK_DEDUP_WINDOW then before.lastKnock else now)
  {
    LookupGood(cfg, t, a);
    OwnKnock(cfg, t, a, cfg.sequence[0], now, nowAlloc);
    assert forall j :: 1 <= j < |cfg.sequence| ==> cfg.sequence[j] != cfg.sequence[0];
  }

  // ---------- admission ----------

  /** The addresses of the active slots among the first n. */
  function ActiveIps(t: seq<Client>, n: nat): set<Address>
    requires n <= |t|
  {
    set i | 0 <= i < n && t[i].active :: t[i].ip
  }

  /** The addresses whose entries are still within the window. */
  function LiveIps(cfg: Settings, t: seq<Client>, now: int): set<Address> {
    set i | 0 <= i < |t| && t[i].active && now - t[i].lastKnock <= cfg.knockWindow :: t[i].ip
  }

  predicate FirstActive(t: seq<Client>, n: nat)
    requires n <= |t|
  {
    forall i :: 0 <= i < n ==> t[i].active
  }

  lemma ActiveNext(t: seq<Client>, n: nat)
    requires DistinctIps(t) && n < |t|
    ensures |ActiveIps(t, n + 1)| == |ActiveIps(t, n)| + if t[n].active then 1 else 0
    ensures FirstActive(t, n + 1) <==> FirstActive(t, n) && t[n].active
  {
    var more := if t[n].active then {t[n].ip} else {};
    assert ActiveIps(t, n + 1) == ActiveIps(t, n) + more;
    assert ActiveIps(t, n) !! more;
  }

  /** Distinct addresses: as many of them as there are active slots. */
  lemma {:induction false} ActiveCount(t: seq<Client>, n: nat)
    requires DistinctIps(t) && n <= |t|
    ensures |ActiveIps(t, n)| <= n
    ensures |ActiveIps(t, n)| == n <==> FirstActive(t, n)
  {
    if n == 0 {
      assert ActiveIps(t, 0) == {};
    } else {
      hide ActiveIps, DistinctIps, FirstActive;
      ActiveCount(t, n - 1);
      ActiveNext(t, n - 1);
    }
  }

  lemma SubsetCard<T>(a: set<T>, b: set<T>)
    requires a <= b
    ensures |a| <= |b|
    ensures a != b ==> |a| < |b|
  {
    assert b == a + (b - a);
  }

  /** A new address gets a slot exactly when fewer than maxClients addresses are
      within the window: eviction makes the stale entries count for nothing. */
  lemma AdmissionExact(cfg: Settings, t: seq<Client>, now: int)
    requires TableInv(cfg, t)
    ensures AllocIndex(cfg, t, now).Some? <==> |LiveIps(cfg, t, now)| < cfg.maxClients
    ensures |LiveIps(cfg, t, now)| <= cfg.maxClients
  {
    ActiveCount(t, |t|);
    SubsetCard(LiveIps(cfg, t, now), ActiveIps(t, |t|));
    if FreeFrom(t, 0).None? {
      var o := Oldest(t, |t|);
      if now - t[o].lastKnock <= cfg.knockWindow {
        assert LiveIps(cfg, t, now) == ActiveIps(t, |t|);
      } else {
        assert t[o].ip in ActiveIps(t, |t|) && t[o].ip !in LiveIps(cfg, t, now);
      }
    }
  }
}
