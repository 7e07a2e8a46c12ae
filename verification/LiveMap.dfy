/** The client table against the simplest thing it could be: a map of the entries still
    within the window, with no slots, no eviction and no sweep. */
module LiveMap {
  import opened Common
  import opened KnockTable
  import opened KnockCourse
  import opened KnockRuns

  type Entries = map<Address, Entry>

  ghost predicate GoodEntries(cfg: Settings, m: Entries) {
    cfg.Valid() && forall a :: a in m ==> GoodEntry(cfg, m[a])
  }

  function Get(m: Entries, a: Address): Option<Entry> {
    if a in m then Some(m[a]) else None
  }

  function Put(m: Entries, a: Address, o: Option<Entry>): Entries {
    match o
    case Some(e) => m[a := e]
    case None => m - {a}
  }

  /** The entries still within the window at time now. */
  function Live(cfg: Settings, m: Entries, now: int): Entries {
    map a | a in m && !Stale(cfg, m[a], now) :: m[a]
  }

  /** One knock: forget what is stale, then let the address take its own step, a new one
      being admitted while fewer than maxClients are live. */
  function LiveExec(cfg: Settings, m: Entries, c: Call): (r: (Entries, KnockResult))
    requires GoodEntries(cfg, m) && c.Knock?
    ensures GoodEntries(cfg, r.0)
  {
    var live := Live(cfg, m, c.now);
    var (o, res) := OwnStep(cfg, Get(live, c.ip), c.port, c.now, |Live(cfg, m, c.nowAlloc)| < cfg.maxClients);
    (Put(live, c.ip, o), res)
  }

  /** The knocks among the first k calls, the cleanups left out. */
  function KnocksOf(calls: seq<Call>, k: nat): (ks: seq<Call>)
    requires k <= |calls|
    ensures forall i :: 0 <= i < |ks| ==> ks[i].Knock?
  {
    if k == 0 then []
    else if calls[k - 1].Knock? then KnocksOf(calls, k - 1) + [calls[k - 1]]
    else KnocksOf(calls, k - 1)
  }

  /** The map after a series of knocks. */
  function LiveAfter(cfg: Settings, ks: seq<Call>): (m: Entries)
    requires cfg.Valid() && forall i :: 0 <= i < |ks| ==> ks[i].Knock?
    ensures GoodEntries(cfg, m)
  {
    if ks == [] then map[]
    else LiveExec(cfg, LiveAfter(cfg, ks[..|ks| - 1]), ks[|ks| - 1]).0
  }

  /** The table and the map give call k the same result. */
  ghost predicate Agrees(cfg: Settings, calls: seq<Call>, k: nat)
    requires cfg.Valid() && k < |calls| && calls[k].Knock?
  {
    ResultAt(cfg, calls, k) == Some(LiveExec(cfg, LiveAfter(cfg, KnocksOf(calls, k)), calls[k]).1)
  }

  // ---------- simulation ----------

  /** What is left of an entry when stale counts as absent. */
  function IfLive(cfg: Settings, o: Option<Entry>, now: int): Option<Entry> {
    if o.Some? && !Stale(cfg, o.value, now) then o else None
  }

  /** Table and map hold the same entries, stale ones aside. */
  ghost predicate Simulates(cfg: Settings, t: seq<Client>, m: Entries, now: int) {
    forall a :: IfLive(cfg, Lookup(t, a), now) == IfLive(cfg, Get(m, a), now)
  }

  lemma LiveIpsLookup(cfg: Settings, t: seq<Client>, a: Address, now: int)
    requires TableInv(cfg, t)
    ensures a in LiveIps(cfg, t, now) <==> IfLive(cfg, Lookup(t, a), now).Some?
  {
    if a in LiveIps(cfg, t, now) {
      var i :| 0 <= i < |t| && t[i].active && now - t[i].lastKnock <= cfg.knockWindow && t[i].ip == a;
      LookupAt(t, i);
    }
  }

  lemma SameLiveCount(cfg: Settings, t: seq<Client>, m: Entries, now: int)
    requires TableInv(cfg, t) && Simulates(cfg, t, m, now)
    ensures |LiveIps(cfg, t, now)| == |Live(cfg, m, now)|
  {
    forall a
      ensures a in LiveIps(cfg, t, now) <==> a in Live(cfg, m, now).Keys
    {
      LiveIpsLookup(cfg, t, a, now);
      assert IfLive(cfg, Lookup(t, a), now) == IfLive(cfg, Get(m, a), now);
    }
    assert LiveIps(cfg, t, now) == Live(cfg, m, now).Keys;
  }

  /** A stale entry takes up a slot, so the live ones cannot fill the table. */
  lemma StaleLeavesRoom(cfg: Settings, t: seq<Client>, a: Address, now: int)
    requires TableInv(cfg, t) && Lookup(t, a).Some? && Stale(cfg, Lookup(t, a).value, now)
    ensures |LiveIps(cfg, t, now)| < cfg.maxClients
  {
    ActiveCount(t, |t|);
    LiveIpsLookup(cfg, t, a, now);
    assert a in ActiveIps(t, |t|);
    SubsetCard(LiveIps(cfg, t, now), ActiveIps(t, |t|));
  }

  /** Past the repeat window a stale entry behaves as no entry at all. */
  lemma StaleIsAbsent(cfg: Settings, o: Option<Entry>, port: Port, now: int, room: bool, room': bool)
    requires cfg.Valid() && cfg.knockWindow >= KNOCK_DEDUP_WINDOW
    requires o.Some? ==> GoodEntry(cfg, o.value)
    requires o == None ==> room == room'
    requires o.Some? && Stale(cfg, o.value, now) ==> room'
    ensures OwnStep(cfg, o, port, now, room) == OwnStep(cfg, IfLive(cfg, o, now), port, now, room')
  {
  }

  lemma KnockSimulates(cfg: Settings, calls: seq<Call>, k: nat, m: Entries)
    requires cfg.Valid() && cfg.knockWindow >= KNOCK_DEDUP_WINDOW && GoodEntries(cfg, m)
    requires k < |calls| && calls[k].Knock? && calls[k].now <= calls[k].nowAlloc
    requires Simulates(cfg, After(cfg, calls, k), m, calls[k].now)
    ensures ResultAt(cfg, calls, k) == Some(LiveExec(cfg, m, calls[k]).1)
    ensures Simulates(cfg, After(cfg, calls, k + 1), LiveExec(cfg, m, calls[k]).0, calls[k].nowAlloc)
  {
    hide After, Lookup, ResultAt, LiveIps, OwnStep;
    var t, c := After(cfg, calls, k), calls[k];
    var (m', r) := LiveExec(cfg, m, c);
    var e := EntryAt(cfg, calls, c.ip, k);
    OwnCall(cfg, calls, c.ip, k);
    LaterSimulates(cfg, t, m, c.now, c.nowAlloc);
    SameLiveCount(cfg, t, m, c.nowAlloc);
    assert IfLive(cfg, Lookup(t, c.ip), c.now) == IfLive(cfg, Get(m, c.ip), c.now);
    assert Get(Live(cfg, m, c.now), c.ip) == IfLive(cfg, e, c.now);
    if e.Some? && Stale(cfg, e.value, c.now) {
      StaleLeavesRoom(cfg, t, c.ip, c.nowAlloc);
    }
    StaleIsAbsent(cfg, e, c.port, c.now, RoomAt(cfg, calls, k), |Live(cfg, m, c.nowAlloc)| < cfg.maxClients);
    assert EntryAt(cfg, calls, c.ip, k + 1) == Get(m', c.ip);
    forall a
      ensures IfLive(cfg, EntryAt(cfg, calls, a, k + 1), c.nowAlloc) == IfLive(cfg, Get(m', a), c.nowAlloc)
    {
      if a != c.ip {
        OtherCall(cfg, calls, a, k);
        assert IfLive(cfg, Lookup(t, a), c.nowAlloc) == IfLive(cfg, Get(m, a), c.nowAlloc);
      }
    }
  }

  lemma LaterSimulates(cfg: Settings, t: seq<Client>, m: Entries, now: int, later: int)
    requires Simulates(cfg, t, m, now) && now <= later
    ensures Simulates(cfg, t, m, later)
  {
    forall a
      ensures IfLive(cfg, Lookup(t, a), later) == IfLive(cfg, Get(m, a), later)
    {
      assert IfLive(cfg, Lookup(t, a), now) == IfLive(cfg, Get(m, a), now);
    }
  }

  lemma CleanupSimulates(cfg: Settings, calls: seq<Call>, k: nat, m: Entries)
    requires cfg.Valid() && k < |calls| && calls[k].Cleanup?
    requires Simulates(cfg, After(cfg, calls, k), m, calls[k].now)
    ensures Simulates(cfg, After(cfg, calls, k + 1), m, calls[k].now)
  {
    hide After, Lookup, Get;
    forall a
      ensures IfLive(cfg, EntryAt(cfg, calls, a, k + 1), calls[k].now) == IfLive(cfg, Get(m, a), calls[k].now)
    {
      OtherCall(cfg, calls, a, k);
      assert IfLive(cfg, Lookup(After(cfg, calls, k), a), calls[k].now) == IfLive(cfg, Get(m, a), calls[k].now);
    }
  }

  lemma KnocksGrow(cfg: Settings, calls: seq<Call>, k: nat)
    requires cfg.Valid() && k < |calls|
    ensures LiveAfter(cfg, KnocksOf(calls, k + 1))
            == if calls[k].Knock? then LiveExec(cfg, LiveAfter(cfg, KnocksOf(calls, k)), calls[k]).0
               else LiveAfter(cfg, KnocksOf(calls, k))
  {
    hide LiveExec;
    if calls[k].Knock? {
      var ks := KnocksOf(calls, k + 1);
      assert ks[..|ks| - 1] == KnocksOf(calls, k);
    }
  }

  lemma EmptySimulates(cfg: Settings, calls: seq<Call>, now: int)
    requires cfg.Valid()
    ensures Simulates(cfg, After(cfg, calls, 0), LiveAfter(cfg, KnocksOf(calls, 0)), now)
  {
    EmptyInv(cfg);
  }

  lemma {:induction false} RunSimulates(cfg: Settings, calls: seq<Call>, k: nat, now: int)
    requires cfg.Valid() && cfg.knockWindow >= KNOCK_DEDUP_WINDOW && ClockMonotone(calls)
    requires k <= |calls| && (k > 0 ==> End(calls[k - 1]) <= now)
    ensures Simulates(cfg, After(cfg, calls, k), LiveAfter(cfg, KnocksOf(calls, k)), now)
  {
    hide Simulates, After, LiveExec, LiveAfter, KnocksOf;
    if k == 0 {
      EmptySimulates(cfg, calls, now);
    } else {
      var c := calls[k - 1];
      var m := LiveAfter(cfg, KnocksOf(calls, k - 1));
      RunSimulates(cfg, calls, k - 1, c.now);
      KnocksGrow(cfg, calls, k - 1);
      if c.Knock? {
        KnockSimulates(cfg, calls, k - 1, m);
      } else {
        CleanupSimulates(cfg, calls, k - 1, m);
      }
      LaterSimulates(cfg, After(cfg, calls, k), LiveAfter(cfg, KnocksOf(calls, k)), End(c), now);
    }
  }

  // ---------- the theorems ----------

  /** With a window of at least 5 seconds the table is the live map, in every run: each
      knock's result is the map's, which never heard of slots, evictions or cleanups. */
  lemma TableIsLiveMap(cfg: Settings, calls: seq<Call>, k: nat)
    requires cfg.Valid() && cfg.knockWindow >= KNOCK_DEDUP_WINDOW && ClockMonotone(calls)
    requires k < |calls| && calls[k].Knock?
    ensures Agrees(cfg, calls, k)
  {
    RunSimulates(cfg, calls, k, calls[k].now);
    KnockSimulates(cfg, calls, k, LiveAfter(cfg, KnocksOf(calls, k)));
  }

  /** Hence cleanups are invisible: two runs with the same knocks so far answer the next alike. */
  lemma CleanupsInvisible(cfg: Settings, calls: seq<Call>, k: nat, calls': seq<Call>, k': nat)
    requires cfg.Valid() && cfg.knockWindow >= KNOCK_DEDUP_WINDOW
    requires ClockMonotone(calls) && ClockMonotone(calls')
    requires k < |calls| && k' < |calls'| && calls[k].Knock? && calls[k] == calls'[k']
    requires KnocksOf(calls, k) == KnocksOf(calls', k')
    ensures ResultAt(cfg, calls, k) == ResultAt(cfg, calls', k')
  {
    TableIsLiveMap(cfg, calls, k);
    TableIsLiveMap(cfg, calls', k');
  }

  /** The first port, the first port again after the window but inside the 5 seconds, and
      the second port a second later. */
  function LateRepeat(cfg: Settings): seq<Call>
    requires cfg.Valid()
  {
    var w, s := cfg.knockWindow, cfg.sequence;
    [Knock(0, s[0], 0, 0), Knock(0, s[0], w + 1, w + 1), Knock(0, s[1], w + 2, w + 2)]
  }

  /** The table ignores the repeat without refreshing the entry: the second port is too late. */
  lemma LateRepeatInTable(cfg: Settings)
    requires cfg.Valid() && cfg.knockWindow < KNOCK_DEDUP_WINDOW
    ensures ResultAt(cfg, LateRepeat(cfg), 2) == Some(Reset)
  {
    hide Lookup, Exec, LiveIps;
    var calls := LateRepeat(cfg);
    EmptyInv(cfg);
    NobodyLive(cfg, 0);
    OwnCall(cfg, calls, 0, 0);
    OwnCall(cfg, calls, 0, 1);
    OwnCall(cfg, calls, 0, 2);
    assert cfg.sequence[0] != cfg.sequence[1];
  }

  lemma NobodyLive(cfg: Settings, now: int)
    requires cfg.Valid()
    ensures |LiveIps(cfg, EmptyTable(cfg), now)| == 0
  {
    assert LiveIps(cfg, EmptyTable(cfg), now) == {};
  }

  /** For the map the repeat is a fresh start, and the second port follows in time. */
  lemma LateRepeatInMap(cfg: Settings)
    requires cfg.Valid() && cfg.knockWindow < KNOCK_DEDUP_WINDOW
    ensures var calls := LateRepeat(cfg);
            LiveExec(cfg, LiveAfter(cfg, KnocksOf(calls, 2)), calls[2]).1 != Reset
  {
    hide LiveExec, OwnStep;
    var w, s, calls := cfg.knockWindow, cfg.sequence, LateRepeat(cfg);
    KnocksGrow(cfg, calls, 0);
    KnocksGrow(cfg, calls, 1);
    FreshStart(cfg, map[], 0);
    FreshStart(cfg, map[0 := Entry(1, 0, s[0])], w + 1);
    SecondPort(cfg, map[0 := Entry(1, w + 1, s[0])], w + 2);
  }

  lemma FreshStart(cfg: Settings, m: Entries, now: int)
    requires GoodEntries(cfg, m)
    requires forall a :: a in m ==> a == 0 && Stale(cfg, m[a], now)
    ensures LiveExec(cfg, m, Knock(0, cfg.sequence[0], now, now)).0 == map[0 := Entry(1, now, cfg.sequence[0])]
  {
    assert Live(cfg, m, now) == map[];
  }

  lemma SecondPort(cfg: Settings, m: Entries, now: int)
    requires GoodEntries(cfg, m) && m.Keys == {0}
    requires m[0].step == 1 && !Stale(cfg, m[0], now)
    ensures LiveExec(cfg, m, Knock(0, cfg.sequence[1], now, now)).1 != Reset
  {
    assert Live(cfg, m, now) == m;
    assert cfg.sequence[0] != cfg.sequence[1];
  }

  /** A shorter window breaks it. */
  lemma ShortWindowDisagrees(cfg: Settings)
    requires cfg.Valid() && cfg.knockWindow < KNOCK_DEDUP_WINDOW
    ensures ClockMonotone(LateRepeat(cfg)) && !Agrees(cfg, LateRepeat(cfg), 2)
  {
    hide ResultAt, LiveExec, LiveAfter, KnocksOf;
    LateRepeatInTable(cfg);
    LateRepeatInMap(cfg);
  }

  /** The exact condition. */
  lemma LiveMapExactly(cfg: Settings)
    requires cfg.Valid()
    ensures (forall calls: seq<Call>, k: nat :: ClockMonotone(calls) && k < |calls| && calls[k].Knock? ==> Agrees(cfg, calls, k))
            <==> cfg.knockWindow >= KNOCK_DEDUP_WINDOW
  {
    if cfg.knockWindow >= KNOCK_DEDUP_WINDOW {
      forall calls: seq<Call>, k: nat | ClockMonotone(calls) && k < |calls| && calls[k].Knock?
        ensures Agrees(cfg, calls, k)
      {
        TableIsLiveMap(cfg, calls, k);
      }
    } else {
      ShortWindowDisagrees(cfg);
    }
  }
}
