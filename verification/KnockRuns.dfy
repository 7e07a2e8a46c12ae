/** Whole runs of the knock state machine from an empty table: every interleaving of
    knocks by any addresses with cleanup calls. */
module KnockRuns {
  import opened Common
  import opened KnockTable
  import opened KnockCourse
  import opened KnockMatcher

  function Exec(cfg: Settings, t: seq<Client>, c: Call): (r: (seq<Client>, Option<KnockResult>))
    requires TableInv(cfg, t)
    ensures TableInv(cfg, r.0)
  {
    match c
    case Knock(ip, port, now, nowAlloc) =>
      ProcessInv(cfg, t, ip, port, now, nowAlloc);
      var (u, res) := Process(cfg, t, ip, port, now, nowAlloc);
      (u, Some(res))
    case Cleanup(now) =>
      SweepInv(cfg, t, now);
      (Sweep(cfg, t, now), None)
  }

  /** The table after the first k calls. */
  function After(cfg: Settings, calls: seq<Call>, k: nat): (t: seq<Client>)
    requires cfg.Valid() && k <= |calls|
    ensures TableInv(cfg, t)
  {
    if k == 0 then
      EmptyInv(cfg);
      EmptyTable(cfg)
    else
      Exec(cfg, After(cfg, calls, k - 1), calls[k - 1]).0
  }

  /** What call k returned; None for a cleanup. */
  function ResultAt(cfg: Settings, calls: seq<Call>, k: nat): Option<KnockResult>
    requires cfg.Valid() && k < |calls|
  {
    Exec(cfg, After(cfg, calls, k), calls[k]).1
  }

  /** What the table knows of a before call k. */
  function EntryAt(cfg: Settings, calls: seq<Call>, a: Address, k: nat): Option<Entry>
    requires cfg.Valid() && k <= |calls|
  {
    Lookup(After(cfg, calls, k), a)
  }

  /** Runs that agree on their first k calls agree on the table after them. */
  lemma {:induction false} AfterPrefix(cfg: Settings, calls: seq<Call>, more: seq<Call>, k: nat)
    requires cfg.Valid() && k <= |calls| && k <= |more|
    requires forall i :: 0 <= i < k ==> calls[i] == more[i]
    ensures After(cfg, calls, k) == After(cfg, more, k)
  {
    hide Exec;
    if k > 0 {
      AfterPrefix(cfg, calls, more, k - 1);
    }
  }

  // ---------- the table gives every address a course ----------

  /** Fewer than maxClients addresses are live when call k reads the clock last. */
  predicate RoomAt(cfg: Settings, calls: seq<Call>, k: nat)
    requires cfg.Valid() && k < |calls|
  {
    |LiveIps(cfg, After(cfg, calls, k), End(calls[k]))| < cfg.maxClients
  }

  function CourseOf(cfg: Settings, calls: seq<Call>, a: Address): Course
    requires cfg.Valid()
  {
    Course(seq(|calls| + 1, k requires 0 <= k <= |calls| => EntryAt(cfg, calls, a, k)),
           seq(|calls|, k requires 0 <= k < |calls| => RoomAt(cfg, calls, k)))
  }

  /** An own knock is OwnStep, admission depending on the live addresses alone. */
  lemma OwnCall(cfg: Settings, calls: seq<Call>, a: Address, k: nat)
    requires cfg.Valid() && k < |calls| && Own(calls, a, k)
    ensures EntryAt(cfg, calls, a, k).Some? ==> GoodEntry(cfg, EntryAt(cfg, calls, a, k).value)
    ensures var (o, r) := OwnStep(cfg, EntryAt(cfg, calls, a, k), calls[k].port, calls[k].now, RoomAt(cfg, calls, k));
            EntryAt(cfg, calls, a, k + 1) == o && ResultAt(cfg, calls, k) == Some(r)
  {
    var t := After(cfg, calls, k);
    LookupGood(cfg, t, a);
    OwnKnock(cfg, t, a, calls[k].port, calls[k].now, calls[k].nowAlloc);
    AdmissionExact(cfg, t, calls[k].nowAlloc);
  }

  /** Any other call leaves the entry, or drops it once it is stale. */
  lemma OtherCall(cfg: Settings, calls: seq<Call>, a: Address, k: nat)
    requires cfg.Valid() && k < |calls| && !Own(calls, a, k)
    ensures var o := EntryAt(cfg, calls, a, k);
            var o' := EntryAt(cfg, calls, a, k + 1);
            o' == o || (o' == None && o.Some? && Stale(cfg, o.value, End(calls[k])))
  {
    var t := After(cfg, calls, k);
    match calls[k]
    case Knock(b, port, now, nowAlloc) => OtherKnock(cfg, t, a, b, port, now, nowAlloc);
    case Cleanup(now) => SweepEffect(cfg, t, a, now);
  }

  lemma Untracked(cfg: Settings, calls: seq<Call>, a: Address)
    requires cfg.Valid()
    ensures EntryAt(cfg, calls, a, 0) == None
  {
    EmptyInv(cfg);
  }

  lemma TableCourse(cfg: Settings, calls: seq<Call>, a: Address)
    requires cfg.Valid()
    ensures IsCourse(cfg, calls, a, CourseOf(cfg, calls, a))
    ensures forall k :: 0 <= k < |calls| && Own(calls, a, k) ==>
              ResultAt(cfg, calls, k) == Some(StepAt(cfg, calls, CourseOf(cfg, calls, a), k).1)
  {
    hide After, Lookup, ResultAt, RoomAt;
    var c := CourseOf(cfg, calls, a);
    forall k | 0 <= k <= |calls| && c.entries[k].Some?
      ensures GoodEntry(cfg, c.entries[k].value)
    {
      LookupGood(cfg, After(cfg, calls, k), a);
    }
    Untracked(cfg, calls, a);
    forall k | 0 <= k < |calls|
      ensures Moves(cfg, calls, a, c, k)
      ensures Own(calls, a, k) ==> ResultAt(cfg, calls, k) == Some(StepAt(cfg, calls, c, k).1)
    {
      if Own(calls, a, k) { OwnCall(cfg, calls, a, k); } else { OtherCall(cfg, calls, a, k); }
    }
  }

  // ---------- the theorems ----------

  /** While slots are free, other addresses' knocks leave an entry exactly as it was, stale or
      not and whatever the window: eviction happens in a full table only. */
  lemma {:induction false} UndisturbedWhileRoom(cfg: Settings, calls: seq<Call>, a: Address, i: nat, k: nat)
    requires cfg.Valid() && i <= k <= |calls|
    requires forall p :: i <= p < k ==> calls[p].Knock? && !Own(calls, a, p) && !Full(After(cfg, calls, p))
    ensures EntryAt(cfg, calls, a, k) == EntryAt(cfg, calls, a, i)
    decreases k
  {
    hide Lookup, Full, Process;
    if k > i {
      var c := calls[k - 1];
      assert !Own(calls, a, k - 1) && !Full(After(cfg, calls, k - 1));
      UndisturbedWhileRoom(cfg, calls, a, i, k - 1);
      RoomDisturbsNobody(cfg, After(cfg, calls, k - 1), a, c.ip, c.port, c.now, c.nowAlloc);
    }
  }

  /** Call i left a at step 1 with i as its accepted first knock. */
  ghost predicate Started(cfg: Settings, calls: seq<Call>, a: Address, i: nat)
    requires cfg.Valid() && i < |calls|
  {
    EntryAt(cfg, calls, a, i + 1) == Some(Entry(1, calls[i].now, cfg.sequence[0]))
  }

  /** When a knock starts an attempt: it is the first port, and a tracked address is not
      repeating a first port just accepted, or an untracked one finds fewer than
      maxClients addresses live. */
  lemma StartedExact(cfg: Settings, calls: seq<Call>, a: Address, i: nat)
    requires cfg.Valid() && i < |calls| && Own(calls, a, i)
    ensures Started(cfg, calls, a, i) <==>
            && calls[i].port == cfg.sequence[0]
            && match EntryAt(cfg, calls, a, i)
               case None => RoomAt(cfg, calls, i)
               case Some(e) => e.step != 1 || e.lastKnock == calls[i].now
                               || calls[i].now - e.lastKnock > KNOCK_DEDUP_WINDOW
  {
    OwnCall(cfg, calls, a, i);
    assert forall j :: 1 <= j < |cfg.sequence| ==> cfg.sequence[j] != cfg.sequence[0];
  }

  /** The duplicate filter never swallows a real step: in every reachable table the next
      port of the sequence, in time, is accepted. */
  lemma NextPortAdvances(cfg: Settings, calls: seq<Call>, a: Address, k: nat)
    requires cfg.Valid() && k < |calls| && Own(calls, a, k)
    requires EntryAt(cfg, calls, a, k).Some?
    ensures var e := EntryAt(cfg, calls, a, k).value;
            && 1 <= e.step < |cfg.sequence|
            && (calls[k].port == cfg.sequence[e.step] && !Stale(cfg, e, calls[k].now) ==>
                  if e.step + 1 == |cfg.sequence| then
                    ResultAt(cfg, calls, k) == Some(Complete) && EntryAt(cfg, calls, a, k + 1) == None
                  else
                    && ResultAt(cfg, calls, k) == Some(InProgress)
                    && EntryAt(cfg, calls, a, k + 1) == Some(Entry(e.step + 1, calls[k].now, calls[k].port)))
  {
    hide After, Lookup, ResultAt;
    OwnCall(cfg, calls, a, k);
  }

  /** Soundness: a completion is always a full timed match of the address's own knocks,
      whatever other addresses, evictions and sweeps did meanwhile. */
  lemma CompletionSound(cfg: Settings, calls: seq<Call>, a: Address, k: nat) returns (idx: seq<nat>)
    requires cfg.Valid() && k < |calls| && Own(calls, a, k)
    requires ResultAt(cfg, calls, k) == Some(Complete)
    ensures FullMatch(cfg, calls, a, idx, k)
    ensures Started(cfg, calls, a, idx[0])
  {
    hide After, Lookup, ResultAt, Pick;
    TableCourse(cfg, calls, a);
    idx := MatchFound(cfg, calls, a, CourseOf(cfg, calls, a), k);
  }

  /** Completeness: a full timed match whose first knock started an attempt completes,
      under any interleaving of other knocks and sweeps, even with a full table. */
  lemma CompletionComplete(cfg: Settings, calls: seq<Call>, a: Address, idx: seq<nat>, k: nat)
    requires cfg.Valid() && ClockMonotone(calls) && k < |calls| && Own(calls, a, k)
    requires FullMatch(cfg, calls, a, idx, k) && Started(cfg, calls, a, idx[0])
    ensures ResultAt(cfg, calls, k) == Some(Complete)
  {
    hide After, Lookup, ResultAt, Pick;
    TableCourse(cfg, calls, a);
    MatchCompletes(cfg, calls, a, CourseOf(cfg, calls, a), idx, k);
  }

  /** Completions happen at exactly the knocks that end such a match. */
  lemma CompletionExact(cfg: Settings, calls: seq<Call>, a: Address, k: nat)
    requires cfg.Valid() && ClockMonotone(calls) && k < |calls| && Own(calls, a, k)
    ensures ResultAt(cfg, calls, k) == Some(Complete) <==>
            exists idx :: FullMatch(cfg, calls, a, idx, k) && Started(cfg, calls, a, idx[0])
  {
    if ResultAt(cfg, calls, k) == Some(Complete) {
      var idx := CompletionSound(cfg, calls, a, k);
    }
    forall idx | FullMatch(cfg, calls, a, idx, k) && Started(cfg, calls, a, idx[0])
      ensures ResultAt(cfg, calls, k) == Some(Complete)
    {
      CompletionComplete(cfg, calls, a, idx, k);
    }
  }

  /** Self-stabilisation: a tracked client that lost its place in any way knocks the first
      port again and completes with the rest, counting from the knock the table recorded:
      this one, or the first-port knock at most 5 seconds earlier that it repeats. */
  lemma RestartCompletes(cfg: Settings, calls: seq<Call>, a: Address, i: nat, idx: seq<nat>)
    requires cfg.Valid() && ClockMonotone(calls) && i < |calls|
    requires Own(calls, a, i) && calls[i].port == cfg.sequence[0]
    requires EntryAt(cfg, calls, a, i).Some?
    requires var e := EntryAt(cfg, calls, a, i).value;
             var lk := if e.step == 1 && calls[i].now - e.lastKnock <= KNOCK_DEDUP_WINDOW
                       then e.lastKnock else calls[i].now;
             InOrder(cfg, calls, a, i + 1, lk, idx)
    ensures ResultAt(cfg, calls, i) == Some(InProgress)
    ensures ResultAt(cfg, calls, idx[|idx| - 1]) == Some(Complete)
  {
    TableCourse(cfg, calls, a);
    FirstPortRestarts(cfg, After(cfg, calls, i), a, calls[i].now, calls[i].nowAlloc);
    InOrderCompletes(cfg, calls, a, CourseOf(cfg, calls, a), i + 1,
                     EntryAt(cfg, calls, a, i + 1).value.lastKnock, idx);
  }

  /** The automaton is an exact matcher: for an address that keeps its pace and is never
      refused, after each of its knocks its step is the length of the longest prefix of
      the sequence its history ends with, a whole match counting as 0, and the knock
      completes exactly when it newly makes that match whole. */
  lemma StepIsLongestMatch(cfg: Settings, calls: seq<Call>, a: Address, k: nat)
    requires cfg.Valid() && ClockMonotone(calls) && k < |calls| && Own(calls, a, k)
    requires forall i :: 0 <= i <= k && Own(calls, a, i) ==> PacedAt(cfg, calls, a, i)
    requires forall i :: 0 <= i <= k && Own(calls, a, i) && calls[i].port == cfg.sequence[0] ==>
               ResultAt(cfg, calls, i) != Some(Reset)
    ensures var h := HistoryAt(calls, a, k + 1).ports;
            var j := LongestMatch(cfg.sequence, h);
            && StepOf(EntryAt(cfg, calls, a, k + 1)) == (if j == |cfg.sequence| then 0 else j)
            && (ResultAt(cfg, calls, k) == Some(Complete) <==>
                  j == |cfg.sequence| && h != HistoryAt(calls, a, k).ports)
  {
    hide After, Lookup, ResultAt;
    TableCourse(cfg, calls, a);
    var c := CourseOf(cfg, calls, a);
    CourseMatches(cfg, calls, a, c, k);
    OwnMatches(cfg, calls, a, c, k);
  }
}
