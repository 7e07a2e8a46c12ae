/** The course of one address through a run of the knock state machine: its entry before
    each call, moved only by its own knocks or dropped once stale. What the whole table
    does to an address is shown to be such a course in module KnockRuns. */
module KnockCourse {
  import opened Common
  import opened KnockTable

  /** One call into the state machine, with the clock readings it makes. */
  datatype Call =
    | Knock(ip: Address, port: Port, now: int, nowAlloc: int)
    | Cleanup(now: int)

  /** The last clock reading of a call. */
  function End(c: Call): int {
    match c
    case Knock(_, _, _, nowAlloc) => nowAlloc
    case Cleanup(now) => now
  }

  /** The clock never goes backwards, within a call or from one call to a later one. */
  ghost predicate ClockMonotone(calls: seq<Call>) {
    && (forall i :: 0 <= i < |calls| ==> calls[i].now <= End(calls[i]))
    && (forall i, j :: 0 <= i < j < |calls| ==> End(calls[i]) <= calls[j].now)
  }

  predicate Own(calls: seq<Call>, a: Address, i: nat)
    requires i < |calls|
  {
    calls[i].Knock? && calls[i].ip == a
  }

  /** entries[k] is what is known of the address before call k; admits[k] says whether
      call k would give an untracked address a slot. */
  datatype Course = Course(entries: seq<Option<Entry>>, admits: seq<bool>)

  ghost predicate Fits(cfg: Settings, calls: seq<Call>, c: Course) {
    && cfg.Valid()
    && |c.entries| == |calls| + 1 && |c.admits| == |calls|
    && forall k :: 0 <= k < |c.entries| && c.entries[k].Some? ==> GoodEntry(cfg, c.entries[k].value)
  }

  /** What an own knock at k does, and returns. */
  function StepAt(cfg: Settings, calls: seq<Call>, c: Course, k: nat): (Option<Entry>, KnockResult)
    requires Fits(cfg, calls, c) && k < |calls| && calls[k].Knock?
  {
    OwnStep(cfg, c.entries[k], calls[k].port, calls[k].now, c.admits[k])
  }

  /** An own knock moves the entry; any other call leaves it or drops it once stale. */
  ghost predicate Moves(cfg: Settings, calls: seq<Call>, a: Address, c: Course, k: nat)
    requires Fits(cfg, calls, c) && k < |calls|
  {
    if Own(calls, a, k) then
      c.entries[k + 1] == StepAt(cfg, calls, c, k).0
    else
      || c.entries[k + 1] == c.entries[k]
      || (c.entries[k + 1] == None && c.entries[k].Some? && Stale(cfg, c.entries[k].value, End(calls[k])))
  }

  ghost predicate IsCourse(cfg: Settings, calls: seq<Call>, a: Address, c: Course) {
    && Fits(cfg, calls, c)
    && c.entries[0] == None
    && forall k :: 0 <= k < |calls| ==> Moves(cfg, calls, a, c, k)
  }

  // ---------- timed matches ----------

  /** Where the wait after the j-th pick ends: at the next pick, or at end after the last. */
  function Until(idx: seq<nat>, j: nat, end: nat): nat {
    if j + 1 < |idx| then idx[j + 1] else end
  }

  /** idx[j] is a knock of a on port number j, after the previous pick and in its window,
      and each other knock of a before the next pick repeats that port within 5 seconds. */
  ghost predicate Pick(cfg: Settings, calls: seq<Call>, a: Address, idx: seq<nat>, j: nat, end: nat)
    requires j < |idx| <= |cfg.sequence| && end <= |calls|
  {
    && idx[j] < end
    && Own(calls, a, idx[j])
    && calls[idx[j]].port == cfg.sequence[j]
    && (j > 0 ==> idx[j - 1] < idx[j] && calls[idx[j]].now - calls[idx[j - 1]].now <= cfg.knockWindow)
    && (forall e :: idx[j] < e < Until(idx, j, end) && e < end && Own(calls, a, e) ==>
          calls[e].port == cfg.sequence[j] && calls[e].now - calls[idx[j]].now <= KNOCK_DEDUP_WINDOW)
  }

  /** idx picks knocks of a on the first |idx| ports of the sequence, in order and in time,
      and every other knock of a from the first pick up to end is a repeat in time. */
  ghost predicate TimedMatch(cfg: Settings, calls: seq<Call>, a: Address, idx: seq<nat>, end: nat)
    requires end <= |calls|
  {
    && 1 <= |idx| <= |cfg.sequence|
    && (forall j :: 0 <= j < |idx| ==> idx[j] < end)
    && forall j :: 0 <= j < |idx| ==> Pick(cfg, calls, a, idx, j, end)
  }

  lemma MatchStarts(cfg: Settings, calls: seq<Call>, a: Address, k: nat)
    requires k < |calls| && Own(calls, a, k) && cfg.sequence != [] && calls[k].port == cfg.sequence[0]
    ensures TimedMatch(cfg, calls, a, [k], k + 1)
  {
    assert Pick(cfg, calls, a, [k], 0, k + 1);
  }

  lemma MatchWaits(cfg: Settings, calls: seq<Call>, a: Address, idx: seq<nat>, k: nat)
    requires k < |calls| && TimedMatch(cfg, calls, a, idx, k)
    requires Own(calls, a, k) ==>
               && calls[k].port == cfg.sequence[|idx| - 1]
               && calls[k].now - calls[idx[|idx| - 1]].now <= KNOCK_DEDUP_WINDOW
    ensures TimedMatch(cfg, calls, a, idx, k + 1)
  {
    var end := k + 1;
    forall j | 0 <= j < |idx|
      ensures Pick(cfg, calls, a, idx, j, end)
    {
      assert Pick(cfg, calls, a, idx, j, k);
      if j + 1 < |idx| {
        assert Pick(cfg, calls, a, idx, j + 1, k);
      }
    }
  }

  lemma MatchGrows(cfg: Settings, calls: seq<Call>, a: Address, idx: seq<nat>, k: nat)
    requires k < |calls| && TimedMatch(cfg, calls, a, idx, k)
    requires |idx| < |cfg.sequence| && Own(calls, a, k) && calls[k].port == cfg.sequence[|idx|]
    requires calls[k].now - calls[idx[|idx| - 1]].now <= cfg.knockWindow
    ensures TimedMatch(cfg, calls, a, idx + [k], k + 1)
  {
    assert Pick(cfg, calls, a, idx, |idx| - 1, k);
    var more, end := idx + [k], k + 1;
    forall j | 0 <= j < |more|
      ensures Pick(cfg, calls, a, more, j, end)
    {
      if j < |idx| {
        assert Pick(cfg, calls, a, idx, j, k);
        if j + 1 < |idx| {
          assert Pick(cfg, calls, a, idx, j + 1, k);
        }
      }
    }
  }

  /** A match of the whole sequence that ends with call k. */
  ghost predicate FullMatch(cfg: Settings, calls: seq<Call>, a: Address, idx: seq<nat>, k: nat)
    requires k < |calls|
  {
    && TimedMatch(cfg, calls, a, idx, k + 1)
    && |idx| == |cfg.sequence|
    && idx[|idx| - 1] == k
  }

  /** Call i left the address at step 1 with i as its accepted first knock. */
  ghost predicate StartedAt(cfg: Settings, calls: seq<Call>, c: Course, i: nat)
    requires Fits(cfg, calls, c) && i < |calls|
  {
    c.entries[i + 1] == Some(Entry(1, calls[i].now, cfg.sequence[0]))
  }

  // ---------- soundness ----------

  /** idx is a timed match up to call k of exactly the steps the entry stands for. */
  ghost predicate Backed(cfg: Settings, calls: seq<Call>, a: Address, c: Course, idx: seq<nat>, k: nat)
    requires Fits(cfg, calls, c) && k <= |calls| && c.entries[k].Some?
  {
    && TimedMatch(cfg, calls, a, idx, k)
    && |idx| == c.entries[k].value.step
    && calls[idx[|idx| - 1]].now == c.entries[k].value.lastKnock
    && StartedAt(cfg, calls, c, idx[0])
  }

  lemma {:induction false} EntryBacked(cfg: Settings, calls: seq<Call>, a: Address, c: Course, k: nat) returns (idx: seq<nat>)
    requires IsCourse(cfg, calls, a, c) && k <= |calls| && c.entries[k].Some?
    ensures Backed(cfg, calls, a, c, idx, k)
  {
    hide Pick;
    var e := c.entries[k].value;
    assert Moves(cfg, calls, a, c, k - 1);
    var repeat := c.entries[k - 1] == Some(e) && calls[k - 1].Knock? && calls[k - 1].port == e.lastPort
                  && calls[k - 1].now - e.lastKnock <= KNOCK_DEDUP_WINDOW;
    if Own(calls, a, k - 1) && !repeat && e.step == 1 {
      idx := [k - 1];
      MatchStarts(cfg, calls, a, k - 1);
    } else {
      idx := EntryBacked(cfg, calls, a, c, k - 1);
      if Own(calls, a, k - 1) && !repeat {
        MatchGrows(cfg, calls, a, idx, k - 1);
        idx := idx + [k - 1];
      } else {
        MatchWaits(cfg, calls, a, idx, k - 1);
      }
    }
  }

  lemma MatchFound(cfg: Settings, calls: seq<Call>, a: Address, c: Course, k: nat) returns (idx: seq<nat>)
    requires IsCourse(cfg, calls, a, c) && k < |calls| && Own(calls, a, k)
    requires StepAt(cfg, calls, c, k).1 == Complete
    ensures FullMatch(cfg, calls, a, idx, k)
    ensures StartedAt(cfg, calls, c, idx[0])
  {
    idx := EntryBacked(cfg, calls, a, c, k);
    assert Moves(cfg, calls, a, c, k);
    MatchGrows(cfg, calls, a, idx, k);
    idx := idx + [k];
  }

  // ---------- completeness ----------

  /** When step j + 1 was accepted, counting from an entry at step 1 accepted at lk. */
  function AcceptedAt(calls: seq<Call>, lk: int, idx: seq<nat>, j: nat): int
    requires j <= |idx| && (j > 0 ==> idx[j - 1] < |calls|)
  {
    if j == 0 then lk else calls[idx[j - 1]].now
  }

  /** The first call after step j + 1 was accepted. */
  function Resume(start: nat, idx: seq<nat>, j: nat): nat
    requires j <= |idx|
  {
    if j == 0 then start else idx[j - 1] + 1
  }

  /** idx[j] is a knock of a on port number j + 1 in the window of the previous acceptance,
      and each knock of a in between repeats the port accepted last within 5 seconds. */
  ghost predicate Leg(cfg: Settings, calls: seq<Call>, a: Address, start: nat, lk: int, idx: seq<nat>, j: nat)
    requires j < |idx| < |cfg.sequence| && (j > 0 ==> idx[j - 1] < |calls|)
  {
    && Resume(start, idx, j) <= idx[j] < |calls|
    && Own(calls, a, idx[j])
    && calls[idx[j]].port == cfg.sequence[j + 1]
    && calls[idx[j]].now - AcceptedAt(calls, lk, idx, j) <= cfg.knockWindow
    && (forall e :: Resume(start, idx, j) <= e < idx[j] && Own(calls, a, e) ==>
          && calls[e].port == cfg.sequence[j]
          && calls[e].now - AcceptedAt(calls, lk, idx, j) <= KNOCK_DEDUP_WINDOW)
  }

  /** From call start on, with the first port accepted at lk, idx picks knocks of a on the
      second port onwards, in order and in time, all others being repeats in time. */
  ghost predicate InOrder(cfg: Settings, calls: seq<Call>, a: Address, start: nat, lk: int, idx: seq<nat>) {
    && |idx| + 1 == |cfg.sequence|
    && (forall j :: 0 <= j < |idx| ==> idx[j] < |calls|)
    && forall j :: 0 <= j < |idx| ==> Leg(cfg, calls, a, start, lk, idx, j)
  }

  /** A call on the way to the j-th pick leaves an entry in time as it is. */
  lemma WaitsOnTrack(cfg: Settings, calls: seq<Call>, a: Address, c: Course,
                     start: nat, lk: int, idx: seq<nat>, j: nat, k: nat)
    requires Fits(cfg, calls, c) && ClockMonotone(calls) && j < |idx| < |cfg.sequence|
    requires (j > 0 ==> idx[j - 1] < |calls|) && Leg(cfg, calls, a, start, lk, idx, j)
    requires Resume(start, idx, j) <= k < idx[j] && Moves(cfg, calls, a, c, k)
    requires c.entries[k] == Some(Entry(j + 1, AcceptedAt(calls, lk, idx, j), cfg.sequence[j]))
    ensures c.entries[k + 1] == c.entries[k]
  {
    if !Own(calls, a, k) {
      assert End(calls[k]) <= calls[idx[j]].now;
    }
  }

  /** A pick moves the entry on by one step. */
  lemma PickAdvances(cfg: Settings, calls: seq<Call>, a: Address, c: Course,
                     start: nat, lk: int, idx: seq<nat>, j: nat)
    requires Fits(cfg, calls, c) && j < |idx| && |idx| + 1 == |cfg.sequence|
    requires (j > 0 ==> idx[j - 1] < |calls|) && Leg(cfg, calls, a, start, lk, idx, j)
    requires Moves(cfg, calls, a, c, idx[j])
    requires c.entries[idx[j]] == Some(Entry(j + 1, AcceptedAt(calls, lk, idx, j), cfg.sequence[j]))
    ensures StepAt(cfg, calls, c, idx[j])
         == if j + 2 == |cfg.sequence| then (None, Complete)
            else (Some(Entry(j + 2, calls[idx[j]].now, cfg.sequence[j + 1])), InProgress)
    ensures c.entries[idx[j] + 1] == StepAt(cfg, calls, c, idx[j]).0
  {
    assert cfg.sequence[j] != cfg.sequence[j + 1];
  }

  /** No other traffic can disturb an address that keeps to the sequence. */
  lemma {:induction false} StaysOnTrack(cfg: Settings, calls: seq<Call>, a: Address, c: Course,
                                        start: nat, lk: int, idx: seq<nat>, j: nat, p: nat)
    requires IsCourse(cfg, calls, a, c) && ClockMonotone(calls) && InOrder(cfg, calls, a, start, lk, idx)
    requires start <= |calls| && j < |idx| && Resume(start, idx, j) <= p <= idx[j]
    requires c.entries[start] == Some(Entry(1, lk, cfg.sequence[0]))
    ensures c.entries[p] == Some(Entry(j + 1, AcceptedAt(calls, lk, idx, j), cfg.sequence[j]))
    decreases p
  {
    hide Moves, StepAt, ClockMonotone, Fits, Leg;
    assert Leg(cfg, calls, a, start, lk, idx, j);
    if p > Resume(start, idx, j) {
      assert Moves(cfg, calls, a, c, p - 1);
      StaysOnTrack(cfg, calls, a, c, start, lk, idx, j, p - 1);
      WaitsOnTrack(cfg, calls, a, c, start, lk, idx, j, p - 1);
    } else if j > 0 {
      assert Leg(cfg, calls, a, start, lk, idx, j - 1);
      assert Moves(cfg, calls, a, c, p - 1);
      ResumeBefore(cfg, calls, a, start, lk, idx, j - 1);
      StaysOnTrack(cfg, calls, a, c, start, lk, idx, j - 1, p - 1);
      PickAdvances(cfg, calls, a, c, start, lk, idx, j - 1);
    }
  }

  lemma ResumeBefore(cfg: Settings, calls: seq<Call>, a: Address, start: nat, lk: int, idx: seq<nat>, j: nat)
    requires j < |idx| < |cfg.sequence| && (j > 0 ==> idx[j - 1] < |calls|)
    requires Leg(cfg, calls, a, start, lk, idx, j)
    ensures Resume(start, idx, j) <= idx[j] < |calls|
  {
  }

  lemma InOrderCompletes(cfg: Settings, calls: seq<Call>, a: Address, c: Course, start: nat, lk: int, idx: seq<nat>)
    requires IsCourse(cfg, calls, a, c) && ClockMonotone(calls) && InOrder(cfg, calls, a, start, lk, idx)
    requires start <= |calls| && c.entries[start] == Some(Entry(1, lk, cfg.sequence[0]))
    ensures Leg(cfg, calls, a, start, lk, idx, |idx| - 1)
    ensures StepAt(cfg, calls, c, idx[|idx| - 1]).1 == Complete
  {
    var j := |idx| - 1;
    assert Leg(cfg, calls, a, start, lk, idx, j);
    StaysOnTrack(cfg, calls, a, c, start, lk, idx, j, idx[j]);
    assert Moves(cfg, calls, a, c, idx[j]);
    PickAdvances(cfg, calls, a, c, start, lk, idx, j);
  }

  /** A full match, seen from just after its first knock. */
  lemma MatchInOrder(cfg: Settings, calls: seq<Call>, a: Address, idx: seq<nat>, k: nat)
    requires k < |calls| && 2 <= |cfg.sequence| && FullMatch(cfg, calls, a, idx, k)
    ensures InOrder(cfg, calls, a, idx[0] + 1, calls[idx[0]].now, idx[1..])
  {
    var rest, start, lk := idx[1..], idx[0] + 1, calls[idx[0]].now;
    forall j | 0 <= j < |rest|
      ensures Leg(cfg, calls, a, start, lk, rest, j)
    {
      assert Pick(cfg, calls, a, idx, j, k + 1);
      assert Pick(cfg, calls, a, idx, j + 1, k + 1);
      assert Until(idx, j, k + 1) == rest[j];
    }
  }

  lemma MatchCompletes(cfg: Settings, calls: seq<Call>, a: Address, c: Course, idx: seq<nat>, k: nat)
    requires IsCourse(cfg, calls, a, c) && ClockMonotone(calls) && k < |calls| && Own(calls, a, k)
    requires FullMatch(cfg, calls, a, idx, k) && StartedAt(cfg, calls, c, idx[0])
    ensures StepAt(cfg, calls, c, k).1 == Complete
  {
    assert Pick(cfg, calls, a, idx, 0, k + 1);
    MatchInOrder(cfg, calls, a, idx, k);
    InOrderCompletes(cfg, calls, a, c, idx[0] + 1, calls[idx[0]].now, idx[1..]);
  }
}
