/** The knock automaton against a reference matcher: the longest prefix of the sequence
    that the address's port history, with adjacent repeats collapsed, ends with. */
module KnockMatcher {
  import opened Common
  import opened KnockTable
  import opened KnockCourse

  // ---------- the reference ----------

  /** The ports an address knocked, adjacent repeats collapsed, and when it first knocked the last. */
  datatype History = History(ports: seq<Port>, since: int)

  function HistoryAt(calls: seq<Call>, a: Address, k: nat): History
    requires k <= |calls|
  {
    if k == 0 then History([], 0)
    else
      var h := HistoryAt(calls, a, k - 1);
      if !Own(calls, a, k - 1) || EndsWith(h.ports, calls[k - 1].port) then h
      else History(h.ports + [calls[k - 1].port], calls[k - 1].now)
  }

  predicate EndsWith(h: seq<Port>, p: Port) {
    h != [] && h[|h| - 1] == p
  }

  /** The history ends with the first j ports of the sequence. */
  predicate IsMatch(s: seq<Port>, h: seq<Port>, j: nat) {
    && j <= |s| && j <= |h|
    && forall i :: 0 <= i < j ==> h[|h| - j + i] == s[i]
  }

  function LongestUpTo(s: seq<Port>, h: seq<Port>, n: nat): (j: nat)
    ensures j <= n && IsMatch(s, h, j)
    ensures forall i :: j < i <= n ==> !IsMatch(s, h, i)
  {
    if n == 0 || IsMatch(s, h, n) then n else LongestUpTo(s, h, n - 1)
  }

  /** The length of the longest prefix of s that h ends with. */
  function LongestMatch(s: seq<Port>, h: seq<Port>): (j: nat)
    ensures j <= |s| && IsMatch(s, h, j)
    ensures forall i :: j < i <= |s| ==> !IsMatch(s, h, i)
  {
    LongestUpTo(s, h, |s|)
  }

  lemma MatchEnd(s: seq<Port>, h: seq<Port>, j: nat)
    requires IsMatch(s, h, j)
    ensures j > 0 ==> EndsWith(h, s[j - 1])
  {
    if j > 0 {
      assert h[|h| - j + (j - 1)] == s[j - 1];
    }
  }

  lemma MatchSnoc(s: seq<Port>, h: seq<Port>, p: Port, i: nat)
    requires i < |s|
    ensures IsMatch(s, h + [p], i + 1) <==> IsMatch(s, h, i) && p == s[i]
  {
    var g := h + [p];
    if IsMatch(s, g, i + 1) {
      assert g[|g| - (i + 1) + i] == s[i];
      forall m | 0 <= m < i
        ensures h[|h| - i + m] == s[m]
      {
        assert g[|g| - (i + 1) + m] == s[m];
      }
    }
  }

  /** With distinct ports no match can overlap another, so a fresh port either extends the
      longest match, or starts over, or leaves nothing. */
  lemma LongestSnoc(s: seq<Port>, h: seq<Port>, p: Port)
    requires Distinct(s) && 2 <= |s| && !EndsWith(h, p)
    ensures var j := LongestMatch(s, h);
            LongestMatch(s, h + [p])
            == if j < |s| && p == s[j] then j + 1 else if p == s[0] then 1 else 0
  {
    var j := LongestMatch(s, h);
    var j' := LongestMatch(s, h + [p]);
    if j' > 0 {
      MatchSnoc(s, h, p, j' - 1);
      MatchEnd(s, h, j' - 1);
    }
    MatchEnd(s, h, j);
    MatchSnoc(s, h, p, 0);
    if j < |s| {
      MatchSnoc(s, h, p, j);
    }
  }

  // ---------- pace ----------

  /** An own knock k comes within the window of the first knock on the port before it, and
      within 5 seconds of it when it repeats that port. */
  ghost predicate PacedAt(cfg: Settings, calls: seq<Call>, a: Address, k: nat)
    requires k < |calls| && calls[k].Knock?
  {
    var h := HistoryAt(calls, a, k);
    h.ports != [] ==>
      && calls[k].now - h.since <= cfg.knockWindow
      && (EndsWith(h.ports, calls[k].port) ==> calls[k].now - h.since <= KNOCK_DEDUP_WINDOW)
  }

  function StepOf(o: Option<Entry>): int {
    if o.Some? then o.value.step else 0
  }

  /** The entry is the longest match; or it was whole or empty; or, between own knocks,
      the entry has gone stale and been dropped. */
  ghost predicate Matches(cfg: Settings, calls: seq<Call>, a: Address, c: Course, k: nat)
    requires Fits(cfg, calls, c) && k <= |calls|
  {
    var h := HistoryAt(calls, a, k);
    var j := LongestMatch(cfg.sequence, h.ports);
    match c.entries[k]
    case Some(e) => e.step == j && e.lastKnock == h.since
    case None => j == 0 || j == |cfg.sequence|
                 || (k > 0 && End(calls[k - 1]) - h.since > cfg.knockWindow)
  }

  /** After an own knock nothing has been dropped. */
  ghost predicate MatchesExactly(cfg: Settings, calls: seq<Call>, a: Address, c: Course, k: nat)
    requires Fits(cfg, calls, c) && k < |calls| && calls[k].Knock?
  {
    var h' := HistoryAt(calls, a, k + 1);
    var j := LongestMatch(cfg.sequence, h'.ports);
    && StepOf(c.entries[k + 1]) == (if j == |cfg.sequence| then 0 else j)
    && (c.entries[k + 1].Some? ==> c.entries[k + 1].value.lastKnock == h'.since)
    && (StepAt(cfg, calls, c, k).1 == Complete <==>
          j == |cfg.sequence| && h'.ports != HistoryAt(calls, a, k).ports)
  }

  lemma OwnMatches(cfg: Settings, calls: seq<Call>, a: Address, c: Course, k: nat)
    requires IsCourse(cfg, calls, a, c) && ClockMonotone(calls) && k < |calls| && Own(calls, a, k)
    requires Matches(cfg, calls, a, c, k) && PacedAt(cfg, calls, a, k)
    requires calls[k].port == cfg.sequence[0] ==> StepAt(cfg, calls, c, k).1 != Reset
    ensures MatchesExactly(cfg, calls, a, c, k)
  {
    var s, h, p := cfg.sequence, HistoryAt(calls, a, k), calls[k].port;
    var j := LongestMatch(s, h.ports);
    assert Moves(cfg, calls, a, c, k);
    MatchEnd(s, h.ports, j);
    if k > 0 {
      assert End(calls[k - 1]) <= calls[k].now;
    }
    if EndsWith(h.ports, p) {
      MatchSnoc(s, h.ports[..|h.ports| - 1], p, 0);
      assert h.ports[..|h.ports| - 1] + [p] == h.ports;
    } else {
      LongestSnoc(s, h.ports, p);
    }
  }

  lemma {:induction false} CourseMatches(cfg: Settings, calls: seq<Call>, a: Address, c: Course, k: nat)
    requires IsCourse(cfg, calls, a, c) && ClockMonotone(calls) && k <= |calls|
    requires forall i :: 0 <= i < k && Own(calls, a, i) ==> PacedAt(cfg, calls, a, i)
    requires forall i :: 0 <= i < k && Own(calls, a, i) && calls[i].port == cfg.sequence[0] ==>
               StepAt(cfg, calls, c, i).1 != Reset
    ensures Matches(cfg, calls, a, c, k)
  {
    if k > 0 {
      CourseMatches(cfg, calls, a, c, k - 1);
      assert Moves(cfg, calls, a, c, k - 1);
      if Own(calls, a, k - 1) {
        OwnMatches(cfg, calls, a, c, k - 1);
      } else if k > 1 {
        assert End(calls[k - 2]) <= calls[k - 1].now <= End(calls[k - 1]);
      }
    }
  }
}
