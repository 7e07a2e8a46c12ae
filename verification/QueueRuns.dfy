/** Every interleaving of the threads that share the queue, one locked region at a time:
    pushes, pops, waits with their wake-ups and timeouts, and shutdown. */
module QueueRuns {
  import opened Common
  import opened Ring

  type Thread = nat

  /** asleep: in pthread_cond_timedwait, not yet signalled. woken: signalled, timed out or
      spuriously woken, and still to reacquire the lock. */
  datatype Sync = Sync(q: Queue, asleep: set<Thread>, woken: set<Thread>)

  /** A signal wakes at least one sleeper if there is one: wake says which. */
  datatype Step =
    | PushStep(e: KnockEvent, now: int, wake: set<Thread>)
    | PopStep
    | WaitStep(t: Thread)
    | StirStep(t: Thread)
    | ResumeStep(t: Thread, timedOut: bool)
    | ShutdownStep

  ghost predicate Enabled(s: Sync, st: Step) {
    match st
    case PushStep(_, _, wake) =>
      if s.q.count < |s.q.ring| then wake <= s.asleep && (s.asleep != {} ==> wake != {}) else wake == {}
    case PopStep => true
    case WaitStep(t) => t !in s.asleep && t !in s.woken
    case StirStep(t) => t in s.asleep
    case ResumeStep(t, _) => t in s.woken
    case ShutdownStep => true
  }

  /** The body of the wait, from the head of its loop on: sleep while there is nothing and
      no reason to stop, unless the deadline has passed; then take what there is. */
  function Pass(s: Sync, t: Thread, timedOut: bool): (Sync, Option<KnockEvent>)
    requires s.q.tail < |s.q.ring|
  {
    if s.q.count == 0 && !s.q.shuttingDown && !timedOut then
      (s.(asleep := s.asleep + {t}), None)
    else
      var (q, r) := Take(s.q);
      (s.(q := q), r)
  }

  function Next(s: Sync, st: Step): Sync
    requires s.q.tail < |s.q.ring| && s.q.head < |s.q.ring|
  {
    match st
    case PushStep(e, now, wake) =>
      Sync(Push(s.q, e, now).0, s.asleep - wake, s.woken + wake)
    case PopStep => s.(q := Take(s.q).0)
    case WaitStep(t) => Pass(s, t, false).0
    case StirStep(t) => s.(asleep := s.asleep - {t}, woken := s.woken + {t})
    case ResumeStep(t, timedOut) => Pass(s.(woken := s.woken - {t}), t, timedOut).0
    case ShutdownStep =>
      Sync(s.q.(shuttingDown := true), {}, s.woken + s.asleep)
  }

  /** What the step hands to its caller. */
  function Delivers(s: Sync, st: Step): Option<KnockEvent>
    requires s.q.tail < |s.q.ring|
  {
    match st
    case PopStep => Take(s.q).1
    case WaitStep(t) => Pass(s, t, false).1
    case ResumeStep(t, timedOut) => Pass(s, t, timedOut).1
    case _ => None
  }

  function StartQueue(ring: seq<KnockEvent>): Queue {
    Queue(ring, 0, 0, 0, false, 0, 0)
  }

  /** No wake-up is lost, and nobody sleeps through a shutdown. */
  ghost predicate SyncInv(s: Sync) {
    && QInv(s.q)
    && s.asleep !! s.woken
    && (s.asleep != {} ==> s.q.count <= |s.woken|)
    && (s.q.shuttingDown ==> s.asleep == {})
  }

  ghost predicate Takes(states: seq<Sync>, steps: seq<Step>, k: nat)
    requires k < |steps| && |states| == |steps| + 1
  {
    && states[k].q.tail < |states[k].q.ring| && states[k].q.head < |states[k].q.ring|
    && Enabled(states[k], steps[k])
    && states[k + 1] == Next(states[k], steps[k])
  }

  /** A run from the initialised queue, for a ring of any power-of-two size. */
  ghost predicate IsRun(states: seq<Sync>, steps: seq<Step>) {
    && |states| == |steps| + 1
    && IsPow2(|states[0].q.ring|)
    && states[0] == Sync(StartQueue(states[0].q.ring), {}, {})
    && forall k :: 0 <= k < |steps| ==> Takes(states, steps, k)
  }

  // ---------- no lost wake-up ----------

  lemma CardRemove(s: set<Thread>, t: Thread)
    requires t in s
    ensures |s - {t}| == |s| - 1
  {
  }

  lemma CardAdd(s: set<Thread>, w: set<Thread>)
    requires s !! w
    ensures |s + w| == |s| + |w|
    ensures w != {} ==> |w| >= 1
  {
  }

  lemma PushSync(s: Sync, e: KnockEvent, now: int, wake: set<Thread>)
    requires SyncInv(s) && Enabled(s, PushStep(e, now, wake))
    ensures SyncInv(Next(s, PushStep(e, now, wake)))
    ensures |Next(s, PushStep(e, now, wake)).q.ring| == |s.q.ring|
  {
    hide Contents, IsPow2, Wrap;
    PushAppends(s.q, e, now);
    CardAdd(s.woken, wake);
  }

  /** A thread on its way through the wait uses up at most one event of its own. */
  lemma PassSync(s: Sync, t: Thread, timedOut: bool)
    requires QInv(s.q) && s.asleep !! s.woken && t !in s.asleep && t !in s.woken
    requires s.asleep != {} ==> s.q.count <= |s.woken| + 1
    requires s.q.shuttingDown ==> s.asleep == {}
    ensures SyncInv(Pass(s, t, timedOut).0)
    ensures |Pass(s, t, timedOut).0.q.ring| == |s.q.ring|
  {
    hide Contents, IsPow2, Wrap;
    TakeRemoves(s.q);
  }

  lemma StepSync(s: Sync, st: Step)
    requires SyncInv(s) && Enabled(s, st)
    ensures SyncInv(Next(s, st))
    ensures |Next(s, st).q.ring| == |s.q.ring|
  {
    hide Contents, IsPow2, Wrap, Pass, Push;
    match st
    case PushStep(e, now, wake) => PushSync(s, e, now, wake);
    case PopStep => TakeRemoves(s.q);
    case WaitStep(t) => PassSync(s, t, false);
    case StirStep(t) => CardAdd(s.woken, {t});
    case ResumeStep(t, timedOut) =>
      CardRemove(s.woken, t);
      PassSync(s.(woken := s.woken - {t}), t, timedOut);
    case ShutdownStep =>
  }

  lemma {:induction false} RunSync(states: seq<Sync>, steps: seq<Step>, k: nat)
    requires IsRun(states, steps) && k <= |steps|
    ensures SyncInv(states[k])
    ensures |states[k].q.ring| == |states[0].q.ring|
  {
    if k > 0 {
      assert Takes(states, steps, k - 1);
      RunSync(states, steps, k - 1);
      StepSync(states[k - 1], steps[k - 1]);
    } else {
      assert states[0].q.head == Wrap(0, |states[0].q.ring|);
    }
  }

  lemma {:induction false} ShutdownLasts(states: seq<Sync>, steps: seq<Step>, i: nat, k: nat)
    requires IsRun(states, steps) && i < k <= |steps| && steps[i].ShutdownStep?
    ensures states[k].q.shuttingDown
    decreases k
  {
    assert Takes(states, steps, k - 1);
    if k - 1 > i {
      ShutdownLasts(states, steps, i, k - 1);
    }
  }

  /** No lost wake-up, for any number of waiters: while anyone sleeps, every event in the
      buffer has a woken waiter of its own still to run; and from a shutdown on, nobody
      sleeps or goes to sleep. The head is the tail plus the count, modulo the capacity. */
  lemma NoLostWakeup(states: seq<Sync>, steps: seq<Step>, k: nat)
    requires IsRun(states, steps) && k <= |steps|
    ensures var s := states[k];
            && (s.asleep != {} ==> s.q.count <= |s.woken|)
            && ((exists i :: 0 <= i < k && steps[i].ShutdownStep?) ==> s.asleep == {})
            && 0 < |s.q.ring|
            && s.q.head == (s.q.tail + s.q.count) % |s.q.ring|
  {
    RunSync(states, steps, k);
    WrapIsMod(states[k].q.tail + states[k].q.count, |states[k].q.ring|);
    if i :| 0 <= i < k && steps[i].ShutdownStep? {
      ShutdownLasts(states, steps, i, k);
    }
  }

  // ---------- when a wait sleeps, and when it returns ----------

  lemma {:induction false} ShutdownOnly(states: seq<Sync>, steps: seq<Step>, k: nat)
    requires IsRun(states, steps) && k <= |steps|
    ensures states[k].q.shuttingDown <==> exists i :: 0 <= i < k && steps[i].ShutdownStep?
  {
    if k > 0 {
      assert Takes(states, steps, k - 1);
      ShutdownOnly(states, steps, k - 1);
    }
  }

  /** The thread whose pass through the wait a step is, and whether its deadline has passed. */
  function Passing(st: Step): Option<(Thread, bool)> {
    match st
    case WaitStep(t) => Some((t, false))
    case ResumeStep(t, timedOut) => Some((t, timedOut))
    case _ => None
  }

  /** A pass through the wait leaves the thread asleep if and only if nothing is buffered, there
      has been no shutdown, and its deadline has not passed. Otherwise it has returned: it is
      neither asleep nor woken, and has taken the oldest event if there was one. */
  lemma SleepsExactly(states: seq<Sync>, steps: seq<Step>, k: nat)
    requires IsRun(states, steps) && k < |steps| && Passing(steps[k]).Some?
    ensures QInv(states[k].q) && states[k].q.head < |states[k].q.ring|
    ensures var s, s', (t, timedOut) := states[k], states[k + 1], Passing(steps[k]).value;
            && t !in s'.woken
            && (t in s'.asleep <==>
                  Contents(s.q) == [] && !timedOut && !exists i :: 0 <= i < k && steps[i].ShutdownStep?)
            && Delivers(s, steps[k]) == (if Contents(s.q) == [] then None else Some(Contents(s.q)[0]))
  {
    hide IsPow2, Wrap;
    assert Takes(states, steps, k);
    RunSync(states, steps, k);
    ShutdownOnly(states, steps, k);
    TakeRemoves(states[k].q);
  }

  /** Nobody is lost on the way: the threads in the wait change only by one that enters it and
      goes to sleep, or one that resumes and does not. */
  lemma WaitersKept(states: seq<Sync>, steps: seq<Step>, k: nat, t: Thread)
    requires IsRun(states, steps) && k < |steps|
    ensures var s, s' := states[k], states[k + 1];
            (t in s'.asleep || t in s'.woken) ==
            match Passing(steps[k])
            case Some((u, _)) => if t == u then t in s'.asleep else t in s.asleep || t in s.woken
            case None => t in s.asleep || t in s.woken
  {
    hide IsPow2, Wrap, Contents;
    assert Takes(states, steps, k);
    RunSync(states, steps, k);
  }

  // ---------- bounded FIFO ----------

  /** The events whose push returned 0, in order. */
  function Accepted(states: seq<Sync>, steps: seq<Step>, k: nat): seq<KnockEvent>
    requires k <= |steps| && |states| == |steps| + 1
  {
    if k == 0 then []
    else
      var before := Accepted(states, steps, k - 1);
      if steps[k - 1].PushStep? && states[k - 1].q.count < |states[k - 1].q.ring| then before + [steps[k - 1].e]
      else before
  }

  /** The events handed out by pops and waits, in order. */
  ghost function Delivered(states: seq<Sync>, steps: seq<Step>, k: nat): seq<KnockEvent>
    requires IsRun(states, steps) && k <= |steps|
  {
    if k == 0 then []
    else
      assert Takes(states, steps, k - 1);
      var before := Delivered(states, steps, k - 1);
      match Delivers(states[k - 1], steps[k - 1])
      case Some(e) => before + [e]
      case None => before
  }

  lemma StepFifo(s: Sync, st: Step)
    requires QInv(s.q) && s.q.head < |s.q.ring|
    ensures var s' := Next(s, st);
            && QInv(s'.q)
            && var c, c' := Contents(s.q), Contents(s'.q);
               match Delivers(s, st)
               case Some(e) => c == [e] + c' && !st.PushStep?
               case None => c' == if st.PushStep? && s.q.count < |s.q.ring| then c + [st.e] else c
  {
    match st
    case PushStep(e, now, wake) => PushAppends(s.q, e, now);
    case ShutdownStep => assert Contents(s.q.(shuttingDown := true)) == Contents(s.q);
    case _ =>
      TakeRemoves(s.q);
      assert Contents(s.q) != [] ==> Contents(s.q) == [Contents(s.q)[0]] + Contents(s.q)[1..];
  }

  /** The ring is a bounded FIFO under every interleaving: what was delivered, followed by
      what is buffered, is exactly what was accepted, in order. */
  lemma {:induction false} FifoExact(states: seq<Sync>, steps: seq<Step>, k: nat)
    requires IsRun(states, steps) && k <= |steps|
    ensures QInv(states[k].q)
    ensures Delivered(states, steps, k) + Contents(states[k].q) == Accepted(states, steps, k)
  {
    RunSync(states, steps, k);
    if k > 0 {
      FifoExact(states, steps, k - 1);
      assert Takes(states, steps, k - 1);
      StepFifo(states[k - 1], steps[k - 1]);
    }
  }

  // ---------- drop accounting ----------

  datatype Report = Report(at: int, drops: nat)

  /** The "queue full" reports logged so far. */
  ghost function Reports(states: seq<Sync>, steps: seq<Step>, k: nat): seq<Report>
    requires IsRun(states, steps) && k <= |steps|
  {
    if k == 0 then []
    else
      assert Takes(states, steps, k - 1);
      var before := Reports(states, steps, k - 1);
      if steps[k - 1].PushStep? && Push(states[k - 1].q, steps[k - 1].e, steps[k - 1].now).1.report > 0 then
        before + [Report(steps[k - 1].now, Push(states[k - 1].q, steps[k - 1].e, steps[k - 1].now).1.report)]
      else before
  }

  function Pushes(steps: seq<Step>, k: nat): nat
    requires k <= |steps|
  {
    if k == 0 then 0 else Pushes(steps, k - 1) + if steps[k - 1].PushStep? then 1 else 0
  }

  function SumDrops(r: seq<Report>): nat {
    if r == [] then 0 else SumDrops(r[..|r| - 1]) + r[|r| - 1].drops
  }

  lemma SumSnoc(r: seq<Report>, x: Report)
    ensures SumDrops(r + [x]) == SumDrops(r) + x.drops
  {
    assert (r + [x])[..|r|] == r;
  }

  /** One step's drops: a push that finds no room adds one, a report takes off what it reports. */
  lemma StepDrops(s: Sync, st: Step)
    requires s.q.tail < |s.q.ring| && s.q.head < |s.q.ring|
    ensures var before, after := s.q.dropped, Next(s, st).q.dropped;
            if st.PushStep? then
              after + Push(s.q, st.e, st.now).1.report + (if s.q.count < |s.q.ring| then 1 else 0) == before + 1
            else after == before
  {
  }

  /** Every push is accounted for: accepted, reported as dropped, or dropped and not yet reported. */
  lemma {:induction false} DropsAccounted(states: seq<Sync>, steps: seq<Step>, k: nat)
    requires IsRun(states, steps) && k <= |steps|
    ensures Pushes(steps, k)
         == |Accepted(states, steps, k)| + SumDrops(Reports(states, steps, k)) + states[k].q.dropped
  {
    hide Next, Push, Enabled, SumDrops;
    if k > 0 {
      DropsAccounted(states, steps, k - 1);
      assert Takes(states, steps, k - 1);
      StepDrops(states[k - 1], steps[k - 1]);
      if steps[k - 1].PushStep? {
        var at, pushed := steps[k - 1].now, Push(states[k - 1].q, steps[k - 1].e, steps[k - 1].now).1;
        SumSnoc(Reports(states, steps, k - 1), Report(at, pushed.report));
      }
    } else {
      NoDrops();
    }
  }

  lemma NoDrops()
    ensures SumDrops([]) == 0
  {
  }

  /** Reports come at least 10 seconds apart. */
  ghost predicate Spaced(r: seq<Report>) {
    forall i, j :: 0 <= i < j < |r| ==> r[j].at - r[i].at >= DROP_REPORT_INTERVAL
  }

  lemma {:induction false} ReportsSpaced(states: seq<Sync>, steps: seq<Step>, k: nat)
    requires IsRun(states, steps) && k <= |steps|
    ensures var r := Reports(states, steps, k);
            && Spaced(r)
            && (r != [] ==> states[k].q.lastDropReport == r[|r| - 1].at)
  {
    if k > 0 {
      ReportsSpaced(states, steps, k - 1);
      assert Takes(states, steps, k - 1);
    }
  }

  /** And none is held back: a drop leaves drops unreported only within 10 seconds of the
      latest report, or of time 0 if there has been none. */
  lemma DropsReported(states: seq<Sync>, steps: seq<Step>, k: nat)
    requires IsRun(states, steps) && k < |steps| && steps[k].PushStep?
    requires states[k].q.count == |states[k].q.ring| && states[k + 1].q.dropped > 0
    ensures var r := Reports(states, steps, k + 1);
            steps[k].now - (if r == [] then 0 else r[|r| - 1].at) < DROP_REPORT_INTERVAL
  {
    assert Takes(states, steps, k);
    ReportsSpaced(states, steps, k + 1);
    NoReportYet(states, steps, k + 1);
  }

  lemma {:induction false} NoReportYet(states: seq<Sync>, steps: seq<Step>, k: nat)
    requires IsRun(states, steps) && k <= |steps|
    ensures Reports(states, steps, k) == [] ==> states[k].q.lastDropReport == 0
  {
    if k > 0 {
      assert Takes(states, steps, k - 1);
      NoReportYet(states, steps, k - 1);
    }
  }

  function CountIn(r: seq<Report>, from: int, to: int): nat {
    if r == [] then 0
    else CountIn(r[..|r| - 1], from, to) + if from <= r[|r| - 1].at <= to then 1 else 0
  }

  lemma {:induction false} SpacedCount(r: seq<Report>, from: int, to: int)
    requires Spaced(r)
    ensures CountIn(r, from, to) <= if to < from then 0 else (to - from) / DROP_REPORT_INTERVAL + 1
  {
    if r != [] {
      var x := r[|r| - 1].at;
      var rest := r[..|r| - 1];
      if from <= x <= to {
        SpacedCount(rest, from, x - DROP_REPORT_INTERVAL);
        CountEarlier(rest, from, x - DROP_REPORT_INTERVAL, to);
      } else {
        SpacedCount(rest, from, to);
      }
    }
  }

  lemma {:induction false} CountEarlier(r: seq<Report>, from: int, last: int, to: int)
    requires last <= to && forall i :: 0 <= i < |r| ==> r[i].at <= last
    ensures CountIn(r, from, to) == CountIn(r, from, last)
  {
    if r != [] {
      CountEarlier(r[..|r| - 1], from, last, to);
    }
  }

  /** A flood cannot make the log flood: any span of T seconds holds at most T/10 + 1
      reports, even if the clock jumps about. */
  lemma ReportRate(states: seq<Sync>, steps: seq<Step>, k: nat, from: int, span: nat)
    requires IsRun(states, steps) && k <= |steps|
    ensures CountIn(Reports(states, steps, k), from, from + span) <= span / DROP_REPORT_INTERVAL + 1
  {
    ReportsSpaced(states, steps, k);
    SpacedCount(Reports(states, steps, k), from, from + span);
  }
}
