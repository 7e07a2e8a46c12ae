/** The daemon as it runs (src/main.c): the queue, the client table and the firewall manager
    as objects, the capture thread's turns, and the processor loop with the capture thread,
    signals and timeouts acting between any two of its regions. Every region is one step of
    the system in module Daemon. */
module Process {
  import opened Common
  import C = Config
  import CG = ConfigGlobals
  import D = Daemon
  import N = Netfilter
  import F = Firewall
  import G = GrantTable
  import K = Knocker
  import P = PacketQueue
  import Q = QueueRuns
  import R = Ring
  import S = Sniffer
  import T = KnockTable
  import opened KnockCourse

  /** What the rest of the system does before a region of the processor, in order. */
  datatype Act =
    | Captured(outcome: S.Outcome, wait: nat)
    | Signalled
    | TimedOut

  /** One turn of the processor: what happens before it, how long its clock readings take,
      how its iptables commands fare, and whether a wait it resumes from timed out. */
  datatype Turn = Turn(before: seq<Act>, wait: nat, more: nat, ok: bool, oks: seq<bool>, timedOut: bool)

  lemma RunGrows(cfg: Settings, states: seq<D.State>, steps: seq<D.Step>, st: D.Step, s: D.State)
    requires |states| == |steps| + 1 && forall k :: 0 <= k < |steps| ==> D.Goes(cfg, states, steps, k)
    requires D.Enabled(cfg, states[|steps|], st) && s == D.Next(cfg, states[|steps|], st)
    ensures forall k :: 0 <= k < |steps + [st]| ==> D.Goes(cfg, states + [s], steps + [st], k)
  {
    hide D.Enabled, D.Next;
    forall k | 0 <= k < |steps + [st]|
      ensures D.Goes(cfg, states + [s], steps + [st], k)
    {
      if k < |steps| {
        assert D.Goes(cfg, states, steps, k);
      }
    }
  }

  /** A step of the processor thread, as opposed to the capture thread or the environment. */
  predicate IsRegion(st: D.Step) {
    match st
    case BeginWait => true
    case Resume(_) => true
    case Handle(_, _) => true
    case OpenGrant(_, _) => true
    case Drain => true
    case Tick(_, _) => true
    case SweepCheck(_, _) => true
    case _ => false
  }

  /** How many of them there are. */
  function Regions(steps: seq<D.Step>): nat {
    if steps == [] then 0
    else Regions(steps[..|steps| - 1]) + if IsRegion(steps[|steps| - 1]) then 1 else 0
  }

  /** The record has grown by the capture of e at time now. */
  predicate CapturedOnly(was: seq<D.Step>, steps: seq<D.Step>, e: KnockEvent, now: int) {
    && was <= steps && |steps| == |was| + 1
    && steps[|was|].Capture? && steps[|was|].e == e && steps[|was|].now == now
  }

  class Process {
    const cfg: Settings
    const queue: P.PacketQueue
    const table: K.ClientTable
    const firewall: F.Manager
    var running: bool
    var lastCleanup: int
    var clock: int
    var capturing: bool
    ghost var pc: D.Pc
    ghost var calls: seq<Call>
    ghost var accepted: seq<KnockEvent>
    ghost var delivered: seq<KnockEvent>
    ghost var lastOpen: map<Address, D.OpenCall>
    ghost var states: seq<D.State>
    ghost var steps: seq<D.Step>

    ghost function View(): D.State
      reads this, queue, queue.ring, table, table.clients, firewall, firewall.grants
    {
      D.State(queue.State(), table.clients[..], firewall.State(), pc, running, capturing, lastCleanup,
              clock, calls, accepted, delivered, lastOpen)
    }

    /** The objects fit together, and the record is a run of the step system up to here. */
    ghost predicate Valid()
      reads this, queue, queue.ring, table, table.clients, firewall, firewall.grants
    {
      && table.cfg == cfg && firewall.cfg == cfg
      && queue.Valid() && table.Valid() && D.QueueInv(View())
      && |states| == |steps| + 1 && states[|steps|] == View()
      && forall k :: 0 <= k < |steps| ==> D.Goes(cfg, states, steps, k)
    }

    /** Everything initialised: an empty queue and table, and a firewall whose init succeeded. */
    constructor (cfg: Settings, queue: P.PacketQueue, table: K.ClientTable, firewall: F.Manager, now: int)
      requires cfg.Valid() && table.cfg == cfg && firewall.cfg == cfg
      requires queue.Valid() && queue.State() == Q.Sync(Q.StartQueue(queue.ring[..]), {}, {})
      requires table.clients[..] == T.EmptyTable(cfg)
      requires exists fw, o :: G.Init(cfg, fw, o) == (firewall.State(), true)
      ensures this.cfg == cfg && this.queue == queue && this.table == table && this.firewall == firewall
      ensures Valid() && D.Starts(cfg, View()) && steps == []
    {
      this.cfg, this.queue, this.table, this.firewall := cfg, queue, table, firewall;
      running, lastCleanup, clock := true, now, now;
      capturing, pc := true, D.LoopTop;
      calls, accepted, delivered, lastOpen := [], [], [], map[];
      steps := [];
      new;
      T.EmptyInv(cfg);
      assert D.Starts(cfg, View());
      D.StartInv(cfg, View());
      states := [View()];
    }

    /** Put the step just taken on the record. */
    ghost method Record(st: D.Step, was: D.State)
      requires table.cfg == cfg && firewall.cfg == cfg && queue.Valid() && table.Valid()
      requires |states| == |steps| + 1 && states[|steps|] == was
      requires forall k :: 0 <= k < |steps| ==> D.Goes(cfg, states, steps, k)
      requires D.QueueInv(was) && D.Enabled(cfg, was, st) && View() == D.Next(cfg, was, st)
      modifies this`states, this`steps
      ensures Valid() && View() == old(View())
      ensures states == old(states) + [View()] && steps == old(steps) + [st]
      ensures Regions(steps) == Regions(old(steps)) + if IsRegion(st) then 1 else 0
    {
      hide D.Enabled, D.Next, D.QueueInv, D.Goes;
      assert (steps + [st])[..|steps|] == steps;
      D.QueueKept(cfg, was, st);
      RunGrows(cfg, states, steps, st, View());
      states, steps := states + [View()], steps + [st];
    }

    // ---------- the capture thread and the environment ----------

    /** The capture thread queues a knock; a signal wakes whoever sleeps. */
    method Push(e: KnockEvent, now: int)
      requires Valid() && capturing && clock <= now
      modifies this, queue, queue.ring
      ensures Valid()
      ensures states == old(states) + [View()]
      ensures Regions(steps) == Regions(old(steps))
      ensures CapturedOnly(old(steps), steps, e, now)
      ensures pc == old(pc) && running == old(running) && capturing
    {
      hide T.TableInv, T.Process, T.Sweep, G.Open, G.Tick, G.Shutdown, R.Contents, R.Push, R.Take, D.Goes;
      ghost var was := View();
      var wake := if queue.count < queue.ring.Length then queue.asleep else {};
      var rc, toReport := queue.Push(e, now, wake);
      clock := now;
      accepted := D.Queued(was, Q.PushStep(e, now, wake)).accepted;
      Record(D.Capture(e, now, wake), was);
    }

    /** The capture thread leaves its loop and wakes the processor. */
    method CaptureEnds(failed: bool)
      requires Valid() && capturing && (failed || !running)
      modifies this, queue
      ensures Valid()
      ensures states == old(states) + [View()] && steps == old(steps) + [D.CaptureEnds(failed)]
      ensures Regions(steps) == Regions(old(steps))
      ensures pc == old(pc) && !capturing && running == (old(running) && !failed)
    {
      hide T.TableInv, T.Process, T.Sweep, G.Open, G.Tick, G.Shutdown, R.Contents, R.Push, R.Take, D.Goes;
      ghost var was := View();
      queue.Shutdown();
      capturing, running := false, running && !failed;
      Record(D.CaptureEnds(failed), was);
    }

    /** SIGINT or SIGTERM. */
    method Signal()
      requires Valid()
      modifies this
      ensures Valid()
      ensures states == old(states) + [View()] && steps == old(steps) + [D.Signal]
      ensures Regions(steps) == Regions(old(steps))
      ensures pc == old(pc)
    {
      hide T.TableInv, T.Process, T.Sweep, G.Open, G.Tick, G.Shutdown, R.Contents, R.Push, R.Take, D.Goes;
      ghost var was := View();
      running := false;
      Record(D.Signal, was);
    }

    /** The processor's sleep ends by timeout, or for no reason. */
    method Stir()
      requires Valid() && D.PROCESSOR in queue.asleep
      modifies this, queue
      ensures Valid()
      ensures states == old(states) + [View()] && steps == old(steps) + [D.Stir]
      ensures Regions(steps) == Regions(old(steps))
      ensures pc == old(pc)
    {
      hide T.TableInv, T.Process, T.Sweep, G.Open, G.Tick, G.Shutdown, R.Contents, R.Push, R.Take, D.Goes;
      ghost var was := View();
      queue.Wake(D.PROCESSOR);
      Record(D.Stir, was);
    }

    /** The processor calls pktqueue_wait. */
    method BeginWait() returns (slept: bool, event: Option<KnockEvent>)
      requires Valid() && pc == D.LoopTop && running
      modifies this, queue
      ensures Valid()
      ensures states == old(states) + [View()] && steps == old(steps) + [D.BeginWait]
      ensures Regions(steps) == Regions(old(steps)) + 1
      ensures slept <==> pc == D.Waiting
      ensures !slept ==> pc == (match event case Some(e) => D.Handling(e) case None => D.Ticking)
    {
      hide T.TableInv, T.Process, T.Sweep, G.Open, G.Tick, G.Shutdown, R.Contents, R.Push, R.Take, D.Goes;
      ghost var was := View();
      slept, event := queue.Wait(D.PROCESSOR);
      delivered, pc := D.AfterWait(was, Q.WaitStep(D.PROCESSOR)).delivered, D.AfterWait(was, Q.WaitStep(D.PROCESSOR)).pc;
      Record(D.BeginWait, was);
    }

    /** The processor finds that it is to stop. */
    method LeaveLoop()
      requires Valid() && pc == D.LoopTop && !running
      modifies this
      ensures Valid()
      ensures states == old(states) + [View()] && steps == old(steps) + [D.BeginWait]
      ensures Regions(steps) == Regions(old(steps)) + 1
      ensures pc == D.Stopped
    {
      hide T.TableInv, T.Process, T.Sweep, G.Open, G.Tick, G.Shutdown, R.Contents, R.Push, R.Take, D.Goes;
      ghost var was := View();
      pc := D.Stopped;
      Record(D.BeginWait, was);
    }

    /** The processor, woken, goes on with its wait. */
    method Resume(timedOut: bool) returns (slept: bool, event: Option<KnockEvent>)
      requires Valid() && pc == D.Waiting && D.PROCESSOR in queue.woken
      modifies this, queue
      ensures Valid()
      ensures states == old(states) + [View()] && steps == old(steps) + [D.Resume(timedOut)]
      ensures Regions(steps) == Regions(old(steps)) + 1
      ensures slept <==> pc == D.Waiting
      ensures !slept ==> pc == (match event case Some(e) => D.Handling(e) case None => D.Ticking)
    {
      hide T.TableInv, T.Process, T.Sweep, G.Open, G.Tick, G.Shutdown, R.Contents, R.Push, R.Take, D.Goes;
      ghost var was := View();
      slept, event := queue.Resume(D.PROCESSOR, timedOut);
      delivered, pc := D.AfterWait(was, Q.ResumeStep(D.PROCESSOR, timedOut)).delivered, D.AfterWait(was, Q.ResumeStep(D.PROCESSOR, timedOut)).pc;
      Record(D.Resume(timedOut), was);
    }

    /** knocker_process. */
    method Handle(e: KnockEvent, now: int, nowAlloc: int) returns (result: T.KnockResult)
      requires Valid() && pc == D.Handling(e) && clock <= now <= nowAlloc
      modifies this, table.clients
      ensures Valid()
      ensures states == old(states) + [View()] && steps == old(steps) + [D.Handle(now, nowAlloc)]
      ensures Regions(steps) == Regions(old(steps)) + 1
      ensures if result == T.Complete then pc.Opening? && pc.ip == e.srcIp else pc == D.Draining
    {
      hide T.TableInv, T.Process, T.Sweep, G.Open, G.Tick, G.Shutdown, R.Contents, R.Push, R.Take, D.Goes;
      ghost var was := View();
      result := table.Process(e.srcIp, e.dstPort, now, nowAlloc);
      clock := nowAlloc;
      pc := if result == T.Complete then D.Opening(e.srcIp, |calls|) else D.Draining;
      calls := calls + [Knock(e.srcIp, e.dstPort, now, nowAlloc)];
      Record(D.Handle(now, nowAlloc), was);
    }

    /** firewall_open, for the completion just seen. */
    method OpenGrant(ip: Address, now: int, ok: bool) returns (rc: int)
      requires Valid() && pc.Opening? && pc.ip == ip && clock <= now
      modifies this, firewall, firewall.grants
      ensures Valid() && firewall.grants == old(firewall.grants)
      ensures states == old(states) + [View()] && steps == old(steps) + [D.OpenGrant(now, ok)]
      ensures Regions(steps) == Regions(old(steps)) + 1
      ensures pc == D.Draining
    {
      hide T.TableInv, T.Process, T.Sweep, G.Open, G.Tick, G.Shutdown, R.Contents, R.Push, R.Take, D.Goes;
      ghost var was := View();
      rc := firewall.Open(ip, now, ok);
      clock := now;
      lastOpen := lastOpen[ip := D.OpenCall(was.pc.at, now)];
      pc := D.Draining;
      Record(D.OpenGrant(now, ok), was);
    }

    /** pktqueue_pop. */
    method Drain() returns (event: Option<KnockEvent>)
      requires Valid() && pc == D.Draining
      modifies this, queue
      ensures Valid()
      ensures states == old(states) + [View()] && steps == old(steps) + [D.Drain]
      ensures Regions(steps) == Regions(old(steps)) + 1
      ensures pc == (match event case Some(e) => D.Handling(e) case None => D.Ticking)
    {
      hide T.TableInv, T.Process, T.Sweep, G.Open, G.Tick, G.Shutdown, R.Contents, R.Push, R.Take, D.Goes;
      ghost var was := View();
      event := queue.Pop();
      delivered := D.Queued(was, Q.PopStep).delivered;
      pc := D.Answered(was, Q.PopStep, D.Ticking);
      Record(D.Drain, was);
    }

    /** firewall_tick. */
    method Tick(now: int, oks: seq<bool>)
      requires Valid() && pc == D.Ticking && clock <= now && |oks| == G.MAX_EXPIRY_PER_TICK
      modifies this, firewall, firewall.grants
      ensures Valid() && firewall.grants == old(firewall.grants)
      ensures states == old(states) + [View()] && steps == old(steps) + [D.Tick(now, oks)]
      ensures Regions(steps) == Regions(old(steps)) + 1
      ensures pc == D.Sweeping
    {
      hide T.TableInv, T.Process, T.Sweep, G.Open, G.Tick, G.Shutdown, R.Contents, R.Push, R.Take, D.Goes;
      ghost var was := View();
      firewall.Tick(now, oks);
      clock, pc := now, D.Sweeping;
      Record(D.Tick(now, oks), was);
    }

    /** The stale sweep, when it is due. */
    method SweepCheck(now: int, sweepNow: int)
      requires Valid() && pc == D.Sweeping && clock <= now <= sweepNow
      modifies this, table.clients
      ensures Valid()
      ensures states == old(states) + [View()] && steps == old(steps) + [D.SweepCheck(now, sweepNow)]
      ensures Regions(steps) == Regions(old(steps)) + 1
      ensures pc == D.LoopTop
    {
      hide T.TableInv, T.Process, T.Sweep, G.Open, G.Tick, G.Shutdown, R.Contents, R.Push, R.Take, D.Goes;
      ghost var was := View();
      if now - lastCleanup >= D.STALE_SCAN_INTERVAL {
        var cleaned := table.CleanupStale(sweepNow);
        calls := calls + [Cleanup(sweepNow)];
        lastCleanup := now;
      }
      clock, pc := sweepNow, D.LoopTop;
      Record(D.SweepCheck(now, sweepNow), was);
    }

    // ---------- the loops ----------

    /** The record has grown from an earlier one. */
    ghost predicate Extends(was: seq<D.State>, did: seq<D.Step>)
      reads this
    {
      did <= steps && (was != [] ==> states != [] && states[0] == was[0])
    }

    /** One pass of the capture loop, given what the sniffer returned: leave if told to stop,
        queue a knock, stop the daemon on a failure, and go round again on a timeout. */
    method CaptureTurn(outcome: S.Outcome, wait: nat)
      requires Valid()
      modifies this, queue, queue.ring
      ensures Valid() && pc == old(pc)
      ensures Extends(old(states), old(steps)) && Regions(steps) == Regions(old(steps))
      ensures capturing == (old(capturing) && old(running) && !outcome.Error?)
      ensures if !old(capturing) then steps == old(steps)
              else if !old(running) then steps == old(steps) + [D.CaptureEnds(false)]
              else match outcome
                   case Knock(e) => CapturedOnly(old(steps), steps, e, old(clock) + wait)
                   case Error => steps == old(steps) + [D.CaptureEnds(true)]
                   case _ => steps == old(steps)
    {
      if capturing {
        if !running {
          CaptureEnds(false);
        } else {
          match outcome
          case Knock(e) => Push(e, clock + wait);
          case Error => CaptureEnds(true);
          case Again =>
          case Blocked =>
        }
      }
    }

    /** Whatever happens before the processor's next region. */
    method Meanwhile(acts: seq<Act>)
      requires Valid()
      modifies this, queue, queue.ring
      ensures Valid() && pc == old(pc)
      ensures Extends(old(states), old(steps)) && Regions(steps) == Regions(old(steps))
    {
      for i := 0 to |acts|
        invariant Valid() && pc == old(pc)
        invariant Extends(old(states), old(steps)) && Regions(steps) == Regions(old(steps))
      {
        match acts[i]
        case Captured(outcome, wait) => CaptureTurn(outcome, wait);
        case Signalled => Signal();
        case TimedOut =>
          if D.PROCESSOR in queue.asleep {
            Stir();
          }
      }
    }

    /** Handle one captured knock: a completion opens the firewall. n counts the turns used. */
    method ProcessEvent(e: KnockEvent, turn: Turn, turn': Turn) returns (n: nat)
      requires Valid() && pc == D.Handling(e)
      modifies this, queue, queue.ring, table.clients, firewall, firewall.grants
      ensures Valid() && firewall.grants == old(firewall.grants) && pc == D.Draining
      ensures Extends(old(states), old(steps)) && 1 <= n <= 2 && Regions(steps) == Regions(old(steps)) + n
    {
      hide View, Valid, Regions;
      Meanwhile(turn.before);
      var result := Handle(e, clock + turn.wait, clock + turn.wait + turn.more);
      n := 1;
      if result == T.Complete {
        Meanwhile(turn'.before);
        var rc := OpenGrant(e.srcIp, clock + turn'.wait, turn'.ok);
        n := 2;
      }
    }

    /** pktqueue_wait from the first sleep on, through wake-ups and returns to sleep; it is
        left asleep only if nothing wakes it, or turns run out. */
    method KeepWaiting(env: nat -> Turn, turns: nat, from: nat) returns (n: nat, slept: bool, event: Option<KnockEvent>)
      requires Valid() && pc == D.Waiting && from <= turns
      modifies this, queue, queue.ring
      ensures Valid() && Extends(old(states), old(steps))
      ensures from <= n && Regions(steps) == Regions(old(steps)) + n - from
      ensures slept <==> pc == D.Waiting
      ensures slept ==> n >= turns || D.PROCESSOR !in queue.woken
      ensures !slept ==> pc == (match event case Some(e) => D.Handling(e) case None => D.Ticking)
    {
      hide View, Valid, Regions;
      n, slept, event := from, true, None;
      while slept && n < turns
        invariant Valid() && Extends(old(states), old(steps))
        invariant from <= n && Regions(steps) == Regions(old(steps)) + n - from
        invariant slept <==> pc == D.Waiting
        invariant !slept ==> pc == (match event case Some(e) => D.Handling(e) case None => D.Ticking)
      {
        Meanwhile(env(n).before);
        if D.PROCESSOR !in queue.woken {
          return;
        }
        slept, event := Resume(env(n).timedOut);
        n := n + 1;
      }
    }

    /** Handle an event and everything queued behind it, while turns last. */
    method HandleAll(first: KnockEvent, env: nat -> Turn, turns: nat, from: nat) returns (n: nat, done: bool)
      requires Valid() && pc == D.Handling(first)
      modifies this, queue, queue.ring, table.clients, firewall, firewall.grants
      ensures Valid() && firewall.grants == old(firewall.grants) && Extends(old(states), old(steps))
      ensures from <= n && Regions(steps) == Regions(old(steps)) + n - from
      ensures if done then pc == D.Ticking else n >= turns
    {
      hide View, Valid, Regions;
      var event := Some(first);
      n := from;
      while event.Some? && n < turns
        invariant Valid() && firewall.grants == old(firewall.grants) && Extends(old(states), old(steps))
        invariant from <= n && Regions(steps) == Regions(old(steps)) + n - from
        invariant pc == (match event case Some(e) => D.Handling(e) case None => D.Ticking)
      {
        var used := ProcessEvent(event.value, env(n), env(n + 1));
        n := n + used;
        Meanwhile(env(n).before);
        event := Drain();
        n := n + 1;
      }
      done := event.None?;
    }

    /** The end of a pass: expire grants, sweep if due. */
    method TickAndSweep(turn: Turn, turn': Turn)
      requires Valid() && pc == D.Ticking
      modifies this, queue, queue.ring, table.clients, firewall, firewall.grants
      ensures Valid() && firewall.grants == old(firewall.grants) && Extends(old(states), old(steps))
      ensures pc == D.LoopTop && Regions(steps) == Regions(old(steps)) + 2
    {
      hide View, Valid, Regions;
      Meanwhile(turn.before);
      Tick(clock + turn.wait, seq(G.MAX_EXPIRY_PER_TICK, i => 0 <= i < |turn.oks| && turn.oks[i]));
      Meanwhile(turn'.before);
      SweepCheck(clock + turn'.wait, clock + turn'.wait + turn'.more);
    }

    lemma RecordIsRun()
      requires Valid() && D.Starts(cfg, states[0])
      ensures D.IsRun(cfg, states, steps)
    {
    }

    /** The processor loop, against an environment that decides every turn. Whatever the turns
        are, what it does is a run of the step system; and it goes on taking steps until it is
        told to stop, or sleeps with nothing to wake it, or the given number of turns is up. */
    method RunProcessor(env: nat -> Turn, turns: nat)
      requires Valid() && pc == D.LoopTop
      modifies this, queue, queue.ring, table.clients, firewall, firewall.grants
      ensures Valid() && Extends(old(states), old(steps))
      ensures D.Starts(cfg, old(states)[0]) ==> D.IsRun(cfg, states, steps)
      ensures || pc == D.Stopped
              || (pc == D.Waiting && D.PROCESSOR !in queue.woken)
              || Regions(steps) >= Regions(old(steps)) + turns
    {
      ProcessorLoop(env, turns);
      if D.Starts(cfg, states[0]) {
        RecordIsRun();
      }
    }

    method ProcessorLoop(env: nat -> Turn, turns: nat)
      requires Valid() && pc == D.LoopTop
      modifies this, queue, queue.ring, table.clients, firewall, firewall.grants
      ensures Valid() && Extends(old(states), old(steps))
      ensures || pc == D.Stopped
              || (pc == D.Waiting && D.PROCESSOR !in queue.woken)
              || Regions(steps) >= Regions(old(steps)) + turns
    {
      hide View, Valid, Regions;
      var n := 0;
      while n < turns
        invariant Valid() && firewall.grants == old(firewall.grants) && pc == D.LoopTop
        invariant Extends(old(states), old(steps)) && Regions(steps) == Regions(old(steps)) + n
      {
        Meanwhile(env(n).before);
        if !running {
          LeaveLoop();
          return;
        }
        var again;
        n, again := Pass(env, turns, n);
        if !again {
          return;
        }
      }
    }

    /** One pass of the loop; again tells whether it came to its end. */
    method Pass(env: nat -> Turn, turns: nat, from: nat) returns (n: nat, again: bool)
      requires Valid() && pc == D.LoopTop && running && from < turns
      modifies this, queue, queue.ring, table.clients, firewall, firewall.grants
      ensures Valid() && firewall.grants == old(firewall.grants) && Extends(old(states), old(steps))
      ensures from < n && Regions(steps) == Regions(old(steps)) + n - from
      ensures if again then pc == D.LoopTop else n >= turns || (pc == D.Waiting && D.PROCESSOR !in queue.woken)
    {
      hide View, Valid, Regions;
      var slept, event := BeginWait();
      n, again := from + 1, false;
      if slept {
        n, slept, event := KeepWaiting(env, turns, n);
      }
      if slept {
        return;
      }
      if event.Some? {
        var done;
        n, done := HandleAll(event.value, env, turns, n);
        if !done {
          return;
        }
      }
      TickAndSweep(env(n), env(n + 1));
      n, again := n + 2, true;
    }

    // ---------- shutting down ----------

    /** Tell the queue's waiters, and the capture thread, that the daemon is stopping. */
    method StopQueue()
      requires Valid() && pc == D.Stopped
      modifies this, queue
      ensures Valid() && states == old(states) + [View()] && steps == old(steps) + [D.StopQueue]
      ensures pc == D.Joining && !running && capturing == old(capturing)
    {
      hide T.TableInv, T.Process, T.Sweep, G.Open, G.Tick, G.Shutdown, R.Contents, R.Push, R.Take, D.Goes;
      ghost var was := View();
      queue.Shutdown();
      running, pc := false, D.Joining;
      Record(D.StopQueue, was);
    }

    method Teardown(flushOk: bool, unhookOk: bool, delOk: bool)
      requires Valid() && pc == D.Joining && !capturing
      modifies this, firewall
      ensures Valid() && states == old(states) + [View()]
      ensures steps == old(steps) + [D.Teardown(flushOk, unhookOk, delOk)]
      ensures pc == D.Down && capturing == old(capturing)
      ensures firewall.State() == G.Shutdown(old(firewall.State()), flushOk, unhookOk, delOk)
    {
      hide T.TableInv, T.Process, T.Sweep, G.Open, G.Tick, G.Shutdown, R.Contents, R.Push, R.Take, D.Goes;
      ghost var was := View();
      firewall.Shutdown(flushOk, unhookOk, delOk);
      pc := D.Down;
      Record(D.Teardown(flushOk, unhookOk, delOk), was);
    }

    /** main after the processor loop: stop the queue, join the capture thread, take the rules
        out. The firewall is torn down exactly as it was when the loop ended. */
    method Finish(flushOk: bool, unhookOk: bool, delOk: bool)
      requires Valid() && pc == D.Stopped
      modifies this, queue, queue.ring, firewall
      ensures Valid() && pc == D.Down && !capturing && Extends(old(states), old(steps))
      ensures firewall.State() == G.Shutdown(old(firewall.State()), flushOk, unhookOk, delOk)
    {
      hide View, Valid, Regions, G.Shutdown;
      StopQueue();
      if capturing {
        CaptureTurn(S.Again, 0);
      }
      Teardown(flushOk, unhookOk, delOk);
    }
  }

  // ---------- starting up ----------

  /** main up to the start of the capture thread: load the configuration, then allocate the
      queue, the client table and the firewall. It gives up only on an unreadable file that was
      asked for, or a failed firewall init; otherwise the daemon starts on valid settings,
      whatever the file holds. */
  method StartUp(g: CG.Globals, file: Option<seq<string>>, explicit: bool, kernel: N.Ruleset, o: G.InitOutcome, now: int)
    returns (p: Process?)
    requires CG.Sized(g)
    ensures 0 <= CG.Load(g, file).seqLen <= MAX_KNOCK_SEQ_LEN && CG.SettingsOf(CG.Load(g, file)).Valid()
    ensures var cfg := CG.SettingsOf(CG.Load(g, file));
            p == null <==> (file == None && explicit)
                           || !G.Init(cfg, G.Fw(None, false, kernel, multiset{}), o).1
    ensures p != null ==> p.cfg == CG.SettingsOf(CG.Load(g, file)) && p.Valid() && D.Starts(p.cfg, p.View())
  {
    var loader := new C.Loader(g);
    var rc := loader.Load(file);
    if rc != 0 && explicit {
      return null;
    }
    var n := loader.numbers;
    var cfg := Settings(loader.sequence[..loader.seqLen], n.port, n.timeout, n.window, n.maxClients, n.logLevel);
    R.CapacityIsPow2();
    var queue := new P.PacketQueue(8, R.QUEUE_CAPACITY);
    var table := new K.ClientTable(cfg);
    var firewall := new F.Manager(cfg, kernel);
    var inited := firewall.Init(o);
    if inited != 0 {
      return null;
    }
    p := new Process(cfg, queue, table, firewall, now);
  }
}
