/** The queue as both threads share it: a fixed ring updated in place under one lock. Each
    method is one locked region; a wait that goes to sleep gives the lock up, and resumes in
    a region of its own. */
module PacketQueue {
  import opened Common
  import R = Ring
  import opened Ring
  import opened QueueRuns

  class PacketQueue {
    const ring: array<KnockEvent>
    /** The capacity is two to this power: a power of two, so that indices can be masked. */
    ghost const log2: nat
    var head: nat
    var tail: nat
    var count: nat
    var shuttingDown: bool
    var dropped: nat
    var lastDropReport: int
    var asleep: set<Thread>
    var woken: set<Thread>

    ghost function State(): Sync
      reads this, ring
    {
      Sync(Queue(ring[..], head, tail, count, shuttingDown, dropped, lastDropReport), asleep, woken)
    }

    ghost predicate Valid()
      reads this, ring
    {
      ring.Length == Pow2(log2) && QInv(State().q)
    }

    constructor (ghost log2: nat, capacity: nat)
      requires capacity == Pow2(log2)
      ensures Valid() && fresh(ring) && ring.Length == capacity
      ensures State() == Sync(StartQueue(ring[..]), {}, {})
    {
      this.log2 := log2;
      ring := new KnockEvent[capacity](_ => KnockEvent(0, 0));
      head, tail, count := 0, 0, 0;
      shuttingDown, dropped, lastDropReport := false, 0, 0;
      asleep, woken := {}, {};
    }

    /** The index after i, by masking. */
    method After(i: nat) returns (next: nat)
      requires ring.Length == Pow2(log2) && i < ring.Length
      ensures next == Wrap(i + 1, ring.Length)
    {
      MaskWraps(i + 1, log2);
      next := BitAnd(i + 1, ring.Length - 1);
    }

    /** Returns 0 if the event was queued, -1 if it was dropped, and how many drops to report. */
    method Push(e: KnockEvent, now: int, wake: set<Thread>) returns (rc: int, toReport: nat)
      requires Valid() && Enabled(State(), PushStep(e, now, wake))
      modifies this, ring
      ensures Valid()
      ensures State() == Next(old(State()), PushStep(e, now, wake))
      ensures Pushed(rc == 0, toReport) == R.Push(old(State().q), e, now).1
    {
      PushAppends(State().q, e, now);
      rc, toReport := -1, 0;
      if count < ring.Length {
        ring[head] := e;
        head := After(head);
        count := count + 1;
        rc := 0;
        asleep, woken := asleep - wake, woken + wake;
      } else {
        dropped := dropped + 1;
        if now - lastDropReport >= DROP_REPORT_INTERVAL {
          toReport := dropped;
          dropped := 0;
          lastDropReport := now;
        }
      }
    }

    /** The oldest event, removed. */
    method TakeOne() returns (event: Option<KnockEvent>)
      requires Valid()
      modifies this`tail, this`count
      ensures Valid()
      ensures (State().q, event) == Take(old(State().q))
      ensures asleep == old(asleep) && woken == old(woken)
    {
      TakeRemoves(State().q);
      if count > 0 {
        event := Some(ring[tail]);
        tail := After(tail);
        count := count - 1;
      } else {
        event := None;
      }
    }

    method Pop() returns (event: Option<KnockEvent>)
      requires Valid()
      modifies this
      ensures Valid()
      ensures State() == Next(old(State()), PopStep)
      ensures event == Delivers(old(State()), PopStep)
    {
      event := TakeOne();
    }

    /** The wait from the head of its loop on; slept tells whether the caller is now asleep. */
    method WaitLoop(t: Thread, timedOut: bool) returns (slept: bool, event: Option<KnockEvent>)
      requires Valid()
      modifies this
      ensures Valid()
      ensures (State(), event) == Pass(old(State()), t, timedOut)
      ensures slept ==> t in asleep && event == None
      ensures !slept ==> asleep == old(asleep)
    {
      if count == 0 && !shuttingDown && !timedOut {
        asleep := asleep + {t};
        return true, None;
      }
      slept := false;
      event := TakeOne();
    }

    /** pktqueue_wait up to its return or its first sleep. */
    method Wait(t: Thread) returns (slept: bool, event: Option<KnockEvent>)
      requires Valid() && Enabled(State(), WaitStep(t))
      modifies this
      ensures Valid()
      ensures State() == Next(old(State()), WaitStep(t))
      ensures event == Delivers(old(State()), WaitStep(t))
      ensures slept <==> t in asleep
    {
      slept, event := WaitLoop(t, false);
    }

    /** pktqueue_wait from a wake-up to its return or its next sleep. */
    method Resume(t: Thread, timedOut: bool) returns (slept: bool, event: Option<KnockEvent>)
      requires Valid() && Enabled(State(), ResumeStep(t, timedOut)) && t !in asleep
      modifies this
      ensures Valid()
      ensures State() == Next(old(State()), ResumeStep(t, timedOut))
      ensures event == Delivers(old(State()), ResumeStep(t, timedOut))
      ensures slept <==> t in asleep
    {
      woken := woken - {t};
      slept, event := WaitLoop(t, timedOut);
    }

    /** A sleeper's deadline passes, or it wakes for no reason. */
    method Wake(t: Thread)
      requires Valid() && t in asleep
      modifies this
      ensures Valid()
      ensures State() == Next(old(State()), StirStep(t))
    {
      asleep, woken := asleep - {t}, woken + {t};
    }

    /** Wake every waiter, and let none sleep again. */
    method Shutdown()
      requires Valid()
      modifies this
      ensures Valid()
      ensures State() == Next(old(State()), ShutdownStep)
    {
      shuttingDown := true;
      asleep, woken := {}, woken + asleep;
    }
  }
}
