/** The bounded ring buffer between the two threads, as functions on its state
    (src/packet_queue.c). */
module Ring {
  import opened Common

  const QUEUE_CAPACITY: nat := 256
  const DROP_REPORT_INTERVAL := 10

  // ---------- masking ----------

  function Pow2(k: nat): (p: nat)
    ensures p > 0
  {
    if k == 0 then 1 else 2 * Pow2(k - 1)
  }

  /** Bitwise and. */
  function BitAnd(x: nat, y: nat): nat {
    if x == 0 || y == 0 then 0 else (x % 2) * (y % 2) + 2 * BitAnd(x / 2, y / 2)
  }

  /** An index one step along a ring of n slots, or up to a whole turn along. */
  function Wrap(x: nat, n: nat): nat {
    if x < n then x else x - n
  }

  /** Masking with a power of two less one wraps an index that steps past the end. */
  lemma {:induction false} MaskWraps(x: nat, k: nat)
    requires x <= Pow2(k)
    ensures BitAnd(x, Pow2(k) - 1) == Wrap(x, Pow2(k))
  {
    if k > 0 && x > 0 {
      var p := Pow2(k - 1);
      MaskWraps(x / 2, k - 1);
      assert (2 * p - 1) % 2 == 1 && (2 * p - 1) / 2 == p - 1;
    }
  }

  lemma CapacityIsPow2()
    ensures QUEUE_CAPACITY == Pow2(8)
  {
    assert Pow2(4) == 16;
  }

  lemma WrapIsMod(x: nat, n: nat)
    requires n > 0 && x < 2 * n
    ensures Wrap(x, n) == x % n
  {
    if x < n {
      assert x / n == 0;
    } else {
      assert x / n == 1;
    }
  }

  // ---------- state ----------

  datatype Queue = Queue(
    ring: seq<KnockEvent>,
    head: nat,
    tail: nat,
    count: nat,
    shuttingDown: bool,
    dropped: nat,
    lastDropReport: int)

  ghost predicate IsPow2(n: nat) {
    exists k: nat :: n == Pow2(k)
  }

  ghost predicate QInv(q: Queue) {
    && IsPow2(|q.ring|)
    && q.count <= |q.ring|
    && q.tail < |q.ring|
    && q.head == Wrap(q.tail + q.count, |q.ring|)
  }

  /** What is waiting, oldest first. */
  function Contents(q: Queue): seq<KnockEvent>
    requires q.tail < |q.ring| && q.count <= |q.ring|
  {
    seq(q.count, i requires 0 <= i < q.count => q.ring[Wrap(q.tail + i, |q.ring|)])
  }

  /** What a push returns: whether the event was taken, and how many drops it reports. */
  datatype Pushed = Pushed(accepted: bool, report: nat)

  function Push(q: Queue, e: KnockEvent, now: int): (Queue, Pushed)
    requires q.head < |q.ring|
  {
    if q.count < |q.ring| then
      (q.(ring := q.ring[q.head := e], head := Wrap(q.head + 1, |q.ring|), count := q.count + 1), Pushed(true, 0))
    else if now - q.lastDropReport >= DROP_REPORT_INTERVAL then
      (q.(dropped := 0, lastDropReport := now), Pushed(false, q.dropped + 1))
    else
      (q.(dropped := q.dropped + 1), Pushed(false, 0))
  }

  function Take(q: Queue): (Queue, Option<KnockEvent>)
    requires q.tail < |q.ring|
  {
    if q.count > 0 then
      (q.(tail := Wrap(q.tail + 1, |q.ring|), count := q.count - 1), Some(q.ring[q.tail]))
    else (q, None)
  }

  // ---------- it is a bounded FIFO ----------

  /** A push appends, unless the buffer is full. */
  lemma PushAppends(q: Queue, e: KnockEvent, now: int)
    requires QInv(q)
    ensures var (q', r) := Push(q, e, now);
            && QInv(q')
            && |q'.ring| == |q.ring|
            && (r.accepted <==> |Contents(q)| < |q.ring|)
            && Contents(q') == if r.accepted then Contents(q) + [e] else Contents(q)
  {
    var q' := Push(q, e, now).0;
    if q.count < |q.ring| {
      var c, c' := Contents(q), Contents(q');
      forall i | 0 <= i < |c'|
        ensures c'[i] == (c + [e])[i]
      {
        assert c'[i] == q'.ring[Wrap(q.tail + i, |q.ring|)];
      }
      assert c' == c + [e];
    }
  }

  /** A take removes the oldest, if there is one. */
  lemma TakeRemoves(q: Queue)
    requires QInv(q)
    ensures var (q', r) := Take(q);
            && QInv(q')
            && |q'.ring| == |q.ring|
            && if Contents(q) == [] then r == None && q' == q
               else r == Some(Contents(q)[0]) && Contents(q') == Contents(q)[1..]
  {
    var q' := Take(q).0;
    if q.count > 0 {
      var c, c' := Contents(q), Contents(q');
      assert c[0] == q.ring[Wrap(q.tail + 0, |q.ring|)];
      forall i | 0 <= i < |c'|
        ensures c'[i] == c[1..][i]
      {
        assert c'[i] == q.ring[Wrap(q'.tail + i, |q.ring|)];
        assert c[i + 1] == q.ring[Wrap(q.tail + (i + 1), |q.ring|)];
      }
      assert c' == c[1..];
    }
  }
}
