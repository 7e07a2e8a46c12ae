/** Why validation rejects repeated ports, and what would happen if it did not: one client's
    automaton for a sequence of any shape, with the table to itself (src/knocker.c). */
module Repeats {
  import opened Common
  import opened KnockTable

  /** One knock of the only client: a first port claims a zeroed slot, a released slot is no slot. */
  function SlotStep(cfg: Settings, slot: Option<Client>, port: Port, now: int): (Option<Client>, KnockResult)
    requires cfg.sequence != []
    requires slot.Some? ==> 0 <= slot.value.currentStep < |cfg.sequence|
  {
    if slot == None && port != cfg.sequence[0] then (None, Reset)
    else
      var (c, r) := Advance(cfg, if slot.Some? then slot.value else ZERO_CLIENT.(active := true), port, now);
      (if c.active then Some(c) else None, r)
  }

  datatype Knock = Knock(port: Port, now: int)

  /** The slot after the first k knocks. */
  function SlotAfter(cfg: Settings, knocks: seq<Knock>, k: nat): (slot: Option<Client>)
    requires cfg.sequence != [] && k <= |knocks|
    ensures slot.Some? ==> 0 <= slot.value.currentStep < |cfg.sequence| && slot.value.active
  {
    if k == 0 then None
    else SlotStep(cfg, SlotAfter(cfg, knocks, k - 1), knocks[k - 1].port, knocks[k - 1].now).0
  }

  function ResultOf(cfg: Settings, knocks: seq<Knock>, k: nat): KnockResult
    requires cfg.sequence != [] && k < |knocks|
  {
    SlotStep(cfg, SlotAfter(cfg, knocks, k), knocks[k].port, knocks[k].now).1
  }

  ghost predicate InTime(knocks: seq<Knock>) {
    forall i, j :: 0 <= i < j < |knocks| ==> knocks[i].now <= knocks[j].now
  }

  /** Some series of knocks completes the sequence. */
  ghost predicate Completable(cfg: Settings)
    requires cfg.sequence != []
  {
    exists knocks, k :: InTime(knocks) && 0 <= k < |knocks| && ResultOf(cfg, knocks, k) == Complete
  }

  ghost predicate RepeatAt(s: seq<Port>, i: nat) {
    i + 1 < |s| && s[i] == s[i + 1]
  }

  /** The sequence itself, knocked all at once, or 6 seconds apart. */
  function Paced(cfg: Settings, slowly: bool): seq<Knock> {
    seq(|cfg.sequence|, i requires 0 <= i < |cfg.sequence| => Knock(cfg.sequence[i], if slowly then 6 * i else 0))
  }

  /** A knock on the next port that is neither a repeat nor late is accepted. */
  lemma Accepts(cfg: Settings, slot: Option<Client>, port: Port, now: int)
    requires cfg.sequence != [] && (slot.Some? ==> 0 < slot.value.currentStep < |cfg.sequence| && slot.value.active)
    requires port == cfg.sequence[if slot.Some? then slot.value.currentStep else 0]
    requires slot == None ==> port != 0
    requires slot.Some? ==>
               && now - slot.value.lastKnock <= cfg.knockWindow
               && (port != slot.value.lastPort || now - slot.value.lastKnock > KNOCK_DEDUP_WINDOW)
    ensures var step := if slot.Some? then slot.value.currentStep + 1 else 1;
            var (slot', r) := SlotStep(cfg, slot, port, now);
            && r == (if step == |cfg.sequence| then Complete else InProgress)
            && (step < |cfg.sequence| ==>
                  && slot'.Some? && slot'.value.currentStep == step
                  && slot'.value.lastKnock == now && slot'.value.lastPort == port)
  {
  }

  lemma {:induction false} PacedAdvances(cfg: Settings, slowly: bool, k: nat)
    requires 2 <= |cfg.sequence| && cfg.sequence[0] != 0 && k < |cfg.sequence| && cfg.knockWindow > 0
    requires if slowly then cfg.knockWindow > KNOCK_DEDUP_WINDOW else forall i: nat :: !RepeatAt(cfg.sequence, i)
    ensures var slot := SlotAfter(cfg, Paced(cfg, slowly), k);
            && (k == 0 ==> slot == None)
            && (k > 0 ==>
                  && slot.Some? && slot.value.currentStep == k
                  && slot.value.lastKnock == (if slowly then 6 * (k - 1) else 0)
                  && slot.value.lastPort == cfg.sequence[k - 1])
    ensures ResultOf(cfg, Paced(cfg, slowly), k) == if k + 1 == |cfg.sequence| then Complete else InProgress
  {
    hide SlotStep;
    var knocks := Paced(cfg, slowly);
    if k > 0 {
      PacedAdvances(cfg, slowly, k - 1);
      assert !slowly && k > 1 ==> !RepeatAt(cfg.sequence, k - 2);
      Accepts(cfg, SlotAfter(cfg, knocks, k - 1), knocks[k - 1].port, knocks[k - 1].now);
      assert !slowly ==> !RepeatAt(cfg.sequence, k - 1);
    }
    Accepts(cfg, SlotAfter(cfg, knocks, k), knocks[k].port, knocks[k].now);
  }

  /** With no room between the repeat window and the knock window, no knock gets past an
      adjacent repeat. */
  lemma {:induction false} RepeatBlocks(cfg: Settings, knocks: seq<Knock>, i: nat, k: nat)
    requires RepeatAt(cfg.sequence, i) && cfg.sequence[0] != 0 && cfg.knockWindow <= KNOCK_DEDUP_WINDOW && k <= |knocks|
    ensures var slot := SlotAfter(cfg, knocks, k);
            slot.Some? ==>
              && 1 <= slot.value.currentStep <= i + 1
              && slot.value.lastPort == cfg.sequence[slot.value.currentStep - 1]
    ensures k < |knocks| ==> ResultOf(cfg, knocks, k) != Complete
  {
    if k > 0 {
      RepeatBlocks(cfg, knocks, i, k - 1);
    }
  }

  /** The source says a sequence that repeats a port can never be completed. In fact it can,
      unless the repeat is adjacent and the window leaves no gap longer than the 5 seconds
      that count as a retransmit. */
  lemma CompletableExactly(cfg: Settings)
    requires 2 <= |cfg.sequence| && cfg.sequence[0] != 0 && cfg.knockWindow > 0
    ensures Completable(cfg) <==>
            cfg.knockWindow > KNOCK_DEDUP_WINDOW || forall i: nat :: !RepeatAt(cfg.sequence, i)
  {
    if cfg.knockWindow > KNOCK_DEDUP_WINDOW || forall i: nat :: !RepeatAt(cfg.sequence, i) {
      var slowly, n := cfg.knockWindow > KNOCK_DEDUP_WINDOW, |cfg.sequence|;
      PacedAdvances(cfg, slowly, n - 1);
      assert InTime(Paced(cfg, slowly)) && ResultOf(cfg, Paced(cfg, slowly), n - 1) == Complete;
    } else {
      var i: nat :| RepeatAt(cfg.sequence, i);
      forall knocks, k: nat | InTime(knocks) && k < |knocks|
        ensures ResultOf(cfg, knocks, k) != Complete
      {
        RepeatBlocks(cfg, knocks, i, k);
      }
    }
  }

  /** The sequences the source names. */
  lemma NamedRepeatsComplete()
    ensures Completable(Settings([7000, 7000, 9000], 22, 30, 15, 64, 2))
    ensures Completable(Settings([7000, 8000, 7000], 22, 30, 1, 64, 2))
  {
    CompletableExactly(Settings([7000, 7000, 9000], 22, 30, 15, 64, 2));
    CompletableExactly(Settings([7000, 8000, 7000], 22, 30, 1, 64, 2));
  }
}
