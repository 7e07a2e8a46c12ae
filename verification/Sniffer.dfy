/** The capture loop: receive frames until one of them is a knock (src/sniffer.c). */
module Sniffer {
  import opened Common
  import opened Frames

  /** What one recvfrom gives: a frame with its socket address, a timeout or interruption,
      or a failure. */
  datatype Received =
    | Frame(bytes: seq<Byte>, outgoing: bool, ifindex: int, hatype: int)
    | TimedOut
    | Failed

  /** Blocked stands for a receive that has not returned: the given input ran out. */
  datatype Outcome = Knock(event: KnockEvent) | Again | Error | Blocked

  /** The knock in one received frame, if it is of interest at all. */
  function Interest(r: Received, ifindex: int, ports: seq<Port>): Option<KnockEvent>
    requires r.Frame?
  {
    if r.outgoing || (ifindex != 0 && r.ifindex != ifindex) then None
    else Decode(r.bytes, r.hatype, ports)
  }

  predicate Skipped(r: Received, ifindex: int, ports: seq<Port>) {
    r.Frame? && Interest(r, ifindex, ports) == None
  }

  /** What a receive that is not skipped makes the loop return. */
  predicate Decides(r: Received, ifindex: int, ports: seq<Port>, outcome: Outcome) {
    match r
    case TimedOut => outcome == Again
    case Failed => outcome == Error
    case Frame(_, _, _, _) => outcome.Knock? && Interest(r, ifindex, ports) == Some(outcome.event)
  }

  /** Exactly which receives are knocks: a frame this host did not send, on the chosen interface
      if one was chosen, that encodes a knock packet for a port of the sequence. Every other
      frame is skipped. */
  lemma InterestExact(r: Received, ifindex: int, ports: seq<Port>, ev: KnockEvent)
    requires r.Frame?
    ensures Interest(r, ifindex, ports) == Some(ev) <==>
            && !r.outgoing && (ifindex == 0 || r.ifindex == ifindex)
            && exists p :: WellFormed(p) && LinkFits(p.link, r.hatype) && IsKnockPort(ports, p.transport.dstPort)
                        && Encode(p) == r.bytes && ev == KnockEvent(p.src, p.transport.dstPort)
    ensures Skipped(r, ifindex, ports) <==> forall e :: Interest(r, ifindex, ports) != Some(e)
    ensures r.outgoing || (ifindex != 0 && r.ifindex != ifindex) ==> Skipped(r, ifindex, ports)
  {
    hide Decode, Encode, WellFormed;
    DecodeExact(r.bytes, r.hatype, ports, ev);
    if !Skipped(r, ifindex, ports) {
      assert Interest(r, ifindex, ports) == Some(Interest(r, ifindex, ports).value);
    }
  }

  /** Is this one of the configured knock ports? */
  method CheckKnockPort(ports: seq<Port>, port: Port) returns (yes: bool)
    ensures yes <==> IsKnockPort(ports, port)
  {
    for i := 0 to |ports|
      invariant forall j :: 0 <= j < i ==> ports[j] != port
    {
      if ports[i] == port {
        return true;
      }
    }
    return false;
  }

  /** The next knock on the socket: the first thing received that is not skipped decides.
      Every read of a frame is within the bytes received for it. */
  method NextKnock(input: seq<Received>, ifindex: int, ports: seq<Port>) returns (outcome: Outcome, consumed: nat)
    ensures consumed <= |input|
    ensures forall i :: 0 <= i < consumed - 1 ==> Skipped(input[i], ifindex, ports)
    ensures outcome == Blocked <==> forall i :: 0 <= i < |input| ==> Skipped(input[i], ifindex, ports)
    ensures outcome == Blocked ==> consumed == |input|
    ensures outcome != Blocked ==> 0 < consumed && Decides(input[consumed - 1], ifindex, ports, outcome)
  {
    consumed := 0;
    while consumed < |input|
      invariant consumed <= |input|
      invariant forall i :: 0 <= i < consumed ==> Skipped(input[i], ifindex, ports)
    {
      var r := input[consumed];
      consumed := consumed + 1;
      if r.TimedOut? {
        return Again, consumed;
      }
      if r.Failed? {
        return Error, consumed;
      }
      if r.outgoing {
        continue;
      }
      if ifindex != 0 && r.ifindex != ifindex {
        continue;
      }
      var buf := r.bytes;
      var offset := IpOffset(buf, r.hatype);
      if offset == None {
        continue;
      }
      var off := offset.value;
      var headerLen := (buf[off] % 16) * 4;
      if off + headerLen > |buf| {
        continue;
      }
      if U16(buf, off + 6) % (IP_OFFMASK + 1) != 0 {
        continue;
      }
      var l4 := off + headerLen;
      var port: Port;
      if buf[off + 9] == IPPROTO_TCP {
        if |buf| < l4 + TCP_HEADER {
          continue;
        }
        if !SynOnly(buf[l4 + 13]) {
          continue;
        }
        port := U16(buf, l4 + 2);
      } else if buf[off + 9] == IPPROTO_UDP {
        if |buf| < l4 + UDP_HEADER {
          continue;
        }
        port := U16(buf, l4 + 2);
      } else {
        continue;
      }
      var yes := CheckKnockPort(ports, port);
      if !yes {
        continue;
      }
      return Knock(KnockEvent(U32(buf, off + 12), port)), consumed;
    }
    return Blocked, consumed;
  }
}
