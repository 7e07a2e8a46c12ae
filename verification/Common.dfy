/** Types shared by every component: addresses, ports, and the validated settings. */
module Common {

  datatype Option<+T> = None | Some(value: T)

  /** An IPv4 address: 32 bits. */
  type Address = x: int | 0 <= x < 0x1_0000_0000

  /** A TCP or UDP port: 16 bits. */
  type Port = x: int | 0 <= x < 0x1_0000

  const MAX_KNOCK_SEQ_LEN: nat := 16
  const MAX_SANE_CLIENTS: nat := 65536

  /** One captured knock, as the capture thread hands it to the processor. */
  datatype KnockEvent = KnockEvent(srcIp: Address, dstPort: Port)

  ghost predicate Distinct<T>(s: seq<T>) {
    forall i, j :: 0 <= i < j < |s| ==> s[i] != s[j]
  }

  /** The configuration globals once the threads start: read-only from then on. */
  datatype Settings = Settings(
    sequence: seq<Port>,
    protectedPort: int,
    accessTimeout: int,
    knockWindow: int,
    maxClients: int,
    logLevel: int)
  {
    /** What validation promises the rest of the daemon. */
    ghost predicate Valid() {
      && 2 <= |sequence| <= MAX_KNOCK_SEQ_LEN
      && (forall i :: 0 <= i < |sequence| ==> sequence[i] != 0)
      && Distinct(sequence)
      && 1 <= protectedPort <= 65535
      && 0 < accessTimeout
      && 0 < knockWindow
      && 1 <= maxClients <= MAX_SANE_CLIENTS
      && 0 <= logLevel <= 3
    }
  }
}
