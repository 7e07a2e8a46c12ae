# knockd, modelled and proved

knockd watches for a secret sequence of ports. A capture thread decodes frames and queues the
knocks it sees; a processor thread follows each address through the sequence and, when an
address completes it, inserts a time-limited ACCEPT rule. This project models those parts and
proves what they promise, over whole runs.

| files | what they model |
|---|---|
| `Common` | addresses, ports, the validated settings |
| `KnockTable`, `Knocker` | the bounded client table and the knock automaton: specification and in-place form |
| `KnockCourse`, `KnockRuns` | whole runs: soundness, completeness and self-stabilisation of the automaton |
| `KnockMatcher` | the automaton as an exact matcher of the port history |
| `LiveMap` | the table as a refinement of a plain map of live entries |
| `Repeats` | why repeated ports are rejected |
| `Netfilter`, `GrantTable`, `FirewallRuns`, `Firewall` | the kernel's rules, the grants, whole lives of the manager, and its in-place form |
| `Ring`, `QueueRuns`, `PacketQueue` | the ring buffer, every interleaving of its users, and its in-place form |
| `ConfigText`, `ConfigGlobals`, `Config` | the config grammar, what a load leaves, and the loader's loops |
| `Frames`, `Sniffer` | the frame decoder and the receive loop |
| `Daemon`, `Process` | both threads as one step system, and main's loops as runs of it |
| `DaemonRuns`, `DaemonSteps` | the firewall's and the queue's promises carried over to that system; what each step does, and that the daemon stops |

How the parts are stated:

- Each imperative method is proved equal to a function on its state, and the properties are
  proved of those functions. The functions say what a step means; the methods do it with the
  source's loops, early returns and field updates. Some long source functions are split at a
  natural seam: `AdvanceSlot` is the second half of `process_locked`, `CollectExpired` the
  locked half of `firewall_tick`, `Pass`, `KeepWaiting` and `HandleAll` the nested loops of
  `run_processor` and `pktqueue_wait`.
- The clock is an argument. Where the source reads it twice in one call (once on entry, once in
  the allocator) both readings are arguments. Theorems that need a clock that does not go back
  say so (`ClockMonotone`); soundness does not.
- An iptables command takes its whole effect or fails without any; it can fail for reasons of
  its own, or because it is impossible in the rules at hand.
- The queue is interleaved at locked regions. A signal wakes at least one sleeper, a sleeper
  can also wake by timeout or for no reason, and a woken waiter still has to get the lock.
- Events carry no capture time. All timing is that of processing, as in the source.

Where the source and its comments disagree, the model follows the source:

- `src/config.c:220-224` and `tests/test_config.c:164-165` say a sequence that repeats a port can never be
  completed. It can, except when the repeat is adjacent and the window is at most 5 seconds
  (`Repeats.CompletableExactly`). Validation rejects every repeat all the same, and the
  matcher theorem depends on that.
- `src/knocker.c:77-83` calls an entry past the window worthless. For windows under 5 seconds
  it is not: the repeat filter comes first, so such an entry still swallows a repeat of its
  last port (`LiveMap.LiveMapExactly` gives the exact condition).

## Model

| member | source | states |
|---|---|---|
| `Knocker.ClientTable.constructor` | src/knocker.c:204-215 | The table starts as maxClients zeroed slots and satisfies the table invariant |
| `Knocker.ClientTable.FindClient` | src/knocker.c:64-72 | The scan returns the first active slot holding the address, or -1 when no active slot does |
| `Knocker.ClientTable.AllocClient` | src/knocker.c:85-108 | One pass finds a free slot, else the oldest entry but only once it is past the window; the claimed slot is zeroed and no other slot changes; otherwise nothing changes |
| `Knocker.ClientTable.AdvanceSlot` | src/knocker.c:145-199 | Field by field the automaton does to its slot what Advance specifies, and touches no other slot |
| `Knocker.ClientTable.Process` | src/knocker.c:113-200 | Lookup, allocation and automaton in place compute exactly the specified table and result, and keep the invariant |
| `Knocker.ClientTable.CleanupStale` | src/knocker.c:234-253 | The sweep releases exactly the slots past the window and counts those it released |
| `KnockTable.Oldest` | src/knocker.c:90-98 | The slot picked for eviction has the least last_knock, and is the earliest of equals |
| `KnockTable.AllocIndex` | src/knocker.c:85-108 | A free slot always comes first, and it is the first one; only in a full table is an active slot reused, the oldest (earliest of equals), and only past the window; a full table of entries within it admits nobody |
| `KnockTable.ProcessInv` | src/knocker.c:113-200 | A knock keeps: active addresses distinct, 1 <= step < length, last_port the port of the last step |
| `KnockTable.SweepInv` | src/knocker.c:234-253 | The sweep keeps the table invariant |
| `KnockTable.OwnKnock` | src/knocker.c:113-200 | On its own address a knock does one of five things only, none depending on any other slot except for admission |
| `KnockTable.OtherKnock` | src/knocker.c:77-102 | Another address's knock leaves an entry alone, or evicts it only when it is stale |
| `KnockTable.EvictedExactly` | src/knocker.c:85-108 | Another address's knock drops an entry if and only if it is an untracked address on the first port, every slot is in use, and the entry is the oldest and past the window |
| `KnockTable.RoomDisturbsNobody` | src/knocker.c:90-94 | While a slot is free nobody else's knock changes any address's entry, whatever the window |
| `KnockTable.SweepEffect` | src/knocker.c:240-247 | The sweep drops an address's entry if and only if it is stale |
| `KnockTable.FirstPortRestarts` | src/knocker.c:145-194 | The first port leaves any tracked address at exactly step 1 with last_port that port; the time is now, or the earlier first knock it repeats within 5 seconds |
| `KnockTable.ActiveCount` | src/knocker.c:85-102 | With distinct addresses there are as many tracked addresses as active slots |
| `KnockTable.AdmissionExact` | src/knocker.c:77-108 | A new address gets a slot if and only if fewer than MAX_CLIENTS addresses are within the window |
| `KnockCourse.EntryBacked` | src/knocker.c:145-194 | Every entry stands for a timed match of exactly its steps by the address's own knocks |
| `KnockCourse.StaysOnTrack` | src/knocker.c:145-175 | A client keeping to the sequence in time stays tracked at the right step whatever other calls come between |
| `KnockCourse.MatchInOrder` | src/knocker.c:145-175 | A full timed match is, after its first knock, an in-order continuation |
| `KnockRuns.TableCourse` | src/knocker.c:113-253 | In every run the table moves each address only by its own knocks, or drops it once stale |
| `KnockRuns.UndisturbedWhileRoom` | src/knocker.c:90-94 | Over whole runs: while slots are free and no cleanup comes between, an address's entry changes only by its own knocks, however stale it is |
| `KnockRuns.StartedExact` | src/knocker.c:118-163 | Exactly when a knock starts an attempt: the first port, with room if untracked, not a repeat if at step 1 |
| `KnockRuns.NextPortAdvances` | src/knocker.c:22-31 | The duplicate filter never swallows a real step: the next port in time is always accepted, in every reachable table |
| `KnockRuns.CompletionSound` | src/knocker.c:113-200 | KNOCK_COMPLETE implies a full in-order match by the address's own knocks, every gap within the window, every other knock of it a repeat within 5 seconds; any window, any other traffic |
| `KnockRuns.CompletionComplete` | src/knocker.c:77-175 | Such a match whose first knock started an attempt always completes, under any interleaving, even with a full table |
| `KnockRuns.CompletionExact` | src/knocker.c:113-200 | Completion if and only if the knock ends such a match |
| `KnockRuns.RestartCompletes` | src/knocker.c:177-194 | From every reachable table a tracked client that knocks the first port again and goes on in time completes |
| `KnockRuns.StepIsLongestMatch` | src/knocker.c:145-199 | The automaton is an exact matcher: step = longest sequence prefix the collapsed port history ends with, and completion fires exactly when that newly is the whole sequence |
| `KnockMatcher.LongestMatch` | src/knocker.c:145-199 | The reference: the greatest prefix length the history ends with |
| `KnockMatcher.LongestSnoc` | src/config.c:220-236 | With the distinct ports validation ensures, a fresh port extends the longest match, restarts it, or leaves nothing |
| `KnockMatcher.CourseMatches` | src/knocker.c:145-199 | Through any run the entry is the longest match, or has been dropped as stale |
| `LiveMap.StaleIsAbsent` | src/knocker.c:145-157 | With a window of at least 5 s a stale entry behaves as no entry |
| `LiveMap.StaleLeavesRoom` | src/knocker.c:77-102 | A stale entry means the live ones do not fill the table |
| `LiveMap.KnockSimulates` | src/knocker.c:113-200 | One knock on the table and on the live map agree in result and in what is left live |
| `LiveMap.TableIsLiveMap` | src/knocker.c:85-253 | In every run with window >= 5 each result is that of a plain map of live entries that admits while fewer than MAX_CLIENTS are live |
| `LiveMap.CleanupsInvisible` | src/knocker.c:234-253 | Runs with the same knocks answer alike wherever cleanups fall |
| `LiveMap.LiveMapExactly` | src/knocker.c:145-157 | That refinement holds over all runs if and only if the window is at least 5 s, for every configuration |
| `LiveMap.ShortWindowDisagrees` | src/knocker.c:145-157 | For a shorter window a concrete three-knock run on which table and map differ |
| `Repeats.CompletableExactly` | src/config.c:220-236 | When a sequence with repeats could be completed: unless the repeat is adjacent and the window is at most 5 s; the source comment says never |
| `Repeats.NamedRepeatsComplete` | src/config.c:220-224 | The two sequences the source and its tests call impossible can both be completed |
| `Netfilter.InsertCommutes` | src/firewall.c:385-417 | Deleting the jump by specification commutes with the operator's insertions around it |
| `Netfilter.DeleteCommutes` | src/firewall.c:385-417 | Likewise with the operator's deletions |
| `Netfilter.JumpsTransparent` | src/firewall.c:223-240 | A packet knockd's chain does not accept gets the operator's own verdict, however many jumps there are |
| `Firewall.Manager.constructor` | src/firewall.c:52-57 | No grant table and no jump added before init |
| `Firewall.Manager.RunIptables` | src/firewall.c:78-147 | A command takes its whole effect and returns 0, or fails with no effect and returns -1 |
| `Firewall.Manager.FindGrant` | src/firewall.c:174-183 | The first active grant of an address, or -1 |
| `Firewall.Manager.Init` | src/firewall.c:187-244 | Each failure path and both hook cases give exactly the specified state and result |
| `Firewall.Manager.Open` | src/firewall.c:246-314 | Extend, or reserve a slot and insert, releasing it if the insert fails; the specified state and result on every path |
| `Firewall.Manager.Close` | src/firewall.c:316-347 | Releases the grant and deletes its rule; succeeds when there is none |
| `Firewall.Manager.CollectExpired` | src/firewall.c:360-367 | The locked loop releases the first 16 expired grants in slot order and lists their addresses |
| `Firewall.Manager.Tick` | src/firewall.c:349-383 | Then deletes their rules one by one, as specified for every pattern of failures |
| `Firewall.Manager.Shutdown` | src/firewall.c:385-422 | Flush, unhook only if knockd hooked, delete the chain only after unhooking |
| `GrantTable.InitInv` | src/firewall.c:187-244 | Exactly when init succeeds: allocation, a chain to flush, the flush, and a jump found or inserted; then no grant and an empty chain, else no table |
| `GrantTable.OpenInv` | src/firewall.c:261-309 | An open keeps the books balanced whether or not its insert succeeds |
| `GrantTable.OpenOutcome` | src/firewall.c:246-314 | An open succeeds if and only if the address has a grant, or a slot is free and the insert works; then it has a rule and a grant of the full timeout, else none; no other address's grant changes |
| `GrantTable.RevokeBalances` | src/firewall.c:339-343 | A released grant's rule is there to delete, so the delete fails only if iptables does, and the failure leaks exactly that one rule |
| `GrantTable.CloseInv` | src/firewall.c:316-347 | After a close the address has no grant; -1 exactly when a delete failed |
| `GrantTable.CloseOthers` | src/firewall.c:316-347 | A close changes no other address's grant |
| `GrantTable.ExpireHeld` | src/firewall.c:360-367 | Each grant a tick releases becomes exactly one pending delete, and no other grant changes |
| `GrantTable.TickInv` | src/firewall.c:349-383 | A tick attempts every delete it owes: whatever fails, for each address the leak grows by exactly the number of its failed deletes, and the books stay balanced |
| `GrantTable.TickDeletes` | src/firewall.c:369-382 | One failed delete does not stop the rest: each released address is released once, and after the tick its rules are its earlier leaks plus one only if its own delete failed |
| `FirewallRuns.Conservation` | src/firewall.c:175-383 | After any run from init: rules of an address = 1 if it has an active grant + the number of its deletes that failed in the run, counted from the operations; no other rule; grants have distinct addresses |
| `FirewallRuns.LeakedIsFailed` | src/firewall.c:316-383 | The leak of an address is exactly the number of its deletes that failed in the run |
| `FirewallRuns.ChainIsGrants` | src/firewall.c:187-383 | With no failed delete the chain is exactly the active grants, without duplicates |
| `FirewallRuns.HookMeaning` | src/firewall.c:153-240 | While the jump is first: ACCEPT for TCP to the protected port from an address with a grant or leaked rule, else the operator's verdict |
| `FirewallRuns.RunMeaning` | src/firewall.c:153-383 | That meaning holds after every open, close and tick, by the rules the operator had before init |
| `FirewallRuns.InitKeepsOwn` | src/firewall.c:223-240 | Init puts its jump first and changes nothing else in INPUT |
| `FirewallRuns.InitHooks` | src/firewall.c:223-240 | A jump the check finds is left alone and not taken for knockd's own; one is inserted exactly if none is found; a failed init leaves INPUT as it was |
| `FirewallRuns.RunKeepsOwn` | src/firewall.c:246-383 | INPUT without knockd's jump is the operator's list with only the operator's own edits, through every run |
| `FirewallRuns.Lifecycle` | src/firewall.c:187-422 | From init through any run to a shutdown that works, INPUT is the operator's list again and the chain is gone or empty |
| `FirewallRuns.ShutdownSafe` | src/firewall.c:398-419 | Whatever fails in shutdown no operator rule is lost or moved, a flush that worked revokes every grant, and exactly when the chain itself goes |
| `FirewallRuns.ExpireProgress` | src/firewall.c:360-367 | A tick that misses an expired slot has closed 16 lower ones |
| `FirewallRuns.StepProgress` | src/firewall.c:246-383 | No open or close adds work below an expired slot; a tick that misses it removes 16 |
| `FirewallRuns.ExpiryBound` | src/firewall.c:42-44 | A grant in slot i already expired is closed or extended within i/16 + 1 ticks before t0 + timeout, whatever happens in between |
| `FirewallRuns.AccessLasts` | src/firewall.c:349-367 | A grant and its rule stay through any operations that do not close it, as long as ticks read times before its deadline |
| `Ring.MaskWraps` | src/packet_queue.c:92 | Masking with capacity - 1 wraps the index, for every power of two |
| `Ring.PushAppends` | src/packet_queue.c:84-112 | A push appends unless the buffer is full |
| `Ring.TakeRemoves` | src/packet_queue.c:122-136 | A pop removes the oldest event, or reports empty |
| `PacketQueue.PacketQueue.constructor` | src/packet_queue.c:55-76 | The queue starts empty, awake and with nothing dropped |
| `PacketQueue.PacketQueue.Push` | src/packet_queue.c:84-120 | The locked region makes exactly the specified step, and reports drops at most every 10 s |
| `PacketQueue.PacketQueue.Pop` | src/packet_queue.c:122-136 | Likewise for the non-blocking pop |
| `PacketQueue.PacketQueue.Wait` | src/packet_queue.c:138-160 | The wait up to its return or first sleep |
| `PacketQueue.PacketQueue.Resume` | src/packet_queue.c:146-160 | The wait from a wake-up on, timed out or not |
| `PacketQueue.PacketQueue.Shutdown` | src/packet_queue.c:162-168 | Wakes every waiter and marks the queue as stopping |
| `QueueRuns.StepSync` | src/packet_queue.c:84-168 | Every locked region keeps the wake-up invariant |
| `QueueRuns.NoLostWakeup` | src/packet_queue.c:84-168 | For any number of waiters: if one sleeps, count is at most the number of woken waiters yet to run; after shutdown none sleeps; head = (tail + count) mod capacity |
| `QueueRuns.SleepsExactly` | src/packet_queue.c:146-157 | In every run a pass through the wait leaves the thread asleep if and only if nothing is buffered, there was no shutdown and its deadline has not passed; else it has returned with the oldest event, or with none |
| `QueueRuns.WaitersKept` | src/packet_queue.c:138-168 | No other region adds a thread to the wait or loses one from it |
| `QueueRuns.FifoExact` | src/packet_queue.c:84-160 | Under every interleaving, delivered events followed by the buffer are exactly the accepted ones in order |
| `QueueRuns.DropsAccounted` | src/packet_queue.c:96-117 | pushes = accepted + reported drops + pending drops |
| `QueueRuns.ReportRate` | src/packet_queue.c:96-117 | Any span of T seconds holds at most T/10 + 1 reports, whatever the clock does |
| `QueueRuns.DropsReported` | src/packet_queue.c:96-117 | A drop leaves drops unreported only within 10 s of the latest report |
| `Config.SkipBlanks` | src/config.c:327-329 | Skips exactly the leading blanks |
| `Config.CutBlanks` | src/config.c:345-348 | Cuts exactly the trailing blanks, writing nowhere else |
| `Config.SplitLine` | src/config.c:327-364 | The in-place trimming yields the key and value the grammar gives, or nothing for blank, comment and malformed lines |
| `Config.Loader.ParseSequence` | src/config.c:105-149 | All or nothing: the globals take the list and its length, or are unchanged and -1 is returned |
| `Config.Loader.SequenceOk` | src/config.c:205-236 | The nested loops accept exactly the usable sequences |
| `Config.Loader.Validate` | src/config.c:199-300 | Every field kept if in range, else its default |
| `Config.Loader.Load` | src/config.c:304-394 | Whatever the file and the prior globals, the specified globals, valid for every other component |
| `ConfigText.PortsOf` | src/config.c:105-149 | An accepted list has 1 to 16 non-zero ports |
| `ConfigText.IntExact` | src/config.c:71-92 | A setting's value is accepted as v if and only if it is white space, at most one sign and decimal digits for v, with nothing after, and v fits an int |
| `ConfigText.IntRoundTrip` | src/config.c:71-92 | Every printed integer parses back to itself, and is refused exactly if it does not fit an int |
| `ConfigText.PortExact` | src/config.c:130-138 | An entry is accepted as port p if and only if it is such a numeral for p and 1 <= p <= 65535 |
| `ConfigText.PortsExact` | src/config.c:105-149 | A value is accepted as a list if and only if it has at most 255 characters and is 1 to 16 such entries with separators around and between them, and it is that list |
| `ConfigText.PortRoundTrip` | src/config.c:130-138 | A port printed in decimal parses back |
| `ConfigText.PortsRoundTrip` | src/config.c:105-149 | 1 to 16 ports printed with any mix of separators, within 255 characters, parse back to themselves |
| `ConfigText.LineRoundTrip` | src/config.c:327-364 | Blanks anywhere, a trailing comment and the line's end do not change the key or the value |
| `ConfigText.LineIgnored` | src/config.c:327-340 | Blank lines, comments and lines without an equals sign set nothing |
| `ConfigText.CStringEnds` | src/config.c:319-384 | What the buffer holds after the NUL does not matter |
| `ConfigGlobals.LoadValid` | src/config.c:199-295 | Any load leaves 2-16 distinct non-zero ports, and every number in its range |
| `ConfigGlobals.SequenceSource` | src/config.c:204-241 | The sequence is the full last accepted entry, else the prior one; the default exactly if that is unusable |
| `ConfigGlobals.NumberSource` | src/config.c:243-295 | Each number is the last one its key set, else the prior one; the default exactly if that is out of range |
| `ConfigGlobals.NumbersChecked` | src/config.c:243-295 | The ranges and defaults one by one, as the daemon gets them: a number in range is kept, any other replaced; also when the file cannot be opened |
| `ConfigGlobals.NumberLineTakesEffect` | src/config.c:319-384 | A line that sets a number, however spaced and commented, and nothing later that sets the same one, gives the daemon exactly that number if it is in range, else the default |
| `ConfigGlobals.InterfaceSource` | src/config.c:378-379 | The interface is the last name given that fits, else the prior one |
| `ConfigGlobals.SequenceLineTakesEffect` | src/config.c:319-384 | A line spelling a usable list, however spaced and commented, becomes the knock sequence |
| `Frames.IpOffset` | src/sniffer.c:72-106 | An offset is returned only if a whole IP header lies behind it |
| `Frames.SynTest` | src/sniffer.c:240 | The bit test of the flag byte is: SYN set and ACK clear |
| `Frames.DecodeEncode` | src/sniffer.c:204-264 | Encoding a knock with any header length 20..60 and decoding it gives back its source and port |
| `Frames.DecodeExact` | src/sniffer.c:204-264 | A frame is a knock if and only if it encodes a first-fragment IPv4 TCP-SYN-without-ACK or UDP packet to a port of the sequence |
| `Sniffer.CheckKnockPort` | src/sniffer.c:48-56 | True exactly for the ports of the sequence |
| `Sniffer.InterestExact` | src/sniffer.c:156-275 | A received frame is a knock if and only if this host did not send it, it came in on the chosen interface if there is one, and it encodes a knock packet for a port of the sequence; an outgoing frame is skipped |
| `Sniffer.NextKnock` | src/sniffer.c:156-275 | The loop returns for the first receive that is not skipped, with what that receive decides |
| `Daemon.QueueKept` | src/main.c:140-216 | No step of either thread loses, duplicates or reorders an event, and only a waiting processor is asleep or woken |
| `Daemon.KnockKept` | src/main.c:167-216 | The state machine has handled exactly the delivered events, on a monotone clock |
| `Daemon.OpenKept` | src/main.c:167-186 | firewall_open has been called for each address's latest completion, unless one is about to be acted on |
| `Daemon.RuleMeansMatch` | src/main.c:167-216 | End to end, over every interleaving and any iptables failures: a rule for an address implies a full timed match in its own dequeued knocks, which are accepted events in order |
| `Daemon.GrantDeadline` | src/main.c:167-216 | Each grant runs ACCESS_TIMEOUT from the latest firewall_open of its address, which was for its latest completion |
| `Daemon.ChainInDaemon` | src/main.c:192-216 | In every reachable state an address has a rule exactly if it has an active grant or a failed delete |
| `Daemon.CompletionOpens` | src/main.c:167-186 | The open that follows a completion gives that address a rule and a grant of the full timeout, unless the insert fails or all slots are taken |
| `DaemonRuns.FirewallRun` | src/main.c:167-216 | Until the teardown the daemon's firewall goes through a run of the firewall manager whose operations are the processor's opens and ticks in order |
| `DaemonRuns.DaemonExpires` | src/main.c:208 | Bounded expiry in the daemon: an expired grant in slot i is closed or extended within i/16 + 1 of the processor's ticks, whatever both threads do |
| `DaemonRuns.DaemonAccessLasts` | src/main.c:208 | A grant and its rule stay in force while ticks read times before its deadline, whatever both threads do |
| `DaemonRuns.TickReleases` | src/main.c:208 | In every reachable state a tick releases each grant that has run out, or 16 that have run out in lower slots, and leaves every other grant as it is |
| `DaemonRuns.TickRevokes` | src/firewall.c:369-382 | And its failures are independent: a released address keeps only its earlier leaks, plus one rule if its own delete failed |
| `DaemonRuns.DaemonConserves` | src/main.c:167-216 | In every reachable state an address has one rule if it has an active grant, plus one for each of its deletes that failed in a tick of the run; no other rule |
| `DaemonRuns.StopOutcome` | src/main.c:340-350 | Whatever the daemon did and whatever fails in the teardown no operator rule is lost; a working flush revokes every grant; when nothing fails INPUT is what it was before the start |
| `DaemonRuns.QueueRun` | src/main.c:140-216 | The daemon's queue goes through a run of the queue, whose accepted events are the daemon's |
| `DaemonRuns.CapturesAccounted` | src/main.c:150-151 | Every captured knock is accepted, reported as dropped, or dropped and not yet reported |
| `DaemonSteps.StatusExactly` | src/main.c:144-214 | The loop runs until a signal or a failed capture and no longer; capture until it ends; the queue until capture or main stops it |
| `DaemonSteps.CaptureTakes` | src/main.c:149-151 | A captured event is taken if and only if there is room, and nothing else takes one |
| `DaemonSteps.WaitOutcome` | src/main.c:196-208 | Where a wait or pop leaves the processor: stopped at the loop's top after a signal, else with the oldest event, else ticking once the deadline has passed or the queue has stopped, and only else waiting |
| `DaemonSteps.CallsMade` | src/main.c:167-214 | A knock is handled with its own address, port and times and the firewall opened next exactly if it completed; a sweep is made exactly if it is due |
| `DaemonSteps.StaleSwept` | src/main.c:210-214 | A stale entry is dropped or started afresh by the first sweep check at least 5 seconds later, whatever comes between |
| `DaemonSteps.StopsInTime` | src/main.c:140-216 | Once told to stop and with the capture thread ended, the main thread takes at most 8 + 3 * capacity more steps, whatever is queued |
| `DaemonSteps.NeverStuck` | src/main.c:192-350 | And until the teardown is done it always has a step to take: no deadlock, no sleep after the shutdown |
| `Process.Process.constructor` | src/main.c:305-333 | The daemon starts in a start state of the step system |
| `Process.Process.CaptureTurn` | src/main.c:144-160 | One pass of the capture loop does exactly the step its case calls for: push, leave, stop the daemon, or nothing |
| `Process.Process.ProcessEvent` | src/main.c:167-186 | Handling one event, with anything happening in between, is a knock step and, after a completion, an open step |
| `Process.Process.KeepWaiting` | src/packet_queue.c:146-150 | The wait loop over wake-ups and timeouts is steps of the system |
| `Process.Process.HandleAll` | src/main.c:203-205 | The drain loop handles events until the queue is empty |
| `Process.Process.TickAndSweep` | src/main.c:208-214 | The end of a pass ticks, and sweeps when due |
| `Process.Process.Pass` | src/main.c:196-215 | One pass: wait, drain, tick, sweep, each as steps of the system, ending early only asleep with nothing to wake it or out of turns |
| `Process.Process.RunProcessor` | src/main.c:192-216 | The processor loop, against any environment, performs a run of the step system, so every theorem about runs holds of it; and it keeps taking steps until told to stop, asleep with nothing to wake it, or out of turns |
| `Process.Process.Finish` | src/main.c:340-352 | The queue is stopped, the capture thread joined, and the firewall shut down from the state the loop left it in |
| `Process.StartUp` | src/main.c:276-319 | Whatever the file holds, the daemon starts in a start state on valid settings, unless a file asked for cannot be read or the firewall's init fails |

## Left out

- Process and system calls: fork and exec of iptables, sockets, signals, pthread internals, file reading. They are steps or arguments that succeed or fail.
- Formatting an address as text is taken as always succeeding, so the error paths after `inet_ntop` (`src/main.c:175-179`, `src/firewall.c:257-259`, `src/firewall.c:373-375`) are not modelled.
- Logging, the banner, usage text, argument parsing and the file-permission warning.
- Integer widths of times, counts and deadlines: they are unbounded. The 64-bit limits of `strtol` and the 32-bit limits of `parse_int` are modelled.
- Memory exhaustion, beyond init of the firewall failing.
- Config.Loader.Load: the file is given as the chunks `fgets` returns, so a line longer than the buffer is two chunks, and read errors after opening are not modelled. Chunks are cut at their first NUL.
- Sniffer.NextKnock: each received frame is given as the bytes received, after the clamp to the buffer size; the input is a finite list, and a receive that has not returned is the outcome Blocked.
- Frames.DecodeExact: the source address is the 32-bit number in network order; on a little-endian host the program holds the same four bytes.
- FirewallRuns.ExpiryBound: counts ticks, not seconds, as does DaemonRuns.DaemonExpires; the drain loop at `src/main.c:203-205` has no bound under sustained traffic.
- Several threads calling the firewall at once: only the processor thread calls it.
- Other programs changing knockd's chain, and iptables commands that fail after taking part of their effect.
- FirewallRuns.RunMeaning: stated for runs without operator edits; with edits, FirewallRuns.HookMeaning gives the verdict of every state in which the jump is still first.
- Process.Process.RunProcessor: the environment is a function from turns to events, and the loop also stops when a given number of turns has run out, since the program's loop need not end.
- The order of wake-ups among several waiters, and fairness: a woken waiter may take arbitrarily long to run.
- Capture on a named interface is modelled only as the comparison of interface numbers; looking the name up is not.
