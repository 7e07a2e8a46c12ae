/** The configuration globals: what each entry of a config file does to them, and what
    validation leaves (src/config.c). */
module ConfigGlobals {
  import opened Common
  import opened ConfigText

  const DEFAULT_SEQUENCE: seq<Port> := [7000, 8000, 9000]
  const DEFAULT_PROTECTED_PORT := 22
  const DEFAULT_ACCESS_TIMEOUT := 30
  const DEFAULT_KNOCK_WINDOW := 15
  const DEFAULT_MAX_CLIENTS := 64
  const DEFAULT_LOG_LEVEL := 2
  const IFNAME_MAX: nat := 32

  /** The integer globals, by the key that sets them. */
  datatype Numbers = Numbers(port: int, timeout: int, window: int, maxClients: int, logLevel: int)

  /** sequence is the whole 16-entry array, seqLen how much of it is in use. */
  datatype Globals = Globals(seqLen: int, sequence: seq<Port>, numbers: Numbers, ifName: string)

  ghost predicate Sized(g: Globals) {
    |g.sequence| == MAX_KNOCK_SEQ_LEN
  }

  // ---------- entries ----------

  datatype Key = PortKey | TimeoutKey | WindowKey | MaxClientsKey | LogLevelKey

  function KeyName(k: Key): string {
    match k
    case PortKey => "port"
    case TimeoutKey => "timeout"
    case WindowKey => "window"
    case MaxClientsKey => "max_clients"
    case LogLevelKey => "log_level"
  }

  function NumberAt(n: Numbers, k: Key): int {
    match k
    case PortKey => n.port
    case TimeoutKey => n.timeout
    case WindowKey => n.window
    case MaxClientsKey => n.maxClients
    case LogLevelKey => n.logLevel
  }

  function SetNumber(n: Numbers, k: Key, v: int): Numbers {
    match k
    case PortKey => n.(port := v)
    case TimeoutKey => n.(timeout := v)
    case WindowKey => n.(window := v)
    case MaxClientsKey => n.(maxClients := v)
    case LogLevelKey => n.(logLevel := v)
  }

  function KeyOf(name: string): Option<Key> {
    if name == "port" then Some(PortKey)
    else if name == "timeout" then Some(TimeoutKey)
    else if name == "window" then Some(WindowKey)
    else if name == "max_clients" then Some(MaxClientsKey)
    else if name == "log_level" then Some(LogLevelKey)
    else None
  }

  /** The array with ports over its first entries. */
  function Overwrite(a: seq<Port>, ports: seq<Port>): (r: seq<Port>)
    requires |ports| <= |a|
    ensures |r| == |a| && r[..|ports|] == ports
  {
    ports + a[|ports|..]
  }

  function SetSequence(g: Globals, ports: seq<Port>): Globals
    requires Sized(g) && |ports| <= MAX_KNOCK_SEQ_LEN
  {
    g.(sequence := Overwrite(g.sequence, ports), seqLen := |ports|)
  }

  function Apply(g: Globals, e: Entry): (r: Globals)
    requires Sized(g)
    ensures Sized(r)
  {
    if e.key == "sequence" then
      match PortsOf(e.val)
      case Some(ports) => SetSequence(g, ports)
      case None => g
    else if KeyOf(e.key).Some? then
      match IntOf(e.val)
      case Some(v) => g.(numbers := SetNumber(g.numbers, KeyOf(e.key).value, v))
      case None => g
    else if e.key == "interface" && |e.val| < IFNAME_MAX then
      g.(ifName := e.val)
    else g
  }

  function ApplyLine(g: Globals, chunk: string): (r: Globals)
    requires Sized(g)
    ensures Sized(r)
  {
    match EntryOf(CString(chunk))
    case Some(e) => Apply(g, e)
    case None => g
  }

  /** The globals after the first n chunks the file is read in. */
  function Read(g: Globals, chunks: seq<string>, n: nat): (r: Globals)
    requires Sized(g) && n <= |chunks|
    ensures Sized(r)
  {
    if n == 0 then g else ApplyLine(Read(g, chunks, n - 1), chunks[n - 1])
  }

  // ---------- validation ----------

  /** A sequence that could ever be completed. */
  ghost predicate Usable(g: Globals)
    requires Sized(g)
  {
    && 2 <= g.seqLen <= MAX_KNOCK_SEQ_LEN
    && (forall i :: 0 <= i < g.seqLen ==> g.sequence[i] != 0)
    && Distinct(g.sequence[..g.seqLen])
  }

  predicate InRange(k: Key, v: int) {
    match k
    case PortKey => 1 <= v <= 65535
    case TimeoutKey => v > 0
    case WindowKey => v > 0
    case MaxClientsKey => 0 < v <= MAX_SANE_CLIENTS
    case LogLevelKey => 0 <= v <= 3
  }

  function Default(k: Key): (v: int)
    ensures InRange(k, v)
  {
    match k
    case PortKey => DEFAULT_PROTECTED_PORT
    case TimeoutKey => DEFAULT_ACCESS_TIMEOUT
    case WindowKey => DEFAULT_KNOCK_WINDOW
    case MaxClientsKey => DEFAULT_MAX_CLIENTS
    case LogLevelKey => DEFAULT_LOG_LEVEL
  }

  function Checked(k: Key, v: int): int {
    if InRange(k, v) then v else Default(k)
  }

  /** Each field kept if it is in range, else its default; the sequence kept or dropped whole. */
  ghost function Validate(g: Globals): (r: Globals)
    requires Sized(g)
    ensures Sized(r)
  {
    var n := g.numbers;
    (if Usable(g) then g else SetSequence(g, DEFAULT_SEQUENCE)).(
      numbers := Numbers(Checked(PortKey, n.port), Checked(TimeoutKey, n.timeout), Checked(WindowKey, n.window),
                         Checked(MaxClientsKey, n.maxClients), Checked(LogLevelKey, n.logLevel)))
  }

  /** A whole load; None is a file that could not be opened. */
  ghost function Load(g: Globals, file: Option<seq<string>>): (r: Globals)
    requires Sized(g)
    ensures Sized(r)
  {
    Validate(match file case Some(chunks) => Read(g, chunks, |chunks|) case None => g)
  }

  /** The globals as the rest of the daemon reads them. */
  function SettingsOf(g: Globals): Settings
    requires Sized(g) && 0 <= g.seqLen <= MAX_KNOCK_SEQ_LEN
  {
    var n := g.numbers;
    Settings(g.sequence[..g.seqLen], n.port, n.timeout, n.window, n.maxClients, n.logLevel)
  }

  // ---------- what a load guarantees ----------

  lemma DefaultUsable(g: Globals)
    requires Sized(g)
    ensures Usable(SetSequence(g, DEFAULT_SEQUENCE))
  {
    var d := SetSequence(g, DEFAULT_SEQUENCE);
    assert d.sequence[..3] == DEFAULT_SEQUENCE;
  }

  /** Whatever the file holds and the globals held, a load leaves settings the whole daemon
      can rely on. */
  lemma LoadValid(g: Globals, file: Option<seq<string>>)
    requires Sized(g)
    ensures var r := Load(g, file);
            0 <= r.seqLen <= MAX_KNOCK_SEQ_LEN && SettingsOf(r).Valid()
  {
    var before := match file case Some(chunks) => Read(g, chunks, |chunks|) case None => g;
    DefaultUsable(before);
    var s := SettingsOf(Load(g, file));
    assert forall i :: 0 <= i < |s.sequence| ==> s.sequence[i] == Load(g, file).sequence[i];
  }

  /** The list of the last chunk among the first n whose sequence entry is accepted. */
  function LastSequence(chunks: seq<string>, n: nat): Option<seq<Port>>
    requires n <= |chunks|
  {
    if n == 0 then None
    else
      var e := EntryOf(CString(chunks[n - 1]));
      if e.Some? && e.value.key == "sequence" && PortsOf(e.value.val).Some? then PortsOf(e.value.val)
      else LastSequence(chunks, n - 1)
  }

  /** The value of the last chunk among the first n that sets key k to a number. */
  function LastNumber(chunks: seq<string>, n: nat, k: Key): Option<int>
    requires n <= |chunks|
  {
    if n == 0 then None
    else
      var e := EntryOf(CString(chunks[n - 1]));
      if e.Some? && e.value.key == KeyName(k) && IntOf(e.value.val).Some? then IntOf(e.value.val)
      else LastNumber(chunks, n - 1, k)
  }

  lemma {:induction false} ReadKeepsSequence(g: Globals, chunks: seq<string>, n: nat)
    requires Sized(g) && n <= |chunks|
    ensures var r := Read(g, chunks, n);
            match LastSequence(chunks, n)
            case Some(ports) => r.seqLen == |ports| <= MAX_KNOCK_SEQ_LEN && r.sequence[..r.seqLen] == ports
            case None => r.seqLen == g.seqLen && r.sequence == g.sequence
  {
    hide EntryOf, CString, PortsOf, IntOf, KeyOf, SetNumber;
    if n > 0 {
      ReadKeepsSequence(g, chunks, n - 1);
    }
  }

  lemma {:induction false} ReadKeepsNumber(g: Globals, chunks: seq<string>, n: nat, k: Key)
    requires Sized(g) && n <= |chunks|
    ensures NumberAt(Read(g, chunks, n).numbers, k)
         == match LastNumber(chunks, n, k) case Some(v) => v case None => NumberAt(g.numbers, k)
  {
    hide EntryOf, CString, PortsOf, IntOf, Overwrite;
    if n > 0 {
      ReadKeepsNumber(g, chunks, n - 1, k);
      assert KeyName(k) != "sequence" && KeyOf(KeyName(k)) == Some(k);
    }
  }

  /** Where the sequence comes from: the whole list of the last accepted entry, or the prior
      one if no entry was accepted; and the default instead exactly when that list could
      never be completed: too short, or with a zero or a repeated port. */
  lemma SequenceSource(g: Globals, chunks: seq<string>)
    requires Sized(g) && 0 <= g.seqLen <= MAX_KNOCK_SEQ_LEN
    ensures var r := Load(g, Some(chunks));
            var found := match LastSequence(chunks, |chunks|)
                         case Some(ports) => ports
                         case None => g.sequence[..g.seqLen];
            && 0 <= r.seqLen <= MAX_KNOCK_SEQ_LEN
            && SettingsOf(r).sequence
               == if 2 <= |found| && (forall i :: 0 <= i < |found| ==> found[i] != 0) && Distinct(found) then found
                  else DEFAULT_SEQUENCE
  {
    LoadValid(g, Some(chunks));
    var before := Read(g, chunks, |chunks|);
    ReadKeepsSequence(g, chunks, |chunks|);
    assert forall i :: 0 <= i < before.seqLen ==> before.sequence[i] == before.sequence[..before.seqLen][i];
  }

  /** Where each number comes from: the last entry that sets it, or its prior value, unless
      that is out of range. */
  lemma NumberSource(g: Globals, chunks: seq<string>, k: Key)
    requires Sized(g)
    ensures NumberAt(Load(g, Some(chunks)).numbers, k)
         == Checked(k, match LastNumber(chunks, |chunks|, k) case Some(v) => v case None => NumberAt(g.numbers, k))
  {
    ReadKeepsNumber(g, chunks, |chunks|, k);
  }

  /** A line as it may stand in a file: blanks, key, equals sign and value, perhaps a comment,
      then the line's end; and whatever the buffer holds after the string's NUL. */
  ghost predicate LineFor(chunk: string, key: string, val: string) {
    exists b, tail, rest :: LineParts(b, tail, rest)
      && chunk == (b[0] + key + b[1] + "=" + b[2] + val + b[3] + tail) + rest
  }

  ghost predicate LineParts(b: seq<string>, tail: string, rest: string) {
    && |b| == 4 && (forall i :: 0 <= i < 4 ==> AllBlank(b[i]))
    && (tail == [] || tail[0] == '#' || (IsEol(tail[0]) && Lacks(tail, c => c == '#')))
    && Lacks(tail, c => c == NUL)
    && (rest == [] || rest[0] == NUL)
  }

  /** Characters that can stand in a value without ending it. */
  predicate PlainText(s: string) {
    forall i :: 0 <= i < |s| ==> s[i] != '#' && s[i] != NUL && !IsEol(s[i])
  }

  lemma LineReads(chunk: string, key: string, val: string)
    requires LineFor(chunk, key, val)
    requires key != [] && Trimmed(key) && PlainText(key) && Lacks(key, c => c == '=')
    requires Trimmed(val) && PlainText(val)
    ensures EntryOf(CString(chunk)) == Some(Entry(key, val))
  {
    hide EntryOf, CString;
    var b, tail, rest :| LineParts(b, tail, rest)
      && chunk == (b[0] + key + b[1] + "=" + b[2] + val + b[3] + tail) + rest;
    CStringEnds(b[0] + key + b[1] + "=" + b[2] + val + b[3] + tail, rest);
    LineRoundTrip(b, key, val, tail);
  }

  /** End to end: a line that spells a usable list, however spaced, separated and commented,
      with no accepted sequence entry after it, becomes the knock sequence. */
  lemma SequenceLineTakesEffect(g: Globals, chunks: seq<string>, at: nat, ports: seq<Port>, seps: seq<string>)
    requires Sized(g) && 0 <= g.seqLen <= MAX_KNOCK_SEQ_LEN && at < |chunks|
    requires 2 <= |ports| <= MAX_KNOCK_SEQ_LEN && Distinct(ports) && forall i :: 0 <= i < |ports| ==> ports[i] != 0
    requires Separators(seps, |ports|) && seps[0] == [] && seps[|ports|] == []
    requires |Render(ports, seps)| < SCRATCH_SIZE
    requires LineFor(chunks[at], "sequence", Render(ports, seps))
    requires forall n :: at < n < |chunks| ==>
               var e := EntryOf(CString(chunks[n]));
               e.Some? && e.value.key == "sequence" ==> PortsOf(e.value.val) == None
    ensures Load(g, Some(chunks)).seqLen == |ports|
    ensures Load(g, Some(chunks)).sequence[..|ports|] == ports
  {
    hide EntryOf, CString, PortsOf, Join, LastSequence;
    RenderClean(DecimalsOf(ports), seps);
    LineReads(chunks[at], "sequence", Render(ports, seps));
    PortsRoundTrip(ports, seps);
    LastSequenceIs(chunks, at, |chunks|, ports);
    SequenceSource(g, chunks);
  }

  /** The ranges and the defaults, one by one, as the daemon gets them: a number in range is kept
      as it is, any other is replaced by its default; a file that cannot be opened leaves only
      this to happen. */
  lemma NumbersChecked(g: Globals, file: Option<seq<string>>)
    requires Sized(g)
    ensures 0 <= Load(g, file).seqLen <= MAX_KNOCK_SEQ_LEN
    ensures var n := (match file case Some(chunks) => Read(g, chunks, |chunks|) case None => g).numbers;
            var cfg := SettingsOf(Load(g, file));
            && cfg.protectedPort == (if 1 <= n.port <= 65535 then n.port else 22)
            && cfg.accessTimeout == (if n.timeout > 0 then n.timeout else 30)
            && cfg.knockWindow == (if n.window > 0 then n.window else 15)
            && cfg.maxClients == (if 1 <= n.maxClients <= 65536 then n.maxClients else 64)
            && cfg.logLevel == (if 0 <= n.logLevel <= 3 then n.logLevel else 2)
  {
    LoadValid(g, file);
  }

  /** End to end: a line that sets a number, however spaced and commented, with nothing later
      in the file that sets the same one, gives the daemon exactly that number if it is in
      range, and the default if it is an int out of range. */
  lemma NumberLineTakesEffect(g: Globals, chunks: seq<string>, at: nat, k: Key, v: int)
    requires Sized(g) && at < |chunks| && INT_MIN <= v <= INT_MAX
    requires LineFor(chunks[at], KeyName(k), PrintInt(v))
    requires forall n :: at < n < |chunks| ==>
               var e := EntryOf(CString(chunks[n]));
               e.Some? && e.value.key == KeyName(k) ==> IntOf(e.value.val) == None
    ensures 0 <= Load(g, Some(chunks)).seqLen <= MAX_KNOCK_SEQ_LEN
    ensures var cfg := SettingsOf(Load(g, Some(chunks)));
            match KeyName(k)
            case "port" => cfg.protectedPort == if 1 <= v <= 65535 then v else 22
            case "timeout" => cfg.accessTimeout == if v > 0 then v else 30
            case "window" => cfg.knockWindow == if v > 0 then v else 15
            case "max_clients" => cfg.maxClients == if 1 <= v <= 65536 then v else 64
            case _ => KeyName(k) == "log_level" && cfg.logLevel == if 0 <= v <= 3 then v else 2
  {
    hide EntryOf, CString, IntOf, LastNumber, LineFor;
    PrintedPlain(v);
    KeyPlain(k);
    LineReads(chunks[at], KeyName(k), PrintInt(v));
    IntRoundTrip(v);
    LastNumberIs(chunks, at, |chunks|, k, v);
    NumberSource(g, chunks, k);
    LoadValid(g, Some(chunks));
  }

  lemma PrintedPlain(v: int)
    ensures Trimmed(PrintInt(v)) && PlainText(PrintInt(v))
  {
    var s := PrintInt(v);
    assert forall i :: 0 <= i < |s| ==> IsDigit(s[i]) || s[i] == '-';
  }

  lemma KeyPlain(k: Key)
    ensures var s := KeyName(k); s != [] && Trimmed(s) && PlainText(s) && Lacks(s, c => c == '=')
  {
  }

  lemma {:induction false} LastNumberIs(chunks: seq<string>, at: nat, n: nat, k: Key, v: int)
    requires at < n <= |chunks|
    requires EntryOf(CString(chunks[at])).Some?
    requires var e := EntryOf(CString(chunks[at])).value;
             e.key == KeyName(k) && IntOf(e.val) == Some(v)
    requires forall m :: at < m < |chunks| ==>
               var e := EntryOf(CString(chunks[m]));
               e.Some? && e.value.key == KeyName(k) ==> IntOf(e.value.val) == None
    ensures LastNumber(chunks, n, k) == Some(v)
  {
    hide EntryOf, CString, IntOf;
    if n > at + 1 {
      LastNumberIs(chunks, at, n - 1, k, v);
    }
  }

  /** The interface name of the last chunk among the first n that gives one that fits. */
  function LastInterface(chunks: seq<string>, n: nat): Option<string>
    requires n <= |chunks|
  {
    if n == 0 then None
    else
      var e := EntryOf(CString(chunks[n - 1]));
      if e.Some? && e.value.key == "interface" && |e.value.val| < IFNAME_MAX then Some(e.value.val)
      else LastInterface(chunks, n - 1)
  }

  /** The interface is the last name that fits, else the prior one; nothing else sets it. */
  lemma {:induction false} InterfaceSource(g: Globals, chunks: seq<string>, n: nat)
    requires Sized(g) && n <= |chunks|
    ensures Read(g, chunks, n).ifName == (match LastInterface(chunks, n) case Some(s) => s case None => g.ifName)
    ensures n == |chunks| ==> Load(g, Some(chunks)).ifName == Read(g, chunks, n).ifName
  {
    hide EntryOf, CString, PortsOf, IntOf;
    if n > 0 {
      InterfaceSource(g, chunks, n - 1);
    }
  }

  lemma {:induction false} LastSequenceIs(chunks: seq<string>, at: nat, n: nat, ports: seq<Port>)
    requires at < n <= |chunks|
    requires EntryOf(CString(chunks[at])).Some?
    requires var e := EntryOf(CString(chunks[at])).value;
             e.key == "sequence" && PortsOf(e.val) == Some(ports)
    requires forall m :: at < m < |chunks| ==>
               var e := EntryOf(CString(chunks[m]));
               e.Some? && e.value.key == "sequence" ==> PortsOf(e.value.val) == None
    ensures LastSequence(chunks, n) == Some(ports)
  {
    if n > at + 1 {
      LastSequenceIs(chunks, at, n - 1, ports);
    }
  }

  /** A printed list begins and ends with a digit and holds only digits and separators. */
  lemma {:induction false} RenderClean(words: seq<string>, seps: seq<string>)
    requires words != [] && Separators(seps, |words|) && seps[|words|] == []
    requires forall i :: 0 <= i < |words| ==> words[i] != "" && AllDigits(words[i])
    ensures var s := Join(words, seps);
            && s != []
            && (seps[0] == [] ==> IsDigit(s[0]))
            && IsDigit(s[|s| - 1])
            && forall i :: 0 <= i < |s| ==> IsDigit(s[i]) || IsSeparator(s[i])
  {
    var rest := Join(words[1..], seps[1..]);
    if |words| > 1 {
      RenderClean(words[1..], seps[1..]);
    } else {
      assert rest == seps[1];
    }
    var s := seps[0] + words[0] + rest;
    assert forall i :: |seps[0]| <= i < |seps[0]| + |words[0]| ==> s[i] == words[0][i - |seps[0]|];
  }
}
