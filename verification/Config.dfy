/** The config loader as it runs: the globals overwritten entry by entry, each line cut up
    in its own buffer, the sequence collected in a local array (src/config.c). */
module Config {
  import opened Common
  import opened ConfigText
  import G = ConfigGlobals
  import opened ConfigGlobals

  lemma {:induction false} IndexIs(s: string, p: char -> bool, n: nat)
    requires n <= |s| && (forall i :: 0 <= i < n ==> !p(s[i])) && (n < |s| ==> p(s[n]))
    ensures IndexWhere(s, p) == n
  {
    if n > 0 {
      IndexIs(s[1..], p, n - 1);
    }
  }

  lemma {:induction false} BlanksDropped(s: string, n: nat)
    requires n <= |s| && (forall i :: 0 <= i < n ==> IsBlank(s[i])) && (n < |s| ==> !IsBlank(s[n]))
    ensures DropBlanks(s) == s[n..]
  {
    if n > 0 {
      BlanksDropped(s[1..], n - 1);
      assert s[1..][n - 1..] == s[n..];
    } else {
      assert s[0..] == s;
    }
  }

  lemma {:induction false} BlanksTrimmed(s: string, n: nat)
    requires n <= |s| && (forall i :: n <= i < |s| ==> IsBlank(s[i])) && (n > 0 ==> !IsBlank(s[n - 1]))
    ensures TrimRight(s) == s[..n]
    decreases |s|
  {
    if n < |s| {
      BlanksTrimmed(s[..|s| - 1], n);
      assert s[..|s| - 1][..n] == s[..n];
    } else {
      assert s[..n] == s;
    }
  }

  /** Skip blanks from index from of a NUL-terminated buffer. */
  method SkipBlanks(line: array<char>, from: nat, end: nat) returns (p: nat)
    requires from <= end < line.Length && line[end] == NUL
    ensures from <= p <= end
    ensures line[p..end] == DropBlanks(line[from..end])
  {
    p := from;
    while IsBlank(line[p])
      invariant from <= p <= end
      invariant forall i :: from <= i < p ==> IsBlank(line[i])
      decreases end - p
    {
      p := p + 1;
    }
    BlanksDropped(line[from..end], p - from);
    assert line[from..end][p - from..] == line[p..end];
  }

  /** Cut trailing blanks off the text in [from, end) by writing NULs over them. */
  method CutBlanks(line: array<char>, from: nat, end: nat) returns (e: nat)
    requires from <= end <= line.Length
    modifies line
    ensures from <= e <= end
    ensures line[from..e] == TrimRight(old(line[from..end]))
    ensures line[end..] == old(line[end..])
    ensures forall i :: e <= i < end ==> line[i] == NUL
  {
    e := end;
    while e > from && IsBlank(line[e - 1])
      invariant from <= e <= end
      invariant forall i :: e <= i < end ==> IsBlank(old(line[i])) && line[i] == NUL
      invariant forall i :: 0 <= i < line.Length && !(e <= i < end) ==> line[i] == old(line[i])
    {
      e := e - 1;
      line[e] := NUL;
    }
    ghost var s := old(line[from..end]);
    BlanksTrimmed(s, e - from);
    assert line[from..e] == s[..e - from];
    assert line[end..] == old(line[end..]);
  }

  /** The first index in [from, end) whose character satisfies p, or end. */
  method FindChar(line: array<char>, from: nat, end: nat, p: char -> bool) returns (at: nat)
    requires from <= end <= line.Length
    ensures from <= at <= end
    ensures at - from == IndexWhere(line[from..end], p)
    ensures line[from..at] == Before(line[from..end], p)
    ensures at < end ==> p(line[at])
  {
    at := from;
    while at < end && !p(line[at])
      invariant from <= at <= end
      invariant forall i :: from <= i < at ==> !p(line[i])
    {
      at := at + 1;
    }
    IndexIs(line[from..end], p, at - from);
    assert line[from..end][..at - from] == line[from..at];
  }

  /** The value in [from, len): up to a comment or the line's end, blanks cut from both ends. */
  method CutValue(line: array<char>, from: nat, len: nat) returns (val: string)
    requires from <= len < line.Length && line[len] == NUL
    modifies line
    ensures val == TrimRight(DropBlanks(Before(Before(old(line[from..len]), c => c == '#'), IsEol)))
  {
    hide IndexWhere, DropBlanks, TrimRight;
    ghost var text := line[from..len];
    var hash := FindChar(line, from, len, c => c == '#');
    ghost var upToHash := line[from..hash];
    line[hash] := NUL;
    assert line[from..hash] == upToHash;
    var eol := FindChar(line, from, hash, IsEol);
    ghost var upToEol := line[from..eol];
    line[eol] := NUL;
    assert line[from..eol] == upToEol;
    var start := SkipBlanks(line, from, eol);
    var end := CutBlanks(line, start, eol);
    return line[start..end];
  }

  /** Cut one line into key and value where it lies; len is its length as a C string. */
  method SplitLine(line: array<char>, len: nat) returns (entry: Option<Entry>)
    requires len < line.Length && line[len] == NUL
    modifies line
    ensures entry == EntryOf(old(line[..len]))
  {
    hide DropBlanks, TrimRight, IndexWhere, Before;
    assert line[0..len] == line[..len];
    var ptr := SkipBlanks(line, 0, len);
    ghost var s := line[ptr..len];
    if line[ptr] == '#' || IsEol(line[ptr]) || ptr == len {
      return None;
    }
    var eq := FindChar(line, ptr, len, c => c == '=');
    if eq == len {
      return None;
    }
    ghost var left, right := line[ptr..eq], line[eq + 1..len];
    assert s[..eq - ptr] == left && s[eq - ptr + 1..] == right;
    line[eq] := NUL;
    assert line[ptr..eq] == left;
    assert line[eq + 1..len] == right;
    assert line[eq..][1..len - eq] == line[eq + 1..len];
    var keyEnd := CutBlanks(line, ptr, eq);
    var key := line[ptr..keyEnd];
    assert line[eq..][1..len - eq] == line[eq + 1..len];
    var val := CutValue(line, eq + 1, len);
    return Some(Entry(key, val));
  }

  lemma NextToken(s: string)
    ensures var t := DropSeparators(s);
            if t == [] then Tokens(s) == []
            else Tokens(s) != [] && Tokens(s)[0] == t[..TokenLength(t)] && Tokens(s)[1..] == Tokens(t[TokenLength(t)..])
  {
  }

  class Loader {
    var seqLen: int
    const sequence: array<Port>
    var numbers: Numbers
    var ifName: string

    ghost function State(): Globals
      reads this, sequence
    {
      Globals(seqLen, sequence[..], numbers, ifName)
    }

    constructor (g: Globals)
      requires Sized(g)
      ensures State() == g && fresh(sequence)
    {
      seqLen, numbers, ifName := g.seqLen, g.numbers, g.ifName;
      sequence := new Port[MAX_KNOCK_SEQ_LEN](i requires 0 <= i < MAX_KNOCK_SEQ_LEN => g.sequence[i]);
      new;
      assert sequence[..] == g.sequence;
    }

    /** Copy ports over the first entries of the sequence, and use that many. */
    method StoreSequence(ports: seq<Port>)
      requires sequence.Length == MAX_KNOCK_SEQ_LEN && |ports| <= MAX_KNOCK_SEQ_LEN
      modifies this`seqLen, sequence
      ensures State() == SetSequence(old(State()), ports)
    {
      for i := 0 to |ports|
        invariant forall j :: 0 <= j < i ==> sequence[j] == ports[j]
        invariant forall j :: i <= j < sequence.Length ==> sequence[j] == old(sequence[j])
        modifies sequence
      {
        sequence[i] := ports[i];
      }
      seqLen := |ports|;
      assert sequence[..] == Overwrite(old(sequence[..]), ports);
    }

    /** One entry of the list: a port in 1..65535, or -1. */
    method ParsePort(tok: string) returns (port: int)
      ensures port == (match PortOf(tok) case Some(p) => p case None => -1)
    {
      var r := StrToL(tok);
      if r.left == tok || r.left != [] || r.overflow || r.value < 1 || r.value > 65535 {
        return -1;
      }
      return r.value;
    }

    /** Parse a port list; on any failure the sequence and its length are left alone. */
    method ParseSequence(val: string) returns (rc: int)
      requires sequence.Length == MAX_KNOCK_SEQ_LEN
      modifies this`seqLen, sequence
      ensures rc == (if PortsOf(val).Some? then 0 else -1)
      ensures State() == match PortsOf(val)
                         case Some(ports) => SetSequence(old(State()), ports)
                         case None => old(State())
    {
      hide PortOf, SetSequence, DropSeparators, Tokens;
      if |val| >= SCRATCH_SIZE {
        return -1;
      }
      var seqbuf := new Port[MAX_KNOCK_SEQ_LEN](_ => 0);
      var count := 0;
      var rest := val;
      ghost var toks := Tokens(val);
      while true
        invariant 0 <= count <= |toks| && count <= MAX_KNOCK_SEQ_LEN
        invariant Tokens(rest) == toks[count..]
        invariant forall i :: 0 <= i < count ==> PortOf(toks[i]) == Some(seqbuf[i])
        invariant State() == old(State())
        decreases |toks| - count
      {
        NextToken(rest);
        var word := DropSeparators(rest);
        if word == [] {
          break;
        }
        var tok := word[..TokenLength(word)];
        rest := word[TokenLength(word)..];
        assert toks[count..][0] == tok && toks[count..][1..] == toks[count + 1..];
        if count >= MAX_KNOCK_SEQ_LEN {
          return -1;
        }
        var port := ParsePort(tok);
        if port == -1 {
          return -1;
        }
        seqbuf[count] := port;
        count := count + 1;
      }
      if count == 0 {
        return -1;
      }
      assert PortsOf(val).value == seqbuf[..count];
      StoreSequence(seqbuf[..count]);
      return 0;
    }

    /** Restore the compiled-in sequence. */
    method ResetSequenceToDefault()
      requires sequence.Length == MAX_KNOCK_SEQ_LEN
      modifies this`seqLen, sequence
      ensures State() == SetSequence(old(State()), DEFAULT_SEQUENCE)
    {
      StoreSequence(DEFAULT_SEQUENCE);
    }

    /** The sequence checks: a usable length, no zero, no repeat. */
    method SequenceOk() returns (ok: bool)
      requires sequence.Length == MAX_KNOCK_SEQ_LEN
      ensures ok <==> Usable(State())
    {
      ok := true;
      if seqLen < 2 || seqLen > MAX_KNOCK_SEQ_LEN {
        return false;
      }
      ghost var used := sequence[..seqLen];
      var i := 0;
      while ok && i < seqLen
        invariant 0 <= i <= seqLen
        invariant ok ==> forall k :: 0 <= k < i ==> sequence[k] != 0
        invariant !ok ==> exists k :: 0 <= k < seqLen && sequence[k] == 0
      {
        if sequence[i] == 0 {
          ok := false;
        }
        i := i + 1;
      }
      if !ok {
        return;
      }
      i := 0;
      while ok && i < seqLen
        invariant 0 <= i <= seqLen
        invariant ok ==> forall k, m :: 0 <= k < i && k < m < seqLen ==> used[k] != used[m]
        invariant !ok ==> !Distinct(used)
      {
        var j := i + 1;
        while j < seqLen
          invariant i < j <= seqLen && ok
          invariant forall m :: i < m < j ==> used[i] != used[m]
        {
          if sequence[i] == sequence[j] {
            assert used[i] == used[j];
            ok := false;
            break;
          }
          j := j + 1;
        }
        i := i + 1;
      }
    }

    /** Reset each number that is out of range. */
    method CheckNumbers()
      modifies this`numbers
      ensures forall k :: NumberAt(numbers, k) == Checked(k, NumberAt(old(numbers), k))
    {
      if numbers.port < 1 || numbers.port > 65535 {
        numbers := numbers.(port := DEFAULT_PROTECTED_PORT);
      }
      if numbers.timeout <= 0 {
        numbers := numbers.(timeout := DEFAULT_ACCESS_TIMEOUT);
      }
      if numbers.window <= 0 {
        numbers := numbers.(window := DEFAULT_KNOCK_WINDOW);
      }
      if numbers.maxClients <= 0 || numbers.maxClients > MAX_SANE_CLIENTS {
        numbers := numbers.(maxClients := DEFAULT_MAX_CLIENTS);
      }
      if numbers.logLevel < 0 || numbers.logLevel > 3 {
        numbers := numbers.(logLevel := DEFAULT_LOG_LEVEL);
      }
    }

    /** Reset whatever is out of range or could never work. */
    method Validate()
      requires sequence.Length == MAX_KNOCK_SEQ_LEN
      modifies this, sequence
      ensures State() == G.Validate(old(State()))
    {
      hide Usable, SetSequence, Checked;
      var seqOk := SequenceOk();
      if !seqOk {
        ResetSequenceToDefault();
      }
      ghost var before := numbers;
      CheckNumbers();
      assert forall k :: NumberAt(numbers, k) == Checked(k, NumberAt(before, k));
      assert numbers == Numbers(NumberAt(numbers, PortKey), NumberAt(numbers, TimeoutKey), NumberAt(numbers, WindowKey),
                                NumberAt(numbers, MaxClientsKey), NumberAt(numbers, LogLevelKey));
    }

    /** Apply one entry to the global its key names. */
    method Dispatch(e: Entry)
      requires sequence.Length == MAX_KNOCK_SEQ_LEN
      modifies this, sequence
      ensures State() == Apply(old(State()), e)
    {
      if e.key == "sequence" {
        var rc := ParseSequence(e.val);
      } else if KeyOf(e.key).Some? {
        var n := IntOf(e.val);
        if n.Some? {
          numbers := SetNumber(numbers, KeyOf(e.key).value, n.value);
        }
      } else if e.key == "interface" {
        if |e.val| < IFNAME_MAX {
          ifName := e.val;
        }
      }
    }

    /** Load a file, given as the chunks it is read in (None: it could not be opened), and validate. */
    method Load(file: Option<seq<string>>) returns (rc: int)
      requires sequence.Length == MAX_KNOCK_SEQ_LEN
      modifies this, sequence
      ensures State() == G.Load(old(State()), file)
      ensures rc == (if file.Some? then 0 else -1)
      ensures 0 <= seqLen <= MAX_KNOCK_SEQ_LEN && SettingsOf(State()).Valid()
    {
      LoadValid(State(), file);
      if file == None {
        Validate();
        return -1;
      }
      var chunks := file.value;
      for n := 0 to |chunks|
        invariant State() == Read(old(State()), chunks, n)
      {
        var text := CString(chunks[n]);
        var line := new char[|text| + 1](i requires 0 <= i <= |text| => if i < |text| then text[i] else NUL);
        assert line[..|text|] == text;
        var entry := SplitLine(line, |text|);
        if entry.Some? {
          Dispatch(entry.value);
        }
      }
      Validate();
      return 0;
    }
  }
}
