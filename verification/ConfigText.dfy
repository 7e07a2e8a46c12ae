/** The text of a config file: numbers, port lists and lines, as functions on C strings
    (src/config.c). A C string is the characters before its first NUL. */
module ConfigText {
  import opened Common

  const NUL: char := '\0'
  const SCRATCH_SIZE: nat := 256
  const LONG_MAX := 0x7FFF_FFFF_FFFF_FFFF
  const LONG_MIN := -0x8000_0000_0000_0000
  const INT_MAX := 0x7FFF_FFFF
  const INT_MIN := -0x8000_0000

  predicate IsBlank(c: char) { c == ' ' || c == '\t' }

  predicate IsEol(c: char) { c == '\r' || c == '\n' }

  predicate IsSpace(c: char) { c == ' ' || '\t' <= c <= '\r' }

  predicate IsDigit(c: char) { '0' <= c <= '9' }

  predicate IsSeparator(c: char) { c == ',' || IsBlank(c) }

  // ---------- numbers ----------

  /** The value of a run of digits. */
  function Value(s: string): nat
    requires forall i :: 0 <= i < |s| ==> IsDigit(s[i])
  {
    if s == [] then 0
    else
      assert IsDigit(s[|s| - 1]);
      10 * Value(s[..|s| - 1]) + (s[|s| - 1] as int - '0' as int)
  }

  function DigitRun(s: string): (n: nat)
    ensures n <= |s| && forall i :: 0 <= i < n ==> IsDigit(s[i])
    ensures n < |s| ==> !IsDigit(s[n])
  {
    if s == [] || !IsDigit(s[0]) then 0 else 1 + DigitRun(s[1..])
  }

  function DropSpace(s: string): (t: string)
    ensures |t| <= |s|
  {
    if s != [] && IsSpace(s[0]) then DropSpace(s[1..]) else s
  }

  /** strtol(s, &end, 10): the value, how much is left after it, and whether it overflowed
      a long. Without digits nothing is consumed. */
  datatype Scan = Scan(value: int, left: string, overflow: bool)

  function StrToL(s: string): Scan {
    var t := DropSpace(s);
    var negative := t != [] && t[0] == '-';
    var digits := if t != [] && (t[0] == '-' || t[0] == '+') then t[1..] else t;
    var n := DigitRun(digits);
    if n == 0 then Scan(0, s, false)
    else
      var magnitude: int := Value(digits[..n]);
      var exact := if negative then -magnitude else magnitude;
      if exact > LONG_MAX then Scan(LONG_MAX, digits[n..], true)
      else if exact < LONG_MIN then Scan(LONG_MIN, digits[n..], true)
      else Scan(exact, digits[n..], false)
  }

  /** A strictly numeric value within int range, or None. */
  function IntOf(s: string): Option<int> {
    var r := StrToL(s);
    if r.left == s || r.left != [] then None
    else if r.overflow || r.value < INT_MIN || r.value > INT_MAX then None
    else Some(r.value)
  }

  /** A port in 1..65535, or None. */
  function PortOf(s: string): Option<Port> {
    var r := StrToL(s);
    if r.left == s || r.left != [] || r.overflow || r.value < 1 || r.value > 65535 then None
    else Some(r.value)
  }

  // ---------- port lists ----------

  function DropSeparators(s: string): (t: string)
    ensures |t| <= |s|
    ensures t != [] ==> !IsSeparator(t[0])
  {
    if s != [] && IsSeparator(s[0]) then DropSeparators(s[1..]) else s
  }

  function TokenLength(s: string): (n: nat)
    ensures n <= |s| && forall i :: 0 <= i < n ==> !IsSeparator(s[i])
    ensures n < |s| ==> IsSeparator(s[n])
  {
    if s == [] || IsSeparator(s[0]) then 0 else 1 + TokenLength(s[1..])
  }

  /** strtok over ", \t": the maximal runs of other characters. */
  function Tokens(s: string): seq<string>
    decreases |s|
  {
    var t := DropSeparators(s);
    if t == [] then [] else [t[..TokenLength(t)]] + Tokens(t[TokenLength(t)..])
  }

  predicate AllPorts(toks: seq<string>) {
    forall i :: 0 <= i < |toks| ==> PortOf(toks[i]).Some?
  }

  /** The list val spells, or None if it is rejected: too long, empty, more than 16 entries,
      or any entry that is not a port. */
  function PortsOf(val: string): (r: Option<seq<Port>>)
    ensures r.Some? ==> 1 <= |r.value| <= MAX_KNOCK_SEQ_LEN && forall i :: 0 <= i < |r.value| ==> r.value[i] != 0
  {
    var toks := Tokens(val);
    if |val| >= SCRATCH_SIZE || toks == [] || |toks| > MAX_KNOCK_SEQ_LEN || !AllPorts(toks) then None
    else Some(seq(|toks|, i requires 0 <= i < |toks| => PortOf(toks[i]).value))
  }

  // ---------- lines ----------

  /** The first index of a character that satisfies p; the length if there is none. */
  function IndexWhere(s: string, p: char -> bool): (n: nat)
    ensures n <= |s| && forall i :: 0 <= i < n ==> !p(s[i])
    ensures n < |s| ==> p(s[n])
  {
    if s == [] || p(s[0]) then 0 else 1 + IndexWhere(s[1..], p)
  }

  function Before(s: string, p: char -> bool): string {
    s[..IndexWhere(s, p)]
  }

  function CString(s: string): string {
    Before(s, c => c == NUL)
  }

  function DropBlanks(s: string): (t: string)
    ensures |t| <= |s|
  {
    if s != [] && IsBlank(s[0]) then DropBlanks(s[1..]) else s
  }

  function TrimRight(s: string): (t: string)
    ensures |t| <= |s|
  {
    if s != [] && IsBlank(s[|s| - 1]) then TrimRight(s[..|s| - 1]) else s
  }

  datatype Entry = Entry(key: string, val: string)

  /** The "key = value" on a line, or None if it is blank, a comment, or has no '='. */
  function EntryOf(line: string): Option<Entry> {
    var s := DropBlanks(line);
    if s == [] || s[0] == '#' || IsEol(s[0]) then None
    else
      var eq := IndexWhere(s, c => c == '=');
      if eq == |s| then None
      else
        var val := Before(Before(s[eq + 1..], c => c == '#'), IsEol);
        Some(Entry(TrimRight(s[..eq]), TrimRight(DropBlanks(val))))
  }

  // ---------- printing ----------

  function Digit(d: nat): char
    requires d < 10
  {
    '0' + d as char
  }

  function Decimal(n: nat): (s: string)
    ensures s != [] && forall i :: 0 <= i < |s| ==> IsDigit(s[i])
  {
    if n < 10 then [Digit(n)] else Decimal(n / 10) + [Digit(n % 10)]
  }

  ghost predicate AllSeparators(s: string) {
    forall i :: 0 <= i < |s| ==> IsSeparator(s[i])
  }

  /** Separators around and between n ports: at least one between any two. */
  ghost predicate Separators(seps: seq<string>, n: nat) {
    && |seps| == n + 1
    && (forall i :: 0 <= i <= n ==> AllSeparators(seps[i]))
    && (forall i :: 0 < i < n ==> seps[i] != [])
  }

  /** Words with separators around and between them. */
  function Join(words: seq<string>, seps: seq<string>): string
    requires |seps| == |words| + 1
  {
    if words == [] then seps[0]
    else seps[0] + words[0] + Join(words[1..], seps[1..])
  }

  function DecimalsOf(ports: seq<Port>): seq<string> {
    seq(|ports|, i requires 0 <= i < |ports| => Decimal(ports[i]))
  }

  /** A list of ports in decimal. */
  function Render(ports: seq<Port>, seps: seq<string>): string
    requires |seps| == |ports| + 1
  {
    Join(DecimalsOf(ports), seps)
  }

  /** A number in decimal, with a minus sign if it is negative. */
  function PrintInt(v: int): string {
    if v < 0 then "-" + Decimal(-v) else Decimal(v)
  }

  // ---------- round trips ----------

  lemma {:induction false} ValueOfDecimal(n: nat)
    ensures Value(Decimal(n)) == n
  {
    if n >= 10 {
      ValueOfDecimal(n / 10);
      assert Decimal(n)[..|Decimal(n)| - 1] == Decimal(n / 10);
    }
  }

  /** Leading zeros do not change a value. */
  lemma {:induction false} LeadingZero(s: string)
    requires forall i :: 0 <= i < |s| ==> IsDigit(s[i])
    ensures Value("0" + s) == Value(s)
  {
    if s != [] {
      LeadingZero(s[..|s| - 1]);
      assert ("0" + s)[..|s|] == "0" + s[..|s| - 1];
    }
  }

  ghost predicate AllDigits(s: string) {
    forall i :: 0 <= i < |s| ==> IsDigit(s[i])
  }

  ghost predicate AllSpace(s: string) {
    forall i :: 0 <= i < |s| ==> IsSpace(s[i])
  }

  /** What a sign and digits stand for. */
  ghost function Signed(sign: string, digits: string): int
    requires AllDigits(digits)
  {
    var v: int := Value(digits);
    if sign == "-" then -v else v
  }

  /** White space, at most one sign, and at least one digit. */
  ghost predicate NumeralParts(space: string, sign: string, digits: string) {
    AllSpace(space) && (sign == "" || sign == "+" || sign == "-") && digits != "" && AllDigits(digits)
  }

  /** s is a numeral for v. */
  ghost predicate Numeral(s: string, v: int) {
    exists space, sign, digits ::
      NumeralParts(space, sign, digits) && s == space + (sign + digits) && v == Signed(sign, digits)
  }

  lemma {:induction false} SpaceDrops(space: string, s: string)
    requires AllSpace(space) && (s == [] || !IsSpace(s[0]))
    ensures DropSpace(space + s) == s
  {
    if space != [] {
      SpaceDrops(space[1..], s);
      TailOfConcat(space, s);
    } else {
      assert space + s == s;
    }
  }

  lemma {:induction false} DigitsRun(d: string, s: string)
    requires AllDigits(d) && (s == [] || !IsDigit(s[0]))
    ensures DigitRun(d + s) == |d|
  {
    if d != [] {
      DigitsRun(d[1..], s);
      TailOfConcat(d, s);
    } else {
      assert d + s == s;
    }
  }

  /** strtol reads a numeral to its end and stops there, clamping what a long cannot hold. */
  lemma StrToLReads(space: string, sign: string, digits: string, rest: string)
    requires NumeralParts(space, sign, digits) && (rest == [] || !IsDigit(rest[0]))
    ensures var v := Signed(sign, digits);
            StrToL(space + (sign + (digits + rest)))
            == Scan(if v > LONG_MAX then LONG_MAX else if v < LONG_MIN then LONG_MIN else v, rest,
                    v > LONG_MAX || v < LONG_MIN)
  {
    var body := sign + (digits + rest);
    assert body[0] == if sign == "" then digits[0] else sign[0];
    SpaceDrops(space, body);
    assert sign == "" ==> body == digits + rest;
    assert sign != "" ==> body[1..] == digits + rest;
    DigitsRun(digits, rest);
    assert (digits + rest)[..|digits|] == digits && (digits + rest)[|digits|..] == rest;
  }

  lemma {:induction false} SpaceSplit(s: string) returns (space: string)
    ensures AllSpace(space) && s == space + DropSpace(s)
  {
    if s != [] && IsSpace(s[0]) {
      var more := SpaceSplit(s[1..]);
      space := [s[0]] + more;
      assert s == [s[0]] + s[1..];
    } else {
      space := [];
    }
  }

  function SignOf(t: string): string {
    if t != [] && (t[0] == '-' || t[0] == '+') then [t[0]] else ""
  }

  lemma StrToLShape(s: string)
    ensures var t := DropSpace(s);
            var body := t[|SignOf(t)|..];
            StrToL(s).left == if DigitRun(body) == 0 then s else body[DigitRun(body)..]
  {
    hide Value, DigitRun;
  }

  /** Whatever strtol consumes is a numeral. */
  lemma StrToLParts(s: string) returns (space: string, sign: string, digits: string)
    requires StrToL(s).left != s
    ensures NumeralParts(space, sign, digits)
    ensures s == space + (sign + (digits + StrToL(s).left))
    ensures StrToL(s).left != [] ==> !IsDigit(StrToL(s).left[0])
  {
    hide StrToL, DropSpace, DigitRun, SignOf, AllSpace;
    StrToLShape(s);
    space := SpaceSplit(s);
    var t := DropSpace(s);
    SignSplit(t);
    sign := SignOf(t);
    var body := t[|sign|..];
    var n := DigitRun(body);
    digits := body[..n];
    var left := body[n..];
    assert body == digits + left && (n > 0 ==> StrToL(s).left == left);
    assert t == sign + (digits + left);
  }

  lemma SignSplit(t: string)
    ensures var sign := SignOf(t);
            && |sign| <= |t| && t == sign + t[|sign|..]
            && (sign == "" || sign == "+" || sign == "-")
  {
  }

  /** Exactly which strings are accepted as a setting's number, and with which value: a
      numeral with nothing after it, for a value an int can hold. */
  lemma IntExact(s: string, v: int)
    ensures IntOf(s) == Some(v) <==> INT_MIN <= v <= INT_MAX && Numeral(s, v)
  {
    hide StrToL;
    NumeralScans(s, v);
  }

  /** Exactly which tokens are accepted as a port. */
  lemma PortExact(s: string, p: Port)
    ensures PortOf(s) == Some(p) <==> 1 <= p <= 65535 && Numeral(s, p)
  {
    hide StrToL;
    NumeralScans(s, p);
  }

  lemma NumeralScans(s: string, v: int)
    ensures LONG_MIN <= v <= LONG_MAX && Numeral(s, v) <==>
            StrToL(s).left != s && StrToL(s).left == [] && !StrToL(s).overflow && StrToL(s).value == v
  {
    hide StrToL, Value;
    if LONG_MIN <= v <= LONG_MAX && Numeral(s, v) {
      var space, sign, digits :|
        NumeralParts(space, sign, digits) && s == space + (sign + digits) && v == Signed(sign, digits);
      StrToLReads(space, sign, digits, []);
      assert digits + [] == digits;
    }
    if StrToL(s).left != s && StrToL(s).left == [] && !StrToL(s).overflow && StrToL(s).value == v {
      var space, sign, digits := StrToLParts(s);
      assert digits + [] == digits;
      StrToLReads(space, sign, digits, []);
    }
  }

  /** A printed number parses back to itself, and is refused exactly if an int cannot hold it. */
  lemma IntRoundTrip(v: int)
    ensures IntOf(PrintInt(v)) == if INT_MIN <= v <= INT_MAX then Some(v) else None
  {
    hide StrToL;
    var sign, digits := if v < 0 then "-" else "", if v < 0 then Decimal(-v) else Decimal(v);
    ValueOfDecimal(if v < 0 then -v else v);
    StrToLReads("", sign, digits, "");
    assert "" + (sign + (digits + "")) == PrintInt(v);
  }

  lemma PortRoundTrip(p: Port)
    requires p != 0
    ensures PortOf(Decimal(p)) == Some(p)
  {
    hide PortOf, Value, Decimal;
    var d := Decimal(p);
    ValueOfDecimal(p);
    assert Numeral(d, p) by {
      assert NumeralParts("", "", d) && d == "" + ("" + d) && p == Signed("", d);
    }
    PortExact(d, p);
  }

  lemma TailOfConcat(s: string, t: string)
    requires s != []
    ensures (s + t)[0] == s[0] && (s + t)[1..] == s[1..] + t
  {
  }

  lemma {:induction false} TokensSkip(sep: string, s: string)
    requires AllSeparators(sep)
    ensures Tokens(sep + s) == Tokens(s)
  {
    if sep != [] {
      TokensSkip(sep[1..], s);
      TailOfConcat(sep, s);
    } else {
      assert sep + s == s;
    }
  }

  lemma {:induction false} TokenLengthOf(w: string, s: string)
    requires forall i :: 0 <= i < |w| ==> !IsSeparator(w[i])
    requires s == [] || IsSeparator(s[0])
    ensures TokenLength(w + s) == |w|
  {
    if w != [] {
      TokenLengthOf(w[1..], s);
      TailOfConcat(w, s);
    } else {
      assert w + s == s;
    }
  }

  lemma TokensWord(w: string, s: string)
    requires w != [] && forall i :: 0 <= i < |w| ==> !IsSeparator(w[i])
    requires s == [] || IsSeparator(s[0])
    ensures Tokens(w + s) == [w] + Tokens(s)
  {
    TokenLengthOf(w, s);
    assert DropSeparators(w + s) == w + s;
    assert (w + s)[..|w|] == w && (w + s)[|w|..] == s;
  }

  ghost predicate IsWord(w: string) {
    w != "" && forall i :: 0 <= i < |w| ==> !IsSeparator(w[i])
  }

  ghost predicate AllWords(words: seq<string>) {
    forall i :: 0 <= i < |words| ==> IsWord(words[i])
  }

  /** Words joined by separators come apart again. */
  lemma {:induction false} TokensOfJoin(words: seq<string>, seps: seq<string>)
    requires Separators(seps, |words|) && AllWords(words)
    ensures Tokens(Join(words, seps)) == words
  {
    if words == [] {
      TokensSkip(seps[0], []);
      assert seps[0] + [] == seps[0];
    } else {
      var rest := Join(words[1..], seps[1..]);
      TokensOfJoin(words[1..], seps[1..]);
      assert rest != [] ==> IsSeparator(rest[0]) by {
        if |words| > 1 { assert rest[0] == seps[1][0]; } else { assert rest == seps[1]; }
      }
      TokensWord(words[0], rest);
      TokensSkip(seps[0], words[0] + rest);
      assert seps[0] + words[0] + rest == seps[0] + (words[0] + rest);
      assert words == [words[0]] + words[1..];
    }
  }

  lemma {:induction false} SeparatorSplit(s: string) returns (sep: string)
    ensures AllSeparators(sep) && s == sep + DropSeparators(s)
    ensures s != [] && IsSeparator(s[0]) ==> sep != []
  {
    if s != [] && IsSeparator(s[0]) {
      var more := SeparatorSplit(s[1..]);
      sep := [s[0]] + more;
      assert s == [s[0]] + s[1..];
    } else {
      sep := [];
    }
  }

  /** Every string is its tokens, joined by separators. */
  lemma {:induction false} TokensJoin(s: string) returns (seps: seq<string>)
    ensures AllWords(Tokens(s)) && Separators(seps, |Tokens(s)|) && Join(Tokens(s), seps) == s
    ensures s != [] && IsSeparator(s[0]) ==> seps[0] != []
    decreases |s|
  {
    var sep := SeparatorSplit(s);
    var t := DropSeparators(s);
    if t == [] {
      seps := [sep];
      assert sep + t == sep;
    } else {
      var n := TokenLength(t);
      var more := TokensJoin(t[n..]);
      seps := [sep] + more;
      assert Tokens(s)[1..] == Tokens(t[n..]) && seps[1..] == more;
      assert t == t[..n] + t[n..];
      assert sep + t[..n] + t[n..] == sep + t;
    }
  }

  /** Exactly which values are accepted as a sequence: within 255 characters, 1 to 16 words
      with separators around and between, each a numeral for the port in its place. */
  lemma PortsExact(val: string, ports: seq<Port>)
    ensures PortsOf(val) == Some(ports) <==>
            && |val| < SCRATCH_SIZE && 1 <= |ports| <= MAX_KNOCK_SEQ_LEN
            && exists words, seps :: Spells(words, seps, ports) && val == Join(words, seps)
  {
    hide PortOf, Join, Tokens;
    if PortsOf(val) == Some(ports) {
      var seps := TokensJoin(val);
      assert Spells(Tokens(val), seps, ports);
    }
    if |val| < SCRATCH_SIZE && 1 <= |ports| <= MAX_KNOCK_SEQ_LEN {
      forall words, seps | Spells(words, seps, ports) && val == Join(words, seps)
        ensures PortsOf(val) == Some(ports)
      {
        TokensOfJoin(words, seps);
        assert AllPorts(words);
        assert PortsOf(val).value == ports;
      }
    }
  }

  /** The words, properly separated, spell the ports. */
  ghost predicate Spells(words: seq<string>, seps: seq<string>, ports: seq<Port>) {
    && |words| == |ports| && Separators(seps, |words|) && AllWords(words)
    && forall i :: 0 <= i < |words| ==> PortOf(words[i]) == Some(ports[i])
  }

  /** Any list of 1 to 16 ports, printed in decimal with any mix of separators around and
      between, within 255 characters, parses back to itself. */
  lemma PortsRoundTrip(ports: seq<Port>, seps: seq<string>)
    requires 1 <= |ports| <= MAX_KNOCK_SEQ_LEN && Separators(seps, |ports|)
    requires forall i :: 0 <= i < |ports| ==> ports[i] != 0
    requires |Render(ports, seps)| < SCRATCH_SIZE
    ensures PortsOf(Render(ports, seps)) == Some(ports)
  {
    TokensOfJoin(DecimalsOf(ports), seps);
    forall i | 0 <= i < |ports|
      ensures PortOf(DecimalsOf(ports)[i]) == Some(ports[i])
    {
      PortRoundTrip(ports[i]);
    }
    assert PortsOf(Render(ports, seps)).value == ports;
  }

  // ---------- a well-formed line ----------

  ghost predicate AllBlank(s: string) {
    forall i :: 0 <= i < |s| ==> IsBlank(s[i])
  }

  ghost predicate Lacks(s: string, p: char -> bool) {
    forall i :: 0 <= i < |s| ==> !p(s[i])
  }

  /** No blank at either end. */
  predicate Trimmed(s: string) {
    s != [] ==> !IsBlank(s[0]) && !IsBlank(s[|s| - 1])
  }

  lemma {:induction false} IndexAfter(s: string, t: string, p: char -> bool)
    requires Lacks(s, p) && (t == [] || p(t[0]))
    ensures IndexWhere(s + t, p) == |s|
    ensures Before(s + t, p) == s
  {
    if s != [] {
      IndexAfter(s[1..], t, p);
      TailOfConcat(s, t);
    } else {
      assert s + t == t;
    }
    assert (s + t)[..|s|] == s;
  }

  lemma {:induction false} BlanksDrop(b: string, s: string)
    requires AllBlank(b) && (s == [] || !IsBlank(s[0]))
    ensures DropBlanks(b + s) == s
  {
    if b != [] {
      BlanksDrop(b[1..], s);
      TailOfConcat(b, s);
    } else {
      assert b + s == s;
    }
  }

  lemma {:induction false} BlanksTrim(s: string, b: string)
    requires AllBlank(b) && (s == [] || !IsBlank(s[|s| - 1]))
    ensures TrimRight(s + b) == s
  {
    if b != [] {
      BlanksTrim(s, b[..|b| - 1]);
      assert (s + b)[..|s + b| - 1] == s + b[..|b| - 1];
    } else {
      assert s + b == s;
    }
  }

  /** Blanks anywhere around the key and the value, a comment after it and the line's end
      are all ignored. */
  lemma LineRoundTrip(b: seq<string>, key: string, val: string, tail: string)
    requires |b| == 4 && forall i :: 0 <= i < 4 ==> AllBlank(b[i])
    requires key != [] && Trimmed(key) && Lacks(key, c => c == '=') && key[0] != '#' && !IsEol(key[0])
    requires Trimmed(val) && Lacks(val, c => c == '#') && Lacks(val, IsEol)
    requires tail == [] || tail[0] == '#' || (IsEol(tail[0]) && Lacks(tail, c => c == '#'))
    ensures EntryOf(b[0] + key + b[1] + "=" + b[2] + val + b[3] + tail) == Some(Entry(key, val))
  {
    hide DropBlanks, TrimRight, Before, IndexWhere;
    var left, right := key + b[1], b[2] + val + b[3];
    var rest := ['='] + (right + tail);
    assert b[0] + key + b[1] + "=" + b[2] + val + b[3] + tail == b[0] + (left + rest);
    BlanksDrop(b[0], left + rest);
    IndexAfter(left, rest, c => c == '=');
    assert (left + rest)[|left| + 1..] == right + tail;
    assert (left + rest)[..|left|] == left;
    BlanksTrim(key, b[1]);
    ValueSurvives(right, tail);
    BothTrimmed(b[2], val, b[3]);
  }

  lemma BothTrimmed(b: string, val: string, b': string)
    requires AllBlank(b) && AllBlank(b') && Trimmed(val)
    ensures TrimRight(DropBlanks(b + val + b')) == val
  {
    if val != [] {
      assert b + val + b' == b + (val + b');
      BlanksDrop(b, val + b');
      BlanksTrim(val, b');
    } else {
      assert b + val + b' == (b + b') + [];
      BlanksDrop(b + b', []);
    }
  }

  /** Blank lines, comment lines, and lines without an equals sign are no entries. */
  lemma LineIgnored(b: string, s: string)
    requires AllBlank(b) && (s == [] || !IsBlank(s[0]))
    requires s == [] || s[0] == '#' || IsEol(s[0]) || Lacks(s, c => c == '=')
    ensures EntryOf(b + s) == None
  {
    hide IndexWhere;
    BlanksDrop(b, s);
    if s != [] && Lacks(s, c => c == '=') {
      assert IndexWhere(s, c => c == '=') == |s|;
    }
  }

  /** A C string ends at its first NUL. */
  lemma CStringEnds(s: string, rest: string)
    requires Lacks(s, c => c == NUL) && (rest == [] || rest[0] == NUL)
    ensures CString(s + rest) == s
  {
    IndexAfter(s, rest, c => c == NUL);
  }

  lemma ValueSurvives(s: string, tail: string)
    requires Lacks(s, c => c == '#') && Lacks(s, IsEol)
    requires tail == [] || tail[0] == '#' || (IsEol(tail[0]) && Lacks(tail, c => c == '#'))
    ensures Before(Before(s + tail, c => c == '#'), IsEol) == s
  {
    if tail == [] || tail[0] == '#' {
      IndexAfter(s, tail, c => c == '#');
      IndexAfter(s, [], IsEol);
      assert s + [] == s;
    } else {
      IndexAfter(s + tail, [], c => c == '#');
      assert s + tail + [] == s + tail;
      IndexAfter(s, tail, IsEol);
    }
  }
}
