/** A reader of the agent's one-line summaries, which knows only their words, and what it gets back. */
module SummaryReader {
  import opened Words
  import opened Memory
  import opened Events
  import opened Text
  import opened Introspection

  // ---------------------------------------------------------------------------------------------
  // The reader.

  /** The text split at its spaces. */
  function Tokens(s: string): (ts: seq<string>)
    ensures ts != []
  {
    if s == [] then [[]]
    else
      var ts := Tokens(s[1..]);
      if s[0] == ' ' then [[]] + ts else [[s[0]] + ts[0]] + ts[1..]
  }

  /** token is name=... */
  predicate Named(token: string, name: string) {
    |name| < |token| && token[..|name|] == name && token[|name|] == '='
  }

  /** 0x and upper-case hexadecimal digits, or decimal digits and a B. */
  function NumberIn(v: string): nat {
    if |v| >= 2 && v[0] == '0' && v[1] == 'x' && InCase(v[2..], true) then FromDigits(v[2..], 16)
    else if v != [] && v[|v| - 1] == 'B' then FromDigits(v[..|v| - 1], 10)
    else 0
  }

  /** The number of the first token of that name. */
  function Field(ts: seq<string>, name: string): nat {
    if ts == [] then 0
    else if Named(ts[0], name) then NumberIn(ts[0][|name| + 1..])
    else Field(ts[1..], name)
  }

  /** The access the words after the bar describe, the first of them being its kind. */
  function Access(word: string, ts: seq<string>): Payload {
    if word == "CPUID" then
      CpuidPayload(Wrap32(Field(ts, "leaf")), Wrap32(Field(ts, "sub")), Wrap32(Field(ts, "EAX")),
                   Wrap32(Field(ts, "EBX")), Wrap32(Field(ts, "ECX")), Wrap32(Field(ts, "EDX")))
    else if word == "OUT" || word == "IN" then
      IoPayload(Field(ts, "port") % 0x1_0000, Wrap8(Field(ts, "size")), Wrap32(Field(ts, "value")), word == "OUT")
    else if word == "WRMSR" || word == "RDMSR" then
      MsrPayload(Wrap32(Field(ts, "index")), Wrap64(Field(ts, "value")), word == "WRMSR")
    else if word == "MMIO-WR" || word == "MMIO-RD" then
      MmioPayload(Wrap64(Field(ts, "gpa")), Wrap8(Field(ts, "size")), Wrap64(Field(ts, "value")), word == "MMIO-WR")
    else NoPayload
  }

  datatype Report = Report(vcpuId: nat, rip: nat, word: string, payload: Payload)

  predicate Bracketed(token: string) {
    |token| >= 6 && token[..5] == "[VCPU" && token[|token| - 1] == ']' && InCase(token[5..|token| - 1], true)
  }

  function ReadLine(s: string): Option<Report> {
    var ts := Tokens(s);
    if |ts| >= 4 && Bracketed(ts[0]) && Named(ts[1], "RIP") && ts[2] == "|" then
      Some(Report(FromDigits(ts[0][5..|ts[0]| - 1], 16), NumberIn(ts[1][4..]), ts[3], Access(ts[3], ts[4..])))
    else None
  }

  // ---------------------------------------------------------------------------------------------
  // Tokens of a concatenation.

  predicate NoSpace(s: string) {
    forall i :: 0 <= i < |s| ==> s[i] != ' '
  }

  lemma {:induction false} OneToken(s: string)
    requires NoSpace(s)
    ensures Tokens(s) == [s]
  {
    if s != [] {
      OneToken(s[1..]);
      assert [s[0]] + s[1..] == s;
    }
  }

  lemma TokensCons(c: char, s: string)
    ensures Tokens([c] + s) == if c == ' ' then [[]] + Tokens(s) else [[c] + Tokens(s)[0]] + Tokens(s)[1..]
  {
    assert ([c] + s)[1..] == s;
  }

  lemma ConsFirst(c: char, ts: seq<string>, us: seq<string>)
    requires ts != []
    ensures [[c] + (ts + us)[0]] + (ts + us)[1..] == [[c] + ts[0]] + ts[1..] + us
  {
  }

  lemma SplitCons(c: char, a: string, joined: string, ts: seq<string>)
    requires Tokens(joined) == Tokens(a) + ts
    ensures Tokens([c] + joined) == Tokens([c] + a) + ts
  {
    TokensCons(c, a);
    TokensCons(c, joined);
    ConsFirst(c, Tokens(a), ts);
    assert [[]] + (Tokens(a) + ts) == [[]] + Tokens(a) + ts;
  }

  lemma {:induction false} TokensSplit(a: string, b: string)
    ensures Tokens(a + " " + b) == Tokens(a) + Tokens(b)
  {
    if a == [] {
      assert a + " " + b == [' '] + b;
      TokensCons(' ', b);
    } else {
      TokensSplit(a[1..], b);
      SplitCons(a[0], a[1..], a[1..] + " " + b, Tokens(b));
      assert a == [a[0]] + a[1..];
      assert a + " " + b == [a[0]] + (a[1..] + " " + b);
    }
  }

  /** A last word of a fixed part and a number. */
  lemma LastToken(x: string, spaced: string, fixed: string, digits: string)
    requires spaced == " " + fixed && NoSpace(fixed) && NoSpace(digits)
    ensures Tokens(x + spaced + digits) == Tokens(x) + [fixed + digits]
  {
    assert x + spaced + digits == x + " " + (fixed + digits);
    OneToken(fixed + digits);
    TokensSplit(x, fixed + digits);
  }

  lemma SpacelessDigits(n: nat, upper: bool)
    ensures NoSpace(Digits(n, 16, upper)) && NoSpace(Dec(n))
  {
    HexDigits(n, upper);
    DecDigits(n);
  }

  // ---------------------------------------------------------------------------------------------
  // Fields of a list of tokens.

  predicate NoEquals(s: string) {
    forall i :: 0 <= i < |s| ==> s[i] != '='
  }

  lemma NamedOnce(token: string, name: string, other: string)
    requires NoEquals(name) && NoEquals(other) && Named(token, name) && Named(token, other)
    ensures name == other
  {
    assert forall i :: 0 <= i < |name| ==> token[..|name|][i] == token[i];
    assert forall i :: 0 <= i < |other| ==> token[..|other|][i] == token[i];
  }

  lemma {:induction false} FieldAt(ts: seq<string>, name: string, i: nat)
    requires i < |ts| && Named(ts[i], name) && forall j :: 0 <= j < i ==> !Named(ts[j], name)
    ensures Field(ts, name) == NumberIn(ts[i][|name| + 1..])
    decreases i
  {
    if i > 0 {
      FieldAt(ts[1..], name, i - 1);
    }
  }

  /** The token carries this name, or is the arrow, which has none. */
  predicate LabelledAt(token: string, name: string) {
    if name == "" then token == "=>" else NoEquals(name) && Named(token, name)
  }

  /** names[i] is the name of token i. */
  predicate Labelled(ts: seq<string>, names: seq<string>) {
    && |ts| == |names|
    && forall i :: 0 <= i < |ts| ==> LabelledAt(ts[i], names[i])
  }

  lemma ArrowUnnamed(name: string)
    requires name != "" && NoEquals(name)
    ensures !Named("=>", name)
  {
    assert name[0] != '=' && "=>"[0] == '=';
  }

  lemma LabelledField(ts: seq<string>, names: seq<string>, i: nat)
    requires Labelled(ts, names) && i < |ts| && names[i] != "" && forall j :: 0 <= j < i ==> names[j] != names[i]
    ensures Field(ts, names[i]) == NumberIn(ts[i][|names[i]| + 1..])
  {
    forall j | 0 <= j < i ensures !Named(ts[j], names[i]) {
      if names[j] == "" {
        ArrowUnnamed(names[i]);
      } else if Named(ts[j], names[i]) {
        NamedOnce(ts[j], names[j], names[i]);
      }
    }
    FieldAt(ts, names[i], i);
  }

  lemma HexField(name: string, fixed: string, n: nat)
    requires fixed == name + "=0x"
    ensures var token := fixed + HexUpper(n); Named(token, name) && NumberIn(token[|name| + 1..]) == n
  {
    var token := fixed + HexUpper(n);
    assert token[|name| + 1..][2..] == HexUpper(n);
    DigitCase(n, true);
    DigitsRoundTrip(n, 16, true);
  }

  lemma SizeNumber(n: nat)
    ensures NumberIn(Dec(n) + "B") == n
  {
    var v := Dec(n) + "B";
    assert v[..|v| - 1] == Dec(n) && v[|v| - 1] == 'B' && v[1] != 'x' by {
      DecDigits(n);
      assert |Dec(n)| >= 2 ==> IsDigit(Dec(n)[1]);
    }
    DigitsRoundTrip(n, 10, false);
  }

  lemma SizeField(n: nat)
    ensures var token := "size=" + (Dec(n) + "B"); Named(token, "size") && NumberIn(token[5..]) == n
  {
    assert ("size=" + (Dec(n) + "B"))[5..] == Dec(n) + "B";
    SizeNumber(n);
  }

  // ---------------------------------------------------------------------------------------------
  // The words of each kind of summary.

  /** The word for the kind of access or event. */
  function WordOf(kind: EventType, p: Payload): string {
    match p
    case CpuidPayload(_, _, _, _, _, _) => "CPUID"
    case IoPayload(_, _, _, isWrite) => if isWrite then "OUT" else "IN"
    case MsrPayload(_, _, isWrite) => if isWrite then "WRMSR" else "RDMSR"
    case MmioPayload(_, _, _, isWrite) => if isWrite then "MMIO-WR" else "MMIO-RD"
    case NoPayload => if kind == GuestHalt then "HLT" else if kind == GuestShutdown then "SHUTDOWN" else "EVENT"
  }

  lemma HexWord(x: string, spaced: string, fixed: string, n: nat)
    requires spaced == " " + fixed && NoSpace(fixed)
    ensures Tokens(x + spaced + HexUpper(n)) == Tokens(x) + [fixed + HexUpper(n)]
  {
    SpacelessDigits(n, true);
    LastToken(x, spaced, fixed, HexUpper(n));
  }

  lemma SizeWord(x: string, n: nat)
    ensures Tokens(x + " size=" + Dec(n) + "B") == Tokens(x) + ["size=" + (Dec(n) + "B")]
  {
    SpacelessDigits(n, true);
    assert x + " size=" + Dec(n) + "B" == x + " size=" + (Dec(n) + "B");
    LastToken(x, " size=", "size=", Dec(n) + "B");
  }

  lemma ArrowWord(x: string)
    ensures Tokens(x + " =>") == Tokens(x) + ["=>"]
  {
    assert x + " =>" == x + " " + "=>";
    OneToken("=>");
    TokensSplit(x, "=>");
  }

  // ---------------------------------------------------------------------------------------------
  // CPUID.

  function CpuidTokens(p: Payload): seq<string>
    requires p.CpuidPayload?
  {
    ["leaf=0x" + HexUpper(p.leaf), "sub=0x" + HexUpper(p.subleaf), "=>", "EAX=0x" + HexUpper(p.eax),
     "EBX=0x" + HexUpper(p.ebx), "ECX=0x" + HexUpper(p.ecx), "EDX=0x" + HexUpper(p.edx)]
  }

  const CPUID_NAMES := ["leaf", "sub", "", "EAX", "EBX", "ECX", "EDX"]

  lemma HexLabel(name: string, fixed: string, n: nat)
    requires fixed == name + "=0x" && name != "" && NoEquals(name)
    ensures LabelledAt(fixed + HexUpper(n), name)
  {
    HexField(name, fixed, n);
  }

  lemma CpuidLabels(p: Payload)
    requires p.CpuidPayload?
    ensures Labelled(CpuidTokens(p), CPUID_NAMES)
  {
    HexLabel("leaf", "leaf=0x", p.leaf);
    HexLabel("sub", "sub=0x", p.subleaf);
    HexLabel("EAX", "EAX=0x", p.eax);
    HexLabel("EBX", "EBX=0x", p.ebx);
    HexLabel("ECX", "ECX=0x", p.ecx);
    HexLabel("EDX", "EDX=0x", p.edx);
    assert forall i :: 0 <= i < 7 ==> LabelledAt(CpuidTokens(p)[i], CPUID_NAMES[i]);
  }

  /** The value of field i. */
  lemma CpuidField(p: Payload, i: nat, fixed: string, n: nat)
    requires p.CpuidPayload? && i < 7 && i != 2
    requires fixed == CPUID_NAMES[i] + "=0x" && CpuidTokens(p)[i] == fixed + HexUpper(n)
    ensures Field(CpuidTokens(p), CPUID_NAMES[i]) == n
  {
    CpuidLabels(p);
    LabelledField(CpuidTokens(p), CPUID_NAMES, i);
    HexField(CPUID_NAMES[i], fixed, n);
  }

  predicate HoldsCpuid(ts: seq<string>, p: Payload)
    requires p.CpuidPayload?
  {
    && Field(ts, "leaf") == p.leaf && Field(ts, "sub") == p.subleaf
    && Field(ts, "EAX") == p.eax && Field(ts, "EBX") == p.ebx && Field(ts, "ECX") == p.ecx && Field(ts, "EDX") == p.edx
  }

  lemma AskedFields(p: Payload)
    requires p.CpuidPayload?
    ensures Field(CpuidTokens(p), "leaf") == p.leaf && Field(CpuidTokens(p), "sub") == p.subleaf
  {
    CpuidField(p, 0, "leaf=0x", p.leaf);
    CpuidField(p, 1, "sub=0x", p.subleaf);
  }

  lemma LowFields(p: Payload)
    requires p.CpuidPayload?
    ensures Field(CpuidTokens(p), "EAX") == p.eax && Field(CpuidTokens(p), "EBX") == p.ebx
  {
    CpuidField(p, 3, "EAX=0x", p.eax);
    CpuidField(p, 4, "EBX=0x", p.ebx);
  }

  lemma HighFields(p: Payload)
    requires p.CpuidPayload?
    ensures Field(CpuidTokens(p), "ECX") == p.ecx && Field(CpuidTokens(p), "EDX") == p.edx
  {
    CpuidField(p, 5, "ECX=0x", p.ecx);
    CpuidField(p, 6, "EDX=0x", p.edx);
  }

  lemma CpuidFrom(ts: seq<string>, p: Payload)
    requires p.CpuidPayload? && HoldsCpuid(ts, p)
    ensures Access("CPUID", ts) == p
  {
  }

  lemma CpuidRead(p: Payload)
    requires p.CpuidPayload?
    ensures Access("CPUID", CpuidTokens(p)) == p
  {
    assert HoldsCpuid(CpuidTokens(p), p) by {
      AskedFields(p);
      LowFields(p);
      HighFields(p);
    }
    CpuidFrom(CpuidTokens(p), p);
  }

  function AskedText(p: Payload): string
    requires p.CpuidPayload?
  {
    "CPUID leaf=0x" + HexUpper(p.leaf) + " sub=0x" + HexUpper(p.subleaf)
  }

  function LowText(p: Payload): string
    requires p.CpuidPayload?
  {
    AskedText(p) + " => EAX=0x" + HexUpper(p.eax) + " EBX=0x" + HexUpper(p.ebx)
  }

  lemma AskedSplit(p: Payload)
    requires p.CpuidPayload?
    ensures Tokens(AskedText(p)) == ["CPUID", "leaf=0x" + HexUpper(p.leaf), "sub=0x" + HexUpper(p.subleaf)]
  {
    var x := "CPUID leaf=0x" + HexUpper(p.leaf);
    assert x == "CPUID" + " leaf=0x" + HexUpper(p.leaf);
    OneToken("CPUID");
    HexWord("CPUID", " leaf=0x", "leaf=0x", p.leaf);
    HexWord(x, " sub=0x", "sub=0x", p.subleaf);
  }

  lemma LowSplit(p: Payload)
    requires p.CpuidPayload?
    ensures Tokens(LowText(p)) == Tokens(AskedText(p)) + ["=>", "EAX=0x" + HexUpper(p.eax), "EBX=0x" + HexUpper(p.ebx)]
  {
    var x1 := AskedText(p);
    ArrowWord(x1);
    var x2 := x1 + " => EAX=0x" + HexUpper(p.eax);
    assert x2 == x1 + " =>" + " EAX=0x" + HexUpper(p.eax);
    HexWord(x1 + " =>", " EAX=0x", "EAX=0x", p.eax);
    HexWord(x2, " EBX=0x", "EBX=0x", p.ebx);
  }

  lemma CpuidSplit(kind: EventType, p: Payload)
    requires p.CpuidPayload?
    ensures Tokens(PayloadText(kind, p)) == ["CPUID"] + CpuidTokens(p)
  {
    AskedSplit(p);
    LowSplit(p);
    var x := LowText(p) + " ECX=0x" + HexUpper(p.ecx);
    HexWord(LowText(p), " ECX=0x", "ECX=0x", p.ecx);
    HexWord(x, " EDX=0x", "EDX=0x", p.edx);
    assert PayloadText(kind, p) == x + " EDX=0x" + HexUpper(p.edx);
  }

  // ---------------------------------------------------------------------------------------------
  // Port and memory accesses: a place, a size and a value.

  function PlaceTokens(name: string, at: nat, size: nat, value: nat): seq<string> {
    [name + "=0x" + HexUpper(at), "size=" + (Dec(size) + "B"), "value=0x" + HexUpper(value)]
  }

  predicate PlaceName(name: string) {
    name != "" && NoEquals(name) && NoSpace(name) && name != "size" && name != "value"
  }

  lemma PlaceLabels(name: string, at: nat, size: nat, value: nat)
    requires PlaceName(name)
    ensures Labelled(PlaceTokens(name, at, size, value), [name, "size", "value"])
  {
    HexLabel(name, name + "=0x", at);
    SizeField(size);
    HexLabel("value", "value=0x", value);
  }

  lemma PlaceFields(name: string, at: nat, size: nat, value: nat)
    requires PlaceName(name)
    ensures var ts := PlaceTokens(name, at, size, value);
      Field(ts, name) == at && Field(ts, "size") == size && Field(ts, "value") == value
  {
    var ts, names := PlaceTokens(name, at, size, value), [name, "size", "value"];
    PlaceLabels(name, at, size, value);
    LabelledField(ts, names, 0);
    HexField(name, name + "=0x", at);
    LabelledField(ts, names, 1);
    SizeField(size);
    LabelledField(ts, names, 2);
    HexField("value", "value=0x", value);
  }

  lemma PlaceSplit(word: string, name: string, at: nat, size: nat, value: nat, spaced: string)
    requires NoSpace(word) && PlaceName(name) && spaced == " " + (name + "=0x")
    ensures Tokens(word + spaced + HexUpper(at) + " size=" + Dec(size) + "B" + " value=0x" + HexUpper(value))
         == [word] + PlaceTokens(name, at, size, value)
  {
    OneToken(word);
    var x := word + spaced + HexUpper(at);
    HexWord(word, spaced, name + "=0x", at);
    SizeWord(x, size);
    HexWord(x + " size=" + Dec(size) + "B", " value=0x", "value=0x", value);
  }

  lemma IoFrom(kind: EventType, ts: seq<string>, p: Payload)
    requires p.IoPayload? && Field(ts, "port") == p.port && Field(ts, "size") == p.ioSize && Field(ts, "value") == p.ioValue
    ensures Access(WordOf(kind, p), ts) == p
  {
  }

  lemma PortSplit(kind: EventType, p: Payload)
    requires p.IoPayload?
    ensures Tokens(PayloadText(kind, p)) == [WordOf(kind, p)] + PlaceTokens("port", p.port, p.ioSize, p.ioValue)
  {
    PlaceSplit(WordOf(kind, p), "port", p.port, p.ioSize, p.ioValue, " port=0x");
  }

  lemma PortWords(kind: EventType, p: Payload)
    requires p.IoPayload?
    ensures var ts := PlaceTokens("port", p.port, p.ioSize, p.ioValue);
      Tokens(PayloadText(kind, p)) == [WordOf(kind, p)] + ts && Access(WordOf(kind, p), ts) == p
  {
    var ts := PlaceTokens("port", p.port, p.ioSize, p.ioValue);
    PlaceFields("port", p.port, p.ioSize, p.ioValue);
    IoFrom(kind, ts, p);
    PortSplit(kind, p);
  }

  lemma MmioFrom(kind: EventType, ts: seq<string>, p: Payload)
    requires p.MmioPayload? && Field(ts, "gpa") == p.gpa && Field(ts, "size") == p.mmioSize && Field(ts, "value") == p.mmioValue
    ensures Access(WordOf(kind, p), ts) == p
  {
  }

  lemma MmioSplit(kind: EventType, p: Payload)
    requires p.MmioPayload?
    ensures Tokens(PayloadText(kind, p)) == [WordOf(kind, p)] + PlaceTokens("gpa", p.gpa, p.mmioSize, p.mmioValue)
  {
    PlaceSplit(WordOf(kind, p), "gpa", p.gpa, p.mmioSize, p.mmioValue, " gpa=0x");
  }

  lemma MmioWords(kind: EventType, p: Payload)
    requires p.MmioPayload?
    ensures var ts := PlaceTokens("gpa", p.gpa, p.mmioSize, p.mmioValue);
      Tokens(PayloadText(kind, p)) == [WordOf(kind, p)] + ts && Access(WordOf(kind, p), ts) == p
  {
    var ts := PlaceTokens("gpa", p.gpa, p.mmioSize, p.mmioValue);
    PlaceFields("gpa", p.gpa, p.mmioSize, p.mmioValue);
    MmioFrom(kind, ts, p);
    MmioSplit(kind, p);
  }

  // ---------------------------------------------------------------------------------------------
  // MSRs, and summaries of one word.

  function MsrTokens(index: nat, value: nat): seq<string> {
    ["index=0x" + HexUpper(index), "value=0x" + HexUpper(value)]
  }

  lemma MsrLabels(index: nat, value: nat)
    ensures Labelled(MsrTokens(index, value), ["index", "value"])
  {
    HexLabel("index", "index=0x", index);
    HexLabel("value", "value=0x", value);
  }

  lemma MsrFields(index: nat, value: nat)
    ensures Field(MsrTokens(index, value), "index") == index && Field(MsrTokens(index, value), "value") == value
  {
    var ts, names := MsrTokens(index, value), ["index", "value"];
    MsrLabels(index, value);
    LabelledField(ts, names, 0);
    HexField("index", "index=0x", index);
    LabelledField(ts, names, 1);
    HexField("value", "value=0x", value);
  }

  lemma MsrFrom(kind: EventType, ts: seq<string>, p: Payload)
    requires p.MsrPayload? && Field(ts, "index") == p.index && Field(ts, "value") == p.msrValue
    ensures Access(WordOf(kind, p), ts) == p
  {
  }

  lemma MsrSplit(word: string, index: nat, value: nat)
    requires NoSpace(word)
    ensures Tokens(word + " index=0x" + HexUpper(index) + " value=0x" + HexUpper(value)) == [word] + MsrTokens(index, value)
  {
    OneToken(word);
    HexWord(word, " index=0x", "index=0x", index);
    HexWord(word + " index=0x" + HexUpper(index), " value=0x", "value=0x", value);
  }

  lemma MsrWords(kind: EventType, p: Payload)
    requires p.MsrPayload?
    ensures var ts := MsrTokens(p.index, p.msrValue);
      Tokens(PayloadText(kind, p)) == [WordOf(kind, p)] + ts && Access(WordOf(kind, p), ts) == p
  {
    MsrFields(p.index, p.msrValue);
    MsrFrom(kind, MsrTokens(p.index, p.msrValue), p);
    MsrSplit(WordOf(kind, p), p.index, p.msrValue);
  }

  lemma BareWord(kind: EventType, p: Payload)
    requires p.NoPayload?
    ensures Tokens(PayloadText(kind, p)) == [WordOf(kind, p)] && Access(WordOf(kind, p), []) == p
  {
    OneToken(WordOf(kind, p));
  }

  // ---------------------------------------------------------------------------------------------
  // The whole line.

  /** The words after the bar: the kind of the access, then its numbers. */
  lemma PayloadRead(kind: EventType, p: Payload)
    ensures var ts := Tokens(PayloadText(kind, p)); ts[0] == WordOf(kind, p) && Access(ts[0], ts[1..]) == p
  {
    match p {
      case CpuidPayload(_, _, _, _, _, _) =>
        CpuidSplit(kind, p);
        CpuidRead(p);
      case IoPayload(_, _, _, _) => PortWords(kind, p);
      case MsrPayload(_, _, _) => MsrWords(kind, p);
      case MmioPayload(_, _, _, _) => MmioWords(kind, p);
      case NoPayload => BareWord(kind, p);
    }
  }

  lemma HeaderRead(id: nat, rip: nat)
    ensures var vcpu := "[VCPU" + HexUpper(id) + "]";
      var place := "RIP=0x" + HexUpper(rip);
      && NoSpace(vcpu) && Bracketed(vcpu) && FromDigits(vcpu[5..|vcpu| - 1], 16) == id
      && NoSpace(place) && Named(place, "RIP") && NumberIn(place[4..]) == rip
  {
    SpacelessDigits(id, true);
    SpacelessDigits(rip, true);
    HexField("RIP", "RIP=0x", rip);
    DigitsRoundTrip(id, 16, true);
    DigitCase(id, true);
    var vcpu := "[VCPU" + HexUpper(id) + "]";
    assert vcpu[5..|vcpu| - 1] == HexUpper(id);
  }

  lemma HeaderSplit(vcpu: string, place: string)
    requires NoSpace(vcpu) && NoSpace(place)
    ensures Tokens(vcpu + " " + place) == [vcpu, place]
  {
    TokensSplit(vcpu, place);
    OneToken(vcpu);
    OneToken(place);
  }

  lemma BarSplit(text: string)
    ensures Tokens("| " + text) == ["|"] + Tokens(text)
  {
    assert "| " + text == "|" + " " + text;
    TokensSplit("|", text);
    OneToken("|");
  }

  lemma LineSplit(vcpu: string, place: string, text: string)
    requires NoSpace(vcpu) && NoSpace(place)
    ensures Tokens(vcpu + " " + place + " | " + text) == [vcpu, place, "|"] + Tokens(text)
  {
    var x := vcpu + " " + place;
    assert x + " | " + text == x + " " + ("| " + text);
    TokensSplit(x, "| " + text);
    BarSplit(text);
    HeaderSplit(vcpu, place);
  }

  lemma SummaryLine(e: HvEvent, s: GuestSnapshot)
    ensures var vcpu, place := "[VCPU" + HexUpper(e.vcpuId) + "]", "RIP=0x" + HexUpper(s.rip);
      Summary(e, s) == vcpu + " " + place + " | " + PayloadText(e.kind, e.payload)
  {
  }

  lemma LineRead(line: string, vcpu: string, place: string, text: string)
    requires Tokens(line) == [vcpu, place, "|"] + Tokens(text) && Bracketed(vcpu) && Named(place, "RIP")
    ensures var ts := Tokens(text);
      ReadLine(line) == Some(Report(FromDigits(vcpu[5..|vcpu| - 1], 16), NumberIn(place[4..]), ts[0], Access(ts[0], ts[1..])))
  {
    var ts := Tokens(line);
    assert ts[3] == Tokens(text)[0] && ts[4..] == Tokens(text)[1..];
  }

  /**
   * From the text of a summary alone a reader gets back the vCPU, the guest's rip, what kind of
   * access or event it was and every number of its payload, for all payloads.
   */
  lemma SummaryRead(e: HvEvent, s: GuestSnapshot)
    ensures ReadLine(Summary(e, s)) == Some(Report(e.vcpuId, s.rip, WordOf(e.kind, e.payload), e.payload))
  {
    var vcpu, place, text := "[VCPU" + HexUpper(e.vcpuId) + "]", "RIP=0x" + HexUpper(s.rip), PayloadText(e.kind, e.payload);
    SummaryLine(e, s);
    HeaderRead(e.vcpuId, s.rip);
    LineSplit(vcpu, place, text);
    LineRead(Summary(e, s), vcpu, place, text);
    PayloadRead(e.kind, e.payload);
  }
}
