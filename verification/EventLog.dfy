/** VmiAgent::dumpEventLog: the JSON text of an event log, and the proof that a JSON reader gets the log back. */
module EventLog {
  import opened Words
  import opened Memory
  import opened Text
  import opened Introspection
  import opened Json

  /** duration_cast to milliseconds truncates toward zero. */
  function Millis(ns: int): int {
    if ns >= 0 then ns / 1_000_000 else -((-ns) / 1_000_000)
  }

  function Key(name: string): string {
    "    \"" + name + "\": "
  }

  /** The dump, when there is one, and whatever follows. */
  function DumpThen(e: IntrospectionEvent, rest: string): string {
    if e.memDump.None? then rest
    else ",\n" + (Key("mem_dump") + ("\"" + (HexBytes(e.memDump.value) + ("\"" + rest))))
  }

  function SummaryThen(e: IntrospectionEvent, rest: string): string {
    Key("summary") + ("\"" + (e.summary + ("\"" + DumpThen(e, rest))))
  }

  function RipThen(e: IntrospectionEvent, rest: string): string {
    Key("rip") + ("\"" + (("0x" + Hex(e.snapshot.rip)) + ("\"" + (",\n" + SummaryThen(e, rest)))))
  }

  function VcpuThen(e: IntrospectionEvent, rest: string): string {
    Key("vcpu_id") + (Dec(e.base.vcpuId) + (",\n" + RipThen(e, rest)))
  }

  function TimeThen(e: IntrospectionEvent, rest: string): string {
    Key("timestamp") + (Signed(Millis(e.snapshot.timestamp)) + (",\n" + VcpuThen(e, rest)))
  }

  /** The text of one entry and whatever follows. */
  function EntryThen(e: IntrospectionEvent, last: bool, rest: string): string {
    "  {\n" + TimeThen(e, "\n  }" + ((if last then "" else ",") + ("\n" + rest)))
  }

  function EntriesThen(log: seq<IntrospectionEvent>, rest: string): string {
    if log == [] then rest else EntryThen(log[0], |log| == 1, EntriesThen(log[1..], rest))
  }

  function LogText(log: seq<IntrospectionEvent>): string {
    "[\n" + EntriesThen(log, "]\n")
  }

  // ---------------------------------------------------------------------------------------------
  // Reading back.

  /** What the text keeps of an entry. */
  datatype Record = Record(timestamp: int, vcpuId: nat, rip: nat, summary: string, dump: Option<seq<byte>>)

  function RecordOf(e: IntrospectionEvent): Record {
    Record(Millis(e.snapshot.timestamp), e.base.vcpuId, e.snapshot.rip, e.summary, e.memDump)
  }

  function RecordsOf(log: seq<IntrospectionEvent>): seq<Record> {
    if log == [] then [] else [RecordOf(log[0])] + RecordsOf(log[1..])
  }

  function Find(ms: seq<(string, Json)>, name: string): Json {
    if ms == [] then Null else if ms[0].0 == name then ms[0].1 else Find(ms[1..], name)
  }

  /** 0x and lower-case hexadecimal digits. */
  predicate HexNumber(s: string) {
    |s| > 2 && s[0] == '0' && s[1] == 'x' && InCase(s[2..], false)
  }

  /** Read an object of the log by member names. */
  function ReadRecord(v: Json): Option<Record> {
    if !v.Object? then None
    else
      var ts, id, rip := Find(v.members, "timestamp"), Find(v.members, "vcpu_id"), Find(v.members, "rip");
      var summary, dump := Find(v.members, "summary"), Find(v.members, "mem_dump");
      if !ts.Number? || !id.Number? || !rip.Str? || !HexNumber(rip.s) || !summary.Str? then None
      else Some(Record(FromSigned(ts.lexeme), FromDigits(id.lexeme, 10), FromDigits(rip.s[2..], 16), summary.s,
                       if dump.Str? && InCase(dump.s, false) then Some(FromHexBytes(dump.s)) else None))
  }

  function ReadRecords(vs: seq<Json>): Option<seq<Record>> {
    if vs == [] then Some([])
    else
      var r, rs := ReadRecord(vs[0]), ReadRecords(vs[1..]);
      if r.None? || rs.None? then None else Some([r.value] + rs.value)
  }

  /** A well-formed JSON text that is an array of log objects. */
  function ReadLog(text: string): Option<seq<Record>> {
    match ParseText(text)
    case Got(Array(vs), _) => ReadRecords(vs)
    case _ => None
  }

  function DumpMembers(e: IntrospectionEvent): seq<(string, Json)> {
    if e.memDump.None? then [] else [("mem_dump", Str(HexBytes(e.memDump.value)))]
  }

  function EntryJson(e: IntrospectionEvent): Json {
    Object([("timestamp", Number(Signed(Millis(e.snapshot.timestamp))))]
           + ([("vcpu_id", Number(Dec(e.base.vcpuId)))]
           + ([("rip", Str("0x" + Hex(e.snapshot.rip)))]
           + ([("summary", Str(e.summary))] + DumpMembers(e)))))
  }

  function EntriesJson(log: seq<IntrospectionEvent>): seq<Json> {
    if log == [] then [] else [EntryJson(log[0])] + EntriesJson(log[1..])
  }

  /** A quoted name with its colon, without indentation. */
  function Name(name: string, rest: string): string {
    "\"" + (name + ("\": " + rest))
  }

  lemma KeyShape(name: string, rest: string)
    ensures Key(name) + rest == "    " + Name(name, rest)
  {
  }

  /** A comma, a line break and an indented name, as the reader takes them apart. */
  lemma NextKey(name: string, rest: string)
    ensures ",\n" + (Key(name) + rest) == "," + ("\n    " + Name(name, rest))
  {
    KeyShape(name, rest);
    assert ",\n" + ("    " + Name(name, rest)) == "," + ("\n    " + Name(name, rest));
  }

  lemma NameStart(name: string, rest: string)
    ensures NoLeadingWs(Name(name, rest)) && Name(name, rest)[0] == '"'
  {
  }

  /** The end of an object. */
  predicate Closing(text: string, rest: string) {
    text == "\n  }" + rest
  }

  lemma ClosingShape(rest: string)
    ensures "\n  }" + rest == "\n  " + ("}" + rest)
  {
  }

  lemma ReadDump(e: IntrospectionEvent, text: string, rest: string)
    requires e.memDump.Some? && Closing(text, rest)
    ensures ParseMembers(Name("mem_dump", "\"" + (HexBytes(e.memDump.value) + ("\"" + text)))) == Got(DumpMembers(e), rest)
  {
    var h := HexBytes(e.memDump.value);
    PlainHexBytes(e.memDump.value);
    StringValue(h, text);
    NamedValue("mem_dump", "\"" + (h + ("\"" + text)), Str(h), text);
    ClosingShape(rest);
    LastMember(Name("mem_dump", "\"" + (h + ("\"" + text))), ("mem_dump", Str(h)), text, "\n  ", rest);
  }

  lemma ReadSummary(e: IntrospectionEvent, text: string, rest: string)
    requires AllPlain(e.summary) && Closing(text, rest)
    ensures ParseMembers(Name("summary", "\"" + (e.summary + ("\"" + DumpThen(e, text)))))
         == Got([("summary", Str(e.summary))] + DumpMembers(e), rest)
  {
    var after := DumpThen(e, text);
    var value := "\"" + (e.summary + ("\"" + after));
    StringValue(e.summary, after);
    NamedValue("summary", value, Str(e.summary), after);
    if e.memDump.None? {
      ClosingShape(rest);
      assert [("summary", Str(e.summary))] + DumpMembers(e) == [("summary", Str(e.summary))];
      LastMember(Name("summary", value), ("summary", Str(e.summary)), after, "\n  ", rest);
    } else {
      var dump := "\"" + (HexBytes(e.memDump.value) + ("\"" + text));
      NextKey("mem_dump", dump);
      ReadDump(e, text, rest);
      NameStart("mem_dump", dump);
      NextMember(Name("summary", value), ("summary", Str(e.summary)), "\n    ", Name("mem_dump", dump), DumpMembers(e), rest);
    }
  }

  lemma ReadRip(e: IntrospectionEvent, text: string, rest: string)
    requires AllPlain(e.summary) && Closing(text, rest)
    ensures ParseMembers(Name("rip", "\"" + (("0x" + Hex(e.snapshot.rip)) + ("\"" + (",\n" + SummaryThen(e, text))))))
         == Got([("rip", Str("0x" + Hex(e.snapshot.rip)))] + ([("summary", Str(e.summary))] + DumpMembers(e)), rest)
  {
    var h := "0x" + Hex(e.snapshot.rip);
    PlainDigits(e.snapshot.rip, false);
    var after := ",\n" + SummaryThen(e, text);
    var value := "\"" + (h + ("\"" + after));
    StringValue(h, after);
    NamedValue("rip", value, Str(h), after);
    var summary := "\"" + (e.summary + ("\"" + DumpThen(e, text)));
    NextKey("summary", summary);
    ReadSummary(e, text, rest);
    NameStart("summary", summary);
    NextMember(Name("rip", value), ("rip", Str(h)), "\n    ", Name("summary", summary),
               [("summary", Str(e.summary))] + DumpMembers(e), rest);
  }

  /** A number member followed by more members. */
  lemma ReadNumber(name: string, n: int, next: string, more: string, ms: seq<(string, Json)>, rest: string)
    requires AllPlain(name) && ParseMembers(Name(next, more)) == Got(ms, rest)
    ensures ParseMembers(Name(name, Signed(n) + (",\n" + (Key(next) + more)))) == Got([(name, Number(Signed(n)))] + ms, rest)
  {
    var after := ",\n" + (Key(next) + more);
    NumberValue(n, after);
    SignedStart(n, after);
    NamedValue(name, Signed(n) + after, Number(Signed(n)), after);
    NextKey(next, more);
    NameStart(next, more);
    NextMember(Name(name, Signed(n) + after), (name, Number(Signed(n))), "\n    ", Name(next, more), ms, rest);
  }

  lemma SignedStart(n: int, rest: string)
    ensures NoLeadingWs(Signed(n) + rest)
  {
    DecDigits(if n < 0 then -n else n);
    assert IsDigit(Dec(if n < 0 then -n else n)[0]);
  }

  lemma ReadMembers(e: IntrospectionEvent, text: string, rest: string)
    requires AllPlain(e.summary) && Closing(text, rest)
    ensures ParseMembers(Name("timestamp", Signed(Millis(e.snapshot.timestamp)) + (",\n" + VcpuThen(e, text))))
         == Got(EntryJson(e).members, rest)
  {
    ReadRip(e, text, rest);
    var rip := "\"" + (("0x" + Hex(e.snapshot.rip)) + ("\"" + (",\n" + SummaryThen(e, text))));
    assert RipThen(e, text) == Key("rip") + rip;
    var ms := [("rip", Str("0x" + Hex(e.snapshot.rip)))] + ([("summary", Str(e.summary))] + DumpMembers(e));
    assert Signed(e.base.vcpuId) == Dec(e.base.vcpuId);
    ReadNumber("vcpu_id", e.base.vcpuId, "rip", rip, ms, rest);
    var vcpu := Dec(e.base.vcpuId) + (",\n" + RipThen(e, text));
    assert VcpuThen(e, text) == Key("vcpu_id") + vcpu;
    ReadNumber("timestamp", Millis(e.snapshot.timestamp), "vcpu_id", vcpu, [("vcpu_id", Number(Dec(e.base.vcpuId)))] + ms, rest);
  }

  /** The object of one entry, without its indentation. */
  function ObjectThen(e: IntrospectionEvent, rest: string): string {
    "{" + ("\n    " + Name("timestamp", Signed(Millis(e.snapshot.timestamp)) + (",\n" + VcpuThen(e, "\n  }" + rest))))
  }

  lemma EntryShape(e: IntrospectionEvent, last: bool, rest: string)
    ensures EntryThen(e, last, rest) == "  " + ObjectThen(e, (if last then "" else ",") + ("\n" + rest))
  {
    var after := "\n  }" + ((if last then "" else ",") + ("\n" + rest));
    var value := Signed(Millis(e.snapshot.timestamp)) + (",\n" + VcpuThen(e, after));
    KeyShape("timestamp", value);
    OpenShape(Name("timestamp", value));
  }

  lemma OpenShape(x: string)
    ensures "  {\n" + ("    " + x) == "  " + ("{" + ("\n    " + x))
  {
  }

  lemma ReadObject(e: IntrospectionEvent, rest: string)
    requires AllPlain(e.summary)
    ensures ParseValue(ObjectThen(e, rest)) == Got(EntryJson(e), rest)
  {
    var members := Name("timestamp", Signed(Millis(e.snapshot.timestamp)) + (",\n" + VcpuThen(e, "\n  }" + rest)));
    ReadMembers(e, "\n  }" + rest, rest);
    NameStart("timestamp", Signed(Millis(e.snapshot.timestamp)) + (",\n" + VcpuThen(e, "\n  }" + rest)));
    ObjectValue("\n    ", members, EntryJson(e).members, rest);
  }

  ghost predicate PlainLog(log: seq<IntrospectionEvent>) {
    forall i :: 0 <= i < |log| ==> AllPlain(log[i].summary)
  }

  /** The entries of a non-empty log without their leading indentation. */
  function ItemsText(log: seq<IntrospectionEvent>): string
    requires log != []
  {
    if |log| == 1 then ObjectThen(log[0], "\n" + ("]" + "\n"))
    else ObjectThen(log[0], "," + ("\n  " + ItemsText(log[1..])))
  }

  lemma IndentShape(x: string)
    ensures "\n" + ("  " + x) == "\n  " + x
    ensures "[\n" + ("  " + x) == "[" + ("\n  " + x)
  {
  }

  lemma LastShape()
    ensures "\n" + "]\n" == "\n" + ("]" + "\n")
  {
  }

  lemma {:induction false} EntriesShape(log: seq<IntrospectionEvent>)
    requires log != []
    ensures EntriesThen(log, "]\n") == "  " + ItemsText(log)
  {
    var e, rest := log[0], EntriesThen(log[1..], "]\n");
    EntryShape(e, |log| == 1, rest);
    if |log| == 1 {
      assert log[1..] == [];
      LastShape();
      assert "" + ("\n" + rest) == "\n" + rest;
    } else {
      EntriesShape(log[1..]);
      IndentShape(ItemsText(log[1..]));
    }
  }

  lemma ItemsStart(log: seq<IntrospectionEvent>)
    requires log != []
    ensures NoLeadingWs(ItemsText(log)) && ItemsText(log) != [] && ItemsText(log)[0] == '{'
  {
  }

  lemma ReadLast(e: IntrospectionEvent)
    requires AllPlain(e.summary)
    ensures ParseItems(ObjectThen(e, "\n" + ("]" + "\n"))) == Got([EntryJson(e)], "\n")
  {
    ReadObject(e, "\n" + ("]" + "\n"));
    LastItem(ObjectThen(e, "\n" + ("]" + "\n")), EntryJson(e), "\n", "\n");
  }

  lemma ReadNext(e: IntrospectionEvent, more: string, vs: seq<Json>)
    requires AllPlain(e.summary) && NoLeadingWs(more) && ParseItems(more) == Got(vs, "\n")
    ensures ParseItems(ObjectThen(e, "," + ("\n  " + more))) == Got([EntryJson(e)] + vs, "\n")
  {
    ReadObject(e, "," + ("\n  " + more));
    NextItem(ObjectThen(e, "," + ("\n  " + more)), EntryJson(e), "\n  ", more, vs, "\n");
  }

  /** These items, up to the end of the text. */
  predicate Holds(text: string, vs: seq<Json>) {
    ParseItems(text) == Got(vs, "\n")
  }

  lemma {:induction false} ReadItems(log: seq<IntrospectionEvent>)
    requires log != [] && PlainLog(log)
    ensures Holds(ItemsText(log), EntriesJson(log))
  {
    if |log| == 1 {
      ReadLast(log[0]);
      assert log[1..] == [] && [EntryJson(log[0])] + [] == [EntryJson(log[0])];
    } else {
      ReadItems(log[1..]);
      ItemsStart(log[1..]);
      ReadNext(log[0], ItemsText(log[1..]), EntriesJson(log[1..]));
    }
  }

  lemma ReadArray(items: string, vs: seq<Json>)
    requires Holds(items, vs) && NoLeadingWs(items) && items != [] && items[0] == '{'
    ensures ParseText("[\n" + ("  " + items)) == Got(Array(vs), "")
  {
    ArrayText("\n  ", items, vs, "\n");
    IndentShape(items);
  }

  /** The emitted text is one well-formed JSON array, with exactly one object per event. */
  lemma WellFormed(log: seq<IntrospectionEvent>)
    requires PlainLog(log)
    ensures ParseText(LogText(log)) == Got(Array(EntriesJson(log)), "")
  {
    if log == [] {
      EmptyArray();
      assert LogText(log) == "[\n]\n";
    } else {
      ReadItems(log);
      ItemsStart(log);
      ReadArray(ItemsText(log), EntriesJson(log));
      EntriesShape(log);
    }
  }

  lemma EmptyArray()
    ensures ParseText("[\n]\n") == Got(Array([]), "")
  {
    var s := "[\n]\n";
    assert SkipWs(s) == s;
    assert s[1..] == "\n" + "]\n";
    SkipOver("\n", "]\n");
    assert "]\n"[1..] == "\n";
    SkipOver("\n", "");
    assert "\n" + "" == "\n";
  }

  lemma FindStep(name: string, v: Json, ms: seq<(string, Json)>, wanted: string)
    ensures Find([(name, v)] + ms, wanted) == if name == wanted then v else Find(ms, wanted)
  {
    assert ([(name, v)] + ms)[1..] == ms;
  }

  lemma FindDump(e: IntrospectionEvent, wanted: string)
    ensures Find(DumpMembers(e), wanted) ==
      if e.memDump.Some? && wanted == "mem_dump" then Str(HexBytes(e.memDump.value)) else Null
  {
    if e.memDump.Some? {
      FindStep("mem_dump", Str(HexBytes(e.memDump.value)), [], wanted);
      assert DumpMembers(e) + [] == DumpMembers(e);
    }
  }

  lemma FindMember(e: IntrospectionEvent, wanted: string)
    ensures Find(EntryJson(e).members, wanted) ==
      if wanted == "timestamp" then Number(Signed(Millis(e.snapshot.timestamp)))
      else if wanted == "vcpu_id" then Number(Dec(e.base.vcpuId))
      else if wanted == "rip" then Str("0x" + Hex(e.snapshot.rip))
      else if wanted == "summary" then Str(e.summary)
      else if e.memDump.Some? && wanted == "mem_dump" then Str(HexBytes(e.memDump.value))
      else Null
  {
    var m4 := [("summary", Str(e.summary))] + DumpMembers(e);
    var m3 := [("rip", Str("0x" + Hex(e.snapshot.rip)))] + m4;
    var m2 := [("vcpu_id", Number(Dec(e.base.vcpuId)))] + m3;
    FindStep("timestamp", Number(Signed(Millis(e.snapshot.timestamp))), m2, wanted);
    FindStep("vcpu_id", Number(Dec(e.base.vcpuId)), m3, wanted);
    FindStep("rip", Str("0x" + Hex(e.snapshot.rip)), m4, wanted);
    FindStep("summary", Str(e.summary), DumpMembers(e), wanted);
    FindDump(e, wanted);
  }

  lemma ReadBack(e: IntrospectionEvent)
    ensures ReadRecord(EntryJson(e)) == Some(RecordOf(e))
  {
    FindMember(e, "timestamp");
    FindMember(e, "vcpu_id");
    FindMember(e, "rip");
    FindMember(e, "summary");
    FindMember(e, "mem_dump");
    SignedRoundTrip(Millis(e.snapshot.timestamp));
    DigitsRoundTrip(e.base.vcpuId, 10, false);
    DigitsRoundTrip(e.snapshot.rip, 16, false);
    assert ("0x" + Hex(e.snapshot.rip))[2..] == Hex(e.snapshot.rip);
    DigitCase(e.snapshot.rip, false);
    if e.memDump.Some? {
      HexBytesRoundTrip(e.memDump.value);
      HexBytesCase(e.memDump.value);
    }
  }

  lemma {:induction false} ReadAllBack(log: seq<IntrospectionEvent>)
    ensures ReadRecords(EntriesJson(log)) == Some(RecordsOf(log)) && |EntriesJson(log)| == |log|
  {
    if log != [] {
      ReadBack(log[0]);
      ReadAllBack(log[1..]);
      assert EntriesJson(log)[1..] == EntriesJson(log[1..]);
    }
  }

  lemma {:induction false} RecordAt(log: seq<IntrospectionEvent>, i: nat)
    requires i < |log|
    ensures |RecordsOf(log)| == |log| && RecordsOf(log)[i] == RecordOf(log[i])
    decreases i
  {
    RecordsLength(log);
    if i > 0 { RecordAt(log[1..], i - 1); }
  }

  lemma {:induction false} RecordsLength(log: seq<IntrospectionEvent>)
    ensures |RecordsOf(log)| == |log|
  {
    if log != [] { RecordsLength(log[1..]); }
  }

  /** A whole number of milliseconds, the last one not after ns (not before it, when ns is negative). */
  predicate Truncated(ms: int, ns: int) {
    if ns >= 0 then ms * 1_000_000 <= ns < (ms + 1) * 1_000_000 else (ms - 1) * 1_000_000 < ns <= ms * 1_000_000
  }

  /** The record says of an entry when its snapshot was taken, its vCPU, the snapshot's rip, its summary and its dump. */
  predicate Tells(r: Record, e: IntrospectionEvent) {
    && Truncated(r.timestamp, e.snapshot.timestamp)
    && r.vcpuId == e.base.vcpuId && r.rip == e.snapshot.rip && r.summary == e.summary && r.dump == e.memDump
  }

  /**
   * Reversibility: from the text of any log a reader recovers, in order, the timestamp in
   * milliseconds, vCPU id, rip, summary and every dumped byte of every event.
   */
  lemma LogRoundTrip(log: seq<IntrospectionEvent>)
    requires PlainLog(log)
    ensures ReadLog(LogText(log)) == Some(RecordsOf(log)) && |RecordsOf(log)| == |log|
    ensures forall i :: 0 <= i < |log| ==> Tells(RecordsOf(log)[i], log[i])
  {
    WellFormed(log);
    ReadAllBack(log);
    RecordsLength(log);
    forall i | 0 <= i < |log| ensures Tells(RecordsOf(log)[i], log[i]) {
      RecordAt(log, i);
    }
  }

  /** So different records make different texts. */
  lemma TextDeterminesRecords(a: seq<IntrospectionEvent>, b: seq<IntrospectionEvent>)
    requires PlainLog(a) && PlainLog(b) && LogText(a) == LogText(b)
    ensures RecordsOf(a) == RecordsOf(b)
  {
    LogRoundTrip(a);
    LogRoundTrip(b);
  }
}
