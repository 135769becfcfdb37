/**
  The four decoders the registry names: `collectSingleValue`,
  `collectFlatKeyed`, `collectPressure` and `collectIOStat`. Each is given
  as a specification function from the file's content to what it sends and
  returns, and as the method that sends the records on the channel.
 */
module Decoders {
  import opened Wrappers
  import opened Text
  import opened Metrics
  import opened Registry
  import opened Parsers

  /** The record carries one of the table's descriptors. */
  ghost predicate FromTable(r: Record, descs: map<string, Descriptor>) {
    exists k :: k in descs && descs[k].desc == r.desc
  }

  // ---------------------------------------------------------------------------
  // collectSingleValue
  // ---------------------------------------------------------------------------

  /** `collectSingleValue(kind)` on a file holding `content` in cgroup `path`:
      the first word, unless it is the sentinel `max`, parsed as a number. */
  function SingleValue(kind: ValueType, content: string, path: string, desc: Desc, parse: Parser): (r: Emission)
    ensures |r.records| <= 1
    ensures r.err.Some? ==> r.records == []
    ensures forall i :: 0 <= i < |r.records| ==> r.records[i].desc == desc && r.records[i].kind == kind && r.records[i].labels == [path]
    ensures r.records != [] ==> FirstToken(content).Some? && parse(FirstToken(content).value) == Some(r.records[0].value)
    ensures r == Emission([], None) <==> FirstToken(content) == Some("max")
    ensures r.err.Some? <==> FirstToken(content).None?
                             || (FirstToken(content).value != "max" && parse(FirstToken(content).value).None?)
  {
    match FirstToken(content)
    case None => Emission([], Some(ReadFailed))
    case Some(val) =>
      if val == "max" then Emission([], None)
      else match parse(val)
        case None => Emission([], Some(ParseFailed(val)))
        case Some(value) => Emission([Record(desc, kind, value, [path])], None)
  }

  method CollectSingleValue(kind: ValueType, content: string, path: string, desc: Desc, parse: Parser, m: Sink)
    returns (err: Option<Error>)
    modifies m
    ensures m.records == old(m.records) + SingleValue(kind, content, path, desc, parse).records
    ensures err == SingleValue(kind, content, path, desc, parse).err
  {
    var val := FirstToken(content);
    if val.None? {
      return Some(ReadFailed);
    }
    if val.value == "max" {
      return None;
    }
    var value := parse(val.value);
    if value.None? {
      return Some(ParseFailed(val.value));
    }
    m.Send(Record(desc, kind, value.value, [path]));
    return None;
  }

  /** A file whose first word is `max` (after blanks, before any other
      character) yields nothing and no error, whatever follows. */
  lemma MaxIsNoValue(kind: ValueType, lead: string, rest: string, path: string, desc: Desc, parse: Parser)
    requires forall i :: 0 <= i < |lead| ==> IsSpace(lead[i]) && lead[i] != '\n'
    requires rest == [] || IsSpace(rest[0])
    ensures SingleValue(kind, lead + "max" + rest, path, desc, parse) == Emission([], None)
  {
    FirstTokenOf(lead, "max", rest);
  }

  /** A file whose first word `word` (after blanks, before any other
      character) parses to `x` yields exactly one record, with value `x` and
      the cgroup as its only label, whatever follows. */
  lemma NumberIsOneRecord(kind: ValueType, lead: string, word: string, rest: string, path: string, desc: Desc,
                          parse: Parser, x: real)
    requires forall i :: 0 <= i < |lead| ==> IsSpace(lead[i]) && lead[i] != '\n'
    requires word != [] && forall i :: 0 <= i < |word| ==> !IsSpace(word[i])
    requires rest == [] || IsSpace(rest[0])
    requires word != "max" && parse(word) == Some(x)
    ensures SingleValue(kind, lead + word + rest, path, desc, parse) == Emission([Record(desc, kind, x, [path])], None)
  {
    FirstTokenOf(lead, word, rest);
  }

  /** An empty file, or one that starts with a newline, is a read error. */
  lemma NoWordIsReadError(kind: ValueType, rest: string, path: string, desc: Desc, parse: Parser)
    ensures SingleValue(kind, "", path, desc, parse) == Emission([], Some(ReadFailed))
    ensures SingleValue(kind, "\n" + rest, path, desc, parse) == Emission([], Some(ReadFailed))
  {
    FirstTokenNewline("", rest);
    assert "" + "\n" + rest == "\n" + rest;
  }

  // ---------------------------------------------------------------------------
  // collectFlatKeyed
  // ---------------------------------------------------------------------------

  /** The visitor `collectFlatKeyed(kind)` hands to `visitFlatKeyed`. */
  function FlatKV(kind: ValueType, path: string, descs: map<string, Descriptor>, parse: Parser, k: string, v: string): (r: Emission)
    ensures r.err.Some? <==> k in descs && parse(v).None?
    ensures r.records != [] <==> k in descs && parse(v).Some?
    ensures r.records != [] ==>
      r.records == [Record(descs[k].desc, kind, Modify(descs[k].modifier, parse(v).value), [path])]
  {
    if k !in descs then Emission([], None)  // unknown keys are skipped
    else match parse(v)
      case None => Emission([], Some(ParseFailed(v)))
      case Some(value) => Emission([Record(descs[k].desc, kind, Modify(descs[k].modifier, value), [path])], None)
  }

  function FlatVisitor(kind: ValueType, path: string, descs: map<string, Descriptor>, parse: Parser): (visit: KvVisitor) {
    (k, v) => FlatKV(kind, path, descs, parse, k, v)
  }

  /** `collectFlatKeyed(kind)` on a file holding `content`. */
  function FlatKeyedFile(kind: ValueType, content: string, path: string, descs: map<string, Descriptor>, parse: Parser): (e: Emission) {
    FlatKeyed(Lines(content), FlatVisitor(kind, path, descs, parse))
  }

  method CollectFlatKeyed(kind: ValueType, content: string, path: string, descs: map<string, Descriptor>, parse: Parser, m: Sink)
    returns (err: Option<Error>)
    modifies m
    ensures m.records == old(m.records) + FlatKeyedFile(kind, content, path, descs, parse).records
    ensures err == FlatKeyedFile(kind, content, path, descs, parse).err
  {
    err := VisitFlatKeyed(content, FlatVisitor(kind, path, descs, parse), m);
  }

  /** Every record of a flat file has the decoder's kind, one of the table's
      descriptors, and the cgroup as its only label. */
  lemma FlatKeyedFileRecords(kind: ValueType, content: string, path: string, descs: map<string, Descriptor>, parse: Parser)
    ensures forall i :: 0 <= i < |FlatKeyedFile(kind, content, path, descs, parse).records| ==>
      var r := FlatKeyedFile(kind, content, path, descs, parse).records[i];
      r.kind == kind && r.labels == [path] && FromTable(r, descs)
  {
    var P := (r: Record) => r.kind == kind && r.labels == [path] && FromTable(r, descs);
    var visit := FlatVisitor(kind, path, descs, parse);
    forall k, v ensures AllSatisfy(visit(k, v).records, P) {
      if k in descs {
        assert FromTable(Record(descs[k].desc, kind, 0.0, [path]), descs);
      }
    }
    FlatKeyedPreserves(Lines(content), visit, P);
  }

  /** A line whose key is registered and whose value parses to `x` sends one
      record, `x` after the descriptor's modifier; an unregistered key sends
      nothing and is no error. */
  lemma FlatLineOf(kind: ValueType, key: string, val: string, path: string, descs: map<string, Descriptor>, parse: Parser)
    requires ' ' !in key && ' ' !in val
    ensures key !in descs ==>
      FlatLine(key + " " + val, FlatVisitor(kind, path, descs, parse)) == Emission([], None)
    ensures key in descs && parse(val).Some? ==>
      FlatLine(key + " " + val, FlatVisitor(kind, path, descs, parse))
        == Emission([Record(descs[key].desc, kind, Modify(descs[key].modifier, parse(val).value), [path])], None)
  {
    SplitPair(key, val, ' ');
  }

  /** Splitting `k SEP v` gives back `k` and `v`. */
  lemma SplitPair(k: string, v: string, sep: char)
    requires sep !in k && sep !in v
    ensures Split(k + [sep] + v, sep) == [k, v]
  {
    var parts := [k, v];
    assert parts[1..] == [v];
    SplitJoin(parts, sep);
  }

  // ---------------------------------------------------------------------------
  // collectPressure
  // ---------------------------------------------------------------------------

  /** The key-value visitor of a pressure entry described by `d`: only
      `total` is sent, converted by the descriptor's modifier. */
  function PressureKV(d: Descriptor, path: string, parse: Parser, k: string, v: string): (r: Emission)
    ensures k != "total" ==> r == Emission([], None)
    ensures r.records != [] <==> k == "total" && parse(v).Some?
    ensures r.records != [] ==> r.records == [Record(d.desc, Counter, Modify(d.modifier, parse(v).value), [path])]
  {
    if k != "total" then Emission([], None)
    else match parse(v)
      case None => Emission([], Some(ParseFailed(v)))
      case Some(value) => Emission([Record(d.desc, Counter, Modify(d.modifier, value), [path])], None)
  }

  /** The entry visitor of `collectPressure`: the entry must be registered. */
  function PressureEntry(path: string, descs: map<string, Descriptor>, parse: Parser): (visitEntry: EntryVisitor) {
    n => if n !in descs then Failure(UnknownPressureType(n))
         else Success((k, v) => PressureKV(descs[n], path, parse, k, v))
  }

  /** `collectPressure` on a file holding `content`. */
  function PressureFile(content: string, path: string, descs: map<string, Descriptor>, parse: Parser): (e: Emission) {
    NestedKeyed(Lines(content), PressureEntry(path, descs, parse))
  }

  method CollectPressure(content: string, path: string, descs: map<string, Descriptor>, parse: Parser, m: Sink)
    returns (err: Option<Error>)
    modifies m
    ensures m.records == old(m.records) + PressureFile(content, path, descs, parse).records
    ensures err == PressureFile(content, path, descs, parse).err
  {
    err := VisitNestedKeyed(content, PressureEntry(path, descs, parse), m);
  }

  /** Every record of a pressure file is a counter labelled by the cgroup,
      carries the descriptor of a registered entry, and holds a parsed
      `total` after that entry's modifier. */
  lemma PressureFileRecords(content: string, path: string, descs: map<string, Descriptor>, parse: Parser)
    ensures forall i :: 0 <= i < |PressureFile(content, path, descs, parse).records| ==>
      var r := PressureFile(content, path, descs, parse).records[i];
      r.kind == Counter && r.labels == [path] && FromTable(r, descs)
      && exists n, v :: n in descs && r.desc == descs[n].desc && parse(v).Some?
                        && r.value == Modify(descs[n].modifier, parse(v).value)
  {
    var P := (r: Record) => r.kind == Counter && r.labels == [path] && FromTable(r, descs)
      && exists n, v :: n in descs && r.desc == descs[n].desc && parse(v).Some?
                        && r.value == Modify(descs[n].modifier, parse(v).value);
    var visitEntry := PressureEntry(path, descs, parse);
    forall n, k, v | visitEntry(n).Success?
      ensures AllSatisfy(visitEntry(n).value(k, v).records, P)
    {
      var e := PressureKV(descs[n], path, parse, k, v);
      if e.records != [] {
        assert n in descs && descs[n].desc == e.records[0].desc;
        assert P(e.records[0]);
      }
    }
    NestedKeyedPreserves(Lines(content), visitEntry, P);
  }

  /** A line whose entry is not registered ends the read with an
      unknown-type error; an empty line is such a line. */
  lemma UnknownPressureEntry(line: string, path: string, descs: map<string, Descriptor>, parse: Parser)
    requires Split(TrimSpace(line), ' ')[0] !in descs
    ensures NestedLine(line, PressureEntry(path, descs, parse))
         == Emission([], Some(UnknownPressureType(Split(TrimSpace(line), ' ')[0])))
  {
  }

  lemma EmptyPressureLine(path: string, descs: map<string, Descriptor>, parse: Parser)
    requires "" !in descs
    ensures NestedLine("", PressureEntry(path, descs, parse)) == Emission([], Some(UnknownPressureType("")))
  {
    TrimSpaceOf("", "", "");
    SplitFree("", ' ');
  }

  /** A field free of the separators of lines, tokens and pairs. */
  predicate Plain(s: string) {
    ' ' !in s && '=' !in s && '\n' !in s
  }

  /** A nested line whose key-value token is well formed visits it and goes
      on with the rest. */
  lemma PairsCons(entry: string, k: string, v: string, rest: seq<string>, visit: KvVisitor)
    requires Plain(k) && Plain(v)
    ensures Pairs(entry, [k + "=" + v] + rest, visit)
         == AndThen(Emission(visit(k, v).records, None), Pairs(entry, rest, visit))
  {
    assert "=" == ['='];
    SplitPair(k, v, '=');
    assert ([k + "=" + v] + rest)[1..] == rest;
  }

  /** The fields of a pressure line as the kernel writes it. */
  function PressureWords(entry: string, avg10: string, avg60: string, avg300: string, total: string): (words: seq<string>) {
    [entry, "avg10" + "=" + avg10, "avg60" + "=" + avg60, "avg300" + "=" + avg300, "total" + "=" + total]
  }

  /** The four key-value tokens of a pressure line send what the `total`
      token sends, when the three averages send nothing. */
  lemma PressurePairs(entry: string, avg10: string, avg60: string, avg300: string, total: string, visit: KvVisitor)
    requires Plain(avg10) && Plain(avg60) && Plain(avg300) && Plain(total)
    requires visit("avg10", avg10).records == [] && visit("avg60", avg60).records == []
    requires visit("avg300", avg300).records == []
    ensures Pairs(entry, PressureWords(entry, avg10, avg60, avg300, total)[1..], visit)
         == Emission(visit("total", total).records, None)
  {
    var rest := ["total" + "=" + total];
    PairsCons(entry, "total", total, [], visit);
    assert rest + [] == rest;
    assert visit("total", total).records + [] == visit("total", total).records;
    PairsSilent(entry, "avg300", avg300, rest, visit);
    rest := ["avg300" + "=" + avg300] + rest;
    PairsSilent(entry, "avg60", avg60, rest, visit);
    rest := ["avg60" + "=" + avg60] + rest;
    PairsSilent(entry, "avg10", avg10, rest, visit);
    rest := ["avg10" + "=" + avg10] + rest;
    assert PressureWords(entry, avg10, avg60, avg300, total)[1..] == rest;
  }

  /** A well-formed key-value token whose visit sends nothing leaves the
      rest of the line to decide. */
  lemma PairsSilent(entry: string, k: string, v: string, rest: seq<string>, visit: KvVisitor)
    requires Plain(k) && Plain(v) && visit(k, v).records == []
    ensures Pairs(entry, [k + "=" + v] + rest, visit) == Pairs(entry, rest, visit)
  {
    PairsCons(entry, k, v, rest, visit);
    assert [] + Pairs(entry, rest, visit).records == Pairs(entry, rest, visit).records;
  }

  /** A well-formed line of a registered pressure entry sends exactly one
      record, its `total` after the entry's modifier; the three averages send
      nothing, whatever they hold. */
  lemma PressureLineSendsTotalOnly(entry: string, avg10: string, avg60: string, avg300: string, total: string,
                                   path: string, descs: map<string, Descriptor>, parse: Parser)
    requires entry in descs && entry != [] && total != []
    requires !IsSpace(entry[0]) && !IsSpace(total[|total| - 1])
    requires Plain(entry) && Plain(avg10) && Plain(avg60) && Plain(avg300) && Plain(total)
    requires parse(total).Some?
    ensures NestedLine(Join(PressureWords(entry, avg10, avg60, avg300, total), ' '), PressureEntry(path, descs, parse))
         == Emission([Record(descs[entry].desc, Counter, Modify(descs[entry].modifier, parse(total).value), [path])], None)
  {
    var words := PressureWords(entry, avg10, avg60, avg300, total);
    PressureLineWords(entry, avg10, avg60, avg300, total);
    var visitEntry := PressureEntry(path, descs, parse);
    var visit := visitEntry(entry).value;
    var d := descs[entry];
    assert visit("avg10", avg10) == PressureKV(d, path, parse, "avg10", avg10);
    assert visit("avg60", avg60) == PressureKV(d, path, parse, "avg60", avg60);
    assert visit("avg300", avg300) == PressureKV(d, path, parse, "avg300", avg300);
    assert visit("total", total) == PressureKV(d, path, parse, "total", total);
    PressurePairs(entry, avg10, avg60, avg300, total, visit);
    assert NestedLine(Join(words, ' '), visitEntry) == Pairs(entry, words[1..], visit);
  }

  /** A pressure line is trimmed and split back into its five fields. */
  lemma PressureLineWords(entry: string, avg10: string, avg60: string, avg300: string, total: string)
    requires entry != [] && total != []
    requires !IsSpace(entry[0]) && !IsSpace(total[|total| - 1])
    requires Plain(entry) && Plain(avg10) && Plain(avg60) && Plain(avg300) && Plain(total)
    ensures var words := PressureWords(entry, avg10, avg60, avg300, total);
      Split(TrimSpace(Join(words, ' ')), ' ') == words
  {
    var words := PressureWords(entry, avg10, avg60, avg300, total);
    assert words[|words| - 1] == "total" + "=" + total;
    SplitWords(words);
  }

  /** A pressure line as one string. */
  function PressureLine(entry: string, avg10: string, avg60: string, avg300: string, total: string): (line: string) {
    Join(PressureWords(entry, avg10, avg60, avg300, total), ' ')
  }

  /** A pressure line is one line of a file. */
  lemma PressureLineIsLine(entry: string, avg10: string, avg60: string, avg300: string, total: string)
    requires total != [] && total[|total| - 1] != '\r'
    requires Plain(entry) && Plain(avg10) && Plain(avg60) && Plain(avg300) && Plain(total)
    ensures var line := PressureLine(entry, avg10, avg60, avg300, total);
      '\n' !in line && line != [] && line[|line| - 1] != '\r'
  {
    var w := PressureWords(entry, avg10, avg60, avg300, total);
    assert forall i :: 0 <= i < |w| ==> '\n' !in w[i];
    JoinExcludes(w, ' ', '\n');
    assert w[|w| - 1] == "total" + "=" + total;
    JoinLast(w, ' ');
  }

  /** A pressure file of a `some` and a `full` line, both well formed, sends
      the two totals in that order, each after its entry's modifier, and
      returns no error. */
  lemma PressureFileOfTwoLines(e1: string, a1: string, b1: string, c1: string, t1: string,
                               e2: string, a2: string, b2: string, c2: string, t2: string,
                               path: string, descs: map<string, Descriptor>, parse: Parser)
    requires e1 in descs && e1 != [] && t1 != [] && !IsSpace(e1[0]) && !IsSpace(t1[|t1| - 1]) && t1[|t1| - 1] != '\r'
    requires e2 in descs && e2 != [] && t2 != [] && !IsSpace(e2[0]) && !IsSpace(t2[|t2| - 1]) && t2[|t2| - 1] != '\r'
    requires Plain(e1) && Plain(a1) && Plain(b1) && Plain(c1) && Plain(t1)
    requires Plain(e2) && Plain(a2) && Plain(b2) && Plain(c2) && Plain(t2)
    requires parse(t1).Some? && parse(t2).Some?
    ensures PressureFile(PressureLine(e1, a1, b1, c1, t1) + "\n" + PressureLine(e2, a2, b2, c2, t2) + "\n", path, descs, parse)
         == Emission([Record(descs[e1].desc, Counter, Modify(descs[e1].modifier, parse(t1).value), [path]),
                      Record(descs[e2].desc, Counter, Modify(descs[e2].modifier, parse(t2).value), [path])], None)
  {
    var l1 := PressureLine(e1, a1, b1, c1, t1);
    var l2 := PressureLine(e2, a2, b2, c2, t2);
    PressureLineIsLine(e1, a1, b1, c1, t1);
    PressureLineIsLine(e2, a2, b2, c2, t2);
    TwoLines(l1, l2);
    var r1 := Record(descs[e1].desc, Counter, Modify(descs[e1].modifier, parse(t1).value), [path]);
    var r2 := Record(descs[e2].desc, Counter, Modify(descs[e2].modifier, parse(t2).value), [path]);
    PressureLineSendsTotalOnly(e1, a1, b1, c1, t1, path, descs, parse);
    PressureLineSendsTotalOnly(e2, a2, b2, c2, t2, path, descs, parse);
    NestedTwoLines(l1, l2, PressureEntry(path, descs, parse), r1, r2);
  }

  /** Two nested lines that send one record each and no error read as those
      two records in order. */
  lemma NestedTwoLines(l1: string, l2: string, visitEntry: EntryVisitor, r1: Record, r2: Record)
    requires NestedLine(l1, visitEntry) == Emission([r1], None)
    requires NestedLine(l2, visitEntry) == Emission([r2], None)
    ensures NestedKeyed([l1, l2], visitEntry) == Emission([r1, r2], None)
  {
    NestedKeyedAt([l2], 0, visitEntry);
    assert [l2][0..] == [l2] && [l2][1..] == [];
    NestedKeyedAt([l1, l2], 0, visitEntry);
    assert [l1, l2][0..] == [l1, l2] && [l1, l2][1..] == [l2];
  }

  /** The `memory.pressure` file of the collector's tests, read with any
      pressure table (the registry's three are such tables): 7.113021
      seconds stalled for `some` and 0 for `full`, both labelled by the
      cgroup, and no error. */
  lemma PressureFixture(descs: map<string, Descriptor>, parse: Parser)
    requires PressureTable(descs)
    requires parse("7113021") == Some(7113021.0) && parse("0") == Some(0.0)
    ensures PressureFile(PressureLine("some", "0.08", "0.03", "0.06", "7113021") + "\n"
                         + PressureLine("full", "0.00", "0.00", "0.00", "0") + "\n", "system.slice", descs, parse)
         == Emission([Record(descs["some"].desc, Counter, 7.113021, ["system.slice"]),
                      Record(descs["full"].desc, Counter, 0.0, ["system.slice"])], None)
  {
    assert "some" in descs.Keys && "full" in descs.Keys;
    assert Plain("some") && Plain("0.08") && Plain("0.03") && Plain("0.06") && Plain("7113021");
    assert Plain("full") && Plain("0.00") && Plain("0");
    PressureFileOfTwoLines("some", "0.08", "0.03", "0.06", "7113021", "full", "0.00", "0.00", "0.00", "0",
                           "system.slice", descs, parse);
  }

  // ---------------------------------------------------------------------------
  // collectIOStat
  // ---------------------------------------------------------------------------

  /** The key-value visitor of `collectIOStat` for one device: registered keys
      are sent as counters labelled by the device and the cgroup. */
  function IOStatKV(descs: map<string, Descriptor>, path: string, parse: Parser, device: string, k: string, v: string): (r: Emission)
    ensures k !in descs ==> r == Emission([], None)
    ensures r.records != [] <==> k in descs && parse(v).Some?
    ensures r.records != [] ==> r.records == [Record(descs[k].desc, Counter, parse(v).value, [device, path])]
  {
    if k !in descs then Emission([], None)
    else match parse(v)
      case None => Emission([], Some(ParseFailed(v)))
      case Some(value) => Emission([Record(descs[k].desc, Counter, value, [device, path])], None)
  }

  /** The entry visitor of `collectIOStat`: every entry is accepted as the
      device that labels what its key-values send. */
  function IOStatEntry(path: string, descs: map<string, Descriptor>, parse: Parser): (visitEntry: EntryVisitor)
    ensures forall n :: visitEntry(n).Success?
    ensures forall n, k, v :: visitEntry(n).value(k, v) == IOStatKV(descs, path, parse, n, k, v)
  {
    n => Success((k, v) => IOStatKV(descs, path, parse, n, k, v))
  }

  /** `collectIOStat` on a file holding `content`. */
  function IOStatFile(content: string, path: string, descs: map<string, Descriptor>, parse: Parser): (e: Emission) {
    NestedKeyed(Lines(content), IOStatEntry(path, descs, parse))
  }

  method CollectIOStat(content: string, path: string, descs: map<string, Descriptor>, parse: Parser, m: Sink)
    returns (err: Option<Error>)
    modifies m
    ensures m.records == old(m.records) + IOStatFile(content, path, descs, parse).records
    ensures err == IOStatFile(content, path, descs, parse).err
  {
    err := VisitNestedKeyed(content, IOStatEntry(path, descs, parse), m);
  }

  /** Every record of an I/O file is a counter with one of the table's
      descriptors, labelled by the device a line of the file begins with and
      then the cgroup, holding a parsed value. */
  lemma IOStatFileRecords(content: string, path: string, descs: map<string, Descriptor>, parse: Parser)
    ensures forall i :: 0 <= i < |IOStatFile(content, path, descs, parse).records| ==>
      var r := IOStatFile(content, path, descs, parse).records[i];
      r.kind == Counter && |r.labels| == 2 && r.labels[1] == path && FromTable(r, descs)
      && (exists v :: parse(v) == Some(r.value))
      && exists l :: l in Lines(content) && r.labels[0] == Split(TrimSpace(l), ' ')[0]
  {
    var rs := IOStatFile(content, path, descs, parse).records;
    IOStatRecordShapes(content, path, descs, parse);
    IOStatDevices(Lines(content), path, descs, parse);
    forall i | 0 <= i < |rs|
      ensures IOStatShape(rs[i], path, descs, parse)
      ensures exists l :: l in Lines(content) && rs[i].labels[0] == Split(TrimSpace(l), ' ')[0]
    {
      assert FromDevice(rs[i], Lines(content));
    }
  }

  /** A counter with one of the table's descriptors, two labels the second of
      which is the cgroup, and a parsed value. */
  ghost predicate IOStatShape(r: Record, path: string, descs: map<string, Descriptor>, parse: Parser) {
    r.kind == Counter && |r.labels| == 2 && r.labels[1] == path && FromTable(r, descs)
    && exists v :: parse(v) == Some(r.value)
  }

  lemma IOStatRecordShapes(content: string, path: string, descs: map<string, Descriptor>, parse: Parser)
    ensures forall i :: 0 <= i < |IOStatFile(content, path, descs, parse).records| ==>
      IOStatShape(IOStatFile(content, path, descs, parse).records[i], path, descs, parse)
  {
    var P := (r: Record) => IOStatShape(r, path, descs, parse);
    var visitEntry := IOStatEntry(path, descs, parse);
    forall n, k, v | visitEntry(n).Success?
      ensures AllSatisfy(visitEntry(n).value(k, v).records, P)
    {
      var e := IOStatKV(descs, path, parse, n, k, v);
      if e.records != [] {
        assert FromTable(e.records[0], descs);
        assert P(e.records[0]);
      }
    }
    NestedKeyedPreserves(Lines(content), visitEntry, P);
  }

  /** A record of an I/O read is labelled first by the device its line begins
      with. */
  ghost predicate FromDevice(r: Record, lines: seq<string>) {
    |r.labels| >= 1 && exists l :: l in lines && r.labels[0] == Split(TrimSpace(l), ' ')[0]
  }

  /** Every record an I/O read of `lines` sends carries, as its first label,
      the first field of one of those lines. */
  lemma {:induction false} IOStatDevices(lines: seq<string>, path: string, descs: map<string, Descriptor>, parse: Parser)
    ensures forall i :: 0 <= i < |NestedKeyed(lines, IOStatEntry(path, descs, parse)).records| ==>
      FromDevice(NestedKeyed(lines, IOStatEntry(path, descs, parse)).records[i], lines)
    decreases |lines|
  {
    if lines != [] {
      var visitEntry := IOStatEntry(path, descs, parse);
      var device := Split(TrimSpace(lines[0]), ' ')[0];
      var visit := visitEntry(device).value;
      var P := (r: Record) => FromDevice(r, lines);
      forall k, v ensures AllSatisfy(visit(k, v).records, P) {
        var e := IOStatKV(descs, path, parse, device, k, v);
        assert visit(k, v) == e;
        if e.records != [] {
          assert e.records[0].labels[0] == device && lines[0] in lines;
        }
      }
      PairsPreserve(device, Split(TrimSpace(lines[0]), ' ')[1..], visit, P);
      var first := NestedLine(lines[0], visitEntry);
      IOStatDevices(lines[1..], path, descs, parse);
      var rest := NestedKeyed(lines[1..], visitEntry).records;
      forall i | 0 <= i < |rest| ensures P(rest[i]) {
        assert FromDevice(rest[i], lines[1..]);
        var l :| l in lines[1..] && rest[i].labels[0] == Split(TrimSpace(l), ' ')[0];
        assert l in lines;
      }
      if first.err.None? {
        AllSatisfyAppend(first.records, rest, P);
      }
    }
  }

  /** A line naming a device and one registered key whose value parses to
      `x` sends exactly one counter, `x` labelled by that device and then the
      cgroup. */
  lemma IOStatLineOf(device: string, k: string, v: string, path: string, descs: map<string, Descriptor>,
                     parse: Parser, x: real)
    requires Plain(device) && Plain(k) && Plain(v)
    requires device != [] && !IsSpace(device[0]) && v != [] && !IsSpace(v[|v| - 1])
    requires k in descs && parse(v) == Some(x)
    ensures NestedLine(device + " " + k + "=" + v, IOStatEntry(path, descs, parse))
         == Emission([Record(descs[k].desc, Counter, x, [device, path])], None)
  {
    var line := device + " " + k + "=" + v;
    var visitEntry := IOStatEntry(path, descs, parse);
    var token := k + "=" + v;
    DeviceLineWords(device, k, v);
    var split := Split(TrimSpace(line), ' ');
    assert split[0] == device && split[1..] == [token];
    assert NestedLine(line, visitEntry) == Pairs(device, [token], visitEntry(device).value);
    IOStatPair(device, k, v, path, descs, parse, x);
  }

  /** The one key-value of such a line sends the counter. */
  lemma IOStatPair(device: string, k: string, v: string, path: string, descs: map<string, Descriptor>,
                   parse: Parser, x: real)
    requires Plain(k) && Plain(v)
    requires k in descs && parse(v) == Some(x)
    ensures Pairs(device, [k + "=" + v], IOStatEntry(path, descs, parse)(device).value)
         == Emission([Record(descs[k].desc, Counter, x, [device, path])], None)
  {
    var visit := IOStatEntry(path, descs, parse)(device).value;
    var token := k + "=" + v;
    assert [token] + [] == [token];
    PairsCons(device, k, v, [], visit);
    var sent := IOStatKV(descs, path, parse, device, k, v).records;
    assert visit(k, v).records == sent == [Record(descs[k].desc, Counter, x, [device, path])];
    assert sent + [] == sent;
  }

  /** A device line with one key-value is trimmed and split back into the
      device and that token. */
  lemma DeviceLineWords(device: string, k: string, v: string)
    requires Plain(device) && Plain(k) && Plain(v)
    requires device != [] && !IsSpace(device[0]) && v != [] && !IsSpace(v[|v| - 1])
    ensures Split(TrimSpace(device + " " + k + "=" + v), ' ') == [device, k + "=" + v]
  {
    var words := [device, k + "=" + v];
    assert words[1..] == [k + "=" + v];
    assert Join(words, ' ') == device + " " + k + "=" + v;
    assert words[|words| - 1][|words[|words| - 1]| - 1] == v[|v| - 1];
    SplitWords(words);
  }

  /** The device is never rejected: an I/O file fails only on a token that is
      not a single `K=V`. */
  lemma IOStatFailsOnlyOnMalformed(content: string, path: string, descs: map<string, Descriptor>, parse: Parser)
    ensures IOStatFile(content, path, descs, parse).err.Some? ==>
      IOStatFile(content, path, descs, parse).err.value.InvalidNestedPair?
  {
    NestedKeyedFailsOnlyOnMalformed(Lines(content), IOStatEntry(path, descs, parse));
  }

  /** A device line with no key-values (such as `7:7 `) sends nothing and is
      no error. */
  lemma IOStatBareDevice(device: string, trail: string, path: string, descs: map<string, Descriptor>, parse: Parser)
    requires forall i :: 0 <= i < |device| ==> !IsSpace(device[i])
    requires forall i :: 0 <= i < |trail| ==> IsSpace(trail[i])
    ensures NestedLine(device + trail, IOStatEntry(path, descs, parse)) == Emission([], None)
  {
    TrimSpaceOf("", device, trail);
    assert "" + device + trail == device + trail;
    assert IsSpace(' ');
    BareEntry(device + trail, IOStatEntry(path, descs, parse));
  }
}
