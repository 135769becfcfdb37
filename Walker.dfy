/**
  `cgroupCollector.Collect`: glob the cgroup roots, walk each match, and for
  every regular file whose base name has a handler, open it and run the
  handler's `collect` with the file's directory as the cgroup label. A
  decoder error is logged and the walk goes on; a walk error or a failed open
  ends the walk of that match only.

  The file system is an input: which paths open and what they hold, what a
  glob pattern matches, and the callbacks `fs.WalkDir` makes from a root. A
  handler is, as in the registry, the function that turns a file's content
  and directory into the records it sends. The pure functions below say what
  one callback, one walk and the whole collection send and open, for any
  handlers; the methods are proved against them with the registry's own.
 */
module Walker {
  import opened Wrappers
  import opened Text
  import opened Metrics
  import opened Registry
  import opened Decoders
  import opened Parsers

  /** One call `fs.WalkDir` makes to its callback: an entry (the root first,
      then its descendants in lexical order), or an error it hands over, such
      as a root that does not exist or a directory it cannot read. */
  datatype WalkEvent =
    | Visit(path: string, isDir: bool)
    | WalkError(path: string)

  /** What part of a collection sent on the channel, which paths it opened,
      and the error that ended it, if any. */
  datatype Outcome = Outcome(records: seq<Record>, opens: seq<string>, err: Option<Error>)

  const Nothing := Outcome([], [], None)

  /** `a`, and then `b` unless `a` ended in an error. */
  function Then(a: Outcome, b: Outcome): (r: Outcome)
    ensures a.err.Some? ==> r == a
    ensures a.err.None? ==> r.records == a.records + b.records && r.opens == a.opens + b.opens && r.err == b.err
  {
    if a.err.Some? then a else Outcome(a.records + b.records, a.opens + b.opens, b.err)
  }

  lemma ThenAssoc(a: Outcome, b: Outcome, c: Outcome)
    ensures Then(Then(a, b), c) == Then(a, Then(b, c))
  {
    if a.err.None? && b.err.None? {
      AppendAssoc(a.records, b.records, c.records);
      AppendAssoc(a.opens, b.opens, c.opens);
    }
  }

  // ---------------------------------------------------------------------------
  // Handlers
  // ---------------------------------------------------------------------------

  /** A handler's `collect`: the records it sends for a file's content and
      directory (its error is only logged). */
  type Decode = (string, string) -> seq<Record>

  /** The handlers of a collector, by base name. */
  datatype Handlers = Handlers(single: map<string, Decode>, multiple: map<string, Decode>)

  /** A base name the collector opens. */
  predicate Handles(h: Handlers, name: string) {
    name in h.single || name in h.multiple
  }

  /** A record with one value per label name of its descriptor, the last
      being `dir`. */
  ghost predicate DirRecord(r: Record, dir: string) {
    Conforms(r) && |r.labels| >= 1 && r.labels[|r.labels| - 1] == dir
  }

  /** A handler whose every record is a `DirRecord` of the directory it is
      given. */
  ghost predicate LabelsDir(decode: Decode) {
    forall content, dir, i :: 0 <= i < |decode(content, dir)| ==> DirRecord(decode(content, dir)[i], dir)
  }

  /** Handlers whose records `MustNewConstMetric` never rejects. */
  ghost predicate Conforming(h: Handlers) {
    (forall n :: n in h.single ==> LabelsDir(h.single[n]))
    && (forall n :: n in h.multiple ==> LabelsDir(h.multiple[n]))
  }

  /** The registry's tables of a collector. */
  datatype Tables = Tables(single: map<string, SingleCollector>, multiple: map<string, MultipleCollector>)

  /** Tables with one handler per name and, for every descriptor, the label
      schema its decoder fills in. */
  ghost predicate WellFormed(t: Tables) {
    t.single.Keys !! t.multiple.Keys
    && (forall n :: n in t.single ==> t.single[n].desc.labelNames == CgroupLabels)
    && (forall n :: n in t.multiple ==> Labelled(t.multiple[n].descs, LabelsFor(t.multiple[n].decoder)))
  }

  /** The tables `New` builds are well formed. */
  lemma RegistryWellFormed()
    ensures WellFormed(Tables(SingleCollectors(), MultipleCollectors()))
  {
    RegistryKeysDisjoint();
    SingleSchemas();
    MultipleSchemas();
  }

  /** `collectSingleValue` bound to a handler's descriptor and value type. */
  function SingleDecode(col: SingleCollector, parse: Parser): (decode: Decode) {
    (content, dir) => SingleValue(col.kind, content, dir, col.desc, parse).records
  }

  /** A multi-value handler's `collect`: its decoder on the content. */
  function DecodeMultiple(col: MultipleCollector, content: string, path: string, parse: Parser): (e: Emission) {
    match col.decoder
    case FlatKeyedFormat(kind) => FlatKeyedFile(kind, content, path, col.descs, parse)
    case PressureFormat => PressureFile(content, path, col.descs, parse)
    case IOStatFormat => IOStatFile(content, path, col.descs, parse)
  }

  /** A multi-value handler's `collect` bound to its table. */
  function MultipleDecode(col: MultipleCollector, parse: Parser): (decode: Decode) {
    (content, dir) => DecodeMultiple(col, content, dir, parse).records
  }

  /** The handlers of a collector's tables. */
  function HandlersOf(t: Tables, parse: Parser): (h: Handlers) {
    Handlers(map n | n in t.single :: SingleDecode(t.single[n], parse),
             map n | n in t.multiple :: MultipleDecode(t.multiple[n], parse))
  }

  /** A single-value handler labels its record with the directory. */
  lemma SingleLabelsDir(col: SingleCollector, parse: Parser)
    requires col.desc.labelNames == CgroupLabels
    ensures LabelsDir(SingleDecode(col, parse))
  {
    var d := SingleDecode(col, parse);
    forall content, dir, i | 0 <= i < |d(content, dir)| ensures DirRecord(d(content, dir)[i], dir) {
      assert d(content, dir) == SingleValue(col.kind, content, dir, col.desc, parse).records;
    }
  }

  /** Records of a pressure file carry a descriptor of its table. */
  lemma PressureFromTable(content: string, path: string, descs: map<string, Descriptor>, parse: Parser)
    ensures forall i :: 0 <= i < |PressureFile(content, path, descs, parse).records| ==>
      var r := PressureFile(content, path, descs, parse).records[i];
      FromTable(r, descs) && r.labels == [path]
  {
    PressureFileRecords(content, path, descs, parse);
  }

  /** Records a multi-value decoder sends carry a descriptor of its table,
      as many labels as the decoder's schema, and the cgroup last. */
  lemma MultipleRecords(col: MultipleCollector, content: string, path: string, parse: Parser)
    ensures forall i :: 0 <= i < |DecodeMultiple(col, content, path, parse).records| ==>
      var r := DecodeMultiple(col, content, path, parse).records[i];
      FromTable(r, col.descs) && |r.labels| == |LabelsFor(col.decoder)| && r.labels[|r.labels| - 1] == path
  {
    var rs := DecodeMultiple(col, content, path, parse).records;
    var n := |LabelsFor(col.decoder)|;
    match col.decoder
    case FlatKeyedFormat(kind) =>
      assert rs == FlatKeyedFile(kind, content, path, col.descs, parse).records;
      FlatKeyedFileRecords(kind, content, path, col.descs, parse);
      assert n == 1;
      forall i | 0 <= i < |rs|
        ensures FromTable(rs[i], col.descs) && |rs[i].labels| == n && rs[i].labels[|rs[i].labels| - 1] == path
      {
        assert rs[i].labels == [path];
      }
    case PressureFormat =>
      assert rs == PressureFile(content, path, col.descs, parse).records;
      PressureFromTable(content, path, col.descs, parse);
      assert n == 1;
      forall i | 0 <= i < |rs|
        ensures FromTable(rs[i], col.descs) && |rs[i].labels| == n && rs[i].labels[|rs[i].labels| - 1] == path
      {
        assert rs[i].labels == [path];
      }
    case IOStatFormat =>
      assert rs == IOStatFile(content, path, col.descs, parse).records;
      IOStatRecordShapes(content, path, col.descs, parse);
      assert n == 2;
      forall i | 0 <= i < |rs|
        ensures FromTable(rs[i], col.descs) && |rs[i].labels| == n && rs[i].labels[|rs[i].labels| - 1] == path
      {
        assert IOStatShape(rs[i], path, col.descs, parse);
      }
  }

  /** A multi-value handler whose table has one label schema, its
      decoder's, labels every record with the directory last. */
  lemma MultipleLabelsDir(col: MultipleCollector, parse: Parser)
    requires Labelled(col.descs, LabelsFor(col.decoder))
    ensures LabelsDir(MultipleDecode(col, parse))
  {
    var d := MultipleDecode(col, parse);
    forall content, dir, i | 0 <= i < |d(content, dir)| ensures DirRecord(d(content, dir)[i], dir) {
      var rs := DecodeMultiple(col, content, dir, parse).records;
      assert d(content, dir) == rs;
      MultipleRecords(col, content, dir, parse);
      assert FromTable(rs[i], col.descs);
      var k :| k in col.descs && col.descs[k].desc == rs[i].desc;
      assert col.descs[k].desc.labelNames == LabelsFor(col.decoder);
    }
  }

  /** Well-formed tables give handlers with no name in both maps whose
      records all conform. */
  lemma HandlersConform(t: Tables, parse: Parser)
    requires WellFormed(t)
    ensures HandlersOf(t, parse).single.Keys !! HandlersOf(t, parse).multiple.Keys
    ensures Conforming(HandlersOf(t, parse))
  {
    var h := HandlersOf(t, parse);
    forall n | n in h.single ensures LabelsDir(h.single[n]) {
      SingleLabelsDir(t.single[n], parse);
    }
    forall n | n in h.multiple ensures LabelsDir(h.multiple[n]) {
      MultipleLabelsDir(t.multiple[n], parse);
    }
  }

  // ---------------------------------------------------------------------------
  // One callback
  // ---------------------------------------------------------------------------

  /** Opening `path` and running a handler on its content. */
  function Step(decode: Decode, path: string, files: map<string, string>): (o: Outcome) {
    if path !in files then Outcome([], [path], Some(OpenFailed(path)))
    else Outcome(decode(files[path], Dir(path)), [path], None)
  }

  /** The callback on a regular file: its single-value handler, then its
      multi-value handler, each if its base name has one. */
  function FileSpec(h: Handlers, files: map<string, string>, path: string): (o: Outcome) {
    var name := Base(path);
    Then(if name in h.single then Step(h.single[name], path, files) else Nothing,
         if name in h.multiple then Step(h.multiple[name], path, files) else Nothing)
  }

  /** The `WalkDir` callback on one event. */
  function VisitSpec(h: Handlers, files: map<string, string>, ev: WalkEvent): (o: Outcome) {
    match ev
    case WalkError(p) => Outcome([], [], Some(WalkFailed(p)))
    case Visit(path, isDir) => if isDir then Nothing else FileSpec(h, files, path)
  }

  /** What the two handler lookups of a regular file open and return. */
  lemma FileShape(h: Handlers, files: map<string, string>, path: string)
    ensures var name := Base(path);
      var o := FileSpec(h, files, path);
      var a := if name in h.single then 1 else 0;
      var b := if name in h.multiple && (name !in h.single || path in files) then 1 else 0;
      |o.opens| == a + b && (forall i :: 0 <= i < |o.opens| ==> o.opens[i] == path)
      && o.err == (if Handles(h, name) && path !in files then Some(OpenFailed(path)) else None)
  {
  }

  /** A regular file that opens sends exactly what its handler computes from
      the file's own content, with the file's directory as the cgroup; a
      file whose base name has no handler sends and opens nothing. */
  lemma FileRecords(h: Handlers, files: map<string, string>, path: string)
    requires !(Base(path) in h.single && Base(path) in h.multiple)
    requires path in files
    ensures Base(path) in h.single ==>
      FileSpec(h, files, path) == Outcome(h.single[Base(path)](files[path], Dir(path)), [path], None)
    ensures Base(path) in h.multiple ==>
      FileSpec(h, files, path) == Outcome(h.multiple[Base(path)](files[path], Dir(path)), [path], None)
    ensures !Handles(h, Base(path)) ==> FileSpec(h, files, path) == Nothing
  {
    var name := Base(path);
    if name in h.single {
      var o := Step(h.single[name], path, files);
      assert o.records + [] == o.records && o.opens + [] == o.opens;
    } else if name in h.multiple {
      var o := Step(h.multiple[name], path, files);
      assert [] + o.records == o.records && [] + o.opens == o.opens;
    }
  }

  /** The callback opens only the visited file, and only when it is not a
      directory and its base name has a handler. */
  lemma VisitOpensHandled(h: Handlers, files: map<string, string>, ev: WalkEvent)
    ensures forall p :: p in VisitSpec(h, files, ev).opens ==>
      ev.Visit? && !ev.isDir && p == ev.path && Handles(h, Base(p))
  {
    var o := VisitSpec(h, files, ev);
    if ev.Visit? && !ev.isDir {
      FileShape(h, files, ev.path);
      forall p | p in o.opens ensures p == ev.path && Handles(h, Base(p)) {
        var i :| 0 <= i < |o.opens| && o.opens[i] == p;
      }
    }
  }

  /** With no name in both maps, the callback opens a handled file exactly
      once, and any other entry not at all. */
  lemma VisitOpensOnce(h: Handlers, files: map<string, string>, ev: WalkEvent)
    requires h.single.Keys !! h.multiple.Keys
    ensures VisitSpec(h, files, ev).opens ==
      if ev.Visit? && !ev.isDir && Handles(h, Base(ev.path)) then [ev.path] else []
  {
    if ev.Visit? && !ev.isDir {
      FileShape(h, files, ev.path);
      var o := VisitSpec(h, files, ev);
      if Handles(h, Base(ev.path)) {
        assert |o.opens| == 1 && o.opens[0] == ev.path;
      }
    }
  }

  /** The callback fails exactly when the walk hands it an error or a
      handled file does not open: a decoder's error never ends the walk. */
  lemma VisitFails(h: Handlers, files: map<string, string>, ev: WalkEvent)
    ensures VisitSpec(h, files, ev).err.Some? <==>
      ev.WalkError? || (!ev.isDir && Handles(h, Base(ev.path)) && ev.path !in files)
    ensures ev.WalkError? ==> VisitSpec(h, files, ev).err == Some(WalkFailed(ev.path))
    ensures ev.Visit? && VisitSpec(h, files, ev).err.Some? ==>
      VisitSpec(h, files, ev).err == Some(OpenFailed(ev.path))
  {
    if ev.Visit? && !ev.isDir {
      FileShape(h, files, ev.path);
    }
  }

  /** With conforming handlers every record of a callback conforms, and its
      last label is the directory of the visited file. */
  lemma VisitRecords(h: Handlers, files: map<string, string>, ev: WalkEvent)
    requires Conforming(h)
    ensures forall i :: 0 <= i < |VisitSpec(h, files, ev).records| ==>
      ev.Visit? && !ev.isDir && DirRecord(VisitSpec(h, files, ev).records[i], Dir(ev.path))
  {
    var o := VisitSpec(h, files, ev);
    if ev.Visit? && !ev.isDir {
      var path := ev.path;
      var name := Base(path);
      var first := if name in h.single then Step(h.single[name], path, files) else Nothing;
      var second := if name in h.multiple then Step(h.multiple[name], path, files) else Nothing;
      if name in h.single {
        StepRecords(h.single[name], path, files);
      }
      if name in h.multiple {
        StepRecords(h.multiple[name], path, files);
      }
      assert o == Then(first, second);
      if first.err.None? {
        DirRecordsAppend(first.records, second.records, Dir(path));
      }
    } else {
      assert o.records == [];
    }
  }

  /** Every record of `rs` is a `DirRecord` of `dir`. */
  ghost predicate DirRecords(rs: seq<Record>, dir: string) {
    forall i :: 0 <= i < |rs| ==> DirRecord(rs[i], dir)
  }

  lemma StepRecords(decode: Decode, path: string, files: map<string, string>)
    requires LabelsDir(decode)
    ensures DirRecords(Step(decode, path, files).records, Dir(path))
  {
    if path in files {
      assert Step(decode, path, files).records == decode(files[path], Dir(path));
    }
  }

  lemma DirRecordsAppend(a: seq<Record>, b: seq<Record>, dir: string)
    requires DirRecords(a, dir) && DirRecords(b, dir)
    ensures DirRecords(a + b, dir)
  {
    forall i | 0 <= i < |a + b| ensures DirRecord((a + b)[i], dir) {
      if i >= |a| {
        assert (a + b)[i] == b[i - |a|];
      }
    }
  }

  // ---------------------------------------------------------------------------
  // One walk
  // ---------------------------------------------------------------------------

  /** The callbacks of one `fs.WalkDir`, up to and including the first that
      returns an error, which ends the walk. */
  function WalkSpec(h: Handlers, files: map<string, string>, events: seq<WalkEvent>): (o: Outcome)
    decreases |events|
  {
    if events == [] then Nothing
    else Then(VisitSpec(h, files, events[0]), WalkSpec(h, files, events[1..]))
  }

  /** A walk over two runs of callbacks is the first run, then the second
      unless the first failed. */
  lemma {:induction false} WalkAppend(h: Handlers, files: map<string, string>, a: seq<WalkEvent>, b: seq<WalkEvent>)
    ensures WalkSpec(h, files, a + b) == Then(WalkSpec(h, files, a), WalkSpec(h, files, b))
    decreases |a|
  {
    if a == [] {
      assert a + b == b;
    } else {
      assert (a + b)[0] == a[0];
      assert (a + b)[1..] == a[1..] + b;
      WalkAppend(h, files, a[1..], b);
      ThenAssoc(VisitSpec(h, files, a[0]), WalkSpec(h, files, a[1..]), WalkSpec(h, files, b));
    }
  }

  /** A failing callback ends the walk: nothing after it is visited. */
  lemma WalkStopsAtFailure(h: Handlers, files: map<string, string>,
                           before: seq<WalkEvent>, ev: WalkEvent, after: seq<WalkEvent>)
    requires VisitSpec(h, files, ev).err.Some?
    ensures WalkSpec(h, files, before + [ev] + after) == Then(WalkSpec(h, files, before), VisitSpec(h, files, ev))
  {
    WalkAppend(h, files, before + [ev], after);
    WalkAppend(h, files, before, [ev]);
    assert [ev][1..] == [];
  }

  /** A walk fails exactly when one of its callbacks does, and then with the
      error of the first callback that fails. */
  lemma {:induction false} WalkFails(h: Handlers, files: map<string, string>, events: seq<WalkEvent>)
    ensures WalkSpec(h, files, events).err.None? <==>
      forall i :: 0 <= i < |events| ==> VisitSpec(h, files, events[i]).err.None?
    ensures WalkSpec(h, files, events).err.Some? ==>
      exists i :: 0 <= i < |events| && VisitSpec(h, files, events[i]).err == WalkSpec(h, files, events).err
        && forall j :: 0 <= j < i ==> VisitSpec(h, files, events[j]).err.None?
    decreases |events|
  {
    if events != [] {
      WalkFails(h, files, events[1..]);
      var w := WalkSpec(h, files, events);
      if VisitSpec(h, files, events[0]).err.None? && w.err.Some? {
        var i :| 0 <= i < |events[1..]| && VisitSpec(h, files, events[1..][i]).err == w.err
          && forall j :: 0 <= j < i ==> VisitSpec(h, files, events[1..][j]).err.None?;
        assert VisitSpec(h, files, events[i + 1]).err == w.err;
        forall j | 0 <= j < i + 1 ensures VisitSpec(h, files, events[j]).err.None? {
          if j > 0 {
            assert events[j] == events[1..][j - 1];
          }
        }
      }
      if w.err.None? {
        forall i | 0 <= i < |events| ensures VisitSpec(h, files, events[i]).err.None? {
          if i > 0 {
            assert events[i] == events[1..][i - 1];
          }
        }
      }
    }
  }

  /** A walk opens only files it visits whose base name has a handler. */
  lemma {:induction false} WalkOpens(h: Handlers, files: map<string, string>, events: seq<WalkEvent>)
    ensures forall p :: p in WalkSpec(h, files, events).opens ==> Visit(p, false) in events && Handles(h, Base(p))
    decreases |events|
  {
    if events != [] {
      WalkOpens(h, files, events[1..]);
      VisitOpensHandled(h, files, events[0]);
    }
  }

  /** A record that conforms and carries, as its cgroup, the directory of a
      regular file among the callbacks. */
  ghost predicate FromWalk(r: Record, events: seq<WalkEvent>) {
    exists p :: Visit(p, false) in events && DirRecord(r, Dir(p))
  }

  /** With conforming handlers every record of a walk conforms and carries
      the directory of a file it visited. */
  lemma {:induction false} WalkRecords(h: Handlers, files: map<string, string>, events: seq<WalkEvent>)
    requires Conforming(h)
    ensures forall i :: 0 <= i < |WalkSpec(h, files, events).records| ==>
      FromWalk(WalkSpec(h, files, events).records[i], events)
    decreases |events|
  {
    if events != [] {
      var ev := events[0];
      var v := VisitSpec(h, files, ev);
      var rest := WalkSpec(h, files, events[1..]);
      WalkRecords(h, files, events[1..]);
      VisitRecords(h, files, ev);
      forall i | 0 <= i < |v.records| ensures FromWalk(v.records[i], events) {
        assert ev in events;
      }
      forall i | 0 <= i < |rest.records| ensures FromWalk(rest.records[i], events) {
        assert FromWalk(rest.records[i], events[1..]);
        var p :| Visit(p, false) in events[1..] && DirRecord(rest.records[i], Dir(p));
        assert Visit(p, false) in events;
      }
      if v.err.None? {
        FromWalkAppend(v.records, rest.records, events);
      }
    }
  }

  lemma FromWalkAppend(a: seq<Record>, b: seq<Record>, events: seq<WalkEvent>)
    requires forall i :: 0 <= i < |a| ==> FromWalk(a[i], events)
    requires forall i :: 0 <= i < |b| ==> FromWalk(b[i], events)
    ensures forall i :: 0 <= i < |a + b| ==> FromWalk((a + b)[i], events)
  {
    forall i | 0 <= i < |a + b| ensures FromWalk((a + b)[i], events) {
      if i >= |a| {
        assert (a + b)[i] == b[i - |a|];
      }
    }
  }

  // ---------------------------------------------------------------------------
  // The whole collection
  // ---------------------------------------------------------------------------

  /** What `fs.Glob` returns for a pattern; a pattern it rejects leaves no
      matches. */
  function GlobMatches(globs: map<string, seq<string>>, pattern: string): (matches: seq<string>) {
    if pattern in globs then globs[pattern] else []
  }

  /** The callbacks `fs.WalkDir` makes from a root; a root it cannot stat
      gives one callback with that error. */
  function Tree(trees: map<string, seq<WalkEvent>>, root: string): (events: seq<WalkEvent>) {
    if root in trees then trees[root] else [WalkError(root)]
  }

  /** A walk whose error is logged rather than returned. */
  function Logged(o: Outcome): (r: Outcome) {
    o.(err := None)
  }

  /** The walks of the matches, one after another; the error of one walk
      does not stop the next. */
  function MatchesSpec(h: Handlers, files: map<string, string>, trees: map<string, seq<WalkEvent>>,
                       matches: seq<string>): (o: Outcome)
    decreases |matches|
  {
    if matches == [] then Nothing
    else Then(Logged(WalkSpec(h, files, Tree(trees, matches[0]))), MatchesSpec(h, files, trees, matches[1..]))
  }

  /** `Collect`: the walks of every match of the glob pattern. */
  function CollectSpec(h: Handlers, files: map<string, string>, globs: map<string, seq<string>>,
                       trees: map<string, seq<WalkEvent>>, pattern: string): (o: Outcome) {
    MatchesSpec(h, files, trees, GlobMatches(globs, pattern))
  }

  /** The walks of two runs of matches are those of each run, one after the
      other: a walk that fails costs no other match its records, and the
      whole never fails. */
  lemma {:induction false} MatchesAppend(h: Handlers, files: map<string, string>, trees: map<string, seq<WalkEvent>>,
                                         a: seq<string>, b: seq<string>)
    ensures MatchesSpec(h, files, trees, a).err == None
    ensures MatchesSpec(h, files, trees, a + b) == Then(MatchesSpec(h, files, trees, a), MatchesSpec(h, files, trees, b))
    decreases |a|
  {
    if a == [] {
      assert a + b == b;
    } else {
      assert (a + b)[0] == a[0];
      assert (a + b)[1..] == a[1..] + b;
      MatchesAppend(h, files, trees, a[1..], b);
      var w := Logged(WalkSpec(h, files, Tree(trees, a[0])));
      ThenAssoc(w, MatchesSpec(h, files, trees, a[1..]), MatchesSpec(h, files, trees, b));
    }
  }

  /** A collection opens only regular files found under a match of the
      pattern whose base name has a handler. */
  lemma {:induction false} MatchesOpens(h: Handlers, files: map<string, string>, trees: map<string, seq<WalkEvent>>,
                                        matches: seq<string>)
    ensures forall p :: p in MatchesSpec(h, files, trees, matches).opens ==>
      Handles(h, Base(p)) && exists root :: root in matches && Visit(p, false) in Tree(trees, root)
    decreases |matches|
  {
    if matches != [] {
      MatchesOpens(h, files, trees, matches[1..]);
      WalkOpens(h, files, Tree(trees, matches[0]));
      forall p | p in MatchesSpec(h, files, trees, matches).opens
        ensures Handles(h, Base(p)) && exists root :: root in matches && Visit(p, false) in Tree(trees, root)
      {
        if p in WalkSpec(h, files, Tree(trees, matches[0])).opens {
          assert matches[0] in matches;
        } else {
          var root :| root in matches[1..] && Visit(p, false) in Tree(trees, root);
          assert root in matches;
        }
      }
    }
  }

  /** With conforming handlers every record of a collection conforms and
      carries, as its cgroup, the directory of a regular file found under a
      match of the pattern. */
  lemma {:induction false} MatchesRecords(h: Handlers, files: map<string, string>, trees: map<string, seq<WalkEvent>>,
                                          matches: seq<string>)
    requires Conforming(h)
    ensures forall i :: 0 <= i < |MatchesSpec(h, files, trees, matches).records| ==>
      exists root :: root in matches && FromWalk(MatchesSpec(h, files, trees, matches).records[i], Tree(trees, root))
    decreases |matches|
  {
    if matches != [] {
      MatchesRecords(h, files, trees, matches[1..]);
      var events := Tree(trees, matches[0]);
      WalkRecords(h, files, events);
      var w := WalkSpec(h, files, events).records;
      var rest := MatchesSpec(h, files, trees, matches[1..]).records;
      var rs := MatchesSpec(h, files, trees, matches).records;
      assert rs == w + rest;
      forall i | 0 <= i < |rs| ensures exists root :: root in matches && FromWalk(rs[i], Tree(trees, root)) {
        if i < |w| {
          assert rs[i] == w[i];
          assert matches[0] in matches;
        } else {
          assert rs[i] == rest[i - |w|];
          var root :| root in matches[1..] && FromWalk(rs[i], Tree(trees, root));
          assert root in matches;
        }
      }
    } else {
      assert MatchesSpec(h, files, trees, matches).records == [];
    }
  }

  /** A collector with the registry's tables sends only records with one
      value per label name of their descriptor, so `MustNewConstMetric`
      never rejects one. */
  lemma NewRecordsConform(files: map<string, string>, globs: map<string, seq<string>>,
                          trees: map<string, seq<WalkEvent>>, parse: Parser, pattern: string)
    ensures var rs := CollectSpec(HandlersOf(Tables(SingleCollectors(), MultipleCollectors()), parse),
                                  files, globs, trees, pattern).records;
      forall i :: 0 <= i < |rs| ==> Conforms(rs[i])
  {
    var t := Tables(SingleCollectors(), MultipleCollectors());
    var h := HandlersOf(t, parse);
    RegistryWellFormed();
    HandlersConform(t, parse);
    var matches := GlobMatches(globs, pattern);
    MatchesRecords(h, files, trees, matches);
    var rs := MatchesSpec(h, files, trees, matches).records;
    forall i | 0 <= i < |rs| ensures Conforms(rs[i]) {
      var root :| root in matches && FromWalk(rs[i], Tree(trees, root));
      var p :| Visit(p, false) in Tree(trees, root) && DirRecord(rs[i], Dir(p));
    }
  }

  /** A walk that visits its root directory and then one regular file sends
      what that file's callback sends. */
  lemma OneFileWalk(h: Handlers, files: map<string, string>, root: string, path: string)
    requires VisitSpec(h, files, Visit(path, false)).err.None?
    ensures WalkSpec(h, files, [Visit(root, true), Visit(path, false)]) == VisitSpec(h, files, Visit(path, false))
  {
    var events := [Visit(root, true), Visit(path, false)];
    var o := VisitSpec(h, files, Visit(path, false));
    assert events[1..] == [Visit(path, false)] && events[1..][1..] == [];
    assert o.records + [] == o.records && o.opens + [] == o.opens;
    assert WalkSpec(h, files, events[1..]) == o;
  }

  /** A collection whose pattern matches one root, under which the walk
      finds one regular file, sends what that file's single-value handler
      computes from its content and opens it once. */
  lemma OneFileCollect(h: Handlers, files: map<string, string>, globs: map<string, seq<string>>,
                       trees: map<string, seq<WalkEvent>>, pattern: string, root: string, path: string)
    requires GlobMatches(globs, pattern) == [root]
    requires Tree(trees, root) == [Visit(root, true), Visit(path, false)]
    requires path in files && Base(path) in h.single && Base(path) !in h.multiple
    ensures CollectSpec(h, files, globs, trees, pattern)
         == Outcome(h.single[Base(path)](files[path], Dir(path)), [path], None)
  {
    var o := Outcome(h.single[Base(path)](files[path], Dir(path)), [path], None);
    FileRecords(h, files, path);
    OneFileWalk(h, files, root, path);
    assert Logged(WalkSpec(h, files, Tree(trees, root))) == o;
    assert [root][1..] == [];
    assert MatchesSpec(h, files, trees, [root][1..]) == Nothing;
    assert o.records + [] == o.records && o.opens + [] == o.opens;
    assert MatchesSpec(h, files, trees, [root]) == Then(o, Nothing);
  }

  /** The registry's handler of `memory.min`: a gauge named
      `cgroup_memory_min_bytes`, labelled by the cgroup, and no multi-value
      handler of the same name. */
  lemma MemoryMinHandler(parse: Parser)
    ensures var h := HandlersOf(Tables(SingleCollectors(), MultipleCollectors()), parse);
      "memory.min" in h.single && "memory.min" !in h.multiple
      && h.single["memory.min"] == SingleDecode(SingleCollector(Desc("cgroup_memory_min_bytes", CgroupLabels), Gauge), parse)
  {
    assert MemoryMin in SingleFiles() && SingleName(MemoryMin) == "memory.min";
    var f := SingleEntry("memory.min");
    SingleNamesDistinct();
    assert f == MemoryMin;
    RegistryKeysDisjoint();
  }

  /** The collector's test of `memory.min` for any handlers that decode
      `memory.min`, and only as a single-value gauge named
      `cgroup_memory_min_bytes`. */
  lemma MemoryMinCollect(h: Handlers, parse: Parser, x: real)
    requires "memory.min" in h.single && "memory.min" !in h.multiple
    requires h.single["memory.min"] == SingleDecode(SingleCollector(Desc("cgroup_memory_min_bytes", CgroupLabels), Gauge), parse)
    requires parse("1") == Some(x)
    ensures CollectSpec(h, map["system.slice/memory.min" := "1\n"], map["*" := ["system.slice"]],
                        map["system.slice" := [Visit("system.slice", true), Visit("system.slice/memory.min", false)]],
                        DefaultGlob(""))
         == Outcome([Record(Desc("cgroup_memory_min_bytes", CgroupLabels), Gauge, x, ["system.slice"])],
                    ["system.slice/memory.min"], None)
  {
    var path := "system.slice/memory.min";
    var desc := Desc("cgroup_memory_min_bytes", CgroupLabels);
    assert path == "system.slice" + "/" + "memory.min";
    PathOf("system.slice", "memory.min");
    NumberIsOneRecord(Gauge, "", "1", "\n", "system.slice", desc, parse, x);
    assert "" + "1" + "\n" == "1\n";
    OneFileCollect(h, map[path := "1\n"], map["*" := ["system.slice"]],
                   map["system.slice" := [Visit("system.slice", true), Visit(path, false)]], "*", "system.slice", path);
  }

  /** The collector's test of `memory.min`: a file system holding only
      `system.slice/memory.min` with the text "1\n", read by `New` with an
      empty pattern, sends exactly one gauge, the parsed 1 labelled
      `system.slice`, opens that file once, and fails nowhere. */
  lemma MemoryMinFixture(parse: Parser, x: real)
    requires parse("1") == Some(x)
    ensures CollectSpec(HandlersOf(Tables(SingleCollectors(), MultipleCollectors()), parse),
                        map["system.slice/memory.min" := "1\n"], map["*" := ["system.slice"]],
                        map["system.slice" := [Visit("system.slice", true), Visit("system.slice/memory.min", false)]],
                        DefaultGlob(""))
         == Outcome([Record(Desc("cgroup_memory_min_bytes", CgroupLabels), Gauge, x, ["system.slice"])],
                    ["system.slice/memory.min"], None)
  {
    MemoryMinHandler(parse);
    MemoryMinCollect(HandlersOf(Tables(SingleCollectors(), MultipleCollectors()), parse), parse, x);
  }

  // ---------------------------------------------------------------------------
  // How often a collection opens a path
  // ---------------------------------------------------------------------------

  /** No path occurs twice in `s`. */
  predicate Distinct(s: seq<string>) {
    forall i, j :: 0 <= i < j < |s| ==> s[i] != s[j]
  }

  /** A concatenation has no repeated path exactly when neither part has one
      and no path is in both. */
  lemma DistinctAppend(a: seq<string>, b: seq<string>)
    ensures Distinct(a + b) <==> Distinct(a) && Distinct(b) && forall p :: p in a ==> p !in b
  {
    var ab := a + b;
    if Distinct(ab) {
      forall i, j | 0 <= i < j < |a| ensures a[i] != a[j] {
        assert ab[i] == a[i] && ab[j] == a[j];
      }
      forall i, j | 0 <= i < j < |b| ensures b[i] != b[j] {
        assert ab[|a| + i] == b[i] && ab[|a| + j] == b[j];
      }
      forall p | p in a ensures p !in b {
        var i :| 0 <= i < |a| && a[i] == p;
        forall j | 0 <= j < |b| ensures b[j] != p {
          assert ab[i] == a[i] && ab[|a| + j] == b[j];
        }
      }
    }
    if Distinct(a) && Distinct(b) && forall p :: p in a ==> p !in b {
      forall i, j | 0 <= i < j < |ab| ensures ab[i] != ab[j] {
        if j < |a| {
          assert ab[i] == a[i] && ab[j] == a[j];
        } else if i >= |a| {
          assert ab[i] == b[i - |a|] && ab[j] == b[j - |a|];
        } else {
          assert ab[i] == a[i] && ab[j] == b[j - |a|];
          assert a[i] in a && b[j - |a|] in b;
        }
      }
    }
  }

  /** The regular files among a walk's callbacks, in order. */
  function FilePaths(events: seq<WalkEvent>): (paths: seq<string>)
    ensures forall p :: p in paths <==> Visit(p, false) in events
    decreases |events|
  {
    if events == [] then []
    else
      assert forall p :: Visit(p, false) in events <==> events[0] == Visit(p, false) || Visit(p, false) in events[1..];
      (if events[0].Visit? && !events[0].isDir then [events[0].path] else []) + FilePaths(events[1..])
  }

  /** With no name in both maps, a walk that visits each regular file once
      opens each path at most once, and only those files. */
  lemma {:induction false} WalkOpensDistinct(h: Handlers, files: map<string, string>, events: seq<WalkEvent>)
    requires h.single.Keys !! h.multiple.Keys
    requires Distinct(FilePaths(events))
    ensures Distinct(WalkSpec(h, files, events).opens)
    ensures forall p :: p in WalkSpec(h, files, events).opens ==> p in FilePaths(events)
    decreases |events|
  {
    if events != [] {
      var ev := events[0];
      var here := if ev.Visit? && !ev.isDir then [ev.path] else [];
      var later := FilePaths(events[1..]);
      assert FilePaths(events) == here + later;
      DistinctAppend(here, later);
      WalkOpensDistinct(h, files, events[1..]);
      VisitOpensOnce(h, files, ev);
      var v := VisitSpec(h, files, ev);
      var rest := WalkSpec(h, files, events[1..]);
      assert forall p :: p in v.opens ==> p in here;
      if v.err.None? {
        DistinctAppend(v.opens, rest.opens);
      }
    }
  }

  /** The regular files the walks of `matches` visit, in order. */
  function MatchedPaths(trees: map<string, seq<WalkEvent>>, matches: seq<string>): (paths: seq<string>)
    decreases |matches|
  {
    if matches == [] then [] else FilePaths(Tree(trees, matches[0])) + MatchedPaths(trees, matches[1..])
  }

  /** With no name in both maps, walks that between them visit each regular
      file once open each path at most once. */
  lemma {:induction false} MatchesOpensDistinct(h: Handlers, files: map<string, string>,
                                               trees: map<string, seq<WalkEvent>>, matches: seq<string>)
    requires h.single.Keys !! h.multiple.Keys
    requires Distinct(MatchedPaths(trees, matches))
    ensures Distinct(MatchesSpec(h, files, trees, matches).opens)
    ensures forall p :: p in MatchesSpec(h, files, trees, matches).opens ==> p in MatchedPaths(trees, matches)
    decreases |matches|
  {
    if matches != [] {
      var events := Tree(trees, matches[0]);
      var later := MatchedPaths(trees, matches[1..]);
      DistinctAppend(FilePaths(events), later);
      WalkOpensDistinct(h, files, events);
      MatchesOpensDistinct(h, files, trees, matches[1..]);
      var w := Logged(WalkSpec(h, files, events));
      var rest := MatchesSpec(h, files, trees, matches[1..]);
      DistinctAppend(w.opens, rest.opens);
    }
  }

  /** A collector with the registry's tables opens each path at most once in
      a collection whose walks visit each regular file once, as `fs.WalkDir`
      does within a root when no match lies under another. */
  lemma CollectOpensOnce(files: map<string, string>, globs: map<string, seq<string>>,
                         trees: map<string, seq<WalkEvent>>, parse: Parser, pattern: string)
    requires Distinct(MatchedPaths(trees, GlobMatches(globs, pattern)))
    ensures Distinct(CollectSpec(HandlersOf(Tables(SingleCollectors(), MultipleCollectors()), parse),
                                 files, globs, trees, pattern).opens)
  {
    var t := Tables(SingleCollectors(), MultipleCollectors());
    RegistryWellFormed();
    HandlersConform(t, parse);
    MatchesOpensDistinct(HandlersOf(t, parse), files, trees, GlobMatches(globs, pattern));
  }

  // ---------------------------------------------------------------------------
  // The file system and the collector
  // ---------------------------------------------------------------------------

  /** The `fs.FS` the collector reads: the content of every file that opens,
      what each glob pattern matches, the callbacks a walk from each root
      makes, and a log of every path opened. */
  class FileSystem {
    const files: map<string, string>
    const globs: map<string, seq<string>>
    const trees: map<string, seq<WalkEvent>>
    ghost var opens: seq<string>

    constructor(files: map<string, string>, globs: map<string, seq<string>>, trees: map<string, seq<WalkEvent>>)
      ensures this.files == files && this.globs == globs && this.trees == trees && opens == []
    {
      this.files := files;
      this.globs := globs;
      this.trees := trees;
      opens := [];
    }

    /** `fs.Glob`: the matches, or an error for a pattern it rejects. */
    method Glob(pattern: string) returns (matches: seq<string>, err: Option<Error>)
      ensures matches == GlobMatches(globs, pattern)
      ensures err.Some? <==> pattern !in globs
      ensures err.Some? ==> matches == [] && err == Some(GlobFailed(pattern))
    {
      if pattern in globs {
        return globs[pattern], None;
      }
      return [], Some(GlobFailed(pattern));
    }

    /** The callbacks `fs.WalkDir` makes from `root`. */
    method Walk(root: string) returns (events: seq<WalkEvent>)
      ensures events == Tree(trees, root)
      ensures root !in trees ==> events == [WalkError(root)]
    {
      events := Tree(trees, root);
    }

    /** `Open` followed by reading the whole file. */
    method Open(path: string) returns (r: Result<string, Error>)
      modifies this
      ensures opens == old(opens) + [path]
      ensures r.Success? <==> path in files
      ensures r.Success? ==> r.value == files[path]
      ensures r.Failure? ==> r.error == OpenFailed(path)
    {
      opens := opens + [path];
      if path in files {
        return Success(files[path]);
      }
      return Failure(OpenFailed(path));
    }
  }

  /** A multi-value handler's `collect`, dispatched on its decoder. */
  method CollectMultiple(col: MultipleCollector, content: string, path: string, parse: Parser, m: Sink)
    returns (err: Option<Error>)
    modifies m
    ensures m.records == old(m.records) + DecodeMultiple(col, content, path, parse).records
    ensures err == DecodeMultiple(col, content, path, parse).err
  {
    match col.decoder {
      case FlatKeyedFormat(kind) =>
        err := CollectFlatKeyed(kind, content, path, col.descs, parse, m);
      case PressureFormat =>
        err := CollectPressure(content, path, col.descs, parse, m);
      case IOStatFormat =>
        err := CollectIOStat(content, path, col.descs, parse, m);
    }
  }

  /** `cgroupCollector`: a file system, a glob pattern for the cgroup roots,
      and the handler tables. */
  class CgroupCollector {
    const fsys: FileSystem
    const glob: string
    const parse: Parser
    const singleCollectors: map<string, SingleCollector>
    const multipleCollectors: map<string, MultipleCollector>

    /** The collector's handlers, as functions of content and directory. */
    function Spec(): (h: Handlers) {
      HandlersOf(Tables(singleCollectors, multipleCollectors), parse)
    }

    /** `New`: the registry's tables, and `"*"` for an empty pattern. */
    constructor New(fsys: FileSystem, glob: string, parse: Parser)
      ensures this.fsys == fsys && this.glob == DefaultGlob(glob) && this.parse == parse
      ensures singleCollectors == SingleCollectors() && multipleCollectors == MultipleCollectors()
      ensures WellFormed(Tables(singleCollectors, multipleCollectors))
    {
      this.fsys := fsys;
      this.glob := DefaultGlob(glob);
      this.parse := parse;
      singleCollectors := SingleCollectors();
      multipleCollectors := MultipleCollectors();
      new;
      RegistryWellFormed();
    }

    /** Open `path` and run a single-value handler on it; the decoder's error
        is logged. */
    method OpenSingle(col: SingleCollector, path: string, m: Sink) returns (err: Option<Error>)
      modifies m, fsys
      ensures m.records == old(m.records) + Step(SingleDecode(col, parse), path, fsys.files).records
      ensures fsys.opens == old(fsys.opens) + Step(SingleDecode(col, parse), path, fsys.files).opens
      ensures err == Step(SingleDecode(col, parse), path, fsys.files).err
    {
      var f := fsys.Open(path);
      if f.Failure? {
        return Some(f.error);
      }
      var _ := CollectSingleValue(col.kind, f.value, Dir(path), col.desc, parse, m);
      return None;
    }

    /** Open `path` and run a multi-value handler on it; the decoder's error
        is logged. */
    method OpenMultiple(col: MultipleCollector, path: string, m: Sink) returns (err: Option<Error>)
      modifies m, fsys
      ensures m.records == old(m.records) + Step(MultipleDecode(col, parse), path, fsys.files).records
      ensures fsys.opens == old(fsys.opens) + Step(MultipleDecode(col, parse), path, fsys.files).opens
      ensures err == Step(MultipleDecode(col, parse), path, fsys.files).err
    {
      var f := fsys.Open(path);
      if f.Failure? {
        return Some(f.error);
      }
      var _ := CollectMultiple(col, f.value, Dir(path), parse, m);
      return None;
    }

    /** The callback on a regular file. */
    method VisitFile(path: string, m: Sink) returns (err: Option<Error>)
      modifies m, fsys
      ensures m.records == old(m.records) + FileSpec(Spec(), fsys.files, path).records
      ensures fsys.opens == old(fsys.opens) + FileSpec(Spec(), fsys.files, path).opens
      ensures err == FileSpec(Spec(), fsys.files, path).err
    {
      var name := Base(path);
      ghost var h := Spec();
      ghost var first := if name in h.single then Step(h.single[name], path, fsys.files) else Nothing;
      ghost var second := if name in h.multiple then Step(h.multiple[name], path, fsys.files) else Nothing;
      assert FileSpec(h, fsys.files, path) == Then(first, second);
      err := None;
      if name in singleCollectors {
        assert h.single[name] == SingleDecode(singleCollectors[name], parse);
        err := OpenSingle(singleCollectors[name], path, m);
      } else {
        assert old(m.records) + [] == old(m.records) && old(fsys.opens) + [] == old(fsys.opens);
      }
      assert m.records == old(m.records) + first.records && fsys.opens == old(fsys.opens) + first.opens;
      assert err == first.err;
      if err.None? && name in multipleCollectors {
        assert h.multiple[name] == MultipleDecode(multipleCollectors[name], parse);
        err := OpenMultiple(multipleCollectors[name], path, m);
        AppendAssoc(old(m.records), first.records, second.records);
        AppendAssoc(old(fsys.opens), first.opens, second.opens);
      } else if err.None? {
        assert first.records + [] == first.records && first.opens + [] == first.opens;
      }
    }

    /** The `WalkDir` callback. */
    method Visit(ev: WalkEvent, m: Sink) returns (err: Option<Error>)
      modifies m, fsys
      ensures m.records == old(m.records) + VisitSpec(Spec(), fsys.files, ev).records
      ensures fsys.opens == old(fsys.opens) + VisitSpec(Spec(), fsys.files, ev).opens
      ensures err == VisitSpec(Spec(), fsys.files, ev).err
    {
      match ev {
        case WalkError(p) =>
          err := Some(WalkFailed(p));
        case Visit(path, isDir) =>
          if isDir {
            err := None;
          } else {
            err := VisitFile(path, m);
          }
      }
    }

    /** `fs.WalkDir` from `root` with the callback above. */
    method WalkDir(root: string, m: Sink) returns (err: Option<Error>)
      modifies m, fsys
      ensures m.records == old(m.records) + WalkSpec(Spec(), fsys.files, Tree(fsys.trees, root)).records
      ensures fsys.opens == old(fsys.opens) + WalkSpec(Spec(), fsys.files, Tree(fsys.trees, root)).opens
      ensures err == WalkSpec(Spec(), fsys.files, Tree(fsys.trees, root)).err
    {
      var events := fsys.Walk(root);
      ghost var h := Spec();
      ghost var done := Nothing;
      var j := 0;
      while j < |events|
        invariant 0 <= j <= |events|
        invariant done.err.None?
        invariant WalkSpec(h, fsys.files, events) == Then(done, WalkSpec(h, fsys.files, events[j..]))
        invariant m.records == old(m.records) + done.records
        invariant fsys.opens == old(fsys.opens) + done.opens
      {
        ghost var v := VisitSpec(h, fsys.files, events[j]);
        ghost var rest := WalkSpec(h, fsys.files, events[j + 1..]);
        assert events[j..][1..] == events[j + 1..];
        ThenAssoc(done, v, rest);
        err := Visit(events[j], m);
        AppendAssoc(old(m.records), done.records, v.records);
        AppendAssoc(old(fsys.opens), done.opens, v.opens);
        done := Then(done, v);
        if err.Some? {
          return;
        }
        j := j + 1;
      }
      return None;
    }

    /** `Collect`: walk every match of the pattern; a glob error leaves no
        matches and a walk error is logged. */
    method Collect(m: Sink)
      modifies m, fsys
      ensures m.records == old(m.records) + CollectSpec(Spec(), fsys.files, fsys.globs, fsys.trees, glob).records
      ensures fsys.opens == old(fsys.opens) + CollectSpec(Spec(), fsys.files, fsys.globs, fsys.trees, glob).opens
    {
      var matches, _ := fsys.Glob(glob);
      ghost var h := Spec();
      ghost var done := Nothing;
      var i := 0;
      while i < |matches|
        invariant 0 <= i <= |matches|
        invariant done.err.None?
        invariant MatchesSpec(h, fsys.files, fsys.trees, matches) ==
          Then(done, MatchesSpec(h, fsys.files, fsys.trees, matches[i..]))
        invariant m.records == old(m.records) + done.records
        invariant fsys.opens == old(fsys.opens) + done.opens
      {
        ghost var w := Logged(WalkSpec(h, fsys.files, Tree(fsys.trees, matches[i])));
        ghost var rest := MatchesSpec(h, fsys.files, fsys.trees, matches[i + 1..]);
        assert matches[i..][1..] == matches[i + 1..];
        ThenAssoc(done, w, rest);
        var _ := WalkDir(matches[i], m);
        AppendAssoc(old(m.records), done.records, w.records);
        AppendAssoc(old(fsys.opens), done.opens, w.opens);
        done := Then(done, w);
        i := i + 1;
      }
    }
  }
}
