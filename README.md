# cgroup-exporter collection engine, in Dafny

This project models the collection engine of the cgroup exporter, `collector/collector.go`. The engine is a Prometheus collector that walks a cgroup v2 hierarchy and turns the kernel's accounting files into metrics. The model covers these parts:

- **The registry `New` builds.** It holds twelve single-value files (`memory.min` … `pids.max`) and eight multi-value files (`memory.stat`, `memory.events`, the three `*.pressure` files, `cpu.stat`, `io.stat` and `pids.events`), with their metric names, label schemas, value types and the microseconds-to-seconds modifier. An empty glob pattern becomes `*`.
- **The four decoders.**
  - `collectSingleValue` reads the first word; the sentinel `max` means no value.
  - `collectFlatKeyed` reads `KEY VALUE` lines; unknown keys are skipped and the optional modifier is applied.
  - `collectPressure` reads `some`/`full` lines; only `total` is sent, converted to seconds, and an unknown entry is an error.
  - `collectIOStat` reads one line per device; the device becomes the first label.
  - The two line readers underneath are `visitFlatKeyed` and `visitNestedKeyed`.
- **`Collect`.** It expands the glob, then walks every match with `fs.WalkDir`. Directories are skipped. Only files whose base name has a handler are opened. The cgroup label is the file's directory. Decoder errors are logged and the walk goes on. An open failure or a walk error ends the walk of that match only. A glob error leaves no matches.

Each decoder, reader and walker step comes in two forms:
- a pure specification function, from the file's text (or the walk's callbacks) to an `Emission` / `Outcome`: the records sent, in order, plus the error returned (and, for the walk, the paths opened);
- the method that does the work with loops, sending on a `Sink`. The `Sink` is the output channel, a class whose `records` only grow. Each method's `ensures` ties the new channel contents, the file system's log of opens and the returned error to that function.

Lemmas then state what the source promises. A handled file that opens sends exactly what its decoder computes from the file's own content, and `io.stat` records carry the device their line begins with. Unknown files are never opened. A handled file is opened once per callback, and at most once per collection when the walks visit each regular file once. A decoder error never ends a walk. One failing walk costs no other match its records. Every record has one value per label name, the cgroup last, so no record is rejected for a wrong label count. Unknown keys are silent, `max` is not a value, and pressure files send only their totals.

The model follows the code on these points:

- A file that fails to open makes the `WalkDir` callback return an error. This ends the walk of the whole match, not just that file (`collector/collector.go:196-199`, `:206-209`).
- `visitFlatKeyed` splits a line on single spaces. Two spaces in a row give three fields, and that is an error (`:309-312`).
- `visitNestedKeyed` trims a line and then splits it on single spaces (`:277-278`).
- `visitNestedKeyed` ignores what the key-value visitor returns (`:294`). A value in a pressure or `io.stat` file that does not parse is therefore silently skipped, not reported. `Decoders.IOStatFailsOnlyOnMalformed` states the consequence.
- The `len(kv) == 0` branch (`:287-290`) cannot be taken, since `strings.Split` with a non-empty separator always returns at least one piece. The model has no such branch.
- Running `Collect` twice on an unchanged file system sends the same records. This holds because the method's `ensures` gives the records as a function of the file system and the pattern.

Two things are inputs to the model rather than parts of it:
- `strconv.ParseFloat` is a parameter of type `Parser`, a function from a token to an optional number.
- The file system (`FileSystem`) is given by three maps: the content of every file that opens, what each glob pattern matches, and the callbacks `fs.WalkDir` makes from each root.

## Model

| member | source | states |
|---|---|---|
| Metrics.MicroToSeconds | collector/collector.go:41-43 | the result times 10^6 is the input, and a non-negative input gives a result between 0 and the input |
| Metrics.AndThen | collector/collector.go:313-315 | a step that returned an error ends the run as it is; otherwise the records are concatenated and the later error is the result |
| Metrics.AndThenAssoc | collector/collector.go:307-316 | running steps in sequence is associative, so a read can be split at any line |
| Metrics.Sink.Send | collector/collector.go:260 | sending appends exactly that record to the channel |
| Registry.DefaultGlob | collector/collector.go:46-48 | the stored pattern is never empty, and a non-empty pattern is kept unchanged |
| Registry.SingleName | collector/collector.go:53-67 | the base name of each of the twelve single-value files, `memory.min` to `pids.max`; `SingleNamesDistinct` shows no two coincide |
| Registry.SingleMetric | collector/collector.go:53-67 | the metric name of each single-value file, `cgroup_memory_min_bytes` to `cgroup_pids_max`; `SingleEntry` pairs it with its base name |
| Registry.SingleCollectors | collector/collector.go:52-68 | `singleCollectors`: each base name maps to a gauge whose descriptor has that file's metric name and the labels `["cgroup"]`; `SingleEntry` and `SingleSchemas` characterise it |
| Registry.SingleNamesDistinct | collector/collector.go:52-67 | the twelve single-value files have pairwise different base names, so the table has one entry per file |
| Registry.SingleEntry | collector/collector.go:52-67 | each registered single-value name belongs to one file and maps to a gauge with that file's metric name, labelled `cgroup` |
| Registry.FileName | collector/collector.go:71-171 | the base name of each of the eight multi-value files; `FileNamesDistinct` shows no two coincide |
| Registry.MemoryStatBytes | collector/collector.go:73-99 | the 27 `memory.stat` keys counted in bytes, each named `cgroup_memory_<key>_bytes` |
| Registry.MemoryStatCounts | collector/collector.go:100-128 | the 29 `memory.stat` keys that count events or pages, each named `cgroup_memory_<key>` |
| Registry.PressureNames | collector/collector.go:140-151 | a pressure file's two metric names: `some` is the `waiting` total and `full` the `stalled` total, in seconds |
| Registry.MetricNames | collector/collector.go:71-173 | the metric name of every sub-key of each multi-value file, as its descriptor table lists it |
| Registry.SecondsKeys | collector/collector.go:140-161 | the sub-keys carrying `microSecondsToSeconds`: `some` and `full` of the three pressure files and the six `*_usec` keys of `cpu.stat`; `PressureTables` states it for the pressure files |
| Registry.LabelsFor | collector/collector.go:53-173 | the label schema of a file's descriptors: `["device", "cgroup"]` for `io.stat`, `["cgroup"]` for every other file; `MultipleSchemas` states it of the registry |
| Registry.DecoderOf | collector/collector.go:130-173 | each multi-value file's `collect`: `memory.stat` flat-keyed gauges, `memory.events`, `cpu.stat` and `pids.events` flat-keyed counters, the three `*.pressure` files `collectPressure`, `io.stat` `collectIOStat`; `PressureHandlers` states the pressure case both ways |
| Registry.Table | collector/collector.go:72-173 | a descriptor table: each sub-key's `NewDesc` with its metric name and the file's labels, and the seconds modifier exactly on the keys given; `MultipleSchemas` and `PressureTables` rely on it |
| Registry.Descriptors | collector/collector.go:72-173 | the `descs` map of each multi-value file, built from its metric names, seconds keys and label schema |
| Registry.MultipleCollectors | collector/collector.go:69-174 | `multipleCollectors`: each of the eight base names maps to its descriptor table and its decoder; `MultipleEntry`, `MultipleSchemas`, `PressureTables` and `PressureHandlers` characterise it |
| Registry.FileNamesDistinct | collector/collector.go:69-174 | the eight multi-value files have pairwise different base names |
| Registry.MultipleEntry | collector/collector.go:69-174 | each registered multi-value name belongs to one file and maps to that file's descriptor table and decoder |
| Registry.RegistryKeysDisjoint | collector/collector.go:52-174 | no base name is in both the single-value and the multi-value table |
| Registry.SingleSchemas | collector/collector.go:52-67 | every single-value descriptor has the label schema `["cgroup"]` and is a gauge |
| Registry.MultipleSchemas | collector/collector.go:69-174 | every descriptor of a multi-value file has its decoder's schema: `["device", "cgroup"]` for `io.stat`, `["cgroup"]` otherwise |
| Registry.PressureTables | collector/collector.go:140-151 | a pressure table has exactly the entries `some` and `full`, both converted from microseconds to seconds |
| Registry.PressureHandlers | collector/collector.go:140-151 | a file has the pressure decoder if and only if it is `memory.pressure`, `cpu.pressure` or `io.pressure`, and each of those has a pressure table |
| Text.IsSpace | collector/collector.go:277 | Go's `unicode.IsSpace` (also fmt's blank table), the white space `TrimSpace` and `Fscanf` skip |
| Text.Split | collector/collector.go:278 | `strings.Split` on one character, as at :278, :286 and :309: at least one piece; `SplitPiecesFree`, `JoinSplit` and `SplitJoin` characterise it as the inverse of joining |
| Text.TrimSpace | collector/collector.go:277 | `strings.TrimSpace`: the result starts and ends with no white space and is no longer than the input; `TrimSpaceOf` shows it removes exactly the surrounding runs |
| Text.JoinSplit | collector/collector.go:309 | joining the pieces of `strings.Split` with the separator gives back the line |
| Text.SplitJoin | collector/collector.go:309 | splitting a join of separator-free pieces gives back exactly those pieces |
| Text.SplitPiecesFree | collector/collector.go:286 | no piece of a split contains the separator |
| Text.TrimSpaceOf | collector/collector.go:277 | `strings.TrimSpace` removes exactly the white space before and after the text |
| Text.SplitWords | collector/collector.go:277-280 | a line of space-separated words with no white space at its ends is trimmed and split back into those words |
| Text.DropCR | collector/collector.go:274-276 | one trailing carriage return removed from a scanned line, as `bufio.ScanLines` does |
| Text.DropCRs | collector/collector.go:274-276 | `DropCR` on every line, keeping the number of lines; `DropCRsNone` and `DropCRsOf` characterise it |
| Text.Lines | collector/collector.go:274-276 | the lines `bufio.Scanner` yields: text between newlines, no empty final piece, one trailing carriage return dropped; `LinesUnlines` and `CRLFLines` characterise it |
| Text.LinesUnlines | collector/collector.go:274-276 | scanning newline-terminated lines gives back those lines |
| Text.CRLFLines | collector/collector.go:274-276 | lines ending in `\r\n` scan as the lines without the carriage return, so a file with DOS line endings reads like one with Unix endings |
| Text.Word | collector/collector.go:249 | the longest prefix free of white space, which `%s` reads |
| Text.FirstToken | collector/collector.go:249 | the word `fmt.Fscanf(f, "%s", &val)` stores: when there is one it is non-empty and free of white space; `FirstTokenOf` and `FirstTokenNewline` give the word and the error cases |
| Text.FirstTokenOf | collector/collector.go:249 | `Fscanf("%s")` reads exactly the word that follows the leading blanks |
| Text.FirstTokenNewline | collector/collector.go:249-251 | empty input, or a newline before any word, is a read error |
| Text.LastSlash | collector/collector.go:193-201 | the index of the last slash of a path, or -1; `LastSlashSpec` proves it is the last |
| Text.Base | collector/collector.go:193 | the name `d.Name()` reports: the path after its last slash; `DirBase` and `PathOf` characterise it |
| Text.Dir | collector/collector.go:201 | `filepath.Dir`, the cgroup label passed at :201 and :211: the path before its last slash, or `.` for a top-level path; `DirBase` and `PathOf` characterise it |
| Text.PathOf | collector/collector.go:193-201 | a directory, a slash and a name without a slash form a path whose directory and base name they are |
| Text.DirBase | collector/collector.go:193-201 | a nested path is its directory (the cgroup label), a slash and its base name (the handler key); a top-level path lies in `.` |
| Parsers.FlatLine | collector/collector.go:308-315 | one flat line: a split into other than two fields is `InvalidFlatPair`, otherwise what the visitor gives for the two fields; `FlatKeyedStopsAtMalformed` and `Decoders.FlatLineOf` state its cases |
| Parsers.FlatKeyed | collector/collector.go:305-318 | the flat read of lines: each line's records in order, stopping at the first error; `FlatKeyedAt`, `FlatKeyedAppend` and `VisitFlatKeyed` characterise it |
| Parsers.VisitFlatKeyed | collector/collector.go:305-318 | the channel gains exactly the records of the flat read of the scanned lines, and the error returned is that read's |
| Parsers.FlatKeyedAt | collector/collector.go:307-316 | line `i` is handled before the lines after it, and its error stops the read there |
| Parsers.FlatKeyedAppend | collector/collector.go:307-316 | reading `a + b` is reading `a` and then, unless that failed, `b` |
| Parsers.FlatKeyedStopsAtMalformed | collector/collector.go:309-312 | a line that does not split into two fields ends the read with `InvalidFlatPair`; earlier records stay sent and later lines are not visited |
| Parsers.FlatKeyedPreserves | collector/collector.go:305-318 | any property the visitor guarantees of its records holds for every record of the read |
| Parsers.Pairs | collector/collector.go:285-295 | one line's `K=V` tokens: each token's records, the visitor's error dropped, and `InvalidNestedPair` at the first token that is not one `=`; `PairsFailOnlyOnMalformed`, `PairsPreserve` and `VisitPairs` characterise it |
| Parsers.NestedLine | collector/collector.go:276-295 | one nested line: trimmed, split on spaces, the first field's visitor resolved (its error returned), then the tokens read; `BareEntry` and `VisitNestedLine` characterise it |
| Parsers.NestedKeyed | collector/collector.go:273-299 | the nested read of lines: each line's records in order, stopping at the first error; `NestedKeyedAt`, `NestedKeyedAppend` and `VisitNestedKeyed` characterise it |
| Parsers.VisitNestedKeyed | collector/collector.go:273-299 | the channel gains exactly the records of the nested read of the scanned lines, and the error returned is that read's |
| Parsers.VisitNestedLines | collector/collector.go:275-297 | the scanning loop over given lines: the channel gains exactly the records of their nested read, and the error returned is that read's |
| Parsers.VisitNestedLine | collector/collector.go:276-295 | one line: trimmed and split, its entry resolved (a resolution error is returned), then its key-value tokens visited |
| Parsers.NestedKeyedAt | collector/collector.go:275-297 | line `i` is handled before the lines after it, and its error stops the read there |
| Parsers.VisitPairs | collector/collector.go:285-295 | the inner loop sends what the visitor sends for each well-formed token and stops at the first malformed one |
| Parsers.NestedKeyedAppend | collector/collector.go:275-297 | reading `a + b` is reading `a` and then, unless that failed, `b` |
| Parsers.PairsFailOnlyOnMalformed | collector/collector.go:285-295 | a line's key-values fail if and only if some token is not a single `K=V`; the visitor's own error never stops them |
| Parsers.BareEntry | collector/collector.go:278-285 | an accepted entry with no tokens after it sends nothing and is no error |
| Parsers.NestedKeyedPreserves | collector/collector.go:273-299 | any property every key-value visitor guarantees of its records holds for every record of the read |
| Parsers.PairsPreserve | collector/collector.go:285-295 | any property the visitor guarantees of its records holds for every record of a line's key-values |
| Parsers.NestedKeyedFailsOnlyOnMalformed | collector/collector.go:281-295 | when every entry is accepted, the only error a nested read can end with is a malformed token |
| Decoders.SingleValue | collector/collector.go:245-263 | at most one record, with the handler's descriptor and kind, the cgroup as its only label, and as value what the first word parses to; no records and no error if and only if the first word is `max`; an error if and only if there is no word or it is not `max` and does not parse |
| Decoders.CollectSingleValue | collector/collector.go:245-263 | the channel gains exactly `SingleValue`'s records and the error returned is its error |
| Decoders.MaxIsNoValue | collector/collector.go:252-254 | a file whose first word is `max` sends nothing and is no error, whatever follows |
| Decoders.NumberIsOneRecord | collector/collector.go:249-261 | a file whose first word, after any blanks before it and whatever follows it, is not `max` and parses to `x` sends exactly one record with value `x`, labelled by the cgroup |
| Decoders.NoWordIsReadError | collector/collector.go:249-251 | an empty file, or one starting with a newline, is a read error with no records |
| Decoders.FlatVisitor | collector/collector.go:323-338 | the key-value visitor `collectFlatKeyed` passes, which is `FlatKV` on each pair |
| Decoders.FlatKeyedFile | collector/collector.go:321-340 | `collectFlatKeyed(kind)` on a file: the flat read of its lines with `FlatVisitor`; `FlatKeyedFileRecords` and `CollectFlatKeyed` characterise it |
| Decoders.FlatKV | collector/collector.go:323-337 | an unknown key is silent; a known key fails if and only if its value does not parse; otherwise it sends one record with the modified value |
| Decoders.CollectFlatKeyed | collector/collector.go:321-340 | the channel gains exactly the records of the flat read with this visitor, and the error returned is that read's |
| Decoders.FlatKeyedFileRecords | collector/collector.go:321-340 | every record of a flat file has the decoder's kind, a descriptor of the file's table and the cgroup as its only label |
| Decoders.FlatLineOf | collector/collector.go:323-337 | a line `key value` with an unknown key sends nothing; with a known key and a parsing value it sends one record, the value after the key's modifier |
| Decoders.PressureEntry | collector/collector.go:346-365 | the entry visitor of `collectPressure`: an entry absent from the table is `UnknownPressureType`, otherwise `PressureKV` with that entry's descriptor; `UnknownPressureEntry` and `PressureLineSendsTotalOnly` characterise it |
| Decoders.PressureFile | collector/collector.go:344-366 | `collectPressure` on a file: the nested read of its lines with `PressureEntry`; `PressureFileRecords` and `PressureFixture` characterise it |
| Decoders.PressureKV | collector/collector.go:352-364 | keys other than `total` send nothing; `total` sends one counter with the entry's descriptor and modified value when it parses |
| Decoders.CollectPressure | collector/collector.go:344-366 | the channel gains exactly the records of the nested read with the pressure visitors, and the error returned is that read's |
| Decoders.PressureFileRecords | collector/collector.go:344-366 | every record of a pressure file is a counter labelled by the cgroup, carries a registered entry's descriptor and holds a parsed total after that entry's modifier |
| Decoders.UnknownPressureEntry | collector/collector.go:347-350 | a line whose entry is not registered ends the read with `UnknownPressureType` for that entry |
| Decoders.EmptyPressureLine | collector/collector.go:347-350 | an empty line in a pressure file is an unknown-entry error |
| Decoders.PressurePairs | collector/collector.go:352-364 | of the four key-value tokens of a pressure line, only what `total` sends is sent when the averages send nothing |
| Decoders.PressureLineSendsTotalOnly | collector/collector.go:346-365 | a well-formed line of a registered entry sends exactly one record, its `total` after the entry's modifier, whatever the averages hold |
| Decoders.PressureFileOfTwoLines | collector/collector.go:344-366 | a file of two well-formed pressure lines sends their two totals in order and returns no error |
| Decoders.PressureFixture | collector/collector.go:140-143 | with any pressure table, the `some`/`full` file with totals 7113021 and 0 sends 7.113021 and 0 seconds, labelled by the cgroup, and no error |
| Decoders.IOStatFile | collector/collector.go:227-243 | `collectIOStat` on a file: the nested read of its lines with `IOStatEntry`; `IOStatFileRecords`, `IOStatDevices` and `IOStatFailsOnlyOnMalformed` characterise it |
| Decoders.IOStatKV | collector/collector.go:230-240 | an unknown key is silent; a known key with a parsing value sends one counter labelled by the device and then the cgroup |
| Decoders.IOStatEntry | collector/collector.go:228-241 | every entry is accepted, and its key-value visitor is `IOStatKV` with that entry as the device label |
| Decoders.CollectIOStat | collector/collector.go:227-243 | the channel gains exactly the records of the nested read with the device visitors, and the error returned is that read's |
| Decoders.IOStatFileRecords | collector/collector.go:227-243 | every record of `io.stat` is a counter with a descriptor of the table and a parsed value; its two labels are the first field of one of the file's lines (the device) and then the cgroup |
| Decoders.IOStatDevices | collector/collector.go:228-239 | every record of a nested read with the device visitors carries, as its first label, the first field of one of the lines read |
| Decoders.IOStatFailsOnlyOnMalformed | collector/collector.go:227-243 | `io.stat` fails only on a token that is not a single `K=V`: a value that does not parse is dropped, not reported |
| Decoders.IOStatBareDevice | collector/collector.go:228-241 | a device line with only trailing white space sends nothing and is no error |
| Decoders.IOStatLineOf | collector/collector.go:228-241 | a line `DEVICE K=V` whose key is registered and whose value parses to `x` sends exactly one counter, `x` labelled by that device and then the cgroup, and no error |
| Metrics.Modify | collector/collector.go:333-335 | the optional modifier applied to a parsed value, as at :333-335 and :358-360: the value itself without one, microseconds to seconds with one; `Decoders.FlatKV` and `Decoders.PressureKV` state the two cases |
| Metrics.Conforms | collector/collector.go:260 | the label-count check of `MustNewConstMetric` (at :239, :260, :336, :361): one label value per label name; `Walker.NewRecordsConform` shows the registry's records always pass it |
| Walker.Then | collector/collector.go:185-221 | a callback that returned an error ends the walk as it is; otherwise records and opens are concatenated |
| Walker.ThenAssoc | collector/collector.go:185-221 | sequencing callbacks is associative |
| Walker.RegistryWellFormed | collector/collector.go:45-176 | the tables `New` builds have no name in both, and every descriptor has its decoder's label schema |
| Walker.SingleDecode | collector/collector.go:195-204 | a single-value handler: `collectSingleValue` with its descriptor and kind on a file's content and directory, the error left to the log; `SingleLabelsDir` characterises it |
| Walker.DecodeMultiple | collector/collector.go:205-214 | a multi-value handler's `collect`: the file's decoder (flat-keyed, pressure or `io.stat`) with its table; `MultipleRecords` characterises it |
| Walker.MultipleDecode | collector/collector.go:205-214 | a multi-value handler bound to its table, the error left to the log; `MultipleLabelsDir` characterises it |
| Walker.HandlersOf | collector/collector.go:195-214 | the handlers the two tables give, by base name; `HandlersConform` characterises it |
| Walker.CgroupCollector.Spec | collector/collector.go:195-214 | the handlers of the collector's stored tables, against which `Collect` is stated |
| Walker.SingleLabelsDir | collector/collector.go:195-204 | a single-value handler's records have one label, the directory it is given |
| Walker.MultipleRecords | collector/collector.go:205-214 | a multi-value decoder's records carry a descriptor of its table, as many labels as its schema and the directory last |
| Walker.MultipleLabelsDir | collector/collector.go:205-214 | a multi-value handler whose table has its decoder's schema sends only conforming records labelled by the directory |
| Walker.HandlersConform | collector/collector.go:195-214 | well-formed tables give handlers with no name in both maps whose records all conform |
| Walker.Step | collector/collector.go:196-203 | one handler on one path: an open failure is `OpenFailed` with the path logged as opened, otherwise the handler's records on the file's content and `Dir(path)`; `FileRecords` characterises it |
| Walker.FileSpec | collector/collector.go:193-214 | a regular file: the single-value handler, then the multi-value one, each only when its table has the base name, stopping at an open failure; `FileShape`, `FileRecords` and `VisitOpensOnce` characterise it |
| Walker.VisitSpec | collector/collector.go:185-221 | the `WalkDir` callback: a walk error is `WalkFailed`, a directory gives nothing, a file is `FileSpec`; `VisitFails`, `VisitOpensHandled` and `VisitRecords` characterise it |
| Walker.FileShape | collector/collector.go:193-214 | a regular file is opened once per handler of its name (the second open only if the first succeeded), and the callback fails with `OpenFailed` exactly when a handled file does not open |
| Walker.FileRecords | collector/collector.go:193-214 | a regular file that opens, with a handler under one table, is opened once and sends exactly that handler's records computed from the file's own content, with its directory as the cgroup; a file without a handler sends and opens nothing |
| Walker.VisitOpensHandled | collector/collector.go:185-221 | a callback opens only the visited path, only when it is not a directory and its base name has a handler |
| Walker.VisitOpensOnce | collector/collector.go:193-214 | with disjoint tables a handled file is opened exactly once and nothing else is opened |
| Walker.VisitFails | collector/collector.go:185-221 | a callback fails if and only if the walk handed it an error or a handled file does not open; decoder errors never fail it |
| Walker.VisitRecords | collector/collector.go:193-214 | with conforming handlers a callback's records conform and carry the visited file's directory as the last label |
| Walker.WalkSpec | collector/collector.go:185-221 | one `fs.WalkDir`: the callbacks in order, stopping at the first error; `WalkAppend`, `WalkStopsAtFailure` and `WalkFails` characterise it |
| Walker.WalkAppend | collector/collector.go:185-221 | a walk over two runs of callbacks is the first run and then, unless it failed, the second |
| Walker.WalkStopsAtFailure | collector/collector.go:185-221 | a failing callback ends the walk; nothing after it is visited |
| Walker.WalkFails | collector/collector.go:185-223 | a walk fails if and only if one of its callbacks does, and then with the error of the first that fails |
| Walker.WalkOpens | collector/collector.go:185-221 | a walk opens only regular files it visits whose base name has a handler |
| Walker.WalkRecords | collector/collector.go:185-221 | with conforming handlers every record of a walk conforms and carries the directory of a file the walk visited |
| Walker.GlobMatches | collector/collector.go:180-183 | the matches of `fs.Glob`, none for a pattern it rejects; `FileSystem.Glob` is stated with it |
| Walker.Tree | collector/collector.go:185 | the callbacks `fs.WalkDir` makes from a root, one error callback for a root it cannot stat; `FileSystem.Walk` is stated with it |
| Walker.Logged | collector/collector.go:221-223 | a walk's outcome with its error logged instead of returned: the same records and opens, no error |
| Walker.MatchesSpec | collector/collector.go:184-224 | the walks of the matches one after another, each error logged; `MatchesAppend`, `MatchesOpens` and `MatchesRecords` characterise it |
| Walker.CollectSpec | collector/collector.go:179-225 | `Collect`: the walks of the glob's matches; `CollectOpensOnce`, `MemoryMinFixture` and `CgroupCollector.Collect` characterise it |
| Walker.MatchesAppend | collector/collector.go:184-224 | the walks of several matches never fail as a whole, and each match's walk adds its records whatever the others did |
| Walker.MatchesOpens | collector/collector.go:179-225 | a collection opens only regular files under a match of the pattern whose base name has a handler |
| Walker.MatchesRecords | collector/collector.go:179-225 | with conforming handlers every record carries the directory of a regular file found under a match of the pattern |
| Walker.NewRecordsConform | collector/collector.go:179-225 | with the registry's tables every record of a collection has one value per label name, so `MustNewConstMetric` never rejects one for a wrong label count |
| Walker.WalkOpensDistinct | collector/collector.go:185-221 | with no name in both tables, a walk that visits each regular file once opens each path at most once, and only those files |
| Walker.MatchesOpensDistinct | collector/collector.go:184-224 | walks that between them visit each regular file once open each path at most once |
| Walker.CollectOpensOnce | collector/collector.go:179-225 | with the registry's tables, a collection whose walks visit each regular file once opens each path at most once |
| Walker.OneFileWalk | collector/collector.go:185-221 | a walk that visits its root directory and then one regular file whose callback succeeds sends and opens what that callback does |
| Walker.OneFileCollect | collector/collector.go:179-225 | a pattern matching one root under which the walk finds one single-value file that opens sends exactly that file's handler records, opens it once, and fails nowhere |
| Walker.MemoryMinHandler | collector/collector.go:53 | the registry decodes `memory.min` only as a single-value gauge `cgroup_memory_min_bytes` labelled `cgroup` |
| Walker.MemoryMinCollect | collector/collector_test.go:75-98 | for any handlers that decode `memory.min` that way, the test's file system sends exactly one gauge, the parsed 1 labelled `system.slice`, and opens `system.slice/memory.min` once |
| Walker.MemoryMinFixture | collector/collector_test.go:75-98 | `New` with an empty pattern on a file system holding only `system.slice/memory.min` = "1\n" sends exactly the gauge 1 labelled `system.slice` |
| Walker.FileSystem.Glob | collector/collector.go:180-183 | the matches of the pattern, or no matches and `GlobFailed` for a pattern the file system rejects |
| Walker.FileSystem.Walk | collector/collector.go:185 | the callbacks of a walk from the root; a missing root gives a single error callback |
| Walker.FileSystem.Open | collector/collector.go:196-199 | every open is logged; it succeeds with the file's content if and only if the file exists, else `OpenFailed` |
| Walker.CollectMultiple | collector/collector.go:211 | a multi-value handler runs its own decoder: the channel gains exactly that decoder's records |
| Walker.CgroupCollector.New | collector/collector.go:45-176 | the collector keeps the file system, the pattern with `*` for an empty one, and the registry's tables, which are well formed |
| Walker.CgroupCollector.OpenSingle | collector/collector.go:195-204 | opens the file once; the channel gains the decoder's records and the decoder's error is only logged; a failed open is returned |
| Walker.CgroupCollector.OpenMultiple | collector/collector.go:205-214 | opens the file once; the channel gains the decoder's records and the decoder's error is only logged; a failed open is returned |
| Walker.CgroupCollector.VisitFile | collector/collector.go:193-220 | the channel, the opens and the error of the callback on a regular file are those of `FileSpec` |
| Walker.CgroupCollector.Visit | collector/collector.go:185-221 | the channel, the opens and the error of the callback on one event are those of `VisitSpec` |
| Walker.CgroupCollector.WalkDir | collector/collector.go:185-223 | the channel, the opens and the error of one walk are those of `WalkSpec` on the root's callbacks |
| Walker.CgroupCollector.Collect | collector/collector.go:179-225 | the channel and the opens of a collection are those of `CollectSpec` on the stored pattern |

## Left out

- `Describe` (`collector/collector.go:369-371`) is left out: it only forwards to Prometheus's `DescribeByCollect`.
- `main.go`, the HTTP endpoint and the Prometheus registry are not part of this model.
- Help strings, constant labels and the rest of `prometheus.Desc` are left out. A descriptor is its metric name and ordered label names. `MustNewConstMetric`'s panic on a label-count mismatch is stated as `Conforms`, which `Walker.NewRecordsConform` proves always holds.
- `MustNewConstMetric` also rejects label values that are not valid UTF-8, such as a cgroup directory or an `io.stat` device with invalid bytes. Strings are modelled as characters, so that check is not modelled.
- `strconv.ParseFloat` is a parameter (`Parser`), since its float64 grammar is not modelled. Values are `real`.
- Metrics.MicroToSeconds: exact division by 10^6, without float64 rounding.
- `bufio.Scanner`'s 64 KiB token limit and read errors (`scanner.Err()`) are left out. A file is its whole content as a string.
- Strings are sequences of characters, not UTF-8 bytes.
- `fs.Glob` pattern matching and the order of `fs.WalkDir` are inputs to the model (the `globs` and `trees` maps), not modelled algorithms.
- Closing files (`defer f.Close()`) is left out.
- `slog` logging is left out. A logged error is dropped from the outcome (`Logged` for walks; a discarded result for decoders).
- `filepath.Dir`'s `Clean` step is left out. Paths are taken as clean and slash-separated, as `fs.WalkDir` produces them.
- Blocking on the output channel and concurrent scrapes are left out. The channel is a sequence that only grows.
