/**
  The vocabulary shared by the decoders and the walker: metric descriptors,
  the records sent on the output channel, the errors a decoder or the walk
  can report, and the channel itself.
 */
module Metrics {
  import opened Wrappers

  /** `prometheus.ValueType`, as far as the collector uses it. */
  datatype ValueType = Gauge | Counter

  /** The parts of a `prometheus.Desc` that matter here: the metric name and
      the ordered label names (help text is left out). */
  datatype Desc = Desc(name: string, labelNames: seq<string>)

  /** What `prometheus.MustNewConstMetric` builds: a descriptor, a kind, a
      value and the label values, in the order of the descriptor's labels. */
  datatype Record = Record(desc: Desc, kind: ValueType, value: real, labels: seq<string>)

  /** A record `MustNewConstMetric` accepts: one label value per label name. */
  predicate Conforms(r: Record) {
    |r.labels| == |r.desc.labelNames|
  }

  /** The unit conversions a descriptor may carry; the registry uses one. */
  datatype Modifier = MicroSecondsToSeconds {
    function Apply(x: real): (y: real) {
      match this
      case MicroSecondsToSeconds => MicroToSeconds(x)
    }
  }

  /** `microSecondsToSeconds`, as exact division (rounding is not modelled). */
  function MicroToSeconds(microseconds: real): (seconds: real)
    ensures seconds * 1000000.0 == microseconds
    ensures microseconds >= 0.0 ==> 0.0 <= seconds <= microseconds
  {
    microseconds / 1000000.0
  }

  /** Applies an optional modifier: the value itself when there is none. */
  function Modify(m: Option<Modifier>, x: real): (y: real) {
    match m
    case None => x
    case Some(f) => f.Apply(x)
  }

  /** `strconv.ParseFloat(s, 64)`, left abstract: a partial map from a token
      to a number (None is the parse error). */
  type Parser = string -> Option<real>

  /** The errors the decoders and the walk report. */
  datatype Error =
    | ReadFailed                                          // fmt.Fscanf found no word
    | ParseFailed(token: string)                          // strconv.ParseFloat refused the token
    | InvalidFlatPair(line: string)                       // a flat line is not two fields
    | InvalidNestedPair(entry: string, token: string, parts: nat)  // a nested token is not K=V
    | UnknownPressureType(entry: string)                  // a pressure line names no descriptor
    | OpenFailed(path: string)                            // fs.FS.Open failed
    | WalkFailed(path: string)                            // fs.WalkDir reported an error
    | GlobFailed(pattern: string)                         // fs.Glob refused the pattern

  /** What a decoding step does: the records it sends on the channel, in
      order, and the error it returns, if any. */
  datatype Emission = Emission(records: seq<Record>, err: Option<Error>)

  /** Runs `first` and, only when it returned no error, `next`. */
  function AndThen(first: Emission, next: Emission): (r: Emission)
    ensures first.err.Some? ==> r == first
    ensures first.err.None? ==> r.records == first.records + next.records && r.err == next.err
  {
    if first.err.Some? then first else Emission(first.records + next.records, next.err)
  }

  /** Sequencing is associative, so a run can be split anywhere. */
  lemma AndThenAssoc(a: Emission, b: Emission, c: Emission)
    ensures AndThen(AndThen(a, b), c) == AndThen(a, AndThen(b, c))
  {
    if a.err.None? && b.err.None? {
      assert a.records + b.records + c.records == a.records + (b.records + c.records);
    }
  }

  /** The channel `m`: records are only ever appended to it. */
  class Sink {
    var records: seq<Record>

    constructor ()
      ensures records == []
    {
      records := [];
    }

    /** `m <- r` */
    method Send(r: Record)
      modifies this
      ensures records == old(records) + [r]
    {
      records := records + [r];
    }

    /** Sends the records one after another. */
    method SendAll(rs: seq<Record>)
      modifies this
      ensures records == old(records) + rs
    {
      var i := 0;
      while i < |rs|
        invariant 0 <= i <= |rs|
        invariant records == old(records) + rs[..i]
      {
        Send(rs[i]);
        assert rs[..i + 1] == rs[..i] + [rs[i]];
        i := i + 1;
      }
      assert rs[..|rs|] == rs;
    }
  }
}
