/**
  The two line-oriented readers the decoders are built on:
  `visitFlatKeyed` for `KEY VAL` lines and `visitNestedKeyed` for
  `ENTRY K=V K=V ...` lines. A visitor is a function value that returns what
  it would send on the channel and the error it would return; each reader
  is given both as a specification function over the scanned lines and as
  the loop that sends the records.
 */
module Parsers {
  import opened Wrappers
  import opened Text
  import opened Metrics

  /** `kvVisitor`: called with a key and a value. */
  type KvVisitor = (string, string) -> Emission

  /** `entryVisitor`: called with an entry name; gives the visitor for that
      entry's key-values, or an error. */
  type EntryVisitor = string -> Result<KvVisitor, Error>

  /** Every record in `rs` satisfies `P`. */
  ghost predicate AllSatisfy(rs: seq<Record>, P: Record -> bool) {
    forall i :: 0 <= i < |rs| ==> P(rs[i])
  }

  lemma AppendAssoc<T>(a: seq<T>, b: seq<T>, c: seq<T>)
    ensures a + (b + c) == (a + b) + c
  {
  }

  lemma AllSatisfyAppend(a: seq<Record>, b: seq<Record>, P: Record -> bool)
    requires AllSatisfy(a, P) && AllSatisfy(b, P)
    ensures AllSatisfy(a + b, P)
  {
    assert forall i :: |a| <= i < |a + b| ==> (a + b)[i] == b[i - |a|];
  }

  // ---------------------------------------------------------------------------
  // visitFlatKeyed
  // ---------------------------------------------------------------------------

  /** One flat line: it must split on single spaces into exactly two fields,
      which are handed to the visitor. */
  function FlatLine(line: string, visit: KvVisitor): (e: Emission) {
    var kv := Split(line, ' ');
    if |kv| != 2 then Emission([], Some(InvalidFlatPair(line))) else visit(kv[0], kv[1])
  }

  /** What `visitFlatKeyed` does with the scanned `lines`: visit them in order
      and stop at the first error. */
  function FlatKeyed(lines: seq<string>, visit: KvVisitor): (e: Emission)
    decreases |lines|
  {
    if lines == [] then Emission([], None)
    else AndThen(FlatLine(lines[0], visit), FlatKeyed(lines[1..], visit))
  }

  /** `visitFlatKeyed(r, visitKV)` on a reader holding `content`. */
  method VisitFlatKeyed(content: string, visit: KvVisitor, m: Sink) returns (err: Option<Error>)
    modifies m
    ensures m.records == old(m.records) + FlatKeyed(Lines(content), visit).records
    ensures err == FlatKeyed(Lines(content), visit).err
  {
    var lines := Lines(content);
    ghost var total := FlatKeyed(lines, visit);
    ghost var sent: seq<Record> := [];
    var i := 0;
    while i < |lines|
      invariant 0 <= i <= |lines|
      invariant m.records == old(m.records) + sent
      invariant total.records == sent + FlatKeyed(lines[i..], visit).records
      invariant total.err == FlatKeyed(lines[i..], visit).err
    {
      FlatKeyedAt(lines, i, visit);
      var kv := Split(lines[i], ' ');
      if |kv| != 2 {
        assert sent + [] == sent;
        return Some(InvalidFlatPair(lines[i]));
      }
      var e := visit(kv[0], kv[1]);
      m.SendAll(e.records);
      AppendAssoc(old(m.records), sent, e.records);
      if e.err.Some? {
        return e.err;
      }
      AppendAssoc(sent, e.records, FlatKeyed(lines[i + 1..], visit).records);
      sent := sent + e.records;
      i := i + 1;
    }
    assert sent + [] == sent;
    return None;
  }

  /** The line at `i` of a flat read is read before the lines after it. */
  lemma FlatKeyedAt(lines: seq<string>, i: nat, visit: KvVisitor)
    requires i < |lines|
    ensures FlatLine(lines[i], visit).err.Some? ==> FlatKeyed(lines[i..], visit) == FlatLine(lines[i], visit)
    ensures FlatLine(lines[i], visit).err.None? ==>
      FlatKeyed(lines[i..], visit).records == FlatLine(lines[i], visit).records + FlatKeyed(lines[i + 1..], visit).records
      && FlatKeyed(lines[i..], visit).err == FlatKeyed(lines[i + 1..], visit).err
  {
    assert lines[i..][0] == lines[i] && lines[i..][1..] == lines[i + 1..];
  }

  /** Reading `a + b` is reading `a` and then, unless that failed, `b`: the
      lines after a failing line are never visited, and the records of the
      lines before it stay sent. */
  lemma {:induction false} FlatKeyedAppend(a: seq<string>, b: seq<string>, visit: KvVisitor)
    ensures FlatKeyed(a + b, visit) == AndThen(FlatKeyed(a, visit), FlatKeyed(b, visit))
    decreases |a|
  {
    if a == [] {
      assert a + b == b;
    } else {
      assert (a + b)[1..] == a[1..] + b;
      FlatKeyedAppend(a[1..], b, visit);
      AndThenAssoc(FlatLine(a[0], visit), FlatKeyed(a[1..], visit), FlatKeyed(b, visit));
    }
  }

  /** A line that is not exactly two single-space-separated fields ends the
      read with an error; the earlier lines' records stay sent and the later
      lines are not visited. */
  lemma FlatKeyedStopsAtMalformed(before: seq<string>, bad: string, after: seq<string>, visit: KvVisitor)
    requires |Split(bad, ' ')| != 2
    ensures FlatKeyed(before + [bad] + after, visit)
         == AndThen(FlatKeyed(before, visit), Emission([], Some(InvalidFlatPair(bad))))
  {
    FlatKeyedAppend(before + [bad], after, visit);
    FlatKeyedAppend(before, [bad], visit);
    assert FlatKeyed([bad], visit) == Emission([], Some(InvalidFlatPair(bad)));
  }

  /** Whatever the visitor promises of each record it sends holds of every
      record the read sends. */
  lemma {:induction false} FlatKeyedPreserves(lines: seq<string>, visit: KvVisitor, P: Record -> bool)
    requires forall k, v :: AllSatisfy(visit(k, v).records, P)
    ensures AllSatisfy(FlatKeyed(lines, visit).records, P)
    decreases |lines|
  {
    if lines != [] {
      FlatKeyedPreserves(lines[1..], visit, P);
      var first := FlatLine(lines[0], visit);
      if first.err.None? {
        AllSatisfyAppend(first.records, FlatKeyed(lines[1..], visit).records, P);
      }
    }
  }

  // ---------------------------------------------------------------------------
  // visitNestedKeyed
  // ---------------------------------------------------------------------------

  /** The key-value tokens of one entry, in order. A token that does not split
      on '=' into exactly two parts ends the read with an error; the error a
      visitor returns is dropped, so only malformed tokens stop the line. */
  function Pairs(entry: string, tokens: seq<string>, visit: KvVisitor): (e: Emission)
    decreases |tokens|
  {
    if tokens == [] then Emission([], None)
    else
      var kv := Split(tokens[0], '=');
      if |kv| != 2 then Emission([], Some(InvalidNestedPair(entry, tokens[0], |kv|)))
      else AndThen(Emission(visit(kv[0], kv[1]).records, None), Pairs(entry, tokens[1..], visit))
  }

  /** One nested line: trimmed, split on single spaces; the first field names
      the entry, the rest are its key-values. */
  function NestedLine(line: string, visitEntry: EntryVisitor): (e: Emission) {
    var split := Split(TrimSpace(line), ' ');
    match visitEntry(split[0])
    case Failure(e) => Emission([], Some(e))
    case Success(visit) => Pairs(split[0], split[1..], visit)
  }

  /** What `visitNestedKeyed` does with the scanned `lines`. */
  function NestedKeyed(lines: seq<string>, visitEntry: EntryVisitor): (e: Emission)
    decreases |lines|
  {
    if lines == [] then Emission([], None)
    else AndThen(NestedLine(lines[0], visitEntry), NestedKeyed(lines[1..], visitEntry))
  }

  /** `visitNestedKeyed(r, visitEntry)` on a reader holding `content`. */
  method VisitNestedKeyed(content: string, visitEntry: EntryVisitor, m: Sink) returns (err: Option<Error>)
    modifies m
    ensures m.records == old(m.records) + NestedKeyed(Lines(content), visitEntry).records
    ensures err == NestedKeyed(Lines(content), visitEntry).err
  {
    err := VisitNestedLines(Lines(content), visitEntry, m);
  }

  /** The scanning loop of `visitNestedKeyed` over the lines the scanner
      yields. */
  method VisitNestedLines(lines: seq<string>, visitEntry: EntryVisitor, m: Sink) returns (err: Option<Error>)
    modifies m
    ensures m.records == old(m.records) + NestedKeyed(lines, visitEntry).records
    ensures err == NestedKeyed(lines, visitEntry).err
  {
    ghost var total := NestedKeyed(lines, visitEntry);
    ghost var sent: seq<Record> := [];
    var i := 0;
    while i < |lines|
      invariant 0 <= i <= |lines|
      invariant m.records == old(m.records) + sent
      invariant total.records == sent + NestedKeyed(lines[i..], visitEntry).records
      invariant total.err == NestedKeyed(lines[i..], visitEntry).err
    {
      NestedKeyedAt(lines, i, visitEntry);
      ghost var here := NestedLine(lines[i], visitEntry).records;
      err := VisitNestedLine(lines[i], visitEntry, m);
      AppendAssoc(old(m.records), sent, here);
      if err.Some? {
        return;
      }
      AppendAssoc(sent, here, NestedKeyed(lines[i + 1..], visitEntry).records);
      sent := sent + here;
      i := i + 1;
    }
    assert sent + [] == sent;
    return None;
  }

  /** The body of the scanning loop of `visitNestedKeyed`, for one line. */
  method VisitNestedLine(line: string, visitEntry: EntryVisitor, m: Sink) returns (err: Option<Error>)
    modifies m
    ensures m.records == old(m.records) + NestedLine(line, visitEntry).records
    ensures err == NestedLine(line, visitEntry).err
  {
    var split := Split(TrimSpace(line), ' ');
    var k := split[0];
    var vs := split[1..];
    var visitKV := visitEntry(k);
    if visitKV.Failure? {
      assert m.records == old(m.records) + [];
      return Some(visitKV.error);
    }
    err := VisitPairs(k, vs, visitKV.value, m);
  }

  /** The line at `i` of a nested read is read before the lines after it. */
  lemma NestedKeyedAt(lines: seq<string>, i: nat, visitEntry: EntryVisitor)
    requires i < |lines|
    ensures NestedLine(lines[i], visitEntry).err.Some? ==> NestedKeyed(lines[i..], visitEntry) == NestedLine(lines[i], visitEntry)
    ensures NestedLine(lines[i], visitEntry).err.None? ==>
      NestedKeyed(lines[i..], visitEntry).records == NestedLine(lines[i], visitEntry).records + NestedKeyed(lines[i + 1..], visitEntry).records
      && NestedKeyed(lines[i..], visitEntry).err == NestedKeyed(lines[i + 1..], visitEntry).err
  {
    assert lines[i..][0] == lines[i] && lines[i..][1..] == lines[i + 1..];
  }

  /** The inner loop of `visitNestedKeyed` over the key-value tokens `vs` of
      the entry `k`. */
  method VisitPairs(k: string, vs: seq<string>, visitKV: KvVisitor, m: Sink) returns (err: Option<Error>)
    modifies m
    ensures m.records == old(m.records) + Pairs(k, vs, visitKV).records
    ensures err == Pairs(k, vs, visitKV).err
  {
    ghost var sent: seq<Record> := [];
    var j := 0;
    while j < |vs|
      invariant 0 <= j <= |vs|
      invariant m.records == old(m.records) + sent
      invariant Pairs(k, vs, visitKV) == AndThen(Emission(sent, None), Pairs(k, vs[j..], visitKV))
    {
      assert vs[j..][1..] == vs[j + 1..];
      var kv := Split(vs[j], '=');
      if |kv| != 2 {
        return Some(InvalidNestedPair(k, vs[j], |kv|));
      }
      var e := visitKV(kv[0], kv[1]);  // the error it returns is dropped
      m.SendAll(e.records);
      AndThenAssoc(Emission(sent, None), Emission(e.records, None), Pairs(k, vs[j + 1..], visitKV));
      sent := sent + e.records;
      j := j + 1;
    }
    return None;
  }

  /** Reading `a + b` is reading `a` and then, unless that failed, `b`. */
  lemma {:induction false} NestedKeyedAppend(a: seq<string>, b: seq<string>, visitEntry: EntryVisitor)
    ensures NestedKeyed(a + b, visitEntry) == AndThen(NestedKeyed(a, visitEntry), NestedKeyed(b, visitEntry))
    decreases |a|
  {
    if a == [] {
      assert a + b == b;
    } else {
      assert (a + b)[1..] == a[1..] + b;
      NestedKeyedAppend(a[1..], b, visitEntry);
      AndThenAssoc(NestedLine(a[0], visitEntry), NestedKeyed(a[1..], visitEntry), NestedKeyed(b, visitEntry));
    }
  }

  /** The key-values of a line end in an error exactly when one of its tokens
      is not a single `K=V`; what the visitor returns never stops them. */
  lemma {:induction false} PairsFailOnlyOnMalformed(entry: string, tokens: seq<string>, visit: KvVisitor)
    ensures Pairs(entry, tokens, visit).err.Some?
        <==> exists i :: 0 <= i < |tokens| && |Split(tokens[i], '=')| != 2
    ensures Pairs(entry, tokens, visit).err.Some? ==> Pairs(entry, tokens, visit).err.value.InvalidNestedPair?
    decreases |tokens|
  {
    if tokens != [] {
      PairsFailOnlyOnMalformed(entry, tokens[1..], visit);
      if |Split(tokens[0], '=')| == 2 {
        if exists i :: 0 <= i < |tokens| && |Split(tokens[i], '=')| != 2 {
          var i :| 0 <= i < |tokens| && |Split(tokens[i], '=')| != 2;
          assert tokens[1..][i - 1] == tokens[i];
        }
      }
    }
  }

  /** An entry with nothing after it (after trimming) is visited and yields
      no records and no error, when the entry visitor accepts it. */
  lemma BareEntry(line: string, visitEntry: EntryVisitor)
    requires ' ' !in TrimSpace(line)
    requires visitEntry(TrimSpace(line)).Success?
    ensures NestedLine(line, visitEntry) == Emission([], None)
  {
    SplitFree(TrimSpace(line), ' ');
  }

  /** Whatever every key-value visitor promises of each record it sends holds
      of every record the read sends. */
  lemma {:induction false} NestedKeyedPreserves(lines: seq<string>, visitEntry: EntryVisitor, P: Record -> bool)
    requires forall n, k, v :: visitEntry(n).Success? ==> AllSatisfy(visitEntry(n).value(k, v).records, P)
    ensures AllSatisfy(NestedKeyed(lines, visitEntry).records, P)
    decreases |lines|
  {
    if lines != [] {
      NestedKeyedPreserves(lines[1..], visitEntry, P);
      var split := Split(TrimSpace(lines[0]), ' ');
      var first := NestedLine(lines[0], visitEntry);
      if visitEntry(split[0]).Success? {
        PairsPreserve(split[0], split[1..], visitEntry(split[0]).value, P);
      }
      if first.err.None? {
        AllSatisfyAppend(first.records, NestedKeyed(lines[1..], visitEntry).records, P);
      }
    }
  }

  lemma {:induction false} PairsPreserve(entry: string, tokens: seq<string>, visit: KvVisitor, P: Record -> bool)
    requires forall k, v :: AllSatisfy(visit(k, v).records, P)
    ensures AllSatisfy(Pairs(entry, tokens, visit).records, P)
    decreases |tokens|
  {
    if tokens != [] {
      PairsPreserve(entry, tokens[1..], visit, P);
      var kv := Split(tokens[0], '=');
      if |kv| == 2 {
        AllSatisfyAppend(visit(kv[0], kv[1]).records, Pairs(entry, tokens[1..], visit).records, P);
      }
    }
  }

  /** When the entry visitor accepts every entry, the only error a nested read
      can end with is a malformed key-value token. */
  lemma {:induction false} NestedKeyedFailsOnlyOnMalformed(lines: seq<string>, visitEntry: EntryVisitor)
    requires forall n :: visitEntry(n).Success?
    ensures NestedKeyed(lines, visitEntry).err.Some? ==> NestedKeyed(lines, visitEntry).err.value.InvalidNestedPair?
    decreases |lines|
  {
    if lines != [] {
      NestedKeyedFailsOnlyOnMalformed(lines[1..], visitEntry);
      var split := Split(TrimSpace(lines[0]), ' ');
      PairsFailOnlyOnMalformed(split[0], split[1..], visitEntry(split[0]).value);
    }
  }
}
