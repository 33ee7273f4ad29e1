// Properties of the delimiter processor's model: what Init derives, which events are
// left alone, where the columns end up, when the raw log is kept and when an event is
// dropped, and what Process leaves in the group.
module DelimiterProperties {
  import opened Wrappers
  import opened Strings
  import opened Json
  import opened ParserOptions
  import opened DelimiterSplit
  import opened DelimiterParser

  // ---------------------------------------------------------------------------------
  // Init

  /** On a first Init (no flag set yet), the derived flags hold exactly when the keys or
      the renamed key collide with the source key or the renamed key. */
  lemma ConfigureDerivedFlagsIff(base: Settings, config: Value)
    requires !base.sourceKeyOverwritten && !base.rawLogTagOverwritten
    requires Configure(base, config).Ok?
    ensures var st := Configure(base, config).value;
            (st.sourceKeyOverwritten <==>
               (st.options.keepingSourceWhenParseSucceed && st.options.renamedSourceKey == st.sourceKey)
               || st.sourceKey in st.keys)
            && (st.rawLogTagOverwritten <==> st.options.renamedSourceKey in st.keys)
  {
  }

  /** Init refuses a one-character separator whose Quote option is a string of another
      length, and accepts the escaped tab as a tab. */
  lemma ConfigureQuoteRule(base: Settings, config: Value)
    requires StringMember(config, "SourceKey").Some?
    requires StringMember(config, "Separator").Some? && |Unescape(StringMember(config, "Separator").value)| == 1
    requires |StringMember(config, "Separator").value| <= 3
    requires StringMember(config, "Quote").Some? && |StringMember(config, "Quote").value| != 1
    ensures Configure(base, config) == Err(BadQuote)
  {
  }

  // ---------------------------------------------------------------------------------
  // Trimming

  /** The trimmed span is empty exactly when the value holds nothing but spaces and
      carriage returns. */
  lemma BlankIff(v: string)
    ensures TrimBegin(v, TrimEnd(v)) >= TrimEnd(v) <==> forall i :: 0 <= i < |v| ==> IsTrailingBlank(v[i])
  {
    var e := TrimEnd(v);
    if e > 0 {
      assert !IsTrailingBlank(v[e - 1]);
      assert v[e - 1] != ' ';
      if TrimBegin(v, e) >= e {
        assert false;
      }
    }
  }

  /** An event that is not a log, or lacks the source key, goes through untouched and
      uncounted; one whose source value is blank goes through untouched too, counting
      only the bytes read. */
  lemma UntouchedEvents(st: Settings, fsm: QuoteParser, e: Event)
    ensures !e.LogEvent? || st.sourceKey !in e.contents ==> EventOutcome(st, fsm, e) == Outcome(true, e, NoCounts)
    ensures e.LogEvent? && st.sourceKey in e.contents
            && (forall i :: 0 <= i < |e.contents[st.sourceKey]| ==> IsTrailingBlank(e.contents[st.sourceKey][i]))
            ==> EventOutcome(st, fsm, e) == Outcome(true, e, NoCounts.(parseInSizeBytes := |e.contents[st.sourceKey]|))
  {
    if e.LogEvent? && st.sourceKey in e.contents {
      BlankIff(e.contents[st.sourceKey]);
    }
  }

  // ---------------------------------------------------------------------------------
  // Writes

  /** A write to another key leaves a key's presence and value as they were. */
  lemma ApplyWritesOther(c: Contents, ws: seq<(string, string)>, w: (string, string), k: string)
    requires w.0 != k
    ensures (k in ApplyWrites(c, ws + [w])) == (k in ApplyWrites(c, ws))
    ensures k in ApplyWrites(c, ws) ==> ApplyWrites(c, ws + [w])[k] == ApplyWrites(c, ws)[k]
  {
    WritesSnoc(c, ws, w);
  }

  /** The value a key ends up with is that of the last write to it. */
  lemma {:induction false} ApplyWritesLastWins(c: Contents, ws: seq<(string, string)>, w: (string, string),
                                              rest: seq<(string, string)>)
    requires forall j :: 0 <= j < |rest| ==> rest[j].0 != w.0
    ensures w.0 in ApplyWrites(c, ws + [w] + rest) && ApplyWrites(c, ws + [w] + rest)[w.0] == w.1
    decreases |rest|
  {
    if rest == [] {
      assert ws + [w] + rest == ws + [w];
      WritesSnoc(c, ws, w);
    } else {
      var n := |rest| - 1;
      assert ws + [w] + rest == (ws + [w] + rest[..n]) + [rest[n]];
      ApplyWritesLastWins(c, ws, w, rest[..n]);
      ApplyWritesOther(c, ws + [w] + rest[..n], rest[n], w.0);
    }
  }

  /** A key no write touches keeps its presence and value. */
  lemma {:induction false} ApplyWritesUntouched(c: Contents, ws: seq<(string, string)>, k: string)
    requires forall j :: 0 <= j < |ws| ==> ws[j].0 != k
    ensures (k in ApplyWrites(c, ws)) == (k in c)
    ensures k in c ==> ApplyWrites(c, ws)[k] == c[k]
  {
    if ws != [] {
      var n := |ws| - 1;
      ApplyWritesUntouched(c, ws[..n], k);
      assert ws == ws[..n] + [ws[n]];
      ApplyWritesOther(c, ws[..n], ws[n], k);
    }
  }

  /** Extra columns get distinct keys. */
  lemma ColumnKeyInjective(st: Settings, i: nat, j: nat)
    requires i >= |st.keys| && j >= |st.keys| && ColumnKey(st, i) == ColumnKey(st, j)
    ensures i == j
  {
    var a, b := ColumnKey(st, i), ColumnKey(st, j);
    assert a[8..|a| - 2] == NatToString(i);
    assert b[8..|b| - 2] == NatToString(j);
    NatToStringInjective(i, j);
  }

  /** After the column writes of the first n columns, a kept column i is stored under its
      key unless a later kept column has the same key. */
  lemma {:induction false} ColumnWritesStore(c: Contents, st: Settings, vals: seq<string>, n: nat, i: nat)
    requires i < n <= |vals| && !Skipped(st, i)
    requires forall j :: i < j < n && !Skipped(st, j) ==> ColumnKey(st, j) != ColumnKey(st, i)
    ensures ColumnKey(st, i) in ApplyWrites(c, ColumnWrites(st, vals, n))
    ensures ApplyWrites(c, ColumnWrites(st, vals, n))[ColumnKey(st, i)] == vals[i]
    decreases n
  {
    ColumnWritesStep(st, vals, n - 1);
    if n - 1 == i {
      WritesSnoc(c, ColumnWrites(st, vals, i), (ColumnKey(st, i), vals[i]));
    } else {
      ColumnWritesStore(c, st, vals, n - 1, i);
      if !Skipped(st, n - 1) {
        ApplyWritesOther(c, ColumnWrites(st, vals, n - 1), (ColumnKey(st, n - 1), vals[n - 1]), ColumnKey(st, i));
      }
    }
  }

  // ---------------------------------------------------------------------------------
  // The decision table

  /** The span ProcessEvent parses: the source value without its trailing blanks and
      leading spaces. */
  predicate Parsable(st: Settings, e: Event)
  {
    e.LogEvent? && st.sourceKey in e.contents
    && TrimBegin(e.contents[st.sourceKey], TrimEnd(e.contents[st.sourceKey])) < TrimEnd(e.contents[st.sourceKey])
  }

  function ParseOf(st: Settings, fsm: QuoteParser, e: Event): (bool, seq<string>)
    requires Parsable(st, e)
  {
    var v := e.contents[st.sourceKey];
    ParseSpan(st, fsm, v, TrimBegin(v, TrimEnd(v)), TrimEnd(v))
  }

  /** The parse fails when there are no keys, when the splitter fails, when it gives no
      column, or when it gives fewer columns than keys and shortened lines are not allowed. */
  lemma ParseFailsIff(st: Settings, fsm: QuoteParser, v: string, b: nat, e: nat)
    requires e <= |v|
    ensures var (ok, vals) := SplitValue(st, fsm, v, b, e);
            !ParseSpan(st, fsm, v, b, e).0 <==>
              |st.keys| == 0 || !ok || |vals| == 0 || (!st.allowingShortenedFields && |vals| < |st.keys|)
  {
  }

  /** An event stays exactly when its parse succeeds or the source is kept on failure;
      a dropped event counts one discarded record, and every failed parse one error. */
  lemma KeepIff(st: Settings, fsm: QuoteParser, e: Event)
    requires Parsable(st, e)
    ensures var o := EventOutcome(st, fsm, e);
            (o.keep <==> ParseOf(st, fsm, e).0 || st.options.keepingSourceWhenParseFail)
            && o.delta.discardRecordsTotal == (if o.keep then 0 else 1)
            && o.delta.parseFailures == o.delta.parseErrorTotal == (if ParseOf(st, fsm, e).0 then 0 else 1)
            && o.event.LogEvent?
  {
  }

  /** On a failed parse the raw log is stored under "__raw_log__" when the source is kept
      on failure or the raw log is copied; with neither, the contents are left as they were. */
  lemma FailureKeepsRawLog(st: Settings, fsm: QuoteParser, e: Event)
    requires Parsable(st, e) && !ParseOf(st, fsm, e).0
    ensures var o := EventOutcome(st, fsm, e);
            (st.options.keepingSourceWhenParseFail || st.options.copingRawLog ==>
               UnmatchLogKey in o.event.contents && o.event.contents[UnmatchLogKey] == e.contents[st.sourceKey])
            && (!st.options.keepingSourceWhenParseFail && !st.options.copingRawLog ==> o.event.contents == e.contents)
  {
    var v := e.contents[st.sourceKey];
    var (parsed, vals) := ParseOf(st, fsm, e);
    var ws := EventWrites(st, v, parsed, vals);
    var o := st.options;
    if o.keepingSourceWhenParseFail || o.copingRawLog {
      var renamed := if o.keepingSourceWhenParseFail && o.keepingSourceWhenParseSucceed then [(o.renamedSourceKey, v)] else [];
      assert ws == [(UnmatchLogKey, v)] + renamed;
      if renamed == [] {
        ApplyWritesLastWins(e.contents, [], (UnmatchLogKey, v), []);
        assert [] + [(UnmatchLogKey, v)] + [] == ws;
      } else if o.renamedSourceKey == UnmatchLogKey {
        ApplyWritesLastWins(e.contents, [(UnmatchLogKey, v)], (o.renamedSourceKey, v), []);
        assert [(UnmatchLogKey, v)] + [(o.renamedSourceKey, v)] + [] == ws;
      } else {
        ApplyWritesLastWins(e.contents, [], (UnmatchLogKey, v), renamed);
        assert [] + [(UnmatchLogKey, v)] + renamed == ws;
      }
    } else {
      assert ws == [];
    }
  }

  /** On success the source key is removed unless a key or the renamed field overwrote it. */
  lemma SuccessErasesSource(st: Settings, fsm: QuoteParser, e: Event)
    requires Parsable(st, e) && ParseOf(st, fsm, e).0 && !st.sourceKeyOverwritten
    ensures st.sourceKey !in EventOutcome(st, fsm, e).event.contents
  {
  }

  /** On success column i is stored under its key (keys[i] for a configured column,
      "__column<i>__" for an extra one) unless the column is skipped in discard mode or a
      later kept column has the same key; for an extra column, also unless its key is the
      source key or the renamed key. */
  lemma SuccessStoresColumn(st: Settings, fsm: QuoteParser, e: Event, i: nat)
    requires Derived(st) && Parsable(st, e) && ParseOf(st, fsm, e).0
    requires i < |ParseOf(st, fsm, e).1| && !Skipped(st, i)
    requires forall j :: i < j < |ParseOf(st, fsm, e).1| && !Skipped(st, j) ==> ColumnKey(st, j) != ColumnKey(st, i)
    requires i >= |st.keys| ==> ColumnKey(st, i) != st.sourceKey && ColumnKey(st, i) != st.options.renamedSourceKey
    ensures var c := EventOutcome(st, fsm, e).event.contents;
            ColumnKey(st, i) in c && c[ColumnKey(st, i)] == ParseOf(st, fsm, e).1[i]
  {
    var v := e.contents[st.sourceKey];
    var (parsed, vals) := ParseOf(st, fsm, e);
    var cw := ColumnWrites(st, vals, |vals|);
    var k := ColumnKey(st, i);
    ColumnWritesStore(e.contents, st, vals, |vals|, i);
    var o := st.options;
    if o.keepingSourceWhenParseSucceed && !st.rawLogTagOverwritten {
      assert o.renamedSourceKey !in st.keys;
      assert k != o.renamedSourceKey;
      ApplyWritesOther(e.contents, cw, (o.renamedSourceKey, v), k);
      assert EventWrites(st, v, parsed, vals) == cw + [(o.renamedSourceKey, v)];
    } else {
      assert EventWrites(st, v, parsed, vals) == cw + [];
      assert cw + [] == cw;
    }
    if !st.sourceKeyOverwritten {
      assert st.sourceKey !in st.keys;
      assert k != st.sourceKey;
    }
  }

  // ---------------------------------------------------------------------------------
  // Process

  /** Every event Process removes counts one discarded record. */
  lemma {:induction false} SurvivorsCount(st: Settings, fsm: QuoteParser, es: seq<Event>)
    ensures |Survivors(st, fsm, es)| + TotalDelta(st, fsm, es).discardRecordsTotal == |es|
  {
    if es != [] {
      SurvivorsCount(st, fsm, es[..|es| - 1]);
    }
  }

  /** The events Process keeps are, in order, the outcomes of those ProcessEvent keeps. */
  lemma {:induction false} SurvivorsAreKeptOutcomes(st: Settings, fsm: QuoteParser, es: seq<Event>, k: nat)
    requires k < |Survivors(st, fsm, es)|
    ensures exists j :: 0 <= j < |es| && EventOutcome(st, fsm, es[j]).keep && Survivors(st, fsm, es)[k] == EventOutcome(st, fsm, es[j]).event
  {
    var n := |es| - 1;
    var front := Survivors(st, fsm, es[..n]);
    if k < |front| {
      SurvivorsAreKeptOutcomes(st, fsm, es[..n], k);
      var j :| 0 <= j < n && EventOutcome(st, fsm, es[..n][j]).keep && front[k] == EventOutcome(st, fsm, es[..n][j]).event;
      assert es[..n][j] == es[j];
    } else {
      assert EventOutcome(st, fsm, es[n]).keep;
    }
  }
}
