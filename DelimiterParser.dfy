/** The delimiter log parser (ProcessorParseDelimiterNative): option checking in Init,
    the per-event decision table of ProcessEvent and the in-place filtering of Process.
    The quote-aware splitter (DelimiterModeFsmParser) is a parameter of the model. */
module DelimiterParser {
  import opened Wrappers
  import opened Strings
  import opened Json
  import opened ParserOptions
  import opened DelimiterSplit

  /** A key naming a column that discard mode leaves out. */
  const DiscardedFieldKey: string := "_"
  /** The quote character used when none is configured. */
  const DefaultQuote: char := '"'

  /** What happens to columns beyond the configured keys. */
  datatype Treatment = Extend | Keep | Discard

  datatype InitError = MissingSourceKey | MissingSeparator | SeparatorTooLong | BadQuote | MissingKeys

  /** Every member Init sets, including the flags it derives. */
  datatype Settings = Settings(
    sourceKey: string,
    separator: string,
    quote: char,
    keys: seq<string>,
    allowingShortenedFields: bool,
    treatment: Treatment,
    options: Options,
    separatorChar: char,
    sourceKeyOverwritten: bool,
    rawLogTagOverwritten: bool,
    autoExtend: bool,
    extractPartialFields: bool)

  /** The members as the processor is constructed, before Init. */
  function DefaultSettings(): Settings
  {
    Settings("", "", DefaultQuote, [], true, Extend, DefaultOptions(), '\t', false, false, false, false)
  }

  /** The quote-aware splitter: given the quote and separator characters, the value and
      the trimmed span, whether the line was well formed and the column texts. */
  type QuoteParser = (char, char, string, nat, nat) -> (bool, seq<string>)

  /** The OverflowedFieldsTreatment option; any other text leaves the treatment as it was. */
  function ParseTreatment(s: string, current: Treatment): Treatment
  {
    if s == "extend" then Extend
    else if s == "keep" then Keep
    else if s == "discard" then Discard
    else current
  }

  /** The configured separator, with the two characters backslash and t read as a tab. */
  function Unescape(sep: string): (r: string)
    ensures sep == "\\t" ==> r == "\t"
    ensures |r| <= |sep|
  {
    if sep == "\\t" then "\t" else sep
  }

  /** An optional boolean option: a boolean member replaces the current value; an absent
      member or one of another type leaves it. */
  function OptionalBool(config: Value, key: string, current: bool): bool
  {
    match BoolMember(config, key)
    case Some(b) => b
    case None => current
  }

  function OptionalString(config: Value, key: string, current: string): string
  {
    match StringMember(config, key)
    case Some(s) => s
    case None => current
  }

  /** The quote character for a one-character separator: the configured one-character
      quote, the default quote when the option is absent, the current one when the
      option is not a string; None when the option is a string of another length. */
  function QuoteOption(config: Value, current: char): Option<char>
  {
    if !HasMember(config, "Quote") then Some(DefaultQuote)
    else match StringMember(config, "Quote")
      case None => Some(current)
      case Some(q) => if |q| == 1 then Some(q[0]) else None
  }

  /** The derived flags agree with the keys: a key equal to the source key marks the
      source key as overwritten, one equal to the renamed key the raw-log tag. */
  predicate Derived(st: Settings)
  {
    (st.sourceKey in st.keys ==> st.sourceKeyOverwritten)
    && (st.options.renamedSourceKey in st.keys ==> st.rawLogTagOverwritten)
    && (st.options.keepingSourceWhenParseSucceed && st.options.renamedSourceKey == st.sourceKey ==> st.sourceKeyOverwritten)
  }

  /** The four parse options, each the configured boolean or string or else the current one. */
  function ReadOptions(current: Options, config: Value): Options
  {
    Options(
      OptionalBool(config, "KeepingSourceWhenParseFail", current.keepingSourceWhenParseFail),
      OptionalBool(config, "KeepingSourceWhenParseSucceed", current.keepingSourceWhenParseSucceed),
      OptionalString(config, "RenamedSourceKey", current.renamedSourceKey),
      OptionalBool(config, "CopingRawLog", current.copingRawLog))
  }

  /** The members Init derives once the source key, the separator, the quote and the
      keys are read: the optional members, the separator character and the flags. */
  function Assembled(base: Settings, config: Value, sk: string, sep: string, quote: char, keys: seq<string>): Settings
  {
    var treatment := ParseTreatment(OptionalString(config, "OverflowedFieldsTreatment", ""), base.treatment);
    var options := ReadOptions(base.options, config);
    Settings(
      sk, sep, quote, keys,
      OptionalBool(config, "AllowingShortenedFields", base.allowingShortenedFields),
      treatment, options,
      if sep != [] then sep[0] else '\t',
      base.sourceKeyOverwritten || (options.keepingSourceWhenParseSucceed && options.renamedSourceKey == sk) || sk in keys,
      base.rawLogTagOverwritten || options.renamedSourceKey in keys,
      treatment == Extend,
      treatment == Discard)
  }

  /** Init over the members as they were (base): the new members, or the error it stops on. */
  function Configure(base: Settings, config: Value): (r: Result<Settings, InitError>)
    ensures r.Ok? ==> Some(r.value.sourceKey) == StringMember(config, "SourceKey")
    ensures r.Ok? ==> Some(r.value.keys) == StringListMember(config, "Keys")
    ensures r.Ok? ==> |r.value.separator| <= 3
    ensures r.Ok? && StringMember(config, "Separator") == Some("\\t") ==> r.value.separator == "\t" && r.value.separatorChar == '\t'
    ensures r.Ok? ==> r.value.separatorChar == if r.value.separator == [] then '\t' else r.value.separator[0]
    ensures r.Ok? ==> Derived(r.value)
    ensures r.Ok? ==> (r.value.autoExtend <==> r.value.treatment == Extend)
    ensures r.Ok? ==> (r.value.extractPartialFields <==> r.value.treatment == Discard)
    ensures r.Ok? && |r.value.separator| == 1 && StringMember(config, "Quote").Some?
      ==> |StringMember(config, "Quote").value| == 1 && r.value.quote == StringMember(config, "Quote").value[0]
    ensures match StringMember(config, "Separator")
      case Some(sep) => |sep| > 3 ==> r.Err?
      case None => r.Err?
    ensures StringMember(config, "SourceKey").None? ==> r == Err(MissingSourceKey)
  {
    var sourceKey := StringMember(config, "SourceKey");
    var rawSep := StringMember(config, "Separator");
    if sourceKey.None? then Err(MissingSourceKey)
    else if rawSep.None? then Err(MissingSeparator)
    else if |rawSep.value| > 3 then Err(SeparatorTooLong)
    else
      var sep := Unescape(rawSep.value);
      var quote := if |sep| == 1 then QuoteOption(config, base.quote) else Some(base.quote);
      var keys := StringListMember(config, "Keys");
      if quote.None? then Err(BadQuote)
      else if keys.None? then Err(MissingKeys)
      else Ok(Assembled(base, config, sourceKey.value, sep, quote.value, keys.value))
  }

  /** The loop of Init over the keys: a key equal to the source key sets the first
      flag, a key equal to the renamed source key the second. */
  method ScanKeys(keys: seq<string>, sourceKey: string, renamedSourceKey: string,
                  sourceOverwritten: bool, rawLogOverwritten: bool)
    returns (sourceHit: bool, renamedHit: bool)
    ensures sourceHit <==> sourceOverwritten || sourceKey in keys
    ensures renamedHit <==> rawLogOverwritten || renamedSourceKey in keys
  {
    sourceHit, renamedHit := sourceOverwritten, rawLogOverwritten;
    var i := 0;
    while i < |keys|
      invariant 0 <= i <= |keys|
      invariant sourceHit <==> sourceOverwritten || sourceKey in keys[..i]
      invariant renamedHit <==> rawLogOverwritten || renamedSourceKey in keys[..i]
    {
      if keys[i] == sourceKey {
        sourceHit := true;
      }
      if keys[i] == renamedSourceKey {
        renamedHit := true;
      }
      assert keys[..i + 1] == keys[..i] + [keys[i]];
      i := i + 1;
    }
    assert keys[..i] == keys;
  }

  /** The rest of Init once the required members are read: the optional members, the
      separator character, and the loop over the keys for the overwrite flags. */
  method Assemble(base: Settings, config: Value, sk: string, separator: string, quote: char, keys: seq<string>)
    returns (s: Settings)
    ensures s == Assembled(base, config, sk, separator, quote, keys)
  {
    var allowing := OptionalBool(config, "AllowingShortenedFields", base.allowingShortenedFields);
    var treatment := ParseTreatment(OptionalString(config, "OverflowedFieldsTreatment", ""), base.treatment);
    var options := ReadOptions(base.options, config);
    var separatorChar := if separator != [] then separator[0] else '\t';
    var sourceKeyOverwritten := base.sourceKeyOverwritten;
    var rawLogTagOverwritten := base.rawLogTagOverwritten;
    if options.keepingSourceWhenParseSucceed && options.renamedSourceKey == sk {
      sourceKeyOverwritten := true;
    }
    sourceKeyOverwritten, rawLogTagOverwritten :=
      ScanKeys(keys, sk, options.renamedSourceKey, sourceKeyOverwritten, rawLogTagOverwritten);
    ghost var e := Assembled(base, config, sk, separator, quote, keys);
    assert e.options == options && e.treatment == treatment && e.allowingShortenedFields == allowing;
    assert e.sourceKeyOverwritten == sourceKeyOverwritten;
    assert e.rawLogTagOverwritten == rawLogTagOverwritten;
    s := Settings(sk, separator, quote, keys, allowing, treatment, options, separatorChar,
                  sourceKeyOverwritten, rawLogTagOverwritten, treatment == Extend, treatment == Discard);
  }

  /** The reading part of Init, step by step: each option in turn, the first failure
      ending it, then the derived flags, with the loop over the keys. */
  method ReadSettings(base: Settings, config: Value) returns (r: Result<Settings, InitError>)
    ensures r == Configure(base, config)
  {
    var sk := StringMember(config, "SourceKey");
    if sk.None? {
      return Err(MissingSourceKey);
    }
    var sep := StringMember(config, "Separator");
    if sep.None? {
      return Err(MissingSeparator);
    }
    if |sep.value| > 3 {
      return Err(SeparatorTooLong);
    }
    var separator := sep.value;
    if separator == "\\t" {
      separator := "\t";
    }
    var quote := base.quote;
    if |separator| == 1 {
      var q := QuoteOption(config, base.quote);
      if q.None? {
        return Err(BadQuote);
      }
      quote := q.value;
    }
    var keys := StringListMember(config, "Keys");
    if keys.None? {
      return Err(MissingKeys);
    }
    var s := Assemble(base, config, sk.value, separator, quote, keys.value);
    return Ok(s);
  }

  // ---------------------------------------------------------------------------------
  // Trimming the value

  predicate IsTrailingBlank(c: char) { c == ' ' || c == '\r' }

  /** The end of the value once trailing spaces and carriage returns are cut. */
  function TrimEnd(v: string): (e: nat)
    ensures e <= |v|
    ensures forall i :: e <= i < |v| ==> IsTrailingBlank(v[i])
    ensures e == 0 || !IsTrailingBlank(v[e - 1])
  {
    if v == [] || !IsTrailingBlank(v[|v| - 1]) then |v| else TrimEnd(v[..|v| - 1])
  }

  /** The start of the span [0, e) once leading spaces are cut. */
  function TrimBegin(v: string, e: nat): (b: nat)
    requires e <= |v|
    ensures b <= e
    ensures forall i :: 0 <= i < b ==> v[i] == ' '
    ensures b == e || v[b] != ' '
    decreases e
  {
    if e == 0 || v[0] != ' ' then 0 else 1 + TrimBegin(v[1..], e - 1)
  }

  /** The two trimming loops of ProcessEvent: the span of the value left once trailing
      spaces and carriage returns, then leading spaces, are cut. */
  method TrimSpan(v: string) returns (begIdx: nat, endIdx: nat)
    ensures begIdx <= endIdx <= |v|
    ensures forall i :: endIdx <= i < |v| ==> IsTrailingBlank(v[i])
    ensures endIdx == 0 || !IsTrailingBlank(v[endIdx - 1])
    ensures forall i :: 0 <= i < begIdx ==> v[i] == ' '
    ensures begIdx == endIdx || v[begIdx] != ' '
    ensures endIdx == TrimEnd(v) && begIdx == TrimBegin(v, endIdx)
  {
    endIdx := |v|;
    var i := |v| - 1;
    while i >= 0
      invariant -1 <= i < |v| && endIdx == i + 1
      invariant forall k :: endIdx <= k < |v| ==> IsTrailingBlank(v[k])
    {
      if IsTrailingBlank(v[i]) {
        endIdx := i;
      } else {
        break;
      }
      i := i - 1;
    }
    begIdx := 0;
    var j := 0;
    while j < endIdx
      invariant 0 <= j <= endIdx && begIdx == j
      invariant forall k :: 0 <= k < begIdx ==> v[k] == ' '
    {
      if v[j] == ' ' {
        begIdx := j + 1;
      } else {
        break;
      }
      j := j + 1;
    }
    TrimEndUnique(v, endIdx);
    TrimBeginUnique(v, endIdx, begIdx);
  }

  /** TrimEnd is the only end with blanks after it and none just before it. */
  lemma TrimEndUnique(v: string, e: nat)
    requires e <= |v| && (forall i :: e <= i < |v| ==> IsTrailingBlank(v[i]))
    requires e == 0 || !IsTrailingBlank(v[e - 1])
    ensures e == TrimEnd(v)
  {
  }

  /** TrimBegin is the only start with spaces before it and none at it. */
  lemma TrimBeginUnique(v: string, e: nat, b: nat)
    requires b <= e <= |v| && (forall i :: 0 <= i < b ==> v[i] == ' ')
    requires b == e || v[b] != ' '
    ensures b == TrimBegin(v, e)
  {
  }

  // ---------------------------------------------------------------------------------
  // Splitting without quotes

  /** SplitString: the loop that pushes a column per separator found in the span. */
  method SplitString(s: string, sep: string, nKeys: nat, autoExtend: bool, begIdx: nat, endIdx: nat)
    returns (ok: bool, cols: seq<Column>)
    requires endIdx <= |s|
    ensures (ok, cols) == SplitColumns(s, sep, nKeys, autoExtend, begIdx, endIdx)
  {
    if endIdx <= begIdx || |sep| == 0 || nKeys == 0 {
      return false, [];
    }
    var size := endIdx - begIdx;
    var dSize := |sep|;
    if dSize > size {
      return true, [Column(begIdx, size)];
    }
    cols := [];
    var pos := begIdx;
    var top := endIdx - dSize;
    while pos <= top
      invariant pos <= endIdx
      invariant Remaining(s, sep, nKeys, autoExtend, endIdx, begIdx, 0)
             == cols + Remaining(s, sep, nKeys, autoExtend, endIdx, pos, |cols|)
      decreases endIdx - pos
    {
      var pos2 := NextSeparator(s, endIdx, sep, endIdx, pos);
      SplitEnds(s, sep, nKeys, autoExtend, begIdx, endIdx, cols, pos);
      if pos2 == endIdx {
        return true, cols + [Column(pos, pos2 - pos)];
      }
      if |cols| + 1 >= nKeys && !autoExtend {
        return true, cols + [Column(pos, pos2 - pos), Column(pos2, endIdx - pos2)];
      }
      SplitTurn(s, sep, nKeys, autoExtend, begIdx, endIdx, cols, pos, pos2);
      cols := cols + [Column(pos, pos2 - pos)];
      pos := pos2 + dSize;
    }
    SplitEnds(s, sep, nKeys, autoExtend, begIdx, endIdx, cols, pos);
    if pos <= endIdx {
      cols := cols + [Column(pos, endIdx - pos)];
    }
    return true, cols;
  }

  /** The texts of the columns, in order. */
  function Texts(v: string, cols: seq<Column>): (r: seq<string>)
    ensures |r| == |cols|
    ensures forall i :: 0 <= i < |cols| ==> r[i] == Text(v, cols[i])
  {
    if cols == [] then [] else Texts(v, cols[..|cols| - 1]) + [Text(v, cols[|cols| - 1])]
  }

  // ---------------------------------------------------------------------------------
  // Packing the extra quoted columns

  /** The extra columns, each preceded by the separator character, run together. */
  function PackedExtra(extras: seq<string>, c: char): string
  {
    if extras == [] then "" else PackedExtra(extras[..|extras| - 1], c) + [c] + extras[|extras| - 1]
  }

  /** One separator character per extra column plus the columns' lengths: the length
      of the buffer that holds the packed columns. */
  function RequiredLen(extras: seq<string>): nat
  {
    if extras == [] then 0 else RequiredLen(extras[..|extras| - 1]) + 1 + |extras[|extras| - 1]|
  }

  lemma {:induction false} PackedExtraLength(extras: seq<string>, c: char)
    ensures |PackedExtra(extras, c)| == RequiredLen(extras)
  {
    if extras != [] {
      PackedExtraLength(extras[..|extras| - 1], c);
    }
  }

  /** The packed extras are the separator followed by the extras joined with it, so
      splitting what follows the first character gives the extras back when none of
      them holds the separator. */
  lemma {:induction false} PackedExtraJoin(extras: seq<string>, c: char)
    requires |extras| >= 1
    ensures PackedExtra(extras, c) == [c] + Join([c], extras)
  {
    if |extras| > 1 {
      var front := extras[..|extras| - 1];
      PackedExtraJoin(front, c);
      JoinSnoc([c], front, extras[|extras| - 1]);
      assert front + [extras[|extras| - 1]] == extras;
    } else {
      assert PackedExtra(extras, c) == PackedExtra([], c) + [c] + extras[0];
    }
  }

  /** Joining with one more piece at the end. */
  lemma {:induction false} JoinSnoc(sep: string, parts: seq<string>, last: string)
    requires |parts| >= 1
    ensures Join(sep, parts + [last]) == Join(sep, parts) + sep + last
    decreases |parts|
  {
    var all := parts + [last];
    assert all[1..] == parts[1..] + [last];
    if |parts| > 1 {
      JoinSnoc(sep, parts[1..], last);
    } else {
      assert all[1..] == [last];
    }
  }

  lemma PackedExtraSplits(extras: seq<string>, c: char)
    requires |extras| >= 1
    requires forall e :: e in extras ==> c !in e
    ensures Split(PackedExtra(extras, c)[1..], c) == extras
  {
    PackedExtraJoin(extras, c);
    assert PackedExtra(extras, c)[1..] == Join([c], extras);
    SplitJoin(extras, c);
  }

  /** The column list after packing: the first nKeys columns, then one column holding
      the rest. */
  function PackColumns(vals: seq<string>, nKeys: nat, c: char): (r: seq<string>)
    requires nKeys < |vals|
    ensures |r| == nKeys + 1 && r[..nKeys] == vals[..nKeys]
  {
    vals[..nKeys] + [PackedExtra(vals[nKeys..], c)]
  }

  /** The packing of lines 186-202: the length of the extra buffer, then its contents. */
  method PackExtraFields(vals: seq<string>, nKeys: nat, c: char) returns (r: seq<string>, requiredLen: nat)
    requires nKeys < |vals|
    ensures r == PackColumns(vals, nKeys, c)
    ensures requiredLen == |r[nKeys]|
  {
    requiredLen := 0;
    var i := nKeys;
    while i < |vals|
      invariant nKeys <= i <= |vals|
      invariant requiredLen == RequiredLen(vals[nKeys..i])
    {
      assert vals[nKeys..i + 1][..i - nKeys] == vals[nKeys..i];
      requiredLen := requiredLen + 1 + |vals[i]|;
      i := i + 1;
    }
    var extra: string := "";
    i := nKeys;
    while i < |vals|
      invariant nKeys <= i <= |vals|
      invariant extra == PackedExtra(vals[nKeys..i], c)
    {
      assert vals[nKeys..i + 1][..i - nKeys] == vals[nKeys..i];
      extra := extra + [c] + vals[i];
      i := i + 1;
    }
    assert vals[nKeys..i] == vals[nKeys..];
    PackedExtraLength(vals[nKeys..], c);
    r := vals[..nKeys] + [extra];
  }

  // ---------------------------------------------------------------------------------
  // The decision table of ProcessEvent

  /** The kinds of event a group holds; only log events are parsed. */
  datatype Event = LogEvent(contents: Contents) | OtherEvent

  /** The parse, error, size and discard counters the processor bumps. */
  datatype Counters = Counters(
    parseFailures: nat,
    logGroupSize: nat,
    parseInSizeBytes: nat,
    parseOutSizeBytes: nat,
    discardRecordsTotal: nat,
    parseErrorTotal: nat)

  const NoCounts: Counters := Counters(0, 0, 0, 0, 0, 0)

  function Plus(a: Counters, b: Counters): Counters
  {
    Counters(a.parseFailures + b.parseFailures, a.logGroupSize + b.logGroupSize,
             a.parseInSizeBytes + b.parseInSizeBytes, a.parseOutSizeBytes + b.parseOutSizeBytes,
             a.discardRecordsTotal + b.discardRecordsTotal, a.parseErrorTotal + b.parseErrorTotal)
  }

  /** Columns are split with the quote-aware parser only for a one-character separator
      that differs from the quote. */
  predicate UseQuote(st: Settings)
  {
    |st.separator| == 1 && st.quote != st.separatorChar
  }

  /** The columns of the span [b, e) of v and whether the splitter succeeded. */
  function SplitValue(st: Settings, fsm: QuoteParser, v: string, b: nat, e: nat): (bool, seq<string>)
    requires e <= |v|
  {
    if UseQuote(st) then
      var (ok, vals) := fsm(st.quote, st.separatorChar, v, b, e);
      (ok, if !st.autoExtend && |vals| > |st.keys| then PackColumns(vals, |st.keys|, st.separatorChar) else vals)
    else
      var (ok, cols) := SplitColumns(v, st.separator, |st.keys|, st.autoExtend, b, e);
      (ok, Texts(v, cols))
  }

  /** The splitting part of ParseBuffer: the quote-aware parser, with the extra columns
      packed when they are not extended, or SplitString. */
  method SplitSpan(st: Settings, fsm: QuoteParser, buffer: string, begIdx: nat, endIdx: nat)
    returns (ok: bool, vals: seq<string>)
    requires endIdx <= |buffer|
    ensures (ok, vals) == SplitValue(st, fsm, buffer, begIdx, endIdx)
  {
    if |st.separator| == 1 && st.quote != st.separatorChar {
      var r := fsm(st.quote, st.separatorChar, buffer, begIdx, endIdx);
      ok, vals := r.0, r.1;
      if !st.autoExtend && |vals| > |st.keys| {
        var requiredLen;
        vals, requiredLen := PackExtraFields(vals, |st.keys|, st.separatorChar);
      }
    } else {
      var cols;
      ok, cols := SplitString(buffer, st.separator, |st.keys|, st.autoExtend, begIdx, endIdx);
      vals := Texts(buffer, cols);
    }
  }

  /** Whether the parse of the span [b, e) succeeds, and its columns. */
  function ParseSpan(st: Settings, fsm: QuoteParser, v: string, b: nat, e: nat): (r: (bool, seq<string>))
    requires e <= |v|
    ensures r.0 ==> |st.keys| > 0 && |r.1| > 0 && (st.allowingShortenedFields || |r.1| >= |st.keys|)
    ensures |st.keys| == 0 ==> !r.0
  {
    if |st.keys| == 0 then (false, [])
    else
      var (ok, vals) := SplitValue(st, fsm, v, b, e);
      (ok && |vals| > 0 && (st.allowingShortenedFields || |vals| >= |st.keys|), vals)
  }

  /** Whether column i is left out: discard mode drops extra columns and those named "_". */
  predicate Skipped(st: Settings, i: nat)
  {
    st.extractPartialFields && (i >= |st.keys| || st.keys[i] == DiscardedFieldKey)
  }

  /** The key column i is stored under: its configured key, or "__column<i>__". */
  function ColumnKey(st: Settings, i: nat): string
  {
    if i < |st.keys| then st.keys[i] else "__column" + NatToString(i) + "__"
  }

  /** The writes of the first n columns, in order. */
  function ColumnWrites(st: Settings, vals: seq<string>, n: nat): (ws: seq<(string, string)>)
    requires n <= |vals|
    ensures |ws| <= n
  {
    if n == 0 then []
    else ColumnWrites(st, vals, n - 1) + (if Skipped(st, n - 1) then [] else [(ColumnKey(st, n - 1), vals[n - 1])])
  }

  /** Every AddLog of ProcessEvent, in order, for a value v whose parse has the given outcome. */
  function EventWrites(st: Settings, v: string, parsed: bool, vals: seq<string>): seq<(string, string)>
  {
    FrontWrites(st, v, parsed, vals) + RenamedWrites(st, v, parsed)
  }

  /** The columns of a parse that succeeded, or else the raw log when it is kept or copied. */
  function FrontWrites(st: Settings, v: string, parsed: bool, vals: seq<string>): seq<(string, string)>
  {
    if parsed then ColumnWrites(st, vals, |vals|)
    else if st.options.keepingSourceWhenParseFail || st.options.copingRawLog then [(UnmatchLogKey, v)]
    else []
  }

  /** The source field under its renamed key, when the source is kept. */
  function RenamedWrites(st: Settings, v: string, parsed: bool): seq<(string, string)>
  {
    var o := st.options;
    if (parsed || o.keepingSourceWhenParseFail) && o.keepingSourceWhenParseSucceed && (!parsed || !st.rawLogTagOverwritten)
    then [(o.renamedSourceKey, v)]
    else []
  }


  /** SetContent for each write in turn: a later write to a key replaces an earlier one. */
  function ApplyWrites(c: Contents, ws: seq<(string, string)>): Contents
  {
    if ws == [] then c else ApplyWrites(c, ws[..|ws| - 1])[ws[|ws| - 1].0 := ws[|ws| - 1].1]
  }

  /** The bytes AddLog reports for the writes: key and value sizes. */
  function OutBytes(ws: seq<(string, string)>): nat
  {
    if ws == [] then 0 else OutBytes(ws[..|ws| - 1]) + |ws[|ws| - 1].0| + |ws[|ws| - 1].1|
  }

  /** What AddLog adds to the log group size: key and value sizes plus 5 per write. */
  function GroupBytes(ws: seq<(string, string)>): nat
  {
    if ws == [] then 0 else GroupBytes(ws[..|ws| - 1]) + |ws[|ws| - 1].0| + |ws[|ws| - 1].1| + 5
  }

  /** The outcome of ProcessEvent: whether the event stays, the event afterwards, and
      what is added to the counters. */
  datatype Outcome = Outcome(keep: bool, event: Event, delta: Counters)

  function EventOutcome(st: Settings, fsm: QuoteParser, e: Event): Outcome
  {
    if !e.LogEvent? || st.sourceKey !in e.contents then Outcome(true, e, NoCounts)
    else
      var v := e.contents[st.sourceKey];
      var endIdx := TrimEnd(v);
      var begIdx := TrimBegin(v, endIdx);
      var inDelta := NoCounts.(parseInSizeBytes := |v|);
      if begIdx >= endIdx then Outcome(true, e, inDelta)
      else
        var (parsed, vals) := ParseSpan(st, fsm, v, begIdx, endIdx);
        var ws := EventWrites(st, v, parsed, vals);
        var written := ApplyWrites(e.contents, ws);
        var keep := parsed || st.options.keepingSourceWhenParseFail;
        var contents := if parsed && !st.sourceKeyOverwritten then written - {st.sourceKey} else written;
        var failed := if parsed then 0 else 1;
        Outcome(keep, LogEvent(contents),
                Counters(failed, GroupBytes(ws), |v|, OutBytes(ws), if keep then 0 else 1, failed))
  }

  /** The events Process leaves in the group, in order. */
  function Survivors(st: Settings, fsm: QuoteParser, es: seq<Event>): (r: seq<Event>)
    ensures |r| <= |es|
  {
    if es == [] then []
    else
      var o := EventOutcome(st, fsm, es[|es| - 1]);
      Survivors(st, fsm, es[..|es| - 1]) + (if o.keep then [o.event] else [])
  }

  /** What Process adds to the counters. */
  function TotalDelta(st: Settings, fsm: QuoteParser, es: seq<Event>): Counters
  {
    if es == [] then NoCounts
    else Plus(TotalDelta(st, fsm, es[..|es| - 1]), EventOutcome(st, fsm, es[|es| - 1]).delta)
  }

  // ---------------------------------------------------------------------------------
  // The processor state

  /** The counters the processor bumps, shared with the pipeline's profile. */
  class Metrics {
    var parseFailures: nat
    var logGroupSize: nat
    var parseInSizeBytes: nat
    var parseOutSizeBytes: nat
    var discardRecordsTotal: nat
    var parseErrorTotal: nat

    function Counts(): Counters
      reads this
    {
      Counters(parseFailures, logGroupSize, parseInSizeBytes, parseOutSizeBytes, discardRecordsTotal, parseErrorTotal)
    }

    constructor()
      ensures Counts() == NoCounts
    {
      parseFailures, logGroupSize, parseInSizeBytes := 0, 0, 0;
      parseOutSizeBytes, discardRecordsTotal, parseErrorTotal := 0, 0, 0;
    }
  }

  /** A group of events that Process filters in place. */
  class EventGroup {
    var events: seq<Event>

    constructor(events: seq<Event>)
      ensures this.events == events
    {
      this.events := events;
    }
  }

  class Processor {
    var settings: Settings
    var fsm: QuoteParser
    var metrics: Metrics

    constructor(fsm: QuoteParser)
      ensures settings == DefaultSettings() && this.fsm == fsm
      ensures fresh(metrics) && metrics.Counts() == NoCounts
    {
      settings := DefaultSettings();
      this.fsm := fsm;
      metrics := new Metrics();
    }

    /** Reads the options; false on the first one that is missing or invalid. */
    method Init(config: Value) returns (ok: bool)
      modifies this
      ensures fsm == old(fsm) && metrics == old(metrics)
      ensures ok <==> Configure(old(settings), config).Ok?
      ensures ok ==> settings == Configure(old(settings), config).value
    {
      var r := ReadSettings(settings, config);
      if r.Err? {
        return false;
      }
      settings := r.value;
      return true;
    }

    /** Sets key to value in the event and accounts for the bytes written. */
    method AddLog(key: string, value: string, contents: Contents) returns (r: Contents)
      modifies metrics
      ensures r == contents[key := value]
      ensures metrics.Counts() == old(metrics.Counts()).(
        logGroupSize := old(metrics.logGroupSize) + |key| + |value| + 5,
        parseOutSizeBytes := old(metrics.parseOutSizeBytes) + |key| + |value|)
    {
      r := contents[key := value];
      metrics.logGroupSize := metrics.logGroupSize + |key| + |value| + 5;
      metrics.parseOutSizeBytes := metrics.parseOutSizeBytes + |key| + |value|;
    }

    /** Counts one failed parse. */
    method CountParseError()
      modifies metrics
      ensures metrics.Counts() == old(metrics.Counts()).(
        parseFailures := old(metrics.parseFailures) + 1,
        parseErrorTotal := old(metrics.parseErrorTotal) + 1)
    {
      metrics.parseErrorTotal := metrics.parseErrorTotal + 1;
      metrics.parseFailures := metrics.parseFailures + 1;
    }

    /** Splits the trimmed span and applies the column-count rule. */
    method ParseBuffer(buffer: string, begIdx: nat, endIdx: nat) returns (parseSuccess: bool, vals: seq<string>)
      requires begIdx < endIdx <= |buffer|
      modifies metrics
      ensures (parseSuccess, vals) == ParseSpan(settings, fsm, buffer, begIdx, endIdx)
      ensures metrics.Counts() == Plus(old(metrics.Counts()), NoCounts.(
        parseFailures := if parseSuccess then 0 else 1,
        parseErrorTotal := if parseSuccess then 0 else 1))
    {
      if |settings.keys| > 0 {
        parseSuccess, vals := SplitSpan(settings, fsm, buffer, begIdx, endIdx);
        if parseSuccess {
          if |vals| <= 0 || (!settings.allowingShortenedFields && |vals| < |settings.keys|) {
            CountParseError();
            parseSuccess := false;
          }
        } else {
          CountParseError();
        }
      } else {
        vals := [];
        CountParseError();
        parseSuccess := false;
      }
    }

    /** AddLog for every column kept by the parse, in column order. */
    method WriteColumns(vals: seq<string>, contents: Contents) returns (r: Contents)
      modifies metrics
      ensures r == ApplyWrites(contents, ColumnWrites(settings, vals, |vals|))
      ensures metrics.Counts() == Plus(old(metrics.Counts()), WriteDelta(ColumnWrites(settings, vals, |vals|)))
    {
      ghost var st := settings;
      ghost var c0 := metrics.Counts();
      r := contents;
      var idx := 0;
      while idx < |vals|
        invariant 0 <= idx <= |vals|
        invariant r == ApplyWrites(contents, ColumnWrites(st, vals, idx))
        invariant metrics.Counts() == Plus(c0, WriteDelta(ColumnWrites(st, vals, idx)))
      {
        ghost var r0, k0 := r, metrics.Counts();
        r := WriteColumn(idx, vals[idx], r);
        WriteColumnStep(st, c0, contents, vals, idx, r0, r, k0, metrics.Counts());
        idx := idx + 1;
      }
    }

    /** The body of the column loop: AddLog of column idx unless it is skipped. */
    method WriteColumn(idx: nat, v: string, contents: Contents) returns (r: Contents)
      modifies metrics
      ensures Skipped(settings, idx) ==> r == contents && metrics.Counts() == old(metrics.Counts())
      ensures !Skipped(settings, idx) ==>
        var key := ColumnKey(settings, idx);
        r == contents[key := v] &&
        metrics.Counts() == Plus(old(metrics.Counts()), NoCounts.(logGroupSize := |key| + |v| + 5, parseOutSizeBytes := |key| + |v|))
    {
      r := contents;
      if idx < |settings.keys| {
        if !(settings.extractPartialFields && settings.keys[idx] == DiscardedFieldKey) {
          r := AddLog(settings.keys[idx], v, r);
        }
      } else {
        if !settings.extractPartialFields {
          var key := "__column" + NatToString(idx) + "__";
          r := AddLog(key, v, r);
        }
      }
    }

    /** The AddLog calls that follow a parse: the columns or the raw log, then the
        renamed source field. */
    method WriteRecords(buffer: string, parseSuccess: bool, vals: seq<string>, contents: Contents) returns (r: Contents)
      modifies metrics
      ensures r == ApplyWrites(contents, EventWrites(settings, buffer, parseSuccess, vals))
      ensures metrics.Counts() == Plus(old(metrics.Counts()), WriteDelta(EventWrites(settings, buffer, parseSuccess, vals)))
    {
      ghost var c0 := metrics.Counts();
      ghost var front: seq<(string, string)> := [];
      NoWrites(contents, c0);
      r := contents;
      if parseSuccess {
        r := WriteColumns(vals, r);
        front := ColumnWrites(settings, vals, |vals|);
      } else if settings.options.keepingSourceWhenParseFail || settings.options.copingRawLog {
        ghost var k := metrics.Counts();
        r := AddLog(UnmatchLogKey, buffer, r);
        WriteStep(contents, [], (UnmatchLogKey, buffer), contents, r, c0, k, metrics.Counts());
        front := [] + [(UnmatchLogKey, buffer)];
      }
      assert front == FrontWrites(settings, buffer, parseSuccess, vals);
      ghost var ws := front;
      if parseSuccess || settings.options.keepingSourceWhenParseFail {
        if settings.options.keepingSourceWhenParseSucceed && (!parseSuccess || !settings.rawLogTagOverwritten) {
          ghost var r0, k := r, metrics.Counts();
          r := AddLog(settings.options.renamedSourceKey, buffer, r);
          WriteStep(contents, front, (settings.options.renamedSourceKey, buffer), r0, r, c0, k, metrics.Counts());
          ws := front + [(settings.options.renamedSourceKey, buffer)];
        }
      }
      assert ws == front + RenamedWrites(settings, buffer, parseSuccess);
    }

    /** One event: parse its source field and decide whether it stays. */
    method ProcessEvent(e: Event) returns (keep: bool, e': Event)
      modifies metrics
      ensures keep == EventOutcome(settings, fsm, e).keep && e' == EventOutcome(settings, fsm, e).event
      ensures metrics.Counts() == Plus(old(metrics.Counts()), EventOutcome(settings, fsm, e).delta)
    {
      if !e.LogEvent? || settings.sourceKey !in e.contents {
        OutcomeUntouched(settings, fsm, e, metrics.Counts());
        return true, e;
      }
      ghost var c0 := metrics.Counts();
      var buffer := e.contents[settings.sourceKey];
      metrics.parseInSizeBytes := metrics.parseInSizeBytes + |buffer|;
      var begIdx, endIdx := TrimSpan(buffer);
      if begIdx >= endIdx {
        return true, e;
      }
      ghost var c1 := metrics.Counts();
      var parseSuccess, vals := ParseBuffer(buffer, begIdx, endIdx);
      ghost var c2 := metrics.Counts();
      var contents := WriteRecords(buffer, parseSuccess, vals, e.contents);
      ghost var written, c3 := contents, metrics.Counts();
      keep := parseSuccess || settings.options.keepingSourceWhenParseFail;
      if keep {
        if parseSuccess && !settings.sourceKeyOverwritten {
          contents := contents - {settings.sourceKey};
        }
      } else {
        CountDiscard();
      }
      e' := LogEvent(contents);
      OutcomeParsed(settings, fsm, e, buffer, begIdx, endIdx, parseSuccess, vals, written, keep, e',
                    c0, c1, c2, c3, metrics.Counts());
    }

    /** Counts one event dropped from the group. */
    method CountDiscard()
      modifies metrics
      ensures metrics.Counts() == old(metrics.Counts()).(discardRecordsTotal := old(metrics.discardRecordsTotal) + 1)
    {
      metrics.discardRecordsTotal := metrics.discardRecordsTotal + 1;
    }

    /** Runs ProcessEvent on every event and erases, in place, those it rejects. */
    method Process(group: EventGroup)
      modifies group, metrics
      ensures group.events == Survivors(settings, fsm, old(group.events))
      ensures metrics.Counts() == Plus(old(metrics.Counts()), TotalDelta(settings, fsm, old(group.events)))
    {
      if |group.events| == 0 {
        NothingToProcess(settings, fsm, group.events, metrics.Counts());
        return;
      }
      ghost var es := group.events;
      ghost var c0 := metrics.Counts();
      ghost var st, f := settings, fsm;
      ghost var outs: seq<Outcome> := [];
      var i := 0;
      while i < |group.events|
        invariant |outs| <= |es| && st == settings && f == fsm
        invariant forall k :: 0 <= k < |outs| ==> outs[k] == EventOutcome(st, f, es[k])
        invariant group.events == Kept(outs) + es[|outs|..]
        invariant i == |Kept(outs)|
        invariant metrics.Counts() == Plus(c0, SumDeltas(outs))
        decreases |es| - |outs|
      {
        ghost var o;
        i, o := ProcessAt(group, i, es, outs);
        ProcessStep(st, f, c0, es, outs, o, group.events, metrics.Counts());
        outs := outs + [o];
      }
      ProcessDone(st, f, es, outs, group.events);
    }

    /** One turn of Process's loop: ProcessEvent on the event at i, then keep it there
        or erase it. */
    method ProcessAt(group: EventGroup, i: nat, ghost es: seq<Event>, ghost outs: seq<Outcome>)
      returns (next: nat, ghost o: Outcome)
      requires |outs| < |es| && group.events == Kept(outs) + es[|outs|..] && i == |Kept(outs)|
      modifies group, metrics
      ensures o == EventOutcome(settings, fsm, es[|outs|])
      ensures group.events == Kept(outs) + (if o.keep then [o.event] else []) + es[|outs| + 1..]
      ensures next == i + (if o.keep then 1 else 0)
      ensures metrics.Counts() == Plus(old(metrics.Counts()), o.delta)
    {
      ghost var j := |outs|;
      ghost var front, rest := Kept(outs), es[j + 1..];
      SplitAt(front, es, j);
      var keep, e' := ProcessEvent(group.events[i]);
      o := EventOutcome(settings, fsm, es[j]);
      if keep {
        ReplaceAt(front, es[j], rest, e');
        group.events := group.events[i := e'];
        next := i + 1;
      } else {
        RemoveAt(front, es[j], rest);
        group.events := group.events[..i] + group.events[i + 1..];
        next := i;
        assert front + [] + rest == front + rest;
      }
    }
  }

  /** The events of the outcomes that keep theirs, in order. */
  function Kept(outs: seq<Outcome>): seq<Event>
  {
    if outs == [] then []
    else Kept(outs[..|outs| - 1]) + (if outs[|outs| - 1].keep then [outs[|outs| - 1].event] else [])
  }

  /** The sum of the outcomes' counter deltas. */
  function SumDeltas(outs: seq<Outcome>): Counters
  {
    if outs == [] then NoCounts else Plus(SumDeltas(outs[..|outs| - 1]), outs[|outs| - 1].delta)
  }

  lemma KeptSnoc(outs: seq<Outcome>, o: Outcome)
    ensures Kept(outs + [o]) == Kept(outs) + (if o.keep then [o.event] else [])
    ensures SumDeltas(outs + [o]) == Plus(SumDeltas(outs), o.delta)
  {
    assert (outs + [o])[..|outs|] == outs;
  }

  /** One more outcome extends the kept events and the summed counters. */
  lemma ProcessStep(st: Settings, fsm: QuoteParser, c0: Counters, es: seq<Event>, outs: seq<Outcome>, o: Outcome,
                     events: seq<Event>, counts: Counters)
    requires |outs| < |es|
    requires forall k :: 0 <= k < |outs| ==> outs[k] == EventOutcome(st, fsm, es[k])
    requires o == EventOutcome(st, fsm, es[|outs|])
    requires events == Kept(outs) + (if o.keep then [o.event] else []) + es[|outs| + 1..]
    requires counts == Plus(Plus(c0, SumDeltas(outs)), o.delta)
    ensures events == Kept(outs + [o]) + es[|outs + [o]|..]
    ensures |Kept(outs + [o])| == |Kept(outs)| + (if o.keep then 1 else 0)
    ensures counts == Plus(c0, SumDeltas(outs + [o]))
    ensures forall k :: 0 <= k < |outs + [o]| ==> (outs + [o])[k] == EventOutcome(st, fsm, es[k])
  {
    KeptSnoc(outs, o);
    PlusAssoc(c0, SumDeltas(outs), o.delta);
  }

  /** An empty group keeps no event and counts nothing. */
  lemma NothingToProcess(st: Settings, fsm: QuoteParser, es: seq<Event>, c: Counters)
    requires |es| == 0
    ensures Survivors(st, fsm, es) == es && Plus(c, TotalDelta(st, fsm, es)) == c
  {
    assert es == [];
  }

  /** When the loop has passed every event, the group holds the survivors. */
  lemma ProcessDone(st: Settings, fsm: QuoteParser, es: seq<Event>, outs: seq<Outcome>, events: seq<Event>)
    requires |outs| <= |es| && events == Kept(outs) + es[|outs|..] && |Kept(outs)| >= |events|
    requires forall k :: 0 <= k < |outs| ==> outs[k] == EventOutcome(st, fsm, es[k])
    ensures events == Survivors(st, fsm, es)
    ensures SumDeltas(outs) == TotalDelta(st, fsm, es)
  {
    assert es[|outs|..] == [];
    SurvivorsOfOutcomes(st, fsm, es, outs);
  }

  /** Survivors and TotalDelta are Kept and SumDeltas of the events' outcomes. */
  lemma {:induction false} SurvivorsOfOutcomes(st: Settings, fsm: QuoteParser, es: seq<Event>, outs: seq<Outcome>)
    requires |outs| == |es|
    requires forall k :: 0 <= k < |outs| ==> outs[k] == EventOutcome(st, fsm, es[k])
    ensures Survivors(st, fsm, es) == Kept(outs)
    ensures TotalDelta(st, fsm, es) == SumDeltas(outs)
  {
    if es != [] {
      var n := |es| - 1;
      SurvivorsOfOutcomes(st, fsm, es[..n], outs[..n]);
    }
  }

  lemma SplitAt<T>(front: seq<T>, s: seq<T>, j: nat)
    requires j < |s|
    ensures front + s[j..] == front + [s[j]] + s[j + 1..]
  {
    assert s[j..] == [s[j]] + s[j + 1..];
  }

  lemma ReplaceAt<T>(front: seq<T>, y: T, rest: seq<T>, x: T)
    ensures (front + [y] + rest)[|front| := x] == front + [x] + rest
  {
  }

  lemma RemoveAt<T>(front: seq<T>, y: T, rest: seq<T>)
    ensures (front + [y] + rest)[..|front|] + (front + [y] + rest)[|front| + 1..] == front + rest
  {
    assert (front + [y] + rest)[..|front|] == front;
    assert (front + [y] + rest)[|front| + 1..] == rest;
  }

  /** What AddLog adds to the counters for the writes ws. */
  function WriteDelta(ws: seq<(string, string)>): Counters
  {
    NoCounts.(logGroupSize := GroupBytes(ws), parseOutSizeBytes := OutBytes(ws))
  }

  lemma PlusAssoc(a: Counters, b: Counters, c: Counters)
    ensures Plus(Plus(a, b), c) == Plus(a, Plus(b, c))
  {
  }

  /** An event without the source field is kept as it is and counts nothing. */
  lemma OutcomeUntouched(st: Settings, fsm: QuoteParser, ev: Event, c: Counters)
    requires !ev.LogEvent? || st.sourceKey !in ev.contents
    ensures EventOutcome(st, fsm, ev) == Outcome(true, ev, NoCounts) && Plus(c, NoCounts) == c
  {
  }

  /** The counters and the event ProcessEvent leaves after a parse, step by step, are
      those of EventOutcome. */
  lemma OutcomeParsed(st: Settings, fsm: QuoteParser, ev: Event, v: string, b: nat, e: nat,
                      parsed: bool, vals: seq<string>, written: Contents, keep: bool, ev': Event,
                      c0: Counters, c1: Counters, c2: Counters, c3: Counters, c4: Counters)
    requires ev.LogEvent? && st.sourceKey in ev.contents && v == ev.contents[st.sourceKey]
    requires e == TrimEnd(v) && b == TrimBegin(v, e) && b < e
    requires (parsed, vals) == ParseSpan(st, fsm, v, b, e)
    requires written == ApplyWrites(ev.contents, EventWrites(st, v, parsed, vals))
    requires keep == (parsed || st.options.keepingSourceWhenParseFail)
    requires ev' == LogEvent(if keep && parsed && !st.sourceKeyOverwritten then written - {st.sourceKey} else written)
    requires c1 == c0.(parseInSizeBytes := c0.parseInSizeBytes + |v|)
    requires c2 == Plus(c1, NoCounts.(parseFailures := if parsed then 0 else 1, parseErrorTotal := if parsed then 0 else 1))
    requires c3 == Plus(c2, WriteDelta(EventWrites(st, v, parsed, vals)))
    requires c4 == if keep then c3 else c3.(discardRecordsTotal := c3.discardRecordsTotal + 1)
    ensures keep == EventOutcome(st, fsm, ev).keep && ev' == EventOutcome(st, fsm, ev).event
    ensures c4 == Plus(c0, EventOutcome(st, fsm, ev).delta)
  {
    EventOutcomeOfParse(st, fsm, ev, v, b, e, parsed, vals);
  }

  /** EventOutcome of an event whose trimmed source field [b, e) is not empty, in terms
      of the parse of that span. */
  lemma EventOutcomeOfParse(st: Settings, fsm: QuoteParser, ev: Event, v: string, b: nat, e: nat,
                            parsed: bool, vals: seq<string>)
    requires ev.LogEvent? && st.sourceKey in ev.contents && v == ev.contents[st.sourceKey]
    requires e == TrimEnd(v) && b == TrimBegin(v, e) && b < e
    requires (parsed, vals) == ParseSpan(st, fsm, v, b, e)
    ensures var ws := EventWrites(st, v, parsed, vals);
            var keep := parsed || st.options.keepingSourceWhenParseFail;
            var written := ApplyWrites(ev.contents, ws);
            var failed := if parsed then 0 else 1;
            EventOutcome(st, fsm, ev) ==
              Outcome(keep, LogEvent(if parsed && !st.sourceKeyOverwritten then written - {st.sourceKey} else written),
                      Counters(failed, GroupBytes(ws), |v|, OutBytes(ws), if keep then 0 else 1, failed))
  {
  }

  /** One more column: its write, unless it is skipped, follows the earlier ones. */
  lemma ColumnWritesStep(st: Settings, vals: seq<string>, n: nat)
    requires n < |vals|
    ensures !Skipped(st, n) ==> ColumnWrites(st, vals, n + 1) == ColumnWrites(st, vals, n) + [(ColumnKey(st, n), vals[n])]
    ensures Skipped(st, n) ==> ColumnWrites(st, vals, n + 1) == ColumnWrites(st, vals, n)
  {
    assert ColumnWrites(st, vals, n) + [] == ColumnWrites(st, vals, n);
  }

  /** One turn of WriteColumns's loop keeps its invariant. */
  lemma WriteColumnStep(st: Settings, c0: Counters, contents: Contents, vals: seq<string>, idx: nat,
                        r: Contents, r': Contents, counts: Counters, counts': Counters)
    requires idx < |vals|
    requires r == ApplyWrites(contents, ColumnWrites(st, vals, idx))
    requires counts == Plus(c0, WriteDelta(ColumnWrites(st, vals, idx)))
    requires Skipped(st, idx) ==> r' == r && counts' == counts
    requires !Skipped(st, idx) ==>
      var key := ColumnKey(st, idx);
      r' == r[key := vals[idx]] &&
      counts' == Plus(counts, NoCounts.(logGroupSize := |key| + |vals[idx]| + 5, parseOutSizeBytes := |key| + |vals[idx]|))
    ensures r' == ApplyWrites(contents, ColumnWrites(st, vals, idx + 1))
    ensures counts' == Plus(c0, WriteDelta(ColumnWrites(st, vals, idx + 1)))
  {
    ColumnWritesStep(st, vals, idx);
    if !Skipped(st, idx) {
      var before, w := ColumnWrites(st, vals, idx), (ColumnKey(st, idx), vals[idx]);
      WritesSnoc(contents, before, w);
      PlusAssoc(c0, WriteDelta(before), WriteDelta([w]));
    }
  }

  /** ApplyWrites, OutBytes and GroupBytes for one more write at the end. */
  /** No write leaves the contents and the counters as they are. */
  lemma NoWrites(c: Contents, c0: Counters)
    ensures ApplyWrites(c, []) == c && Plus(c0, WriteDelta([])) == c0
  {
  }

  /** One more AddLog after the writes ws. */
  lemma WriteStep(c: Contents, ws: seq<(string, string)>, w: (string, string), r: Contents, r': Contents,
                  c0: Counters, k: Counters, k': Counters)
    requires r == ApplyWrites(c, ws) && k == Plus(c0, WriteDelta(ws))
    requires r' == r[w.0 := w.1]
    requires k' == k.(logGroupSize := k.logGroupSize + |w.0| + |w.1| + 5,
                      parseOutSizeBytes := k.parseOutSizeBytes + |w.0| + |w.1|)
    ensures r' == ApplyWrites(c, ws + [w]) && k' == Plus(c0, WriteDelta(ws + [w]))
  {
    WritesSnoc(c, ws, w);
    PlusAssoc(c0, WriteDelta(ws), WriteDelta([w]));
  }

  lemma WritesSnoc(c: Contents, ws: seq<(string, string)>, w: (string, string))
    ensures ApplyWrites(c, ws + [w]) == ApplyWrites(c, ws)[w.0 := w.1]
    ensures OutBytes(ws + [w]) == OutBytes(ws) + |w.0| + |w.1|
    ensures GroupBytes(ws + [w]) == GroupBytes(ws) + |w.0| + |w.1| + 5
    ensures WriteDelta(ws + [w]) == Plus(WriteDelta(ws), WriteDelta([w]))
  {
    assert (ws + [w])[..|ws|] == ws;
    assert [w][..0] == [];
    assert GroupBytes([w]) == |w.0| + |w.1| + 5 && OutBytes([w]) == |w.0| + |w.1|;
  }
}
