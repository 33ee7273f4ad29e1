/**
 * The Prometheus text exposition parser: the loop over the lines of a scrape
 * response, the rules that skip blank and comment lines, the timestamp rule,
 * the splitting of the label text into tags, and the job and instance tags.
 *
 * The sample regular expression (RE2) and std::stod are foreign code: they
 * are fields of a Scanner passed to the operations. The clock read by the
 * one-argument Parse is a parameter.
 */
module TextParser {
  import opened Wrappers
  import opened Strings

  // Tag names of the prometheus constants header, which is not part of this
  // model; they are Prometheus' own target label names.
  const Job: string := "job"
  const Instance: string := "instance"

  /** A double as std::stod can produce it. */
  datatype Double = Finite(r: real) | Infinite(positive: bool) | NaN

  /** The capture groups of the sample expression that the parser reads. */
  datatype Captures = Captures(name: string, unwrappedLabels: string, value: string, timestamp: string)

  /** RE2::FullMatch against the sample expression (None when the line does not
      match) and std::stod (None where it throws). */
  datatype Scanner = Scanner(fullMatch: string -> Option<Captures>, stod: string -> Option<Double>)

  /** A metric event: name, timestamp in seconds, untyped value and tags. */
  datatype Metric = Metric(name: string, timestamp: int, value: Double, tags: map<string, string>)

  /** What a sample line carries before its labels are turned into tags. */
  datatype Sample = Sample(name: string, timestamp: int, value: Double, unwrappedLabels: string)

  // ---------------------------------------------------------------------------
  // One sample line
  // ---------------------------------------------------------------------------

  /** The timestamp of a sample: the default when absent, else the milliseconds
      string without its last three characters read by stol (0 when nothing is
      left); None where stol throws. */
  function TimestampOf(text: string, defaultTs: int): Option<int>
  {
    if text == [] then Some(defaultTs)
    else if |text| > 3 then Stoll(text[..|text| - 3])
    else Some(0)
  }

  /** A millisecond timestamp is read as whole seconds; a short one gives 0 and an absent one the default. */
  lemma TimestampRule(n: nat, millis: string, short: string, defaultTs: int)
    requires n <= LongMax && |millis| == 3 && AllDigits(millis)
    requires 0 < |short| <= 3
    ensures TimestampOf(NatToString(n) + millis, defaultTs) == Some(n)
    ensures TimestampOf(short, defaultTs) == Some(0)
    ensures TimestampOf("", defaultTs) == Some(defaultTs)
  {
    var text := NatToString(n) + millis;
    assert text[..|text| - 3] == NatToString(n);
    StollOfDecimal(n);
  }

  /** The checks of a sample line: it matches, has a name, a value stod reads
      and that is not NaN, and a timestamp stol reads. */
  function SampleOf(line: string, defaultTs: int, sc: Scanner): Option<Sample>
  {
    match sc.fullMatch(line)
    case None => None
    case Some(c) =>
      if c.name == [] then None
      else
        match sc.stod(c.value)
        case None => None
        case Some(v) =>
          if v.NaN? then None
          else
            match TimestampOf(c.timestamp, defaultTs)
            case None => None
            case Some(ts) => Some(Sample(c.name, ts, v, c.unwrappedLabels))
  }

  /** A line gives a sample exactly when none of the checks rejects it, and the sample carries its captures. */
  lemma SampleOfIff(line: string, defaultTs: int, sc: Scanner)
    ensures SampleOf(line, defaultTs, sc).Some? <==>
      && sc.fullMatch(line).Some?
      && sc.fullMatch(line).value.name != []
      && sc.stod(sc.fullMatch(line).value.value).Some?
      && !sc.stod(sc.fullMatch(line).value.value).value.NaN?
      && TimestampOf(sc.fullMatch(line).value.timestamp, defaultTs).Some?
    ensures SampleOf(line, defaultTs, sc).Some? ==>
      var c := sc.fullMatch(line).value;
      var s := SampleOf(line, defaultTs, sc).value;
      && s.name == c.name && s.unwrappedLabels == c.unwrappedLabels
      && Some(s.value) == sc.stod(c.value)
      && Some(s.timestamp) == TimestampOf(c.timestamp, defaultTs)
  {
  }

  // ---------------------------------------------------------------------------
  // Labels
  // ---------------------------------------------------------------------------

  /** The tag one comma-separated piece of the label text sets: after trimming
      spaces, the text before the first '=' and the rest with its quotes trimmed. */
  function LabelOf(piece: string): Option<(string, string)>
  {
    var kv := TrimString(piece, ' ', ' ');
    if '=' in kv then
      var i := IndexOf(kv, '=');
      Some((kv[..i], TrimString(kv[i + 1..], '"', '"')))
    else None
  }

  /** A key never holds '=', and a value neither starts nor ends with a quote. */
  lemma LabelShape(piece: string)
    ensures var r := LabelOf(piece);
      r.Some? ==> '=' !in r.value.0 && (r.value.1 == [] || (r.value.1[0] != '"' && r.value.1[|r.value.1| - 1] != '"'))
  {
  }

  /** A piece without '=' sets no tag. */
  lemma LabelWithoutEquals(piece: string)
    requires '=' !in piece
    ensures LabelOf(piece).None?
  {
    TrimStringWithin(piece, ' ', ' ');
  }

  /** Trimming c from the left removes exactly a run of c in front of a string that does not start with c. */
  lemma {:induction false} TrimLeftPrefix(n: nat, c: char, s: string)
    requires s == [] || s[0] != c
    ensures TrimLeft(seq(n, _ => c) + s, c) == s
  {
    if n > 0 {
      assert (seq(n, _ => c) + s)[1..] == seq(n - 1, _ => c) + s;
      TrimLeftPrefix(n - 1, c, s);
    } else {
      assert seq(n, _ => c) + s == s;
    }
  }

  /** Trimming c from the right removes a single trailing c from a string that does not end with c. */
  lemma TrimRightOne(s: string, c: char)
    requires s == [] || s[|s| - 1] != c
    ensures TrimRight(s + [c], c) == s
  {
    assert (s + [c])[..|s|] == s;
  }

  /** Trimming quotes from a quoted value gives the value back. */
  lemma Unquote(value: string)
    requires value == [] || (value[0] != '"' && value[|value| - 1] != '"')
    ensures TrimString("\"" + value + "\"", '"', '"') == value
  {
    if value == [] {
      assert "\"" + value + "\"" == "\"\"";
      assert TrimLeft("\"\"", '"') == [];
    } else {
      var tail := value + "\"";
      assert "\"" + value + "\"" == seq(1, _ => '"') + tail;
      TrimLeftPrefix(1, '"', tail);
      TrimRightOne(value, '"');
    }
  }

  /** Trimming spaces from spaces followed by a body with no space at either end gives the body. */
  lemma TrimLeadingSpaces(n: nat, body: string)
    requires body != [] && body[0] != ' ' && body[|body| - 1] != ' '
    ensures TrimString(seq(n, _ => ' ') + body, ' ', ' ') == body
  {
    TrimLeftPrefix(n, ' ', body);
  }

  /** In key=rest with no '=' in key, the first '=' ends the key. */
  lemma FirstEquals(key: string, rest: string)
    requires '=' !in key
    ensures var body := key + ['='] + rest;
      '=' in body && IndexOf(body, '=') == |key| && body[..|key|] == key && body[|key| + 1..] == rest
  {
    var body := key + ['='] + rest;
    assert body[|key|] == '=';
    assert body[..|key|] == key;
    assert body[|key| + 1..] == rest;
    IndexOfUnique(body, '=', |key|);
  }

  /** A piece written key="value", after any number of spaces, sets key to value. */
  lemma LabelOfQuoted(n: nat, key: string, value: string)
    requires '=' !in key && (key == [] || key[0] != ' ')
    requires value == [] || (value[0] != '"' && value[|value| - 1] != '"')
    ensures LabelOf(seq(n, _ => ' ') + key + ['=', '"'] + value + ['"']) == Some((key, value))
  {
    var quoted := ['"'] + value + ['"'];
    var body := key + ['='] + quoted;
    var spaces := seq(n, _ => ' ');
    calc {
      spaces + key + ['=', '"'] + value + ['"'];
      spaces + (key + ['=', '"'] + value + ['"']);
      { assert key + ['=', '"'] + value + ['"'] == key + ['='] + (['"'] + value + ['"']); }
      spaces + body;
    }
    assert body[0] != ' ' by {
      if key != [] {
        assert body[0] == key[0];
      }
    }
    assert body[|body| - 1] == '"';
    TrimLeadingSpaces(n, body);
    Unquote(value);
    assert quoted == "\"" + value + "\"";
    LabelOfTrimmed(spaces + body, key, quoted);
  }

  /** A piece that trims to key=rest, with no '=' in key, sets key to rest without its quotes. */
  lemma LabelOfTrimmed(piece: string, key: string, rest: string)
    requires '=' !in key && TrimString(piece, ' ', ' ') == key + ['='] + rest
    ensures LabelOf(piece) == Some((key, TrimString(rest, '"', '"')))
  {
    FirstEquals(key, rest);
  }

  /** The tags a sequence of pieces sets, one optional key and value per piece. */
  function PieceLabels(pieces: seq<string>): (r: seq<Option<(string, string)>>)
    ensures |r| == |pieces|
    ensures forall i :: 0 <= i < |pieces| ==> r[i] == LabelOf(pieces[i])
  {
    seq(|pieces|, i requires 0 <= i < |pieces| => LabelOf(pieces[i]))
  }

  /** SetTag for a piece that gives a tag; nothing for one that does not. */
  function SetTag(tags: map<string, string>, tag: Option<(string, string)>): map<string, string>
  {
    match tag
    case None => tags
    case Some(kv) => tags[kv.0 := kv.1]
  }

  /** Setting the tags in order over tags: a later one overrides an earlier one. */
  function Assign(tags: map<string, string>, labels: seq<Option<(string, string)>>): map<string, string>
  {
    if labels == [] then tags
    else SetTag(Assign(tags, labels[..|labels| - 1]), labels[|labels| - 1])
  }

  /** Setting one more label sets it over what the earlier ones give. */
  lemma AssignStep(tags: map<string, string>, labels: seq<Option<(string, string)>>, i: nat)
    requires i < |labels|
    ensures Assign(tags, labels[..i + 1]) == SetTag(Assign(tags, labels[..i]), labels[i])
  {
    assert labels[..i + 1][..i] == labels[..i];
  }

  /** A key is tagged exactly when it was already or some label sets it. */
  lemma {:induction false} AssignKeys(tags: map<string, string>, labels: seq<Option<(string, string)>>, k: string)
    ensures k in Assign(tags, labels) <==> k in tags || exists v :: Some((k, v)) in labels
  {
    if labels != [] {
      var front := labels[..|labels| - 1];
      var last := labels[|labels| - 1];
      assert labels == front + [last];
      AssignKeys(tags, front, k);
      if last.Some? && last.value.0 == k {
        assert Some((k, last.value.1)) in labels;
      }
      if exists v :: Some((k, v)) in labels {
        var v :| Some((k, v)) in labels;
        if Some((k, v)) != last {
          assert Some((k, v)) in front;
        }
      }
    }
  }

  /** The last label that sets a key decides its value. */
  lemma {:induction false} AssignLastWins(tags: map<string, string>, labels: seq<Option<(string, string)>>, i: nat, k: string, v: string)
    requires i < |labels| && labels[i] == Some((k, v))
    requires forall j :: i < j < |labels| ==> labels[j].None? || labels[j].value.0 != k
    ensures k in Assign(tags, labels) && Assign(tags, labels)[k] == v
  {
    var front := labels[..|labels| - 1];
    if i < |labels| - 1 {
      forall j | i < j < |front|
        ensures front[j].None? || front[j].value.0 != k
      {
        assert front[j] == labels[j];
      }
      AssignLastWins(tags, front, i, k, v);
    }
  }

  /** The tags of a sample's label text: it is split on ',' as getline splits a stream. */
  function Labels(tags: map<string, string>, unwrappedLabels: string): map<string, string>
  {
    if unwrappedLabels == [] then tags else Assign(tags, PieceLabels(GetLines(unwrappedLabels, ',')))
  }

  /** The job and instance tags, set after the labels when their arguments are not empty. */
  function TargetTags(tags: map<string, string>, jobName: string, instance: string): (r: map<string, string>)
    ensures jobName != [] ==> Job in r && r[Job] == jobName
    ensures jobName == [] ==> (Job in r <==> Job in tags) && (Job in tags ==> r[Job] == tags[Job])
    ensures instance != [] ==> Instance in r && r[Instance] == instance
    ensures instance == [] ==> (Instance in r <==> Instance in tags) && (Instance in tags ==> r[Instance] == tags[Instance])
    ensures forall k :: k != Job && k != Instance ==> (k in r <==> k in tags) && (k in tags ==> r[k] == tags[k])
  {
    var withJob := if jobName != [] then tags[Job := jobName] else tags;
    if instance != [] then withJob[Instance := instance] else withJob
  }

  /** The split loop of ParseLine: each piece's tag is set on the event in turn. */
  method SetLabelTags(tags: map<string, string>, unwrappedLabels: string) returns (r: map<string, string>)
    ensures r == Labels(tags, unwrappedLabels)
  {
    r := tags;
    if unwrappedLabels != [] {
      r := SetPieceTags(tags, GetLines(unwrappedLabels, ','));
    }
  }

  /** The loop over the pieces. */
  method SetPieceTags(tags: map<string, string>, pieces: seq<string>) returns (r: map<string, string>)
    ensures r == Assign(tags, PieceLabels(pieces))
  {
    ghost var labels := PieceLabels(pieces);
    r := tags;
    var i := 0;
    while i < |pieces|
      invariant 0 <= i <= |pieces|
      invariant r == Assign(tags, labels[..i])
    {
      AssignStep(tags, labels, i);
      r := SetPieceTag(r, pieces[i]);
      i := i + 1;
    }
    assert labels[..i] == labels;
  }

  /** The body of the split loop: trim the piece, cut it at its first '=' and unquote the value. */
  method SetPieceTag(tags: map<string, string>, piece: string) returns (r: map<string, string>)
    ensures r == SetTag(tags, LabelOf(piece))
  {
    r := tags;
    var kvPair := TrimString(piece, ' ', ' ');
    if '=' in kvPair {
      var equalsPos := IndexOf(kvPair, '=');
      var key := kvPair[..equalsPos];
      var value := TrimString(kvPair[equalsPos + 1..], '"', '"');
      assert LabelOf(piece) == Some((key, value));
      r := r[key := value];
    } else {
      assert LabelOf(piece) == None;
    }
  }

  /** ParseLine: on a sample line the event takes the name, timestamp and value and gains the line's tags; otherwise it is untouched. */
  method ParseLine(line: string, e: Metric, defaultTs: int, sc: Scanner) returns (ok: bool, r: Metric)
    ensures ok <==> SampleOf(line, defaultTs, sc).Some?
    ensures !ok ==> r == e
    ensures ok ==> var s := SampleOf(line, defaultTs, sc).value;
      r == Metric(s.name, s.timestamp, s.value, Labels(e.tags, s.unwrappedLabels))
  {
    var sample := SampleOf(line, defaultTs, sc);
    if sample.None? {
      return false, e;
    }
    var s := sample.value;
    var tags := SetLabelTags(e.tags, s.unwrappedLabels);
    return true, Metric(s.name, s.timestamp, s.value, tags);
  }

  // ---------------------------------------------------------------------------
  // The line loop
  // ---------------------------------------------------------------------------

  /** The event one line of a response gives: none for a blank line, a comment
      or a line that is not a valid sample. */
  function LineEvent(line: string, defaultTs: int, jobName: string, instance: string, sc: Scanner): Option<Metric>
  {
    var l := TrimString(line, ' ', ' ');
    if l == [] || l[0] == '#' then None
    else
      match SampleOf(l, defaultTs, sc)
      case None => None
      case Some(s) => Some(Metric(s.name, s.timestamp, s.value, TargetTags(Labels(map[], s.unwrappedLabels), jobName, instance)))
  }

  /** The events of the lines, one per line that gives one. */
  function LineEvents(lines: seq<string>, defaultTs: int, jobName: string, instance: string, sc: Scanner): (r: seq<Option<Metric>>)
    ensures |r| == |lines|
    ensures forall i :: 0 <= i < |lines| ==> r[i] == LineEvent(lines[i], defaultTs, jobName, instance, sc)
  {
    seq(|lines|, i requires 0 <= i < |lines| => LineEvent(lines[i], defaultTs, jobName, instance, sc))
  }

  /** The events present, in order. */
  function Present(es: seq<Option<Metric>>): seq<Metric>
  {
    if es == [] then []
    else
      Present(es[..|es| - 1]) + match es[|es| - 1]
        case None => []
        case Some(m) => [m]
  }

  /** The events of a response, in line order. */
  function Events(lines: seq<string>, defaultTs: int, jobName: string, instance: string, sc: Scanner): seq<Metric>
  {
    Present(LineEvents(lines, defaultTs, jobName, instance, sc))
  }

  lemma {:induction false} PresentAppend(a: seq<Option<Metric>>, b: seq<Option<Metric>>)
    ensures Present(a + b) == Present(a) + Present(b)
  {
    if b == [] {
      assert a + b == a;
    } else {
      assert (a + b)[..|a + b| - 1] == a + b[..|b| - 1];
      PresentAppend(a, b[..|b| - 1]);
    }
  }

  /** The events of a response split in two are those of the first part followed by those of the second. */
  lemma EventsAppend(a: seq<string>, b: seq<string>, defaultTs: int, jobName: string, instance: string, sc: Scanner)
    ensures Events(a + b, defaultTs, jobName, instance, sc)
      == Events(a, defaultTs, jobName, instance, sc) + Events(b, defaultTs, jobName, instance, sc)
  {
    var ea := LineEvents(a, defaultTs, jobName, instance, sc);
    var eb := LineEvents(b, defaultTs, jobName, instance, sc);
    var eab := LineEvents(a + b, defaultTs, jobName, instance, sc);
    forall i | 0 <= i < |eab|
      ensures eab[i] == (ea + eb)[i]
    {
      if i < |a| {
        assert (a + b)[i] == a[i];
      } else {
        assert (a + b)[i] == b[i - |a|];
      }
    }
    assert eab == ea + eb;
    PresentAppend(ea, eb);
  }

  /** A line that is blank or a comment once trimmed gives no event. */
  lemma BlankOrCommentGivesNothing(line: string, defaultTs: int, jobName: string, instance: string, sc: Scanner)
    requires var l := TrimString(line, ' ', ' '); l == [] || l[0] == '#'
    ensures LineEvent(line, defaultTs, jobName, instance, sc).None?
  {
  }

  /** A line that gives no event can be removed without changing the events. */
  lemma SilentLineIgnored(a: seq<string>, line: string, b: seq<string>, defaultTs: int, jobName: string, instance: string, sc: Scanner)
    requires LineEvent(line, defaultTs, jobName, instance, sc).None?
    ensures Events(a + [line] + b, defaultTs, jobName, instance, sc) == Events(a + b, defaultTs, jobName, instance, sc)
  {
    EventsAppend(a + [line], b, defaultTs, jobName, instance, sc);
    EventsAppend(a, [line], defaultTs, jobName, instance, sc);
    EventsAppend(a, b, defaultTs, jobName, instance, sc);
    SilentLineNoEvents(line, defaultTs, jobName, instance, sc);
    assert Events(a, defaultTs, jobName, instance, sc) + [] == Events(a, defaultTs, jobName, instance, sc);
  }

  lemma SilentLineNoEvents(line: string, defaultTs: int, jobName: string, instance: string, sc: Scanner)
    requires LineEvent(line, defaultTs, jobName, instance, sc).None?
    ensures Events([line], defaultTs, jobName, instance, sc) == []
  {
    var one := LineEvents([line], defaultTs, jobName, instance, sc);
    assert one[0].None?;
    assert one[..0] == [];
    assert Present(one) == [];
  }

  lemma {:induction false} PresentAllSome(es: seq<Option<Metric>>)
    requires forall i :: 0 <= i < |es| ==> es[i].Some?
    ensures |Present(es)| == |es|
    ensures forall i :: 0 <= i < |es| ==> Present(es)[i] == es[i].value
  {
    if es != [] {
      PresentAllSome(es[..|es| - 1]);
    }
  }

  /** When every line is a valid sample, there is exactly one event per line, in line order. */
  lemma EventsOnePerLine(lines: seq<string>, defaultTs: int, jobName: string, instance: string, sc: Scanner)
    requires forall i :: 0 <= i < |lines| ==> LineEvent(lines[i], defaultTs, jobName, instance, sc).Some?
    ensures |Events(lines, defaultTs, jobName, instance, sc)| == |lines|
    ensures forall i :: 0 <= i < |lines| ==>
      Events(lines, defaultTs, jobName, instance, sc)[i] == LineEvent(lines[i], defaultTs, jobName, instance, sc).value
  {
    PresentAllSome(LineEvents(lines, defaultTs, jobName, instance, sc));
  }

  lemma {:induction false} PresentAtMost(es: seq<Option<Metric>>)
    ensures |Present(es)| <= |es|
  {
    if es != [] {
      PresentAtMost(es[..|es| - 1]);
    }
  }

  /** There are never more events than lines. */
  lemma EventsAtMostLines(lines: seq<string>, defaultTs: int, jobName: string, instance: string, sc: Scanner)
    ensures |Events(lines, defaultTs, jobName, instance, sc)| <= |lines|
  {
    PresentAtMost(LineEvents(lines, defaultTs, jobName, instance, sc));
  }

  /** Parse(content, defaultTsInSecs, jobName, instance): the getline loop over the response. */
  method Parse(content: string, defaultTs: int, jobName: string, instance: string, sc: Scanner) returns (group: seq<Metric>)
    ensures group == Events(GetLines(content, '\n'), defaultTs, jobName, instance, sc)
  {
    var lines := GetLines(content, '\n');
    ghost var es := LineEvents(lines, defaultTs, jobName, instance, sc);
    group := [];
    var i := 0;
    while i < |lines|
      invariant 0 <= i <= |lines|
      invariant group == Present(es[..i])
    {
      assert es[..i + 1][..i] == es[..i];
      var line := TrimString(lines[i], ' ', ' ');
      i := i + 1;
      if line == [] || line[0] == '#' {
        continue;
      }
      var sample := SampleOf(line, defaultTs, sc);
      if sample.None? {
        continue;
      }
      var s := sample.value;
      var tags := SetLabelTags(map[], s.unwrappedLabels);
      if jobName != [] {
        tags := tags[Job := jobName];
      }
      if instance != [] {
        tags := tags[Instance := instance];
      }
      group := group + [Metric(s.name, s.timestamp, s.value, tags)];
    }
    assert es[..i] == es;
  }
}
