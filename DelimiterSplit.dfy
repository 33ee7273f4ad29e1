/** The column splitter of the delimiter log parser (SplitString), as a specification
    on positions. A column is a start position and a length in the source value. */
module DelimiterSplit {
  import opened Wrappers
  import opened Strings

  /** A column [beg, beg + len) of the value. The length is an int: the splitter as
      written can compute a negative one, which the size_t in the source wraps. */
  datatype Column = Column(beg: int, len: int)

  /** sep[k..] occurs in s at position i + k, compared character by character as strstr does. */
  predicate MatchFrom(s: string, sep: string, i: nat, k: nat)
    requires i + |sep| <= |s| && k <= |sep|
    decreases |sep| - k
  {
    k == |sep| || (s[i + k] == sep[k] && MatchFrom(s, sep, i, k + 1))
  }

  lemma {:induction false} MatchFromIsOccurrence(s: string, sep: string, i: nat, k: nat)
    requires i + |sep| <= |s| && k <= |sep|
    ensures MatchFrom(s, sep, i, k) <==> s[i + k..i + |sep|] == sep[k..]
    decreases |sep| - k
  {
    if k < |sep| {
      MatchFromIsOccurrence(s, sep, i, k + 1);
      assert s[i + k..i + |sep|] == [s[i + k]] + s[i + k + 1..i + |sep|];
      assert sep[k..] == [sep[k]] + sep[k + 1..];
    }
  }

  /** The first occurrence of sep at or after from that ends by limit. */
  function FindBefore(s: string, sep: string, from: nat, limit: nat): (r: Option<nat>)
    requires limit <= |s|
    ensures r.Some? ==> from <= r.value && r.value + |sep| <= limit
    decreases limit - from
  {
    if from + |sep| > limit then None
    else if MatchFrom(s, sep, from, 0) then Some(from)
    else FindBefore(s, sep, from + 1, limit)
  }

  /** What FindBefore finds is an occurrence, and there is none earlier. */
  lemma {:induction false} FindBeforeOccurs(s: string, sep: string, from: nat, limit: nat)
    requires limit <= |s|
    ensures var r := FindBefore(s, sep, from, limit);
      r.Some? ==> OccursAt(s, sep, r.value) && forall j :: from <= j < r.value ==> !OccursAt(s, sep, j)
    ensures FindBefore(s, sep, from, limit).None? ==> forall j :: from <= j && j + |sep| <= limit ==> !OccursAt(s, sep, j)
    decreases limit - from
  {
    if from + |sep| <= limit {
      MatchFromIsOccurrence(s, sep, from, 0);
      assert sep[0..] == sep;
      if !MatchFrom(s, sep, from, 0) {
        FindBeforeOccurs(s, sep, from + 1, limit);
      }
    }
  }

  /** Where the separator search starting at pos stops: the first occurrence that
      lies wholly before searchEnd, or endIdx when there is none. */
  function NextSeparator(s: string, searchEnd: nat, sep: string, endIdx: nat, pos: nat): (pos2: nat)
    requires searchEnd <= |s|
    ensures pos2 == endIdx || (pos <= pos2 && pos2 + |sep| <= searchEnd)
  {
    match FindBefore(s, sep, pos, searchEnd)
    case None => endIdx
    case Some(p) => p
  }

  /** A separator found before the end is an occurrence of the separator. */
  lemma NextSeparatorOccurs(s: string, searchEnd: nat, sep: string, endIdx: nat, pos: nat)
    requires searchEnd <= |s|
    ensures var pos2 := NextSeparator(s, searchEnd, sep, endIdx, pos);
      pos2 != endIdx ==> OccursAt(s, sep, pos2)
  {
    FindBeforeOccurs(s, sep, pos, searchEnd);
  }

  /** The loop of SplitString from position pos on, with count columns already taken. */
  function SplitFrom(s: string, searchEnd: nat, sep: string, nKeys: nat, autoExtend: bool,
                     endIdx: nat, pos: nat, count: nat): (cols: seq<Column>)
    requires |sep| >= 1 && searchEnd <= |s| && pos <= |s|
    decreases |s| - pos
  {
    if pos + |sep| > endIdx then
      if pos <= endIdx then [Column(pos, endIdx - pos)] else []
    else
      var pos2 := NextSeparator(s, searchEnd, sep, endIdx, pos);
      if pos2 == endIdx then [Column(pos, pos2 - pos)]
      else if count + 1 >= nKeys && !autoExtend then [Column(pos, pos2 - pos), Column(pos2, endIdx - pos2)]
      else [Column(pos, pos2 - pos)] + SplitFrom(s, searchEnd, sep, nKeys, autoExtend, endIdx, pos2 + |sep|, count + 1)
  }

  /** SplitString over the span [begIdx, endIdx), searching for separators up to searchEnd. */
  function SplitSpec(s: string, searchEnd: nat, sep: string, nKeys: nat, autoExtend: bool,
                     begIdx: nat, endIdx: nat): (r: (bool, seq<Column>))
    requires searchEnd <= |s| && endIdx <= |s|
  {
    if endIdx <= begIdx || |sep| == 0 || nKeys == 0 then (false, [])
    else if |sep| > endIdx - begIdx then (true, [Column(begIdx, endIdx - begIdx)])
    else (true, SplitFrom(s, searchEnd, sep, nKeys, autoExtend, endIdx, begIdx, 0))
  }

  /** SplitString as written: strstr runs on past endIdx into the trimmed tail of the value. */
  function SplitAsWritten(s: string, sep: string, nKeys: nat, autoExtend: bool, begIdx: nat, endIdx: nat): (bool, seq<Column>)
    requires endIdx <= |s|
  {
    SplitSpec(s, |s|, sep, nKeys, autoExtend, begIdx, endIdx)
  }

  /** SplitString as intended: separators are looked for inside the span only. */
  function SplitColumns(s: string, sep: string, nKeys: nat, autoExtend: bool, begIdx: nat, endIdx: nat): (bool, seq<Column>)
    requires endIdx <= |s|
  {
    SplitSpec(s, endIdx, sep, nKeys, autoExtend, begIdx, endIdx)
  }

  predicate InSpan(c: Column, begIdx: int, endIdx: int)
  {
    begIdx <= c.beg && 0 <= c.len && c.beg + c.len <= endIdx
  }

  predicate AllInSpan(cols: seq<Column>, begIdx: int, endIdx: int)
  {
    forall c :: c in cols ==> InSpan(c, begIdx, endIdx)
  }

  /** The text of a column; empty for a column that does not lie inside the value. */
  function Text(s: string, c: Column): string
  {
    if InSpan(c, 0, |s|) then s[c.beg..c.beg + c.len] else ""
  }

  /** The columns tile [from, to) in order: each begins where the previous one ended,
      either right after a separator occurrence or, for the overflow column that
      holds the separator itself, at that very position. */
  predicate Tiles(s: string, sep: string, cols: seq<Column>, from: int, to: int)
    decreases |cols|
  {
    if |cols| == 0 then false
    else if |cols| == 1 then cols[0] == Column(from, to - from) && from <= to
    else
      var e := from + cols[0].len;
      cols[0].beg == from && cols[0].len >= 0
      && ((cols[1].beg == e + |sep| && OccursAt(s, sep, e)) || cols[1].beg == e)
      && Tiles(s, sep, cols[1..], cols[1].beg, to)
  }

  /** One turn of the loop that neither ends it nor hits the key limit. */
  lemma SplitFromStep(s: string, searchEnd: nat, sep: string, nKeys: nat, autoExtend: bool,
                      endIdx: nat, pos: nat, count: nat, pos2: nat)
    requires |sep| >= 1 && searchEnd <= |s| && endIdx <= |s| && pos + |sep| <= endIdx
    requires pos2 == NextSeparator(s, searchEnd, sep, endIdx, pos)
    requires pos2 != endIdx && !(count + 1 >= nKeys && !autoExtend)
    ensures pos2 + |sep| <= |s|
    ensures SplitFrom(s, searchEnd, sep, nKeys, autoExtend, endIdx, pos, count)
         == [Column(pos, pos2 - pos)] + SplitFrom(s, searchEnd, sep, nKeys, autoExtend, endIdx, pos2 + |sep|, count + 1)
  {
    var rest := SplitFrom(s, searchEnd, sep, nKeys, autoExtend, endIdx, pos2 + |sep|, count + 1);
    assert SplitFrom(s, searchEnd, sep, nKeys, autoExtend, endIdx, pos, count) == [Column(pos, pos2 - pos)] + rest;
  }

  /** The turns of the loop that end it: no separator left, or the key limit reached. */
  lemma SplitFromStop(s: string, searchEnd: nat, sep: string, nKeys: nat, autoExtend: bool,
                      endIdx: nat, pos: nat, count: nat, pos2: nat)
    requires |sep| >= 1 && searchEnd <= |s| && pos <= |s|
    requires pos2 == NextSeparator(s, searchEnd, sep, endIdx, pos)
    ensures pos + |sep| > endIdx ==>
      SplitFrom(s, searchEnd, sep, nKeys, autoExtend, endIdx, pos, count) == if pos <= endIdx then [Column(pos, endIdx - pos)] else []
    ensures pos + |sep| <= endIdx && pos2 == endIdx ==>
      SplitFrom(s, searchEnd, sep, nKeys, autoExtend, endIdx, pos, count) == [Column(pos, pos2 - pos)]
    ensures pos + |sep| <= endIdx && pos2 != endIdx && count + 1 >= nKeys && !autoExtend
      ==> SplitFrom(s, searchEnd, sep, nKeys, autoExtend, endIdx, pos, count) == [Column(pos, pos2 - pos), Column(pos2, endIdx - pos2)]
  {
  }
  /** The columns SplitString's loop still produces from pos on, with count taken. */
  function Remaining(s: string, sep: string, nKeys: nat, autoExtend: bool, endIdx: nat, pos: nat, count: nat): seq<Column>
    requires |sep| >= 1 && endIdx <= |s| && pos <= |s|
  {
    SplitFrom(s, endIdx, sep, nKeys, autoExtend, endIdx, pos, count)
  }

  /** A turn of SplitString's loop that goes on keeps its invariant: the columns taken
      so far followed by the rest of the split are the whole split. */
  lemma SplitTurn(s: string, sep: string, nKeys: nat, autoExtend: bool, begIdx: nat, endIdx: nat,
                  cols: seq<Column>, pos: nat, pos2: nat)
    requires |sep| >= 1 && begIdx <= endIdx <= |s| && pos + |sep| <= endIdx
    requires pos2 == NextSeparator(s, endIdx, sep, endIdx, pos)
    requires pos2 != endIdx && !(|cols| + 1 >= nKeys && !autoExtend)
    requires Remaining(s, sep, nKeys, autoExtend, endIdx, begIdx, 0)
          == cols + Remaining(s, sep, nKeys, autoExtend, endIdx, pos, |cols|)
    ensures pos2 + |sep| <= endIdx
    ensures Remaining(s, sep, nKeys, autoExtend, endIdx, begIdx, 0)
         == (cols + [Column(pos, pos2 - pos)]) + Remaining(s, sep, nKeys, autoExtend, endIdx, pos2 + |sep|, |cols| + 1)
  {
    SplitFromStep(s, endIdx, sep, nKeys, autoExtend, endIdx, pos, |cols|, pos2);
    ColumnsAssoc(cols, [Column(pos, pos2 - pos)], Remaining(s, sep, nKeys, autoExtend, endIdx, pos2 + |sep|, |cols| + 1));
  }

  lemma ColumnsAssoc(a: seq<Column>, b: seq<Column>, c: seq<Column>)
    ensures a + (b + c) == (a + b) + c
  {
  }

  /** The turns of SplitString's loop that return, and its exit: the whole split is
      the columns taken so far followed by the last one or two. */
  lemma SplitEnds(s: string, sep: string, nKeys: nat, autoExtend: bool, begIdx: nat, endIdx: nat,
                  cols: seq<Column>, pos: nat)
    requires |sep| >= 1 && begIdx <= endIdx <= |s| && pos <= endIdx
    requires Remaining(s, sep, nKeys, autoExtend, endIdx, begIdx, 0)
          == cols + Remaining(s, sep, nKeys, autoExtend, endIdx, pos, |cols|)
    ensures var whole, pos2 := SplitFrom(s, endIdx, sep, nKeys, autoExtend, endIdx, begIdx, 0),
                              NextSeparator(s, endIdx, sep, endIdx, pos);
      (pos + |sep| > endIdx ==> whole == cols + [Column(pos, endIdx - pos)])
      && (pos + |sep| <= endIdx && pos2 == endIdx ==> whole == cols + [Column(pos, pos2 - pos)])
      && (pos + |sep| <= endIdx && pos2 != endIdx && |cols| + 1 >= nKeys && !autoExtend
          ==> whole == cols + [Column(pos, pos2 - pos), Column(pos2, endIdx - pos2)])
  {
    SplitFromStop(s, endIdx, sep, nKeys, autoExtend, endIdx, pos, |cols|, NextSeparator(s, endIdx, sep, endIdx, pos));
  }

  /** The search stops inside the span, so every column lies in [pos, endIdx]. */
  lemma {:induction false} SplitFromInSpan(s: string, sep: string, nKeys: nat, autoExtend: bool,
                                           endIdx: nat, pos: nat, count: nat)
    requires |sep| >= 1 && endIdx <= |s| && pos <= |s|
    ensures var cols := SplitFrom(s, endIdx, sep, nKeys, autoExtend, endIdx, pos, count);
      (pos <= endIdx ==> |cols| >= 1 && cols[0].beg == pos) && AllInSpan(cols, pos, endIdx)
    decreases |s| - pos
  {
    if pos + |sep| <= endIdx {
      var pos2 := NextSeparator(s, endIdx, sep, endIdx, pos);
      if pos2 != endIdx && !(count + 1 >= nKeys && !autoExtend) {
        SplitFromInSpan(s, sep, nKeys, autoExtend, endIdx, pos2 + |sep|, count + 1);
        InSpanStep(s, sep, nKeys, autoExtend, endIdx, pos, count, pos2);
      }
    }
  }

  /** One step of the loop keeps the columns in the span. */
  lemma InSpanStep(s: string, sep: string, nKeys: nat, autoExtend: bool,
                   endIdx: nat, pos: nat, count: nat, pos2: nat)
    requires |sep| >= 1 && endIdx <= |s| && pos + |sep| <= endIdx
    requires pos2 == NextSeparator(s, endIdx, sep, endIdx, pos)
    requires pos2 != endIdx && !(count + 1 >= nKeys && !autoExtend)
    requires AllInSpan(SplitFrom(s, endIdx, sep, nKeys, autoExtend, endIdx, pos2 + |sep|, count + 1), pos2 + |sep|, endIdx)
    ensures AllInSpan(SplitFrom(s, endIdx, sep, nKeys, autoExtend, endIdx, pos, count), pos, endIdx)
  {
    SplitFromStep(s, endIdx, sep, nKeys, autoExtend, endIdx, pos, count, pos2);
  }

  /** Without auto-extend the loop stops once nKeys columns are taken, adding one
      final column: at most nKeys + 1 columns in all. */
  lemma {:induction false} SplitFromCount(s: string, searchEnd: nat, sep: string, nKeys: nat,
                                          endIdx: nat, pos: nat, count: nat)
    requires |sep| >= 1 && searchEnd <= |s| && pos <= |s| && count < nKeys
    ensures count + |SplitFrom(s, searchEnd, sep, nKeys, false, endIdx, pos, count)| <= nKeys + 1
    decreases |s| - pos
  {
    if pos + |sep| <= endIdx {
      var pos2 := NextSeparator(s, searchEnd, sep, endIdx, pos);
      if pos2 != endIdx && count + 1 < nKeys {
        SplitFromCount(s, searchEnd, sep, nKeys, endIdx, pos2 + |sep|, count + 1);
      }
    }
  }

  /** The columns tile the rest of the span, with separators between them. */
  lemma {:induction false} SplitFromTiles(s: string, sep: string, nKeys: nat, autoExtend: bool,
                                          endIdx: nat, pos: nat, count: nat)
    requires |sep| >= 1 && endIdx <= |s| && pos <= endIdx
    ensures Tiles(s, sep, SplitFrom(s, endIdx, sep, nKeys, autoExtend, endIdx, pos, count), pos, endIdx)
    decreases |s| - pos
  {
    var pos2 := NextSeparator(s, endIdx, sep, endIdx, pos);
    if pos + |sep| > endIdx || pos2 == endIdx {
      TilesLast(s, sep, nKeys, autoExtend, endIdx, pos, count);
    } else if count + 1 >= nKeys && !autoExtend {
      TilesAtLimit(s, sep, nKeys, autoExtend, endIdx, pos, count);
    } else {
      SplitFromInSpan(s, sep, nKeys, autoExtend, endIdx, pos2 + |sep|, count + 1);
      SplitFromTiles(s, sep, nKeys, autoExtend, endIdx, pos2 + |sep|, count + 1);
      NextSeparatorOccurs(s, endIdx, sep, endIdx, pos);
      TilesStep(s, sep, nKeys, autoExtend, endIdx, pos, count, pos2);
    }
  }

  /** The last column: no room for a separator, or none found. */
  lemma TilesLast(s: string, sep: string, nKeys: nat, autoExtend: bool, endIdx: nat, pos: nat, count: nat)
    requires |sep| >= 1 && endIdx <= |s| && pos <= endIdx
    requires pos + |sep| > endIdx || NextSeparator(s, endIdx, sep, endIdx, pos) == endIdx
    ensures Tiles(s, sep, SplitFrom(s, endIdx, sep, nKeys, autoExtend, endIdx, pos, count), pos, endIdx)
  {
    SplitFromStop(s, endIdx, sep, nKeys, autoExtend, endIdx, pos, count, NextSeparator(s, endIdx, sep, endIdx, pos));
  }

  /** The key limit: the column before the separator, then the rest of the span
      from the separator on. */
  lemma TilesAtLimit(s: string, sep: string, nKeys: nat, autoExtend: bool, endIdx: nat, pos: nat, count: nat)
    requires |sep| >= 1 && endIdx <= |s| && pos + |sep| <= endIdx
    requires NextSeparator(s, endIdx, sep, endIdx, pos) != endIdx && count + 1 >= nKeys && !autoExtend
    ensures Tiles(s, sep, SplitFrom(s, endIdx, sep, nKeys, autoExtend, endIdx, pos, count), pos, endIdx)
  {
    var pos2 := NextSeparator(s, endIdx, sep, endIdx, pos);
    SplitFromStop(s, endIdx, sep, nKeys, autoExtend, endIdx, pos, count, pos2);
    var cols := [Column(pos, pos2 - pos), Column(pos2, endIdx - pos2)];
    assert cols[1..] == [Column(pos2, endIdx - pos2)];
  }

  /** One step of the loop: a column, then a separator, then what the rest tiles. */
  lemma TilesStep(s: string, sep: string, nKeys: nat, autoExtend: bool,
                  endIdx: nat, pos: nat, count: nat, pos2: nat)
    requires |sep| >= 1 && endIdx <= |s| && pos + |sep| <= endIdx
    requires pos2 == NextSeparator(s, endIdx, sep, endIdx, pos)
    requires pos2 != endIdx && !(count + 1 >= nKeys && !autoExtend) && OccursAt(s, sep, pos2)
    requires var rest := SplitFrom(s, endIdx, sep, nKeys, autoExtend, endIdx, pos2 + |sep|, count + 1);
      |rest| >= 1 && rest[0].beg == pos2 + |sep| && Tiles(s, sep, rest, pos2 + |sep|, endIdx)
    ensures Tiles(s, sep, SplitFrom(s, endIdx, sep, nKeys, autoExtend, endIdx, pos, count), pos, endIdx)
  {
    var rest := SplitFrom(s, endIdx, sep, nKeys, autoExtend, endIdx, pos2 + |sep|, count + 1);
    SplitFromStep(s, endIdx, sep, nKeys, autoExtend, endIdx, pos, count, pos2);
    var cols := [Column(pos, pos2 - pos)] + rest;
    assert cols[1..] == rest;
    assert cols[1] == rest[0];
  }

  /** SplitString fails exactly on an empty span, an empty separator or no keys. */
  lemma SplitColumnsFailsIff(s: string, sep: string, nKeys: nat, autoExtend: bool, begIdx: nat, endIdx: nat)
    requires endIdx <= |s|
    ensures !SplitColumns(s, sep, nKeys, autoExtend, begIdx, endIdx).0 <==> (endIdx <= begIdx || |sep| == 0 || nKeys == 0)
    ensures !SplitColumns(s, sep, nKeys, autoExtend, begIdx, endIdx).0 ==> SplitColumns(s, sep, nKeys, autoExtend, begIdx, endIdx).1 == []
  {
  }

  /** A successful split gives at least one column, every column inside the span,
      and the columns with their separators spell the span. */
  lemma SplitColumnsTileSpan(s: string, sep: string, nKeys: nat, autoExtend: bool, begIdx: nat, endIdx: nat)
    requires endIdx <= |s|
    ensures var (ok, cols) := SplitColumns(s, sep, nKeys, autoExtend, begIdx, endIdx);
      ok ==> |cols| >= 1 && AllInSpan(cols, begIdx, endIdx) && Tiles(s, sep, cols, begIdx, endIdx)
  {
    var (ok, cols) := SplitColumns(s, sep, nKeys, autoExtend, begIdx, endIdx);
    if ok && |sep| <= endIdx - begIdx {
      SplitFromInSpan(s, sep, nKeys, autoExtend, endIdx, begIdx, 0);
      SplitFromTiles(s, sep, nKeys, autoExtend, endIdx, begIdx, 0);
    }
  }

  /** Without auto-extend there are at most nKeys + 1 columns. */
  lemma SplitColumnsAtMostKeysPlusOne(s: string, sep: string, nKeys: nat, begIdx: nat, endIdx: nat)
    requires endIdx <= |s|
    ensures |SplitColumns(s, sep, nKeys, false, begIdx, endIdx).1| <= nKeys + 1
  {
    if endIdx > begIdx && |sep| > 0 && nKeys > 0 && |sep| <= endIdx - begIdx {
      SplitFromCount(s, endIdx, sep, nKeys, endIdx, begIdx, 0);
    }
  }

  /** A separator right where a column starts (two adjacent separators, or one at the
      start of the span) gives a zero-length column. */
  lemma SeparatorAtColumnStartGivesEmptyColumn(s: string, sep: string, nKeys: nat, autoExtend: bool,
                                               endIdx: nat, pos: nat, count: nat)
    requires |sep| >= 1 && endIdx <= |s| && pos + |sep| <= endIdx
    requires s[pos..pos + |sep|] == sep
    ensures SplitFrom(s, endIdx, sep, nKeys, autoExtend, endIdx, pos, count)[0] == Column(pos, 0)
  {
    MatchFromIsOccurrence(s, sep, pos, 0);
    assert sep[0..] == sep;
  }

  /** "a,,b" with three keys splits into "a", "" and "b"; with one key and no
      auto-extend the rest of the line, separator included, is one column. */
  lemma SplitExamples()
    ensures SplitColumns("a,,b", ",", 3, false, 0, 4) == (true, [Column(0, 1), Column(2, 0), Column(3, 1)])
    ensures SplitColumns("a,,b", ",", 1, false, 0, 4) == (true, [Column(0, 1), Column(1, 3)])
  {
    var s := "a,,b";
    assert !MatchFrom(s, ",", 0, 0) && MatchFrom(s, ",", 1, 0) && MatchFrom(s, ",", 2, 0) && !MatchFrom(s, ",", 3, 0);
    assert FindBefore(s, ",", 0, 4) == Some(1);
    assert FindBefore(s, ",", 2, 4) == Some(2);
    assert FindBefore(s, ",", 3, 4) == None;
    assert SplitFrom(s, 4, ",", 3, false, 4, 3, 2) == [Column(3, 1)];
    assert [Column(2, 0)] + [Column(3, 1)] == [Column(2, 0), Column(3, 1)];
    assert SplitFrom(s, 4, ",", 3, false, 4, 2, 1) == [Column(2, 0), Column(3, 1)];
    assert [Column(0, 1)] + [Column(2, 0), Column(3, 1)] == [Column(0, 1), Column(2, 0), Column(3, 1)];
    assert SplitFrom(s, 4, ",", 3, false, 4, 0, 0) == [Column(0, 1), Column(2, 0), Column(3, 1)];
    assert SplitFrom(s, 4, ",", 1, false, 4, 0, 0) == [Column(0, 1), Column(1, 3)];
    assert SplitColumns(s, ",", 3, false, 0, 4) == SplitSpec(s, 4, ",", 3, false, 0, 4);
    assert SplitColumns(s, ",", 1, false, 0, 4) == SplitSpec(s, 4, ",", 1, false, 0, 4);
  }

  /** The value "a  bc\r  " with a two-space separator and two keys: trimming gives the
      span [0, 5) = "a  bc". strstr runs past position 5 and finds the separator at 6,
      inside the trimmed tail. With auto-extend the second column is "bc\r", holding a
      trimmed character; without it the overflow column has length 5 - 6 = -1, which
      the size_t length wraps to the largest value. Searching inside the span only
      gives "a" and "bc" either way. */
  lemma SplitAsWrittenLeavesSpan()
    ensures SplitAsWritten("a  bc\r  ", "  ", 2, true, 0, 5) == (true, [Column(0, 1), Column(3, 3)])
    ensures SplitAsWritten("a  bc\r  ", "  ", 2, false, 0, 5) == (true, [Column(0, 1), Column(3, 3), Column(6, -1)])
  {
    var s := "a  bc\r  ";
    TrailingSearches();
    assert SplitFrom(s, 8, "  ", 2, true, 5, 8, 2) == [];
    assert [Column(3, 3)] + [] == [Column(3, 3)];
    assert SplitFrom(s, 8, "  ", 2, true, 5, 3, 1) == [Column(3, 3)];
    assert [Column(0, 1)] + [Column(3, 3)] == [Column(0, 1), Column(3, 3)];
    assert SplitFrom(s, 8, "  ", 2, true, 5, 0, 0) == [Column(0, 1), Column(3, 3)];
    assert SplitFrom(s, 8, "  ", 2, false, 5, 3, 1) == [Column(3, 3), Column(6, -1)];
    assert [Column(0, 1)] + [Column(3, 3), Column(6, -1)] == [Column(0, 1), Column(3, 3), Column(6, -1)];
    assert SplitFrom(s, 8, "  ", 2, false, 5, 0, 0) == [Column(0, 1), Column(3, 3), Column(6, -1)];
    assert SplitAsWritten(s, "  ", 2, true, 0, 5) == SplitSpec(s, 8, "  ", 2, true, 0, 5);
    assert SplitAsWritten(s, "  ", 2, false, 0, 5) == SplitSpec(s, 8, "  ", 2, false, 0, 5);
  }

  /** The same value split with the search kept inside the span: "a" and "bc". */
  lemma SplitColumnsStaysInSpan()
    ensures SplitColumns("a  bc\r  ", "  ", 2, true, 0, 5) == (true, [Column(0, 1), Column(3, 2)])
    ensures SplitColumns("a  bc\r  ", "  ", 2, false, 0, 5) == (true, [Column(0, 1), Column(3, 2)])
  {
    var s := "a  bc\r  ";
    TrailingSearches();
    assert SplitFrom(s, 5, "  ", 2, true, 5, 3, 1) == [Column(3, 2)];
    assert [Column(0, 1)] + [Column(3, 2)] == [Column(0, 1), Column(3, 2)];
    assert SplitFrom(s, 5, "  ", 2, true, 5, 0, 0) == [Column(0, 1), Column(3, 2)];
    assert SplitFrom(s, 5, "  ", 2, false, 5, 3, 1) == [Column(3, 2)];
    assert SplitFrom(s, 5, "  ", 2, false, 5, 0, 0) == [Column(0, 1), Column(3, 2)];
    assert SplitColumns(s, "  ", 2, true, 0, 5) == SplitSpec(s, 5, "  ", 2, true, 0, 5);
    assert SplitColumns(s, "  ", 2, false, 0, 5) == SplitSpec(s, 5, "  ", 2, false, 0, 5);
  }

  /** The separator searches on "a  bc\r  ": bounded by the end of the value, the one
      from 3 finds the separator at 6 in the tail; bounded by 5 it finds none. */
  lemma TrailingSearches()
    ensures FindBefore("a  bc\r  ", "  ", 0, 8) == Some(1) && FindBefore("a  bc\r  ", "  ", 3, 8) == Some(6)
    ensures FindBefore("a  bc\r  ", "  ", 0, 5) == Some(1) && FindBefore("a  bc\r  ", "  ", 3, 5) == None
  {
    var s := "a  bc\r  ";
    assert !MatchFrom(s, "  ", 0, 0) && MatchFrom(s, "  ", 1, 0);
    assert !MatchFrom(s, "  ", 3, 0) && !MatchFrom(s, "  ", 4, 0) && !MatchFrom(s, "  ", 5, 0) && MatchFrom(s, "  ", 6, 0);
    assert FindBefore(s, "  ", 0, 8) == Some(1);
    assert FindBefore(s, "  ", 3, 8) == Some(6);
    assert FindBefore(s, "  ", 0, 5) == Some(1);
  }

}
