/**
 * Host identity rules of the agent: the check that keeps numeric dotted host
 * names away from the resolver, the packing of the kernel release into one
 * number, the validity rule for ECS instance metadata and the choice of the
 * host id among its four sources.
 *
 * uname, getaddrinfo, curl, the files read and written and the random UUID
 * are outside the model: their results are parameters.
 */
module MachineInfo {
  import opened Wrappers
  import opened Strings
  import opened Json

  // ---------------------------------------------------------------------------
  // strtoul with base 0, for the digit-only forms
  // ---------------------------------------------------------------------------

  predicate InBase(c: char, base: nat)
  {
    if base == 8 then '0' <= c <= '7'
    else if base == 16 then IsDigit(c) || 'a' <= c <= 'f' || 'A' <= c <= 'F'
    else IsDigit(c)
  }

  /** The value of a digit of the base (0 for any other character). */
  function DigitIn(c: char, base: nat): nat
  {
    if IsDigit(c) then c as int - '0' as int
    else if 'a' <= c <= 'f' then c as int - 'a' as int + 10
    else if 'A' <= c <= 'F' then c as int - 'A' as int + 10
    else 0
  }

  /** Where the run of digits of the base that starts at position i of t ends. */
  function RunEnd(t: string, i: nat, base: nat): (e: nat)
    requires i <= |t|
    ensures i <= e <= |t|
    decreases |t| - i
  {
    if i == |t| || !InBase(t[i], base) then i else RunEnd(t, i + 1, base)
  }

  lemma {:induction false} RunEndMaximal(t: string, i: nat, base: nat)
    requires i <= |t|
    ensures RunEnd(t, i, base) < |t| ==> !InBase(t[RunEnd(t, i, base)], base)
    ensures forall k :: i <= k < RunEnd(t, i, base) ==> InBase(t[k], base)
    decreases |t| - i
  {
    if i < |t| && InBase(t[i], base) {
      RunEndMaximal(t, i + 1, base);
    }
  }

  /** The value of the digits of t from position i up to e, most significant first. */
  function RunValue(t: string, i: nat, e: nat, base: nat): nat
    requires i <= e <= |t|
    decreases e - i
  {
    if e == i then 0 else RunValue(t, i, e - 1, base) * base + DigitIn(t[e - 1], base)
  }

  /** RunValue with the base as a constant, so that its unfolding stays linear. */
  function ValueIn(t: string, i: nat, e: nat, base: nat): nat
    requires i <= e <= |t|
  {
    if base == 16 then RunValue(t, i, e, 16) else if base == 8 then RunValue(t, i, e, 8) else RunValue(t, i, e, 10)
  }

  /** What strtoul(t, &end, 0) returns, and how many characters it reads. */
  datatype Conversion = Conversion(value: nat, length: nat)

  /** strtoul with base 0 on a string that starts without white space or sign:
      "0x" and a hexadecimal digit start a hexadecimal number, a leading 0 an
      octal one, another digit a decimal one; anything else converts nothing. */
  function Strtoul(t: string): (r: Conversion)
    ensures r.length <= |t|
  {
    StrtoulAt(t, 0)
  }

  /** strtoul on the text that starts at position p of s, as the scan calls it on
      its cursor; the length counts from p. */
  function StrtoulAt(s: string, p: nat): (r: Conversion)
    requires p <= |s|
    ensures p + r.length <= |s|
  {
    var (skip, base) := RadixAt(s, p);
    if base == 0 then Conversion(0, 0)
    else
      var e := RunEnd(s, p + skip, base);
      Conversion(ValueIn(s, p + skip, e, base), e - p)
  }

  /** Where the digits start, counted from p, and their base: "0x" and a hexadecimal
      digit give 16 after the prefix, a leading 0 gives 8, another digit 10; base 0
      stands for a text that does not start with a digit. */
  function RadixAt(s: string, p: nat): (r: (nat, nat))
    requires p <= |s|
    ensures p + r.0 <= |s|
    ensures r.1 != 0 ==> p + r.0 < |s| && InBase(s[p + r.0], r.1)
  {
    if p + 3 <= |s| && s[p] == '0' && (s[p + 1] == 'x' || s[p + 1] == 'X') && InBase(s[p + 2], 16) then (2, 16)
    else if p < |s| && s[p] == '0' then (0, 8)
    else if p < |s| && IsDigit(s[p]) then (0, 10)
    else (0, 0)
  }

  /** strtoul reads no dot, and converts something exactly when the text starts with a digit. */
  lemma StrtoulReads(t: string)
    ensures forall i :: 0 <= i < Strtoul(t).length ==> t[i] != '.'
    ensures Strtoul(t).length == 0 <==> t == [] || !IsDigit(t[0])
    ensures Strtoul(t).length == 0 ==> Strtoul(t).value == 0
  {
    var (skip, base) := RadixAt(t, 0);
    if base != 0 {
      RunEndMaximal(t, skip, base);
    }
  }

  /** A piece that strtoul reads to its very end (the empty piece included). */
  predicate Whole(p: string)
  {
    Strtoul(p).length == |p|
  }

  /** Reading at position p of s is reading the text that starts there. */
  lemma StrtoulShift(s: string, p: nat)
    requires p <= |s|
    ensures StrtoulAt(s, p) == Strtoul(s[p..])
  {
    var u := s[p..];
    var (skip, base) := RadixAt(s, p);
    if p < |s| {
      assert u[0] == s[p];
    }
    if p + 3 <= |s| {
      assert u[1] == s[p + 1] && u[2] == s[p + 2];
    }
    assert RadixAt(u, 0) == (skip, base);
    if base != 0 {
      RunEndShift(s, p, p + skip, base);
      RunValueShift(s, p, p + skip, RunEnd(s, p + skip, base), base);
    }
  }

  lemma {:induction false} RunEndShift(s: string, p: nat, i: nat, base: nat)
    requires p <= i <= |s|
    ensures RunEnd(s, i, base) - p == RunEnd(s[p..], i - p, base)
    decreases |s| - i
  {
    if i < |s| {
      assert s[p..][i - p] == s[i];
      if InBase(s[i], base) {
        RunEndShift(s, p, i + 1, base);
      }
    }
  }

  lemma {:induction false} RunValueShift(s: string, p: nat, i: nat, e: nat, base: nat)
    requires p <= i <= e <= |s|
    ensures RunValue(s, i, e, base) == RunValue(s[p..], i - p, e - p, base)
    decreases e - i
  {
    if e > i {
      assert s[p..][e - 1 - p] == s[e - 1];
      RunValueShift(s, p, i, e - 1, base);
    }
  }

  lemma {:induction false} RunEndPrefix(t: string, i: nat, base: nat, j: nat)
    requires i <= j <= |t| && RunEnd(t, i, base) <= j
    ensures RunEnd(t[..j], i, base) == RunEnd(t, i, base)
    decreases |t| - i
  {
    if i < j && InBase(t[i], base) {
      assert t[..j][i] == t[i];
      RunEndPrefix(t, i + 1, base, j);
    }
  }

  lemma {:induction false} RunValuePrefix(t: string, i: nat, e: nat, base: nat, j: nat)
    requires i <= e <= j <= |t|
    ensures RunValue(t[..j], i, e, base) == RunValue(t, i, e, base)
    decreases e - i
  {
    if e > i {
      assert t[..j][e - 1] == t[e - 1];
      RunValuePrefix(t, i, e - 1, base, j);
    }
  }

  /** Cutting the string anywhere after what strtoul reads does not change the conversion. */
  lemma StrtoulPrefix(t: string, j: nat)
    requires Strtoul(t).length <= j <= |t|
    ensures Strtoul(t[..j]) == Strtoul(t)
  {
    var u := t[..j];
    var (skip, base) := RadixAt(t, 0);
    if base != 0 {
      var e := RunEnd(t, skip, base);
      assert e > skip by { assert InBase(t[skip], base); }
      assert u[0] == t[0];
      if |u| >= 3 {
        assert u[1] == t[1] && u[2] == t[2];
      }
      assert RadixAt(u, 0) == (skip, base);
      RunEndPrefix(t, skip, base, j);
      RunValuePrefix(t, skip, e, base, j);
    } else {
      assert u == [] || u[0] == t[0];
    }
  }

  // ---------------------------------------------------------------------------
  // IsDigitsDotsHostname
  // ---------------------------------------------------------------------------

  function Pow2(n: nat): (r: nat)
    ensures r >= 1
  {
    if n == 0 then 1 else 2 * Pow2(n - 1)
  }

  lemma {:induction false} Pow2AtLeast256(n: nat)
    requires n >= 8
    ensures Pow2(n) >= 256
  {
    if n > 8 {
      Pow2AtLeast256(n - 1);
    } else {
      assert Pow2(8) == 256 by {
        assert Pow2(4) == 16;
      }
    }
  }

  /** The position where the scan of IsDigitsDotsHostname stops when it starts at
      position cp of s with the given number of address bits still unused: each
      number must fit in those bits, and the scan goes past a dot only after a
      number of at most 255. */
  function Scan(s: string, cp: nat, digits: int): (stop: nat)
    requires cp <= |s|
    ensures cp <= stop <= |s|
    decreases |s| - cp
  {
    if cp == |s| || digits <= 0 then cp
    else
      var c := StrtoulAt(s, cp);
      if c.value >= Pow2(digits) then cp
      else if GoesOn(s, cp, digits) then Scan(s, cp + c.length + 1, digits - 8)
      else cp + c.length
  }

  /** The number at position cp fits in the bits left, is at most 255 and is followed by a dot. */
  predicate GoesOn(s: string, cp: nat, digits: nat)
    requires cp <= |s|
  {
    var c := StrtoulAt(s, cp);
    c.value < Pow2(digits) && cp + c.length < |s| && s[cp + c.length] == '.' && c.value <= 255
  }

  /** The pieces between dots after k numbers have been read: every piece but the last
      is read whole and is at most 255; the last is empty (the text ended with a dot)
      or is read whole and fits in the bits left. */
  predicate Dotted(parts: seq<string>, k: nat)
    requires |parts| >= 1
  {
    (forall i :: 0 <= i < |parts| - 1 ==> Whole(parts[i]) && Strtoul(parts[i]).value <= 255)
    && var last := parts[|parts| - 1];
    if last == [] then k + |parts| <= 5
    else k + |parts| <= 4 && Whole(last) && Strtoul(last).value < Pow2(40 - 8 * (k + |parts|))
  }

  /** The pieces of s between its dots. */
  function Pieces(s: string): (parts: seq<string>)
    ensures |parts| >= 1
  {
    Split(s, '.')
  }

  /** The host names for which gethostbyname fakes an address: one to four numbers
      (decimal, octal or hexadecimal) separated by dots, the last one non-empty and
      filling the address bits the others leave, each earlier one at most 255. */
  predicate NumericHostname(s: string)
  {
    NumericPieces(Pieces(s))
  }

  predicate NumericPieces(parts: seq<string>)
    requires |parts| >= 1
  {
    var last := parts[|parts| - 1];
    |parts| <= 4
    && (forall i :: 0 <= i < |parts| - 1 ==> Whole(parts[i]) && Strtoul(parts[i]).value <= 255)
    && last != [] && Whole(last) && Strtoul(last).value < Pow2(40 - 8 * |parts|)
  }

  /** The numeric form is the dotted form from the start, with a non-empty last piece. */
  lemma NumericPiecesDotted(parts: seq<string>)
    requires |parts| >= 1
    ensures NumericPieces(parts) <==> parts[|parts| - 1] != [] && Dotted(parts, 0)
  {
    assert 40 - 8 * (0 + |parts|) == 40 - 8 * |parts|;
  }

  lemma SplitAt(t: string, n: nat)
    requires n < |t| && t[n] == '.' && '.' !in t[..n]
    ensures Pieces(t) == [t[..n]] + Pieces(t[n + 1..])
  {
    IndexOfUnique(t, '.', n);
  }

  /** The first piece of t reaches at least to where strtoul stops, and past it
      when strtoul stops on something other than a dot. */
  lemma FirstPiece(t: string)
    requires forall i :: 0 <= i < Strtoul(t).length ==> t[i] != '.'
    ensures var p := Pieces(t)[0];
      Strtoul(t).length <= |p| <= |t| && p == t[..|p|]
      && (|p| < |t| ==> t[|p|] == '.')
      && (Strtoul(t).length < |t| && t[Strtoul(t).length] != '.' ==> Strtoul(t).length < |p|)
  {
    var n := Strtoul(t).length;
    if '.' in t {
      var i := IndexOf(t, '.');
      assert t[i] == '.';
      assert i >= n;
    }
  }

  /** A piece in front of others must be read whole and be at most 255. */
  lemma DottedCons(p: string, rest: seq<string>, k: nat)
    requires |rest| >= 1
    ensures Dotted([p] + rest, k) <==> Whole(p) && Strtoul(p).value <= 255 && Dotted(rest, k + 1)
  {
    var parts := [p] + rest;
    assert parts[0] == p;
    assert parts[|parts| - 1] == rest[|rest| - 1];
    assert 40 - 8 * (k + |parts|) == 40 - 8 * ((k + 1) + |rest|);
    if Dotted(parts, k) {
      forall i | 0 <= i < |rest| - 1
        ensures Whole(rest[i]) && Strtoul(rest[i]).value <= 255
      {
        assert rest[i] == parts[i + 1];
      }
    }
    if Whole(p) && Strtoul(p).value <= 255 && Dotted(rest, k + 1) {
      forall i | 0 <= i < |parts| - 1
        ensures Whole(parts[i]) && Strtoul(parts[i]).value <= 255
      {
        if i > 0 {
          assert parts[i] == rest[i - 1];
        }
      }
    }
  }

  /** The scan from position cp, with k numbers read, reaches the end of s. */
  predicate ScansToEnd(s: string, cp: nat, k: nat)
    requires cp <= |s|
  {
    Scan(s, cp, 32 - 8 * k) == |s|
  }

  /** The pieces of t between dots have the dotted form after k numbers. */
  predicate DottedText(t: string, k: nat)
  {
    Dotted(Pieces(t), k)
  }

  /** The text from position cp, with k numbers read, has the dotted form. */
  predicate DottedFrom(s: string, cp: nat, k: nat)
    requires cp <= |s|
  {
    DottedText(s[cp..], k)
  }

  /** The scan from position cp reaches the end exactly when the pieces of the
      rest of the text have the dotted form. */
  lemma {:induction false} ScanEmpty(s: string, cp: nat, k: nat)
    requires cp <= |s| && k <= 4
    ensures ScansToEnd(s, cp, k) <==> DottedFrom(s, cp, k)
    decreases |s| - cp, 1
  {
    if cp == |s| || k == 4 {
      ScanEnds(s, cp, k);
    } else if GoesOn(s, cp, 32 - 8 * k) {
      ScanEmptyGoesOn(s, cp, k);
    } else {
      ScanEmptyStops(s, cp, k);
    }
  }

  /** The induction step of ScanEmpty: past a number and a dot. */
  lemma {:induction false} ScanEmptyGoesOn(s: string, cp: nat, k: nat)
    requires cp < |s| && k < 4 && GoesOn(s, cp, 32 - 8 * k)
    ensures ScansToEnd(s, cp, k) <==> DottedFrom(s, cp, k)
    decreases |s| - cp, 0
  {
    ScanGoesOn(s, cp, k);
    ScanStep(s, cp, k);
    ScanEmpty(s, cp + StrtoulAt(s, cp).length + 1, k + 1);
    IffAcross(ScansToEnd(s, cp, k), DottedFrom(s, cp, k),
      ScansToEnd(s, cp + StrtoulAt(s, cp).length + 1, k + 1),
      DottedFrom(s, cp + StrtoulAt(s, cp).length + 1, k + 1));
  }

  /** The last step of ScanEmpty: the scan stops at the number in front. */
  lemma ScanEmptyStops(s: string, cp: nat, k: nat)
    requires cp < |s| && k < 4 && !GoesOn(s, cp, 32 - 8 * k)
    ensures ScansToEnd(s, cp, k) <==> DottedFrom(s, cp, k)
  {
    ScanStopsAt(s, cp, k);
    ScanStops(s, cp, k);
    var m := StrtoulAt(s, cp).value < Pow2(32 - 8 * k) && cp + StrtoulAt(s, cp).length == |s|;
    IffAcross(ScansToEnd(s, cp, k), DottedFrom(s, cp, k), m, m);
  }

  /** Two facts that stand for two others agree when those two agree. */
  lemma IffAcross(a: bool, b: bool, c: bool, d: bool)
    requires a == c && b == d && (c <==> d)
    ensures a <==> b
  {
  }

  /** Where the scan stops when it does not go past a dot. */
  lemma ScanStopsAt(s: string, cp: nat, k: nat)
    requires cp < |s| && k < 4 && !GoesOn(s, cp, 32 - 8 * k)
    ensures ScansToEnd(s, cp, k) <==>
      StrtoulAt(s, cp).value < Pow2(32 - 8 * k) && cp + StrtoulAt(s, cp).length == |s|
  {
  }

  /** Past a number of at most 255 and a dot the scan goes on from the next piece. */
  lemma ScanStep(s: string, cp: nat, k: nat)
    requires cp < |s| && k < 4 && GoesOn(s, cp, 32 - 8 * k)
    ensures ScansToEnd(s, cp, k) == ScansToEnd(s, cp + StrtoulAt(s, cp).length + 1, k + 1)
  {
    assert Scan(s, cp, 32 - 8 * k) == Scan(s, cp + StrtoulAt(s, cp).length + 1, 32 - 8 * (k + 1));
  }

  /** With nothing left to read, or no address bits left, the scan reaches the end and
      the pieces have the dotted form exactly when nothing is left. */
  lemma ScanEnds(s: string, cp: nat, k: nat)
    requires cp <= |s| && k <= 4 && (cp == |s| || k == 4)
    ensures ScansToEnd(s, cp, k) <==> cp == |s|
    ensures DottedFrom(s, cp, k) <==> cp == |s|
    ensures ScansToEnd(s, cp, k) <==> DottedFrom(s, cp, k)
  {
    assert Scan(s, cp, 32 - 8 * k) == cp;
    var t := s[cp..];
    if t == [] {
      assert Pieces(t) == [""];
    } else {
      assert Pieces(t) != [""] by {
        if '.' !in t {
          assert Pieces(t) == [t];
        }
      }
    }
  }

  /** After a number of at most 255 and a dot, the pieces move to the rest with one
      number read. */
  lemma ScanGoesOn(s: string, cp: nat, k: nat)
    requires cp < |s| && k < 4 && GoesOn(s, cp, 32 - 8 * k)
    ensures DottedFrom(s, cp, k) == DottedFrom(s, cp + StrtoulAt(s, cp).length + 1, k + 1)
  {
    StrtoulShift(s, cp);
    DottedPastNumber(s[cp..], k);
    assert s[cp..][Strtoul(s[cp..]).length + 1..] == s[cp + StrtoulAt(s, cp).length + 1..];
  }

  /** The pieces of a text that starts with a number of at most 255 and a dot. */
  lemma DottedPastNumber(t: string, k: nat)
    requires Strtoul(t).length < |t| && t[Strtoul(t).length] == '.' && Strtoul(t).value <= 255
    ensures DottedText(t, k) == DottedText(t[Strtoul(t).length + 1..], k + 1)
  {
    var n := Strtoul(t).length;
    StrtoulReads(t);
    assert '.' !in t[..n];
    SplitAt(t, n);
    StrtoulPrefix(t, n);
    assert t[..n] == t[..n][..n];
    DottedCons(t[..n], Pieces(t[n + 1..]), k);
  }

  /** Anywhere else the scan stops short or at the end: it reads everything exactly
      when the pieces have the dotted form. */
  lemma ScanStops(s: string, cp: nat, k: nat)
    requires cp < |s| && k < 4 && !GoesOn(s, cp, 32 - 8 * k)
    ensures StrtoulAt(s, cp).value < Pow2(32 - 8 * k) && cp + StrtoulAt(s, cp).length == |s|
      <==> DottedFrom(s, cp, k)
  {
    StrtoulShift(s, cp);
    var t := s[cp..];
    var n := Strtoul(t).length;
    assert n < |t| ==> t[n] == s[cp + n];
    DottedStops(t, 32 - 8 * k, k);
  }

  /** The pieces of a text whose number is too large, is not followed by a dot, or is
      followed by a dot but exceeds 255. */
  lemma DottedStops(t: string, d: nat, k: nat)
    requires t != [] && k < 4 && d == 32 - 8 * k
    requires var c := Strtoul(t);
      !(c.value < Pow2(d) && c.length < |t| && t[c.length] == '.' && c.value <= 255)
    ensures Strtoul(t).value < Pow2(d) && Strtoul(t).length == |t| <==> DottedText(t, k)
  {
    var c := Strtoul(t);
    var n := c.length;
    var parts := Pieces(t);
    var p := parts[0];
    StrtoulReads(t);
    FirstPiece(t);
    StrtoulPrefix(t, |p|);
    Pow2AtLeast256(d);
    if c.value < Pow2(d) && n == |t| {
      assert '.' !in t by {
        forall i | 0 <= i < |t|
          ensures t[i] != '.'
        {
        }
      }
      assert parts == [t];
    } else {
      assert !Dotted(parts, k) by {
        if |parts| > 1 {
          assert parts == [p] + parts[1..];
          DottedCons(p, parts[1..], k);
        } else {
          assert p == t;
        }
      }
    }
  }

  /** The last piece is empty exactly when the text is empty or ends with a dot. */
  lemma {:induction false} LastPieceEmpty(t: string)
    ensures var parts := Pieces(t);
      parts[|parts| - 1] == [] <==> t == [] || t[|t| - 1] == '.'
    decreases |t|
  {
    if '.' in t {
      var i := IndexOf(t, '.');
      LastPieceEmpty(t[i + 1..]);
      if i + 1 < |t| {
        assert t[i + 1..][|t[i + 1..]| - 1] == t[|t| - 1];
      }
    }
  }

  /** The numeric form read through the scan: the scan consumes everything and the
      text does not end with a dot. */
  lemma NumericHostnameScan(s: string)
    requires s != []
    ensures NumericHostname(s) <==> Scan(s, 0, 32) == |s| && s[|s| - 1] != '.'
  {
    LastPieceEmpty(s);
    ScanConsumesDotted(s);
    NumericHostnameDotted(s);
  }

  lemma ScanConsumesDotted(s: string)
    ensures Scan(s, 0, 32) == |s| <==> Dotted(Pieces(s), 0)
  {
    ScanEmpty(s, 0, 0);
    assert s[0..] == s;
    assert ScansToEnd(s, 0, 0) == (Scan(s, 0, 32) == |s|);
    assert DottedFrom(s, 0, 0) == Dotted(Pieces(s), 0);
  }

  lemma NumericHostnameDotted(s: string)
    ensures NumericHostname(s) <==> Pieces(s)[|Pieces(s)| - 1] != [] && Dotted(Pieces(s), 0)
  {
    NumericPiecesDotted(Pieces(s));
  }

  /** IsDigitsDotsHostname. Despite its name it answers false for the numeric forms
      (the caller resolves the name only then), and false for a null or empty name. */
  method IsDigitsDotsHostname(hostname: Option<string>) returns (r: bool)
    requires hostname.Some? ==> '\0' !in hostname.value
    ensures r <==> hostname.Some? && hostname.value != [] && !NumericHostname(hostname.value)
  {
    if hostname.None? || hostname.value == [] {
      return false;
    }
    var s := hostname.value;
    var cp := ScanHostname(s);
    NumericHostnameScan(s);
    r := !(cp == |s| && s[cp - 1] != '.');
  }

  /** The loop of IsDigitsDotsHostname: the position cp where the scan stops. */
  method ScanHostname(s: string) returns (cp: nat)
    ensures cp == Scan(s, 0, 32)
  {
    cp := 0;
    var digits := 32;
    while cp < |s| && digits > 0
      invariant 0 <= cp <= |s|
      invariant Scan(s, cp, digits) == Scan(s, 0, 32)
      decreases |s| - cp
    {
      var sum := StrtoulAt(s, cp);
      if sum.value >= Pow2(digits) {
        break;
      }
      var end := cp + sum.length;
      if end < |s| && s[end] == '.' && sum.value <= 255 {
        digits := digits - 8;
        cp := end + 1;
      } else {
        cp := end;
        break;
      }
    }
  }

  /** The dotted quad every IPv4 address is written as is numeric. */
  lemma DottedQuadIsNumeric(a: nat, b: nat, c: nat, d: nat)
    requires a <= 255 && b <= 255 && c <= 255 && d <= 255
    ensures NumericHostname(Join(".", [NatToString(a), NatToString(b), NatToString(c), NatToString(d)]))
  {
    DecimalOctet(a);
    DecimalOctet(b);
    DecimalOctet(c);
    DecimalOctet(d);
    JoinedQuad(NatToString(a), NatToString(b), NatToString(c), NatToString(d));
  }

  lemma DecimalOctet(n: nat)
    requires n <= 255
    ensures '.' !in NatToString(n) && Octet(NatToString(n))
  {
    DecimalConverts(n);
  }

  lemma JoinedQuad(p0: string, p1: string, p2: string, p3: string)
    requires '.' !in p0 && '.' !in p1 && '.' !in p2 && '.' !in p3
    requires Octet(p0) && Octet(p1) && Octet(p2) && Octet(p3)
    ensures NumericHostname(Join(".", [p0, p1, p2, p3]))
  {
    var parts := [p0, p1, p2, p3];
    SplitJoin(parts, '.');
    assert Pieces(Join(".", parts)) == parts;
    assert Pow2(8) == 256 by {
      assert Pow2(4) == 16;
    }
    assert NumericPieces(parts);
  }

  /** A piece strtoul reads whole to a value that fits in one byte. */
  predicate Octet(p: string)
  {
    p != [] && Whole(p) && Strtoul(p).value <= 255
  }

  /** strtoul reads the decimal string of any number whole and gets the number back. */
  lemma DecimalConverts(n: nat)
    ensures '.' !in NatToString(n) && NatToString(n) != []
    ensures Whole(NatToString(n)) && Strtoul(NatToString(n)).value == n
  {
    var s := NatToString(n);
    NatToStringRoundTrip(n);
    DecimalRunValue(s);
    if s[0] == '0' {
      assert |s| == 1;
      assert RunEnd(s, 0, 8) == 1;
      assert RunValue(s, 0, 1, 8) == 0;
    } else {
      RunEndAll(s, 0, 10);
    }
    assert '.' !in s by {
      forall i | 0 <= i < |s|
        ensures s[i] != '.'
      {
        assert IsDigit(s[i]);
      }
    }
  }

  lemma {:induction false} RunEndAll(t: string, i: nat, base: nat)
    requires i <= |t|
    requires forall k :: i <= k < |t| ==> InBase(t[k], base)
    ensures RunEnd(t, i, base) == |t|
    decreases |t| - i
  {
    if i < |t| {
      RunEndAll(t, i + 1, base);
    }
  }

  lemma {:induction false} DecimalRunValue(s: string)
    requires AllDigits(s)
    ensures forall i :: 0 <= i < |s| ==> InBase(s[i], 10)
    ensures RunValue(s, 0, |s|, 10) == DecimalValue(s)
  {
    if s != [] {
      var front := s[..|s| - 1];
      DecimalRunValue(front);
      RunValuePrefix(s, 0, |s| - 1, 10, |s| - 1);
      assert s[..|s| - 1] == front;
    }
  }

  /** A name with a letter past 'f' anywhere (other than an 'x') is never numeric, so it goes to the resolver. */
  lemma LetterNameIsNotNumeric(s: string, i: nat)
    requires i < |s| && 'g' <= s[i] <= 'z' && s[i] != 'x'
    ensures !NumericHostname(s)
  {
    var parts := Pieces(s);
    var j, m := PieceHolding(s, i);
    LetterStopsConversion(parts[j], m);
    assert !Whole(parts[j]);
  }

  /** Where character i of s lands among the pieces. */
  lemma {:induction false} PieceHolding(s: string, i: nat) returns (j: nat, m: nat)
    requires i < |s| && s[i] != '.'
    ensures j < |Pieces(s)| && m < |Pieces(s)[j]| && Pieces(s)[j][m] == s[i]
    decreases |s|
  {
    var parts := Pieces(s);
    if '.' in s {
      var k := IndexOf(s, '.');
      var rest := s[k + 1..];
      assert parts == [s[..k]] + Pieces(rest);
      if i < k {
        j, m := 0, i;
      } else {
        assert rest[i - k - 1] == s[i];
        var j', m' := PieceHolding(rest, i - k - 1);
        j, m := j' + 1, m';
        assert parts[j] == Pieces(rest)[j'];
      }
    } else {
      assert parts == [s];
      j, m := 0, i;
    }
  }

  /** strtoul stops at a letter past 'f' other than the 'x' of a hexadecimal prefix. */
  lemma LetterStopsConversion(p: string, m: nat)
    requires m < |p| && 'g' <= p[m] <= 'z' && p[m] != 'x'
    ensures Strtoul(p).length <= m
  {
    var (skip, base) := RadixAt(p, 0);
    if base != 0 {
      RunEndMaximal(p, skip, base);
      assert !InBase(p[m], base);
    }
  }

  // ---------------------------------------------------------------------------
  // GetKernelInfo: the release string packed into one number
  // ---------------------------------------------------------------------------

  /** strtol with base 10 on a run of decimal digits: its value, held at
      LONG_MAX when it does not fit. */
  function StrtolDigits(d: string): (v: nat)
    requires AllDigits(d)
    ensures v <= LongMax
    ensures DecimalValue(d) <= LongMax ==> v == DecimalValue(d)
  {
    if DecimalValue(d) <= LongMax then DecimalValue(d) else LongMax
  }

  /** The numbers of a release string (the text uname reports, up to its NUL):
      every maximal run of digits read as one number, in order; every other
      character is skipped. */
  function DigitRuns(s: string): seq<nat>
    decreases |s|
  {
    if s == [] then []
    else if IsDigit(s[0]) then
      var d := DigitPrefix(s);
      [StrtolDigits(d)] + DigitRuns(s[|d|..])
    else DigitRuns(s[1..])
  }

  /** The scan over the release string, one digit run or one other character per step. */
  method ReleaseVersions(release: string) returns (versions: seq<nat>)
    ensures versions == DigitRuns(release)
  {
    versions := [];
    var p := 0;
    while p < |release|
      invariant p <= |release|
      invariant versions + DigitRuns(release[p..]) == DigitRuns(release)
    {
      var rest := release[p..];
      if IsDigit(release[p]) {
        var d := DigitPrefix(rest);
        assert rest[|d|..] == release[p + |d|..];
        versions := versions + [StrtolDigits(d)];
        p := p + |d|;
      } else {
        assert rest[1..] == release[p + 1..];
        p := p + 1;
      }
    }
    assert release[p..] == [];
  }

  /** The number whose base-1000 digits are vs, most significant first. */
  function Pack(vs: seq<nat>): nat
  {
    if vs == [] then 0 else Pack(vs[..|vs| - 1]) * 1000 + vs[|vs| - 1]
  }

  /** The fold over the first four numbers of the release. */
  method PackVersions(versions: seq<nat>) returns (kernelVersion: nat)
    ensures kernelVersion == Pack(FirstFour(versions))
  {
    kernelVersion := 0;
    var i := 0;
    while i < |versions| && i < 4
      invariant i <= |versions| && i <= 4
      invariant kernelVersion == Pack(versions[..i])
    {
      assert versions[..i + 1][..i] == versions[..i];
      kernelVersion := kernelVersion * 1000 + versions[i];
      i := i + 1;
    }
    assert versions[..i] == FirstFour(versions);
  }

  function FirstFour(versions: seq<nat>): seq<nat>
  {
    if |versions| <= 4 then versions else versions[..4]
  }

  /** The kernel version GetKernelInfo reports for a release string. */
  function KernelVersionOf(release: string): nat
  {
    Pack(FirstFour(DigitRuns(release)))
  }

  /** GetKernelInfo: when uname fails, false and both outputs left as they were;
      otherwise the release and its packed version. */
  method GetKernelInfo(uname: Option<string>, priorRelease: string, priorVersion: int)
    returns (ok: bool, kernelRelease: string, kernelVersion: int)
    ensures ok <==> uname.Some?
    ensures !ok ==> kernelRelease == priorRelease && kernelVersion == priorVersion
    ensures ok ==> kernelRelease == uname.value && kernelVersion == KernelVersionOf(uname.value)
  {
    if uname.None? {
      return false, priorRelease, priorVersion;
    }
    kernelRelease := uname.value;
    var versions := ReleaseVersions(kernelRelease);
    var packed := PackVersions(versions);
    return true, kernelRelease, packed;
  }

  /** Every number is a base-1000 digit. */
  predicate Below1000(vs: seq<nat>)
  {
    forall i :: 0 <= i < |vs| ==> vs[i] < 1000
  }

  /** Lexicographic order on sequences of one length: the prefixes decide,
      and the last numbers when the prefixes agree. */
  predicate LexLess(vs: seq<nat>, ws: seq<nat>)
    requires |vs| == |ws|
  {
    vs != [] &&
    (LexLess(vs[..|vs| - 1], ws[..|ws| - 1])
     || (vs[..|vs| - 1] == ws[..|ws| - 1] && vs[|vs| - 1] < ws[|ws| - 1]))
  }

  /** With every component below 1000, packing keeps the order of versions and
      tells different versions apart. */
  lemma {:induction false} PackOrder(vs: seq<nat>, ws: seq<nat>)
    requires |vs| == |ws| && Below1000(vs) && Below1000(ws)
    ensures Pack(vs) < Pack(ws) <==> LexLess(vs, ws)
    ensures Pack(vs) == Pack(ws) <==> vs == ws
  {
    if vs != [] {
      var iv, iw := vs[..|vs| - 1], ws[..|ws| - 1];
      var lv, lw := vs[|vs| - 1], ws[|ws| - 1];
      assert Below1000(iv) && Below1000(iw);
      PackOrder(iv, iw);
      assert vs == iv + [lv] && ws == iw + [lw];
      if Pack(iv) < Pack(iw) {
        assert Pack(vs) < Pack(ws);
      } else if Pack(iv) > Pack(iw) {
        assert Pack(vs) > Pack(ws);
      }
    }
  }

  /** The decimal strings of ns, each piece of a dotted release. */
  function Decimals(ns: seq<nat>): (parts: seq<string>)
    ensures |parts| == |ns|
    ensures forall i :: 0 <= i < |ns| ==> parts[i] == NatToString(ns[i])
  {
    if ns == [] then [] else [NatToString(ns[0])] + Decimals(ns[1..])
  }

  /** A release written as numbers joined by dots gives those numbers back. */
  lemma {:induction false} DottedReleaseRuns(ns: seq<nat>)
    requires |ns| >= 1
    requires forall i :: 0 <= i < |ns| ==> ns[i] <= LongMax
    ensures DigitRuns(Join(".", Decimals(ns))) == ns
  {
    var d := NatToString(ns[0]);
    NatToStringRoundTrip(ns[0]);
    if |ns| == 1 {
      RunThenRest(d, "");
      assert d + "" == d;
    } else {
      var rest := Join(".", Decimals(ns[1..]));
      assert Decimals(ns)[1..] == Decimals(ns[1..]);
      assert Join(".", Decimals(ns)) == d + ("." + rest);
      RunThenRest(d, "." + rest);
      assert ("." + rest)[1..] == rest;
      DottedReleaseRuns(ns[1..]);
      assert ns == [ns[0]] + ns[1..];
    }
  }

  /** A run of digits followed by something that is not a digit is read as one number. */
  lemma RunThenRest(d: string, rest: string)
    requires d != [] && AllDigits(d)
    requires rest == [] || !IsDigit(rest[0])
    ensures DigitRuns(d + rest) == [StrtolDigits(d)] + DigitRuns(rest)
  {
    DigitPrefixThen(d, rest);
    assert (d + rest)[|d|..] == rest;
  }

  lemma {:induction false} DigitPrefixThen(d: string, rest: string)
    requires AllDigits(d)
    requires rest == [] || !IsDigit(rest[0])
    ensures DigitPrefix(d + rest) == d
  {
    if d == [] {
      assert d + rest == rest;
    } else {
      assert (d + rest)[1..] == d[1..] + rest;
      DigitPrefixThen(d[1..], rest);
    }
  }

  // ---------------------------------------------------------------------------
  // ECS instance metadata
  // ---------------------------------------------------------------------------

  datatype EcsMeta = EcsMeta(instanceID: string, userID: string, regionID: string, isValid: bool)

  /** A metadata record as FetchECSMeta starts it: empty strings, not valid. */
  const EmptyMeta := EcsMeta("", "", "", false)

  const InstanceIdKey := "instance-id"
  const OwnerAccountIdKey := "owner-account-id"
  const RegionIdKey := "region-id"

  /** The string under key when the document holds one there, otherwise prior. */
  function StringOr(doc: Value, key: string, prior: string): string
  {
    match StringMember(doc, key)
    case Some(s) => s
    case None => prior
  }

  /** All three identity fields are known. */
  predicate Complete(meta: EcsMeta)
  {
    meta.instanceID != "" && meta.userID != "" && meta.regionID != ""
  }

  /** ParseECSMeta on the parsed document (None where rapidjson reports a parse
      error): false and metaObj untouched unless the document is an object;
      otherwise each field a string member of the document names is replaced,
      and the record becomes valid once all three fields are non-empty. Validity
      is never withdrawn, and it is gained only with all three fields known. */
  function ParseEcsMeta(doc: Option<Value>, meta: EcsMeta): (r: (bool, EcsMeta))
    ensures r.0 <==> doc.Some? && doc.value.Object?
    ensures !r.0 ==> r.1 == meta
    ensures r.1.isValid <==> meta.isValid || (r.0 && Complete(r.1))
  {
    if doc.None? || !doc.value.Object? then (false, meta)
    else
      var m := meta.(instanceID := StringOr(doc.value, InstanceIdKey, meta.instanceID),
                     userID := StringOr(doc.value, OwnerAccountIdKey, meta.userID),
                     regionID := StringOr(doc.value, RegionIdKey, meta.regionID));
      (true, if Complete(m) then m.(isValid := true) else m)
  }

  /** A field takes the document's string under its key when there is one and is
      kept otherwise. */
  lemma ParseEcsMetaFields(doc: Value, meta: EcsMeta)
    requires doc.Object?
    ensures var m := ParseEcsMeta(Some(doc), meta).1;
            (StringMember(doc, InstanceIdKey).Some? ==> m.instanceID == StringMember(doc, InstanceIdKey).value)
            && (StringMember(doc, InstanceIdKey).None? ==> m.instanceID == meta.instanceID)
            && (StringMember(doc, OwnerAccountIdKey).Some? ==> m.userID == StringMember(doc, OwnerAccountIdKey).value)
            && (StringMember(doc, OwnerAccountIdKey).None? ==> m.userID == meta.userID)
            && (StringMember(doc, RegionIdKey).Some? ==> m.regionID == StringMember(doc, RegionIdKey).value)
            && (StringMember(doc, RegionIdKey).None? ==> m.regionID == meta.regionID)
  {
  }

  /** FetchECSMeta once the two HTTP requests are done: response is None when
      curl could not be set up or a request failed, and otherwise the parsed
      document; the record starts empty and not valid, and the result is its
      validity. */
  function FetchEcsMeta(response: Option<Option<Value>>): (r: (bool, EcsMeta))
  {
    if response.None? then (false, EmptyMeta)
    else
      var (ok, meta) := ParseEcsMeta(response.value, EmptyMeta);
      (ok && meta.isValid, meta)
  }

  /** FetchECSMeta succeeds exactly when the document is an object holding all
      three identity fields as non-empty strings, and then the record holds them. */
  lemma FetchEcsMetaSucceeds(response: Option<Option<Value>>)
    ensures FetchEcsMeta(response).0 <==>
            response.Some? && response.value.Some? && response.value.value.Object?
            && Complete(FetchEcsMeta(response).1)
    ensures FetchEcsMeta(response).0 ==> FetchEcsMeta(response).1.isValid
  {
  }

  // ---------------------------------------------------------------------------
  // HostIdentifier
  // ---------------------------------------------------------------------------

  datatype HostIdType = Custom | Ecs | EcsAssist | Local

  datatype HostId = HostId(id: string, kind: HostIdType)

  /** What ReadFileContent yields: no file, a file it could not read, or the text. */
  datatype FileRead = Absent | Unreadable | Content(text: string)

  /** What the host-id choice depends on outside the object: the agent_host_id
      flag, the ECS assistant's machine-id file, the local host_id file and the
      UUID CalculateRandomUUID would produce. */
  datatype HostEnv = HostEnv(flagHostId: string, serialFile: FileRead, hostIdFile: FileRead, randomUuid: string)

  /** The fields of a HostIdentifier, as one value. */
  datatype IdState = IdState(hostId: HostId, metadata: EcsMeta, serialNumber: string,
                             hasTriedToGetSerialNumber: bool, localHostId: string)

  /** A read that finds no file leaves the target as it was; a failed read empties it. */
  function ReadInto(prior: string, f: FileRead): string
  {
    match f
    case Absent => prior
    case Unreadable => ""
    case Content(text) => text
  }

  /** getSerialNumberFromEcsAssist: reads the file only on its first call. */
  function SerialStep(st: IdState, serialFile: FileRead): (r: IdState)
  {
    if st.hasTriedToGetSerialNumber then st
    else st.(serialNumber := ReadInto(st.serialNumber, serialFile), hasTriedToGetSerialNumber := true)
  }

  /** getLocalHostId: nothing once an id is known; otherwise the file, and a
      fresh UUID when that leaves no id. */
  function LocalStep(st: IdState, hostIdFile: FileRead, uuid: string): (r: IdState)
  {
    if st.localHostId != "" then st
    else
      var read := ReadInto(st.localHostId, hostIdFile);
      st.(localHostId := if read == "" then uuid else read)
  }

  /** updateHostId: the flag first, then valid ECS metadata, then the ECS
      assistant's serial number, then the local id. */
  function UpdateHostIdOf(st: IdState, env: HostEnv): IdState
  {
    if env.flagHostId != "" then st.(hostId := HostId(env.flagHostId, Custom))
    else if st.metadata.isValid && st.metadata.instanceID != "" then
      st.(hostId := HostId(st.metadata.instanceID, Ecs))
    else
      var s1 := SerialStep(st, env.serialFile);
      if s1.serialNumber != "" then s1.(hostId := HostId(s1.serialNumber, EcsAssist))
      else
        var s2 := LocalStep(s1, env.hostIdFile, env.randomUuid);
        s2.(hostId := HostId(s2.localHostId, Local))
  }

  /** The host id chosen: each source wins exactly when every source before it
      is missing, and the id is the value of the source that won. */
  lemma HostIdPriority(st: IdState, env: HostEnv)
    ensures var h := UpdateHostIdOf(st, env).hostId;
            var serial := SerialStep(st, env.serialFile).serialNumber;
            (h.kind == Custom <==> env.flagHostId != "")
            && (h.kind == Custom ==> h.id == env.flagHostId)
            && (h.kind == Ecs <==> env.flagHostId == "" && st.metadata.isValid && st.metadata.instanceID != "")
            && (h.kind == Ecs ==> h.id == st.metadata.instanceID)
            && (h.kind == EcsAssist <==> env.flagHostId == "" && !(st.metadata.isValid && st.metadata.instanceID != "") && serial != "")
            && (h.kind == EcsAssist ==> h.id == serial)
            && (h.kind == Local ==> h.id == UpdateHostIdOf(st, env).localHostId)
  {
  }

  /** Only the host id and the two cached reads change; the metadata never does. */
  lemma UpdateHostIdKeepsMetadata(st: IdState, env: HostEnv)
    ensures UpdateHostIdOf(st, env).metadata == st.metadata
    ensures st.hasTriedToGetSerialNumber ==> UpdateHostIdOf(st, env).serialNumber == st.serialNumber
    ensures st.localHostId != "" ==> UpdateHostIdOf(st, env).localHostId == st.localHostId
  {
  }

  /** The serial number is read at most once: after the first attempt no file
      content changes it. */
  lemma SerialReadOnce(st: IdState, f1: FileRead, f2: FileRead)
    ensures SerialStep(SerialStep(st, f1), f2) == SerialStep(st, f1)
  {
  }

  /** The local id is read or generated at most once: once known, neither the file
      nor a new UUID changes it. */
  lemma LocalIdSticky(st: IdState, f1: FileRead, u1: string, f2: FileRead, u2: string)
    requires LocalStep(st, f1, u1).localHostId != ""
    ensures LocalStep(LocalStep(st, f1, u1), f2, u2) == LocalStep(st, f1, u1)
  {
  }

  /** With the flag unchanged, a second updateHostId changes nothing once the first
      chose a non-empty id, whatever the files and the UUID say the second time. */
  lemma UpdateHostIdStable(st: IdState, env: HostEnv, env2: HostEnv)
    requires env2.flagHostId == env.flagHostId
    requires UpdateHostIdOf(st, env).hostId.id != ""
    ensures UpdateHostIdOf(UpdateHostIdOf(st, env), env2) == UpdateHostIdOf(st, env)
  {
    var s := UpdateHostIdOf(st, env);
    if env.flagHostId == "" && !(st.metadata.isValid && st.metadata.instanceID != "") {
      var s1 := SerialStep(st, env.serialFile);
      SerialReadOnce(st, env.serialFile, env2.serialFile);
      if s1.serialNumber == "" {
        LocalIdSticky(s1, env.hostIdFile, env.randomUuid, env2.hostIdFile, env2.randomUuid);
      }
    }
  }

  /** The host identity of the agent (the non-enterprise build). */
  class HostIdentifier {
    var hostId: HostId
    var metadata: EcsMeta
    var serialNumber: string
    var hasTriedToGetSerialNumber: bool
    var localHostId: string

    function State(): IdState
      reads this
    {
      IdState(hostId, metadata, serialNumber, hasTriedToGetSerialNumber, localHostId)
    }

    /** Fetches the ECS metadata (its outcome is response) and, when that
        succeeds, takes it and chooses the host id; initialHostId is the id the
        object starts with. */
    constructor (initialHostId: HostId, response: Option<Option<Value>>, env: HostEnv)
      ensures var (ok, meta) := FetchEcsMeta(response);
              var start := IdState(initialHostId, EmptyMeta, "", false, "");
              State() == if ok then UpdateHostIdOf(start.(metadata := meta), env) else start
    {
      hostId := initialHostId;
      metadata := EmptyMeta;
      serialNumber := "";
      hasTriedToGetSerialNumber := false;
      localHostId := "";
      new;
      var (ok, meta) := FetchEcsMeta(response);
      if ok {
        FetchEcsMetaSucceeds(response);
        var changed := UpdateEcsMetaAndHostId(meta, env);
      }
    }

    /** setHostId: the object ends up holding h (an equal id is left in place). */
    method SetHostId(h: HostId)
      modifies this
      ensures State() == old(State()).(hostId := h)
    {
      if hostId.id == h.id && hostId.kind == h.kind {
        return;
      }
      hostId := h;
    }

    method GetSerialNumberFromEcsAssist(serialFile: FileRead)
      modifies this
      ensures State() == SerialStep(old(State()), serialFile)
    {
      if hasTriedToGetSerialNumber {
        return;
      }
      match serialFile {
        case Absent =>
        case Unreadable => serialNumber := "";
        case Content(text) => serialNumber := text;
      }
      hasTriedToGetSerialNumber := true;
    }

    method GetLocalHostId(hostIdFile: FileRead, randomUuid: string)
      modifies this
      ensures State() == LocalStep(old(State()), hostIdFile, randomUuid)
    {
      if localHostId != "" {
        return;
      }
      match hostIdFile {
        case Absent =>
        case Unreadable => localHostId := "";
        case Content(text) => localHostId := text;
      }
      if localHostId == "" {
        localHostId := randomUuid;
      }
    }

    method UpdateHostId(env: HostEnv)
      modifies this
      ensures State() == UpdateHostIdOf(old(State()), env)
    {
      if env.flagHostId != "" {
        SetHostId(HostId(env.flagHostId, Custom));
        return;
      }
      if metadata.isValid && metadata.instanceID != "" {
        SetHostId(HostId(metadata.instanceID, Ecs));
        return;
      }
      GetSerialNumberFromEcsAssist(env.serialFile);
      if serialNumber != "" {
        SetHostId(HostId(serialNumber, EcsAssist));
        return;
      }
      GetLocalHostId(env.hostIdFile, env.randomUuid);
      SetHostId(HostId(localHostId, Local));
    }

    /** UpdateECSMetaAndHostid: a record for another instance replaces the
        metadata and the host id is chosen again, with true; a record for the
        same instance changes nothing, with false. */
    method UpdateEcsMetaAndHostId(meta: EcsMeta, env: HostEnv) returns (changed: bool)
      modifies this
      ensures changed <==> old(metadata.instanceID) != meta.instanceID
      ensures changed ==> State() == UpdateHostIdOf(old(State()).(metadata := meta), env)
      ensures !changed ==> State() == old(State())
    {
      if metadata.instanceID != meta.instanceID {
        metadata := meta;
        UpdateHostId(env);
        return true;
      }
      return false;
    }
  }
}
