/** Character and string helpers with the semantics of the C++ and Go library calls
    the core relies on: std::to_string, the digit-reading part of std::stol/strtol,
    std::getline splitting, strstr/strings.Contains searching and TrimString. */
module Strings {
  import opened Wrappers

  predicate IsDigit(c: char) { '0' <= c <= '9' }

  predicate AllDigits(s: string) { forall i :: 0 <= i < |s| ==> IsDigit(s[i]) }

  function DigitValue(c: char): nat
    requires IsDigit(c)
  {
    c as int - '0' as int
  }

  function DigitChar(d: nat): (c: char)
    requires d < 10
    ensures IsDigit(c) && DigitValue(c) == d
  {
    ('0' as int + d) as char
  }

  /** The value of a run of decimal digits, most significant first. */
  function DecimalValue(s: string): nat
    requires AllDigits(s)
    decreases |s|
  {
    if s == [] then 0 else DecimalValue(s[..|s| - 1]) * 10 + DigitValue(s[|s| - 1])
  }

  /** std::to_string of a non-negative integer: decimal, no leading zero. */
  function NatToString(n: nat): (r: string)
    ensures |r| >= 1 && AllDigits(r)
    ensures |r| > 1 ==> r[0] != '0'
  {
    if n < 10 then [DigitChar(n)] else NatToString(n / 10) + [DigitChar(n % 10)]
  }

  /** Reading back what std::to_string wrote gives the number again. */
  lemma {:induction false} NatToStringRoundTrip(n: nat)
    ensures DecimalValue(NatToString(n)) == n
  {
    if n >= 10 {
      NatToStringRoundTrip(n / 10);
      var s := NatToString(n);
      assert s[..|s| - 1] == NatToString(n / 10);
    }
  }

  /** Distinct numbers have distinct decimal strings. */
  lemma NatToStringInjective(a: nat, b: nat)
    requires NatToString(a) == NatToString(b)
    ensures a == b
  {
    NatToStringRoundTrip(a);
    NatToStringRoundTrip(b);
  }

  /** std::to_string of a signed integer. */
  function IntToString(i: int): (r: string)
    ensures |r| >= 1
    ensures i >= 0 ==> AllDigits(r)
    ensures i < 0 ==> r[0] == '-' && AllDigits(r[1..])
  {
    if i < 0 then "-" + NatToString(-i) else NatToString(i)
  }

  lemma IntToStringInjective(a: int, b: int)
    requires IntToString(a) == IntToString(b)
    ensures a == b
  {
    // the first character tells the signs apart: '-' is not a digit
    assert (a < 0) == (b < 0) by {
      assert (IntToString(a)[0] == '-') == (a < 0);
      assert (IntToString(b)[0] == '-') == (b < 0);
    }
    if a < 0 {
      assert NatToString(-a) == IntToString(a)[1..];
      assert NatToString(-b) == IntToString(b)[1..];
      NatToStringInjective(-a, -b);
    } else {
      NatToStringInjective(a, b);
    }
  }

  /** The longest prefix of s that consists of decimal digits. */
  function DigitPrefix(s: string): (r: string)
    ensures r <= s && AllDigits(r)
    ensures |r| < |s| ==> !IsDigit(s[|r|])
  {
    if s == [] || !IsDigit(s[0]) then [] else [s[0]] + DigitPrefix(s[1..])
  }

  const LongMax: int := 0x7FFF_FFFF_FFFF_FFFF
  const LongMin: int := -0x8000_0000_0000_0000

  /** std::stol/std::stoll on a string that does not start with white space: an
      optional sign, then at least one digit; None where the library throws
      (no digits, or a value outside the 64-bit range). */
  function ParseLong(s: string): (r: Option<int>)
    ensures r.Some? ==> LongMin <= r.value <= LongMax
  {
    var negative := s != [] && s[0] == '-';
    var body := if s != [] && (s[0] == '-' || s[0] == '+') then s[1..] else s;
    var digits := DigitPrefix(body);
    if digits == [] then None
    else
      var v: int := if negative then 0 - DecimalValue(digits) as int else DecimalValue(digits);
      if LongMin <= v <= LongMax then Some(v) else None
  }

  /** isspace in the C locale. */
  predicate IsSpace(c: char)
  {
    c == ' ' || '\t' <= c <= '\r'
  }

  function SkipSpace(s: string): (r: string)
    ensures r == [] || !IsSpace(r[0])
  {
    if s != [] && IsSpace(s[0]) then SkipSpace(s[1..]) else s
  }

  /** std::stoll and std::stol on a 64-bit long: white space is skipped first; None where they throw. */
  function Stoll(s: string): Option<int>
  {
    ParseLong(SkipSpace(s))
  }

  lemma DigitPrefixOfDigits(s: string)
    requires AllDigits(s)
    ensures DigitPrefix(s) == s
  {
    if s != [] {
      DigitPrefixOfDigits(s[1..]);
    }
  }

  /** stoll reads back the decimal string of any number in range. */
  lemma StollOfDecimal(n: nat)
    requires n <= LongMax
    ensures Stoll(NatToString(n)) == Some(n)
  {
    var d := NatToString(n);
    assert !IsSpace(d[0]);
    DigitPrefixOfDigits(d);
    NatToStringRoundTrip(n);
  }

  /** A slice cut in two at j. */
  lemma SliceSplit(s: string, i: nat, j: nat, k: nat)
    requires i <= j <= k <= |s|
    ensures s[i..k] == s[i..j] + s[j..k]
  {
  }

  /** Index of the first occurrence of c in s. */
  function IndexOf(s: string, c: char): (i: nat)
    requires c in s
    ensures i < |s| && s[i] == c && c !in s[..i]
  {
    if s[0] == c then 0 else 1 + IndexOf(s[1..], c)
  }

  /** The first occurrence is the only one with no earlier occurrence. */
  lemma {:induction false} IndexOfUnique(s: string, c: char, k: nat)
    requires k < |s| && s[k] == c && c !in s[..k]
    ensures IndexOf(s, c) == k
  {
    if k > 0 {
      assert s[0] == s[..k][0];
      assert s[1..][..k - 1] == s[..k][1..];
      IndexOfUnique(s[1..], c, k - 1);
    }
  }

  /** Every piece between separators, empty pieces included ("a,,b" has three). */
  function Split(s: string, sep: char): (parts: seq<string>)
    ensures |parts| >= 1
    ensures forall p :: p in parts ==> sep !in p
    decreases |s|
  {
    if sep in s then
      var i := IndexOf(s, sep);
      [s[..i]] + Split(s[i + 1..], sep)
    else
      [s]
  }

  /** The pieces joined with sep between neighbours. */
  function Join(sep: string, parts: seq<string>): string
  {
    if |parts| == 0 then ""
    else if |parts| == 1 then parts[0]
    else parts[0] + sep + Join(sep, parts[1..])
  }

  /** Splitting undoes joining when no piece holds the separator. */
  lemma {:induction false} SplitJoin(parts: seq<string>, sep: char)
    requires |parts| >= 1
    requires forall p :: p in parts ==> sep !in p
    ensures Split(Join([sep], parts), sep) == parts
  {
    if |parts| > 1 {
      var s := Join([sep], parts);
      var rest := Join([sep], parts[1..]);
      assert s == parts[0] + [sep] + rest;
      assert sep in s by { assert s[|parts[0]|] == sep; }
      assert s[..|parts[0]|] == parts[0];
      IndexOfUnique(s, sep, |parts[0]|);
      var i := IndexOf(s, sep);
      assert s[i + 1..] == rest;
      SplitJoin(parts[1..], sep);
    } else {
      assert Join([sep], parts) == parts[0];
    }
  }

  /** std::getline on a stream over s: the pieces between delimiters, except that a
      delimiter at the very end does not start a further, empty piece. */
  function GetLines(s: string, delim: char): (lines: seq<string>)
    ensures forall l :: l in lines ==> delim !in l
    decreases |s|
  {
    if s == [] then []
    else if delim in s then
      var i := IndexOf(s, delim);
      [s[..i]] + GetLines(s[i + 1..], delim)
    else
      [s]
  }

  predicate OccursAt(s: string, pat: string, i: int)
  {
    0 <= i && i + |pat| <= |s| && s[i..i + |pat|] == pat
  }

  /** The first occurrence of pat in s at or after position from, as strstr finds it. */
  function FindFrom(s: string, pat: string, from: nat): (r: Option<nat>)
    ensures r.Some? ==> from <= r.value && OccursAt(s, pat, r.value)
    ensures r.Some? ==> forall j :: from <= j < r.value ==> !OccursAt(s, pat, j)
    ensures r.None? ==> forall j :: from <= j ==> !OccursAt(s, pat, j)
    decreases |s| - from
  {
    if from + |pat| > |s| then None
    else if s[from..from + |pat|] == pat then Some(from)
    else FindFrom(s, pat, from + 1)
  }

  /** strings.Contains. */
  predicate Contains(s: string, pat: string)
  {
    FindFrom(s, pat, 0).Some?
  }

  lemma ContainsIff(s: string, pat: string)
    ensures Contains(s, pat) <==> exists i :: OccursAt(s, pat, i)
  {
    var r := FindFrom(s, pat, 0);
    if r.Some? {
      assert OccursAt(s, pat, r.value);
    }
  }

  /** TrimString(s, left, right): drop every leading `left` and every trailing `right`. */
  function TrimString(s: string, left: char, right: char): (r: string)
    ensures r == [] || (r[0] != left && r[|r| - 1] != right)
    ensures |r| <= |s|
  {
    TrimRight(TrimLeft(s, left), right)
  }

  /** Trimming keeps only characters of the original. */
  lemma TrimStringWithin(s: string, left: char, right: char)
    ensures forall x :: x in TrimString(s, left, right) ==> x in s
  {
    var l := TrimLeft(s, left);
    var r := TrimRight(l, right);
    var off := |s| - |l|;
    forall j | 0 <= j < |r|
      ensures r[j] in s
    {
      assert r[j] == l[j] == s[off + j];
    }
  }

  function TrimLeft(s: string, c: char): (r: string)
    ensures r == [] || r[0] != c
    ensures |r| <= |s| && r == s[|s| - |r|..]
    ensures forall i :: 0 <= i < |s| - |r| ==> s[i] == c
  {
    if s != [] && s[0] == c then TrimLeft(s[1..], c) else s
  }

  function TrimRight(s: string, c: char): (r: string)
    ensures r == [] || r[|r| - 1] != c
    ensures r <= s
    ensures forall i :: |r| <= i < |s| ==> s[i] == c
  {
    if s != [] && s[|s| - 1] == c then TrimRight(s[..|s| - 1], c) else s
  }

  /** Byte-wise lexicographic order, as std::string's operator< (for code points below 256). */
  predicate StrLess(a: string, b: string)
    decreases |a|
  {
    if a == [] then b != []
    else if b == [] then false
    else if a[0] != b[0] then a[0] < b[0]
    else StrLess(a[1..], b[1..])
  }

  lemma {:induction false} StrLessIrreflexive(a: string)
    ensures !StrLess(a, a)
  {
    if a != [] { StrLessIrreflexive(a[1..]); }
  }

  lemma {:induction false} StrLessTransitive(a: string, b: string, c: string)
    requires StrLess(a, b) && StrLess(b, c)
    ensures StrLess(a, c)
    decreases |a|
  {
    if a != [] && b != [] && c != [] && a[0] == b[0] && b[0] == c[0] {
      StrLessTransitive(a[1..], b[1..], c[1..]);
    }
  }

  lemma {:induction false} StrLessTotal(a: string, b: string)
    requires a != b
    ensures StrLess(a, b) || StrLess(b, a)
    decreases |a|
  {
    if a != [] && b != [] && a[0] == b[0] {
      assert a == [a[0]] + a[1..] && b == [b[0]] + b[1..];
      StrLessTotal(a[1..], b[1..]);
    }
  }

  lemma {:induction false} StrLessAsymmetric(a: string, b: string)
    ensures !(StrLess(a, b) && StrLess(b, a))
    decreases |a|
  {
    if a != [] && b != [] && a[0] == b[0] {
      StrLessAsymmetric(a[1..], b[1..]);
    }
  }

  /** k is the least string of s. */
  predicate IsLeast(k: string, s: set<string>)
  {
    k in s && forall j :: j in s ==> j == k || StrLess(k, j)
  }

  lemma {:induction false} LeastExists(s: set<string>)
    requires s != {}
    ensures exists k :: IsLeast(k, s)
    decreases |s|
  {
    var x :| x in s;
    if s == {x} {
      assert IsLeast(x, s);
    } else {
      LeastExists(s - {x});
      var m :| IsLeast(m, s - {x});
      StrLessTotal(x, m);
      if StrLess(x, m) {
        forall j | j in s
          ensures j == x || StrLess(x, j)
        {
          if j != x && j != m {
            StrLessTransitive(x, m, j);
          }
        }
        assert IsLeast(x, s);
      } else {
        assert IsLeast(m, s);
      }
    }
  }

  lemma LeastUnique(a: string, b: string, s: set<string>)
    requires IsLeast(a, s) && IsLeast(b, s)
    ensures a == b
  {
    StrLessAsymmetric(a, b);
  }

  predicate StrictlySorted(keys: seq<string>)
  {
    forall i, j :: 0 <= i < j < |keys| ==> StrLess(keys[i], keys[j])
  }

  /** A strictly sorted sequence has no repeated element. */
  lemma SortedDistinct(keys: seq<string>)
    requires StrictlySorted(keys)
    ensures forall i, j :: 0 <= i < j < |keys| ==> keys[i] != keys[j]
  {
    forall i, j | 0 <= i < j < |keys|
      ensures keys[i] != keys[j]
    {
      StrLessIrreflexive(keys[i]);
    }
  }

  /** The strings of s in ascending order: the order in which a std::map or a
      jsoncpp object enumerates its keys. */
  ghost function SortedKeys(s: set<string>): (r: seq<string>)
    ensures s == {} ==> r == []
    ensures forall k :: k in r ==> k in s
    decreases |s|
  {
    if s == {} then []
    else
      LeastExists(s);
      var k :| IsLeast(k, s);
      [k] + SortedKeys(s - {k})
  }

  /** The enumeration starts with the least key and goes on with the others. */
  lemma SortedKeysHead(s: set<string>)
    requires s != {}
    ensures var r := SortedKeys(s);
      r != [] && IsLeast(r[0], s) && r == [r[0]] + SortedKeys(s - {r[0]})
  {
  }

  /** The enumeration lists every key of s once, in ascending order. */
  lemma {:induction false} SortedKeysSorted(s: set<string>)
    ensures |SortedKeys(s)| == |s| && StrictlySorted(SortedKeys(s))
    ensures forall k :: k in SortedKeys(s) <==> k in s
    decreases |s|
  {
    if s != {} {
      SortedKeysHead(s);
      var r := SortedKeys(s);
      var rest := s - {r[0]};
      SortedKeysSorted(rest);
      assert r == [r[0]] + SortedKeys(rest);
      forall i, j | 0 <= i < j < |r|
        ensures StrLess(r[i], r[j])
      {
        if i > 0 {
          assert r[i] == SortedKeys(rest)[i - 1] && r[j] == SortedKeys(rest)[j - 1];
        } else {
          assert r[j] == SortedKeys(rest)[j - 1];
          assert r[j] in rest;
        }
      }
    }
  }

  lemma SortedKeysUnfold(s: set<string>, k: string)
    requires IsLeast(k, s)
    ensures SortedKeys(s) == [k] + SortedKeys(s - {k})
  {
    SortedKeysHead(s);
    LeastUnique(SortedKeys(s)[0], k, s);
  }

  /** Enumerates the keys of s in ascending order. */
  method SortedKeysOf(s: set<string>) returns (keys: seq<string>)
    ensures keys == SortedKeys(s)
  {
    keys := [];
    var rest := s;
    while rest != {}
      invariant keys + SortedKeys(rest) == SortedKeys(s)
      decreases |rest|
    {
      LeastExists(rest);
      var k :| IsLeast(k, rest);
      SortedKeysUnfold(rest, k);
      keys := keys + [k];
      rest := rest - {k};
    }
  }

  /** Appending a piece at the end of a join. */
  lemma {:induction false} JoinSnoc(sep: string, parts: seq<string>, p: string)
    requires |parts| >= 1
    ensures Join(sep, parts + [p]) == Join(sep, parts) + sep + p
  {
    if |parts| > 1 {
      JoinSnoc(sep, parts[1..], p);
      assert (parts + [p])[1..] == parts[1..] + [p];
    } else {
      assert (parts + [p])[1..] == [p];
    }
  }
}
