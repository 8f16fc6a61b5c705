/**
  String operations with the meaning Python's `str` methods give them:
  `strip`, `lower`, `upper`, `in`, `find`, `split`, `join`, `replace`,
  `startswith`, `endswith`, and `int()` over decimal digits.
  Case mapping covers ASCII letters only.
 */
module Text {
  import opened Wrappers

  /** The characters for which Python's `str.isspace()` holds; `\s` in a
      Python regular expression and `str.strip()` use the same set. */
  predicate IsSpace(c: char) {
    var n := c as int;
    n == 0x20 || (0x09 <= n <= 0x0D) || (0x1C <= n <= 0x1F) || n == 0x85 || n == 0xA0
    || n == 0x1680 || (0x2000 <= n <= 0x200A) || n == 0x2028 || n == 0x2029
    || n == 0x202F || n == 0x205F || n == 0x3000
  }

  predicate IsDigit(c: char) { '0' <= c <= '9' }

  predicate IsAsciiLetter(c: char) { ('a' <= c <= 'z') || ('A' <= c <= 'Z') }

  function LowerChar(c: char): char {
    if 'A' <= c <= 'Z' then (c as int + 32) as char else c
  }

  function UpperChar(c: char): char {
    if 'a' <= c <= 'z' then (c as int - 32) as char else c
  }

  /** `s.lower()`, on ASCII letters. */
  function Lower(s: string): (r: string)
    ensures |r| == |s|
    ensures forall i :: 0 <= i < |s| ==> r[i] == LowerChar(s[i])
  {
    seq(|s|, i requires 0 <= i < |s| => LowerChar(s[i]))
  }

  /** `s.upper()`, on ASCII letters. */
  function Upper(s: string): (r: string)
    ensures |r| == |s|
    ensures forall i :: 0 <= i < |s| ==> r[i] == UpperChar(s[i])
  {
    seq(|s|, i requires 0 <= i < |s| => UpperChar(s[i]))
  }

  lemma LowerAppend(a: string, b: string)
    ensures Lower(a + b) == Lower(a) + Lower(b)
  {
    assert forall i :: 0 <= i < |a + b| ==> Lower(a + b)[i] == (Lower(a) + Lower(b))[i];
  }

  lemma UpperAppend(a: string, b: string)
    ensures Upper(a + b) == Upper(a) + Upper(b)
  {
    assert forall i :: 0 <= i < |a + b| ==> Upper(a + b)[i] == (Upper(a) + Upper(b))[i];
  }

  lemma LowerIdempotent(s: string)
    ensures Lower(Lower(s)) == Lower(s)
  {
  }

  /** `s.lstrip()` */
  function TrimStart(s: string): (r: string)
    ensures |r| <= |s|
    ensures r == [] || !IsSpace(r[0])
  {
    if |s| > 0 && IsSpace(s[0]) then TrimStart(s[1..]) else s
  }

  /** `lstrip` removes a prefix of white space only. */
  lemma {:induction false} TrimStartRemovesSpace(s: string)
    ensures TrimStart(s) == s[|s| - |TrimStart(s)|..]
    ensures forall i :: 0 <= i < |s| - |TrimStart(s)| ==> IsSpace(s[i])
  {
    if |s| > 0 && IsSpace(s[0]) {
      TrimStartRemovesSpace(s[1..]);
      assert forall i :: 0 < i < |s| ==> s[i] == s[1..][i - 1];
      assert s[1..][|s| - 1 - |TrimStart(s)|..] == s[|s| - |TrimStart(s)|..];
    }
  }

  /** `s.rstrip()` */
  function TrimEnd(s: string): (r: string)
    ensures |r| <= |s|
    ensures r == [] || !IsSpace(r[|r| - 1])
  {
    if |s| > 0 && IsSpace(s[|s| - 1]) then TrimEnd(s[..|s| - 1]) else s
  }

  /** `rstrip` removes a suffix of white space only. */
  lemma {:induction false} TrimEndRemovesSpace(s: string)
    ensures TrimEnd(s) == s[..|TrimEnd(s)|]
    ensures forall i :: |TrimEnd(s)| <= i < |s| ==> IsSpace(s[i])
  {
    if |s| > 0 && IsSpace(s[|s| - 1]) {
      TrimEndRemovesSpace(s[..|s| - 1]);
      assert s[..|s| - 1][..|TrimEnd(s)|] == s[..|TrimEnd(s)|];
    }
  }

  /** `s.strip()`: no white space is left at either end. */
  function Strip(s: string): (r: string)
    ensures |r| <= |s|
    ensures r == [] || (!IsSpace(r[0]) && !IsSpace(r[|r| - 1]))
  {
    TrimEndRemovesSpace(TrimStart(s));
    TrimEnd(TrimStart(s))
  }

  /** A string of white space strips to nothing. */
  lemma {:induction false} StripAllSpace(s: string)
    requires forall i :: 0 <= i < |s| ==> IsSpace(s[i])
    ensures Strip(s) == []
  {
    if s != [] {
      assert forall i :: 0 <= i < |s[1..]| ==> s[1..][i] == s[i + 1];
      StripAllSpace(s[1..]);
      assert TrimStart(s) == TrimStart(s[1..]);
    }
  }

  lemma StripNoSpace(s: string)
    requires s == [] || (!IsSpace(s[0]) && !IsSpace(s[|s| - 1]))
    ensures Strip(s) == s
  {
  }

  /** Stripping keeps a slice of the string. */
  lemma StripOffset(s: string) returns (i: nat)
    ensures i + |Strip(s)| <= |s| && Strip(s) == s[i..i + |Strip(s)|]
  {
    TrimStartRemovesSpace(s);
    var t := TrimStart(s);
    TrimEndRemovesSpace(t);
    i := |s| - |t|;
  }

  /** Stripping adds no character. */
  lemma StripInside(s: string, c: char)
    requires c !in s
    ensures c !in Strip(s)
  {
    var i := StripOffset(s);
    assert forall k :: 0 <= k < |Strip(s)| ==> Strip(s)[k] == s[i + k];
  }

  /** `strip()` cuts white space only, before and after the slice it keeps. */
  lemma StripFrame(s: string) returns (j: nat)
    ensures j + |Strip(s)| <= |s| && Strip(s) == s[j..j + |Strip(s)|]
    ensures forall i :: 0 <= i < j ==> IsSpace(s[i])
    ensures forall i :: j + |Strip(s)| <= i < |s| ==> IsSpace(s[i])
  {
    TrimStartRemovesSpace(s);
    var t := TrimStart(s);
    j := |s| - |t|;
    TrimEndRemovesSpace(t);
    var m := |TrimEnd(t)|;
    assert Strip(s) == TrimEnd(t) == t[..m];
    assert t[..m] == s[j..j + m];
    forall i | j + m <= i < |s|
      ensures IsSpace(s[i])
    {
      assert s[i] == t[i - j];
    }
  }

  /** An occurrence with no white space at its ends lies inside a frame
      outside which there is only white space. */
  lemma OccurrenceInFrame(s: string, p: string, j: nat, n: nat, k: nat)
    requires j + n <= |s| && k + |p| <= |s| && s[k..k + |p|] == p
    requires p != [] && !IsSpace(p[0]) && !IsSpace(p[|p| - 1])
    requires forall i :: 0 <= i < j ==> IsSpace(s[i])
    requires forall i :: j + n <= i < |s| ==> IsSpace(s[i])
    ensures j <= k && k + |p| <= j + n
  {
    assert s[k] == p[0];
    assert s[k + |p| - 1] == p[|p| - 1];
  }

  /** An occurrence inside a slice is an occurrence in that slice. */
  lemma ContainsInFrame(s: string, p: string, j: nat, n: nat, k: nat)
    requires j <= k && k + |p| <= j + n <= |s| && s[k..k + |p|] == p
    ensures Contains(s[j..j + n], p)
  {
    var t := s[j..j + n];
    forall i | 0 <= i < |p|
      ensures p[i] == t[k - j + i]
    {
      assert p[i] == s[k..k + |p|][i] == s[k + i];
    }
    assert t[k - j..k - j + |p|] == p;
    ContainsAt(t, k - j, p);
  }

  /** Stripping keeps an occurrence that neither starts nor ends with white space. */
  lemma StripKeepsInner(s: string, p: string)
    requires Contains(s, p) && p != [] && !IsSpace(p[0]) && !IsSpace(p[|p| - 1])
    ensures Contains(Strip(s), p)
  {
    var j := StripFrame(s);
    InnerInFrame(s, p, j, |Strip(s)|);
  }

  /** An occurrence without white space at its ends lies in any slice
      outside which there is only white space. */
  lemma InnerInFrame(s: string, p: string, j: nat, n: nat)
    requires Contains(s, p) && p != [] && !IsSpace(p[0]) && !IsSpace(p[|p| - 1])
    requires j + n <= |s|
    requires forall i :: 0 <= i < j ==> IsSpace(s[i])
    requires forall i :: j + n <= i < |s| ==> IsSpace(s[i])
    ensures Contains(s[j..j + n], p)
  {
    var k := ContainsWitness(s, p);
    OccurrenceInFrame(s, p, j, n, k);
    ContainsInFrame(s, p, j, n, k);
  }

  /** `s.strip(c)` for one character `c`. */
  function StripChar(s: string, c: char): (r: string)
    ensures |r| <= |s|
    ensures r == [] || (r[0] != c && r[|r| - 1] != c)
  {
    if |s| > 0 && s[0] == c then StripChar(s[1..], c)
    else if |s| > 0 && s[|s| - 1] == c then StripChar(s[..|s| - 1], c)
    else s
  }

  /** `s.rstrip(c)` for one character `c`. */
  function TrimEndChar(s: string, c: char): (r: string)
    ensures r <= s
    ensures r == [] || r[|r| - 1] != c
    ensures forall i :: |r| <= i < |s| ==> s[i] == c
  {
    if |s| > 0 && s[|s| - 1] == c then TrimEndChar(s[..|s| - 1], c) else s
  }

  /** `p in s` for strings. */
  predicate Contains(s: string, p: string) {
    p <= s || (|s| > 0 && Contains(s[1..], p))
  }

  predicate ContainsChar(s: string, c: char) { c in s }

  lemma ContainsAppendLeft(a: string, b: string, p: string)
    requires Contains(a, p)
    ensures Contains(a + b, p)
  {
    if p <= a {
      assert p <= a + b;
    } else {
      ContainsAppendLeft(a[1..], b, p);
      assert (a + b)[1..] == a[1..] + b;
    }
  }

  lemma ContainsAppendRight(a: string, b: string, p: string)
    requires Contains(b, p)
    ensures Contains(a + b, p)
  {
    if a == [] {
      assert a + b == b;
    } else {
      assert (a + b)[1..] == a[1..] + b;
      ContainsAppendRight(a[1..], b, p);
    }
  }

  lemma ContainsAt(s: string, i: nat, p: string)
    requires i + |p| <= |s| && s[i..i + |p|] == p
    ensures Contains(s, p)
  {
    if i > 0 {
      ContainsAt(s[1..], i - 1, p);
    } else {
      assert p <= s;
    }
  }

  lemma ContainsMiddle(a: string, p: string, b: string)
    ensures Contains(a + p + b, p)
  {
    assert (a + p + b)[|a|..|a| + |p|] == p;
    ContainsAt(a + p + b, |a|, p);
  }

  lemma ContainsWitness(s: string, p: string) returns (i: nat)
    requires Contains(s, p)
    ensures i + |p| <= |s| && s[i..i + |p|] == p
  {
    if p <= s {
      i := 0;
    } else {
      var j := ContainsWitness(s[1..], p);
      i := j + 1;
    }
  }

  /** A pattern with a character the text lacks does not occur in it. */
  lemma {:induction false} MissingCharNotContained(s: string, p: string, k: nat)
    requires k < |p| && p[k] !in s
    ensures !Contains(s, p)
  {
    assert k < |s| ==> s[k] in s;
    if |s| > 0 {
      MissingCharNotContained(s[1..], p, k);
    }
  }

  /** What occurs in a slice occurs in the whole text. */
  lemma ContainedInSlice(s: string, p: string, i: nat, j: nat)
    requires i <= j <= |s| && Contains(s[i..j], p)
    ensures Contains(s, p)
  {
    var k := ContainsWitness(s[i..j], p);
    forall m | 0 <= m < |p|
      ensures s[i + k..i + k + |p|][m] == p[m]
    {
      assert p[m] == s[i..j][k..k + |p|][m] == s[i..j][k + m];
    }
    assert s[i + k..i + k + |p|] == p;
    ContainsAt(s, i + k, p);
  }

  /** A slice of a text holds no pattern the text lacks. */
  lemma NotContainedInSlice(s: string, p: string, i: nat, j: nat)
    requires i <= j <= |s| && !Contains(s, p)
    ensures !Contains(s[i..j], p)
  {
    if Contains(s[i..j], p) {
      ContainedInSlice(s, p, i, j);
    }
  }

  /** Stripping makes no new occurrence. */
  lemma StripKeepsAbsent(s: string, p: string)
    requires !Contains(s, p)
    ensures !Contains(Strip(s), p)
  {
    var j := StripFrame(s);
    if Contains(Strip(s), p) {
      ContainedInSlice(s, p, j, j + |Strip(s)|);
    }
  }

  /** Whatever occurs inside an occurring pattern occurs too. */
  lemma {:induction false} ContainsSlice(s: string, p: string, i: nat, j: nat)
    requires i <= j <= |p| && Contains(s, p)
    ensures Contains(s, p[i..j])
  {
    if p <= s {
      assert s[i..j] == p[i..j];
      ContainsAt(s, i, p[i..j]);
    } else {
      ContainsSlice(s[1..], p, i, j);
    }
  }

  lemma ContainsItself(s: string)
    ensures Contains(s, s)
  {
  }

  lemma ContainsEmpty(s: string)
    ensures Contains(s, [])
  {
  }

  lemma SliceJoin(s: string, p: nat, q: nat)
    requires p <= q <= |s|
    ensures s[p..q] + s[q..] == s[p..]
  {
  }

  /** `s.find(p)`, with `None` for -1. What it finds is stated by
      `FindSpec`. */
  function Find(s: string, p: string): (r: Option<nat>)
    ensures r.Some? ==> r.value + |p| <= |s|
  {
    if p <= s then Some(0)
    else if |s| == 0 then None
    else match Find(s[1..], p)
      case None => None
      case Some(k) => Some(k + 1)
  }

  /** `Find` gives the first occurrence of `p`, and `None` exactly when
      there is none. */
  lemma {:induction false} FindSpec(s: string, p: string)
    ensures var r := Find(s, p);
      && (r.Some? ==> s[r.value..r.value + |p|] == p)
      && (r.Some? ==> forall j :: 0 <= j < r.value ==> !(p <= s[j..]))
      && (r.None? <==> !Contains(s, p))
  {
    if p <= s {
      assert s[0..|p|] == p;
    } else if |s| > 0 {
      FindSpec(s[1..], p);
      match Find(s[1..], p)
      case None =>
      case Some(k) =>
        assert s[k + 1..k + 1 + |p|] == s[1..][k..k + |p|];
        forall j | 0 <= j < k + 1
          ensures !(p <= s[j..])
        {
          if j > 0 {
            assert s[j..] == s[1..][j - 1..];
          }
        }
    }
  }

  /** `Find` reports an occurrence with none before it. */
  lemma FindAt(s: string, p: string, i: nat)
    requires i + |p| <= |s| && s[i..i + |p|] == p
    requires forall j :: 0 <= j < i ==> !(p <= s[j..])
    ensures Find(s, p) == Some(i)
  {
    ContainsAt(s, i, p);
    FindSpec(s, p);
    var v := Find(s, p).value;
    assert p <= s[i..] by { assert s[i..][..|p|] == s[i..i + |p|]; }
    assert p <= s[v..] by { assert s[v..][..|p|] == s[v..v + |p|]; }
    assert !(v < i);
    assert !(i < v);
  }

  /** `s.startswith(p)` */
  predicate StartsWith(s: string, p: string) { p <= s }

  /** `s.endswith(p)` */
  predicate EndsWith(s: string, p: string) {
    |p| <= |s| && s[|s| - |p|..] == p
  }

  lemma EndsWithAppend(a: string, b: string)
    ensures EndsWith(a + b, b)
  {
    assert (a + b)[|a|..] == b;
  }

  /** `sep.join(xs)` */
  function Join(xs: seq<string>, sep: string): string {
    if |xs| == 0 then ""
    else if |xs| == 1 then xs[0]
    else xs[0] + sep + Join(xs[1..], sep)
  }

  /** `s.split(sep)` for a non-empty separator: the pieces between
      left-to-right, non-overlapping occurrences of `sep`. */
  function Split(s: string, sep: string): (r: seq<string>)
    requires |sep| > 0
    ensures |r| >= 1
    decreases |s|
  {
    match Find(s, sep)
    case None => [s]
    case Some(i) => [s[..i]] + Split(s[i + |sep|..], sep)
  }

  lemma {:induction false} NoEarlyMatch(s: string, p: string, i: nat)
    requires |p| > 0 && i <= |s|
    requires forall j :: 0 <= j < i ==> !(p <= s[j..])
    ensures !Contains(s[..i], p)
  {
    if i > 0 {
      assert !(p <= s[0..]);
      assert s[0..] == s;
      forall j | 0 <= j < i - 1 ensures !(p <= s[1..][j..]) {
        assert s[1..][j..] == s[j + 1..];
      }
      NoEarlyMatch(s[1..], p, i - 1);
      assert s[..i][1..] == s[1..][..i - 1];
    }
  }

  /** The pieces of a split never contain the separator. */
  lemma {:induction false} SplitPiecesFree(s: string, sep: string)
    requires |sep| > 0
    ensures forall k :: 0 <= k < |Split(s, sep)| ==> !Contains(Split(s, sep)[k], sep)
    decreases |s|
  {
    FindSpec(s, sep);
    match Find(s, sep)
    case None =>
    case Some(i) =>
      SplitPiecesFree(s[i + |sep|..], sep);
      NoEarlyMatch(s, sep, i);
  }

  lemma JoinCons(x: string, xs: seq<string>, sep: string)
    requires |xs| >= 1
    ensures Join([x] + xs, sep) == x + sep + Join(xs, sep)
  {
    assert ([x] + xs)[1..] == xs;
  }

  /** Joining the pieces of a split with the same separator gives back the
      string. */
  lemma {:induction false} JoinSplit(s: string, sep: string)
    requires |sep| > 0
    ensures Join(Split(s, sep), sep) == s
    decreases |s|
  {
    FindSpec(s, sep);
    match Find(s, sep)
    case None =>
    case Some(i) =>
      var rest := s[i + |sep|..];
      SplitStep(s, sep, i);
      JoinSplit(rest, sep);
      JoinCons(s[..i], Split(rest, sep), sep);
      AroundMatch(s, i, sep);
  }

  lemma AroundMatch(s: string, i: nat, sep: string)
    requires i + |sep| <= |s| && s[i..i + |sep|] == sep
    ensures s == s[..i] + sep + s[i + |sep|..]
  {
  }

  /** A pattern whose first character does not occur in `x` is found in
      `x + y` where `y` begins with it. */
  lemma FindPastFree(x: string, y: string, pat: string)
    requires pat != [] && pat <= y && pat[0] !in x
    ensures Find(x + y, pat) == Some(|x|)
  {
    var s := x + y;
    assert s[|x|..|x| + |pat|] == pat;
    forall j | 0 <= j < |x|
      ensures !(pat <= s[j..])
    {
      assert s[j..][0] == x[j];
    }
    FindAt(s, pat, |x|);
  }

  /** One step of `Split` at a known first occurrence. */
  lemma SplitStep(s: string, sep: string, i: nat)
    requires |sep| > 0 && Find(s, sep) == Some(i)
    ensures Split(s, sep) == [s[..i]] + Split(s[i + |sep|..], sep)
  {
  }

  /** Splitting undoes joining pieces that do not contain the separator's
      first character. */
  lemma {:induction false} SplitJoin(xs: seq<string>, sep: string)
    requires |xs| >= 1 && |sep| > 0
    requires forall k :: 0 <= k < |xs| ==> sep[0] !in xs[k]
    ensures Split(Join(xs, sep), sep) == xs
    decreases |xs|
  {
    if |xs| == 1 {
      MissingCharNotContained(xs[0], sep, 0);
      FindSpec(xs[0], sep);
    } else {
      var rest := Join(xs[1..], sep);
      assert Join(xs, sep) == xs[0] + (sep + rest);
      SplitAfterFree(xs[0], rest, sep);
      SplitJoin(xs[1..], sep);
      assert [xs[0]] + xs[1..] == xs;
    }
  }

  /** Splitting a piece free of the separator's first character, followed by
      the separator, yields that piece and then the split of the rest. */
  lemma SplitAfterFree(x: string, rest: string, sep: string)
    requires |sep| > 0 && sep[0] !in x
    ensures Split(x + (sep + rest), sep) == [x] + Split(rest, sep)
  {
    var s := x + (sep + rest);
    FindPastFree(x, sep + rest, sep);
    SplitStep(s, sep, |x|);
    assert s[|x| + |sep|..] == rest;
    assert s[..|x|] == x;
  }

  /** `s.replace(pat, rep)`, including Python's rule that an empty `pat`
      inserts `rep` before every character and at the end. */
  function Replace(s: string, pat: string, rep: string): string
    decreases |s|
  {
    if pat == [] then
      (if s == [] then rep else rep + [s[0]] + Replace(s[1..], pat, rep))
    else if pat <= s then rep + Replace(s[|pat|..], pat, rep)
    else if s == [] then []
    else [s[0]] + Replace(s[1..], pat, rep)
  }

  /** Replacing a pattern that does not occur changes nothing. */
  lemma {:induction false} ReplaceAbsent(s: string, pat: string, rep: string)
    requires pat != [] && !Contains(s, pat)
    ensures Replace(s, pat, rep) == s
    decreases |s|
  {
    if s != [] {
      ReplaceAbsent(s[1..], pat, rep);
    }
  }

  /** Replacing leaves a stretch in which the pattern starts nowhere as it
      is. */
  lemma {:induction false} ReplaceBefore(s: string, pat: string, rep: string, i: nat)
    requires pat != [] && i <= |s| && forall j :: 0 <= j < i ==> !(pat <= s[j..])
    ensures Replace(s, pat, rep) == s[..i] + Replace(s[i..], pat, rep)
    decreases i
  {
    if i > 0 {
      var t := s[1..];
      assert !(pat <= s[0..]);
      ReplaceSkip(s, pat, rep);
      NoStartShift(s, pat, i);
      ReplaceBefore(t, pat, rep, i - 1);
      SliceCons(s, i);
      ConcatAssoc([s[0]], t[..i - 1], Replace(t[i - 1..], pat, rep));
    }
  }

  lemma NoStartShift(s: string, pat: string, i: nat)
    requires 0 < i <= |s| && forall j :: 0 <= j < i ==> !(pat <= s[j..])
    ensures forall j :: 0 <= j < i - 1 ==> !(pat <= s[1..][j..])
  {
    forall j | 0 <= j < i - 1
      ensures !(pat <= s[1..][j..])
    {
      assert s[1..][j..] == s[j + 1..];
    }
  }

  /** A character where the pattern does not start is copied. */
  lemma ReplaceSkip(s: string, pat: string, rep: string)
    requires pat != [] && s != [] && !(pat <= s[0..])
    ensures Replace(s, pat, rep) == [s[0]] + Replace(s[1..], pat, rep)
  {
    assert s[0..] == s;
  }

  lemma SliceCons(s: string, i: nat)
    requires 0 < i <= |s|
    ensures s[..i] == [s[0]] + s[1..][..i - 1] && s[1..][i - 1..] == s[i..]
  {
  }

  /** `s.replace(pat, rep)` for a non-empty `pat` is `rep.join(s.split(pat))`:
      every left-to-right, non-overlapping occurrence becomes `rep` and the
      text between occurrences is kept. */
  lemma {:induction false} ReplaceIsJoinSplit(s: string, pat: string, rep: string)
    requires pat != []
    ensures Replace(s, pat, rep) == Join(Split(s, pat), rep)
    decreases |s|
  {
    FindSpec(s, pat);
    match Find(s, pat)
    case None =>
      ReplaceAbsent(s, pat, rep);
    case Some(i) =>
      var rest := s[i + |pat|..];
      ReplaceAtFirst(s, pat, rep, i);
      ReplaceIsJoinSplit(rest, pat, rep);
      SplitStep(s, pat, i);
      JoinCons(s[..i], Split(rest, pat), rep);
  }

  /** Replacing up to and including the first occurrence. */
  lemma ReplaceAtFirst(s: string, pat: string, rep: string, i: nat)
    requires pat != [] && Find(s, pat) == Some(i)
    ensures Replace(s, pat, rep) == s[..i] + rep + Replace(s[i + |pat|..], pat, rep)
  {
    ReplaceUpTo(s, pat, rep, i);
    ReplaceMatchAt(s, pat, rep, i);
    ConcatAssoc(s[..i], rep, Replace(s[i + |pat|..], pat, rep));
  }

  lemma ReplaceUpTo(s: string, pat: string, rep: string, i: nat)
    requires pat != [] && Find(s, pat) == Some(i)
    ensures Replace(s, pat, rep) == s[..i] + Replace(s[i..], pat, rep)
  {
    FindSpec(s, pat);
    ReplaceBefore(s, pat, rep, i);
  }

  lemma ReplaceMatchAt(s: string, pat: string, rep: string, i: nat)
    requires pat != [] && Find(s, pat) == Some(i)
    ensures Replace(s[i..], pat, rep) == rep + Replace(s[i + |pat|..], pat, rep)
  {
    FoundAt(s, pat, i);
    var t := s[i..];
    ReplaceHere(t, pat, rep);
    assert t[|pat|..] == s[i + |pat|..];
  }

  /** The pattern starts where `Find` reports it. */
  lemma FoundAt(s: string, pat: string, i: nat)
    requires Find(s, pat) == Some(i)
    ensures i <= |s| && pat <= s[i..]
  {
    FindSpec(s, pat);
    assert s[i..][..|pat|] == s[i..i + |pat|];
  }

  lemma ConcatAssoc<T>(a: seq<T>, b: seq<T>, c: seq<T>)
    ensures a + (b + c) == a + b + c
  {
  }

  /** An occurrence at the start is replaced. */
  lemma ReplaceHere(t: string, pat: string, rep: string)
    requires pat != [] && pat <= t
    ensures Replace(t, pat, rep) == rep + Replace(t[|pat|..], pat, rep)
  {
  }

  /** After replacing every `d` by `rep`, a character absent from `rep` is
      absent from the result when it was `d` or absent from `s`. */
  lemma {:induction false} ReplaceCharGone(s: string, d: char, rep: string, c: char)
    requires c !in rep && (c == d || c !in s)
    ensures c !in Replace(s, [d], rep)
    decreases |s|
  {
    if s != [] {
      ReplaceCharGone(s[1..], d, rep, c);
      if [d] <= s {
        assert s[|[d]|..] == s[1..];
      }
    }
  }

  /** A string without upper-case ASCII letters is its own lower case. */
  lemma LowerNoUpper(s: string)
    requires forall i :: 0 <= i < |s| ==> !('A' <= s[i] <= 'Z')
    ensures Lower(s) == s
  {
  }

  /** Decimal value of a run of ASCII digits, as Python's `int()` reads it. */
  function DigitsValue(s: string): nat
    requires forall i :: 0 <= i < |s| ==> IsDigit(s[i])
  {
    if s == [] then 0
    else DigitsValue(s[..|s| - 1]) * 10 + DigitValue(s[|s| - 1])
  }

  function DigitValue(c: char): nat
    requires IsDigit(c)
  {
    c as int - '0' as int
  }

  /** The decimal text Python's `str()` gives a natural number. */
  function NatToString(n: nat): (r: string)
    ensures |r| > 0 && forall i :: 0 <= i < |r| ==> IsDigit(r[i])
    ensures DigitsValue(r) == n
  {
    if n < 10 then [('0' as int + n) as char]
    else
      var r := NatToString(n / 10) + [('0' as int + n % 10) as char];
      assert r[..|r| - 1] == NatToString(n / 10);
      r
  }
}
