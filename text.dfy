/** The slice of Python's `str` behaviour the model relies on, restricted to
    ASCII: `strip()`, `upper()`, `lower()`, `startswith`/`endswith`, `join`,
    `ljust`, `str(int)` and substring search. */
module Text {

  /** `str.isspace()` over ASCII: tab, line feed, vertical tab, form feed,
      carriage return, the four information separators and space. */
  predicate IsSpace(c: char) {
    c == ' ' || ('\t' <= c <= '\r') || ('\U{1C}' <= c <= '\U{1F}')
  }

  predicate IsDigit(c: char) {
    '0' <= c <= '9'
  }

  predicate IsUpper(c: char) {
    'A' <= c <= 'Z'
  }

  predicate IsLower(c: char) {
    'a' <= c <= 'z'
  }

  /** How many blanks `lstrip()` removes. */
  function LeadingBlanks(s: string): (n: nat)
    ensures n <= |s|
  {
    if s != [] && IsSpace(s[0]) then 1 + LeadingBlanks(s[1..]) else 0
  }

  /** The leading blanks are blanks, and what follows them is not. */
  lemma {:induction false} LeadingBlanksSpec(s: string)
    ensures forall i :: 0 <= i < LeadingBlanks(s) ==> IsSpace(s[i])
    ensures LeadingBlanks(s) == |s| || !IsSpace(s[LeadingBlanks(s)])
  {
    if s != [] && IsSpace(s[0]) {
      LeadingBlanksSpec(s[1..]);
    }
  }

  /** How many blanks `rstrip()` removes. */
  function TrailingBlanks(s: string): (n: nat)
    ensures n <= |s|
  {
    if s != [] && IsSpace(s[|s| - 1]) then 1 + TrailingBlanks(s[..|s| - 1]) else 0
  }

  /** The trailing blanks are blanks, and what precedes them is not. */
  lemma {:induction false} TrailingBlanksSpec(s: string)
    ensures forall i :: |s| - TrailingBlanks(s) <= i < |s| ==> IsSpace(s[i])
    ensures TrailingBlanks(s) == |s| || !IsSpace(s[|s| - TrailingBlanks(s) - 1])
  {
    if s != [] && IsSpace(s[|s| - 1]) {
      var t := s[..|s| - 1];
      TrailingBlanksSpec(t);
      assert forall i :: 0 <= i < |t| ==> t[i] == s[i];
    }
  }

  /** `s.lstrip()` */
  function TrimLeft(s: string): string {
    s[LeadingBlanks(s)..]
  }

  /** `s.rstrip()` */
  function TrimRight(s: string): string {
    s[..|s| - TrailingBlanks(s)]
  }

  /** `s.strip()` */
  function Strip(s: string): string {
    TrimRight(TrimLeft(s))
  }

  /** Neither end of a string is whitespace. */
  predicate Trimmed(s: string) {
    s == [] || (!IsSpace(s[0]) && !IsSpace(s[|s| - 1]))
  }

  /** `strip()` returns a piece of its input with no whitespace at either end,
      and what it removes on each side is whitespace only. */
  lemma StripSpec(s: string)
    ensures Trimmed(Strip(s))
    ensures var k := |s| - |TrimLeft(s)|;
            && k + |Strip(s)| <= |s|
            && (forall i :: 0 <= i < |Strip(s)| ==> Strip(s)[i] == s[k + i])
            && (forall i :: 0 <= i < k ==> IsSpace(s[i]))
            && (forall i :: k + |Strip(s)| <= i < |s| ==> IsSpace(s[i]))
  {
    var k := LeadingBlanks(s);
    var l := TrimLeft(s);
    LeadingBlanksSpec(s);
    TrailingBlanksSpec(l);
    var m := TrailingBlanks(l);
    var r := Strip(s);
    assert r == s[k..][..|l| - m];
    forall i | k + |r| <= i < |s| ensures IsSpace(s[i]) {
      assert s[i] == l[i - k];
    }
    if r != [] {
      assert r[0] == s[k];
      assert r[|r| - 1] == l[|l| - m - 1];
    }
  }

  /** `strip()` leaves a string without whitespace at its ends unchanged. */
  lemma StripTrimmed(s: string)
    requires Trimmed(s)
    ensures Strip(s) == s
  {
  }

  /** `strip(strip(s)) == strip(s)`. */
  lemma StripIdempotent(s: string)
    ensures Strip(Strip(s)) == Strip(s)
  {
    StripSpec(s);
    StripTrimmed(Strip(s));
  }

  function UpperChar(c: char): char {
    if IsLower(c) then (c as int - 32) as char else c
  }

  function LowerChar(c: char): char {
    if IsUpper(c) then (c as int + 32) as char else c
  }

  /** `s.upper()` over ASCII letters; other characters are kept. */
  function Upper(s: string): (r: string)
    ensures |r| == |s|
    ensures forall i :: 0 <= i < |s| ==> r[i] == UpperChar(s[i])
  {
    if s == [] then [] else [UpperChar(s[0])] + Upper(s[1..])
  }

  /** `s.lower()` over ASCII letters; other characters are kept. */
  function Lower(s: string): (r: string)
    ensures |r| == |s|
    ensures forall i :: 0 <= i < |s| ==> r[i] == LowerChar(s[i])
  {
    if s == [] then [] else [LowerChar(s[0])] + Lower(s[1..])
  }

  predicate StartsWith(s: string, prefix: string) {
    prefix <= s
  }

  /** `s.startswith(prefixes)` for a tuple of prefixes. */
  predicate StartsWithAny(s: string, prefixes: seq<string>) {
    prefixes != [] && (StartsWith(s, prefixes[0]) || StartsWithAny(s, prefixes[1..]))
  }

  /** Any member of the tuple that prefixes `s` makes `startswith` true. */
  lemma {:induction false} StartsWithMember(s: string, prefixes: seq<string>, i: nat)
    requires i < |prefixes| && StartsWith(s, prefixes[i])
    ensures StartsWithAny(s, prefixes)
    decreases i
  {
    if i > 0 {
      StartsWithMember(s, prefixes[1..], i - 1);
    }
  }

  /** Adding prefixes to the end of the tuple can only make more strings
      match. */
  lemma {:induction false} StartsWithAnyMore(s: string, prefixes: seq<string>, more: seq<string>)
    requires StartsWithAny(s, prefixes)
    ensures StartsWithAny(s, prefixes + more)
    decreases |prefixes|
  {
    assert (prefixes + more)[0] == prefixes[0];
    if !StartsWith(s, prefixes[0]) {
      StartsWithAnyMore(s, prefixes[1..], more);
      assert (prefixes + more)[1..] == prefixes[1..] + more;
    }
  }

  /** No member of the tuple matches when each begins with a character other
      than the first of `s`. */
  lemma {:induction false} StartsWithNoneFirst(s: string, prefixes: seq<string>)
    requires s != []
    requires forall i :: 0 <= i < |prefixes| ==> prefixes[i] != [] && prefixes[i][0] != s[0]
    ensures !StartsWithAny(s, prefixes)
    decreases |prefixes|
  {
    if prefixes != [] {
      StartsWithNoneFirst(s, prefixes[1..]);
    }
  }

  /** A word that is already upper-case and does not begin or end with
      whitespace still leads the text after `strip().upper()`, whatever
      follows it. */
  lemma UpperStripKeepsWord(w: string, rest: string)
    requires w != [] && !IsSpace(w[0]) && !IsSpace(w[|w| - 1])
    requires forall i :: 0 <= i < |w| ==> !IsLower(w[i])
    ensures StartsWith(Upper(Strip(w + rest)), w)
  {
    var s := w + rest;
    assert s[0] == w[0];
    assert TrimLeft(s) == s;
    TrailingBlanksSpec(s);
    assert s[|w| - 1] == w[|w| - 1];
    var r := TrimRight(s);
    assert |w| <= |r|;
    forall i | 0 <= i < |w| ensures Upper(r)[i] == w[i] {
      assert r[i] == s[i] == w[i];
    }
  }

  /** Lower-casing does not move whitespace, so it commutes with `lstrip`. */
  lemma {:induction false} TrimLeftLower(s: string)
    ensures TrimLeft(Lower(s)) == Lower(TrimLeft(s))
    decreases |s|
  {
    if s != [] && IsSpace(s[0]) {
      assert Lower(s)[1..] == Lower(s[1..]);
      TrimLeftLower(s[1..]);
    }
  }

  /** Lower-casing commutes with `rstrip`. */
  lemma {:induction false} TrimRightLower(s: string)
    ensures TrimRight(Lower(s)) == Lower(TrimRight(s))
    decreases |s|
  {
    if s != [] && IsSpace(s[|s| - 1]) {
      assert Lower(s)[..|s| - 1] == Lower(s[..|s| - 1]);
      TrimRightLower(s[..|s| - 1]);
    }
  }

  /** Upper-casing forgets any earlier lower-casing. */
  lemma UpperLower(t: string)
    ensures Upper(Lower(t)) == Upper(t)
  {
    forall i | 0 <= i < |t| ensures Upper(Lower(t))[i] == Upper(t)[i] {
      assert Lower(t)[i] == LowerChar(t[i]);
    }
  }

  /** `s.lower().strip().upper() == s.strip().upper()`: a test on the
      trimmed, upper-cased text does not depend on the case of the input. */
  lemma UpperStripLower(s: string)
    ensures Upper(Strip(Lower(s))) == Upper(Strip(s))
  {
    TrimLeftLower(s);
    TrimRightLower(TrimLeft(s));
    assert Strip(Lower(s)) == Lower(Strip(s));
    UpperLower(Strip(s));
  }

  predicate EndsWith(s: string, suffix: string) {
    |suffix| <= |s| && s[|s| - |suffix|..] == suffix
  }

  /** `s[len(p):]` when `s.startswith(p)`, else `s`. */
  function DropPrefix(s: string, p: string): string {
    if StartsWith(s, p) then s[|p|..] else s
  }

  /** `s[:-len(q)]` when `s.endswith(q)`, else `s`. */
  function DropSuffix(s: string, q: string): string {
    if EndsWith(s, q) then s[..|s| - |q|] else s
  }

  lemma DropPrefixOf(p: string, t: string)
    ensures StartsWith(p + t, p) && DropPrefix(p + t, p) == t
  {
    assert (p + t)[..|p|] == p;
  }

  lemma DropSuffixOf(t: string, q: string)
    ensures EndsWith(t + q, q) && DropSuffix(t + q, q) == t
  {
    assert (t + q)[|t|..] == q;
  }

  /** A common head does not change whether one string starts with
      another. */
  lemma StartsWithCancel(p: string, x: string, y: string)
    ensures StartsWith(p + x, p + y) <==> StartsWith(x, y)
  {
    if StartsWith(p + x, p + y) {
      assert forall i :: 0 <= i < |y| ==> x[i] == (p + x)[|p| + i] == (p + y)[|p| + i] == y[i];
      assert x[..|y|] == y;
    }
    if StartsWith(x, y) {
      assert forall i :: 0 <= i < |p + y| ==> (p + x)[i] == (p + y)[i];
    }
  }

  /** A string that starts with `p + y` starts with `p`. */
  lemma StartsWithLonger(s: string, p: string, y: string)
    requires StartsWith(s, p + y)
    ensures StartsWith(s, p)
  {
    assert forall i :: 0 <= i < |p| ==> s[i] == (p + y)[i] == p[i];
  }

  /** `sep.join(parts)` */
  function Join(parts: seq<string>, sep: string): string
    decreases |parts|
  {
    if |parts| == 0 then ""
    else if |parts| == 1 then parts[0]
    else parts[0] + sep + Join(parts[1..], sep)
  }

  /** Appending one more part to a join adds one separator and the part. */
  lemma {:induction false} JoinSnoc(parts: seq<string>, p: string, sep: string)
    requires parts != []
    ensures Join(parts + [p], sep) == Join(parts, sep) + sep + p
    decreases |parts|
  {
    if |parts| == 1 {
      assert parts + [p] == [parts[0], p];
    } else {
      assert (parts + [p])[1..] == parts[1..] + [p];
      JoinSnoc(parts[1..], p, sep);
    }
  }

  /** Every part of a join occurs in it. */
  lemma {:induction false} JoinOccurs(parts: seq<string>, sep: string, i: nat)
    requires i < |parts|
    ensures Occurs(parts[i], Join(parts, sep))
    decreases |parts|
  {
    if |parts| == 1 {
      assert OccursAt(parts[0], Join(parts, sep), 0);
    } else if i == 0 {
      assert OccursAt(parts[0], Join(parts, sep), 0);
    } else {
      var rest := Join(parts[1..], sep);
      JoinOccurs(parts[1..], sep, i - 1);
      OccursWithin(parts[i], rest, parts[0] + sep, "");
      assert parts[0] + sep + rest + "" == Join(parts, sep);
    }
  }

  /** The length of a join of parts of lengths `widths` with a separator of
      length `sepLength`. */
  function JoinedWidth(widths: seq<nat>, sepLength: nat): nat
    decreases |widths|
  {
    if |widths| == 0 then 0
    else if |widths| == 1 then widths[0]
    else widths[0] + sepLength + JoinedWidth(widths[1..], sepLength)
  }

  /** A join's length depends only on the lengths of its parts. */
  lemma {:induction false} JoinLength(parts: seq<string>, widths: seq<nat>, sep: string)
    requires |parts| == |widths| && forall j :: 0 <= j < |parts| ==> |parts[j]| == widths[j]
    ensures |Join(parts, sep)| == JoinedWidth(widths, |sep|)
    decreases |parts|
  {
    if |parts| > 1 {
      JoinLength(parts[1..], widths[1..], sep);
    }
  }

  /** An occurrence inside an occurrence is an occurrence. */
  lemma OccursTransitive(t: string, s: string, u: string)
    requires Occurs(t, s) && Occurs(s, u)
    ensures Occurs(t, u)
  {
    var i :| OccursAt(t, s, i);
    var j :| OccursAt(s, u, j);
    forall k | 0 <= k < |t| ensures u[j + i + k] == t[k] {
      assert u[j + i + k] == u[j..j + |s|][i + k] == s[i + k] == s[i..i + |t|][k];
    }
    assert u[j + i..j + i + |t|] == t;
    assert OccursAt(t, u, j + i);
  }

  /** `c * n` */
  function Repeat(c: char, n: nat): (r: string)
    ensures |r| == n && forall i :: 0 <= i < n ==> r[i] == c
  {
    if n == 0 then [] else [c] + Repeat(c, n - 1)
  }

  /** `s.ljust(width)`: pad on the right with spaces up to `width`; a string
      already that long is returned as it is. */
  function LJust(s: string, width: int): (r: string)
    ensures |r| == if |s| < width then width else |s|
    ensures s <= r
    ensures forall i :: |s| <= i < |r| ==> r[i] == ' '
  {
    if |s| < width then s + Repeat(' ', width - |s|) else s
  }

  function DigitChar(d: nat): char
    requires d < 10
  {
    "0123456789"[d]
  }

  /** `str(n)` for a natural number: its decimal digits. */
  function NatToString(n: nat): (r: string)
    ensures r != [] && forall i :: 0 <= i < |r| ==> IsDigit(r[i])
  {
    if n < 10 then [DigitChar(n)] else NatToString(n / 10) + [DigitChar(n % 10)]
  }

  /** `str(i)` for an integer. */
  function IntToString(i: int): (r: string)
    ensures r != [] && IsDigit(r[|r| - 1])
  {
    if i < 0 then "-" + NatToString(-i) else NatToString(i)
  }

  /** The value of a string of decimal digits. */
  function DigitsValue(s: string): int
    requires forall i :: 0 <= i < |s| ==> IsDigit(s[i])
  {
    if s == [] then 0 else 10 * DigitsValue(s[..|s| - 1]) + (s[|s| - 1] as int - '0' as int)
  }

  /** Reading the digits of `str(n)` gives `n` back. */
  lemma {:induction false} NatToStringRoundTrip(n: nat)
    ensures DigitsValue(NatToString(n)) == n
  {
    if n >= 10 {
      NatToStringRoundTrip(n / 10);
      var s := NatToString(n);
      assert s[..|s| - 1] == NatToString(n / 10);
    }
  }

  /** `t in s` for strings. */
  ghost predicate Occurs(t: string, s: string) {
    exists i :: OccursAt(t, s, i)
  }

  /** `t` occurs in `s` starting at index `i`. */
  predicate OccursAt(t: string, s: string, i: int) {
    0 <= i && i + |t| <= |s| && s[i..i + |t|] == t
  }

  /** A string occurs in any text that has it in the middle. */
  lemma OccursInMiddle(a: string, t: string, b: string)
    ensures Occurs(t, a + t + b)
  {
    assert OccursAt(t, a + t + b, |a|);
  }

  /** An occurrence survives putting more text around it. */
  lemma {:induction false} OccursWithin(t: string, s: string, a: string, b: string)
    requires Occurs(t, s)
    ensures Occurs(t, a + s + b)
  {
    var i :| OccursAt(t, s, i);
    assert (a + s + b)[|a| + i..|a| + i + |t|] == s[i..i + |t|];
    assert OccursAt(t, a + s + b, |a| + i);
  }

  /** What `strip()` keeps reaches from the first to the last non-blank
      character. */
  lemma StripKeepsRange(s: string, a: nat, n: nat)
    requires 0 < n && a + n <= |s| && !IsSpace(s[a]) && !IsSpace(s[a + n - 1])
    ensures var k := |s| - |TrimLeft(s)|; k <= a && a + n <= k + |Strip(s)|
  {
    StripSpec(s);
  }

  /** An occurrence inside the window `s[k..k + |r|]` that `r` copies is an
      occurrence in `r`. */
  lemma OccursInWindow(t: string, s: string, r: string, k: nat, a: int)
    requires k + |r| <= |s| && forall i :: 0 <= i < |r| ==> r[i] == s[k + i]
    requires OccursAt(t, s, a) && k <= a && a + |t| <= k + |r|
    ensures OccursAt(t, r, a - k)
  {
    forall m | 0 <= m < |t| ensures r[a - k + m] == t[m] {
      assert r[a - k + m] == s[k + (a - k + m)];
      assert s[a + m] == s[a..a + |t|][m];
    }
    assert r[a - k..a - k + |t|] == t;
  }

  /** An occurrence whose ends are not whitespace survives `strip()`, shifted
      by what `lstrip()` removes. */
  lemma OccursAtStrip(t: string, s: string, a: int)
    requires OccursAt(t, s, a) && t != [] && Trimmed(t)
    ensures OccursAt(t, Strip(s), a - (|s| - |TrimLeft(s)|))
  {
    assert s[a] == t[0] && s[a + |t| - 1] == t[|t| - 1] by {
      assert s[a..a + |t|] == t;
    }
    StripKeepsRange(s, a, |t|);
    StripSpec(s);
    OccursInWindow(t, s, Strip(s), |s| - |TrimLeft(s)|, a);
  }

  /** `strip()` of a text with a non-blank character somewhere is not empty. */
  lemma StripNonEmpty(s: string, i: nat)
    requires i < |s| && !IsSpace(s[i])
    ensures Strip(s) != []
  {
    OccursAtStrip([s[i]], s, i);
  }

  /** Text with non-blank characters on both sides of `x` keeps `x` through
      `strip()`. */
  lemma OccursStripped(a: string, x: string, b: string, i: nat, j: nat)
    requires i < |a| && !IsSpace(a[i]) && j < |b| && !IsSpace(b[j])
    ensures Occurs(x, Strip(a + x + b))
  {
    var s := a + x + b;
    StripSpec(s);
    var k := |s| - |TrimLeft(s)|;
    var r := Strip(s);
    assert s[i] == a[i] && s[|a| + |x| + j] == b[j];
    assert k <= i && |a| + |x| + j < k + |r|;
    forall m | 0 <= m < |x| ensures r[|a| - k + m] == x[m] {
      assert s[|a| + m] == x[m];
    }
    assert OccursAt(x, r, |a| - k);
  }

  /** A join starts with its first part. */
  lemma JoinFirst(parts: seq<string>, sep: string)
    requires parts != []
    ensures OccursAt(parts[0], Join(parts, sep), 0)
  {
  }

  /** A join is the join of the parts before `j`, a separator, and the join of
      the rest. */
  lemma {:induction false} JoinSplit(parts: seq<string>, sep: string, j: nat)
    requires 0 < j < |parts|
    ensures Join(parts, sep) == Join(parts[..j], sep) + sep + Join(parts[j..], sep)
    decreases j
  {
    if j > 1 {
      JoinSplit(parts[1..], sep, j - 1);
      assert parts[1..][..j - 1] == parts[..j][1..];
      assert parts[1..][j - 1..] == parts[j..];
    }
  }

  /** `s.split(c)` for a one-character separator. */
  function Split(s: string, c: char): (r: seq<string>)
    ensures |r| >= 1
  {
    if s == [] then [""]
    else
      var rest := Split(s[1..], c);
      if s[0] == c then [""] + rest else [[s[0]] + rest[0]] + rest[1..]
  }

  /** Text without the separator extends the first piece of a split. */
  lemma {:induction false} SplitNoSep(x: string, y: string, c: char)
    requires c !in x
    ensures Split(x + y, c) == [x + Split(y, c)[0]] + Split(y, c)[1..]
    decreases |x|
  {
    if x != [] {
      assert (x + y)[0] == x[0] && (x + y)[1..] == x[1..] + y;
      SplitNoSep(x[1..], y, c);
      assert [x[0]] + (x[1..] + Split(y, c)[0]) == x + Split(y, c)[0];
    } else {
      var r := Split(y, c);
      assert x + y == y && x + r[0] == r[0];
      assert [r[0]] + r[1..] == r;
    }
  }

  /** Splitting a join on its one-character separator gives the parts back,
      when no part holds that character. */
  lemma {:induction false} SplitJoin(parts: seq<string>, c: char)
    requires parts != [] && forall i :: 0 <= i < |parts| ==> c !in parts[i]
    ensures Split(Join(parts, [c]), c) == parts
    decreases |parts|
  {
    if |parts| == 1 {
      SplitNoSep(parts[0], "", c);
      assert parts[0] + "" == parts[0] && Split("", c) == [""];
      assert Join(parts, [c]) == parts[0] && parts == [parts[0]];
    } else {
      var rest := Join(parts[1..], [c]);
      SplitJoin(parts[1..], c);
      SplitNoSep(parts[0], [c] + rest, c);
      assert ([c] + rest)[1..] == rest;
      assert Split([c] + rest, c) == [""] + parts[1..];
      assert Join(parts, [c]) == parts[0] + ([c] + rest);
      assert parts[0] + "" == parts[0];
      assert [parts[0]] + parts[1..] == parts;
    }
  }

  /** A prefix of an occurring string occurs at the same place. */
  lemma OccursAtPrefix(h: string, t: string, s: string, a: int)
    requires OccursAt(t, s, a) && h <= t
    ensures OccursAt(h, s, a)
  {
    assert s[a..a + |h|] == s[a..a + |t|][..|h|];
  }

  /** An occurrence stays put when text is appended, and moves by the length
      of what is prepended. */
  lemma OccursAtConcat(t: string, x: string, y: string, a: int)
    ensures OccursAt(t, x, a) ==> OccursAt(t, x + y, a)
    ensures OccursAt(t, y, a) ==> OccursAt(t, x + y, |x| + a)
  {
    if OccursAt(t, x, a) {
      assert (x + y)[a..a + |t|] == x[a..a + |t|];
    }
    if OccursAt(t, y, a) {
      assert (x + y)[|x| + a..|x| + a + |t|] == y[a..a + |t|];
    }
  }

  /** A prefix of a part before `j` occurs in the join within the parts before
      `j`. */
  lemma JoinEarlier(parts: seq<string>, sep: string, i: nat, j: nat, h: string)
    requires i < j < |parts| && h != [] && h <= parts[i]
    ensures exists a :: a < |Join(parts[..j], sep)| && OccursAt(h, Join(parts, sep), a)
  {
    var front := Join(parts[..j], sep);
    var back := Join(parts[j..], sep);
    JoinSplit(parts, sep, j);
    assert Join(parts, sep) == front + (sep + back);
    JoinOccurs(parts[..j], sep, i);
    assert parts[..j][i] == parts[i];
    var a0 :| OccursAt(parts[i], front, a0);
    OccursAtPrefix(h, parts[i], front, a0);
    OccursAtConcat(h, front, sep + back, a0);
  }

  /** A prefix of the part at `j` occurs right after the parts before `j` and a
      separator. */
  lemma JoinLater(parts: seq<string>, sep: string, j: nat, h: string)
    requires 0 < j < |parts| && h <= parts[j]
    ensures OccursAt(h, Join(parts, sep), |Join(parts[..j], sep)| + |sep|)
  {
    var front := Join(parts[..j], sep);
    var back := Join(parts[j..], sep);
    JoinSplit(parts, sep, j);
    assert Join(parts, sep) == front + (sep + back);
    JoinFirst(parts[j..], sep);
    OccursAtPrefix(h, parts[j], back, 0);
    OccursAtConcat(h, sep, back, 0);
    OccursAtConcat(h, front, sep + back, |sep|);
  }

  /** In a stripped join, the start of an earlier part comes before the start
      of a later one, when both starts are non-blank at their ends. */
  lemma JoinedInOrder(parts: seq<string>, sep: string, i: nat, j: nat, hi: string, hj: string)
    requires i < j < |parts|
    requires hi != [] && Trimmed(hi) && hi <= parts[i]
    requires hj != [] && Trimmed(hj) && hj <= parts[j]
    ensures exists a, b :: a < b && OccursAt(hi, Strip(Join(parts, sep)), a) && OccursAt(hj, Strip(Join(parts, sep)), b)
  {
    var s := Join(parts, sep);
    var b0 := |Join(parts[..j], sep)| + |sep|;
    JoinEarlier(parts, sep, i, j, hi);
    var a0 :| a0 < |Join(parts[..j], sep)| && OccursAt(hi, s, a0);
    JoinLater(parts, sep, j, hj);
    StripKeepsOrder(hi, hj, s, a0, b0);
  }

  /** `strip()` keeps the order of two occurrences whose ends are not
      blank. */
  lemma StripKeepsOrder(hi: string, hj: string, s: string, a: int, b: int)
    requires a < b && OccursAt(hi, s, a) && OccursAt(hj, s, b)
    requires hi != [] && Trimmed(hi) && hj != [] && Trimmed(hj)
    ensures exists a', b' :: a' < b' && OccursAt(hi, Strip(s), a') && OccursAt(hj, Strip(s), b')
  {
    OccursAtStrip(hi, s, a);
    OccursAtStrip(hj, s, b);
  }
}
