/** The marked-block update of the pull-request body. The body keeps the
    generated description between a begin and an end marker so that a later
    run can replace it in place: `upsert_block` searches the body with the
    expression `escape(begin) .*? escape(end)` (dot matching line breaks),
    replaces every match with the new block, and appends the block when there
    is none. The expression is modelled by hand: a match starts at the first
    begin marker from the search position that has an end marker after it and
    runs to the nearest such end marker. */
module Upsert {
  import opened Base
  import opened Text

  const DescBegin := "<!-- AI_PR_DESC_BEGIN -->"
  const DescEnd := "<!-- AI_PR_DESC_END -->"

  /** What goes between an existing body and an appended block. */
  const Separator := "\n\n---\n\n"

  /** The block written for `content`. */
  function Block(begin: string, content: string, end: string): string {
    begin + "\n" + content + "\n" + end
  }

  // ---------------------------------------------------------------------------
  // Substring search
  // ---------------------------------------------------------------------------

  /** The first place at or after `i` where `t` occurs in `s`. */
  function Find(t: string, s: string, i: nat): (r: Option<nat>)
    requires i <= |s|
    ensures r.Some? ==> i <= r.value && r.value + |t| <= |s|
    decreases |s| - i
  {
    if OccursAt(t, s, i) then Some(i)
    else if i == |s| then None
    else Find(t, s, i + 1)
  }

  /** A search result moved right by `n`. */
  function Shift(r: Option<nat>, n: nat): Option<nat> {
    if r.Some? then Some(r.value + n) else None
  }

  /** The search finds the first occurrence from `i`, and finds nothing only
      when there is none. */
  lemma {:induction false} FindSpec(t: string, s: string, i: nat)
    requires i <= |s|
    ensures Find(t, s, i).Some? ==> OccursAt(t, s, Find(t, s, i).value)
    ensures forall k :: i <= k <= |s| && (Find(t, s, i).None? || k < Find(t, s, i).value) ==> !OccursAt(t, s, k)
    decreases |s| - i
  {
    if !OccursAt(t, s, i) && i < |s| {
      FindSpec(t, s, i + 1);
    }
  }

  /** The first occurrence from `i` is what the search finds. */
  lemma {:induction false} FindIs(t: string, s: string, i: nat, p: nat)
    requires i <= p <= |s| && OccursAt(t, s, p)
    requires forall k :: i <= k < p ==> !OccursAt(t, s, k)
    ensures Find(t, s, i) == Some(p)
    decreases p - i
  {
    if i < p {
      FindIs(t, s, i + 1, p);
    }
  }

  /** With no occurrence from `i` on, the search finds nothing. */
  lemma {:induction false} FindNoneIs(t: string, s: string, i: nat)
    requires i <= |s|
    requires forall k :: i <= k <= |s| ==> !OccursAt(t, s, k)
    ensures Find(t, s, i) == None
    decreases |s| - i
  {
    if i < |s| {
      FindNoneIs(t, s, i + 1);
    }
  }

  /** Occurrences in `y` are occurrences in `x + y`, `|x|` further on. */
  lemma OccursAtShift(t: string, x: string, y: string, k: nat, n: nat)
    requires n == |x|
    ensures OccursAt(t, x + y, n + k) <==> OccursAt(t, y, k)
  {
    if k + |t| <= |y| {
      assert (x + y)[n + k..n + k + |t|] == y[k..k + |t|];
    }
  }

  /** Searching `x + y` past `x` (of length `n`) is searching `y`. */
  lemma {:induction false} FindShift(t: string, x: string, y: string, i: nat, n: nat)
    requires i <= |y| && n == |x|
    ensures Find(t, x + y, n + i) == Shift(Find(t, y, i), n)
    decreases |y| - i
  {
    OccursAtShift(t, x, y, i, n);
    if !OccursAt(t, y, i) && i < |y| {
      FindShift(t, x, y, i + 1, n);
    }
  }

  /** `t` starts with a character found nowhere else in it, as `<` in
      `<!-- ... -->`; such a string cannot occur overlapping a later
      occurrence of its first character. */
  predicate Anchored(t: string) {
    t != [] && forall k :: 0 < k < |t| ==> t[k] != t[0]
  }

  /** Searching `x + y` where `x` (of length `n`) holds no occurrence from
      `i` and `y` starts with the first character of an anchored `t`: nothing
      straddles the seam, so the search continues in `y`. */
  lemma {:induction false} FindSkip(t: string, x: string, y: string, i: nat, n: nat)
    requires Anchored(t) && n == |x| && i <= n && Find(t, x, i) == None
    requires y != [] && y[0] == t[0]
    ensures Find(t, x + y, i) == Shift(Find(t, y, 0), n)
    decreases n - i
  {
    if i == n {
      FindShift(t, x, y, 0, n);
    } else {
      FindSpec(t, x, i);
      assert !OccursAt(t, x + y, i) by {
        if i + |t| <= n {
          assert (x + y)[i..i + |t|] == x[i..i + |t|];
        } else if i + |t| <= |x + y| {
          assert (x + y)[i..i + |t|][n - i] == y[0];
        }
      }
      assert Find(t, x, i + 1) == None by {
        FindNoneIs(t, x, i + 1);
      }
      FindSkip(t, x, y, i + 1, n);
    }
  }

  /** Appending text that neither continues `t` nor starts it adds no
      occurrence of `t`. */
  lemma FindAppendNone(t: string, x: string, y: string)
    requires t != [] && Find(t, x, 0) == None
    requires y == [] || (y[0] !in t && t[0] !in y)
    ensures Find(t, x + y, 0) == None
  {
    FindSpec(t, x, 0);
    forall k | 0 <= k <= |x + y| ensures !OccursAt(t, x + y, k) {
      var s := x + y;
      if k + |t| <= |x| {
        OccursAtPrefix(t, x, y, k);
      } else if k + |t| <= |s| {
        var j: nat := if k < |x| then |x| - k else 0;
        SliceAt(s, k, k + |t|, j);
        assert s[k + j] == y[k + j - |x|];
        assert t[j] != y[k + j - |x|];
      }
    }
    FindNoneIs(t, x + y, 0);
  }

  /** Indexing a slice is indexing the text. */
  lemma SliceAt(s: string, a: nat, b: nat, j: nat)
    requires a <= b <= |s| && j < b - a
    ensures s[a..b][j] == s[a + j]
  {
  }

  /** Occurrences that end within `x` are the same in `x + y`. */
  lemma OccursAtPrefix(t: string, x: string, y: string, k: nat)
    requires k + |t| <= |x|
    ensures OccursAt(t, x + y, k) <==> OccursAt(t, x, k)
  {
    assert (x + y)[k..k + |t|] == x[k..k + |t|];
  }

  /** The text between the search position and the first occurrence holds no
      occurrence. */
  lemma FindGap(t: string, s: string, i: nat)
    requires t != [] && i <= |s| && Find(t, s, i).Some?
    ensures Find(t, s[i..Find(t, s, i).value], 0) == None
  {
    var p := Find(t, s, i).value;
    var g := s[i..p];
    FindSpec(t, s, i);
    forall k | 0 <= k <= |g| ensures !OccursAt(t, g, k) {
      if k + |t| <= |g| {
        assert !OccursAt(t, s, i + k);
        assert s[i + k..i + k + |t|] == g[k..k + |t|];
      }
    }
    FindNoneIs(t, g, 0);
  }

  /** An occurrence found in `s` is still the first one once text is
      appended. */
  lemma {:induction false} FindExtend(t: string, s: string, z: string, i: nat)
    requires i <= |s| && Find(t, s, i).Some?
    ensures Find(t, s + z, i) == Find(t, s, i)
    decreases |s| - i
  {
    var p := Find(t, s, i).value;
    assert OccursAt(t, s, i) <==> OccursAt(t, s + z, i) by {
      if i + |t| <= |s| {
        assert (s + z)[i..i + |t|] == s[i..i + |t|];
      }
    }
    if !OccursAt(t, s, i) {
      FindExtend(t, s, z, i + 1);
    }
  }

  // ---------------------------------------------------------------------------
  // The expression and `re.sub`
  // ---------------------------------------------------------------------------

  /** `pattern.search(s, i)`: the match's start and end. The first begin
      marker from `i` is where a match starts if there is one at all: any
      later begin marker sees only end markers the first one sees too. */
  function NextBlock(begin: string, end: string, s: string, i: nat): (r: Option<(nat, nat)>)
    requires i <= |s|
    ensures r.Some? ==> i <= r.value.0 && r.value.0 + |begin| + |end| <= r.value.1 <= |s|
  {
    match Find(begin, s, i)
    case None => None
    case Some(p) =>
      match Find(end, s, p + |begin|)
      case None => None
      case Some(q) => Some((p, q + |end|))
  }

  /** `pattern.sub(block, s[i:])` for a pattern that cannot match the empty
      string: each match is replaced and the search resumes after it. */
  function SubAll(begin: string, end: string, block: string, s: string, i: nat): string
    requires |begin| + |end| > 0 && i <= |s|
    decreases |s| - i
  {
    match NextBlock(begin, end, s, i)
    case None => s[i..]
    case Some((p, q)) => s[i..p] + block + SubAll(begin, end, block, s, q)
  }

  /** `re.sub` with a pattern that matches the empty string at every place
      (both markers empty, so the expression is `.*?`): it matches empty
      before each character, then that character alone, and empty at the
      end, so a text of `n` characters becomes `2 * n + 1` copies of the
      block and none of the text survives. */
  function Repeated(block: string, n: nat): string {
    if n == 0 then "" else block + Repeated(block, n - 1)
  }

  /** Whether `strip()` leaves anything. */
  predicate HasText(s: string) {
    Strip(s) != ""
  }

  /** What `upsert_block(original, content, begin, end)` returns. The block is
      used as a replacement template, so content and markers are taken to be
      free of backslashes. */
  function UpsertBlock(original: Option<string>, content: string, begin: string, end: string): string
    requires '\\' !in content && '\\' !in begin && '\\' !in end
  {
    var body := if original.Some? then original.value else "";
    var block := Block(begin, content, end);
    if |begin| + |end| == 0 then Repeated(block, 2 * |body| + 1)
    else if NextBlock(begin, end, body, 0).Some? then SubAll(begin, end, block, body, 0)
    else body + (if HasText(body) then Separator else "") + block
  }

  /** With both markers empty, the result is made of `2 * n + 1` blocks of
      `|content| + 2` characters, for a body of `n` characters. */
  lemma EmptyMarkersLength(body: string, content: string)
    requires '\\' !in content
    ensures |UpsertBlock(Some(body), content, "", "")| == (2 * |body| + 1) * (|content| + 2)
  {
    RepeatedLength(Block("", content, ""), 2 * |body| + 1);
  }

  lemma {:induction false} RepeatedLength(block: string, n: nat)
    ensures |Repeated(block, n)| == n * |block|
  {
    if n > 0 {
      RepeatedLength(block, n - 1);
    }
  }

  /** The update the script does with its own markers. */
  function UpsertDescription(body: Option<string>, content: string): string
    requires '\\' !in content
  {
    UpsertBlock(body, content, DescBegin, DescEnd)
  }

  // ---------------------------------------------------------------------------
  // How the search and the replacement compose with concatenation. Positions
  // are passed as numbers with their defining equation as a precondition.
  // ---------------------------------------------------------------------------

  /** A match moved right by `n`. */
  function ShiftPair(r: Option<(nat, nat)>, n: nat): Option<(nat, nat)> {
    if r.Some? then Some((r.value.0 + n, r.value.1 + n)) else None
  }

  /** The match is from the first begin marker to the end of the first end
      marker after it. */
  lemma NextBlockIs(begin: string, end: string, s: string, i: nat, p: nat, q: nat)
    requires i <= |s| && Find(begin, s, i) == Some(p) && Find(end, s, p + |begin|) == Some(q)
    ensures NextBlock(begin, end, s, i) == Some((p, q + |end|))
  {
  }

  /** Searching `x + y` past `x` (of length `n`) is searching `y`. */
  lemma NextBlockShift(begin: string, end: string, x: string, y: string, i: nat, n: nat)
    requires i <= |y| && n == |x|
    ensures NextBlock(begin, end, x + y, n + i) == ShiftPair(NextBlock(begin, end, y, i), n)
  {
    FindShift(begin, x, y, i, n);
    var f := Find(begin, y, i);
    if f.Some? {
      var p: nat := f.value;
      FindShift(end, x, y, p + |begin|, n);
      NextBlockShifted(begin, end, x + y, y, i, n, p);
    } else {
      NextBlockShiftedNone(begin, end, x + y, y, i, n);
    }
  }

  /** The match moves with the marker searches it is made of. */
  lemma NextBlockShifted(begin: string, end: string, s: string, y: string, i: nat, n: nat, p: nat)
    requires i <= |y| && n + |y| == |s| && p + |begin| <= |y|
    requires Find(begin, y, i) == Some(p) && Find(begin, s, n + i) == Some(n + p)
    requires Find(end, s, n + (p + |begin|)) == Shift(Find(end, y, p + |begin|), n)
    ensures NextBlock(begin, end, s, n + i) == ShiftPair(NextBlock(begin, end, y, i), n)
  {
    assert n + p + |begin| == n + (p + |begin|);
  }

  /** No begin marker, no match, in either text. */
  lemma NextBlockShiftedNone(begin: string, end: string, s: string, y: string, i: nat, n: nat)
    requires i <= |y| && n + |y| == |s|
    requires Find(begin, y, i) == None && Find(begin, s, n + i) == None
    ensures NextBlock(begin, end, s, n + i) == ShiftPair(NextBlock(begin, end, y, i), n)
  {
  }

  /** One step of the replacement: the text before the match, the block, and
      the replacement of what follows the match. */
  lemma SubAllStep(begin: string, end: string, block: string, s: string, i: nat, p: nat, q: nat)
    requires |begin| + |end| > 0 && i <= |s|
    requires NextBlock(begin, end, s, i) == Some((p, q))
    ensures SubAll(begin, end, block, s, i) == s[i..p] + block + SubAll(begin, end, block, s, q)
  {
  }

  /** With no match from `i`, the replacement leaves the rest of the text. */
  lemma SubAllNone(begin: string, end: string, block: string, s: string, i: nat)
    requires |begin| + |end| > 0 && i <= |s|
    requires NextBlock(begin, end, s, i) == None
    ensures SubAll(begin, end, block, s, i) == s[i..]
  {
  }

  /** Replacing in `x + y` past `x` (of length `n`) is replacing in `y`. */
  lemma {:induction false} SubAllShift(begin: string, end: string, block: string, x: string, y: string, i: nat, n: nat)
    requires |begin| + |end| > 0 && i <= |y| && n == |x|
    ensures SubAll(begin, end, block, x + y, n + i) == SubAll(begin, end, block, y, i)
    decreases |y| - i
  {
    NextBlockShift(begin, end, x, y, i, n);
    var m := NextBlock(begin, end, y, i);
    if m.None? {
      SliceShift(x, y, i, |y|, n);
      SubAllShiftNone(begin, end, block, x + y, y, i, n);
    } else {
      var p: nat, q: nat := m.value.0, m.value.1;
      SubAllShift(begin, end, block, x, y, q, n);
      SliceShift(x, y, i, p, n);
      SubAllShiftStep(begin, end, block, x + y, y, i, n, p, q);
    }
  }

  /** A slice of `y` is the same slice of `x + y`, `|x|` further on. */
  lemma SliceShift(x: string, y: string, i: nat, j: nat, n: nat)
    requires i <= j <= |y| && n == |x|
    ensures (x + y)[n + i..n + j] == y[i..j]
  {
  }

  /** The last step of `SubAllShift`: no match in either text, and the same
      text left. */
  lemma SubAllShiftNone(begin: string, end: string, block: string, s: string, y: string, i: nat, n: nat)
    requires |begin| + |end| > 0 && i <= |y| && n + |y| == |s|
    requires NextBlock(begin, end, y, i) == None && NextBlock(begin, end, s, n + i) == None
    requires s[n + i..n + |y|] == y[i..|y|]
    ensures SubAll(begin, end, block, s, n + i) == SubAll(begin, end, block, y, i)
  {
    SubAllNone(begin, end, block, y, i);
    SubAllNone(begin, end, block, s, n + i);
    assert s[n + i..] == s[n + i..n + |y|];
    assert y[i..] == y[i..|y|];
  }

  /** One step of `SubAllShift`: matches at the same places, text before
      them alike, and the same replacement after them give the same
      replacement. */
  lemma SubAllShiftStep(begin: string, end: string, block: string, s: string, y: string, i: nat, n: nat, p: nat, q: nat)
    requires |begin| + |end| > 0 && i <= |y| && n + |y| == |s|
    requires NextBlock(begin, end, y, i) == Some((p, q))
    requires NextBlock(begin, end, s, n + i) == Some((n + p, n + q))
    requires s[n + i..n + p] == y[i..p]
    requires SubAll(begin, end, block, s, n + q) == SubAll(begin, end, block, y, q)
    ensures SubAll(begin, end, block, s, n + i) == SubAll(begin, end, block, y, i)
  {
    SubAllStep(begin, end, block, y, i, p, q);
    SubAllStep(begin, end, block, s, n + i, n + p, n + q);
  }

  /** Nothing is left to replace at the end of the text. */
  lemma SubAllAtEnd(begin: string, end: string, block: string, s: string)
    requires |begin| + |end| > 0
    ensures SubAll(begin, end, block, s, |s|) == ""
  {
  }

  /** A line break, the content, a line break: no end marker in there when the
      content has none and the marker neither starts nor ends with a line
      break. */
  lemma NoEndInMiddle(end: string, content: string)
    requires end != [] && end[0] != '\n' && end[|end| - 1] != '\n'
    requires !Occurs(end, content)
    ensures Find(end, "\n" + content + "\n", 0) == None
  {
    var m := "\n" + content + "\n";
    forall k | 0 <= k <= |m| ensures !OccursAt(end, m, k) {
      if k + |end| <= |m| {
        if k == 0 {
          assert m[k..k + |end|][0] == '\n';
        } else if k + |end| == |m| {
          assert m[k..k + |end|][|end| - 1] == '\n';
        } else {
          assert !OccursAt(end, content, k - 1);
          assert content[k - 1..k - 1 + |end|] == m[k..k + |end|];
        }
      }
    }
    FindNoneIs(end, m, 0);
  }

  /** An anchored string right after text (of length `g`) that does not hold
      it is found right there. */
  lemma FindAfterGap(t: string, gap: string, w: string, i: nat, g: nat)
    requires Anchored(t) && g == |gap| && i <= g && Find(t, gap, i) == None && |t| <= |w| && w[..|t|] == t
    ensures Find(t, gap + w, i) == Some(g)
  {
    FindSkip(t, gap, w, i, g);
    assert OccursAt(t, w, 0);
  }

  /** In `gap + begin + middle + end + rest`, when the gap holds no begin
      marker and the middle no end marker, the search finds the begin marker
      right after the gap and the end marker right after the middle. */
  lemma SpanFound(begin: string, end: string, gap: string, middle: string, rest: string, g: nat, m: nat)
    requires Anchored(begin) && Anchored(end) && g == |gap| && m == |middle|
    requires Find(begin, gap, 0) == None && Find(end, middle, 0) == None
    ensures Find(begin, gap + (begin + (middle + (end + rest))), 0) == Some(g)
    ensures Find(end, gap + (begin + (middle + (end + rest))), g + |begin|) == Some(g + |begin| + m)
  {
    var w := begin + (middle + (end + rest));
    assert w[..|begin|] == begin;
    FindAfterGap(begin, gap, w, 0, g);
    SpanEnd(end, gap + begin, middle, end + rest, g + |begin|, m);
    assert gap + w == (gap + begin) + (middle + (end + rest));
  }

  /** Searching from the end of `x` for the end marker finds it right after
      a middle that holds none. */
  lemma SpanEnd(end: string, x: string, middle: string, w: string, n: nat, m: nat)
    requires Anchored(end) && n == |x| && m == |middle|
    requires Find(end, middle, 0) == None && |end| <= |w| && w[..|end|] == end
    ensures Find(end, x + (middle + w), n) == Some(n + m)
  {
    FindAfterGap(end, middle, w, 0, m);
    FindShift(end, x, middle + w, 0, n);
  }

  /** After text with no begin marker, a freshly written block is the next
      match, whatever follows it, provided the content has no end marker. */
  lemma NextIsBlock(begin: string, end: string, gap: string, content: string, rest: string, g: nat)
    requires Anchored(begin) && Anchored(end) && end[0] != '\n' && end[|end| - 1] != '\n'
    requires g == |gap| && Find(begin, gap, 0) == None && !Occurs(end, content)
    ensures NextBlock(begin, end, gap + Block(begin, content, end) + rest, 0)
            == Some((g, g + |Block(begin, content, end)|))
  {
    var middle := "\n" + content + "\n";
    var m: nat := |middle|;
    NoEndInMiddle(end, content);
    SpanFound(begin, end, gap, middle, rest, g, m);
    BlockPieces(gap, begin, content, end, rest);
    NextBlockIs(begin, end, gap + Block(begin, content, end) + rest, 0, g, g + |begin| + m);
  }

  /** A block between two texts, regrouped around its middle. */
  lemma BlockPieces(gap: string, begin: string, content: string, end: string, rest: string)
    ensures gap + Block(begin, content, end) + rest == gap + (begin + (("\n" + content + "\n") + (end + rest)))
  {
  }

  /** Replacing in text made of a gap without begin markers, a marked block
      whose inside has no end marker, and anything after it keeps the gap,
      puts the new block in place of the old one and carries on after it. */
  lemma SubAllOverBlock(begin: string, end: string, gap: string, inside: string, content: string, rest: string)
    requires Anchored(begin) && Anchored(end) && end[0] != '\n' && end[|end| - 1] != '\n'
    requires Find(begin, gap, 0) == None && !Occurs(end, inside)
    ensures var s := gap + Block(begin, inside, end) + rest;
            var block := Block(begin, content, end);
            && NextBlock(begin, end, s, 0).Some?
            && SubAll(begin, end, block, s, 0) == gap + block + SubAll(begin, end, block, rest, 0)
  {
    var prev := Block(begin, inside, end);
    var block := Block(begin, content, end);
    var g: nat := |gap|;
    var n: nat := g + |prev|;
    NextIsBlock(begin, end, gap, inside, rest, g);
    HeadOf(gap, prev, rest);
    SubAllAfter(begin, end, block, gap + prev, rest, n);
    SubAllFirst(begin, end, block, gap + prev + rest, gap, SubAll(begin, end, block, rest, 0), g, n);
  }

  /** The first of three pieces is the head of their concatenation. */
  lemma HeadOf(a: string, b: string, c: string)
    ensures (a + b + c)[..|a|] == a
  {
  }

  /** Replacing in `x + y` from the end of `x` is replacing in `y`. */
  lemma SubAllAfter(begin: string, end: string, block: string, x: string, y: string, n: nat)
    requires |begin| + |end| > 0 && n == |x|
    ensures SubAll(begin, end, block, x + y, n) == SubAll(begin, end, block, y, 0)
  {
    SubAllShift(begin, end, block, x, y, 0, n);
  }

  /** With the first match at `g..n`, the replacement is the text before the
      match, the block, and the replacement from `n`. */
  lemma SubAllFirst(begin: string, end: string, block: string, s: string, gap: string, tail: string, g: nat, n: nat)
    requires |begin| + |end| > 0
    requires NextBlock(begin, end, s, 0) == Some((g, n)) && s[..g] == gap
    requires SubAll(begin, end, block, s, n) == tail
    ensures SubAll(begin, end, block, s, 0) == gap + block + tail
  {
    SubAllStep(begin, end, block, s, 0, g, n);
    assert s[0..g] == s[..g];
  }

  // ---------------------------------------------------------------------------
  // What the update does
  // ---------------------------------------------------------------------------

  /** `strip()` leaves nothing exactly when every character is blank. */
  lemma HasTextIff(s: string)
    ensures HasText(s) <==> exists k :: 0 <= k < |s| && !IsSpace(s[k])
  {
    StripSpec(s);
    if HasText(s) {
      var k := |s| - |TrimLeft(s)|;
      assert !IsSpace(s[k + 0]) by {
        assert Strip(s)[0] == s[k + 0];
      }
    }
    if exists k :: 0 <= k < |s| && !IsSpace(s[k]) {
      var k :| 0 <= k < |s| && !IsSpace(s[k]);
      StripNonEmpty(s, k);
    }
  }

  /** With no marked block in the body, the block is appended after the body,
      behind the separator exactly when the body has a non-blank character. */
  lemma UpsertAppends(body: string, content: string, begin: string, end: string)
    requires '\\' !in content && '\\' !in begin && '\\' !in end
    requires |begin| + |end| > 0 && NextBlock(begin, end, body, 0).None?
    ensures var r := UpsertBlock(Some(body), content, begin, end);
            var sep := if exists k :: 0 <= k < |body| && !IsSpace(body[k]) then Separator else "";
            r == body + sep + Block(begin, content, end)
  {
    HasTextIff(body);
  }

  /** A body made of a gap without begin markers, a marked block whose inside
      holds no end marker, and a rest: the old block gives way to the new one,
      the gap is kept as it is, and the rest is updated the same way. */
  lemma UpsertReplaces(gap: string, inside: string, rest: string, content: string)
    requires '\\' !in content
    requires Find(DescBegin, gap, 0) == None && !Occurs(DescEnd, inside)
    ensures UpsertDescription(Some(gap + Block(DescBegin, inside, DescEnd) + rest), content)
            == gap + Block(DescBegin, content, DescEnd) + SubAll(DescBegin, DescEnd, Block(DescBegin, content, DescEnd), rest, 0)
  {
    MarkersFit();
    MarkersPlain();
    BlockReplaced(DescBegin, DescEnd, gap, inside, rest, content);
  }

  /** The same for any anchored markers. */
  lemma BlockReplaced(begin: string, end: string, gap: string, inside: string, rest: string, content: string)
    requires '\\' !in content && '\\' !in begin && '\\' !in end
    requires Anchored(begin) && Anchored(end) && end[0] != '\n' && end[|end| - 1] != '\n'
    requires Find(begin, gap, 0) == None && !Occurs(end, inside)
    ensures UpsertBlock(Some(gap + Block(begin, inside, end) + rest), content, begin, end)
            == gap + Block(begin, content, end) + SubAll(begin, end, Block(begin, content, end), rest, 0)
  {
    SubAllOverBlock(begin, end, gap, inside, content, rest);
    UpsertMatched(gap + Block(begin, inside, end) + rest, content, begin, end);
  }

  /** A body with a match is rewritten by the replacement alone. */
  lemma UpsertMatched(body: string, content: string, begin: string, end: string)
    requires '\\' !in content && '\\' !in begin && '\\' !in end
    requires |begin| + |end| > 0 && NextBlock(begin, end, body, 0).Some?
    ensures UpsertBlock(Some(body), content, begin, end) == SubAll(begin, end, Block(begin, content, end), body, 0)
  {
  }

  /** The script's markers: each starts with `<`, which appears nowhere else
      in it and not in the separator, and neither holds a line break. */
  lemma MarkersFit()
    ensures Anchored(DescBegin) && Anchored(DescEnd)
    ensures '\n' !in DescBegin && '\n' !in DescEnd
    ensures DescBegin[0] !in Separator && DescEnd[0] == '<' && DescEnd[|DescEnd| - 1] == '>'
  {
  }

  /** Neither marker holds a backslash, so both can be written into a
      replacement template. */
  lemma MarkersPlain()
    ensures '\\' !in DescBegin && '\\' !in DescEnd
  {
  }

  /** Replacing twice is replacing once: each written block is found again
      as the next match and rewritten as itself. */
  lemma {:induction false} SubAllStable(content: string, s: string, i: nat)
    requires i <= |s| && !Occurs(DescEnd, content)
    ensures var block := Block(DescBegin, content, DescEnd);
            SubAll(DescBegin, DescEnd, block, SubAll(DescBegin, DescEnd, block, s, i), 0)
            == SubAll(DescBegin, DescEnd, block, s, i)
    decreases |s| - i
  {
    var block := Block(DescBegin, content, DescEnd);
    MarkersFit();
    var m := NextBlock(DescBegin, DescEnd, s, i);
    if m.None? {
      assert s[..i] + s[i..] == s;
      NextBlockShift(DescBegin, DescEnd, s[..i], s[i..], 0, i);
      SubAllNone(DescBegin, DescEnd, block, s, i);
      SubAllNone(DescBegin, DescEnd, block, s[i..], 0);
      assert s[i..][0..] == s[i..];
    } else {
      var p: nat, q: nat := m.value.0, m.value.1;
      var rest := SubAll(DescBegin, DescEnd, block, s, q);
      SubAllStep(DescBegin, DescEnd, block, s, i, p, q);
      FindGap(DescBegin, s, i);
      SubAllStable(content, s, q);
      SubAllOverBlock(DescBegin, DescEnd, s[i..p], content, content, rest);
    }
  }

  /** The update is idempotent, as the marker comment promises, provided the
      content holds no end marker and the body holds no begin marker that
      lacks an end marker while there is no complete block. */
  lemma UpsertIdempotent(body: string, content: string)
    requires '\\' !in content && !Occurs(DescEnd, content)
    requires NextBlock(DescBegin, DescEnd, body, 0).Some? || Find(DescBegin, body, 0) == None
    ensures UpsertDescription(Some(UpsertDescription(Some(body), content)), content)
            == UpsertDescription(Some(body), content)
  {
    MarkersFit();
    MarkersPlain();
    var once := UpsertDescription(Some(body), content);
    UpsertKeepsBlock(body, content);
    UpsertMatched(once, content, DescBegin, DescEnd);
    if NextBlock(DescBegin, DescEnd, body, 0).Some? {
      UpsertMatched(body, content, DescBegin, DescEnd);
      SubAllStable(content, body, 0);
    } else {
      var sep := if HasText(body) then Separator else "";
      assert once == body + sep + Block(DescBegin, content, DescEnd);
      FindAppendNone(DescBegin, body, sep);
      AppendedStable(body + sep, content);
    }
  }

  /** A block written behind the text the replacement finds no block in is
      rewritten as itself. */
  lemma AppendedStable(gap: string, content: string)
    requires !Occurs(DescEnd, content) && Find(DescBegin, gap, 0) == None
    ensures var block := Block(DescBegin, content, DescEnd);
            SubAll(DescBegin, DescEnd, block, gap + block, 0) == gap + block
  {
    var block := Block(DescBegin, content, DescEnd);
    MarkersFit();
    assert gap + block == gap + block + "";
    SubAllOverBlock(DescBegin, DescEnd, gap, content, content, "");
    SubAllAtEnd(DescBegin, DescEnd, block, "");
  }

  /** A body that is a lone begin marker: the first update appends a block
      behind it, and the second update takes that leftover marker for the
      start of a block, swallows the separator and yields a different body. */
  lemma DanglingBeginBreaksIdempotence()
    ensures UpsertDescription(Some(UpsertDescription(Some(DescBegin), "x")), "x")
            != UpsertDescription(Some(DescBegin), "x")
  {
    MarkersPlain();
    StripNonEmpty(DescBegin, 0);
    DanglingBegin(DescBegin, DescEnd, "x");
  }

  /** The same for any markers: a body holding only a non-blank begin marker
      is changed again by a second update whose content does not start with a
      line break. */
  lemma DanglingBegin(begin: string, end: string, content: string)
    requires '\\' !in content && '\\' !in begin && '\\' !in end
    requires begin != [] && end != [] && HasText(begin)
    requires content != [] && content[0] != '\n'
    ensures var r1 := UpsertBlock(Some(begin), content, begin, end);
            UpsertBlock(Some(r1), content, begin, end) != r1
  {
    var block := Block(begin, content, end);
    var r1 := begin + Separator + block;
    DanglingFirst(begin, end, content);
    DanglingMatch(begin, end, block, r1);
    var q: nat := NextBlock(begin, end, r1, 0).value.1;
    UpsertMatched(r1, content, begin, end);
    SubAllFirst(begin, end, block, r1, [], SubAll(begin, end, block, r1, q), 0, q);
    BlockNotAfterSeparator(begin, content, end, SubAll(begin, end, block, r1, q));
  }

  /** A block, whatever follows it, differs from the begin marker, the
      separator and the block: the second line already differs. */
  lemma BlockNotAfterSeparator(begin: string, content: string, end: string, tail: string)
    requires content != [] && content[0] != '\n'
    ensures [] + Block(begin, content, end) + tail != begin + Separator + Block(begin, content, end)
  {
    var a := [] + Block(begin, content, end) + tail;
    var b := begin + Separator + Block(begin, content, end);
    assert a[|begin| + 1] == content[0];
    assert b[|begin| + 1] == Separator[1];
  }

  /** A lone non-blank begin marker holds no block, so the first update
      appends one behind the separator. */
  lemma DanglingFirst(begin: string, end: string, content: string)
    requires '\\' !in content && '\\' !in begin && '\\' !in end
    requires begin != [] && end != [] && HasText(begin)
    ensures UpsertBlock(Some(begin), content, begin, end) == begin + Separator + Block(begin, content, end)
  {
    assert Find(end, begin, |begin|) == None;
    assert OccursAt(begin, begin, 0);
  }

  /** The begin marker leading the body starts a match, because an end marker
      follows it at the end of the appended block. */
  lemma DanglingMatch(begin: string, end: string, block: string, r1: string)
    requires begin != [] && |end| <= |block| && block[|block| - |end|..] == end
    requires r1 == begin + Separator + block
    ensures NextBlock(begin, end, r1, 0).Some? && NextBlock(begin, end, r1, 0).value.0 == 0
  {
    assert OccursAt(begin, r1, 0) by {
      assert r1[..|begin|] == begin;
    }
    assert OccursAt(end, r1, |r1| - |end|) by {
      assert r1[|r1| - |end|..] == block[|block| - |end|..];
    }
    FindSpec(end, r1, |begin|);
  }

  // ---------------------------------------------------------------------------
  // The correction: a begin marker with no end marker after it starts a block
  // that runs to the end of the body.
  // ---------------------------------------------------------------------------

  /** `upsert_block` with a dangling begin marker treated as the start of a
      block that runs to the end of the body: that unfinished block is
      replaced instead of a new block being appended after it. */
  function UpsertBlockFixed(original: Option<string>, content: string, begin: string, end: string): string
    requires '\\' !in content && '\\' !in begin && '\\' !in end
  {
    var body := if original.Some? then original.value else "";
    var block := Block(begin, content, end);
    if |begin| + |end| == 0 then Repeated(block, 2 * |body| + 1)
    else if NextBlock(begin, end, body, 0).Some? then SubAll(begin, end, block, body, 0)
    else match Find(begin, body, 0)
      case Some(p) => body[..p] + block
      case None => body + (if HasText(body) then Separator else "") + block
  }

  function UpsertDescriptionFixed(body: Option<string>, content: string): string
    requires '\\' !in content
  {
    UpsertBlockFixed(body, content, DescBegin, DescEnd)
  }

  /** The correction changes nothing unless a dangling begin marker is all the
      body has. */
  lemma FixedAgrees(body: string, content: string)
    requires '\\' !in content
    requires NextBlock(DescBegin, DescEnd, body, 0).Some? || Find(DescBegin, body, 0) == None
    ensures UpsertDescriptionFixed(Some(body), content) == UpsertDescription(Some(body), content)
  {
  }

  /** The corrected update is idempotent for every body, given content without
      an end marker. */
  lemma FixedIdempotent(body: string, content: string)
    requires '\\' !in content && !Occurs(DescEnd, content)
    ensures UpsertDescriptionFixed(Some(UpsertDescriptionFixed(Some(body), content)), content)
            == UpsertDescriptionFixed(Some(body), content)
  {
    MarkersFit();
    var block := Block(DescBegin, content, DescEnd);
    if NextBlock(DescBegin, DescEnd, body, 0).Some? || Find(DescBegin, body, 0) == None {
      FixedAgrees(body, content);
      UpsertIdempotent(body, content);
      var r := UpsertDescription(Some(body), content);
      UpsertKeepsBlock(body, content);
      FixedAgrees(r, content);
    } else {
      var p: nat := Find(DescBegin, body, 0).value;
      var r := body[..p] + block;
      assert UpsertDescriptionFixed(Some(body), content) == r;
      FindGap(DescBegin, body, 0);
      assert body[0..p] == body[..p];
      assert r == body[..p] + block + "";
      NextIsBlock(DescBegin, DescEnd, body[..p], content, "", p);
      SubAllOverBlock(DescBegin, DescEnd, body[..p], content, content, "");
      SubAllAtEnd(DescBegin, DescEnd, block, "");
    }
  }

  /** After an update without a dangling marker the body has a complete
      block, so the next update takes the replacing path. */
  lemma UpsertKeepsBlock(body: string, content: string)
    requires '\\' !in content && !Occurs(DescEnd, content)
    requires NextBlock(DescBegin, DescEnd, body, 0).Some? || Find(DescBegin, body, 0) == None
    ensures NextBlock(DescBegin, DescEnd, UpsertDescription(Some(body), content), 0).Some?
  {
    var block := Block(DescBegin, content, DescEnd);
    MarkersFit();
    if NextBlock(DescBegin, DescEnd, body, 0).Some? {
      var p: nat, q: nat := NextBlock(DescBegin, DescEnd, body, 0).value.0, NextBlock(DescBegin, DescEnd, body, 0).value.1;
      SubAllStep(DescBegin, DescEnd, block, body, 0, p, q);
      FindGap(DescBegin, body, 0);
      NextIsBlock(DescBegin, DescEnd, body[0..p], content, SubAll(DescBegin, DescEnd, block, body, q), p);
    } else {
      var sep := if HasText(body) then Separator else "";
      FindAppendNone(DescBegin, body, sep);
      assert UpsertDescription(Some(body), content) == body + sep + block + "";
      NextIsBlock(DescBegin, DescEnd, body + sep, content, "", |body + sep|);
    }
  }
}
