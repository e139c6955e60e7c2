/** Blanking of fenced code, closed or not, before tool calls are looked for. */
module Fences {

  datatype Span = Span(start: nat, end: nat)

  // ------------------------------------------------------------- scanning

  /** Three backticks or three tildes. */
  predicate FenceAt(s: string, i: int) {
    0 <= i && i + 3 <= |s| && s[i] == s[i + 1] == s[i + 2] && (s[i] == '`' || s[i] == '~')
  }

  lemma FenceIff(s: string, i: nat)
    ensures FenceAt(s, i) <==> i + 3 <= |s| && (s[i..i + 3] == "```" || s[i..i + 3] == "~~~")
  {
    if i + 3 <= |s| {
      assert s[i..i + 3] == [s[i], s[i + 1], s[i + 2]];
    }
  }

  /** The first position from `i` on that holds `c`, or the length. */
  function NextChar(s: string, c: char, i: nat): (j: nat)
    requires i <= |s|
    ensures i <= j <= |s|
    ensures j < |s| ==> s[j] == c
    ensures forall k :: i <= k < j ==> s[k] != c
    decreases |s| - i
  {
    if i == |s| || s[i] == c then i else NextChar(s, c, i + 1)
  }

  /** The first fence of character `c` from `i` on, or the length. */
  function NextFence(s: string, c: char, i: nat): (j: nat)
    requires i <= |s|
    ensures i <= j <= |s|
    ensures j < |s| ==> FenceAt(s, j) && s[j] == c
    ensures forall k :: i <= k < j ==> !(FenceAt(s, k) && s[k] == c)
    decreases |s| - i
  {
    if i == |s| || (FenceAt(s, i) && s[i] == c) then i else NextFence(s, c, i + 1)
  }

  /** Where the closed fence that opens at `i` ends, or 0 when none opens there: a fence,
      the rest of its line, and text up to the next fence of the same kind. */
  function ClosedEnd(s: string, i: nat): (e: nat)
    ensures e <= |s|
    ensures e > 0 ==> i < e
  {
    if !FenceAt(s, i) then 0
    else
      var n := NextChar(s, '\n', i + 3);
      if n == |s| then 0
      else
        var c := NextFence(s, s[i], n + 1);
        if c == |s| then 0 else c + 3
  }

  /** What the closed-fence pattern says a match is: the newline is the first one after
      the opening marker, the closing marker the first of its kind after the newline. */
  ghost predicate ClosedFence(s: string, i: nat, n: nat, c: nat) {
    && i + 3 <= n < c && FenceAt(s, i) && FenceAt(s, c) && s[c] == s[i]
    && s[n] == '\n'
    && (forall k :: i + 3 <= k < n ==> s[k] != '\n')
    && (forall k :: n < k < c ==> !(FenceAt(s, k) && s[k] == s[i]))
  }

  lemma ClosedEndIsThePattern(s: string, i: nat, c: nat)
    ensures ClosedEnd(s, i) == c + 3 <==> exists n: nat :: ClosedFence(s, i, n, c)
  {
    if ClosedEnd(s, i) == c + 3 {
      assert ClosedFence(s, i, NextChar(s, '\n', i + 3), c);
    }
    if n: nat :| ClosedFence(s, i, n, c) {
      assert NextChar(s, '\n', i + 3) == n;
      assert NextFence(s, s[i], n + 1) == c;
    }
  }

  /** The leftmost, non-overlapping closed fences from `i` on. */
  function ClosedSpans(s: string, i: nat): (spans: seq<Span>)
    requires i <= |s|
    ensures forall k :: 0 <= k < |spans| ==> i <= spans[k].start < spans[k].end <= |s|
    ensures forall j, k :: 0 <= j < k < |spans| ==> spans[j].end <= spans[k].start
    decreases |s| - i
  {
    if i == |s| then []
    else if ClosedEnd(s, i) > 0 then [Span(i, ClosedEnd(s, i))] + ClosedSpans(s, ClosedEnd(s, i))
    else ClosedSpans(s, i + 1)
  }

  /** A fence with a newline somewhere after it: what the unclosed-fence pattern matches. */
  predicate OpenAt(s: string, i: int) {
    FenceAt(s, i) && NextChar(s, '\n', i + 3) < |s|
  }

  /** The leftmost open fence from `i` on, or the length. */
  function FirstOpen(s: string, i: nat): (j: nat)
    requires i <= |s|
    ensures i <= j <= |s|
    ensures j < |s| ==> OpenAt(s, j)
    ensures forall k :: i <= k < j ==> !OpenAt(s, k)
    decreases |s| - i
  {
    if i == |s| || OpenAt(s, i) then i else FirstOpen(s, i + 1)
  }

  // -------------------------------------------------------------- masking

  predicate InSpans(spans: seq<Span>, i: int) {
    exists k :: 0 <= k < |spans| && spans[k].start <= i < spans[k].end
  }

  function MaskClosed(s: string): (r: string)
    ensures |r| == |s|
    ensures forall i :: 0 <= i < |s| ==> r[i] == if InSpans(ClosedSpans(s, 0), i) then ' ' else s[i]
  {
    seq(|s|, i requires 0 <= i < |s| => if InSpans(ClosedSpans(s, 0), i) then ' ' else s[i])
  }

  function MaskFrom(s: string, from: nat): (r: string)
    ensures |r| == |s|
    ensures forall i :: 0 <= i < |s| ==> r[i] == if from <= i then ' ' else s[i]
  {
    seq(|s|, i requires 0 <= i < |s| => if from <= i then ' ' else s[i])
  }

  /** `_mask_fenced_code`. */
  function Mask(s: string): string {
    var closed := MaskClosed(s);
    MaskFrom(closed, FirstOpen(closed, 0))
  }

  /** The positions that are blanked: inside a closed fence, or at or after the first
      fence still open once the closed ones are gone. */
  predicate Blanked(s: string, i: int) {
    InSpans(ClosedSpans(s, 0), i) || FirstOpen(MaskClosed(s), 0) <= i
  }

  // -------------------------------------------------------------- theorems

  /** Masking keeps the length, writes spaces at the blanked positions, and changes
      nothing anywhere else. */
  lemma MaskIsPointwise(s: string)
    ensures |Mask(s)| == |s|
    ensures forall i :: 0 <= i < |s| ==> Mask(s)[i] == if Blanked(s, i) then ' ' else s[i]
  {
  }

  lemma InSpansCons(first: Span, rest: seq<Span>, i: int)
    ensures InSpans([first] + rest, i) <==> first.start <= i < first.end || InSpans(rest, i)
  {
    var spans := [first] + rest;
    assert forall k :: 0 <= k < |rest| ==> spans[k + 1] == rest[k];
    assert spans[0] == first;
  }

  /** The search from `i` on passes a closed fence around `p`. */
  ghost predicate Passed(s: string, i: nat, p: nat)
    requires i <= |s|
    decreases |s| - i
  {
    if i == |s| then false
    else
      var e := ClosedEnd(s, i);
      if e > 0 then i <= p < e || Passed(s, e, p) else Passed(s, i + 1, p)
  }

  lemma {:induction false} OpeningsArePassed(s: string, i: nat, p: nat)
    requires i <= p < |s| && ClosedEnd(s, p) > 0
    ensures Passed(s, i, p)
    decreases p - i
  {
    var e := ClosedEnd(s, i);
    if e == 0 {
      OpeningsArePassed(s, i + 1, p);
    } else if e <= p {
      OpeningsArePassed(s, e, p);
    }
  }

  lemma {:induction false} PassedIsInSpans(s: string, i: nat, p: nat)
    requires i <= |s| && Passed(s, i, p)
    ensures InSpans(ClosedSpans(s, i), p)
    decreases |s| - i
  {
    var e := ClosedEnd(s, i);
    if e == 0 {
      PassedIsInSpans(s, i + 1, p);
    } else {
      if !(i <= p < e) {
        PassedIsInSpans(s, e, p);
      }
      InSpansCons(Span(i, e), ClosedSpans(s, e), p);
    }
  }

  /** The spans are what a leftmost search finds: a position outside all of them opens
      no closed fence. */
  lemma SpansAreLeftmost(s: string, i: nat, p: nat)
    requires i <= p < |s| && !InSpans(ClosedSpans(s, i), p)
    ensures ClosedEnd(s, p) == 0
  {
    if ClosedEnd(s, p) > 0 {
      OpeningsArePassed(s, i, p);
      PassedIsInSpans(s, i, p);
    }
  }

  lemma {:induction false} SpansAreFences(s: string, i: nat, k: nat)
    requires i <= |s| && k < |ClosedSpans(s, i)|
    ensures ClosedEnd(s, ClosedSpans(s, i)[k].start) == ClosedSpans(s, i)[k].end
    decreases |s| - i
  {
    var e := ClosedEnd(s, i);
    if e == 0 {
      SpansAreFences(s, i + 1, k);
    } else if k > 0 {
      SpansAreFences(s, e, k - 1);
    }
  }

  ghost predicate NoOpenFence(s: string) {
    forall i :: 0 <= i < |s| ==> !OpenAt(s, i)
  }

  /** Blanking from the leftmost open fence on leaves none. */
  lemma MaskFromClears(s: string)
    ensures NoOpenFence(MaskFrom(s, FirstOpen(s, 0)))
  {
    var o := FirstOpen(s, 0);
    var r := MaskFrom(s, o);
    forall i | 0 <= i < |r| ensures !OpenAt(r, i) {
      if FenceAt(r, i) {
        assert r[i] == s[i] && r[i + 1] == s[i + 1] && r[i + 2] == s[i + 2] && i + 2 < o;
        assert !OpenAt(s, i);
        assert NextChar(s, '\n', i + 3) == |s|;
        assert forall n :: i + 3 <= n < |r| ==> r[n] == s[n] || r[n] == ' ';
      }
    }
  }

  lemma {:induction false} NoOpenNoSpans(s: string, i: nat)
    requires i <= |s| && NoOpenFence(s)
    ensures ClosedSpans(s, i) == []
    decreases |s| - i
  {
    if i < |s| {
      assert !OpenAt(s, i);
      NoOpenNoSpans(s, i + 1);
    }
  }

  /** After masking no fence marker has a newline after it, so nothing is left for either
      pattern; masking is therefore idempotent, on every text. */
  lemma MaskIsFinal(s: string)
    ensures NoOpenFence(Mask(s))
    ensures forall i, n :: FenceAt(Mask(s), i) && i + 3 <= n < |Mask(s)| ==> Mask(s)[n] != '\n'
    ensures Mask(Mask(s)) == Mask(s)
  {
    MaskFromClears(MaskClosed(s));
    var m := Mask(s);
    NoOpenNoSpans(m, 0);
    assert MaskClosed(m) == m;
    assert FirstOpen(m, 0) == |m|;
    forall i, n | FenceAt(m, i) && i + 3 <= n < |m| ensures m[n] != '\n' {
      assert !OpenAt(m, i);
    }
  }
}
