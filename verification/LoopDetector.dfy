/** Loop detection over the recent tool calls of a session, against a specification
    that looks at the whole history since the last reset. */
module LoopDetector {
  import opened Numbers

  datatype Record = Record(tool: string, digest: string, result: string, repaired: bool) {
    predicate SameCall(other: Record) {
      tool == other.tool && digest == other.digest && result == other.result
    }
  }

  function Last(h: seq<Record>, n: nat): seq<Record> { if |h| <= n then h else h[|h| - n..] }

  /** What `list[-n:]` keeps of a list longer than `n`: everything, when n is 0. */
  function Window(h: seq<Record>, n: nat): seq<Record> { if n == 0 then h else Last(h, n) }

  /** How many records at the end are repaired ones. */
  function TrailingRepairs(h: seq<Record>): (n: nat)
    ensures n <= |h|
  {
    if h == [] || !h[|h| - 1].repaired then 0 else 1 + TrailingRepairs(h[..|h| - 1])
  }

  function Count(h: seq<Record>, r: Record): (n: nat)
    ensures n <= |h|
  {
    if h == [] then 0 else (if h[0].SameCall(r) then 1 else 0) + Count(h[1..], r)
  }

  // ------------------------------------------------------- the specification

  ghost predicate FourRepairs(h: seq<Record>) {
    |h| >= 4 && forall i :: |h| - 4 <= i < |h| ==> h[i].repaired
  }

  ghost predicate AlikeAt(h: seq<Record>, i: int, j: int, k: int) {
    0 <= i < j < k < |h| && h[i].SameCall(h[j]) && h[i].SameCall(h[k])
  }

  /** Three records with the same tool, digest and result among the last `n`. */
  ghost predicate ThreeAlike(h: seq<Record>, n: nat) {
    exists i, j, k :: |h| - n <= i && AlikeAt(h, i, j, k)
  }

  /** How far back repeats are looked for. */
  function Reach(window: nat): nat { if window == 0 then 5 else Min(window, 5) }

  ghost predicate LoopsAt(h: seq<Record>, window: nat) {
    FourRepairs(h) || ThreeAlike(h, Reach(window))
  }

  /** The history ends in a loop or did so at some earlier moment. */
  ghost predicate Looped(h: seq<Record>, window: nat) {
    h != [] && (LoopsAt(h, window) || Looped(h[..|h| - 1], window))
  }

  // ------------------------------------------------------------- its lemmas

  lemma {:induction false} TrailingMeans(h: seq<Record>)
    ensures forall i :: |h| - TrailingRepairs(h) <= i < |h| ==> h[i].repaired
    ensures TrailingRepairs(h) < |h| ==> !h[|h| - TrailingRepairs(h) - 1].repaired
  {
    if h != [] && h[|h| - 1].repaired {
      TrailingMeans(h[..|h| - 1]);
    }
  }

  lemma TrailingIsFourRepairs(h: seq<Record>)
    ensures TrailingRepairs(h) > 3 <==> FourRepairs(h)
  {
    TrailingMeans(h);
  }

  lemma {:induction false} CountConcat(a: seq<Record>, b: seq<Record>, r: Record)
    ensures Count(a + b, r) == Count(a, r) + Count(b, r)
  {
    if a == [] {
      assert a + b == b;
    } else {
      assert (a + b)[1..] == a[1..] + b;
      CountConcat(a[1..], b, r);
    }
  }

  /** Counting to `n` finds an occurrence with `n - 1` more behind it. */
  lemma {:induction false} FirstOccurrence(h: seq<Record>, r: Record) returns (i: nat)
    requires Count(h, r) > 0
    ensures i < |h| && h[i].SameCall(r) && Count(h[i + 1..], r) == Count(h, r) - 1
  {
    if h[0].SameCall(r) {
      i := 0;
    } else {
      var j := FirstOccurrence(h[1..], r);
      i := j + 1;
      assert h[1..][j + 1..] == h[i + 1..];
    }
  }

  lemma {:induction false} OccurrenceCounts(h: seq<Record>, i: nat, r: Record)
    requires i < |h| && h[i].SameCall(r)
    ensures Count(h, r) >= 1 + Count(h[i + 1..], r)
  {
    assert h == h[..i] + ([h[i]] + h[i + 1..]);
    CountConcat(h[..i], [h[i]] + h[i + 1..], r);
    CountConcat([h[i]], h[i + 1..], r);
  }

  /** Counting three of a call in a list is finding three positions. */
  lemma CountThenPositions(h: seq<Record>, r: Record)
    requires Count(h, r) >= 3
    ensures ThreeAlike(h, |h|)
  {
    var i := FirstOccurrence(h, r);
    var t := h[i + 1..];
    var j := FirstOccurrence(t, r);
    var u := t[j + 1..];
    var k := FirstOccurrence(u, r);
    assert h[i + j + 1] == t[j];
    assert h[i + j + k + 2] == t[j + k + 1] == u[k];
    assert AlikeAt(h, i, i + j + 1, i + j + k + 2);
  }

  lemma PositionsThenCount(h: seq<Record>, i: nat, j: nat, k: nat)
    requires AlikeAt(h, i, j, k)
    ensures Count(h, h[i]) >= 3
  {
    OccurrenceCounts(h, i, h[i]);
    var t := h[i + 1..];
    OccurrenceCounts(t, j - i - 1, h[i]);
    var u := t[j - i..];
    assert u[k - j - 1] == h[k];
    OccurrenceCounts(u, k - j - 1, h[i]);
  }

  lemma ThreePositions(h: seq<Record>)
    ensures (exists r :: Count(h, r) >= 3) <==> ThreeAlike(h, |h|)
  {
    if r :| Count(h, r) >= 3 {
      CountThenPositions(h, r);
    }
    if ThreeAlike(h, |h|) {
      var i, j, k :| 0 <= i && AlikeAt(h, i, j, k);
      PositionsThenCount(h, i, j, k);
    }
  }

  /** Appending to the retained window and cutting it back is the window of the history. */
  lemma WindowExtends(h: seq<Record>, r: Record, window: nat)
    ensures Window(h + [r], window)
         == if |Window(h, window) + [r]| > window then Window(Window(h, window) + [r], window) else Window(h, window) + [r]
  {
  }

  lemma LastOfLast(h: seq<Record>, m: nat, n: nat)
    ensures Last(Last(h, m), n) == Last(h, Min(m, n))
  {
  }

  /** Looking at the last five of the retained window is looking at the last `Reach`
      records of the whole history. */
  lemma WindowSuffices(h: seq<Record>, window: nat)
    ensures Last(Window(h, window), 5) == Last(h, Reach(window))
    ensures ThreeAlike(Last(h, Reach(window)), |Last(h, Reach(window))|) <==> ThreeAlike(h, Reach(window))
  {
    LastOfLast(h, window, 5);
    TailAlike(h, Reach(window));
  }

  lemma TailAlike(h: seq<Record>, n: nat)
    ensures ThreeAlike(Last(h, n), |Last(h, n)|) <==> ThreeAlike(h, n)
  {
    var tail := Last(h, n);
    var d := |h| - |tail|;
    if ThreeAlike(tail, |tail|) {
      var i, j, k :| 0 <= i && AlikeAt(tail, i, j, k);
      assert AlikeAt(h, d + i, d + j, d + k);
    }
    if ThreeAlike(h, n) {
      var i, j, k :| |h| - n <= i && AlikeAt(h, i, j, k);
      assert AlikeAt(tail, i - d, j - d, k - d);
    }
  }

  lemma LoopedExtends(h: seq<Record>, r: Record, window: nat)
    ensures Looped(h + [r], window) <==> Looped(h, window) || LoopsAt(h + [r], window)
  {
    assert (h + [r])[..|h|] == h;
  }

  /** Once raised the flag never comes down by recording more. */
  lemma {:induction false} LoopedIsForever(h: seq<Record>, more: seq<Record>, window: nat)
    requires Looped(h, window)
    ensures Looped(h + more, window)
    decreases |more|
  {
    if more == [] {
      assert h + more == h;
    } else {
      LoopedExtends(h, more[0], window);
      LoopedIsForever(h + [more[0]], more[1..], window);
      assert h + [more[0]] + more[1..] == h + more;
    }
  }

  /** With a window of at least five the size of the window does not matter: the
      bounded detector decides the question for the unbounded history. */
  lemma {:induction false} WindowOfFiveIsEnough(h: seq<Record>, window: nat)
    requires window >= 5
    ensures Looped(h, window) <==> exists n :: 0 <= n <= |h| && (FourRepairs(h[..n]) || ThreeAlike(h[..n], 5))
  {
    if h != [] {
      var shorter := h[..|h| - 1];
      WindowOfFiveIsEnough(shorter, window);
      assert h[..|h|] == h;
      forall n | 0 <= n < |h| ensures h[..n] == shorter[..n] {
      }
    }
  }

  lemma EmptyHistory(window: nat)
    ensures Window([], window) == [] && TrailingRepairs([]) == 0 && !Looped([], window)
  {
  }

  /** The detector; `history` is every record since creation or the last reset, `owner`
      the session and route it watches. */
  class LoopState {
    const windowSize: nat
    var signatures: seq<Record>
    var consecutiveRepairs: nat
    var flagged: bool
    ghost var history: seq<Record>
    ghost const owner: (string, string)

    ghost predicate Valid()
      reads this
    {
      && signatures == Window(history, windowSize)
      && consecutiveRepairs == TrailingRepairs(history)
      && (flagged <==> Looped(history, windowSize))
    }

    constructor (windowSize: nat, ghost owner: (string, string))
      ensures Valid() && history == [] && this.windowSize == windowSize && this.owner == owner
    {
      this.owner := owner;
      this.windowSize := windowSize;
      signatures, consecutiveRepairs, flagged := [], 0, false;
      history := [];
      EmptyHistory(windowSize);
    }

    /** `record_tool`. */
    method RecordTool(r: Record, isCorrection: bool)
      requires Valid()
      modifies this
      ensures Valid()
      ensures history == if isCorrection then old(history) else old(history) + [r]
      ensures isCorrection ==> flagged == old(flagged) && signatures == old(signatures) && consecutiveRepairs == old(consecutiveRepairs)
    {
      if isCorrection {
        return;
      }
      if r.repaired {
        consecutiveRepairs := consecutiveRepairs + 1;
      } else {
        consecutiveRepairs := 0;
      }
      signatures := signatures + [r];
      if |signatures| > windowSize {
        signatures := Window(signatures, windowSize);
      }
      history := history + [r];
      assert history[..|history| - 1] == old(history);
      WindowExtends(old(history), r, windowSize);
      LoopedExtends(old(history), r, windowSize);
      DetectLoop();
    }

    /** `_detect_loop`: raises the flag exactly when the history now ends in a loop. */
    method DetectLoop()
      requires signatures == Window(history, windowSize) && consecutiveRepairs == TrailingRepairs(history)
      modifies this`flagged
      ensures flagged <==> old(flagged) || LoopsAt(history, windowSize)
    {
      TrailingIsFourRepairs(history);
      if consecutiveRepairs > 3 {
        flagged := true;
        return;
      }
      WindowSuffices(history, windowSize);
      var recent := Last(signatures, 5);
      ThreePositions(recent);
      if |signatures| < 3 {
        return;
      }
      if |recent| < 3 {
        return;
      }
      var most := MostCommonCount(recent);
      if most >= 3 {
        flagged := true;
      }
    }

    /** The count of the most frequent (tool, digest, result). */
    static method MostCommonCount(recent: seq<Record>) returns (most: nat)
      ensures forall r :: Count(recent, r) <= most
      ensures most > 0 ==> exists r :: Count(recent, r) == most
    {
      most := 0;
      ghost var leader := Record("", "", "", false);
      for i := 0 to |recent|
        invariant forall j :: 0 <= j < i ==> Count(recent, recent[j]) <= most
        invariant most > 0 ==> Count(recent, leader) == most
      {
        var n := Tally(recent, recent[i]);
        if n > most {
          most := n;
          leader := recent[i];
        }
      }
      forall r ensures Count(recent, r) <= most {
        if Count(recent, r) > 0 {
          var i := FirstOccurrence(recent, r);
          SameCallSameCount(recent, recent[i], r);
        }
      }
    }

    static method Tally(recent: seq<Record>, r: Record) returns (n: nat)
      ensures n == Count(recent, r)
    {
      n := 0;
      for i := 0 to |recent|
        invariant n == Count(recent[..i], r)
      {
        assert recent[..i + 1] == recent[..i] + [recent[i]];
        CountConcat(recent[..i], [recent[i]], r);
        if recent[i].SameCall(r) {
          n := n + 1;
        }
      }
      assert recent[..|recent|] == recent;
    }

    method Reset()
      modifies this
      ensures Valid() && history == [] && !flagged
    {
      signatures, consecutiveRepairs, flagged := [], 0, false;
      history := [];
      EmptyHistory(windowSize);
    }
  }

  lemma {:induction false} SameCallSameCount(h: seq<Record>, a: Record, b: Record)
    requires a.SameCall(b)
    ensures Count(h, a) == Count(h, b)
  {
    if h != [] { SameCallSameCount(h[1..], a, b); }
  }
}
