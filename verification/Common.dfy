/** An answer that may be missing. */
module Wrappers {
  datatype Option<T> = None | Some(value: T)
}

/** The larger and the smaller of two numbers. */
module Numbers {
  function Max(a: int, b: int): int { if a < b then b else a }

  function Min(a: int, b: int): int { if a < b then a else b }
}

/** Looking for one text in another. */
module Strings {
  predicate OccursAt(s: string, part: string, i: nat) {
    i + |part| <= |s| && forall k :: 0 <= k < |part| ==> s[i + k] == part[k]
  }

  predicate StartsWith(s: string, prefix: string) {
    OccursAt(s, prefix, 0)
  }

  predicate Contains(s: string, part: string) {
    exists i :: 0 <= i <= |s| && OccursAt(s, part, i)
  }

  /** An occurrence is a slice that is the part. */
  lemma OccurrenceIsSlice(s: string, part: string, i: nat)
    ensures OccursAt(s, part, i) <==> i + |part| <= |s| && s[i..i + |part|] == part
    ensures OccursAt(s, part, i) ==> Contains(s, part)
  {
    if i + |part| <= |s| && s[i..i + |part|] == part {
      forall k | 0 <= k < |part| ensures s[i + k] == part[k] {
        assert s[i..i + |part|][k] == s[i + k];
      }
    }
  }
}

/** A tool call as a model asked for it, before anything is made of it. */
module ToolCalls {
  datatype Candidate = Candidate(id: string, name: string, arguments: string)

  /** The first `n` candidates whose name is enabled for private use, or the others. */
  function Split(enabled: set<string>, cs: seq<Candidate>, wanted: bool, n: nat): seq<Candidate>
    requires n <= |cs|
  {
    if n == 0 then []
    else if (cs[n - 1].name in enabled) == wanted then Split(enabled, cs, wanted, n - 1) + [cs[n - 1]]
    else Split(enabled, cs, wanted, n - 1)
  }

  /** The candidates that ask for something private. */
  function Asked(enabled: set<string>, cs: seq<Candidate>): seq<Candidate> { Split(enabled, cs, true, |cs|) }

  function Unasked(enabled: set<string>, cs: seq<Candidate>): seq<Candidate> { Split(enabled, cs, false, |cs|) }

  lemma {:induction false} SplitSelects(enabled: set<string>, cs: seq<Candidate>, wanted: bool, n: nat)
    requires n <= |cs|
    ensures forall c :: c in Split(enabled, cs, wanted, n) <==> c in cs[..n] && (c.name in enabled) == wanted
  {
    if n > 0 {
      SplitSelects(enabled, cs, wanted, n - 1);
      assert cs[..n] == cs[..n - 1] + [cs[n - 1]];
    }
  }

  /** Every candidate is on the side its name calls for. */
  lemma AskedAreEnabled(enabled: set<string>, cs: seq<Candidate>)
    ensures forall c :: c in Asked(enabled, cs) <==> c in cs && c.name in enabled
    ensures forall c :: c in Unasked(enabled, cs) <==> c in cs && c.name !in enabled
  {
    SplitSelects(enabled, cs, true, |cs|);
    SplitSelects(enabled, cs, false, |cs|);
    assert cs[..|cs|] == cs;
  }
}
