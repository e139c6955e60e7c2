/** Merging the calls the backend reported natively with those found in its text: a textual
    echo of a native call is dropped, everything else is kept. */
module CandidateMerge {
  import opened ToolCalls

  /** How argument text is normalised before it is compared; arbitrary. */
  type Normalizer = string -> string

  function Signature(normal: Normalizer, c: Candidate): (string, string) { (c.name, normal(c.arguments)) }

  /** A native call that shows a textual one to be its echo: the same id when the textual
      one has an id, otherwise the same name and arguments. */
  predicate Witness(normal: Normalizer, native: Candidate, textual: Candidate) {
    if textual.id != "" then native.id == textual.id
    else Signature(normal, native) == Signature(normal, textual)
  }

  predicate Echo(normal: Normalizer, native: seq<Candidate>, textual: Candidate) {
    exists i :: 0 <= i < |native| && Witness(normal, native[i], textual)
  }

  /** The first `n` textual calls without the echoes. */
  function Novel(normal: Normalizer, native: seq<Candidate>, textual: seq<Candidate>, n: nat): (r: seq<Candidate>)
    requires n <= |textual|
    ensures |r| <= n
  {
    if n == 0 then []
    else if Echo(normal, native, textual[n - 1]) then Novel(normal, native, textual, n - 1)
    else Novel(normal, native, textual, n - 1) + [textual[n - 1]]
  }

  /** `_dedup_tool_candidates` */
  function Merge(normal: Normalizer, native: seq<Candidate>, textual: seq<Candidate>): (r: seq<Candidate>)
    ensures native <= r
  {
    if textual == [] then native
    else if native == [] then textual
    else native + Novel(normal, native, textual, |textual|)
  }

  // ------------------------------------------------------------- its lemmas

  /** The two early returns agree with the general rule. */
  lemma {:induction false} MergeIsUniform(normal: Normalizer, native: seq<Candidate>, textual: seq<Candidate>)
    ensures Merge(normal, native, textual) == native + Novel(normal, native, textual, |textual|)
  {
    if native == [] {
      NothingIsAnEcho(normal, textual, |textual|);
      assert textual[..|textual|] == textual;
    }
  }

  lemma {:induction false} NothingIsAnEcho(normal: Normalizer, textual: seq<Candidate>, n: nat)
    requires n <= |textual|
    ensures Novel(normal, [], textual, n) == textual[..n]
  {
    if n > 0 {
      NothingIsAnEcho(normal, textual, n - 1);
      assert textual[..n] == textual[..n - 1] + [textual[n - 1]];
    }
  }

  /** Where the calls that are kept stood among the first `n`. */
  function Kept(normal: Normalizer, native: seq<Candidate>, textual: seq<Candidate>, n: nat): (r: seq<nat>)
    requires n <= |textual|
    ensures forall i :: 0 <= i < |r| ==> r[i] < n && !Echo(normal, native, textual[r[i]])
  {
    if n == 0 then []
    else if Echo(normal, native, textual[n - 1]) then Kept(normal, native, textual, n - 1)
    else Kept(normal, native, textual, n - 1) + [n - 1]
  }

  lemma {:induction false} KeptInOrder(normal: Normalizer, native: seq<Candidate>, textual: seq<Candidate>, n: nat)
    requires n <= |textual|
    ensures var (kept, r) := (Kept(normal, native, textual, n), Novel(normal, native, textual, n));
            && |kept| == |r|
            && (forall i :: 0 <= i < |kept| ==> textual[kept[i]] == r[i])
            && (forall i, j :: 0 <= i < j < |kept| ==> kept[i] < kept[j])
  {
    if n > 0 {
      KeptInOrder(normal, native, textual, n - 1);
    }
  }

  lemma {:induction false} NovelIsKept(normal: Normalizer, native: seq<Candidate>, textual: seq<Candidate>,
                                       n: nat, k: nat)
    requires k < n <= |textual| && !Echo(normal, native, textual[k])
    ensures k in Kept(normal, native, textual, n)
  {
    if k < n - 1 {
      NovelIsKept(normal, native, textual, n - 1, k);
    }
  }

  /** The merge is the native calls, unchanged and first, then the textual calls that have
      no witness among the native ones, in their order: `kept[i]` is where the i-th of them
      stood. */
  lemma MergeKeepsExactly(normal: Normalizer, native: seq<Candidate>, textual: seq<Candidate>)
    returns (kept: seq<nat>)
    ensures var merged := Merge(normal, native, textual);
            && |merged| == |native| + |kept| && merged[..|native|] == native
            && forall i :: 0 <= i < |kept| ==> kept[i] < |textual| && merged[|native| + i] == textual[kept[i]]
    ensures forall i, j :: 0 <= i < j < |kept| ==> kept[i] < kept[j]
    ensures forall k :: 0 <= k < |textual| ==> (k in kept <==> !Echo(normal, native, textual[k]))
  {
    MergeIsUniform(normal, native, textual);
    kept := Kept(normal, native, textual, |textual|);
    KeptInOrder(normal, native, textual, |textual|);
    forall k | 0 <= k < |textual| && !Echo(normal, native, textual[k]) ensures k in kept {
      NovelIsKept(normal, native, textual, |textual|, k);
    }
  }

  /** The k-th textual call is dropped if and only if it has an id and a native call carries
      that id, or it has none and a native call has its name and its normalised arguments;
      otherwise it is behind the native calls. */
  lemma DroppedIff(normal: Normalizer, native: seq<Candidate>, textual: seq<Candidate>, k: nat) returns (kept: seq<nat>)
    requires k < |textual|
    ensures |Merge(normal, native, textual)| == |native| + |kept|
    ensures forall i :: 0 <= i < |kept| ==>
              kept[i] < |textual| && Merge(normal, native, textual)[|native| + i] == textual[kept[i]]
    ensures k !in kept <==>
              if textual[k].id != "" then exists i :: 0 <= i < |native| && native[i].id == textual[k].id
              else exists i :: 0 <= i < |native| && native[i].name == textual[k].name
                                && normal(native[i].arguments) == normal(textual[k].arguments)
  {
    kept := MergeKeepsExactly(normal, native, textual);
    var c := textual[k];
    if c.id != "" {
      if i :| 0 <= i < |native| && native[i].id == c.id {
        assert Witness(normal, native[i], c);
      }
    } else if i :| 0 <= i < |native| && native[i].name == c.name && normal(native[i].arguments) == normal(c.arguments) {
      assert Witness(normal, native[i], c);
    }
  }

  /** Calls without an id that differ in name or normalised arguments are both kept. */
  lemma DifferentCallsAreKept(normal: Normalizer, native: seq<Candidate>, textual: seq<Candidate>, k: nat)
    requires k < |textual| && textual[k].id == ""
    requires forall i :: 0 <= i < |native| ==>
               native[i].name != textual[k].name || normal(native[i].arguments) != normal(textual[k].arguments)
    ensures textual[k] in Merge(normal, native, textual)
    ensures forall i :: 0 <= i < |native| ==> native[i] in Merge(normal, native, textual)
  {
    var kept := DroppedIff(normal, native, textual, k);
    var i :| 0 <= i < |kept| && kept[i] == k;
    var merged := Merge(normal, native, textual);
    assert merged[|native| + i] == textual[k];
    forall i | 0 <= i < |native| ensures native[i] in merged {
      assert merged[i] == native[i];
    }
  }

  /** A call with an id that no native call carries is never dropped, whatever its name
      and arguments. */
  lemma DifferentIdsAreKept(normal: Normalizer, native: seq<Candidate>, textual: seq<Candidate>, k: nat)
    requires k < |textual| && textual[k].id != ""
    requires forall i :: 0 <= i < |native| ==> native[i].id != textual[k].id
    ensures textual[k] in Merge(normal, native, textual)
  {
    var kept := MergeKeepsExactly(normal, native, textual);
    assert k in kept;
    var i :| 0 <= i < |kept| && kept[i] == k;
    assert Merge(normal, native, textual)[|native| + i] == textual[k];
  }

  lemma {:induction false} AllEchoes(normal: Normalizer, native: seq<Candidate>, textual: seq<Candidate>, n: nat)
    requires n <= |textual|
    requires forall k :: 0 <= k < |textual| ==> Echo(normal, native, textual[k])
    ensures Novel(normal, native, textual, n) == []
  {
    if n > 0 {
      AllEchoes(normal, native, textual, n - 1);
    }
  }

  /** Merging the same textual calls again changes nothing. */
  lemma MergeAgainIsMerge(normal: Normalizer, native: seq<Candidate>, textual: seq<Candidate>)
    ensures Merge(normal, Merge(normal, native, textual), textual) == Merge(normal, native, textual)
  {
    var merged := Merge(normal, native, textual);
    var kept := MergeKeepsExactly(normal, native, textual);
    forall k | 0 <= k < |textual| ensures Echo(normal, merged, textual[k]) {
      if Echo(normal, native, textual[k]) {
        var i :| 0 <= i < |native| && Witness(normal, native[i], textual[k]);
        assert merged[i] == native[i];
        assert Witness(normal, merged[i], textual[k]);
      } else {
        assert k in kept;
        var i :| 0 <= i < |kept| && kept[i] == k;
        assert merged[|native| + i] == textual[k];
        assert Witness(normal, merged[|native| + i], textual[k]);
      }
    }
    AllEchoes(normal, merged, textual, |textual|);
    MergeIsUniform(normal, merged, textual);
  }

  // --------------------------------------------------------------- the loop

  /** The sets the loop looks candidates up in decide exactly whether a witness exists. */
  lemma SetsFindWitness(normal: Normalizer, native: seq<Candidate>, c: Candidate,
                        ids: set<string>, signatures: set<(string, string)>)
    requires ids == set i | 0 <= i < |native| && native[i].id != "" :: native[i].id
    requires signatures == set i | 0 <= i < |native| :: Signature(normal, native[i])
    ensures Echo(normal, native, c) <==> (if c.id != "" then c.id in ids else Signature(normal, c) in signatures)
  {
    if c.id != "" && c.id in ids {
      var i :| 0 <= i < |native| && native[i].id == c.id;
      assert Witness(normal, native[i], c);
    }
    if c.id == "" && Signature(normal, c) in signatures {
      var i :| 0 <= i < |native| && Signature(normal, native[i]) == Signature(normal, c);
      assert Witness(normal, native[i], c);
    }
  }

  /** `_dedup_tool_candidates` */
  method DedupToolCandidates(normal: Normalizer, native: seq<Candidate>, textual: seq<Candidate>)
    returns (merged: seq<Candidate>)
    ensures merged == Merge(normal, native, textual)
  {
    if |textual| == 0 {
      return native;
    }
    if |native| == 0 {
      return textual;
    }
    var ids := set i | 0 <= i < |native| && native[i].id != "" :: native[i].id;
    var signatures := set i | 0 <= i < |native| :: Signature(normal, native[i]);
    merged := native;
    for k := 0 to |textual|
      invariant merged == native + Novel(normal, native, textual, k)
    {
      SetsFindWitness(normal, native, textual[k], ids, signatures);
      if textual[k].id != "" {
        if textual[k].id in ids {
          continue;
        }
      } else if Signature(normal, textual[k]) in signatures {
        continue;
      }
      merged := merged + [textual[k]];
    }
  }
}
