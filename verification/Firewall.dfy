/** The output firewall: which blocks of a model's turn may reach the client, the filter
    that keeps only those, and the assertion that nothing private is left. */
module Firewall {
  import opened Strings
  import opened Wrappers

  datatype Block =
    | Text(text: string)
    | Call(id: string, name: string, arguments: string)
    | ToolResult(callId: string, content: string, isError: bool)
    | Media(payload: string)

  /** What is private about one request: the ids of its private calls, the references it
      handed to the model, and the internal tools it enabled. */
  datatype Identity = Identity(callIds: set<string>, refs: set<string>, toolNames: set<string>)

  // ------------------------------------------------------------- the rules

  predicate Reserved(name: string) { StartsWith(name, "__interop_") }

  predicate Marker(text: string) {
    Contains(text, "[Interop result ref:") || Contains(text, "[Interop search:")
  }

  predicate PrivateResultText(text: string) {
    StartsWith(text, "[Interop internal error") || StartsWith(text, "[Interop result ref")
  }

  predicate Mentions(text: string, refs: set<string>) {
    exists ref :: ref in refs && Contains(text, ref)
  }

  /** A block the client must never see, by the request's identity. */
  predicate Private(b: Block, identity: Identity) {
    match b
    case Text(text) => Mentions(text, identity.refs)
    case Call(_, name, _) => name in identity.toolNames || Reserved(name)
    case ToolResult(callId, content, _) => callId in identity.callIds || Mentions(content, identity.refs)
    case Media(_) => false
  }

  /** Without an identity the filter and the assertion go by patterns; text with a marker
      is what the assertion refuses and the filter keeps. */
  predicate LooksPrivate(b: Block) {
    match b
    case Text(_) => false
    case Call(_, name, _) => Reserved(name)
    case ToolResult(_, content, _) => PrivateResultText(content)
    case Media(_) => false
  }

  predicate Dropped(b: Block, identity: Option<Identity>) {
    match identity
    case Some(i) => Private(b, i)
    case None => LooksPrivate(b)
  }

  predicate Refused(b: Block, identity: Option<Identity>) {
    Dropped(b, identity) || (identity.None? && b.Text? && Marker(b.text))
  }

  /** The blocks among the first `n` that may pass, in order. */
  function PublicTo(blocks: seq<Block>, identity: Option<Identity>, n: nat): (r: seq<Block>)
    requires n <= |blocks|
    ensures |r| <= n
  {
    if n == 0 then []
    else if Dropped(blocks[n - 1], identity) then PublicTo(blocks, identity, n - 1)
    else PublicTo(blocks, identity, n - 1) + [blocks[n - 1]]
  }

  function Public(blocks: seq<Block>, identity: Option<Identity>): seq<Block> {
    PublicTo(blocks, identity, |blocks|)
  }

  ghost predicate Passes(blocks: seq<Block>, identity: Option<Identity>) {
    forall i :: 0 <= i < |blocks| ==> !Refused(blocks[i], identity)
  }

  ghost predicate MarkerFree(blocks: seq<Block>) {
    forall i :: 0 <= i < |blocks| && blocks[i].Text? ==> !Marker(blocks[i].text)
  }

  /** `kept[i]` is where the i-th block of `part` stood in `whole`. */
  ghost predicate Selects(kept: seq<nat>, part: seq<Block>, whole: seq<Block>) {
    && |kept| == |part|
    && (forall i :: 0 <= i < |kept| ==> kept[i] < |whole| && whole[kept[i]] == part[i])
    && (forall i, j :: 0 <= i < j < |kept| ==> kept[i] < kept[j])
  }

  // ------------------------------------------------------------ its lemmas

  /** A name is reserved if and only if its first ten characters are the prefix. */
  lemma ReservedIff(name: string)
    ensures Reserved(name) <==> |name| >= 10 && name[..10] == "__interop_"
  {
    OccurrenceIsSlice(name, "__interop_", 0);
    assert |name| >= 10 ==> name[0..10] == name[..10];
  }

  /** What the filter takes out, block by block. By identity: text that mentions a reference,
      calls of enabled tools and reserved ones, results of private calls and results that
      mention a reference. By patterns: reserved calls and results that begin like Interop's
      own. */
  lemma DroppedIff(b: Block, identity: Option<Identity>)
    ensures Dropped(b, identity) <==>
              match (b, identity)
              case (Text(text), Some(id)) => exists ref :: ref in id.refs && Contains(text, ref)
              case (Call(_, name, _), Some(id)) => name in id.toolNames || Reserved(name)
              case (ToolResult(callId, content, _), Some(id)) =>
                callId in id.callIds || exists ref :: ref in id.refs && Contains(content, ref)
              case (Call(_, name, _), None) => Reserved(name)
              case (ToolResult(_, content, _), None) =>
                || (|content| >= 23 && content[..23] == "[Interop internal error")
                || (|content| >= 19 && content[..19] == "[Interop result ref")
              case (_, _) => false
  {
    if b.ToolResult? && identity.None? {
      var content := b.content;
      OccurrenceIsSlice(content, "[Interop internal error", 0);
      OccurrenceIsSlice(content, "[Interop result ref", 0);
      assert |content| >= 23 ==> content[0..23] == content[..23];
      assert |content| >= 19 ==> content[0..19] == content[..19];
    }
  }

  /** What the assertion refuses besides: without an identity, text with either marker. */
  lemma RefusedIff(b: Block, identity: Option<Identity>)
    ensures Refused(b, identity) <==>
              || Dropped(b, identity)
              || (identity.None? && b.Text?
                  && (Contains(b.text, "[Interop result ref:") || Contains(b.text, "[Interop search:")))
  {
  }

  lemma {:induction false} PublicToKeeps(blocks: seq<Block>, identity: Option<Identity>, n: nat)
    returns (kept: seq<nat>)
    requires n <= |blocks|
    ensures Selects(kept, PublicTo(blocks, identity, n), blocks)
    ensures forall i :: 0 <= i < |kept| ==> kept[i] < n && !Dropped(blocks[kept[i]], identity)
    ensures forall k :: 0 <= k < n && !Dropped(blocks[k], identity) ==> k in kept
  {
    if n == 0 {
      kept := [];
    } else {
      kept := PublicToKeeps(blocks, identity, n - 1);
      if !Dropped(blocks[n - 1], identity) {
        kept := kept + [n - 1];
      }
    }
  }

  /** The filter keeps exactly the blocks that are not private, in their order. */
  lemma PublicKeepsExactly(blocks: seq<Block>, identity: Option<Identity>) returns (kept: seq<nat>)
    ensures Selects(kept, Public(blocks, identity), blocks)
    ensures forall k :: 0 <= k < |blocks| ==> (k in kept <==> !Dropped(blocks[k], identity))
  {
    kept := PublicToKeeps(blocks, identity, |blocks|);
  }

  /** What is left of a filtered turn passes the assertion; without an identity, provided
      that the turn held no text with a marker. */
  lemma FilteredPassesIff(blocks: seq<Block>, identity: Option<Identity>)
    ensures Passes(Public(blocks, identity), identity) <==> (identity.Some? || MarkerFree(blocks))
  {
    var kept := PublicKeepsExactly(blocks, identity);
    var public := Public(blocks, identity);
    if identity.None? && Passes(public, identity) {
      forall k | 0 <= k < |blocks| && blocks[k].Text? ensures !Marker(blocks[k].text) {
        assert !Dropped(blocks[k], identity) && k in kept;
        var i :| 0 <= i < |kept| && kept[i] == k;
        assert !Refused(public[i], identity);
      }
    }
    forall i | 0 <= i < |public| && (identity.Some? || MarkerFree(blocks)) ensures !Refused(public[i], identity) {
      assert kept[i] in kept;
    }
  }

  /** The assertion passes on a turn exactly when the filter would not touch it; without an
      identity, and it holds no text with a marker. */
  lemma PassesIffUntouched(blocks: seq<Block>, identity: Option<Identity>)
    ensures Passes(blocks, identity)
       <==> Public(blocks, identity) == blocks && (identity.Some? || MarkerFree(blocks))
  {
    FilteredPassesIff(blocks, identity);
    if Passes(blocks, identity) {
      UntouchedWhenClean(blocks, identity);
      forall i | 0 <= i < |blocks| && blocks[i].Text? && identity.None? ensures !Marker(blocks[i].text) {
        assert !Refused(blocks[i], identity);
      }
    }
  }

  lemma {:induction false} UntouchedTo(blocks: seq<Block>, identity: Option<Identity>, n: nat)
    requires n <= |blocks|
    requires forall i :: 0 <= i < |blocks| ==> !Dropped(blocks[i], identity)
    ensures |PublicTo(blocks, identity, n)| == n
    ensures forall i :: 0 <= i < n ==> PublicTo(blocks, identity, n)[i] == blocks[i]
  {
    if n > 0 {
      UntouchedTo(blocks, identity, n - 1);
    }
  }

  lemma UntouchedWhenClean(blocks: seq<Block>, identity: Option<Identity>)
    requires forall i :: 0 <= i < |blocks| ==> !Dropped(blocks[i], identity)
    ensures Public(blocks, identity) == blocks
  {
    UntouchedTo(blocks, identity, |blocks|);
  }

  lemma FilterTwiceIsOnce(blocks: seq<Block>, identity: Option<Identity>)
    ensures Public(Public(blocks, identity), identity) == Public(blocks, identity)
  {
    var kept := PublicKeepsExactly(blocks, identity);
    forall i | 0 <= i < |Public(blocks, identity)| ensures !Dropped(Public(blocks, identity)[i], identity) {
      assert kept[i] in kept;
    }
    UntouchedWhenClean(Public(blocks, identity), identity);
  }

  /** Without an identity the filter can leave a turn that the assertion rejects. */
  lemma LegacyFilterCanFail()
    ensures Public([Text("[Interop search: x]")], None) == [Text("[Interop search: x]")]
    ensures !Passes([Text("[Interop search: x]")], None)
  {
    var b := Text("[Interop search: x]");
    assert OccursAt(b.text, "[Interop search:", 0);
    assert Contains(b.text, "[Interop search:");
    assert Refused([b][0], None);
  }

  // -------------------------------------------------------------- the loops

  /** `filter_public_blocks` */
  method FilterPublicBlocks(blocks: seq<Block>, identity: Option<Identity>) returns (public: seq<Block>)
    ensures public == Public(blocks, identity)
  {
    public := [];
    for i := 0 to |blocks|
      invariant public == PublicTo(blocks, identity, i)
    {
      if !Dropped(blocks[i], identity) {
        public := public + [blocks[i]];
      }
    }
  }

  /** `assert_no_internal_leakage`; false where it raises. */
  method AssertNoInternalLeakage(blocks: seq<Block>, identity: Option<Identity>) returns (ok: bool)
    ensures ok <==> Passes(blocks, identity)
  {
    for i := 0 to |blocks|
      invariant forall k :: 0 <= k < i ==> !Refused(blocks[k], identity)
    {
      if Refused(blocks[i], identity) {
        return false;
      }
    }
    ok := true;
  }

  datatype Authority = Client | Internal

  /** `classify_tool_authority` */
  function AuthorityOf(name: string): Authority { if Reserved(name) then Internal else Client }

  /** The calls among the first `n` blocks; those of one authority, when one is given. */
  function CallsOf(blocks: seq<Block>, wanted: Option<Authority>, n: nat): seq<Block>
    requires n <= |blocks|
  {
    if n == 0 then []
    else
      var (before, last) := (CallsOf(blocks, wanted, n - 1), blocks[n - 1]);
      if last.Call? && (wanted.None? || AuthorityOf(last.name) == wanted.value) then before + [last] else before
  }

  /** The calls of a turn, or of one side of it, are exactly those among its blocks, in their
      order: `kept[i]` is where the i-th stood. */
  lemma {:induction false} CallsAreKept(blocks: seq<Block>, wanted: Option<Authority>, n: nat) returns (kept: seq<nat>)
    requires n <= |blocks|
    ensures Selects(kept, CallsOf(blocks, wanted, n), blocks)
    ensures forall i :: 0 <= i < |kept| ==> kept[i] < n
    ensures forall k :: 0 <= k < n ==>
              (k in kept <==> blocks[k].Call? && (wanted.Some? ==> (wanted.value.Internal? <==> Reserved(blocks[k].name))))
  {
    kept := [];
    if n > 0 {
      kept := CallsAreKept(blocks, wanted, n - 1);
      var last := blocks[n - 1];
      if last.Call? && (wanted.None? || AuthorityOf(last.name) == wanted.value) {
        kept := kept + [n - 1];
      }
    }
  }

  /** Every call is on exactly one side, the side its name calls for. */
  lemma {:induction false} EveryCallHasOneSide(blocks: seq<Block>, n: nat)
    requires n <= |blocks|
    ensures multiset(CallsOf(blocks, Some(Client), n)) + multiset(CallsOf(blocks, Some(Internal), n))
         == multiset(CallsOf(blocks, None, n))
  {
    if n > 0 {
      EveryCallHasOneSide(blocks, n - 1);
    }
  }

  lemma {:induction false} SidesAreRight(blocks: seq<Block>, side: Authority, n: nat)
    requires n <= |blocks|
    ensures forall b :: b in CallsOf(blocks, Some(side), n) ==> b.Call? && (Reserved(b.name) <==> side == Internal)
  {
    if n > 0 {
      SidesAreRight(blocks, side, n - 1);
    }
  }

  /** `partition_blocks_by_authority` */
  method PartitionByAuthority(blocks: seq<Block>) returns (client: seq<Block>, internal: seq<Block>)
    ensures client == CallsOf(blocks, Some(Client), |blocks|)
    ensures internal == CallsOf(blocks, Some(Internal), |blocks|)
  {
    client, internal := [], [];
    for i := 0 to |blocks|
      invariant client == CallsOf(blocks, Some(Client), i) && internal == CallsOf(blocks, Some(Internal), i)
    {
      if blocks[i].Call? {
        if AuthorityOf(blocks[i].name) == Internal {
          internal := internal + [blocks[i]];
        } else {
          client := client + [blocks[i]];
        }
      }
    }
  }
}
