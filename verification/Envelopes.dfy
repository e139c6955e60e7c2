/** Tool calls in `<tool_call ...>...</tool_call>` envelopes: the strict scan of one
    text block after fenced code has been blanked, and the extraction over all blocks. */
module Envelopes {
  import opened Fences
  import opened Wrappers

  const OPEN := "<tool_call"
  const CLOSE := "</tool_call>"

  // ------------------------------------------------------------- scanning

  function Lower(c: char): char {
    if 'A' <= c <= 'Z' then c + ('a' - 'A') else c
  }

  predicate IsWord(c: char) {
    'a' <= c <= 'z' || 'A' <= c <= 'Z' || '0' <= c <= '9' || c == '_'
  }

  /** `part`, in any case, stands at position `i`. */
  predicate LiteralAt(s: string, i: int, part: string) {
    0 <= i && i + |part| <= |s| && forall k :: 0 <= k < |part| ==> Lower(s[i + k]) == part[k]
  }

  /** The tags, in either case. */
  lemma TagsAre(s: string, i: nat)
    ensures LiteralAt(s, i, OPEN) <==>
              i + 10 <= |s| && forall k :: 0 <= k < 10 ==> s[i + k] == "<tool_call"[k] || s[i + k] == "<TOOL_CALL"[k]
    ensures LiteralAt(s, i, CLOSE) <==>
              i + 12 <= |s| && forall k :: 0 <= k < 12 ==> s[i + k] == "</tool_call>"[k] || s[i + k] == "</TOOL_CALL>"[k]
  {
    assert forall k :: 0 <= k < 10 ==> UpperOf(OPEN[k]) == "<TOOL_CALL"[k];
    assert forall k :: 0 <= k < 12 ==> UpperOf(CLOSE[k]) == "</TOOL_CALL>"[k];
    forall c: char, k | 0 <= k < 10 ensures Lower(c) == OPEN[k] <==> c == OPEN[k] || c == UpperOf(OPEN[k]) {
      EitherCase(c, OPEN[k]);
    }
    forall c: char, k | 0 <= k < 12 ensures Lower(c) == CLOSE[k] <==> c == CLOSE[k] || c == UpperOf(CLOSE[k]) {
      EitherCase(c, CLOSE[k]);
    }
  }

  function UpperOf(c: char): char { if 'a' <= c <= 'z' then c - ('a' - 'A') else c }

  lemma EitherCase(c: char, low: char)
    requires !('A' <= low <= 'Z')
    ensures Lower(c) == low <==> c == low || c == UpperOf(low)
  {
  }

  /** Letters, digits and the underscore, by their codes. */
  lemma WordsAre(c: char)
    ensures var n := c as int;
            IsWord(c) <==> 48 <= n < 58 || 65 <= n < 91 || n == 95 || 97 <= n < 123
  {
  }

  /** The first place from `i` on where `part` stands, or the length. */
  function NextLiteral(s: string, part: string, i: nat): (j: nat)
    requires i <= |s|
    ensures i <= j <= |s|
    ensures j < |s| ==> LiteralAt(s, j, part)
    ensures forall k :: i <= k < j ==> !LiteralAt(s, k, part)
    decreases |s| - i
  {
    if i == |s| || LiteralAt(s, i, part) then i else NextLiteral(s, part, i + 1)
  }

  /** The opening tag at `start` ends before `body`; the body ends at `close`, where the
      closing tag stands; the envelope ends at `end`. */
  datatype Envelope = Envelope(start: nat, body: nat, close: nat, end: nat)

  /** The envelope that opens at `i`, if one does. */
  function EnvelopeAt(s: string, i: nat): (r: Option<Envelope>)
    ensures r.Some? ==> r.value.start == i && Well(s, r.value)
  {
    if !LiteralAt(s, i, OPEN) || (i + |OPEN| < |s| && IsWord(s[i + |OPEN|])) then None
    else
      var gt := NextChar(s, '>', i + |OPEN|);
      if gt == |s| then None
      else
        var close := NextLiteral(s, CLOSE, gt + 1);
        if close == |s| then None else Some(Envelope(i, gt + 1, close, close + |CLOSE|))
  }

  /** What the envelope pattern says of a match: the tag closes at its first `>`, the body
      ends at the first closing tag. */
  ghost predicate Well(s: string, m: Envelope) {
    && LiteralAt(s, m.start, OPEN) && m.start + |OPEN| < m.body <= m.close
    && m.body <= |s| && s[m.body - 1] == '>'
    && (forall k :: m.start + |OPEN| <= k < m.body - 1 ==> s[k] != '>')
    && (forall k :: m.body <= k < m.close ==> !LiteralAt(s, k, CLOSE))
    && LiteralAt(s, m.close, CLOSE) && m.end == m.close + |CLOSE|
  }

  /** The leftmost, non-overlapping envelopes from `i` on. */
  function Matches(s: string, i: nat): (ms: seq<Envelope>)
    requires i <= |s|
    ensures forall k :: 0 <= k < |ms| ==> i <= ms[k].start < ms[k].end <= |s| && Well(s, ms[k])
    ensures forall j, k :: 0 <= j < k < |ms| ==> ms[j].end <= ms[k].start
    decreases |s| - i
  {
    if i == |s| then []
    else if EnvelopeAt(s, i).Some? then [EnvelopeAt(s, i).value] + Matches(s, EnvelopeAt(s, i).value.end)
    else Matches(s, i + 1)
  }

  /** An envelope opens at `i` exactly when the pattern matches there: the opening tag at a
      word's end, its first `>`, and the first closing tag behind it. */
  lemma EnvelopeIsThePattern(s: string, i: nat, m: Envelope)
    ensures EnvelopeAt(s, i) == Some(m)
       <==> m.start == i && Well(s, m) && !(i + |OPEN| < |s| && IsWord(s[i + |OPEN|]))
  {
    if m.start == i && Well(s, m) && !(i + |OPEN| < |s| && IsWord(s[i + |OPEN|])) {
      assert NextChar(s, '>', i + |OPEN|) == m.body - 1;
      assert NextLiteral(s, CLOSE, m.body) == m.close;
    }
  }

  ghost predicate Covered(ms: seq<Envelope>, p: nat) {
    exists k :: 0 <= k < |ms| && ms[k].start <= p < ms[k].end
  }

  lemma CoveredCons(m: Envelope, rest: seq<Envelope>, p: nat)
    requires Covered(rest, p) || m.start <= p < m.end
    ensures Covered([m] + rest, p)
  {
    var ms := [m] + rest;
    assert ms[0] == m;
    if k :| 0 <= k < |rest| && rest[k].start <= p < rest[k].end {
      assert ms[k + 1] == rest[k];
    }
  }

  /** The scan from `i` on passes a match that covers `p`. */
  ghost predicate Passed(s: string, i: nat, p: nat)
    requires i <= |s|
    decreases |s| - i
  {
    if i == |s| then false
    else match EnvelopeAt(s, i)
      case None => Passed(s, i + 1, p)
      case Some(m) => i <= p < m.end || Passed(s, m.end, p)
  }

  lemma {:induction false} OpeningsArePassed(s: string, i: nat, p: nat)
    requires i <= p < |s| && EnvelopeAt(s, p).Some?
    ensures Passed(s, i, p)
    decreases p - i
  {
    match EnvelopeAt(s, i)
    case None => OpeningsArePassed(s, i + 1, p);
    case Some(m) =>
      if m.end <= p {
        OpeningsArePassed(s, m.end, p);
      }
  }

  lemma {:induction false} PassedIsCovered(s: string, i: nat, p: nat)
    requires i <= |s| && Passed(s, i, p)
    ensures Covered(Matches(s, i), p)
    decreases |s| - i
  {
    match EnvelopeAt(s, i)
    case None => PassedIsCovered(s, i + 1, p);
    case Some(m) =>
      if !(i <= p < m.end) {
        PassedIsCovered(s, m.end, p);
      }
      CoveredCons(m, Matches(s, m.end), p);
  }

  /** No envelope is missed: wherever one opens, there is a match. */
  lemma MatchesAreLeftmost(s: string, i: nat, p: nat)
    requires i <= p < |s| && EnvelopeAt(s, p).Some?
    ensures Covered(Matches(s, i), p)
  {
    OpeningsArePassed(s, i, p);
    PassedIsCovered(s, i, p);
  }

  // -------------------------------------------------------------- slicing and stripping

  /** `s[i:j]`, character by character. */
  function Slice(s: string, i: nat, j: nat): (r: string)
    requires i <= j <= |s|
    ensures |r| == j - i
    ensures forall k :: 0 <= k < j - i ==> r[k] == s[i + k]
  {
    seq(j - i, k requires 0 <= k < j - i => s[i + k])
  }

  lemma SlicesJoin(s: string, i: nat, j: nat, k: nat)
    requires i <= j <= k <= |s|
    ensures Slice(s, i, j) + Slice(s, j, k) == Slice(s, i, k)
  {
    assert forall n :: j - i <= n < k - i ==> Slice(s, i, k)[n] == Slice(s, j, k)[n - (j - i)];
  }

  lemma WholeSlice(s: string)
    ensures Slice(s, 0, |s|) == s
  {
  }

  /** What `str.strip` removes. */
  predicate IsSpace(c: char) {
    '\t' <= c <= '\r' || '\U{1c}' <= c <= ' ' || c == '\U{85}' || c == '\U{a0}' || c == '\U{1680}'
    || '\U{2000}' <= c <= '\U{200a}' || c == '\U{2028}' || c == '\U{2029}' || c == '\U{202f}'
    || c == '\U{205f}' || c == '\U{3000}'
  }

  function SkipSpace(s: string, i: nat, j: nat): (k: nat)
    requires i <= j <= |s|
    ensures i <= k <= j
    ensures forall n :: i <= n < k ==> IsSpace(s[n])
    ensures k < j ==> !IsSpace(s[k])
    decreases j - i
  {
    if i == j || !IsSpace(s[i]) then i else SkipSpace(s, i + 1, j)
  }

  function DropSpace(s: string, i: nat, j: nat): (k: nat)
    requires i <= j <= |s|
    ensures i <= k <= j
    ensures forall n :: k <= n < j ==> IsSpace(s[n])
    ensures k > i ==> !IsSpace(s[k - 1])
  {
    if i == j || !IsSpace(s[j - 1]) then j else DropSpace(s, i, j - 1)
  }

  /** `s[i:j].strip()`. */
  function Strip(s: string, i: nat, j: nat): string
    requires i <= j <= |s|
  {
    var a := SkipSpace(s, i, j);
    Slice(s, a, DropSpace(s, a, j))
  }

  // --------------------------------------------------------- the strict loop

  datatype Block = Text(text: string) | Media(id: int)

  /** `block` is the number of the content block it was found in. */
  datatype Candidate = Candidate(block: nat, name: string, arguments: string, sourceText: string)

  /** How a payload or an opening tag is read for a name (empty when there is none) and
      arguments, and the names of the tools on offer. */
  datatype Reader = Reader(
    payload: string -> (string, string),
    attributes: string -> (string, string),
    tools: set<string>)

  function CandidateOf(masked: string, m: Envelope, reader: Reader, block: nat): (found: seq<Candidate>)
    requires m.start <= m.body <= m.close <= m.end <= |masked|
    ensures |found| <= 1 && (found != [] ==> found[0].block == block)
  {
    var payload := Strip(masked, m.body, m.close);
    var (name, arguments) := reader.payload(payload);
    if payload == "" && name == "" then
      var tag := Slice(masked, m.start, m.end);
      var (n, a) := reader.attributes(tag);
      if n == "" then [] else [Candidate(block, n, a, tag)]
    else [Candidate(block, name, arguments, payload)]
  }

  ghost predicate Ordered(ms: seq<Envelope>, n: nat) {
    && (forall k :: 0 <= k < |ms| ==> ms[k].start < ms[k].body <= ms[k].close < ms[k].end <= n)
    && (forall j, k :: 0 <= j < k < |ms| ==> ms[j].end <= ms[k].start)
  }

  /** Where match `k - 1` ends. */
  function EndOf(ms: seq<Envelope>, k: nat): nat
    requires k <= |ms|
  {
    if k == 0 then 0 else ms[k - 1].end
  }

  /** The text before match `k`, back to the match before it; the text after the last
      match when `k` is their number. */
  function Gap(s: string, ms: seq<Envelope>, k: nat): string
    requires Ordered(ms, |s|) && k <= |ms|
  {
    Slice(s, EndOf(ms, k), if k == |ms| then |s| else ms[k].start)
  }

  /** Gap, envelope, gap, envelope, ...: the first `k` of each. */
  function Interleaved(s: string, ms: seq<Envelope>, k: nat): string
    requires Ordered(ms, |s|) && k <= |ms|
  {
    if k == 0 then ""
    else Interleaved(s, ms, k - 1) + Gap(s, ms, k - 1) + Slice(s, ms[k - 1].start, ms[k - 1].end)
  }

  /** Stripped, and only if something is left. */
  function Kept(gap: string): (kept: seq<Block>)
    ensures |kept| <= 1
  {
    var text := Strip(gap, 0, |gap|);
    if text == "" then [] else [Text(text)]
  }

  /** The first `k` gaps as blocks. */
  function Remaining(s: string, ms: seq<Envelope>, k: nat): seq<Block>
    requires Ordered(ms, |s|) && k <= |ms| + 1
  {
    if k == 0 then [] else Remaining(s, ms, k - 1) + Kept(Gap(s, ms, k - 1))
  }

  /** The candidates of the first `k` matches. */
  function Candidates(masked: string, ms: seq<Envelope>, k: nat, reader: Reader, block: nat): seq<Candidate>
    requires Ordered(ms, |masked|) && k <= |ms|
  {
    if k == 0 then [] else Candidates(masked, ms, k - 1, reader, block) + CandidateOf(masked, ms[k - 1], reader, block)
  }

  datatype Diagnostic =
    | RepairedEnvelope(block: nat, rule: string)
    | UnknownTool(block: nat, name: string)
    | UnclosedEnvelope(block: nat)

  predicate Unknown(c: Candidate, reader: Reader) {
    c.name != "" && reader.tools != {} && c.name !in reader.tools
  }

  /** What is said of the at most one candidate of a match. */
  function Warning(found: seq<Candidate>, reader: Reader): seq<Diagnostic> {
    if found != [] && Unknown(found[0], reader) then [UnknownTool(found[0].block, found[0].name)] else []
  }

  /** The warnings of the first `k` matches. */
  function EnvelopeWarnings(masked: string, ms: seq<Envelope>, k: nat, reader: Reader, block: nat): seq<Diagnostic>
    requires Ordered(ms, |masked|) && k <= |ms|
  {
    if k == 0 then []
    else
      EnvelopeWarnings(masked, ms, k - 1, reader, block) + Warning(CandidateOf(masked, ms[k - 1], reader, block), reader)
  }

  /** The fences of a text, closed ones first, as they are advertised. */
  function FenceSpans(s: string): seq<Span> {
    var (closed, open) := (ClosedSpans(s, 0), FirstOpen(MaskClosed(s), 0));
    if open == |s| then closed else closed + [Span(open, |s|)]
  }

  function MatchSpans(ms: seq<Envelope>, k: nat): seq<Span>
    requires k <= |ms|
  {
    if k == 0 then [] else MatchSpans(ms, k - 1) + [Span(ms[k - 1].start, ms[k - 1].end)]
  }

  lemma InSpansSnoc(spans: seq<Span>, last: Span, p: nat)
    ensures InSpans(spans + [last], p) <==> InSpans(spans, p) || last.start <= p < last.end
  {
    var all := spans + [last];
    assert forall k :: 0 <= k < |spans| ==> all[k] == spans[k];
    assert all[|spans|] == last;
  }

  /** The advertised fences are exactly the blanked positions. */
  lemma SpansAreTheBlanked(s: string, p: nat)
    requires p < |s|
    ensures InSpans(FenceSpans(s), p) <==> Blanked(s, p)
  {
    InSpansSnoc(ClosedSpans(s, 0), Span(FirstOpen(MaskClosed(s), 0), |s|), p);
  }

  /** And each of them is a piece of the text, none empty, in order. */
  lemma FencesAreInOrder(s: string)
    ensures forall k :: 0 <= k < |FenceSpans(s)| ==> FenceSpans(s)[k].start < FenceSpans(s)[k].end <= |s|
    ensures forall j, k :: 0 <= j < k < |ClosedSpans(s, 0)| ==> ClosedSpans(s, 0)[j].end <= ClosedSpans(s, 0)[k].start
    ensures ClosedSpans(s, 0) <= FenceSpans(s) && |FenceSpans(s)| <= |ClosedSpans(s, 0)| + 1
  {
  }

  /** The gaps and the matches tile the text. */
  lemma {:induction false} GapsTileTheText(s: string, ms: seq<Envelope>, k: nat)
    requires Ordered(ms, |s|) && k <= |ms|
    ensures Interleaved(s, ms, k) == Slice(s, 0, EndOf(ms, k))
  {
    if k > 0 {
      GapsTileTheText(s, ms, k - 1);
      SlicesJoin(s, 0, EndOf(ms, k - 1), ms[k - 1].start);
      SlicesJoin(s, 0, ms[k - 1].start, ms[k - 1].end);
    }
  }

  // ----------------------------------------------- what masking does to envelopes

  lemma TiledToTheEnd(s: string, ms: seq<Envelope>)
    requires Ordered(ms, |s|)
    ensures Interleaved(s, ms, |ms|) + Gap(s, ms, |ms|) == s
  {
    GapsTileTheText(s, ms, |ms|);
    SlicesJoin(s, 0, EndOf(ms, |ms|), |s|);
    WholeSlice(s);
  }

  lemma MatchesAreOrdered(s: string)
    ensures Ordered(Matches(Mask(s), 0), |s|)
  {
    MaskIsPointwise(s);
  }

  /** Text block `s` is cut exactly into its gaps and its envelopes. */
  lemma BlockIsTiled(s: string)
    ensures var ms := Matches(Mask(s), 0);
            Ordered(ms, |s|) && Interleaved(s, ms, |ms|) + Gap(s, ms, |ms|) == s
  {
    MatchesAreOrdered(s);
    TiledToTheEnd(s, Matches(Mask(s), 0));
  }

  lemma LiteralIsUnmasked(s: string, i: nat, part: string)
    requires LiteralAt(Mask(s), i, part) && ' ' !in part
    ensures LiteralAt(s, i, part)
    ensures forall p :: i <= p < i + |part| ==> !Blanked(s, p)
  {
    MaskIsPointwise(s);
    forall p | i <= p < i + |part| ensures !Blanked(s, p) && s[p] == Mask(s)[p] {
      assert Lower(Mask(s)[i + (p - i)]) == part[p - i];
      assert part[p - i] in part;
    }
  }

  lemma NoSpaceInTags()
    ensures ' ' !in OPEN && ' ' !in CLOSE
  {
  }

  lemma MatchIsWell(s: string, m: Envelope)
    requires m in Matches(s, 0)
    ensures Well(s, m) && m.start < m.body <= m.close < m.end <= |s|
  {
  }

  /** Both tag literals stand in the original text, wholly outside every fenced region. */
  lemma TagsLieOutsideFences(s: string, m: Envelope)
    requires m in Matches(Mask(s), 0)
    ensures LiteralAt(s, m.start, OPEN) && LiteralAt(s, m.close, CLOSE)
    ensures forall p :: m.start <= p < m.start + |OPEN| ==> !Blanked(s, p)
    ensures forall p :: m.close <= p < m.end ==> !Blanked(s, p)
  {
    MatchIsWell(Mask(s), m);
    NoSpaceInTags();
    LiteralIsUnmasked(s, m.start, OPEN);
    LiteralIsUnmasked(s, m.close, CLOSE);
  }

  lemma StripAgrees(s: string, t: string, i: nat, j: nat)
    requires i <= j <= |s| == |t| && forall p :: i <= p < j ==> s[p] == t[p]
    ensures Strip(s, i, j) == Strip(t, i, j)
  {
    assert SkipSpace(s, i, j) == SkipSpace(t, i, j);
    var a := SkipSpace(s, i, j);
    assert DropSpace(s, a, j) == DropSpace(t, a, j);
  }

  /** The payload read from the blanked text is then the payload of the original. */
  lemma PayloadIsVerbatim(s: string, m: Envelope)
    requires m in Matches(Mask(s), 0)
    requires forall p :: m.body <= p < m.close ==> !Blanked(s, p)
    ensures m.body <= m.close <= |s| == |Mask(s)|
    ensures Strip(Mask(s), m.body, m.close) == Strip(s, m.body, m.close)
  {
    MatchIsWell(Mask(s), m);
    MaskIsPointwise(s);
    StripAgrees(Mask(s), s, m.body, m.close);
  }

  // ------------------------------------------------------------- extraction

  /** A repaired envelope, found where the strict scan found none. */
  datatype Recovered = Recovered(start: nat, end: nat, payload: string, rule: string)

  datatype Extraction = Extraction(
    candidates: seq<Candidate>,
    remaining: seq<Block>,
    diagnostics: seq<Diagnostic>,
    spans: seq<Span>)

  /** `_recover_first_envelope`, on the blanked text. */
  type Recovery = string -> Option<Recovered>

  ghost predicate Bounded(recover: Recovery) {
    forall s :: recover(s).Some? ==> recover(s).value.start <= recover(s).value.end <= |s|
  }

  /** An opening tag stands at `i`. */
  predicate TagAt(s: string, i: nat) {
    && LiteralAt(s, i, OPEN) && !(i + |OPEN| < |s| && IsWord(s[i + |OPEN|]))
    && NextChar(s, '>', i + |OPEN|) < |s|
  }

  /** A block without a usable envelope stays as it is, with a warning if one was opened. */
  function LeftAlone(block: Block, masked: string, index: nat): Extraction
    requires block.Text?
  {
    var unclosed := exists i :: 0 <= i <= |masked| && TagAt(masked, i);
    Extraction([], [block], if unclosed then [UnclosedEnvelope(index)] else [], FenceSpans(block.text))
  }

  function ExtractRecovered(text: string, r: Recovered, reader: Reader, masked: string, index: nat): Extraction
    requires r.start <= r.end <= |text|
  {
    var payload := Strip(r.payload, 0, |r.payload|);
    var (name, arguments) := reader.payload(payload);
    if name == "" && payload == "" then LeftAlone(Text(text), masked, index)
    else
      var found := [Candidate(index, name, arguments, payload)];
      Extraction(found, Kept(Slice(text, 0, r.start)) + Kept(Slice(text, r.end, |text|)),
                 [RepairedEnvelope(index, r.rule)] + Warning(found, reader),
                 FenceSpans(text) + [Span(r.start, r.end)])
  }

  /** What one block becomes. */
  ghost function ExtractBlock(block: Block, index: nat, reader: Reader, recover: Recovery): Extraction
    requires Bounded(recover)
  {
    if block.Media? || block.text == "" then Extraction([], [block], [], [])
    else
      var masked := Mask(block.text);
      var ms := Matches(masked, 0);
      if ms != [] then
        MatchesAreOrdered(block.text);
        var found := Candidates(masked, ms, |ms|, reader, index);
        Extraction(found, Remaining(block.text, ms, |ms| + 1), EnvelopeWarnings(masked, ms, |ms|, reader, index),
                   FenceSpans(block.text) + MatchSpans(ms, |ms|))
      else if recover(masked).Some? then ExtractRecovered(block.text, recover(masked).value, reader, masked, index)
      else LeftAlone(block, masked, index)
  }

  function Both(a: Extraction, b: Extraction): Extraction {
    Extraction(a.candidates + b.candidates, a.remaining + b.remaining, a.diagnostics + b.diagnostics, a.spans + b.spans)
  }

  ghost function ExtractFirst(content: seq<Block>, k: nat, reader: Reader, recover: Recovery): Extraction
    requires Bounded(recover) && k <= |content|
  {
    if k == 0 then Extraction([], [], [], [])
    else Both(ExtractFirst(content, k - 1, reader, recover), ExtractBlock(content[k - 1], k - 1, reader, recover))
  }

  // ------------------------------------------------ what a block's result says

  /** What is not text, and empty text, stays as it is and says nothing. */
  lemma OtherBlocksStay(block: Block, index: nat, reader: Reader, recover: Recovery)
    requires Bounded(recover) && (block.Text? ==> block.text == "")
    ensures ExtractBlock(block, index, reader, recover) == Extraction([], [block], [], [])
  {
  }

  /** Each block on its own, under its own number. */
  ghost function OneByOne(content: seq<Block>, reader: Reader, recover: Recovery): (r: seq<Extraction>)
    requires Bounded(recover)
    ensures |r| == |content|
  {
    seq(|content|, i requires 0 <= i < |content| => ExtractBlock(content[i], i, reader, recover))
  }

  /** How many candidates, blocks of text, diagnostics and spans the first `n` results hold. */
  function Sizes(rs: seq<Extraction>, n: nat): (nat, nat, nat, nat)
    requires n <= |rs|
  {
    if n == 0 then (0, 0, 0, 0)
    else
      var (before, r) := (Sizes(rs, n - 1), rs[n - 1]);
      (before.0 + |r.candidates|, before.1 + |r.remaining|, before.2 + |r.diagnostics|, before.3 + |r.spans|)
  }

  /** `part` stands in `whole` at `at`. */
  ghost predicate StandsAt<T>(whole: seq<T>, part: seq<T>, at: nat) {
    at + |part| <= |whole| && forall i :: 0 <= i < |part| ==> whole[at + i] == part[i]
  }

  /** The k-th result stands right behind those before it, in each of its parts. */
  ghost predicate ResultAt(whole: Extraction, rs: seq<Extraction>, k: nat)
    requires k < |rs|
  {
    var (at, r) := (Sizes(rs, k), rs[k]);
    && StandsAt(whole.candidates, r.candidates, at.0) && StandsAt(whole.remaining, r.remaining, at.1)
    && StandsAt(whole.diagnostics, r.diagnostics, at.2) && StandsAt(whole.spans, r.spans, at.3)
  }

  ghost predicate HasSizes(whole: Extraction, sizes: (nat, nat, nat, nat)) {
    (|whole.candidates|, |whole.remaining|, |whole.diagnostics|, |whole.spans|) == sizes
  }

  lemma BothStand(a: Extraction, rs: seq<Extraction>, k: nat)
    requires k < |rs| && HasSizes(a, Sizes(rs, k))
    ensures HasSizes(Both(a, rs[k]), Sizes(rs, k + 1)) && ResultAt(Both(a, rs[k]), rs, k)
    ensures forall j :: 0 <= j < k && ResultAt(a, rs, j) ==> ResultAt(Both(a, rs[k]), rs, j)
  {
  }

  function Joined(rs: seq<Extraction>, n: nat): Extraction
    requires n <= |rs|
  {
    if n == 0 then Extraction([], [], [], []) else Both(Joined(rs, n - 1), rs[n - 1])
  }

  lemma {:induction false} JoinedStands(rs: seq<Extraction>, n: nat)
    requires n <= |rs|
    ensures HasSizes(Joined(rs, n), Sizes(rs, n)) && forall k :: 0 <= k < n ==> ResultAt(Joined(rs, n), rs, k)
  {
    if n > 0 {
      JoinedStands(rs, n - 1);
      BothStand(Joined(rs, n - 1), rs, n - 1);
    }
  }

  lemma {:induction false} FirstIsJoined(content: seq<Block>, n: nat, reader: Reader, recover: Recovery)
    requires Bounded(recover) && n <= |content|
    ensures ExtractFirst(content, n, reader, recover) == Joined(OneByOne(content, reader, recover), n)
  {
    if n > 0 {
      FirstIsJoined(content, n - 1, reader, recover);
    }
  }

  /** The result of all blocks is the results of the blocks, one behind another. */
  lemma BlocksStandInOrder(content: seq<Block>, reader: Reader, recover: Recovery)
    requires Bounded(recover)
    ensures var (whole, rs) := (ExtractFirst(content, |content|, reader, recover), OneByOne(content, reader, recover));
            HasSizes(whole, Sizes(rs, |rs|)) && forall k :: 0 <= k < |rs| ==> ResultAt(whole, rs, k)
  {
    FirstIsJoined(content, |content|, reader, recover);
    JoinedStands(OneByOne(content, reader, recover), |content|);
  }

  ghost predicate AllSpace(s: string) { forall i :: 0 <= i < |s| ==> IsSpace(s[i]) }

  /** Text with the white space around it taken off, `a` characters before it, and nothing
      else. */
  ghost predicate StrippedAt(text: string, whole: string, a: nat) {
    && a + |text| <= |whole| && Slice(whole, a, a + |text|) == text
    && (forall i :: 0 <= i < a ==> IsSpace(whole[i])) && (forall i :: a + |text| <= i < |whole| ==> IsSpace(whole[i]))
    && (text != "" ==> !IsSpace(text[0]) && !IsSpace(text[|text| - 1]))
  }

  ghost predicate Stripped(text: string, whole: string) { exists a: nat :: StrippedAt(text, whole, a) }

  lemma StripIsStripped(s: string, i: nat, j: nat)
    requires i <= j <= |s|
    ensures Stripped(Strip(s, i, j), Slice(s, i, j))
    ensures Strip(s, i, j) == "" <==> AllSpace(Slice(s, i, j))
  {
    var a := SkipSpace(s, i, j);
    SliceIsStripped(s, i, j, a, DropSpace(s, a, j));
  }

  /** What is left of a slice when the white space at both of its ends is cut off. */
  lemma SliceIsStripped(s: string, i: nat, j: nat, a: nat, b: nat)
    requires i <= a <= b <= j <= |s|
    requires (forall n :: i <= n < a ==> IsSpace(s[n])) && (forall n :: b <= n < j ==> IsSpace(s[n]))
    requires a < b ==> !IsSpace(s[a]) && !IsSpace(s[b - 1])
    ensures Stripped(Slice(s, a, b), Slice(s, i, j)) && (a == b <==> AllSpace(Slice(s, i, j)))
  {
    var (whole, text) := (Slice(s, i, j), Slice(s, a, b));
    SpaceBefore(s, i, j, i, a);
    SpaceBefore(s, i, j, b, j);
    forall n | 0 <= n < |text| ensures whole[a - i + n] == text[n] {
      assert whole[a - i + n] == s[i + (a - i + n)];
    }
    IsStripped(text, whole, a - i);
  }

  lemma SpaceBefore(s: string, i: nat, j: nat, from: nat, to: nat)
    requires i <= from <= to <= j <= |s| && forall n :: from <= n < to ==> IsSpace(s[n])
    ensures forall n :: from - i <= n < to - i ==> IsSpace(Slice(s, i, j)[n])
  {
    forall n | from - i <= n < to - i ensures IsSpace(Slice(s, i, j)[n]) {
      assert Slice(s, i, j)[n] == s[i + n];
    }
  }

  lemma IsStripped(text: string, whole: string, a: nat)
    requires a + |text| <= |whole| && forall n :: 0 <= n < |text| ==> whole[a + n] == text[n]
    requires (forall n :: 0 <= n < a ==> IsSpace(whole[n])) && (forall n :: a + |text| <= n < |whole| ==> IsSpace(whole[n]))
    requires text != "" ==> !IsSpace(text[0]) && !IsSpace(text[|text| - 1])
    ensures Stripped(text, whole) && (text == "" <==> AllSpace(whole))
  {
    assert Slice(whole, a, a + |text|) == text;
    assert StrippedAt(text, whole, a);
    if text != "" {
      assert whole[a + 0] == text[0];
    }
  }

  /** What a reader makes of an envelope: of what stands between its tags, or, where that is
      empty and names no tool, of the attributes of its opening tag. */
  ghost predicate ReadAs(c: Candidate, masked: string, m: Envelope, reader: Reader)
    requires m.start <= m.body <= m.close <= m.end <= |masked|
  {
    var inside := Slice(masked, m.body, m.close);
    exists payload :: Stripped(payload, inside) &&
      if payload != "" || reader.payload(payload).0 != "" then
        c.sourceText == payload && (c.name, c.arguments) == reader.payload(payload)
      else
        c.sourceText == Slice(masked, m.start, m.end) && (c.name, c.arguments) == reader.attributes(c.sourceText)
  }

  /** Nothing can be read from an envelope. */
  ghost predicate SaysNothing(masked: string, m: Envelope, reader: Reader)
    requires m.start <= m.body <= m.close <= m.end <= |masked|
  {
    && AllSpace(Slice(masked, m.body, m.close)) && reader.payload("").0 == ""
    && reader.attributes(Slice(masked, m.start, m.end)).0 == ""
  }

  lemma CandidateIsRead(masked: string, m: Envelope, reader: Reader, block: nat)
    requires m.start <= m.body <= m.close <= m.end <= |masked|
    ensures var found := CandidateOf(masked, m, reader, block);
            && |found| <= 1
            && (found != [] ==> found[0].block == block && ReadAs(found[0], masked, m, reader))
            && (found == [] <==> SaysNothing(masked, m, reader))
  {
    StripIsStripped(masked, m.body, m.close);
  }

  /** The i-th candidate is read from the match `kept[i]`, in order, and nothing can be read
      from any other of the first `k`. */
  ghost predicate ReadInOrder(found: seq<Candidate>, masked: string, ms: seq<Envelope>, k: nat, reader: Reader, block: nat,
                              kept: seq<nat>)
    requires Ordered(ms, |masked|) && k <= |ms|
  {
    && |kept| == |found|
    && (forall i :: 0 <= i < |kept| ==> kept[i] < k && found[i].block == block && ReadAs(found[i], masked, ms[kept[i]], reader))
    && (forall i, j :: 0 <= i < j < |kept| ==> kept[i] < kept[j])
    && (forall j {:trigger j in kept} :: 0 <= j < k ==> (j !in kept <==> SaysNothing(masked, ms[j], reader)))
  }

  lemma NothingRead(found: seq<Candidate>, masked: string, ms: seq<Envelope>, k: nat, reader: Reader, block: nat, kept: seq<nat>)
    requires Ordered(ms, |masked|) && 0 < k <= |ms| && ReadInOrder(found, masked, ms, k - 1, reader, block, kept)
    requires SaysNothing(masked, ms[k - 1], reader)
    ensures ReadInOrder(found, masked, ms, k, reader, block, kept)
  {
    forall j | 0 <= j < k ensures j !in kept <==> SaysNothing(masked, ms[j], reader) {
    }
  }

  lemma OneRead(found: seq<Candidate>, masked: string, ms: seq<Envelope>, k: nat, reader: Reader, block: nat, kept: seq<nat>,
                c: Candidate)
    requires Ordered(ms, |masked|) && 0 < k <= |ms| && ReadInOrder(found, masked, ms, k - 1, reader, block, kept)
    requires !SaysNothing(masked, ms[k - 1], reader) && c.block == block && ReadAs(c, masked, ms[k - 1], reader)
    ensures ReadInOrder(found + [c], masked, ms, k, reader, block, kept + [k - 1])
  {
    forall j | 0 <= j < k ensures j !in kept + [k - 1] <==> SaysNothing(masked, ms[j], reader) {
      assert j in kept + [k - 1] <==> j in kept || j == k - 1;
    }
  }

  lemma NextRead(found: seq<Candidate>, more: seq<Candidate>, masked: string, ms: seq<Envelope>, k: nat, reader: Reader,
                 block: nat, before: seq<nat>) returns (kept: seq<nat>)
    requires Ordered(ms, |masked|) && 0 < k <= |ms| && ReadInOrder(found, masked, ms, k - 1, reader, block, before)
    requires more == CandidateOf(masked, ms[k - 1], reader, block)
    ensures ReadInOrder(found + more, masked, ms, k, reader, block, kept)
  {
    CandidateIsRead(masked, ms[k - 1], reader, block);
    if more == [] {
      NothingRead(found, masked, ms, k, reader, block, before);
      assert found + more == found;
      kept := before;
    } else {
      OneRead(found, masked, ms, k, reader, block, before, more[0]);
      assert more == [more[0]];
      kept := before + [k - 1];
    }
  }

  /** The candidates of a block are what is read from its matches, one each and in order, for
      every match but those from which nothing can be read. */
  lemma {:induction false} CandidatesAreRead(masked: string, ms: seq<Envelope>, k: nat, reader: Reader, block: nat)
    requires Ordered(ms, |masked|) && k <= |ms|
    ensures exists kept :: ReadInOrder(Candidates(masked, ms, k, reader, block), masked, ms, k, reader, block, kept)
  {
    if k == 0 {
      NothingYet(masked, ms, reader, block);
    } else {
      CandidatesAreRead(masked, ms, k - 1, reader, block);
      OneMatchMore(masked, ms, k - 1, k, reader, block);
    }
  }

  lemma NothingYet(masked: string, ms: seq<Envelope>, reader: Reader, block: nat)
    requires Ordered(ms, |masked|)
    ensures exists kept :: ReadInOrder(Candidates(masked, ms, 0, reader, block), masked, ms, 0, reader, block, kept)
  {
    assert ReadInOrder(Candidates(masked, ms, 0, reader, block), masked, ms, 0, reader, block, []);
  }

  lemma OneMatchMore(masked: string, ms: seq<Envelope>, j: nat, k: nat, reader: Reader, block: nat)
    requires Ordered(ms, |masked|) && k == j + 1 <= |ms|
    requires exists before :: ReadInOrder(Candidates(masked, ms, j, reader, block), masked, ms, j, reader, block, before)
    ensures exists kept :: ReadInOrder(Candidates(masked, ms, k, reader, block), masked, ms, k, reader, block, kept)
  {
    var (less, more) := (Candidates(masked, ms, j, reader, block), CandidateOf(masked, ms[j], reader, block));
    var before :| ReadInOrder(less, masked, ms, j, reader, block, before);
    assert Candidates(masked, ms, k, reader, block) == less + more;
    var kept := NextRead(less, more, masked, ms, k, reader, block, before);
    assert ReadInOrder(Candidates(masked, ms, k, reader, block), masked, ms, k, reader, block, kept);
  }

  /** The i-th block of text is the gap `gaps[i]`, stripped, in order, and every other of the
      first `k` gaps is blank. */
  ghost predicate GapsInOrder(left: seq<Block>, s: string, ms: seq<Envelope>, k: nat, gaps: seq<nat>)
    requires Ordered(ms, |s|) && k <= |ms| + 1
  {
    && |gaps| == |left|
    && (forall i :: 0 <= i < |gaps| ==> gaps[i] < k && LeftAs(left[i], Gap(s, ms, gaps[i])))
    && (forall i, j :: 0 <= i < j < |gaps| ==> gaps[i] < gaps[j])
    && (forall j {:trigger j in gaps} :: 0 <= j < k ==> (j !in gaps <==> AllSpace(Gap(s, ms, j))))
  }

  ghost predicate LeftAs(b: Block, gap: string) { b.Text? && b.text != "" && Stripped(b.text, gap) }

  lemma GapIsBlank(left: seq<Block>, s: string, ms: seq<Envelope>, k: nat, gaps: seq<nat>)
    requires Ordered(ms, |s|) && 0 < k <= |ms| + 1 && GapsInOrder(left, s, ms, k - 1, gaps) && AllSpace(Gap(s, ms, k - 1))
    ensures GapsInOrder(left, s, ms, k, gaps)
  {
    forall j | 0 <= j < k ensures j !in gaps <==> AllSpace(Gap(s, ms, j)) {
    }
  }

  lemma GapIsLeft(left: seq<Block>, s: string, ms: seq<Envelope>, k: nat, gaps: seq<nat>, b: Block)
    requires Ordered(ms, |s|) && 0 < k <= |ms| + 1 && GapsInOrder(left, s, ms, k - 1, gaps)
    requires !AllSpace(Gap(s, ms, k - 1)) && LeftAs(b, Gap(s, ms, k - 1))
    ensures GapsInOrder(left + [b], s, ms, k, gaps + [k - 1])
  {
    forall j | 0 <= j < k ensures j !in gaps + [k - 1] <==> AllSpace(Gap(s, ms, j)) {
      assert j in gaps + [k - 1] <==> j in gaps || j == k - 1;
    }
  }

  lemma NextGap(left: seq<Block>, more: seq<Block>, s: string, ms: seq<Envelope>, k: nat, before: seq<nat>)
    returns (gaps: seq<nat>)
    requires Ordered(ms, |s|) && 0 < k <= |ms| + 1 && GapsInOrder(left, s, ms, k - 1, before)
    requires more == Kept(Gap(s, ms, k - 1))
    ensures GapsInOrder(left + more, s, ms, k, gaps)
  {
    KeptIsStripped(Gap(s, ms, k - 1));
    if more == [] {
      GapIsBlank(left, s, ms, k, before);
      assert left + more == left;
      gaps := before;
    } else {
      GapIsLeft(left, s, ms, k, before, more[0]);
      assert more == [more[0]];
      gaps := before + [k - 1];
    }
  }

  /** What remains of a block are its gaps, stripped, in order, without those that are blank. */
  lemma {:induction false} RemainingIsTheGaps(s: string, ms: seq<Envelope>, k: nat)
    requires Ordered(ms, |s|) && k <= |ms| + 1
    ensures exists gaps :: GapsInOrder(Remaining(s, ms, k), s, ms, k, gaps)
  {
    if k == 0 {
      NoGapYet(s, ms);
    } else {
      RemainingIsTheGaps(s, ms, k - 1);
      OneGapMore(s, ms, k - 1, k);
    }
  }

  lemma NoGapYet(s: string, ms: seq<Envelope>)
    requires Ordered(ms, |s|)
    ensures exists gaps :: GapsInOrder(Remaining(s, ms, 0), s, ms, 0, gaps)
  {
    assert GapsInOrder(Remaining(s, ms, 0), s, ms, 0, []);
  }

  lemma OneGapMore(s: string, ms: seq<Envelope>, j: nat, k: nat)
    requires Ordered(ms, |s|) && k == j + 1 <= |ms| + 1
    requires exists before :: GapsInOrder(Remaining(s, ms, j), s, ms, j, before)
    ensures exists gaps :: GapsInOrder(Remaining(s, ms, k), s, ms, k, gaps)
  {
    var (less, more) := (Remaining(s, ms, j), Kept(Gap(s, ms, j)));
    var before :| GapsInOrder(less, s, ms, j, before);
    assert Remaining(s, ms, k) == less + more;
    var gaps := NextGap(less, more, s, ms, k, before);
    assert GapsInOrder(Remaining(s, ms, k), s, ms, k, gaps);
  }

  lemma WhichGaps(s: string, ms: seq<Envelope>, k: nat) returns (gaps: seq<nat>)
    requires Ordered(ms, |s|) && k <= |ms| + 1
    ensures GapsInOrder(Remaining(s, ms, k), s, ms, k, gaps)
  {
    RemainingIsTheGaps(s, ms, k);
    gaps :| GapsInOrder(Remaining(s, ms, k), s, ms, k, gaps);
  }

  lemma WhichMatches(masked: string, ms: seq<Envelope>, k: nat, reader: Reader, block: nat) returns (kept: seq<nat>)
    requires Ordered(ms, |masked|) && k <= |ms|
    ensures ReadInOrder(Candidates(masked, ms, k, reader, block), masked, ms, k, reader, block, kept)
  {
    CandidatesAreRead(masked, ms, k, reader, block);
    kept :| ReadInOrder(Candidates(masked, ms, k, reader, block), masked, ms, k, reader, block, kept);
  }

  lemma KeptIsStripped(gap: string)
    ensures |Kept(gap)| <= 1 && (Kept(gap) == [] <==> AllSpace(gap))
    ensures Kept(gap) != [] ==> Kept(gap)[0].Text? && Kept(gap)[0].text != "" && Stripped(Kept(gap)[0].text, gap)
  {
    StripIsStripped(gap, 0, |gap|);
    WholeSlice(gap);
  }

  /** A block of text with an envelope: its candidates are read from the blanked text in the
      order of its matches, and what remains are the gaps of the original. */
  lemma BlockIsRead(text: string, index: nat, reader: Reader, recover: Recovery)
    returns (kept: seq<nat>, gaps: seq<nat>)
    requires Bounded(recover) && text != "" && Matches(Mask(text), 0) != []
    ensures var (ms, e) := (Matches(Mask(text), 0), ExtractBlock(Text(text), index, reader, recover));
            && |Mask(text)| == |text| && Ordered(ms, |text|)
            && ReadInOrder(e.candidates, Mask(text), ms, |ms|, reader, index, kept)
            && GapsInOrder(e.remaining, text, ms, |ms| + 1, gaps)
  {
    var ms := Matches(Mask(text), 0);
    MaskIsPointwise(text);
    MatchesAreOrdered(text);
    kept := WhichMatches(Mask(text), ms, |ms|, reader, index);
    gaps := WhichGaps(text, ms, |ms| + 1);
  }

  /** And its spans are its fences and then its envelopes. */
  lemma SpansOfBlock(text: string, index: nat, reader: Reader, recover: Recovery)
    requires Bounded(recover) && text != "" && Matches(Mask(text), 0) != []
    ensures ExtractBlock(Text(text), index, reader, recover).spans
         == FenceSpans(text) + MatchSpans(Matches(Mask(text), 0), |Matches(Mask(text), 0)|)
  {
    MatchesAreOrdered(text);
  }

  /** One span for each envelope, in order. */
  lemma {:induction false} MatchSpansAre(ms: seq<Envelope>, k: nat)
    requires k <= |ms|
    ensures |MatchSpans(ms, k)| == k && forall j :: 0 <= j < k ==> MatchSpans(ms, k)[j] == Span(ms[j].start, ms[j].end)
  {
    if k > 0 {
      MatchSpansAre(ms, k - 1);
    }
  }

  /** The block of text a gap leaves, if it is not blank. */
  ghost predicate LeftOf(bs: seq<Block>, gap: string) {
    if AllSpace(gap) then bs == [] else |bs| == 1 && bs[0].Text? && Stripped(bs[0].text, gap)
  }

  /** A tag opens in the text and is closed by a `>`, its name ending there. */
  ghost predicate Opens(s: string) {
    exists i: nat, gt: nat :: i + |OPEN| <= gt < |s| && LiteralAt(s, i, OPEN) && !IsWord(s[i + |OPEN|]) && s[gt] == '>'
  }

  /** A block without an envelope that nothing is recovered from stays as it is, with a warning
      if and only if one was opened. */
  ghost predicate StaysAsItIs(e: Extraction, text: string, index: nat) {
    && e.candidates == [] && e.remaining == [Text(text)] && e.spans == FenceSpans(text)
    && e.diagnostics == if Opens(Mask(text)) then [UnclosedEnvelope(index)] else []
  }

  /** A recovered envelope gives one candidate, read from its payload, with the text around it
      and a warning that it was repaired. */
  ghost predicate IsRecovered(e: Extraction, text: string, index: nat, reader: Reader, r: Recovered, payload: string)
    requires r.start <= r.end <= |text|
  {
    var (name, arguments) := reader.payload(payload);
    && e.candidates == [Candidate(index, name, arguments, payload)]
    && e.diagnostics == [RepairedEnvelope(index, r.rule)] + (if NotOffered(name, reader) then [UnknownTool(index, name)] else [])
    && e.spans == FenceSpans(text) + [Span(r.start, r.end)]
    && exists n :: 0 <= n <= |e.remaining| && LeftOf(e.remaining[..n], Slice(text, 0, r.start))
                   && LeftOf(e.remaining[n..], Slice(text, r.end, |text|))
  }

  lemma OpensIff(s: string)
    ensures Opens(s) <==> exists i :: 0 <= i <= |s| && TagAt(s, i)
  {
    if i :| 0 <= i <= |s| && TagAt(s, i) {
      assert NextChar(s, '>', i + |OPEN|) >= i + |OPEN|;
      assert !IsWord(s[i + |OPEN|]);
    }
    if i: nat, gt: nat :| i + |OPEN| <= gt < |s| && LiteralAt(s, i, OPEN) && !IsWord(s[i + |OPEN|]) && s[gt] == '>' {
      assert TagAt(s, i);
    }
  }

  lemma KeptIsLeft(gap: string)
    ensures LeftOf(Kept(gap), gap)
  {
    KeptIsStripped(gap);
  }

  lemma AloneStays(text: string, index: nat)
    ensures StaysAsItIs(LeftAlone(Text(text), Mask(text), index), text, index)
  {
    OpensIff(Mask(text));
  }

  lemma RecoveredIs(text: string, r: Recovered, reader: Reader, index: nat)
    requires r.start <= r.end <= |text|
    requires var payload := Strip(r.payload, 0, |r.payload|);
             payload != "" || reader.payload(payload).0 != ""
    ensures IsRecovered(ExtractRecovered(text, r, reader, Mask(text), index), text, index, reader, r,
                        Strip(r.payload, 0, |r.payload|))
  {
    var (before, behind) := (Slice(text, 0, r.start), Slice(text, r.end, |text|));
    KeptIsLeft(before);
    KeptIsLeft(behind);
    var left := Kept(before) + Kept(behind);
    assert left[..|Kept(before)|] == Kept(before) && left[|Kept(before)|..] == Kept(behind);
  }

  /** A block of text in which no envelope matches. */
  lemma BlockWithoutMatch(text: string, index: nat, reader: Reader, recover: Recovery) returns (payload: string)
    requires Bounded(recover) && text != "" && Matches(Mask(text), 0) == []
    ensures var (e, r) := (ExtractBlock(Text(text), index, reader, recover), recover(Mask(text)));
            if r.None? then StaysAsItIs(e, text, index)
            else
              && Stripped(payload, r.value.payload) && |Mask(text)| == |text|
              && r.value.start <= r.value.end <= |text|
              && if payload == "" && reader.payload(payload).0 == "" then StaysAsItIs(e, text, index)
                 else IsRecovered(e, text, index, reader, r.value, payload)
  {
    MaskIsPointwise(text);
    var r := recover(Mask(text));
    payload := "";
    AloneStays(text, index);
    if r.Some? {
      payload := Strip(r.value.payload, 0, |r.value.payload|);
      StripIsStripped(r.value.payload, 0, |r.value.payload|);
      WholeSlice(r.value.payload);
      assert r.value.start <= r.value.end <= |text|;
      if payload != "" || reader.payload(payload).0 != "" {
        RecoveredIs(text, r.value, reader, index);
      }
    }
  }

  ghost predicate NotOffered(name: string, reader: Reader) { name != "" && reader.tools != {} && name !in reader.tools }

  lemma NextWarning(before: seq<Diagnostic>, cs: seq<Candidate>, found: seq<Candidate>, reader: Reader, block: nat, name: string)
    requires |found| <= 1 && (found != [] ==> found[0].block == block)
    requires UnknownTool(block, name) in before <==> NotOffered(name, reader) && Names(cs, name)
    ensures UnknownTool(block, name) in before + Warning(found, reader) <==> NotOffered(name, reader) && Names(cs + found, name)
  {
    NamesMore(cs, found, name);
  }

  /** So far the warnings are those of the candidates. */
  ghost predicate Warned(masked: string, ms: seq<Envelope>, k: nat, reader: Reader, block: nat, name: string)
    requires Ordered(ms, |masked|) && k <= |ms|
  {
    UnknownTool(block, name) in EnvelopeWarnings(masked, ms, k, reader, block)
    <==> NotOffered(name, reader) && Names(Candidates(masked, ms, k, reader, block), name)
  }

  lemma NothingWarned(masked: string, ms: seq<Envelope>, reader: Reader, block: nat, name: string)
    requires Ordered(ms, |masked|)
    ensures Warned(masked, ms, 0, reader, block, name)
  {
  }

  lemma MoreWarned(masked: string, ms: seq<Envelope>, k: nat, reader: Reader, block: nat, name: string)
    requires Ordered(ms, |masked|) && k < |ms| && Warned(masked, ms, k, reader, block, name)
    ensures Warned(masked, ms, k + 1, reader, block, name)
  {
    NextWarning(EnvelopeWarnings(masked, ms, k, reader, block), Candidates(masked, ms, k, reader, block),
                CandidateOf(masked, ms[k], reader, block), reader, block, name);
  }

  /** A warning is given of exactly the candidates that name a tool that is not on offer. */
  lemma {:induction false} UnknownAreWarned(masked: string, ms: seq<Envelope>, k: nat, reader: Reader, block: nat, name: string)
    requires Ordered(ms, |masked|) && k <= |ms|
    ensures Warned(masked, ms, k, reader, block, name)
  {
    if k == 0 {
      NothingWarned(masked, ms, reader, block, name);
    } else {
      UnknownAreWarned(masked, ms, k - 1, reader, block, name);
      MoreWarned(masked, ms, k - 1, reader, block, name);
    }
  }

  ghost predicate Names(cs: seq<Candidate>, name: string) { exists i :: 0 <= i < |cs| && cs[i].name == name }

  lemma NamesMore(cs: seq<Candidate>, more: seq<Candidate>, name: string)
    requires |more| <= 1
    ensures Names(cs + more, name) <==> Names(cs, name) || (more != [] && more[0].name == name)
  {
    if i :| 0 <= i < |cs| && cs[i].name == name {
      assert (cs + more)[i].name == name;
    }
    if more != [] && more[0].name == name {
      assert (cs + more)[|cs|].name == name;
    }
  }

  /** The loop of the strict path: candidates, remaining text and warnings, in order. */
  method ScanEnvelopes(text: string, masked: string, ms: seq<Envelope>, reader: Reader, index: nat)
    returns (candidates: seq<Candidate>, remaining: seq<Block>, diagnostics: seq<Diagnostic>)
    requires |text| == |masked| && Ordered(ms, |text|)
    ensures candidates == Candidates(masked, ms, |ms|, reader, index)
    ensures remaining == Remaining(text, ms, |ms| + 1)
    ensures diagnostics == EnvelopeWarnings(masked, ms, |ms|, reader, index)
  {
    candidates, remaining, diagnostics := [], [], [];
    var lastEnd: nat := 0;
    for i := 0 to |ms|
      invariant lastEnd == EndOf(ms, i) <= |text|
      invariant candidates == Candidates(masked, ms, i, reader, index)
      invariant remaining == Remaining(text, ms, i)
      invariant diagnostics == EnvelopeWarnings(masked, ms, i, reader, index)
    {
      OneMore(text, masked, ms, i, reader, index);
      var prefix := KeepGap(text, lastEnd, ms[i].start);
      var found, warned := ReadEnvelope(masked, ms[i], reader, index);
      remaining, candidates, diagnostics := remaining + prefix, candidates + found, diagnostics + warned;
      lastEnd := ms[i].end;
    }
    var suffix := KeepGap(text, lastEnd, |text|);
    remaining := remaining + suffix;
  }

  lemma OneMore(text: string, masked: string, ms: seq<Envelope>, i: nat, reader: Reader, index: nat)
    requires |text| == |masked| && Ordered(ms, |text|) && i < |ms|
    ensures EndOf(ms, i) <= ms[i].start < ms[i].body <= ms[i].close < ms[i].end <= |text|
    ensures Candidates(masked, ms, i + 1, reader, index)
         == Candidates(masked, ms, i, reader, index) + CandidateOf(masked, ms[i], reader, index)
    ensures EnvelopeWarnings(masked, ms, i + 1, reader, index)
         == EnvelopeWarnings(masked, ms, i, reader, index) + Warning(CandidateOf(masked, ms[i], reader, index), reader)
    ensures Remaining(text, ms, i + 1) == Remaining(text, ms, i) + Kept(Slice(text, EndOf(ms, i), ms[i].start))
  {
  }

  method ReadEnvelope(masked: string, m: Envelope, reader: Reader, index: nat)
    returns (found: seq<Candidate>, warned: seq<Diagnostic>)
    requires m.start <= m.body <= m.close <= m.end <= |masked|
    ensures found == CandidateOf(masked, m, reader, index)
    ensures warned == Warning(found, reader)
  {
    var payload := Strip(masked, m.body, m.close);
    var (name, arguments) := reader.payload(payload);
    var source := payload;
    if payload == "" && name == "" {
      source := Slice(masked, m.start, m.end);
      var (n, a) := reader.attributes(source);
      name, arguments := n, a;
    }
    found, warned := [], [];
    if name != "" && reader.tools != {} && name !in reader.tools {
      found, warned := [Candidate(index, name, arguments, source)], [UnknownTool(index, name)];
    } else if name != "" || payload != "" {
      found := [Candidate(index, name, arguments, source)];
    }
  }

  method KeepGap(text: string, from: nat, to: nat) returns (kept: seq<Block>)
    requires from <= to <= |text|
    ensures kept == Kept(Slice(text, from, to))
  {
    kept := [];
    if to > from {
      var gap := Slice(text, from, to);
      var stripped := Strip(gap, 0, |gap|);
      if stripped != "" {
        kept := [Text(stripped)];
      }
    } else {
      assert Slice(text, from, to) == "";
    }
  }

  /** `ToolCallEnvelopeExtractor.extract`. */
  method Extract(content: seq<Block>, reader: Reader, recover: Recovery) returns (result: Extraction)
    requires Bounded(recover)
    ensures result == ExtractFirst(content, |content|, reader, recover)
  {
    result := Extraction([], [], [], []);
    for i := 0 to |content|
      invariant result == ExtractFirst(content, i, reader, recover)
    {
      var found := ExtractOne(content[i], i, reader, recover);
      result := Both(result, found);
    }
  }

  method ExtractOne(block: Block, index: nat, reader: Reader, recover: Recovery) returns (found: Extraction)
    requires Bounded(recover)
    ensures found == ExtractBlock(block, index, reader, recover)
  {
    if block.Media? || block.text == "" {
      return Extraction([], [block], [], []);
    }
    var masked := Mask(block.text);
    MatchesAreOrdered(block.text);
    MaskIsPointwise(block.text);
    var ms := Matches(masked, 0);
    if ms == [] {
      var recovered := recover(masked);
      if recovered.Some? {
        return ExtractRecovered(block.text, recovered.value, reader, masked, index);
      }
      return LeftAlone(block, masked, index);
    }
    var candidates, remaining, diagnostics := ScanEnvelopes(block.text, masked, ms, reader, index);
    var spans := SpansOf(ms);
    found := Extraction(candidates, remaining, diagnostics, FenceSpans(block.text) + spans);
  }

  method SpansOf(ms: seq<Envelope>) returns (spans: seq<Span>)
    ensures spans == MatchSpans(ms, |ms|)
  {
    spans := [];
    for i := 0 to |ms|
      invariant spans == MatchSpans(ms, i)
    {
      spans := spans + [Span(ms[i].start, ms[i].end)];
    }
  }
}
