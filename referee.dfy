/**
 * The Referee (server/pktcgai/chains/referee.py): it streams the model's ruling on the
 * proposed action, hides fenced JSON from the visible text while the chunks arrive,
 * and turns the finished response into a verdict: legality, an explanation and the
 * updated game state.
 */
module Referee {
  import opened Wrappers
  import opened Text
  import opened Json

  // ---------------------------------------------------------------------------
  // The chunk scanner of `invoke`

  /** The variables the chunk loop of `invoke` updates. */
  datatype ScanState = ScanState(
    full: string,         // every chunk, in order
    visible: string,      // the text shown outside fenced JSON
    jsonContent: string,  // the fenced text that was held back
    accumulated: string,  // the fenced text of the block still open
    inBlock: bool)

  const Initial := ScanState("", "", "", "", false)

  /** One pass of the loop body for one chunk. */
  function Step(st: ScanState, chunk: string): (r: ScanState)
    ensures r.full == st.full + chunk
  {
    var full := st.full + chunk;
    if Contains(chunk, "json") then
      // The block opens: everything before the marker is dropped, even from the visible text.
      st.(full := full, accumulated := "json" + SplitOnce(chunk, "json").value.1, inBlock := true)
    else if st.inBlock then
      var acc := st.accumulated + chunk;
      if Contains(chunk, "```") then
        ContainsAppend(st.accumulated, chunk, "```");
        var parts := SplitOnce(acc, "```").value;
        st.(full := full, jsonContent := st.jsonContent + parts.0, visible := st.visible + parts.1,
            accumulated := "", inBlock := false)
      else
        st.(full := full, accumulated := acc)
    else
      st.(full := full, visible := st.visible + chunk)
  }

  /** The state after the loop has consumed `chunks`. */
  function Scanned(chunks: seq<string>): ScanState
  {
    if chunks == [] then Initial else Step(Scanned(chunks[..|chunks| - 1]), chunks[|chunks| - 1])
  }

  /** After the loop: a block that never closed hands its text over to the held-back JSON. */
  function Flush(st: ScanState): ScanState
  {
    if st.inBlock then st.(jsonContent := st.jsonContent + st.accumulated) else st
  }

  /** The scanner's invariant: an open block's text starts at its `json` marker, a closed one leaves nothing pending, and no text is invented (each character is held no more often than it was received). */
  predicate ScanInvariant(st: ScanState)
  {
    && (st.inBlock ==> StartsWith(st.accumulated, "json"))
    && (!st.inBlock ==> st.accumulated == "")
    && multiset(st.visible) + multiset(st.jsonContent) + multiset(st.accumulated) <= multiset(st.full)
  }

  lemma StepKeepsInvariant(st: ScanState, chunk: string)
    requires ScanInvariant(st)
    ensures ScanInvariant(Step(st, chunk))
  {
    if Contains(chunk, "json") {
      var parts := SplitOnce(chunk, "json").value;
      OpenKept(st.visible, st.jsonContent, st.accumulated, st.full, chunk, parts.0, parts.1);
    } else if st.inBlock && Contains(chunk, "```") {
      ContainsAppend(st.accumulated, chunk, "```");
      var parts := SplitOnce(st.accumulated + chunk, "```").value;
      CloseKept(st.visible, st.jsonContent, st.accumulated, st.full, chunk, parts.0, parts.1);
    } else {
      assert multiset(st.full + chunk) == multiset(st.full) + multiset(chunk);
    }
  }

  /** Opening a block keeps the text from the marker on and drops what came before it. */
  lemma OpenKept(v: string, j: string, a: string, full: string, chunk: string, p0: string, p1: string)
    requires multiset(v) + multiset(j) + multiset(a) <= multiset(full)
    requires chunk == p0 + "json" + p1
    ensures multiset(v) + multiset(j) + multiset("json" + p1) <= multiset(full + chunk)
  {
    assert multiset(chunk) == multiset(p0) + multiset("json" + p1) by {
      assert chunk == p0 + ("json" + p1);
    }
  }

  /** Closing a block moves its text to the held-back JSON and what follows the fence to the visible text. */
  lemma CloseKept(v: string, j: string, a: string, full: string, chunk: string, p0: string, p1: string)
    requires multiset(v) + multiset(j) + multiset(a) <= multiset(full)
    requires a + chunk == p0 + "```" + p1
    ensures multiset(v + p1) + multiset(j + p0) + multiset("") <= multiset(full + chunk)
  {
    var m := multiset(a + chunk);
    assert m == multiset(a) + multiset(chunk);
    assert m == multiset(p0) + multiset("```") + multiset(p1);
    forall c
      ensures (multiset(v + p1) + multiset(j + p0) + multiset(""))[c] <= multiset(full + chunk)[c]
    {
      assert (multiset(v) + multiset(j) + multiset(a))[c] <= multiset(full)[c];
      assert m[c] == multiset(p0)[c] + multiset("```")[c] + multiset(p1)[c];
    }
  }

  /** The raw response is every chunk in order, and the scanner keeps its invariant. */
  lemma {:induction false} ScannedSpec(chunks: seq<string>)
    ensures Scanned(chunks).full == Concat(chunks)
    ensures ScanInvariant(Scanned(chunks))
    decreases |chunks|
  {
    if chunks != [] {
      ScannedSpec(chunks[..|chunks| - 1]);
      StepKeepsInvariant(Scanned(chunks[..|chunks| - 1]), chunks[|chunks| - 1]);
    }
  }

  /** Without a `json` marker in any chunk, everything is visible and nothing is held back. */
  lemma {:induction false} ScannedWithoutMarker(chunks: seq<string>)
    requires forall i :: 0 <= i < |chunks| ==> !Contains(chunks[i], "json")
    ensures Scanned(chunks) == ScanState(Concat(chunks), Concat(chunks), "", "", false)
    decreases |chunks|
  {
    if chunks != [] {
      ScannedWithoutMarker(chunks[..|chunks| - 1]);
    }
  }

  /** The loop of `invoke`, chunk by chunk, followed by the flush of an unclosed block. */
  method Scan(chunks: seq<string>) returns (st: ScanState)
    ensures st == Flush(Scanned(chunks))
    ensures st.full == Concat(chunks)
  {
    st := Initial;
    var i := 0;
    while i < |chunks|
      invariant 0 <= i <= |chunks|
      invariant st == Scanned(chunks[..i])
    {
      assert chunks[..i + 1][..i] == chunks[..i];
      st := Step(st, chunks[i]);
      i := i + 1;
    }
    assert chunks[..i] == chunks;
    ScannedSpec(chunks);
    if st.inBlock {
      st := st.(jsonContent := st.jsonContent + st.accumulated);
    }
  }

  // ---------------------------------------------------------------------------
  // `process_response`

  const Opener := "```json\n"
  const Closer := "\n```"

  /** `re.search(r"```json\n(.*?)\n```", s, re.DOTALL).group(1)`, when there is a match. */
  function JsonBlock(s: string): Option<string>
  {
    match IndexOf(s, Opener)
    case None => None
    case Some(i) =>
      match IndexFrom(s, Closer, i + |Opener|)
      case None => None
      case Some(j) => Some(s[i + |Opener|..j])
  }

  /** `b` is the body of the leftmost fenced block of `s`, closed at its first closing fence. */
  ghost predicate LeftmostShortestBlock(s: string, b: string)
  {
    exists i: nat, j: nat ::
      && OccursAt(s, Opener, i) && (forall k :: 0 <= k < i ==> !OccursAt(s, Opener, k))
      && i + |Opener| <= j && OccursAt(s, Closer, j)
      && (forall k :: i + |Opener| <= k < j ==> !OccursAt(s, Closer, k))
      && b == s[i + |Opener|..j]
  }

  /** The block is found exactly when some opening fence is followed by a closing one, and it is the leftmost, shortest such match. */
  lemma JsonBlockSpec(s: string)
    ensures JsonBlock(s).None? <==>
      !exists i: nat, j: nat :: OccursAt(s, Opener, i) && i + |Opener| <= j && OccursAt(s, Closer, j)
    ensures JsonBlock(s).Some? ==> LeftmostShortestBlock(s, JsonBlock(s).value)
    ensures JsonBlock(s).Some? ==> !Contains(JsonBlock(s).value, Closer)
  {
    IndexFromSpec(s, Opener, 0);
    match IndexOf(s, Opener)
    case None =>
    case Some(i) =>
      IndexFromSpec(s, Closer, i + |Opener|);
      match IndexFrom(s, Closer, i + |Opener|)
      case None =>
        forall i': nat, j: nat | OccursAt(s, Opener, i') && i' + |Opener| <= j
          ensures !OccursAt(s, Closer, j)
        {
          assert i <= i';
        }
      case Some(j) =>
        var b := s[i + |Opener|..j];
        assert LeftmostShortestBlock(s, b);
        if Contains(b, Closer) {
          var k := IndexOf(b, Closer).value;
          OccursInSlice(s, Closer, i + |Opener|, j, k);
        }
  }

  /** The model's ruling names an illegal action (in the raw or the visible text). */
  predicate IsIllegal(result: string, visible: string)
  {
    Contains(result, "ILLEGAL ACTION") || (visible != "" && Contains(visible, "ILLEGAL ACTION"))
  }

  /** Python's `\s` in a `str` pattern: the characters `str.isspace` accepts. */
  predicate IsSpace(c: char)
  {
    || c == ' ' || c == '\t' || c == '\n' || c == '\r' || c == '\U{000B}' || c == '\U{000C}'
    || ('\U{001C}' <= c <= '\U{001F}') || c == '\U{0085}' || c == '\U{00A0}' || c == '\U{1680}'
    || ('\U{2000}' <= c <= '\U{200A}') || c == '\U{2028}' || c == '\U{2029}' || c == '\U{202F}'
    || c == '\U{205F}' || c == '\U{3000}'
  }

  /** The end of the run of whitespace that starts at `k` (the greedy `\s*`). */
  function SkipSpace(s: string, k: nat): (r: nat)
    requires k <= |s|
    ensures k <= r <= |s|
    ensures forall m :: k <= m < r ==> IsSpace(s[m])
    ensures r == |s| || !IsSpace(s[r])
    decreases |s| - k
  {
    if k < |s| && IsSpace(s[k]) then SkipSpace(s, k + 1) else k
  }

  /** The lookahead `(?=\n\n|$)`: a blank line, the end, or a final newline follows. */
  predicate EndsHere(s: string, q: nat)
  {
    OccursAt(s, "\n\n", q) || q == |s| || (q + 1 == |s| && s[q] == '\n')
  }

  /** The first position at or after `p` where the lazy body `(.*?)` may stop. */
  function BodyEnd(s: string, p: nat): (r: nat)
    requires p <= |s|
    ensures p <= r <= |s| && EndsHere(s, r)
    ensures forall q :: p <= q < r ==> !EndsHere(s, q)
    decreases |s| - p
  {
    if EndsHere(s, p) then p else BodyEnd(s, p + 1)
  }

  /** `re.search(r'Explanation:\s*(.*?)(?=\n\n|$)', text, re.DOTALL).group(1)`, for a text holding the label. */
  function ExplanationMatch(text: string): string
    requires Contains(text, "Explanation:")
  {
    var i := IndexOf(text, "Explanation:").value;
    var p := SkipSpace(text, i + |"Explanation:"|);
    text[p..BodyEnd(text, p)]
  }

  /** The explanation: the labelled paragraph of the visible text (or, when nothing was visible, of the raw text); the whole text without a label. */
  function Explanation(result: string, visible: string): string
  {
    var text := if visible != "" then visible else result;
    if Contains(text, "Explanation:") then ExplanationMatch(text) else text
  }

  /** A labelled explanation is one paragraph: it holds no blank line and starts after the label's whitespace. */
  lemma ExplanationMatchSpec(text: string)
    requires Contains(text, "Explanation:")
    ensures !Contains(ExplanationMatch(text), "\n\n")
    ensures ExplanationMatch(text) == "" || !IsSpace(ExplanationMatch(text)[0])
    ensures exists k :: OccursAt(text, ExplanationMatch(text), k)
  {
    var i := IndexOf(text, "Explanation:").value;
    var p := SkipSpace(text, i + |"Explanation:"|);
    var q := BodyEnd(text, p);
    var e := text[p..q];
    assert OccursAt(text, e, p);
    if Contains(e, "\n\n") {
      var k := IndexOf(e, "\n\n").value;
      OccursInSlice(text, "\n\n", p, q, k);
      assert EndsHere(text, p + k);
    }
  }

  /** The updated state, the only other field `process_response` computes. */
  datatype Doc =
    | Parsed(json: Json)   // a parsed JSON value
    | Raw(text: string)    // the game state exactly as the referee received it, as text

  /**
   * `updated_state or game_state`: the parsed block; when the block does not parse, the
   * received game state parsed again; when neither is truthy, the received text. `Err`
   * is the error raised when the received game state does not parse either.
   */
  function UpdatedState(result: string, gameState: string, codec: Codec): Result<Doc>
  {
    match JsonBlock(result)
    case None => Ok(Raw(gameState))
    case Some(body) =>
      match codec.loads(body)
      case Ok(j) => Ok(if Truthy(j) then Parsed(j) else Raw(gameState))
      case Err(_) =>
        match codec.loads(gameState)
        case Ok(g) => Ok(if Truthy(g) then Parsed(g) else Raw(gameState))
        case Err(e) => Err(e)
  }

  /**
   * `updated_state or game_state`, case by case: without a fenced block, or with a block
   * that parses to a falsy value, the received state is kept; a truthy block is the new
   * state; a block that does not parse falls back to the received state, parsed.
   */
  lemma UpdatedStateSpec(result: string, gameState: string, codec: Codec)
    ensures JsonBlock(result).None? ==> UpdatedState(result, gameState, codec) == Ok(Raw(gameState))
    ensures JsonBlock(result).Some? && codec.loads(JsonBlock(result).value).Ok? ==>
      var j := codec.loads(JsonBlock(result).value).value;
      UpdatedState(result, gameState, codec) == Ok(if Truthy(j) then Parsed(j) else Raw(gameState))
    ensures JsonBlock(result).Some? && codec.loads(JsonBlock(result).value).Err? ==>
      match codec.loads(gameState)
      case Ok(g) => UpdatedState(result, gameState, codec) == Ok(if Truthy(g) then Parsed(g) else Raw(gameState))
      case Err(e) => UpdatedState(result, gameState, codec) == Err(e)
    ensures UpdatedState(result, gameState, codec).Ok? ==>
      UpdatedState(result, gameState, codec).value == Raw(gameState) ||
      (UpdatedState(result, gameState, codec).value.Parsed? && Truthy(UpdatedState(result, gameState, codec).value.json))
  {
  }

  /** What `invoke` returns. */
  datatype Verdict = Verdict(isLegal: bool, explanation: string, updatedState: Doc, rawResponse: string)

  /** `process_response`. */
  function ProcessResponse(result: string, gameState: string, visible: string, codec: Codec): (v: Verdict)
    ensures v.rawResponse == result
    ensures v.isLegal ==> !Contains(result, "ILLEGAL ACTION")
    ensures UpdatedState(result, gameState, codec).Err? ==>
      !v.isLegal && StartsWith(v.explanation, "Error processing response: ") && v.updatedState == Raw(gameState)
    ensures UpdatedState(result, gameState, codec).Ok? ==>
      (v.isLegal <==> !IsIllegal(result, visible)) && v.explanation == Explanation(result, visible)
    ensures UpdatedState(result, gameState, codec).Ok? ==> v.updatedState == UpdatedState(result, gameState, codec).value
  {
    match UpdatedState(result, gameState, codec)
    case Err(e) => Verdict(false, "Error processing response: " + e, Raw(gameState), result)
    case Ok(u) => Verdict(!IsIllegal(result, visible), Explanation(result, visible), u, result)
  }

  /**
   * What asking the model delivers: a stream of chunks, possibly ending in an error raised
   * by `chain.stream` or while iterating (an error before the first chunk is a stream with
   * no chunks), or `Unavailable`: building the chain (`make_chain`) raised, outside the
   * `try` of `invoke`.
   */
  datatype Reply = Stream(chunks: seq<string>, failure: Option<string>) | Unavailable(error: string)

  /** The chunks a reply delivers before it ends or fails. */
  function Chunks(reply: Reply): seq<string>
  {
    if reply.Stream? then reply.chunks else []
  }

  /** The error a reply raises, if any. */
  function Failure(reply: Reply): Option<string>
  {
    if reply.Stream? then reply.failure else Some(reply.error)
  }

  /** The fallback verdict of `invoke` when the stream raises. */
  function StreamFailure(gameState: string, error: string): Verdict
  {
    Verdict(false, "Error processing referee response: " + error, Raw(gameState), "Error")
  }

  /**
   * `invoke`: scan the streamed ruling, then process it; a stream that raises gives the
   * fallback verdict. `Err` is the error raised while building the chain, before the
   * `try`, which `invoke` does not catch.
   */
  method Invoke(gameState: string, reply: Reply, codec: Codec) returns (r: Result<Verdict>)
    ensures reply.Unavailable? ==> r == Err(reply.error)
    ensures reply.Stream? && reply.failure.Some? ==> r == Ok(StreamFailure(gameState, reply.failure.value))
    ensures reply.Stream? && reply.failure.None? ==>
      r == Ok(ProcessResponse(Concat(reply.chunks), gameState, Scanned(reply.chunks).visible, codec))
    ensures r.Ok? && r.value.isLegal ==> Failure(reply).None? && !Contains(Concat(Chunks(reply)), "ILLEGAL ACTION")
  {
    if reply.Unavailable? {
      return Err(reply.error);
    }
    var st := Scan(reply.chunks);
    if reply.failure.Some? {
      r := Ok(StreamFailure(gameState, reply.failure.value));
    } else {
      r := Ok(ProcessResponse(st.full, gameState, st.visible, codec));
    }
  }
}
