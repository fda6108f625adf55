/**
 * One turn of the agent workflow (server/pktcgai/graph/pokemon_tcg_graph.py): the
 * Player and the Mentor talk until the Player states a final decision, the Referee
 * rules on it, and an illegal decision sends the Player back with the Referee's reason.
 *
 * The conversation state the graph threads through its nodes is the class `Turn`;
 * each node is a method that updates it. The language models are one oracle `llm`
 * that receives the running call number and the prompt's variables.
 */
module TurnGraph {
  import opened Wrappers
  import opened Text
  import opened Json
  import opened CardExpansion
  import Referee

  const FinalMarker := "FINAL DECISION:"
  /** The message Python's `RecursionError` carries. */
  const RecursionDepthError := "maximum recursion depth exceeded"

  datatype Role = PlayerRole | MentorRole
  /** An entry of `mentor_player_conversation`. */
  datatype Message = Message(role: Role, content: string)

  /** The variables each chain's prompt template receives. */
  datatype Prompt =
    | PlayerPrompt(gameState: string, conversation: string)
    | MentorPrompt(gameState: string, conversation: string, question: string)
    | RefereePrompt(gameState: string, action: string)

  /** The graph's nodes, and its end. */
  datatype Node = PlayerNode | MentorNode | RefereeNode | End

  // ---------------------------------------------------------------------------
  // Pure parts of the nodes

  /** One transcript line: `Player: …` for the player, `Mentor: …` for anyone else. */
  function Line(m: Message): string
  {
    (if m.role == PlayerRole then "Player: " else "Mentor: ") + m.content + "\n"
  }

  /** The transcript text the Player and the Mentor receive. */
  function Render(conversation: seq<Message>): string
  {
    if conversation == [] then "" else Line(conversation[0]) + Render(conversation[1..])
  }

  /** Rendering one more message appends its line: the transcript is built left to right. */
  lemma {:induction false} RenderAppend(conversation: seq<Message>, m: Message)
    ensures Render(conversation + [m]) == Render(conversation) + Line(m)
    decreases |conversation|
  {
    if conversation == [] {
      assert [m][1..] == [];
    } else {
      assert (conversation + [m])[1..] == conversation[1..] + [m];
      RenderAppend(conversation[1..], m);
    }
  }

  /** The transcript holds every message's content, in order. */
  lemma {:induction false} RenderHoldsMessages(conversation: seq<Message>, i: nat)
    requires i < |conversation|
    ensures Contains(Render(conversation), Line(conversation[i]))
    decreases i
  {
    if i == 0 {
      assert OccursAt(Render(conversation), Line(conversation[0]), 0);
      ContainsIff(Render(conversation), Line(conversation[0]));
    } else {
      RenderHoldsMessages(conversation[1..], i - 1);
      ContainsAppend(Line(conversation[0]), Render(conversation[1..]), Line(conversation[i]));
    }
  }

  /** The reminder the Player gets after an illegal decision. */
  function IllegalContext(action: string, explanation: string): string
  {
    "\n\nYour previous action: '" + action + "' was ILLEGAL: " + explanation + "\nPlease reconsider your action."
  }

  /** The reminder is due after a ruling of illegality that came with a reason. */
  predicate Reminded(legal: bool, explanation: string)
  {
    !legal && explanation != ""
  }

  /** The reminder follows the transcript and names both the action and the reason. */
  lemma ReminderNames(transcript: string, action: string, explanation: string)
    ensures var r := transcript + IllegalContext(action, explanation);
      StartsWith(r, transcript) && |r| > |transcript| && Contains(r, explanation) && Contains(r, action)
  {
    var r := transcript + IllegalContext(action, explanation);
    var a, b, c := transcript + "\n\nYour previous action: '", "' was ILLEGAL: ", "\nPlease reconsider your action.";
    assert r == a + action + (b + explanation + c);
    assert r == (a + action + b) + explanation + c;
    assert r[..|transcript|] == transcript;
    ContainsInside(a, action, b + explanation + c);
    ContainsInside(a + action + b, explanation, c);
  }

  /** The Player's transcript variable: the transcript, then the reminder when due. */
  function PlayerConversation(conversation: seq<Message>, legal: bool, explanation: string, action: string): (r: string)
    ensures StartsWith(r, Render(conversation))
    ensures Reminded(legal, explanation) <==> |r| > |Render(conversation)|
    ensures Reminded(legal, explanation) ==> Contains(r, explanation) && Contains(r, action)
  {
    if Reminded(legal, explanation) then
      ReminderNames(Render(conversation), action, explanation);
      Render(conversation) + IllegalContext(action, explanation)
    else
      assert Render(conversation)[..|Render(conversation)|] == Render(conversation);
      Render(conversation)
  }

  /** The Mentor's question: the latest message from the player, or `""` when there is none. */
  function LatestPlayerMessage(conversation: seq<Message>): string
  {
    if conversation == [] then ""
    else if conversation[|conversation| - 1].role == PlayerRole then conversation[|conversation| - 1].content
    else LatestPlayerMessage(conversation[..|conversation| - 1])
  }

  lemma {:induction false} LatestPlayerMessageSpec(conversation: seq<Message>)
    ensures (forall i :: 0 <= i < |conversation| ==> conversation[i].role != PlayerRole)
            ==> LatestPlayerMessage(conversation) == ""
    ensures (exists i :: 0 <= i < |conversation| && conversation[i].role == PlayerRole) ==>
      exists i :: 0 <= i < |conversation| && conversation[i].role == PlayerRole
        && conversation[i].content == LatestPlayerMessage(conversation)
        && forall j :: i < j < |conversation| ==> conversation[j].role != PlayerRole
    decreases |conversation|
  {
    if conversation != [] && conversation[|conversation| - 1].role != PlayerRole {
      var init := conversation[..|conversation| - 1];
      LatestPlayerMessageSpec(init);
      assert forall i :: 0 <= i < |init| ==> init[i] == conversation[i];
    }
  }

  /** Routing after the Player: a final decision goes to the Referee, anything else to the Mentor. */
  function AfterPlayer(finalDecision: bool): (n: Node)
    ensures n == RefereeNode <==> finalDecision
    ensures n == MentorNode <==> !finalDecision
  {
    if finalDecision then RefereeNode else MentorNode
  }

  /** Routing after the Referee: a legal decision ends the turn, an illegal one goes back to the Player. */
  function AfterReferee(legal: bool): (n: Node)
    ensures n == End <==> legal
    ensures n == PlayerNode <==> !legal
  {
    if legal then End else PlayerNode
  }

  /** Every Mentor entry answers a Player entry that held no final decision. */
  predicate Alternates(conversation: seq<Message>)
  {
    forall i :: 0 <= i < |conversation| && conversation[i].role == MentorRole ==>
      i > 0 && conversation[i - 1].role == PlayerRole && !Contains(conversation[i - 1].content, FinalMarker)
  }

  /** The transcript ends with a Player entry that asks for the Mentor's help. */
  predicate OpenQuestion(conversation: seq<Message>)
  {
    |conversation| > 0 && conversation[|conversation| - 1].role == PlayerRole
    && !Contains(conversation[|conversation| - 1].content, FinalMarker)
  }

  /** The Mentor is always asked about the message it answers, and its answer keeps the turns alternating. */
  lemma OpenQuestionIsAsked(conversation: seq<Message>, answer: string)
    requires OpenQuestion(conversation)
    ensures LatestPlayerMessage(conversation) == conversation[|conversation| - 1].content
    ensures Alternates(conversation) ==> Alternates(conversation + [Message(MentorRole, answer)])
  {
    var n := |conversation|;
    var longer := conversation + [Message(MentorRole, answer)];
    if Alternates(conversation) {
      forall i | 0 <= i < |longer| && longer[i].role == MentorRole
        ensures i > 0 && longer[i - 1].role == PlayerRole && !Contains(longer[i - 1].content, FinalMarker)
      {
        if i < n {
          assert longer[i] == conversation[i];
        }
        assert longer[i - 1] == conversation[i - 1];
      }
    }
  }

  // ---------------------------------------------------------------------------
  // The conversation state and its nodes

  class Turn {
    const gameState: Dict
    const catalog: Catalog
    const llm: (nat, Prompt) -> Referee.Reply
    const codec: Codec
    /** Python frames available to the card-expansion rewrite. */
    const frames: nat
    const currentNode: string
    var playerAction: string
    var conversation: seq<Message>
    var finalDecision: bool
    var decisionIsLegal: bool
    var decisionExplanation: string
    var updatedGameState: Referee.Doc
    /** The prompts sent so far, in order. */
    var calls: seq<Prompt>

    /** `initialize_game_state`. */
    constructor (gameData: Dict, cardMapping: Catalog, llm: (nat, Prompt) -> Referee.Reply, codec: Codec, frames: nat)
      ensures gameState == gameData && catalog == cardMapping && this.llm == llm && this.codec == codec
      ensures this.frames == frames && currentNode == "player"
      ensures playerAction == "" && conversation == [] && !finalDecision
      ensures !decisionIsLegal && decisionExplanation == "" && updatedGameState == Referee.Parsed(JObj([]))
      ensures calls == []
    {
      gameState := gameData;
      catalog := cardMapping;
      this.llm := llm;
      this.codec := codec;
      this.frames := frames;
      currentNode := "player";
      playerAction := "";
      conversation := [];
      finalDecision := false;
      decisionIsLegal := false;
      decisionExplanation := "";
      updatedGameState := Referee.Parsed(JObj([]));
      calls := [];
    }

    /** The text of the game state as the Player and the Mentor see it, or the error its rewrite raises. */
    function View(): Result<string>
      reads this
    {
      match Transform(gameState, catalog, frames)
      case Some(j) => Ok(codec.dumps(j))
      case None => Err(RecursionDepthError)
    }

    /** `player_node`; `Some(e)` is the error it raises. */
    method PlayerStep() returns (raised: Option<string>)
      modifies this
      ensures calls == old(calls) + (if View().Ok? then [PlayerPrompt(View().value,
                 PlayerConversation(old(conversation), decisionIsLegal, decisionExplanation, old(playerAction)))] else [])
      ensures View().Err? ==> raised == Some(View().message)
      ensures View().Ok? ==>
        var reply := llm(|old(calls)|, calls[|calls| - 1]);
        var full := Concat(Referee.Chunks(reply));
        && (Referee.Failure(reply).Some? ==> raised == Referee.Failure(reply))
        && (Referee.Failure(reply).None? ==>
              && raised.None?
              && conversation == old(conversation) + [Message(PlayerRole, full)]
              && finalDecision == Contains(full, FinalMarker)
              && playerAction == (if finalDecision then full else old(playerAction)))
      ensures raised.Some? ==>
                && conversation == old(conversation) && playerAction == old(playerAction)
                && finalDecision == (old(finalDecision) && !Reminded(decisionIsLegal, decisionExplanation))
      ensures decisionIsLegal == old(decisionIsLegal) && decisionExplanation == old(decisionExplanation)
      ensures updatedGameState == old(updatedGameState)
      ensures raised.None? && Alternates(old(conversation)) ==> Alternates(conversation)
      ensures raised.None? ==> if finalDecision then DecisionMade() else OpenQuestion(conversation)
    {
      var formatted := RenderConversation(conversation);
      var context := "";
      if !decisionIsLegal && decisionExplanation != "" {
        context := IllegalContext(playerAction, decisionExplanation);
        finalDecision := false;
      }
      var view := View();
      if view.Err? {
        return Some(view.message);
      }
      var prompt := PlayerPrompt(view.value, formatted + context);
      var reply := llm(|calls|, prompt);
      calls := calls + [prompt];
      var full := Collect(Referee.Chunks(reply));
      assert prompt == PlayerPrompt(View().value,
                 PlayerConversation(old(conversation), decisionIsLegal, decisionExplanation, old(playerAction)));
      if Referee.Failure(reply).Some? {
        return Referee.Failure(reply);
      }
      RecordPlayerMessage(full);
      raised := None;
    }

    /** The end of `player_node`: record the response, and take it as the action when it is a final decision. */
    method RecordPlayerMessage(full: string)
      modifies this
      ensures conversation == old(conversation) + [Message(PlayerRole, full)]
      ensures finalDecision == Contains(full, FinalMarker)
      ensures playerAction == (if finalDecision then full else old(playerAction))
      ensures calls == old(calls)
      ensures decisionIsLegal == old(decisionIsLegal) && decisionExplanation == old(decisionExplanation)
      ensures updatedGameState == old(updatedGameState)
      ensures Alternates(old(conversation)) ==> Alternates(conversation)
      ensures if finalDecision then DecisionMade() else OpenQuestion(conversation)
    {
      if Contains(full, FinalMarker) {
        playerAction := full;
        finalDecision := true;
      } else {
        finalDecision := false;
      }
      conversation := conversation + [Message(PlayerRole, full)];
    }

    /** `mentor_node`; `Some(e)` is the error it raises. */
    method MentorStep() returns (raised: Option<string>)
      modifies this
      ensures calls == old(calls) + (if View().Ok? then [MentorPrompt(View().value, Render(old(conversation)),
                 LatestPlayerMessage(old(conversation)))] else [])
      ensures View().Err? ==> raised == Some(View().message)
      ensures View().Ok? ==>
        var reply := llm(|old(calls)|, calls[|calls| - 1]);
        && (Referee.Failure(reply).Some? ==> raised == Referee.Failure(reply))
        && (Referee.Failure(reply).None? ==>
              && raised.None?
              && conversation == old(conversation) + [Message(MentorRole, Concat(Referee.Chunks(reply)))])
      ensures raised.Some? ==> conversation == old(conversation)
      ensures playerAction == old(playerAction) && finalDecision == old(finalDecision)
      ensures decisionIsLegal == old(decisionIsLegal) && decisionExplanation == old(decisionExplanation)
      ensures updatedGameState == old(updatedGameState)
      ensures raised.None? && OpenQuestion(old(conversation)) && Alternates(old(conversation)) ==> Alternates(conversation)
    {
      var question := LatestPlayerMessage(conversation);
      var view := View();
      if view.Err? {
        return Some(view.message);
      }
      var formatted := RenderConversation(conversation);
      var prompt := MentorPrompt(view.value, formatted, question);
      var reply := llm(|calls|, prompt);
      calls := calls + [prompt];
      var full := Collect(Referee.Chunks(reply));
      if Referee.Failure(reply).Some? {
        return Referee.Failure(reply);
      }
      RecordMentorMessage(full);
      raised := None;
    }

    /** The end of `mentor_node`: record the Mentor's answer. */
    method RecordMentorMessage(full: string)
      modifies this
      ensures conversation == old(conversation) + [Message(MentorRole, full)]
      ensures calls == old(calls) && playerAction == old(playerAction) && finalDecision == old(finalDecision)
      ensures decisionIsLegal == old(decisionIsLegal) && decisionExplanation == old(decisionExplanation)
      ensures updatedGameState == old(updatedGameState)
      ensures OpenQuestion(old(conversation)) && Alternates(old(conversation)) ==> Alternates(conversation)
    {
      if OpenQuestion(conversation) {
        OpenQuestionIsAsked(conversation, full);
      }
      conversation := conversation + [Message(MentorRole, full)];
    }

    /**
     * `referee_node`: the Referee's verdict on the player's action becomes the decision;
     * an error the Referee raises becomes an illegal verdict that keeps the game state.
     */
    method RefereeStep()
      modifies this
      ensures
        var text := codec.dumps(JObj(gameState));
        var prompt := RefereePrompt(text, playerAction);
        var r := RefereeVerdict(text, llm(|old(calls)|, prompt), codec);
        && calls == old(calls) + [prompt]
        && (r.Ok? ==>
              && decisionIsLegal == r.value.isLegal
              && decisionExplanation == r.value.explanation
              && updatedGameState == r.value.updatedState)
        && (r.Err? ==>
              && !decisionIsLegal
              && decisionExplanation == "Error processing action: " + r.message
              && updatedGameState == Referee.Parsed(JObj(gameState)))
      ensures playerAction == old(playerAction) && conversation == old(conversation)
      ensures finalDecision == old(finalDecision)
      ensures old(DecisionMade()) ==> DecisionMade()
    {
      var text := codec.dumps(JObj(gameState));
      var prompt := RefereePrompt(text, playerAction);
      var reply := llm(|calls|, prompt);
      calls := calls + [prompt];
      var r := Referee.Invoke(text, reply, codec);
      if r.Ok? {
        decisionIsLegal := r.value.isLegal;
        decisionExplanation := r.value.explanation;
        updatedGameState := r.value.updatedState;
      } else {
        decisionIsLegal := false;
        decisionExplanation := "Error processing action: " + r.message;
        updatedGameState := Referee.Parsed(JObj(gameState));
      }
    }

    /** The Player's last entry is a final decision and is the action under review. */
    predicate DecisionMade()
      reads this
    {
      && finalDecision
      && |conversation| > 0
      && conversation[|conversation| - 1] == Message(PlayerRole, playerAction)
      && Contains(playerAction, FinalMarker)
    }
  }

  /** What `Referee.invoke` returns for a reply, or the error it raises. */
  function RefereeVerdict(gameState: string, reply: Referee.Reply, codec: Codec): (r: Result<Referee.Verdict>)
    ensures r.Err? <==> reply.Unavailable?
    ensures r.Ok? && r.value.isLegal ==>
      Referee.Failure(reply).None? && !Contains(Concat(Referee.Chunks(reply)), "ILLEGAL ACTION")
  {
    match reply
    case Unavailable(e) => Err(e)
    case Stream(chunks, failure) =>
      if failure.Some? then Ok(Referee.StreamFailure(gameState, failure.value))
      else
        Referee.ScannedSpec(chunks);
        Ok(Referee.ProcessResponse(Concat(chunks), gameState, Referee.Scanned(chunks).visible, codec))
  }

  /** The transcript loop shared by the Player and the Mentor nodes. */
  method RenderConversation(conversation: seq<Message>) returns (text: string)
    ensures text == Render(conversation)
  {
    text := "";
    var i := 0;
    while i < |conversation|
      invariant 0 <= i <= |conversation|
      invariant text == Render(conversation[..i])
    {
      RenderAppend(conversation[..i], conversation[i]);
      assert conversation[..i + 1] == conversation[..i] + [conversation[i]];
      text := text + Line(conversation[i]);
      i := i + 1;
    }
    assert conversation[..i] == conversation;
  }

  /** The chunk loop of the Player and the Mentor nodes: the full response, in order. */
  method Collect(chunks: seq<string>) returns (full: string)
    ensures full == Concat(chunks)
  {
    full := "";
    var i := 0;
    while i < |chunks|
      invariant 0 <= i <= |chunks|
      invariant full == Concat(chunks[..i])
    {
      assert chunks[..i + 1][..i] == chunks[..i];
      full := full + chunks[i];
      i := i + 1;
    }
    assert chunks[..i] == chunks;
  }

  // ---------------------------------------------------------------------------
  // `run_pokemon_tcg_turn`

  /** The dictionary `run_pokemon_tcg_turn` returns. */
  datatype TurnResult = TurnResult(
    action: string,
    isLegal: bool,
    explanation: string,
    updatedGameState: Referee.Doc,
    conversation: seq<Message>,
    hitIterationLimit: bool)

  /** What the `i`-th prompt adds to the transcript: the Player's or the Mentor's streamed reply; a Referee ruling adds nothing. */
  function Said(i: nat, p: Prompt, llm: (nat, Prompt) -> Referee.Reply): seq<Message>
  {
    var full := Concat(Referee.Chunks(llm(i, p)));
    match p
    case PlayerPrompt(_, _) => [Message(PlayerRole, full)]
    case MentorPrompt(_, _, _) => [Message(MentorRole, full)]
    case RefereePrompt(_, _) => []
  }

  /** The transcript the replies to `calls`, in order, produce. */
  function Transcript(calls: seq<Prompt>, llm: (nat, Prompt) -> Referee.Reply): seq<Message>
  {
    if calls == [] then []
    else Transcript(calls[..|calls| - 1], llm) + Said(|calls| - 1, calls[|calls| - 1], llm)
  }

  /** One more prompt extends the transcript by what its reply says. */
  lemma TranscriptGrows(before: seq<Prompt>, after: seq<Prompt>, llm: (nat, Prompt) -> Referee.Reply,
                        conv0: seq<Message>, conv1: seq<Message>)
    requires |after| == |before| + 1 && after[..|before|] == before
    requires conv0 == Transcript(before, llm)
    requires conv1 == conv0 + Said(|before|, after[|before|], llm)
    ensures conv1 == Transcript(after, llm)
  {
  }

  /**
   * What holds each time the turn loop reaches `node`: the turns alternate, the Mentor is
   * reached with an open question and the Referee with a decision, and the transcript is
   * what the replies to the prompts sent so far, starting with the Player's, say.
   */
  ghost predicate Running(t: Turn, node: Node)
    reads t
  {
    && node != End
    && Alternates(t.conversation)
    && (node == MentorNode ==> OpenQuestion(t.conversation))
    && (node == RefereeNode ==> t.DecisionMade())
    && t.conversation == Transcript(t.calls, t.llm)
    && (node != PlayerNode ==> |t.calls| > 0)
    && (|t.calls| > 0 ==> t.calls[0].PlayerPrompt?)
  }

  /** The Player node inside the turn loop: on success its reply extends the transcript, and the route follows its decision. */
  method RunPlayer(t: Turn) returns (raised: Option<string>)
    modifies t
    requires Running(t, PlayerNode)
    ensures raised.None? ==> Running(t, AfterPlayer(t.finalDecision))
  {
    ghost var before := t.calls;
    ghost var conv0 := t.conversation;
    raised := t.PlayerStep();
    if raised.None? {
      TranscriptGrows(before, t.calls, t.llm, conv0, t.conversation);
    }
  }

  /** The Mentor node inside the turn loop: on success its answer extends the transcript. */
  method RunMentor(t: Turn) returns (raised: Option<string>)
    modifies t
    requires Running(t, MentorNode)
    ensures raised.None? ==> Running(t, PlayerNode)
  {
    ghost var before := t.calls;
    ghost var conv0 := t.conversation;
    raised := t.MentorStep();
    if raised.None? {
      TranscriptGrows(before, t.calls, t.llm, conv0, t.conversation);
    }
  }

  /** The Referee node inside the turn loop: the decision is the verdict on the last prompt, and the transcript is kept. */
  method RunReferee(t: Turn)
    modifies t
    requires Running(t, RefereeNode)
    ensures Running(t, PlayerNode) && Alternates(t.conversation)
    ensures |t.conversation| > 0 && t.conversation[|t.conversation| - 1] == Message(PlayerRole, t.playerAction)
    ensures Contains(t.playerAction, FinalMarker)
    ensures |t.calls| > 0 && t.calls[0].PlayerPrompt? && t.conversation == Transcript(t.calls, t.llm)
    ensures
      var text := t.codec.dumps(JObj(t.gameState));
      && t.calls[|t.calls| - 1] == RefereePrompt(text, t.playerAction)
      && var v := RefereeVerdict(text, t.llm(|t.calls| - 1, RefereePrompt(text, t.playerAction)), t.codec);
         && (v.Ok? ==>
               && t.decisionIsLegal == v.value.isLegal
               && t.decisionExplanation == v.value.explanation
               && t.updatedGameState == v.value.updatedState)
         && (v.Err? ==> !t.decisionIsLegal)
  {
    ghost var before := t.calls;
    ghost var conv0 := t.conversation;
    t.RefereeStep();
    assert conv0 + [] == conv0;
    TranscriptGrows(before, t.calls, t.llm, conv0, t.conversation);
  }

  /** How a turn ends: a result, an error raised by a node, or the graph's recursion limit. */
  datatype Outcome = Finished(result: TurnResult) | Raised(error: string) | RecursionLimit

  /**
   * `run_pokemon_tcg_turn`: run the graph from the Player until the Referee accepts a
   * decision, running at most `maxIterations` nodes. `steps` is the number of nodes run.
   */
  method RunTurn(gameData: Dict, cardMapping: Catalog, llm: (nat, Prompt) -> Referee.Reply, codec: Codec,
                 frames: nat, maxIterations: nat) returns (outcome: Outcome, steps: nat, ghost prompts: seq<Prompt>)
    ensures steps <= maxIterations
    ensures outcome.RecursionLimit? ==> steps == maxIterations
    ensures outcome.Finished? ==>
      var r := outcome.result;
      && r.isLegal
      && !r.hitIterationLimit
      && Contains(r.action, FinalMarker)
      && |r.conversation| > 0
      && r.conversation[|r.conversation| - 1] == Message(PlayerRole, r.action)
      && Alternates(r.conversation)
    ensures outcome.Finished? ==>
      var r := outcome.result;
      var text := codec.dumps(JObj(gameData));
      && |prompts| > 0 && prompts[|prompts| - 1] == RefereePrompt(text, r.action)
      && var v := RefereeVerdict(text, llm(|prompts| - 1, RefereePrompt(text, r.action)), codec);
         && v.Ok?
         && r.isLegal == v.value.isLegal
         && r.explanation == v.value.explanation
         && r.updatedGameState == v.value.updatedState
    ensures outcome.Finished? ==>
      && |prompts| > 0 && prompts[0].PlayerPrompt?
      && outcome.result.conversation == Transcript(prompts, llm)
  {
    var t := new Turn(gameData, cardMapping, llm, codec, frames);
    var node := PlayerNode;
    steps := 0;
    while true
      invariant steps <= maxIterations
      invariant t.gameState == gameData && t.codec == codec && t.llm == llm
      invariant Running(t, node)
      decreases maxIterations - steps
    {
      if steps == maxIterations {
        return RecursionLimit, steps, t.calls;
      }
      steps := steps + 1;
      match node {
        case PlayerNode =>
          var raised := RunPlayer(t);
          if raised.Some? {
            return Raised(raised.value), steps, t.calls;
          }
          node := AfterPlayer(t.finalDecision);
        case MentorNode =>
          var raised := RunMentor(t);
          if raised.Some? {
            return Raised(raised.value), steps, t.calls;
          }
          node := PlayerNode;
        case RefereeNode =>
          RunReferee(t);
          if AfterReferee(t.decisionIsLegal) == End {
            var hit := Reminded(t.decisionIsLegal, t.decisionExplanation);
            return Finished(TurnResult(t.playerAction, t.decisionIsLegal, t.decisionExplanation,
                                       t.updatedGameState, t.conversation, hit)), steps, t.calls;
          }
          node := PlayerNode;
      }
    }
  }
}
