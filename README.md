# Pokémon TCG AI — verified model of the turn workflow and its clients

This project models the deterministic part of a Pokémon Trading Card Game assistant. The
model covers the following:

- **Server (Python).** A turn is a small graph of language-model agents:
  - a **Player** proposes a move;
  - a **Mentor** answers the Player's questions;
  - a **Referee** rules on the final decision.
- **Game state.** Before the Player and the Mentor see the game state, every `hp` member is
  stripped from it, and every card reference is expanded with its catalog details.
- **The Referee's reply.** Its streamed reply is scanned chunk by chunk, which keeps fenced
  JSON out of the visible text. The finished reply is decoded into:
  - a legality verdict;
  - an explanation;
  - an updated game state.
- **Initial board.** It is dealt from a shuffled deck: an active Pokémon, up to three benched
  Basic Pokémon with one Energy each, a stadium, and the hand, prize, deck, discard and
  lost-zone piles.
- **Client (TypeScript).**
  - *Turn console.* It reads the turn's server-sent event stream, cuts it into
    `\n\n`-terminated frames, and prints each `data:` line. `[DEBUG]` lines are trimmed and
    flagged, and a `close` event triggers a state refresh.
  - *Agent panel.* It folds the same frames into a queue of spoken messages. A node-start
    marker opens a new message for Oak, Ash or Brock. A message is removed when its audio
    has played.
  - *Spotlight hook.* It keeps the highlighted card and the spotlighted card.
  - *App.* It steps through the introduction slides to the home page and the game. It
    places the active player's board below the opponent's. It copies the server's
    highlighted card into the spotlight.

## How the model is organised

- **Modules.** There is one module per source file. Two further modules, `Text` and `Json`,
  hold substring search and an abstract JSON value; `Wrappers` holds `Option` and `Result`.
- **Frame splitting.** The two clients share the `Sse` module, whose `Split` is the
  specification of their frame loop.
- **Code that changes state in place is imperative.**
  - The graph's shared conversation state is the class `TurnGraph.Turn`. Its node functions
    are methods of that class.
  - The console, the agent panel, the store atoms and the app views are classes.
  - The chunk loops, frame loops and deck scans are methods with loop invariants. Each is
    proved equal to a specification function. The properties the source promises are then
    proved about those functions.
- **Pure code is written as functions.** This covers the JSON rewrite, the response
  decoding, the routing and the queue reducers.
- **Outside effects become parameters.** These are:
  - the language models, as an oracle from a call number and the prompt's variables to a
    streamed reply;
  - `json.loads` and `json.dumps`, as an uninterpreted codec;
  - the shuffle, as an already-shuffled deck;
  - the client's state refresh, as its outcome.

### Where the model follows the code rather than the documentation

- **The "iteration limit" flag is never set.** The turn runner's `hit_iteration_limit` is
  documented as reporting that the recursion limit was reached. In the code:
  - the graph only ends after a legal verdict, so the flag's test (illegal with an
    explanation) never holds on a returned result;
  - hitting the limit raises instead of returning.

  `TurnGraph.RunTurn` proves the flag false on every result it returns. Reaching the limit
  is the separate outcome `RecursionLimit`.
- **An illegal ruling still yields an updated state.** The Referee's updated state is parsed
  from the reply's JSON block even when the ruling is illegal. The illegal verdict does not
  discard it.
- **A pool of 8 to 13 cards leaves cards out of the piles.** When the pool left after the setup
  scans has 8 to 13 cards, the cards after the hand are in no pile: prizes are only dealt
  from more than 13 cards. `Setup.PilesCoverPool` states exactly when the piles cover the
  pool.
- **The card expansion can fail to terminate.** It recurses into the details it has just
  merged. A catalog entry that contains, directly or through other entries, an object
  carrying that entry's own id never finishes, and Python raises `RecursionError`. Ids
  that lead from entry to entry without a cycle are expanded and the rewrite stops. The rewrite therefore carries a frame budget, and `None` stands for
  that error.

## Model

| member | source | states |
|---|---|---|
| Text.IndexFrom | client/src/components/TurnConsole.tsx:104 | `indexOf(p, from)`: a result is an occurrence at or after `from` |
| Text.IndexFromSpec | client/src/components/TurnConsole.tsx:104 | the result is the first occurrence at or after `from`; no result exactly when there is no occurrence at or after `from` |
| Text.ContainsIff | server/pktcgai/chains/referee.py:113 | the substring test holds exactly when the pattern occurs at some index |
| Text.SplitOnce | server/pktcgai/chains/referee.py:115 | `split(p, 1)` has two parts exactly when `p` occurs; the parts rebuild the string around `p`, and the first part holds no `p` |
| Text.IndexOfAppend | client/src/components/TurnConsole.tsx:98-104 | text appended to the buffer never moves a separator that was already in it |
| Json.Get | server/pktcgai/graph/pokemon_tcg_graph.py:51 | a lookup succeeds exactly when the object has the key |
| Json.RemoveSpec | server/pktcgai/graph/pokemon_tcg_graph.py:47-48 | `del obj['hp']`: the key is gone; every other key is kept with its value; no member is invented; distinct keys stay distinct |
| Json.RemoveAbsent | server/pktcgai/graph/pokemon_tcg_graph.py:47 | deleting a key the object lacks leaves it unchanged |
| Json.SetSpec | server/pktcgai/graph/pokemon_tcg_graph.py:59 | `obj[key] = value`: the key now maps to the value; every other key keeps its value; distinct keys stay distinct |
| CardExpansion.CatalogKey | server/pktcgai/graph/pokemon_tcg_graph.py:51-55 | an object hits the catalog exactly when it has an `id` whose text `str(id)` is a catalog key, and the key used is that text |
| CardExpansion.MergeDetailsSpec | server/pktcgai/graph/pokemon_tcg_graph.py:57-59 | merging catalog details adds every detail key except `hp`; a detail's value overwrites a same-named field; all other fields keep their values |
| CardExpansion.ExpandSpec | server/pktcgai/graph/pokemon_tcg_graph.py:47-62 | an object's own rewrite has no `hp`; with no catalog hit it is only the `hp` removal; on a hit its keys are its own and the entry's (minus `hp`), and the entry's values win |
| CardExpansion.ProcessItemsSpec | server/pktcgai/graph/pokemon_tcg_graph.py:67-69 | a list is rewritten element by element: it succeeds exactly when every element does, keeping length and order |
| CardExpansion.ProcessMembersSpec | server/pktcgai/graph/pokemon_tcg_graph.py:64-65 | an object's members are rewritten value by value: same keys in the same order, succeeding exactly when every value does |
| CardExpansion.ProcessObject | server/pktcgai/graph/pokemon_tcg_graph.py:45-65 | a rewritten object has no `hp`; its keys are the original's and the catalog entry's (minus `hp`); each value is the recursive rewrite of the entry's value or of the original value |
| CardExpansion.ProcessList | server/pktcgai/graph/pokemon_tcg_graph.py:67-69 | a rewritten list has the original's length, and each element is the rewrite of the element at the same index |
| CardExpansion.ProcessScalar | server/pktcgai/graph/pokemon_tcg_graph.py:71 | strings, numbers, booleans and null pass through unchanged |
| CardExpansion.ProcessStripsHp | server/pktcgai/graph/pokemon_tcg_graph.py:25-75 | after the rewrite no object at any depth has an `hp` member |
| CardExpansion.ProcessStripsHpItems | server/pktcgai/graph/pokemon_tcg_graph.py:67-69 | a rewritten list holds no `hp` member at any depth |
| CardExpansion.ProcessStripsHpMembers | server/pktcgai/graph/pokemon_tcg_graph.py:63-65 | rewriting the values of an object without `hp` leaves no `hp` at any depth |
| CardExpansion.GetProcessed | server/pktcgai/graph/pokemon_tcg_graph.py:64-65 | after the members are rewritten, every key's value is the rewrite of its old value |
| CardExpansion.ProcessIdentity | server/pktcgai/graph/pokemon_tcg_graph.py:60-71 | a document with no `hp` and no catalogued id at any depth comes back unchanged, given frames for its depth |
| CardExpansion.ProcessIdentityItems | server/pktcgai/graph/pokemon_tcg_graph.py:67-69 | a list of such documents comes back unchanged |
| CardExpansion.ProcessIdentityMembers | server/pktcgai/graph/pokemon_tcg_graph.py:64-65 | an object's members that are such documents come back unchanged |
| Referee.Step | server/pktcgai/chains/referee.py:108-151 | one chunk of the scan loop: the full response grows by exactly the chunk |
| Referee.StepKeepsInvariant | server/pktcgai/chains/referee.py:113-151 | each chunk keeps the scanner's invariant: an open block starts at its `json` marker, a closed block leaves nothing pending, and no text is invented: the visible, held-back and pending texts together hold each character no more often than the raw response does |
| Referee.ScannedSpec | server/pktcgai/chains/referee.py:108-110 | after the loop the full response is the in-order concatenation of all chunks, and the invariant holds |
| Referee.ScannedWithoutMarker | server/pktcgai/chains/referee.py:148-151 | when no chunk mentions `json`, every chunk is visible and nothing is held back |
| Referee.Scan | server/pktcgai/chains/referee.py:99-156 | the imperative chunk loop computes exactly the specified scan, flushing an unclosed block into the held-back JSON |
| Referee.JsonBlockSpec | server/pktcgai/chains/referee.py:182 | the fenced ```` ```json\n…\n``` ```` block is found exactly when an opening fence is followed by a closing one; it is the leftmost opening fence with the nearest closing fence, and its body holds no closing fence |
| Referee.SkipSpace | server/pktcgai/chains/referee.py:202 | `\s*` is greedy: it skips only whitespace and stops at the end or at a non-space |
| Referee.BodyEnd | server/pktcgai/chains/referee.py:202 | the lazy body stops at the first blank line, final newline or end of text |
| Referee.ExplanationMatchSpec | server/pktcgai/chains/referee.py:201-205 | a labelled explanation holds no blank line, does not start with whitespace, and is a substring of the text it came from |
| Referee.UpdatedStateSpec | server/pktcgai/chains/referee.py:182-193 | without a fenced block, or with a block that parses to a falsy value, the received state is kept; a truthy parsed block is the new state; an unparsable block falls back to the received state parsed again, or to the error that raises; the result is always the received text or a truthy value |
| Referee.ProcessResponse | server/pktcgai/chains/referee.py:173-227 | the raw response is kept; the updated state is `updated_state or game_state` (see `Referee.UpdatedStateSpec`); a legal verdict means the response never says `ILLEGAL ACTION`; otherwise legality is exactly the absence of that phrase in the raw or visible text, and the explanation is the labelled paragraph or the whole text; a state that cannot be parsed yields an illegal "Error processing response: " verdict that keeps the received state |
| Referee.Invoke | server/pktcgai/chains/referee.py:59-171 | an error raised while building the chain propagates; an error from `chain.stream` or while iterating the stream, even before the first chunk, gives the illegal fallback verdict with the received state and raw response `Error`; otherwise the verdict is `process_response` of the concatenated chunks and the scanned visible text; a legal verdict implies the stream did not fail and never said `ILLEGAL ACTION` |
| TurnGraph.RenderAppend | server/pktcgai/graph/pokemon_tcg_graph.py:91-96 | rendering a transcript with one more message appends exactly that message's line |
| TurnGraph.RenderHoldsMessages | server/pktcgai/graph/pokemon_tcg_graph.py:91-96 | every message's `Player:` or `Mentor:` line appears in the rendered transcript |
| TurnGraph.PlayerConversation | server/pktcgai/graph/pokemon_tcg_graph.py:98-101 | the Player's prompt starts with the rendered transcript; it has added text exactly when the last verdict was illegal with an explanation, and that text names both the previous action and the explanation |
| TurnGraph.LatestPlayerMessageSpec | server/pktcgai/graph/pokemon_tcg_graph.py:153-157 | the Mentor's question is `""` when no Player message exists, and otherwise the content of the last Player message |
| TurnGraph.AfterPlayer | server/pktcgai/graph/pokemon_tcg_graph.py:230-238 | the Player routes to the Referee exactly when it made a final decision, and to the Mentor exactly when it did not |
| TurnGraph.AfterReferee | server/pktcgai/graph/pokemon_tcg_graph.py:242-250 | the Referee ends the turn exactly when the verdict is legal, and sends the Player back exactly when it is not |
| TurnGraph.OpenQuestionIsAsked | server/pktcgai/graph/pokemon_tcg_graph.py:153-157 | when the transcript ends with a Player question, the Mentor is asked exactly that question, and any answer keeps the Player and Mentor turns alternating |
| TurnGraph.Turn.constructor | server/pktcgai/graph/pokemon_tcg_graph.py:257-269 | `initialize_game_state`: the given game data and catalog, an empty action and transcript, no decision, an illegal empty verdict, the `player` node |
| TurnGraph.Turn.PlayerStep | server/pktcgai/graph/pokemon_tcg_graph.py:88-148 | the Player is prompted once with the transformed state and the transcript plus the illegal-move reminder; its whole response becomes exactly one new Player entry; the final decision holds exactly when the response contains `FINAL DECISION:`, and only then does the response become the action; the verdict is untouched and alternation is kept |
| TurnGraph.Turn.RecordPlayerMessage | server/pktcgai/graph/pokemon_tcg_graph.py:129-146 | exactly one Player entry is appended; the decision flag is the marker test; the action changes only on a decision; the verdict is untouched |
| TurnGraph.Turn.MentorStep | server/pktcgai/graph/pokemon_tcg_graph.py:150-195 | the Mentor is prompted once with the transformed state, the transcript and the latest Player message; its whole response becomes exactly one Mentor entry; action, decision and verdict are untouched |
| TurnGraph.Turn.RecordMentorMessage | server/pktcgai/graph/pokemon_tcg_graph.py:190-193 | exactly one Mentor entry is appended and nothing else changes; an answer to an open question keeps alternation |
| TurnGraph.Turn.RefereeStep | server/pktcgai/graph/pokemon_tcg_graph.py:197-223 | the Referee sees the untransformed state and the action; its verdict becomes the decision, or, when it raises, an illegal "Error processing action: " verdict with the current game state; the transcript, action and decision flag are untouched |
| TurnGraph.RefereeVerdict | server/pktcgai/graph/pokemon_tcg_graph.py:205-221 | the Referee raises exactly when building its chain fails; a legal verdict implies an unbroken stream that never said `ILLEGAL ACTION` |
| TurnGraph.RenderConversation | server/pktcgai/graph/pokemon_tcg_graph.py:91-96 | the transcript loop produces the ordered `Player:`/`Mentor:` lines of the whole conversation |
| TurnGraph.Collect | server/pktcgai/graph/pokemon_tcg_graph.py:120-127 | the chunk loop collects the in-order concatenation of the chunks |
| TurnGraph.TranscriptGrows | server/pktcgai/graph/pokemon_tcg_graph.py:88-223 | one more node call extends the transcript by exactly what its reply says: the Player's or the Mentor's whole response, and nothing for a Referee ruling |
| TurnGraph.RunPlayer | server/pktcgai/graph/pokemon_tcg_graph.py:225-239 | after the Player node the transcript is still the replies to the prompts, turns alternate, and the route taken (Referee on a decision, Mentor otherwise) finds its entry condition |
| TurnGraph.RunMentor | server/pktcgai/graph/pokemon_tcg_graph.py:225-240 | after the Mentor node the transcript is still the replies to the prompts and control returns to the Player with turns alternating |
| TurnGraph.RunReferee | server/pktcgai/graph/pokemon_tcg_graph.py:242-250 | the Referee's prompt is the last one sent, the decision is its verdict (an error gives an illegal decision), and the transcript and the action are kept |
| TurnGraph.RunTurn | server/pktcgai/graph/pokemon_tcg_graph.py:272-309 | the graph runs at most `max_iterations` nodes, and the recursion limit is reached only by using them all; a returned result is legal, never reports the iteration limit, its action contains `FINAL DECISION:` and is the transcript's last Player entry, and Mentor and Player turns alternate; the first prompt sent is the Player's and the transcript is exactly the Player's and Mentor's replies to the prompts, in order; the last prompt sent is the Referee's prompt for that action, and the result's legality, explanation and updated game state are those of the Referee's verdict on it |
| Setup.DecimalRoundTrip | server/pktcgai/state.py:70 | the decimal text of a natural number consists of digits and reads back as that number |
| Setup.ParseIntRoundTrip | server/pktcgai/state.py:70 | `int(str(i)) == i` for every integer `i` |
| Setup.MatchingWanted | server/pktcgai/state.py:41 | the matching cards are all of the wanted kind, the others are all not |
| Setup.MatchingStep | server/pktcgai/state.py:48-51 | one more card extends the matching or the other cards, according to its kind |
| Setup.Cut | server/pktcgai/state.py:48-53 | a scan stops at the end of the deck or at the card that fills the limit, and never takes more than the limit |
| Setup.CutIsFirst | server/pktcgai/state.py:52-53 | a scan does not stop before the limit is filled |
| Setup.RemoveFirst | server/pktcgai/state.py:51 | `list.remove` removes exactly one card |
| Setup.RemoveFirstSpec | server/pktcgai/state.py:51 | `list.remove` removes one copy of the card, as a multiset, and it is the first occurrence: the pool before it is kept and the pool after it closes up in order |
| Setup.RemoveFirstAfter | server/pktcgai/state.py:51 | removing a card that no earlier card equals removes it at its own position |
| Setup.TakeMatching | server/pktcgai/state.py:40-53 | the imperative scan loop with `remove` takes exactly the specified cards and leaves exactly the specified pool |
| Setup.ScanStep | server/pktcgai/state.py:48-53 | one iteration of the scan: a wanted card moves to the taken list, another card stays in the pool in order, and the cut position is met exactly when the limit fills |
| Setup.MatchingAppend | server/pktcgai/state.py:48-51 | selecting the wanted cards distributes over concatenation |
| Setup.MatchingPartition | server/pktcgai/state.py:48-51 | the wanted and the other cards together are the deck, as a multiset |
| Setup.OthersWanted | server/pktcgai/state.py:48-51 | the cards left after taking every wanted card contain none of that kind |
| Setup.ScanTakesFirst | server/pktcgai/state.py:40-53 | a scan takes the first `limit` cards of the wanted kind (or all of them), in deck order |
| Setup.ScanKeepsCards | server/pktcgai/state.py:40-60 | a scan neither loses nor invents cards: taken plus pool is the deck, as a multiset |
| Setup.ScanLeavesRest | server/pktcgai/state.py:46-53 | the wanted cards still in the pool are exactly those after the ones taken |
| Setup.FirstHpErrorNone | server/pktcgai/state.py:66-72 | building the bench raises exactly when some benched card's `hp` does not convert |
| Setup.FirstHpErrorStep | server/pktcgai/state.py:66-72 | the first conversion error of one more card is the earlier error, or that card's own |
| Setup.BuildBench | server/pktcgai/state.py:64-72 | the imperative bench loop computes exactly the specified bench, or the first conversion error |
| Setup.FirstHpErrorPrefix | server/pktcgai/state.py:66-72 | an error in a prefix of the bench is the error of the whole bench |
| Setup.GetInitialState | server/pktcgai/state.py:30-98 | the imperative setup, from the shuffled deck, computes exactly the specified board, or the error `int()` raises |
| Setup.KindsDisjoint | server/pktcgai/state.py:41-77 | a card is of at most one wanted kind |
| Setup.OthersKeepOtherKinds | server/pktcgai/state.py:56-80 | taking cards of one kind leaves the cards of another kind in place and order |
| Setup.ScanKeepsOtherKinds | server/pktcgai/state.py:56-80 | a scan for one kind leaves every card of another kind in the pool, in order |
| Setup.ConsecutiveScans | server/pktcgai/state.py:38-53 | two scans for the same kind take consecutive runs of that kind's cards |
| Setup.ActiveAndBenchScans | server/pktcgai/state.py:38-53 | the active Pokémon is the deck's first Basic Pokémon, and the bench holds the next (up to) three, in order |
| Setup.EnergyScan | server/pktcgai/state.py:55-62 | the Energies set aside are the deck's first (up to) three Energy cards |
| Setup.StadiumScan | server/pktcgai/state.py:74-80 | the stadium is the deck's first Stadium Trainer, if there is one |
| Setup.SetupKeepsCards | server/pktcgai/state.py:38-80 | every card of the deck is in exactly one of the active, bench, energy, stadium and pool groups |
| Setup.BoardSpec | server/pktcgai/state.py:64-98 | both players get the same state; the active Pokémon has no attachment; bench Pokémon `i` carries the `i`-th Energy found, or nothing once they run out; every `hp` is the converted card `hp`, 0 when absent |
| Setup.SetupFails | server/pktcgai/state.py:70-85 | the setup fails exactly when a benched or active card's `hp` does not convert |
| Setup.PilesCoverPool | server/pktcgai/state.py:83-92 | hand, prizes and deck deal out the pool exactly when it has at most 7 or more than 13 cards; the hand is its first 7 cards, the prizes the next 6 when there are more than 13 and none otherwise, the deck everything from the fourteenth card on; discard and lost zone repeat its first and second cards |
| Sse.FirstSep | client/src/components/TurnConsole.tsx:104 | a blank line found by the character scan starts at or after the search start and is `\n\n` there |
| Sse.FirstSepIsIndexFrom | client/src/components/TurnConsole.tsx:104 | the character scan for a blank line finds exactly what `indexOf("\n\n", from)` finds |
| Sse.SplitJoin | client/src/components/TurnConsole.tsx:101-145 | the frames, each followed by `\n\n`, and then the leftover, rebuild the buffer |
| Sse.SplitClean | client/src/components/TurnConsole.tsx:104-145 | neither the leftover nor any frame contains `\n\n` |
| Sse.SplitExtend | client/src/components/TurnConsole.tsx:98-145 | framing a longer buffer finds the same frames first, then the frames of the leftover plus the new text |
| Sse.ChunkingIrrelevant | client/src/components/TurnConsole.tsx:88-145 | however the stream is cut into reads, the frames and leftover are those of the concatenated text |
| Sse.SplitFrom | client/src/components/TurnConsole.tsx:104-141 | framing from a start index either finds no separator (all is leftover) or a first frame up to the separator and then the frames after it |
| Sse.ScanBegins | client/src/components/TurnConsole.tsx:101 | the frame loop's invariant holds at index 0 with no frames |
| Sse.ScanStep | client/src/components/TurnConsole.tsx:104-141 | one iteration of the frame loop: the found frame is added and the start moves past its separator, keeping the invariant |
| Sse.ScanEnds | client/src/components/TurnConsole.tsx:104-145 | when no separator remains, the frames found and the rest of the buffer are the specified framing |
| Sse.Frames | client/src/components/TurnConsole.tsx:101-145 | the imperative `indexOf` loop computes exactly the specified frames and leftover |
| Sse.LineEnd | client/src/components/TurnConsole.tsx:106 | `(.*)` ends inside the frame, never before where it starts |
| Sse.LineEndSpec | client/src/components/TurnConsole.tsx:106 | `(.*)` stops at the first line terminator or the end |
| Sse.FirstData | client/src/components/TurnConsole.tsx:106 | a match found is a line that starts with `data: ` |
| Sse.FirstDataSpec | client/src/components/TurnConsole.tsx:106 | the match is the first line that starts with `data: `, no earlier one does, and there is none when nothing is found |
| Sse.DataLineSpec | client/src/components/TurnConsole.tsx:106-109 | a frame has data exactly when some line starts with `data: `; the data holds no line terminator and is the rest of that line |
| Sse.DataAfterHeader | client/src/components/TurnConsole.tsx:106-109 | a frame of one header line and one data line carries exactly the data line's text |
| Sse.FirstDataUnique | client/src/components/TurnConsole.tsx:106 | a `data: ` line with none before it is the one the match finds |
| Sse.LineEndAtEnd | client/src/components/TurnConsole.tsx:106 | a data line without terminator runs to the end of the frame |
| TurnConsole.TrimStart | client/src/components/TurnConsole.tsx:133 | the result is a suffix, all of the dropped prefix is whitespace, and it does not start with whitespace |
| TurnConsole.TrimEnd | client/src/components/TurnConsole.tsx:133 | the result is a prefix, all of the dropped suffix is whitespace, and it does not end with whitespace |
| TurnConsole.Trim | client/src/components/TurnConsole.tsx:133 | `trim()` is the slice of the text between leading and trailing whitespace, starting and ending with non-space |
| TurnConsole.TrimSpec | client/src/components/TurnConsole.tsx:133 | trimming the start and then the end leaves the text between the leading and trailing whitespace |
| TurnConsole.TrimmedFrom | client/src/components/TurnConsole.tsx:133 | a whitespace-free suffix, then a whitespace-free prefix of it, is the trimmed text |
| TurnConsole.TrimUnique | client/src/components/TurnConsole.tsx:133 | any slice between leading and trailing whitespace that starts and ends with non-space is what `trim()` returns |
| TurnConsole.Display | client/src/components/TurnConsole.tsx:132-133 | data is a debug line exactly when it starts with `[DEBUG]`; plain data is shown unchanged; a debug line shows the rest after the tag, trimmed |
| TurnConsole.FrameLinesSpec | client/src/components/TurnConsole.tsx:105-138 | a frame without data prints nothing; a close frame prints the close and refresh lines and never its data; any other frame prints at most its one display line, and nothing when that is empty |
| TurnConsole.TextsAppend | client/src/components/TurnConsole.tsx:36 | appending a line appends its text and debug flag to what is shown |
| TurnConsole.OutputStep | client/src/components/TurnConsole.tsx:104-141 | one more frame appends its own lines to the output, and a close among the frames is the earlier ones' or its own |
| TurnConsole.Console.constructor | client/src/components/TurnConsole.tsx:17-20 | no lines, counter 0, not loading, empty buffer |
| TurnConsole.Console.AddLine | client/src/components/TurnConsole.tsx:32-43 | `addOutputLine` appends one line whose id is the counter, then increments the counter, so ids stay 0, 1, 2, … in order |
| TurnConsole.Console.StartTurn | client/src/components/TurnConsole.tsx:60-62 | a turn starts loading with no lines, counter 0 and an empty buffer |
| TurnConsole.Console.HandleClose | client/src/components/TurnConsole.tsx:113-129 | the close event appends its three report lines and stops loading |
| TurnConsole.Console.HandleFrame | client/src/components/TurnConsole.tsx:105-138 | one frame appends exactly its specified lines; only a close frame stops loading |
| TurnConsole.Console.HandleFrameAt | client/src/components/TurnConsole.tsx:104-142 | with the first `k` frames shown, frame `k` extends the output and the loading flag to the first `k + 1` |
| TurnConsole.Console.HandleFrames | client/src/components/TurnConsole.tsx:104-142 | the frames append their lines in order; loading stops exactly when one of them is a close frame |
| TurnConsole.Console.Receive | client/src/components/TurnConsole.tsx:96-145 | one read appends the lines of every complete frame of buffer plus text in order, keeps the incomplete rest as the buffer, and stops loading exactly on a close frame |
| TurnConsole.Console.Finish | client/src/components/TurnConsole.tsx:149 | the stream ended: loading stops and nothing else changes |
| TurnConsole.Console.Fail | client/src/components/TurnConsole.tsx:157-160 | an error appends one `Error: …` line and stops loading |
| Store.Atoms.constructor | client/src/App.tsx:15-19 | empty card map, no spotlight, no highlighted card, active player 1 |
| Spotlight.SpotlightCard | client/src/hooks/useSpotlight.ts:21-45 | `null` clears both the highlight and the spotlight; an id missing from the card map changes neither; a known id becomes the highlight, and also the spotlight (with its large image) unless only highlighting; the card map and active player are untouched |
| Spotlight.ClearSpotlight | client/src/hooks/useSpotlight.ts:50-53 | both the highlight and the spotlight are cleared |
| Agent.MarkReady | client/src/components/Agent.tsx:157-161 | every entry is marked ready for audio and nothing else changes |
| Agent.Open | client/src/components/Agent.tsx:157-202 | exactly one empty, not-ready entry for the agent is appended, and every earlier entry is marked ready |
| Agent.Append | client/src/components/Agent.tsx:203-219 | the length is unchanged; text is dropped when the queue is empty; otherwise only the last entry's message grows by the text, and every earlier entry is marked ready |
| Agent.Opener | client/src/components/Agent.tsx:167-202 | the markers are tested master, player, referee: Oak exactly for the master marker, Ash for the player marker without the master one, Brock for the referee marker alone; none without a marker |
| Agent.AgentsPointwise | client/src/components/Agent.tsx:157-219 | entries that keep their speakers keep the speaker list |
| Agent.ApplyAgents | client/src/components/Agent.tsx:153-221 | a frame adds a speaker exactly when it opens an entry, and then exactly the one it announces |
| Agent.SpeakersFollowMarkers | client/src/components/Agent.tsx:146-225 | the queue's speakers are the earlier speakers followed by the speakers the frames announce, in order |
| Agent.AgentsLength | client/src/components/Agent.tsx:146-225 | there is one speaker per entry |
| Agent.QueueGrowsByOpeners | client/src/components/Agent.tsx:146-225 | the queue grows by exactly the number of opening frames |
| Agent.TextOnlyExtendsLast | client/src/components/Agent.tsx:203-219 | a plain data frame keeps the length and all speakers, and appends its data to the last entry's message |
| Agent.AgentImage | client/src/components/Agent.tsx:240-264 | player 1 sees Ash, Oak or Brock and player 2 sees Rocket, Meowth or Jessie, with Oak and Meowth for any other agent |
| Agent.Tail | client/src/components/Agent.tsx:381 | `slice(1)` drops exactly the head, and nothing from an empty queue |
| Agent.Panel.constructor | client/src/components/Agent.tsx:29-42 | an empty queue, nothing playing or loading, Ash speaking, no text |
| Agent.Panel.StartTurn | client/src/components/Agent.tsx:112-117 | the queue is emptied, the text and typing index reset, loading starts and the active player is recorded |
| Agent.Panel.Receive | client/src/components/Agent.tsx:143-225 | one read folds every complete frame of buffer plus text into the queue in order and keeps the incomplete rest as the buffer |
| Agent.Panel.Finish | client/src/components/Agent.tsx:227-230 | the stream ended or failed: loading stops |
| Agent.Panel.ShowHead | client/src/components/Agent.tsx:44-69 | a `close` entry at the head stops loading; any other head becomes the current speaker and text; a new speaker restarts the typing |
| Agent.Panel.AudioEnded | client/src/components/Agent.tsx:375-382 | playback stops and exactly the head of both the audio queue and the message queue is removed |
| App.Next | client/src/App.tsx:214-228 | the slides advance one by one to the home page; home and game stay; Next never enters the game |
| App.RenderView | client/src/App.tsx:230-264 | the three slides are slide screens and only the third is the last; home shows the home page and game the game |
| App.GameOnlyFromHome | client/src/App.tsx:232-233 | any click sequence from the first slide that reaches the game pressed start while on the home page |
| App.IntroductionPath | client/src/App.tsx:210-233 | three Next clicks reach the home page, and start then opens the game |
| App.Shell.constructor | client/src/App.tsx:210-212 | the initial view is the first slide |
| App.Shell.HandleNext | client/src/App.tsx:214-228 | the view becomes its successor |
| App.Shell.StartGame | client/src/App.tsx:233 | the view becomes the game |
| App.BoardsMirror | client/src/App.tsx:171-195 | the active player's board is below and the opponent's above; the `isPlayerTwo` flags name the right player; switching the active player swaps the boards |
| App.GameView.constructor | client/src/App.tsx:38 | no game state loaded yet |
| App.GameView.LoadGameState | client/src/App.tsx:71-97 | a failed fetch changes nothing; otherwise the state is kept and the card map replaced only when one was sent; a non-zero id known to the sent map becomes the highlight and the spotlight; an explicit null clears both; anything else (id 0, unknown id, no map) leaves them alone |

## Left out

- Language-model calls: the prompts, chains and hosted models are the oracle `llm`, and a reply is its chunks plus the error it may raise. The card-mapping text passed to the Referee's prompt is not part of the prompt model.
- JSON encoding and decoding: `json.dumps`/`json.loads` are an uninterpreted `Codec`. The numbers of the abstract JSON value are integers; floating-point values are not modelled.
- CardExpansion.IdText: `str()` of a list or object used as an id is not rendered, so the model treats such an object as having no catalog entry and only rewrites its members. In the source, when that text is not a catalog key, the `not in` test at server/pktcgai/graph/pokemon_tcg_graph.py:60 raises TypeError (the id is unhashable); the model does not capture that error.
- Spotlight.SpotlightCard and App.GameView.LoadGameState: the card map keeps only each card's large image. A card-map entry without `images` makes `cardInfo.images.large` raise TypeError after the highlight is set; in client/src/hooks/useSpotlight.ts:35-43 the error propagates, and in client/src/App.tsx:83-88 it is caught. The model does not capture that case.
- The graph library: `StateGraph` compilation is not modelled. Its `recursion_limit` is a step budget, and reaching it is the outcome `RecursionLimit`, because the source raises there rather than returning.
- The transform's recursion depth: Python's frame limit is the `fuel` budget. The exact frame count at which Python gives up is not modelled.
- `random.shuffle`: the setup takes the already-shuffled deck.
- Setup.HpValue: `int()` is modelled for an integer and for an optional sign followed by ASCII digits. Surrounding whitespace, `_` separators, non-ASCII digits, floats and `None` are not modelled.
- Setup.Wants: `subtypes` is a list; a `subtypes` string, where `in` would be a substring test, is not modelled.
- Setup: both players share one `PlayerState` object in the source. The model gives both the same value, so later aliasing through that shared object is not captured.
- The client's network access, the audio generation, the typewriter timer, scrolling and toasts are not part of the model. The refresh after a close frame is its outcome, passed in (`refresh`). One outcome is passed per read, so `TurnConsole.Console.Receive` and `TurnConsole.Console.HandleFrames` give every close frame of one read the same refresh result; two close frames in one read with different refresh results are not modelled.
- Rendering, layout, the theme and the floating-point scale factor are not modelled. `renderView` is reduced to which screen is shown.
- client/src/components/Game.tsx is not part of this model; it duplicates the game view in App.tsx.
- Asynchrony: each read of a stream is handled as a whole. A read's complete frames are found first and then handled in order; awaiting between them changes nothing observable in the model. Concurrent turns are not modelled.
- Agent.Panel.ShowHead: a `close` entry at the head stops loading whether the refresh succeeds or fails, as in the source; the refresh itself and the `onGameStateUpdated` callback are outside the model.
