/**
 * The agent panel: it streams a turn, folds each frame into a queue of spoken
 * messages (one per speaking agent), and drops the queue's head when its audio
 * has played.
 */
module Agent {
  import opened Wrappers
  import opened Text
  import opened Sse
  import Store

  const MasterMarker: string := "-------------MASTER NODE STARTED-------------------"
  const PlayerMarker: string := "-------------PLAYER NODE STARTED-------------------"
  const RefereeMarker: string := "-------------REFEREE NODE STARTED-------------------"
  const CloseAgent: string := "close"

  /** One queued message: who speaks it, its text so far, and whether it is complete enough to voice. */
  datatype Entry = Entry(agent: string, message: string, ready: bool)

  /** Every entry marked ready for audio, nothing else changed. */
  function MarkReady(q: seq<Entry>): (r: seq<Entry>)
    ensures |r| == |q|
    ensures forall i :: 0 <= i < |q| ==> r[i] == q[i].(ready := true)
  {
    seq(|q|, i requires 0 <= i < |q| => q[i].(ready := true))
  }

  /** A new, empty message for `agent` after the existing ones, which are now all ready. */
  function Open(q: seq<Entry>, agent: string): (r: seq<Entry>)
    ensures |r| == |q| + 1 && r[|q|] == Entry(agent, "", false)
    ensures forall i :: 0 <= i < |q| ==> r[i] == q[i].(ready := true)
  {
    MarkReady(q) + [Entry(agent, "", false)]
  }

  /**
   * Text for the message being spoken: it extends the last entry, marks the others
   * ready, and is dropped when the queue is empty.
   */
  function Append(q: seq<Entry>, text: string): (r: seq<Entry>)
    ensures |r| == |q|
    ensures q == [] ==> r == []
    ensures q != [] ==> r[|q| - 1] == q[|q| - 1].(message := q[|q| - 1].message + text)
    ensures forall i :: 0 <= i < |q| - 1 ==> r[i] == q[i].(ready := true)
  {
    if q == [] then q
    else MarkReady(q[..|q| - 1]) + [q[|q| - 1].(message := q[|q| - 1].message + text)]
  }

  /** The agent a node-start marker announces; the markers are tested master, player, referee. */
  function Opener(data: string): (r: Option<string>)
    ensures r.Some? <==> Contains(data, MasterMarker) || Contains(data, PlayerMarker) || Contains(data, RefereeMarker)
    ensures r == Some("Oak") <==> Contains(data, MasterMarker)
    ensures r == Some("Ash") <==> !Contains(data, MasterMarker) && Contains(data, PlayerMarker)
    ensures r == Some("Brock") <==>
      !Contains(data, MasterMarker) && !Contains(data, PlayerMarker) && Contains(data, RefereeMarker)
  {
    if Contains(data, MasterMarker) then Some("Oak")
    else if Contains(data, PlayerMarker) then Some("Ash")
    else if Contains(data, RefereeMarker) then Some("Brock")
    else None
  }

  /** A frame opens a new entry: the close event or a node-start marker. */
  predicate Opens(frame: string)
  {
    DataLine(frame).Some? && (Contains(frame, CloseEvent) || Opener(DataLine(frame).value).Some?)
  }

  /** The agent of the entry an opening frame adds. */
  function OpenedAgent(frame: string): string
    requires Opens(frame)
  {
    if Contains(frame, CloseEvent) then CloseAgent else Opener(DataLine(frame).value).value
  }

  /** How one frame changes the queue. */
  function Apply(q: seq<Entry>, frame: string): seq<Entry>
  {
    match DataLine(frame)
    case None => q
    case Some(data) =>
      if Contains(frame, CloseEvent) then Open(q, CloseAgent)
      else match Opener(data)
        case Some(agent) => Open(q, agent)
        case None => if data != "" then Append(q, data) else q
  }

  /** The queue after a run of frames, in order. */
  function ApplyAll(q: seq<Entry>, frames: seq<string>): seq<Entry>
  {
    if frames == [] then q else Apply(ApplyAll(q, frames[..|frames| - 1]), frames[|frames| - 1])
  }

  /** The speakers of the entries, in queue order. */
  function Agents(q: seq<Entry>): seq<string>
  {
    if q == [] then [] else Agents(q[..|q| - 1]) + [q[|q| - 1].agent]
  }

  /** The speakers the opening frames of a run announce, in order. */
  function Announced(frames: seq<string>): seq<string>
  {
    if frames == [] then []
    else
      var last := frames[|frames| - 1];
      Announced(frames[..|frames| - 1]) + (if Opens(last) then [OpenedAgent(last)] else [])
  }

  /** Marking entries ready or extending a message never changes who speaks. */
  lemma {:induction false} AgentsPointwise(q: seq<Entry>, r: seq<Entry>)
    requires |q| == |r| && forall i :: 0 <= i < |q| ==> r[i].agent == q[i].agent
    ensures Agents(r) == Agents(q)
  {
    if q != [] {
      AgentsPointwise(q[..|q| - 1], r[..|r| - 1]);
    }
  }

  /** One frame adds its announced speaker, if any, at the end of the speakers. */
  lemma ApplyAgents(q: seq<Entry>, frame: string)
    ensures Agents(Apply(q, frame)) == Agents(q) + (if Opens(frame) then [OpenedAgent(frame)] else [])
  {
    var r := Apply(q, frame);
    if Opens(frame) {
      assert r[..|q|] == MarkReady(q);
      AgentsPointwise(q, MarkReady(q));
    } else {
      AgentsPointwise(q, r);
      assert Agents(q) + [] == Agents(q);
    }
  }

  /**
   * The queue holds one entry per opening frame, after the entries already there:
   * plain text never creates an entry.
   */
  lemma {:induction false} SpeakersFollowMarkers(q: seq<Entry>, frames: seq<string>)
    ensures Agents(ApplyAll(q, frames)) == Agents(q) + Announced(frames)
  {
    if frames == [] {
      assert Agents(q) + [] == Agents(q);
    } else {
      var init := frames[..|frames| - 1];
      var last := frames[|frames| - 1];
      var p := ApplyAll(q, init);
      var piece := if Opens(last) then [OpenedAgent(last)] else [];
      SpeakersFollowMarkers(q, init);
      ApplyAgents(p, last);
      assert ApplyAll(q, frames) == Apply(p, last);
      assert Announced(frames) == Announced(init) + piece;
      Associate(Agents(q), Announced(init), piece);
    }
  }

  lemma Associate<T>(a: seq<T>, b: seq<T>, c: seq<T>)
    ensures (a + b) + c == a + (b + c)
  {
  }

  /** The length of a sequence of speakers is the number of entries. */
  lemma {:induction false} AgentsLength(q: seq<Entry>)
    ensures |Agents(q)| == |q|
  {
    if q != [] {
      AgentsLength(q[..|q| - 1]);
    }
  }

  /** The queue grows by exactly one entry per opening frame. */
  lemma QueueGrowsByOpeners(q: seq<Entry>, frames: seq<string>)
    ensures |ApplyAll(q, frames)| == |q| + |Announced(frames)|
  {
    SpeakersFollowMarkers(q, frames);
    AgentsLength(ApplyAll(q, frames));
    AgentsLength(q);
  }

  /** Outside the close event and the markers, a frame changes no entry but the last one's text. */
  lemma TextOnlyExtendsLast(q: seq<Entry>, frame: string)
    requires DataLine(frame).Some? && !Opens(frame)
    ensures var r := Apply(q, frame);
      && |r| == |q|
      && (q != [] ==> r[|q| - 1].message == q[|q| - 1].message + DataLine(frame).value)
      && forall i :: 0 <= i < |q| ==> r[i].agent == q[i].agent
  {
  }

  /** The portraits the panel can show. */
  datatype Portrait = Ash | Oak | Brock | Rocket | Meowth | Jessie

  /** `getAgentImage`: the speaker's portrait for player 1, Team Rocket's counterpart for player 2. */
  function AgentImage(activePlayer: Store.PlayerNumber, agent: string): (img: Portrait)
    ensures activePlayer == 1 <==> img in {Ash, Oak, Brock}
    ensures agent == "Ash" ==> img == (if activePlayer == 1 then Ash else Rocket)
    ensures agent == "Brock" ==> img == (if activePlayer == 1 then Brock else Jessie)
    ensures agent != "Ash" && agent != "Brock" ==> img == (if activePlayer == 1 then Oak else Meowth)
  {
    if activePlayer == 1 then
      match agent
      case "Ash" => Ash
      case "Oak" => Oak
      case "Brock" => Brock
      case _ => Oak
    else
      match agent
      case "Ash" => Rocket
      case "Oak" => Meowth
      case "Brock" => Jessie
      case _ => Meowth
  }

  /** `prev.slice(1)`: everything after the head, and nothing from an empty list. */
  function Tail<T>(q: seq<T>): (r: seq<T>)
    ensures q == [] ==> r == []
    ensures q != [] ==> q == [q[0]] + r
  {
    if q == [] then [] else q[1..]
  }

  class Panel {
    var queue: seq<Entry>
    /** Voiced messages waiting to be played, head first. */
    var audioQueue: seq<Entry>
    var playing: bool
    var loading: bool
    var currentAgent: string
    var fullText: string
    var displayedText: string
    var currentIndex: nat
    /** The text received but not yet framed. */
    var buffer: string

    constructor ()
      ensures queue == [] && audioQueue == [] && !playing && !loading
      ensures currentAgent == "Ash" && fullText == "" && displayedText == "" && currentIndex == 0 && buffer == ""
    {
      queue, audioQueue, playing, loading := [], [], false, false;
      currentAgent, fullText, displayedText, currentIndex, buffer := "Ash", "", "", 0, "";
    }

    /** A new turn empties the queue, resets the text and records the active player. */
    method StartTurn(player: Store.PlayerNumber, atoms: Store.Atoms)
      modifies this, atoms
      ensures queue == [] && loading && fullText == "" && displayedText == "" && currentIndex == 0 && buffer == ""
      ensures atoms.activePlayer == player
      ensures audioQueue == old(audioQueue) && playing == old(playing) && currentAgent == old(currentAgent)
      ensures atoms.cardMap == old(atoms.cardMap) && atoms.spotlight == old(atoms.spotlight)
      ensures atoms.highlighted == old(atoms.highlighted)
    {
      queue := [];
      loading := true;
      fullText := "";
      displayedText := "";
      currentIndex := 0;
      atoms.activePlayer := player;
      buffer := "";
    }

    /** One read of the stream: every complete frame updates the queue in order; the rest stays buffered. */
    method Receive(text: string)
      modifies this
      ensures queue == ApplyAll(old(queue), Split(old(buffer) + text).0)
      ensures buffer == Split(old(buffer) + text).1
      ensures audioQueue == old(audioQueue) && playing == old(playing) && loading == old(loading)
      ensures currentAgent == old(currentAgent) && fullText == old(fullText)
      ensures displayedText == old(displayedText) && currentIndex == old(currentIndex)
    {
      var frames, rest := Frames(buffer + text);
      var q := queue;
      for k := 0 to |frames|
        invariant q == ApplyAll(old(queue), frames[..k])
      {
        var message := frames[k];
        var dataMatch := DataLine(message);
        if dataMatch.Some? {
          var data := dataMatch.value;
          if Contains(message, CloseEvent) {
            q := Open(q, CloseAgent);
          } else if Contains(data, MasterMarker) {
            q := Open(q, "Oak");
          } else if Contains(data, PlayerMarker) {
            q := Open(q, "Ash");
          } else if Contains(data, RefereeMarker) {
            q := Open(q, "Brock");
          } else if data != "" {
            q := Append(q, data);
          }
        }
        assert frames[..k + 1][..k] == frames[..k];
      }
      assert frames[..|frames|] == frames;
      queue := q;
      buffer := rest;
    }

    /** The stream ended or failed: loading stops. */
    method Finish()
      modifies this
      ensures !loading
      ensures queue == old(queue) && audioQueue == old(audioQueue) && playing == old(playing) && buffer == old(buffer)
    {
      loading := false;
    }

    /**
     * The queue's head is what the panel shows: its speaker and its text. A new speaker
     * restarts the typed-out text. A `close` entry at the head instead ends the turn: the
     * game state is fetched again (outside this model) and loading stops, whether or not
     * the fetch succeeds.
     */
    method ShowHead()
      modifies this
      ensures queue == old(queue) && audioQueue == old(audioQueue) && buffer == old(buffer)
      ensures queue != [] && queue[0].agent == CloseAgent ==>
        !loading && currentAgent == old(currentAgent) && fullText == old(fullText)
      ensures !(queue != [] && queue[0].agent == CloseAgent) ==> loading == old(loading)
      ensures queue == [] ==> currentAgent == old(currentAgent) && fullText == old(fullText)
      ensures queue != [] && queue[0].agent != CloseAgent ==>
        currentAgent == queue[0].agent && fullText == queue[0].message
      ensures currentAgent != old(currentAgent) ==> displayedText == "" && currentIndex == 0
      ensures currentAgent == old(currentAgent) ==> displayedText == old(displayedText) && currentIndex == old(currentIndex)
    {
      if queue != [] {
        var agent := queue[0].agent;
        if agent == CloseAgent {
          loading := false;
        } else {
          fullText := queue[0].message;
          if agent != currentAgent {
            currentAgent := agent;
            displayedText := "";
            currentIndex := 0;
          }
        }
      }
    }

    /** The head message's audio has played: exactly the head of both queues goes. */
    method AudioEnded()
      modifies this
      ensures !playing
      ensures audioQueue == Tail(old(audioQueue)) && queue == Tail(old(queue))
      ensures buffer == old(buffer) && loading == old(loading) && currentAgent == old(currentAgent)
    {
      playing := false;
      audioQueue := Tail(audioQueue);
      queue := Tail(queue);
    }
  }
}
