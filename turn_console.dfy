/**
 * The turn console: it streams one player's turn from the server and shows every
 * data frame as an output line, flagging `[DEBUG]` lines, and numbers the lines
 * 0, 1, 2, … from the start of each turn.
 */
module TurnConsole {
  import opened Wrappers
  import opened Text
  import opened Sse

  const DebugTag: string := "[DEBUG]"

  /** Characters removed by JavaScript's `String.prototype.trim`: white space (including every space separator) and line terminators. */
  const JsSpaces: set<char> := {
    '\t', '\U{000B}', '\U{000C}', ' ', '\U{00A0}', '\U{FEFF}', '\U{1680}',
    '\U{2000}', '\U{2001}', '\U{2002}', '\U{2003}', '\U{2004}', '\U{2005}', '\U{2006}', '\U{2007}',
    '\U{2008}', '\U{2009}', '\U{200A}', '\U{202F}', '\U{205F}', '\U{3000}',
    '\n', '\r', '\U{2028}', '\U{2029}'
  }

  predicate IsJsSpace(c: char)
  {
    c in JsSpaces
  }

  /** `s` with its leading white space removed. */
  function TrimStart(s: string): (r: string)
    ensures |r| <= |s| && r == s[|s| - |r|..]
    ensures r == [] || !IsJsSpace(r[0])
    ensures forall i :: 0 <= i < |s| - |r| ==> IsJsSpace(s[i])
  {
    if s != [] && IsJsSpace(s[0]) then TrimStart(s[1..]) else s
  }

  /** `s` with its trailing white space removed. */
  function TrimEnd(s: string): (r: string)
    ensures |r| <= |s| && r == s[..|r|]
    ensures r == [] || !IsJsSpace(r[|r| - 1])
    ensures forall i :: |r| <= i < |s| ==> IsJsSpace(s[i])
  {
    if s != [] && IsJsSpace(s[|s| - 1]) then TrimEnd(s[..|s| - 1]) else s
  }

  /** `t` is `s[a..]` cut short, with only white space around it and none at its own ends. */
  predicate TrimmedAt(s: string, t: string, a: int)
  {
    && 0 <= a && a + |t| <= |s| && s[a..a + |t|] == t
    && (forall i :: 0 <= i < a ==> IsJsSpace(s[i]))
    && (forall i :: a + |t| <= i < |s| ==> IsJsSpace(s[i]))
    && (t == [] || (!IsJsSpace(t[0]) && !IsJsSpace(t[|t| - 1])))
  }

  /** JavaScript `s.trim()`. */
  function Trim(s: string): (r: string)
    ensures TrimmedAt(s, r, |s| - |TrimStart(s)|)
  {
    TrimSpec(s);
    TrimEnd(TrimStart(s))
  }

  lemma TrimSpec(s: string)
    ensures TrimmedAt(s, TrimEnd(TrimStart(s)), |s| - |TrimStart(s)|)
  {
    TrimmedFrom(s, TrimStart(s), TrimEnd(TrimStart(s)));
  }

  /** Cutting white space from the front (`u`) and then from the back (`r`) trims `s`. */
  lemma TrimmedFrom(s: string, u: string, r: string)
    requires |u| <= |s| && u == s[|s| - |u|..] && forall i :: 0 <= i < |s| - |u| ==> IsJsSpace(s[i])
    requires u == [] || !IsJsSpace(u[0])
    requires |r| <= |u| && r == u[..|r|] && forall i :: |r| <= i < |u| ==> IsJsSpace(u[i])
    requires r == [] || !IsJsSpace(r[|r| - 1])
    ensures TrimmedAt(s, r, |s| - |u|)
  {
    var k := |s| - |u|;
    assert s[k..k + |r|] == r;
    forall i | k + |r| <= i < |s|
      ensures IsJsSpace(s[i])
    {
      assert s[i] == u[i - k];
    }
    if r != [] {
      assert r[0] == u[0];
    }
  }

  /** There is only one way to trim: any `t` with white space alone around it is `Trim(s)`. */
  lemma TrimUnique(s: string, t: string, a: int)
    requires TrimmedAt(s, t, a)
    ensures t == Trim(s)
  {
    var r := Trim(s);
    var b := |s| - |TrimStart(s)|;
    if t != [] && r != [] {
      assert s[a] == t[0];
      assert s[b] == r[0];
      assert s[a + |t| - 1] == t[|t| - 1];
      assert s[b + |r| - 1] == r[|r| - 1];
    }
  }

  /** One output line as shown: its text and whether it is a debug line. */
  datatype Shown = Shown(text: string, isDebug: bool)

  /** An output line with its identifier. */
  datatype OutputLine = OutputLine(text: string, isDebug: bool, id: nat)

  /**
   * What a regular data payload shows: a `[DEBUG]` payload loses its tag and
   * surrounding white space and is flagged; any other payload is shown as it is.
   */
  function Display(data: string): (r: Shown)
    ensures r.isDebug <==> StartsWith(data, DebugTag)
    ensures !r.isDebug ==> r.text == data
    ensures r.isDebug ==> exists a :: TrimmedAt(data[|DebugTag|..], r.text, a)
  {
    if StartsWith(data, DebugTag) then Shown(Trim(data[|DebugTag|..]), true) else Shown(data, false)
  }

  /** The line that reports how the state refresh after a close frame ended (`None`: it succeeded). */
  function RefreshLine(refresh: Option<string>): Shown
  {
    match refresh
    case None => Shown("State updated successfully", false)
    case Some(error) => Shown("Error fetching state: " + error, false)
  }

  /** The lines a close frame adds, given how the state refresh that follows it ended. */
  function CloseLines(refresh: Option<string>): seq<Shown>
  {
    [Shown("Stream closed by server", false), Shown("Fetching updated game state...", false), RefreshLine(refresh)]
  }

  lemma CloseLinesAfter(t0: seq<Shown>, refresh: Option<string>)
    ensures t0 + [Shown("Stream closed by server", false)] + [Shown("Fetching updated game state...", false)] + [RefreshLine(refresh)]
      == t0 + CloseLines(refresh)
  {
  }

  /** A frame is the close event when it carries data and mentions `event: close`. */
  predicate IsClose(frame: string)
  {
    DataLine(frame).Some? && Contains(frame, CloseEvent)
  }

  /** The lines one frame adds. */
  function FrameLines(frame: string, refresh: Option<string>): seq<Shown>
  {
    match DataLine(frame)
    case None => []
    case Some(data) =>
      if Contains(frame, CloseEvent) then CloseLines(refresh)
      else
        var d := Display(data);
        if d.text != "" then [d] else []
  }

  /**
   * A frame without a data line adds nothing; the close event adds its three plain
   * lines and is never shown as data; any other frame adds its displayed payload
   * unless that is empty.
   */
  lemma FrameLinesSpec(frame: string, refresh: Option<string>)
    ensures DataLine(frame).None? ==> FrameLines(frame, refresh) == []
    ensures IsClose(frame) ==> FrameLines(frame, refresh) == CloseLines(refresh)
    ensures !IsClose(frame) ==> |FrameLines(frame, refresh)| <= 1
    ensures !IsClose(frame) && DataLine(frame).Some? ==>
      var d := Display(DataLine(frame).value);
      FrameLines(frame, refresh) == (if d.text == "" then [] else [d])
  {
  }

  /** The lines a run of frames adds, in order. */
  function Output(frames: seq<string>, refresh: Option<string>): seq<Shown>
  {
    if frames == [] then [] else Output(frames[..|frames| - 1], refresh) + FrameLines(frames[|frames| - 1], refresh)
  }

  /** Some frame of the run is the close event. */
  predicate AnyClose(frames: seq<string>)
  {
    frames != [] && (AnyClose(frames[..|frames| - 1]) || IsClose(frames[|frames| - 1]))
  }

  /** The lines as shown, without identifiers. */
  function Texts(lines: seq<OutputLine>): seq<Shown>
  {
    if lines == [] then [] else Texts(lines[..|lines| - 1]) + [Shown(lines[|lines| - 1].text, lines[|lines| - 1].isDebug)]
  }

  lemma TextsAppend(lines: seq<OutputLine>, line: OutputLine)
    ensures Texts(lines + [line]) == Texts(lines) + [Shown(line.text, line.isDebug)]
  {
    assert (lines + [line])[..|lines|] == lines;
  }

  /** One more frame adds its own lines after the others and is the close event or not. */
  lemma OutputStep(done: seq<string>, message: string, refresh: Option<string>)
    ensures Output(done + [message], refresh) == Output(done, refresh) + FrameLines(message, refresh)
    ensures AnyClose(done + [message]) <==> AnyClose(done) || IsClose(message)
  {
    var all := done + [message];
    assert all[..|all| - 1] == done;
  }

  /** The step of the frame loop: frame `k` adds its own lines and may be the close event. */
  lemma FramesStep(frames: seq<string>, k: nat, refresh: Option<string>)
    requires k < |frames|
    ensures Output(frames[..k + 1], refresh) == Output(frames[..k], refresh) + FrameLines(frames[k], refresh)
    ensures AnyClose(frames[..k + 1]) <==> AnyClose(frames[..k]) || IsClose(frames[k])
  {
    assert frames[..k + 1] == frames[..k] + [frames[k]];
    OutputStep(frames[..k], frames[k], refresh);
  }

  lemma Regroup(t0: seq<Shown>, done: seq<Shown>, f: seq<Shown>)
    ensures (t0 + done) + f == t0 + (done + f)
  {
  }

  class Console {
    var lines: seq<OutputLine>
    var counter: nat
    var loading: bool
    /** The text received but not yet framed. */
    var buffer: string

    /** The identifier counter is the number of lines and the lines are numbered in order. */
    ghost predicate Valid()
      reads this
    {
      counter == |lines| && forall i :: 0 <= i < |lines| ==> lines[i].id == i
    }

    constructor ()
      ensures Valid() && lines == [] && counter == 0 && !loading && buffer == ""
    {
      lines, counter, loading, buffer := [], 0, false, "";
    }

    /** Appends a line carrying the next identifier. */
    method AddLine(text: string, isDebug: bool)
      requires Valid()
      modifies this
      ensures Valid()
      ensures lines == old(lines) + [OutputLine(text, isDebug, old(counter))]
      ensures counter == old(counter) + 1
      ensures loading == old(loading) && buffer == old(buffer)
      ensures Texts(lines) == Texts(old(lines)) + [Shown(text, isDebug)]
    {
      TextsAppend(lines, OutputLine(text, isDebug, counter));
      lines := lines + [OutputLine(text, isDebug, counter)];
      counter := counter + 1;
    }

    /** A new turn clears the lines, restarts the numbering and starts loading with an empty buffer. */
    method StartTurn()
      modifies this
      ensures Valid() && lines == [] && counter == 0 && loading && buffer == ""
    {
      loading := true;
      lines := [];
      counter := 0;
      buffer := "";
    }

    /** The close event: the stream is reported closed, the state is refreshed and loading stops. */
    method HandleClose(refresh: Option<string>)
      requires Valid()
      modifies this
      ensures Valid() && buffer == old(buffer) && !loading
      ensures Texts(lines) == Texts(old(lines)) + CloseLines(refresh)
    {
      ghost var t0 := Texts(lines);
      AddLine("Stream closed by server", false);
      AddLine("Fetching updated game state...", false);
      match refresh {
        case None =>
          loading := false;
          AddLine("State updated successfully", false);
        case Some(error) =>
          AddLine("Error fetching state: " + error, false);
          loading := false;
      }
      CloseLinesAfter(t0, refresh);
    }

    /** Shows one complete frame. `refresh` is how the state refresh a close frame requests ends. */
    method HandleFrame(message: string, refresh: Option<string>)
      requires Valid()
      modifies this
      ensures Valid() && buffer == old(buffer)
      ensures Texts(lines) == Texts(old(lines)) + FrameLines(message, refresh)
      ensures loading == (old(loading) && !IsClose(message))
    {
      var dataMatch := DataLine(message);
      if dataMatch.Some? {
        if Contains(message, CloseEvent) {
          HandleClose(refresh);
        } else {
          var shown := Display(dataMatch.value);
          if shown.text != "" {
            AddLine(shown.text, shown.isDebug);
          }
        }
      }
    }

    /** Shows frame `k` of a run whose first `k` frames are shown already. */
    method HandleFrameAt(frames: seq<string>, k: nat, refresh: Option<string>, ghost t0: seq<Shown>, ghost loading0: bool)
      requires Valid() && k < |frames|
      requires Texts(lines) == t0 + Output(frames[..k], refresh)
      requires loading == (loading0 && !AnyClose(frames[..k]))
      modifies this
      ensures Valid() && buffer == old(buffer)
      ensures Texts(lines) == t0 + Output(frames[..k + 1], refresh)
      ensures loading == (loading0 && !AnyClose(frames[..k + 1]))
    {
      ghost var done := Output(frames[..k], refresh);
      ghost var f := FrameLines(frames[k], refresh);
      FramesStep(frames, k, refresh);
      HandleFrame(frames[k], refresh);
      Regroup(t0, done, f);
    }

    /** Shows complete frames in order. */
    method HandleFrames(frames: seq<string>, refresh: Option<string>)
      requires Valid()
      modifies this
      ensures Valid() && buffer == old(buffer)
      ensures Texts(lines) == Texts(old(lines)) + Output(frames, refresh)
      ensures loading == (old(loading) && !AnyClose(frames))
    {
      ghost var t0 := Texts(lines);
      ghost var loading0 := loading;
      assert frames[..0] == [];
      for k := 0 to |frames|
        invariant Valid() && buffer == old(buffer)
        invariant Texts(lines) == t0 + Output(frames[..k], refresh)
        invariant loading == (loading0 && !AnyClose(frames[..k]))
      {
        HandleFrameAt(frames, k, refresh, t0, loading0);
      }
      assert frames[..|frames|] == frames;
    }

    /**
     * One read of the response stream: the text is added to the buffer, every complete
     * frame is shown in order and the incomplete rest stays in the buffer. `refresh` is
     * how each state refresh requested by a close frame ends.
     */
    method Receive(text: string, refresh: Option<string>)
      requires Valid()
      modifies this
      ensures Valid()
      ensures var s := Split(old(buffer) + text);
        && Texts(lines) == Texts(old(lines)) + Output(s.0, refresh)
        && buffer == s.1
        && loading == (old(loading) && !AnyClose(s.0))
    {
      var frames, rest := Frames(buffer + text);
      HandleFrames(frames, refresh);
      buffer := rest;
    }

    /** The stream ended normally. */
    method Finish()
      modifies this
      ensures loading == false && lines == old(lines) && counter == old(counter) && buffer == old(buffer)
    {
      loading := false;
    }

    /** The request or the stream failed: the error is shown as one more line and loading stops. */
    method Fail(error: string)
      requires Valid()
      modifies this
      ensures Valid() && !loading && buffer == old(buffer)
      ensures lines == old(lines) + [OutputLine("Error: " + error, false, old(counter))]
    {
      AddLine("Error: " + error, false);
      loading := false;
    }
  }
}
