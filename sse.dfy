/**
 * Server-sent-event framing as both client components read it: a growing text
 * buffer is cut at every blank line (`"\n\n"`) into frames, the incomplete tail is
 * kept for the next read, and a frame's payload is the first line matching the
 * multiline regular expression `/^data: (.*)$/m`.
 */
module Sse {
  import opened Wrappers
  import opened Text

  const Separator: string := "\n\n"
  const DataPrefix: string := "data: "
  const CloseEvent: string := "event: close"

  /** A blank line, the two line feeds that end a frame, starts at `i`. */
  predicate SepAt(s: string, i: int)
  {
    0 <= i && i + 1 < |s| && s[i] == '\n' && s[i + 1] == '\n'
  }

  /** The first blank line at or after `from`. */
  function FirstSep(s: string, from: nat): (r: Option<nat>)
    ensures r.Some? ==> from <= r.value && SepAt(s, r.value)
    decreases |s| - from
  {
    if from + 1 >= |s| then None
    else if SepAt(s, from) then Some(from)
    else FirstSep(s, from + 1)
  }

  /** A blank line is exactly an occurrence of the separator. */
  lemma SepAtOccurs(s: string, i: int)
    ensures SepAt(s, i) <==> OccursAt(s, Separator, i)
  {
    if 0 <= i && i + 2 <= |s| {
      var t := s[i..i + 2];
      assert t[0] == s[i] && t[1] == s[i + 1];
      if SepAt(s, i) {
        assert t == Separator;
      }
    }
  }

  /** Searching for a blank line is JavaScript's `indexOf('\n\n', from)`. */
  lemma {:induction false} FirstSepIsIndexFrom(s: string, from: nat)
    ensures FirstSep(s, from) == IndexFrom(s, Separator, from)
    decreases |s| - from
  {
    SepAtOccurs(s, from);
    if from + 1 < |s| && !SepAt(s, from) {
      FirstSepIsIndexFrom(s, from + 1);
    }
  }

  /** The complete frames at the front of `buffer`, in order, and the incomplete rest. */
  function Split(buffer: string): (r: (seq<string>, string))
    decreases |buffer|
  {
    match FirstSep(buffer, 0)
    case None => ([], buffer)
    case Some(i) =>
      var tail := Split(buffer[i + 2..]);
      ([buffer[..i]] + tail.0, tail.1)
  }

  /** A buffer whose first blank line is at `i` is that frame, then the frames after the blank line. */
  lemma SplitAt(buffer: string, i: nat)
    requires FirstSep(buffer, 0) == Some(i)
    ensures i + 2 <= |buffer|
    ensures Split(buffer) == ([buffer[..i]] + Split(buffer[i + 2..]).0, Split(buffer[i + 2..]).1)
  {
  }

  /** Frames written back out, each followed by its separator. */
  function Joined(frames: seq<string>): string
  {
    if frames == [] then "" else frames[0] + Separator + Joined(frames[1..])
  }

  /** Framing loses nothing: the frames rejoined, then the rest, are the buffer. */
  lemma {:induction false} SplitJoin(buffer: string)
    ensures Joined(Split(buffer).0) + Split(buffer).1 == buffer
    decreases |buffer|
  {
    match FirstSep(buffer, 0)
    case None =>
    case Some(i) =>
      var rest := buffer[i + 2..];
      SplitJoin(rest);
      SepAtOccurs(buffer, i);
      JoinFront(buffer, i, Split(rest).0, Split(rest).1);
  }

  /** A frame cut at a separator, followed by a rejoined tail, rebuilds the buffer. */
  lemma JoinFront(buffer: string, i: nat, frames: seq<string>, rest: string)
    requires i + 2 <= |buffer| && buffer[i..i + 2] == Separator
    requires Joined(frames) + rest == buffer[i + 2..]
    ensures Joined([buffer[..i]] + frames) + rest == buffer
  {
    var all := [buffer[..i]] + frames;
    assert all[1..] == frames;
    assert Joined(all) == buffer[..i] + Separator + Joined(frames);
    assert buffer == buffer[..i] + buffer[i..i + 2] + buffer[i + 2..];
  }

  /** No frame and no leftover contains a separator. */
  lemma {:induction false} SplitClean(buffer: string)
    ensures !Contains(Split(buffer).1, Separator)
    ensures forall k :: 0 <= k < |Split(buffer).0| ==> !Contains(Split(buffer).0[k], Separator)
    decreases |buffer|
  {
    FirstSepIsIndexFrom(buffer, 0);
    match FirstSep(buffer, 0)
    case None =>
    case Some(i) =>
      SplitAround(buffer, Separator, i);
      SplitClean(buffer[i + 2..]);
  }

  /** Text appended after a blank line does not move it. */
  lemma {:induction false} FirstSepAppend(x: string, y: string, from: nat, i: nat)
    requires FirstSep(x, from) == Some(i)
    ensures FirstSep(x + y, from) == Some(i)
    decreases |x| - from
  {
    assert (x + y)[from] == x[from] && (x + y)[from + 1] == x[from + 1];
    if !SepAt(x, from) {
      FirstSepAppend(x, y, from + 1, i);
    }
  }

  /** Reading more text never changes the frames already complete; it only extends the rest. */
  lemma {:induction false} SplitExtend(x: string, y: string)
    ensures Extends(x, y)
    decreases |x|
  {
    match FirstSep(x, 0)
    case None =>
      ExtendsWhole(x, y);
    case Some(i) =>
      SplitExtend(x[i + 2..], y);
      ExtendsFront(x, y, i);
  }

  /** Framing `x + y` keeps the frames of `x` and then frames what `x` left over, followed by `y`. */
  predicate Extends(x: string, y: string)
  {
    Split(x + y) == (Split(x).0 + Split(Split(x).1 + y).0, Split(Split(x).1 + y).1)
  }

  lemma ExtendsWhole(x: string, y: string)
    requires FirstSep(x, 0).None?
    ensures Extends(x, y)
  {
    assert Split(x) == ([], x);
    assert [] + Split(x + y).0 == Split(x + y).0;
  }

  lemma ExtendsFront(x: string, y: string, i: nat)
    requires FirstSep(x, 0) == Some(i) && Extends(x[i + 2..], y)
    ensures Extends(x, y)
  {
    var rest := x[i + 2..];
    FirstSepAppend(x, y, 0, i);
    SlicesOfAppend(x, y, i);
    SplitBefore(x, i, rest);
    SplitBefore(x + y, i, rest + y);
    Assemble(x[..i], Split(x), Split(x + y), Split(rest), Split(rest + y), Split(Split(rest).1 + y));
  }

  lemma SplitBefore(buffer: string, i: nat, tail: string)
    requires FirstSep(buffer, 0) == Some(i) && i + 2 <= |buffer| && buffer[i + 2..] == tail
    ensures Split(buffer) == ([buffer[..i]] + Split(tail).0, Split(tail).1)
  {
  }

  lemma Assemble<T>(f: T, sx: (seq<T>, T), sxy: (seq<T>, T), sr: (seq<T>, T), sry: (seq<T>, T), ty: (seq<T>, T))
    requires sx == ([f] + sr.0, sr.1) && sxy == ([f] + sry.0, sry.1) && sry == (sr.0 + ty.0, ty.1)
    ensures sx.1 == sr.1 && sxy == (sx.0 + ty.0, ty.1)
  {
    assert [f] + (sr.0 + ty.0) == ([f] + sr.0) + ty.0;
  }

  lemma SlicesOfAppend(x: string, y: string, i: nat)
    requires i + 2 <= |x|
    ensures (x + y)[..i] == x[..i] && (x + y)[i + 2..] == x[i + 2..] + y
  {
  }

  /** One read: the buffer grows by `text`, the new complete frames are emitted and the rest is kept. */
  function Feed(st: (seq<string>, string), text: string): (seq<string>, string)
  {
    var s := Split(st.1 + text);
    (st.0 + s.0, s.1)
  }

  /** The frames emitted and the buffer left after reading `chunks` one by one from an empty buffer. */
  function Fed(chunks: seq<string>): (seq<string>, string)
  {
    if chunks == [] then ([], "") else Feed(Fed(chunks[..|chunks| - 1]), chunks[|chunks| - 1])
  }

  /** How the stream is cut into network reads does not matter: the frames are those of the whole text. */
  lemma {:induction false} ChunkingIrrelevant(chunks: seq<string>)
    ensures Fed(chunks) == Split(Concat(chunks))
  {
    if chunks != [] {
      var init := chunks[..|chunks| - 1];
      ChunkingIrrelevant(init);
      SplitExtend(Concat(init), chunks[|chunks| - 1]);
    }
  }

  /**
   * One step of the client's scan: searching for the separator from `start` in the
   * whole buffer is framing the suffix `buffer[start..]`.
   */
  lemma SplitFrom(buffer: string, start: nat)
    requires start <= |buffer|
    ensures IndexFrom(buffer, Separator, start).None? ==> Split(buffer[start..]) == ([], buffer[start..])
    ensures IndexFrom(buffer, Separator, start).Some? ==>
      var e := IndexFrom(buffer, Separator, start).value;
      && start <= e && e + 2 <= |buffer|
      && Split(buffer[start..]) == ([buffer[start..e]] + Split(buffer[e + 2..]).0, Split(buffer[e + 2..]).1)
  {
    IndexFromShift(buffer, Separator, start);
    FirstSepIsIndexFrom(buffer[start..], 0);
    var r := IndexFrom(buffer, Separator, start);
    if r.Some? {
      var e := r.value;
      SplitAt(buffer[start..], e - start);
      assert buffer[start..][..e - start] == buffer[start..e];
      assert buffer[start..][e - start + 2..] == buffer[e + 2..];
    }
  }

  /** A scan that has emitted `done` and resumes at `start` has the frames of `buffer[start..]` still ahead. */
  predicate ScannedTo(buffer: string, start: nat, done: seq<string>)
  {
    start <= |buffer| && Split(buffer) == (done + Split(buffer[start..]).0, Split(buffer[start..]).1)
  }

  lemma ScanBegins(buffer: string)
    ensures ScannedTo(buffer, 0, [])
  {
    assert buffer[0..] == buffer;
    assert [] + Split(buffer).0 == Split(buffer).0;
  }

  /** The separator found at `end` closes the frame `buffer[start..end]`, and the scan resumes after it. */
  lemma ScanStep(buffer: string, start: nat, done: seq<string>, end: nat)
    requires ScannedTo(buffer, start, done)
    requires IndexFrom(buffer, Separator, start) == Some(end)
    ensures start <= end && end + 2 <= |buffer|
    ensures ScannedTo(buffer, end + 2, done + [buffer[start..end]])
  {
    SplitFrom(buffer, start);
    var rest := Split(buffer[end + 2..]);
    assert (done + [buffer[start..end]]) + rest.0 == done + ([buffer[start..end]] + rest.0);
  }

  /** With no separator left, the scan has emitted every frame and the rest is what remains. */
  lemma ScanEnds(buffer: string, start: nat, done: seq<string>)
    requires ScannedTo(buffer, start, done)
    requires IndexFrom(buffer, Separator, start).None?
    ensures Split(buffer) == (done, buffer[start..])
  {
    SplitFrom(buffer, start);
    assert done + [] == done;
  }

  /**
   * The clients' scan: from `start`, find the next separator with `indexOf`, take the
   * frame before it and resume after it; what follows the last separator is kept.
   */
  method Frames(buffer: string) returns (frames: seq<string>, rest: string)
    ensures (frames, rest) == Split(buffer)
  {
    var start: nat := 0;
    frames := [];
    ScanBegins(buffer);
    while true
      invariant ScannedTo(buffer, start, frames)
      decreases |buffer| - start
    {
      var found := IndexFrom(buffer, Separator, start);
      if found.None? {
        ScanEnds(buffer, start, frames);
        break;
      }
      var end := found.value;
      ScanStep(buffer, start, frames, end);
      frames := frames + [buffer[start..end]];
      start := end + 2;
    }
    rest := buffer[start..];
  }

  /** JavaScript line terminators, which end a line for `^`, `$` and `.` in a multiline regular expression. */
  predicate IsLineBreak(c: char)
  {
    c == '\n' || c == '\r' || c == '\U{2028}' || c == '\U{2029}'
  }

  /** `^` under the `m` flag: the start of the text or just after a line terminator. */
  predicate LineStart(s: string, p: int)
  {
    p == 0 || (0 < p <= |s| && IsLineBreak(s[p - 1]))
  }

  /** A line starting at `p` begins with `data: `. */
  predicate DataAt(s: string, p: int)
  {
    LineStart(s, p) && OccursAt(s, DataPrefix, p)
  }

  /** The end of the line running from `from`: the next line terminator or the end of the text. */
  function LineEnd(s: string, from: nat): (e: nat)
    requires from <= |s|
    ensures from <= e <= |s|
    decreases |s| - from
  {
    if from == |s| || IsLineBreak(s[from]) then from else LineEnd(s, from + 1)
  }

  /** The line ends at the first line terminator, or at the end of the text when there is none. */
  lemma {:induction false} LineEndSpec(s: string, from: nat)
    requires from <= |s|
    ensures LineEnd(s, from) == |s| || IsLineBreak(s[LineEnd(s, from)])
    ensures forall j :: from <= j < LineEnd(s, from) ==> !IsLineBreak(s[j])
    decreases |s| - from
  {
    if from < |s| && !IsLineBreak(s[from]) {
      LineEndSpec(s, from + 1);
    }
  }

  /** The leftmost data line at or after `from`. */
  function FirstData(s: string, from: nat): (r: Option<nat>)
    ensures r.Some? ==> from <= r.value && DataAt(s, r.value)
    decreases |s| - from
  {
    if from + |DataPrefix| > |s| then None
    else if DataAt(s, from) then Some(from)
    else FirstData(s, from + 1)
  }

  /** The data line found is the leftmost one, and none is found only when there is none. */
  lemma {:induction false} FirstDataSpec(s: string, from: nat)
    ensures FirstData(s, from).Some? ==> forall j :: from <= j < FirstData(s, from).value ==> !DataAt(s, j)
    ensures FirstData(s, from).None? ==> forall j :: from <= j ==> !DataAt(s, j)
    decreases |s| - from
  {
    if from + |DataPrefix| <= |s| && !DataAt(s, from) {
      FirstDataSpec(s, from + 1);
    }
  }

  /** `message.match(/^data: (.*)$/m)?.[1]`: the rest of the first line that starts with `data: `. */
  function DataLine(message: string): Option<string>
  {
    match FirstData(message, 0)
    case None => None
    case Some(p) => Some(message[p + |DataPrefix|..LineEnd(message, p + |DataPrefix|)])
  }

  /** Both directions of the match and what the captured payload is. */
  lemma DataLineSpec(message: string)
    ensures DataLine(message).Some? <==> exists p :: DataAt(message, p)
    ensures DataLine(message).Some? ==>
      var d := DataLine(message).value;
      && (forall j :: 0 <= j < |d| ==> !IsLineBreak(d[j]))
      && exists p :: DataAt(message, p) && StartsWith(message[p + |DataPrefix|..], d)
           && (p + |DataPrefix| + |d| == |message| || IsLineBreak(message[p + |DataPrefix| + |d|]))
  {
    FirstDataSpec(message, 0);
    match FirstData(message, 0)
    case None =>
    case Some(p) =>
      LineEndSpec(message, p + |DataPrefix|);
      var e := LineEnd(message, p + |DataPrefix|);
      var d := message[p + |DataPrefix|..e];
      assert message[p + |DataPrefix|..][..|d|] == d;
      forall j | 0 <= j < |d| ensures !IsLineBreak(d[j]) {
        assert d[j] == message[p + |DataPrefix| + j];
      }
  }

  /** A frame of one header line and one data line carries exactly the data line's text. */
  lemma DataAfterHeader(head: string, payload: string)
    requires forall j :: 0 <= j < |head| ==> !IsLineBreak(head[j])
    requires forall j :: 0 <= j < |payload| ==> !IsLineBreak(payload[j])
    requires !StartsWith(head, DataPrefix)
    ensures DataLine(head + "\n" + DataPrefix + payload) == Some(payload)
  {
    var s := head + "\n" + DataPrefix + payload;
    var p := |head| + 1;
    assert s[p..p + |DataPrefix|] == DataPrefix;
    forall j | 0 <= j < p
      ensures !DataAt(s, j)
    {
      if 0 < j {
        assert s[j - 1] == head[j - 1];
      } else if |head| >= |DataPrefix| {
        assert s[..|DataPrefix|] == head[..|DataPrefix|];
      } else {
        assert s[|head|] == '\n';
      }
    }
    assert FirstData(s, 0) == Some(p) by {
      FirstDataUnique(s, 0, p);
    }
    forall j | p + |DataPrefix| <= j < |s|
      ensures !IsLineBreak(s[j])
    {
      assert s[j] == payload[j - p - |DataPrefix|];
    }
    LineEndAtEnd(s, p + |DataPrefix|);
    assert DataLine(s) == Some(s[p + |DataPrefix|..LineEnd(s, p + |DataPrefix|)]);
    assert s[p + |DataPrefix|..|s|] == payload;
  }

  lemma {:induction false} FirstDataUnique(s: string, from: nat, p: nat)
    requires from <= p && DataAt(s, p)
    requires forall j :: from <= j < p ==> !DataAt(s, j)
    ensures FirstData(s, from) == Some(p)
    decreases p - from
  {
    if from < p {
      FirstDataUnique(s, from + 1, p);
    }
  }

  lemma {:induction false} LineEndAtEnd(s: string, from: nat)
    requires from <= |s|
    requires forall j :: from <= j < |s| ==> !IsLineBreak(s[j])
    ensures LineEnd(s, from) == |s|
    decreases |s| - from
  {
    if from < |s| {
      LineEndAtEnd(s, from + 1);
    }
  }
}
