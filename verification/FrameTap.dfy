/**
 * Incremental framing (apps/gateway/src/proxy/core.ts, FrameTap), over decoded text: a stream of chunks is
 * re-cut at a delimiter, every non-blank frame is tapped for usage and, in transform mode, re-encoded.
 */
module FrameTap {
  import opened Wrappers

  /** A delimiter: SSE blocks end in a blank line, NDJSON lines in LF. */
  type Delimiter = d: string | d != "" witness "\n"

  predicate OccursAt(text: string, d: Delimiter, i: nat) { i + |d| <= |text| && text[i..i + |d|] == d }

  /** indexOf: the leftmost occurrence. */
  function IndexOf(text: string, d: Delimiter): (r: Option<nat>)
    ensures r.Some? ==> OccursAt(text, d, r.value) && forall j :: 0 <= j < r.value ==> !OccursAt(text, d, j)
    ensures r.None? ==> forall j: nat :: !OccursAt(text, d, j)
  {
    IndexFrom(text, d, 0)
  }

  function IndexFrom(text: string, d: Delimiter, from: nat): (r: Option<nat>)
    ensures r.Some? ==> from <= r.value && OccursAt(text, d, r.value) && forall j :: from <= j < r.value ==>
      !OccursAt(text, d, j)
    ensures r.None? ==> forall j: nat :: from <= j ==> !OccursAt(text, d, j)
    decreases |text| - from
  {
    if from + |d| > |text| then None
    else if OccursAt(text, d, from) then Some(from)
    else IndexFrom(text, d, from + 1)
  }

  /** The white space that trim() removes. */
  predicate IsSpace(c: char) {
    || c in {'\t', '\n', '\U{0B}', '\U{0C}', '\r', ' ', '\U{A0}', '\U{FEFF}', '\U{1680}'}
    || '\U{2000}' <= c <= '\U{200A}' || c in {'\U{2028}', '\U{2029}', '\U{202F}', '\U{205F}', '\U{3000}'}
  }

  /** Nothing is left of the frame once trimmed. */
  predicate Blank(frame: string) { forall i :: 0 <= i < |frame| ==> IsSpace(frame[i]) }

  /** The reference: the whole text split at leftmost delimiters. */
  function Split(text: string, d: Delimiter): seq<string>
    decreases |text|
  {
    match IndexOf(text, d)
    case None => [text]
    case Some(i) => [text[..i]] + Split(text[i + |d|..], d)
  }

  function NonBlank(frames: seq<string>): seq<string> {
    if frames == [] then [] else (if Blank(frames[0]) then [] else [frames[0]]) + NonBlank(frames[1..])
  }

  /** The frames a whole text carries. */
  function Frames(text: string, d: Delimiter): seq<string> { NonBlank(Split(text, d)) }

  function Concat(chunks: seq<string>): string { if chunks == [] then "" else chunks[0] + Concat(chunks[1..]) }

  /**
   * The two callbacks as one state machine: tapping and translating a frame moves a state, and the
   * translator returns text, or nothing when it throws. A tap that throws is a step that keeps the state.
   */
  datatype Handler<!S> = Handler(tap: (S, string) -> S, transform: Option<(S, string) -> (S, Option<string>)>) {
    /** One frame: the tap first, then the translation, a throw counting as "". */
    function Handle(s: S, frame: string): (S, string) {
      var tapped := tap(s, frame);
      match transform
      case None => (tapped, "")
      case Some(t) =>
        var (s', text) := t(tapped, frame);
        (s', if text.Some? then text.value else "")
    }

    function HandleAll(s: S, frames: seq<string>): (S, string) {
      if frames == [] then (s, "")
      else
        var (s1, out1) := Handle(s, frames[0]);
        var (s2, out2) := HandleAll(s1, frames[1..]);
        (s2, out1 + out2)
    }
  }

  lemma {:induction false} HandleConcat<S>(h: Handler<S>, s: S, a: seq<string>, b: seq<string>)
    ensures var (s1, out1) := h.HandleAll(s, a);
      var (s2, out2) := h.HandleAll(s1, b);
      h.HandleAll(s, a + b) == (s2, out1 + out2)
  {
    var (s1, out1) := h.HandleAll(s, a);
    var (s2, out2) := h.HandleAll(s1, b);
    if a == [] {
      assert a + b == b;
      assert out1 + out2 == out2;
    } else {
      assert (a + b)[1..] == a[1..] + b;
      var (t, head) := h.Handle(s, a[0]);
      HandleConcat(h, t, a[1..], b);
      assert out1 + out2 == head + (h.HandleAll(t, a[1..]).1 + out2);
    }
  }

  lemma {:induction false} NonBlankConcat(a: seq<string>, b: seq<string>)
    ensures NonBlank(a + b) == NonBlank(a) + NonBlank(b)
  {
    if a == [] {
      assert a + b == b;
    } else {
      assert (a + b)[1..] == a[1..] + b;
      NonBlankConcat(a[1..], b);
    }
  }

  /** A delimiter found in a prefix of the stream stays the leftmost one whatever arrives later. */
  lemma FoundStaysFound(text: string, more: string, d: Delimiter)
    requires IndexOf(text, d).Some?
    ensures IndexOf(text + more, d) == IndexOf(text, d)
  {
    var i := IndexOf(text, d).value;
    assert (text + more)[i..i + |d|] == text[i..i + |d|];
    assert OccursAt(text + more, d, i);
    forall j | 0 <= j < i ensures !OccursAt(text + more, d, j) {
      assert (text + more)[j..j + |d|] == text[j..j + |d|];
      assert !OccursAt(text, d, j);
    }
  }

  function Last(text: string, d: Delimiter): string { Split(text, d)[|Split(text, d)| - 1] }

  /** All pieces but the last, blanks dropped. */
  function Completed(text: string, d: Delimiter): seq<string> {
    NonBlank(Split(text, d)[..|Split(text, d)| - 1])
  }

  /** Taking one frame off the front. */
  lemma FirstFrame(text: string, d: Delimiter)
    requires IndexOf(text, d).Some?
    ensures var i := IndexOf(text, d).value;
      && Completed(text, d) == NonBlank([text[..i]]) + Completed(text[i + |d|..], d)
      && Last(text, d) == Last(text[i + |d|..], d)
  {
    var i := IndexOf(text, d).value;
    var rest := Split(text[i + |d|..], d);
    assert Split(text, d) == [text[..i]] + rest;
    assert Split(text, d)[..|rest|] == [text[..i]] + rest[..|rest| - 1];
    NonBlankConcat([text[..i]], rest[..|rest| - 1]);
  }

  lemma NothingCompleted(text: string, d: Delimiter)
    requires IndexOf(text, d).None?
    ensures Completed(text, d) == [] && Last(text, d) == text && Frames(text, d) == NonBlank([text])
  {
    assert Split(text, d)[..0] == [];
  }

  /** What the stream object holds: the pending text, the callbacks' state, and all it has handed on so far. */
  datatype Tap<S> = Tap(pending: string, state: S, tapped: seq<string>, written: string)

  /** One chunk. */
  function Feed<S>(h: Handler<S>, d: Delimiter, t: Tap<S>, chunk: string): Tap<S> {
    var done := Completed(t.pending + chunk, d);
    var (s, out) := h.HandleAll(t.state, done);
    Tap(Last(t.pending + chunk, d), s, t.tapped + done, t.written + if h.transform.Some? then out else chunk)
  }

  /** End of input: what is left is a last frame. */
  function Finish<S>(h: Handler<S>, t: Tap<S>): Tap<S> {
    var (s, out) := h.HandleAll(t.state, NonBlank([t.pending]));
    Tap(t.pending, s, t.tapped + NonBlank([t.pending]), t.written + out)
  }

  /** Where the frames still complete in the pending text will take the stream; `written` is this chunk's output. */
  ghost function Remaining<S>(h: Handler<S>, t: Tap<S>, d: Delimiter): Tap<S> {
    var (s, out) := h.HandleAll(t.state, Completed(t.pending, d));
    Tap(Last(t.pending, d), s, t.tapped + Completed(t.pending, d), t.written + out)
  }

  lemma FeedIsRemaining<S>(h: Handler<S>, d: Delimiter, t: Tap<S>, chunk: string)
    ensures var r := Remaining(h, Tap(t.pending + chunk, t.state, t.tapped, ""), d);
      Feed(h, d, t, chunk) == r.(written := t.written + if h.transform.Some? then r.written else chunk)
  {
    var out := h.HandleAll(t.state, Completed(t.pending + chunk, d)).1;
    assert "" + out == out;
  }

  /** Handling the first of them leads to the same place. */
  lemma HandleFirst<S>(h: Handler<S>, t: Tap<S>, d: Delimiter)
    requires IndexOf(t.pending, d).Some?
    ensures var i := IndexOf(t.pending, d).value;
      var frame := NonBlank([t.pending[..i]]);
      var (s, out) := h.HandleAll(t.state, frame);
      Remaining(h, Tap(t.pending[i + |d|..], s, t.tapped + frame, t.written + out), d) == Remaining(h, t, d)
  {
    var i := IndexOf(t.pending, d).value;
    var frame, rest := NonBlank([t.pending[..i]]), Completed(t.pending[i + |d|..], d);
    var (s, out) := h.HandleAll(t.state, frame);
    FirstFrame(t.pending, d);
    HandleConcat(h, t.state, frame, rest);
    Assoc(t.tapped, frame, rest);
    Assoc(t.written, out, h.HandleAll(s, rest).1);
  }

  lemma NothingRemains<S>(h: Handler<S>, t: Tap<S>, d: Delimiter)
    requires IndexOf(t.pending, d).None?
    ensures Remaining(h, t, d) == t
  {
    NothingCompleted(t.pending, d);
    assert t.written + "" == t.written;
  }

  lemma Assoc<T>(a: seq<T>, b: seq<T>, c: seq<T>)
    ensures a + b + c == a + (b + c)
  {}

  class FrameTap<!S> {
    const delimiter: Delimiter
    const handler: Handler<S>
    var pending: string
    var sawFirstByte: bool
    var state: S
    var firstByteCalls: nat
    var tapped: seq<string>
    var written: string

    ghost function Abs(): Tap<S>
      reads this
    {
      Tap(pending, state, tapped, written)
    }

    constructor (delimiter: Delimiter, handler: Handler<S>, state: S)
      ensures this.delimiter == delimiter && this.handler == handler
      ensures Abs() == Tap("", state, [], "") && !sawFirstByte && firstByteCalls == 0
    {
      this.delimiter, this.handler, this.state := delimiter, handler, state;
      pending, sawFirstByte, firstByteCalls, tapped, written := "", false, 0, [], "";
    }

    /** Hand one frame to the callbacks; a blank frame is skipped. */
    method TakeFrame(frame: string) returns (out: string)
      modifies this`state, this`tapped
      ensures tapped == old(tapped) + NonBlank([frame])
      ensures (state, out) == handler.HandleAll(old(state), NonBlank([frame]))
      ensures !Blank(frame) && handler.transform.None? ==> state == handler.tap(old(state), frame) && out == ""
      ensures !Blank(frame) && handler.transform.Some? ==>
        var (s, text) := handler.transform.value(handler.tap(old(state), frame), frame);
        state == s && out == if text.Some? then text.value else ""
      ensures Blank(frame) ==> state == old(state) && out == ""
    {
      out := "";
      assert [frame][1..] == [];
      if !Blank(frame) {
        var (s, text) := handler.Handle(state, frame);
        state, out := s, text;
        tapped := tapped + [frame];
        assert text + "" == text;
      }
    }

    /** The while loop of _transform: cut at the leftmost delimiter until none is left. */
    method Drain() returns (out: string)
      modifies this`pending, this`state, this`tapped
      ensures Tap(pending, state, tapped, out) == Remaining(handler, old(Tap(pending, state, tapped, "")), delimiter)
    {
      hide Remaining;
      out := "";
      ghost var t := Tap(pending, state, tapped, out);
      ghost var goal := Remaining(handler, t, delimiter);
      var index := IndexOf(pending, delimiter);
      while index.Some?
        invariant index == IndexOf(pending, delimiter)
        invariant t == Tap(pending, state, tapped, out) && Remaining(handler, t, delimiter) == goal
        decreases |pending|
      {
        HandleFirst(handler, t, delimiter);
        var frame := pending[..index.value];
        pending := pending[index.value + |delimiter|..];
        var text := TakeFrame(frame);
        out := out + text;
        t := Tap(pending, state, tapped, out);
        index := IndexOf(pending, delimiter);
      }
      NothingRemains(handler, t, delimiter);
    }

    /** _transform: the frames completed by this chunk are handled in order; the rest stays pending. */
    method Transform(chunk: string)
      modifies this
      ensures Abs() == Feed(handler, delimiter, old(Abs()), chunk)
      ensures sawFirstByte && firstByteCalls == old(firstByteCalls) + if old(sawFirstByte) then 0 else 1
    {
      hide Feed, Remaining;
      FeedIsRemaining(handler, delimiter, Abs(), chunk);
      if !sawFirstByte {
        sawFirstByte := true;
        firstByteCalls := firstByteCalls + 1;
      }
      pending := pending + chunk;
      var out := Drain();
      written := written + if handler.transform.Some? then out else chunk;
    }

    /** _flush */
    method Flush()
      modifies this`state, this`tapped, this`written
      ensures Abs() == Finish(handler, old(Abs()))
    {
      ghost var before := state;
      var out := TakeFrame(pending);
      if handler.transform.Some? {
        written := written + out;
      } else {
        PassthroughIsSilent(handler, before, NonBlank([pending]));
      }
    }
  }

  lemma {:induction false} PassthroughIsSilent<S>(h: Handler<S>, s: S, frames: seq<string>)
    requires h.transform.None?
    ensures h.HandleAll(s, frames).1 == ""
  {
    if frames != [] { PassthroughIsSilent(h, h.Handle(s, frames[0]).0, frames[1..]); }
  }

  // ----- a whole stream, however it is cut -----

  function FeedAll<S>(h: Handler<S>, d: Delimiter, t: Tap<S>, chunks: seq<string>): Tap<S>
    decreases |chunks|
  {
    if chunks == [] then t else FeedAll(h, d, Feed(h, d, t, chunks[0]), chunks[1..])
  }

  /** What is pending never holds a delimiter. */
  lemma {:induction false} LastIsOpen(text: string, d: Delimiter)
    ensures IndexOf(Last(text, d), d).None?
    decreases |text|
  {
    if IndexOf(text, d).Some? {
      FirstFrame(text, d);
      LastIsOpen(text[IndexOf(text, d).value + |d|..], d);
    }
  }

  /** Text that arrives later only ever extends the last piece. */
  lemma {:induction false} SplitExtends(text: string, more: string, d: Delimiter)
    ensures Frames(text + more, d) == Completed(text, d) + Frames(Last(text, d) + more, d)
    decreases |text|
  {
    if IndexOf(text, d).Some? {
      var i := IndexOf(text, d).value;
      FoundStaysFound(text, more, d);
      FirstFrame(text, d);
      assert (text + more)[..i] == text[..i];
      assert (text + more)[i + |d|..] == text[i + |d|..] + more;
      SplitExtends(text[i + |d|..], more, d);
      NonBlankConcat([text[..i]], Split(text[i + |d|..] + more, d));
    }
  }

  /** From any state without a pending delimiter, the rest of the stream is framed as if it came in one piece. */
  lemma {:induction false} FramedFrom<S>(h: Handler<S>, d: Delimiter, t: Tap<S>, chunks: seq<string>)
    requires IndexOf(t.pending, d).None?
    ensures var end := Finish(h, FeedAll(h, d, t, chunks));
      var frames := Frames(t.pending + Concat(chunks), d);
      && end.tapped == t.tapped + frames
      && end.state == h.HandleAll(t.state, frames).0
      && end.written == t.written + if h.transform.Some? then h.HandleAll(t.state, frames).1 else Concat(chunks)
    decreases |chunks|
  {
    if chunks == [] {
      assert t.pending + "" == t.pending;
      NothingCompleted(t.pending, d);
      if h.transform.None? { PassthroughIsSilent(h, t.state, NonBlank([t.pending])); }
    } else {
      var rest, text := Concat(chunks[1..]), t.pending + chunks[0];
      var t1 := Feed(h, d, t, chunks[0]);
      var done, later := Completed(text, d), Frames(Last(text, d) + rest, d);
      LastIsOpen(text, d);
      FramedFrom(h, d, t1, chunks[1..]);
      assert t.pending + Concat(chunks) == text + rest;
      SplitExtends(text, rest, d);
      HandleConcat(h, t.state, done, later);
      Assoc(t.tapped, done, later);
      Assoc(t.written, h.HandleAll(t.state, done).1, h.HandleAll(t1.state, later).1);
      Assoc(t.written, chunks[0], rest);
    }
  }

  /**
   * Whatever the cutting: the callbacks receive exactly the non-blank pieces of the whole text split at leftmost
   * delimiters, in order; passthrough output is the input, transformed output the translation of those frames.
   */
  lemma StreamIsFramed<S>(h: Handler<S>, d: Delimiter, s: S, chunks: seq<string>)
    ensures var end := Finish(h, FeedAll(h, d, Tap("", s, [], ""), chunks));
      var frames := Frames(Concat(chunks), d);
      && end.tapped == frames
      && end.state == h.HandleAll(s, frames).0
      && end.written == if h.transform.Some? then h.HandleAll(s, frames).1 else Concat(chunks)
  {
    assert "" + Concat(chunks) == Concat(chunks);
    FramedFrom(h, d, Tap("", s, [], ""), chunks);
  }

  /** Two cuttings of one text give the same usage state and the same output. */
  lemma ChunkingIsIrrelevant<S>(h: Handler<S>, d: Delimiter, s: S, a: seq<string>, b: seq<string>)
    requires Concat(a) == Concat(b)
    ensures var x, y :=
      Finish(h, FeedAll(h, d, Tap("", s, [], ""), a)), Finish(h, FeedAll(h, d, Tap("", s, [], ""), b));
      x.tapped == y.tapped && x.state == y.state && x.written == y.written
  {
    StreamIsFramed(h, d, s, a);
    StreamIsFramed(h, d, s, b);
  }

  /** Split loses nothing: joining the pieces with the delimiter gives the text back. */
  function Join(pieces: seq<string>, d: Delimiter): string
    requires pieces != []
  {
    if |pieces| == 1 then pieces[0] else pieces[0] + d + Join(pieces[1..], d)
  }

  lemma {:induction false} SplitJoins(text: string, d: Delimiter)
    ensures Join(Split(text, d), d) == text
    ensures forall k :: 0 <= k < |Split(text, d)| ==> IndexOf(Split(text, d)[k], d).None?
    decreases |text|
  {
    if IndexOf(text, d).Some? {
      var i := IndexOf(text, d).value;
      var rest := Split(text[i + |d|..], d);
      SplitJoins(text[i + |d|..], d);
      assert Split(text, d)[1..] == rest;
      assert text == text[..i] + d + text[i + |d|..];
      HeadIsOpen(text, d);
    }
  }

  /** The piece before the leftmost delimiter holds none. */
  lemma HeadIsOpen(text: string, d: Delimiter)
    requires IndexOf(text, d).Some?
    ensures IndexOf(text[..IndexOf(text, d).value], d).None?
  {
    var i := IndexOf(text, d).value;
    forall j: nat ensures !OccursAt(text[..i], d, j) {
      if j + |d| <= i {
        assert text[..i][j..j + |d|] == text[j..j + |d|];
        assert !OccursAt(text, d, j);
      }
    }
  }
}
