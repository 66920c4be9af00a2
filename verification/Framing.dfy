/** Newline-delimited frames with a size limit, read from whatever buffers the
    transport hands out. */
module Framing {
  import opened Text

  const MAX_RESPONSE_BYTES: nat := 256 * 1024
  const NEWLINE: byte := 10

  /** Two readers share the framing: Codex keeps the newline and refuses an
      unterminated tail, Grok drops the newline and returns the tail. */
  datatype Form = Codex | Grok

  datatype Ending = EndOfFile | ReadError

  datatype FrameResult =
    | Frame(bytes: Text)
    | NoFrame
    | TooLarge
    | Closed
    | IoFailed

  // ----- What the whole stream says -----

  /** Where the first newline is, or the length if there is none. */
  function LineEnd(stream: Text): (n: nat)
    ensures n <= |stream|
    ensures forall i :: 0 <= i < n ==> stream[i] != NEWLINE
    ensures n < |stream| ==> stream[n] == NEWLINE
  {
    if stream == [] || stream[0] == NEWLINE then 0 else 1 + LineEnd(stream[1..])
  }

  /** The line terminator counts against the limit only where it is kept. */
  function LineBytes(form: Form, line: nat): nat {
    if form.Codex? then line + 1 else line
  }

  /** The first read of a stream, and what is left after it. */
  function FirstRead(form: Form, stream: Text, ending: Ending): (FrameResult, Text) {
    var n := LineEnd(stream);
    if n < |stream| then
      if LineBytes(form, n) > MAX_RESPONSE_BYTES then (TooLarge, stream)
      else (Frame(stream[..LineBytes(form, n)]), stream[n+1..])
    else if |stream| > MAX_RESPONSE_BYTES then (TooLarge, stream)
    else if ending.ReadError? then (IoFailed, stream)
    else if stream == [] then (NoFrame, stream)
    else if form.Grok? then (Frame(stream), [])
    else (Closed, stream)
  }

  /** All frames up to the first read that yields none, that read, and what it
      left unread. */
  function AllReads(form: Form, stream: Text, ending: Ending): (seq<Text>, FrameResult, Text)
    decreases |stream|
  {
    var (first, rest) := FirstRead(form, stream, ending);
    if first.Frame? then
      var (frames, last, unread) := AllReads(form, rest, ending);
      ([first.bytes] + frames, last, unread)
    else ([], first, rest)
  }

  // ----- Splitting at newlines -----

  predicate IsLine(form: Form, frame: Text) {
    if form.Codex? then frame != [] && LineEnd(frame) == |frame| - 1
    else LineEnd(frame) == |frame|
  }

  function Terminated(form: Form, frame: Text): Text {
    if form.Codex? then frame else frame + [NEWLINE]
  }

  /** `frames` then `rest` is the stream, cut only at newlines, every frame
      within the limit. Only a Grok stream may end in an unterminated frame. */
  ghost predicate Splits(form: Form, stream: Text, ending: Ending, frames: seq<Text>, rest: Text) {
    if frames == [] then rest == stream
    else
      && |frames[0]| <= MAX_RESPONSE_BYTES
      && (|| (&& IsLine(form, frames[0])
              && Terminated(form, frames[0]) <= stream
              && Splits(form, stream[|Terminated(form, frames[0])|..], ending, frames[1..], rest))
          || (form.Grok? && ending.EndOfFile? && frames == [stream] && stream != [] && LineEnd(stream) == |stream| && rest == []))
  }

  /** Why reading stops at `rest`, where no further line can be returned. */
  predicate StopsAt(form: Form, rest: Text, ending: Ending, stop: FrameResult) {
    var n := LineEnd(rest);
    match stop
    case Frame(_) => false
    case TooLarge => (if n < |rest| then LineBytes(form, n) else n) > MAX_RESPONSE_BYTES
    case IoFailed => n == |rest| <= MAX_RESPONSE_BYTES && ending.ReadError?
    case NoFrame => rest == [] && ending.EndOfFile?
    case Closed => form.Codex? && rest != [] && n == |rest| <= MAX_RESPONSE_BYTES && ending.EndOfFile?
  }

  lemma LineEndOfPrefix(stream: Text, k: nat)
    requires k <= |stream|
    ensures LineEnd(stream[..k]) == Min(LineEnd(stream), k)
  {
    hide LineEnd;
    var n, m := LineEnd(stream), LineEnd(stream[..k]);
    assert m < k ==> stream[m] == NEWLINE;
    assert n < k ==> stream[..k][n] == NEWLINE;
  }

  lemma SplitsLine(form: Form, stream: Text, ending: Ending, frames: seq<Text>, rest: Text)
    requires LineEnd(stream) < |stream| && LineBytes(form, LineEnd(stream)) <= MAX_RESPONSE_BYTES
    requires Splits(form, stream[LineEnd(stream)+1..], ending, frames, rest)
    ensures Splits(form, stream, ending, [stream[..LineBytes(form, LineEnd(stream))]] + frames, rest)
  {
    hide LineEnd;
    var n := LineEnd(stream);
    var line := stream[..LineBytes(form, n)];
    LineEndOfPrefix(stream, LineBytes(form, n));
    assert Terminated(form, line) == stream[..n+1];
    assert ([line] + frames)[1..] == frames;
  }

  /** Reading is splitting the whole stream at newlines: the frames are its
      lines in order, and the last read says why there are no more. */
  lemma {:induction false} ReadsAreLines(form: Form, stream: Text, ending: Ending)
    ensures var (frames, stop, rest) := AllReads(form, stream, ending);
            Splits(form, stream, ending, frames, rest) && StopsAt(form, rest, ending, stop)
    decreases |stream|
  {
    hide LineEnd, Splits, StopsAt;
    var (first, after) := FirstRead(form, stream, ending);
    if !first.Frame? {
      LastRead(form, stream, ending);
    } else {
      ReadsAreLines(form, after, ending);
      var (frames, stop, rest) := AllReads(form, after, ending);
      if LineEnd(stream) < |stream| {
        SplitsLine(form, stream, ending, frames, rest);
      } else {
        GrokTail(stream, ending);
        assert [stream] + frames == [stream];
      }
    }
  }

  lemma LastRead(form: Form, stream: Text, ending: Ending)
    requires !FirstRead(form, stream, ending).0.Frame?
    ensures Splits(form, stream, ending, [], stream)
    ensures StopsAt(form, stream, ending, FirstRead(form, stream, ending).0)
  {
  }

  lemma GrokTail(stream: Text, ending: Ending)
    requires LineEnd(stream) == |stream| && FirstRead(Grok, stream, ending).0.Frame?
    ensures Splits(Grok, stream, ending, [stream], [])
    ensures AllReads(Grok, [], ending) == ([], NoFrame, [])
  {
  }

  lemma EndRead(form: Form, stream: Text, ending: Ending)
    requires LineEnd(stream) == |stream| <= MAX_RESPONSE_BYTES
    ensures FirstRead(form, stream, ending) ==
            if ending.ReadError? then (IoFailed, stream)
            else if stream == [] then (NoFrame, stream)
            else if form.Grok? then (Frame(stream), [])
            else (Closed, stream)
  {
    hide LineEnd;
  }

  lemma OverflowRead(form: Form, stream: Text, ending: Ending)
    requires LineEnd(stream) > MAX_RESPONSE_BYTES || (LineEnd(stream) < |stream| && LineBytes(form, LineEnd(stream)) > MAX_RESPONSE_BYTES)
    ensures FirstRead(form, stream, ending).0 == TooLarge
  {
    hide LineEnd;
  }

  lemma LineRead(form: Form, stream: Text, ending: Ending)
    requires LineEnd(stream) < |stream| && LineBytes(form, LineEnd(stream)) <= MAX_RESPONSE_BYTES
    ensures FirstRead(form, stream, ending) == (Frame(stream[..LineBytes(form, LineEnd(stream))]), stream[LineEnd(stream)+1..])
  {
    hide LineEnd;
  }

  // ----- The readers -----

  class BufReader {
    /** The buffers still to come; part of the first may be consumed. */
    var buffers: seq<Text>
    const ending: Ending

    constructor (buffers: seq<Text>, ending: Ending)
      requires forall i :: 0 <= i < |buffers| ==> buffers[i] != []
      ensures this.buffers == buffers && this.ending == ending && Valid()
    {
      this.buffers, this.ending := buffers, ending;
    }

    ghost predicate Valid()
      reads this
    {
      forall i :: 0 <= i < |buffers| ==> buffers[i] != []
    }

    /** Everything not consumed yet, however it is buffered. */
    ghost function Stream(): Text
      reads this
    {
      Concat(buffers)
    }

    /** `frame` was read off the front of `stream`, with no newline in it. */
    ghost predicate At(frame: Text, stream: Text)
      reads this
    {
      && Valid() && LineEnd(frame) == |frame| <= |stream|
      && frame == stream[..|frame|] && Stream() == stream[|frame|..]
    }

    lemma AtStart()
      requires Valid()
      ensures At([], Stream())
    {
    }

    lemma AtAgain(frame: Text, stream: Text)
      requires Valid() && LineEnd(frame) == |frame| <= |stream|
      requires frame == stream[..|frame|] && Stream() == stream[|frame|..]
      ensures At(frame, stream)
    {
      hide LineEnd, BufReader.Stream;
    }

    /** The bytes at hand, none at the end of the stream, and where their first
        newline is. */
    method FillBuf(ghost frame: Text, ghost stream: Text) returns (failed: bool, available: Text, newline: nat)
      requires At(frame, stream)
      ensures failed <==> buffers == [] && ending.ReadError?
      ensures if buffers == [] then available == [] && frame == stream && Stream() == [] else available == buffers[0] != []
      ensures Valid() && |frame| <= |stream| && newline == LineEnd(available) <= |available|
      ensures newline < |available| ==> LineEnd(stream) == |frame| + newline < |stream|
      ensures newline == |available| ==> LineEnd(frame + available) == |frame + available| <= LineEnd(stream)
    {
      hide LineEnd;
      failed := buffers == [] && ending.ReadError?;
      available := if buffers == [] then [] else buffers[0];
      newline := LineEnd(available);
      if buffers == [] {
        assert frame + [] == frame;
      } else {
        assert stream == frame + stream[|frame|..];
        ReadsOn(frame, available, Concat(buffers[1..]), stream);
      }
    }

    method Consume(n: nat, ghost frame: Text, ghost stream: Text)
      requires At(frame, stream) && buffers != [] && 0 < n <= |buffers[0]|
      modifies this
      ensures Valid()
      ensures |frame| + n <= |stream| && Stream() == stream[|frame| + n..]
      ensures frame + old(buffers[0])[..n] == stream[..|frame| + n]
    {
      hide LineEnd;
      ghost var had := Stream();
      var left := buffers[0][n..];
      assert buffers[0] == buffers[0][..n] + left;
      var rest := buffers[1..];
      Assoc(buffers[0][..n], left, Concat(rest));
      Advance(frame, buffers[0][..n], left + Concat(rest), stream);
      buffers := if left == [] then rest else [left] + rest;
      assert left != [] ==> buffers[1..] == rest;
      assert Stream() == left + Concat(rest);
    }

    /** One Codex read: the newline stays on the frame. */
    method ReadCodexFrame() returns (r: FrameResult)
      requires Valid()
      modifies this
      ensures Valid()
      ensures r == FirstRead(Codex, old(Stream()), ending).0
      ensures r.Frame? ==> Stream() == FirstRead(Codex, old(Stream()), ending).1
    {
      hide LineEnd, FirstRead, BufReader.Stream, BufReader.At;
      var frame: Text := [];
      ghost var stream := Stream();
      AtStart();
      while true
        invariant At(frame, stream) && |frame| <= MAX_RESPONSE_BYTES
        decreases |stream| - |frame|
      {
        var failed, available, newline := FillBuf(frame, stream);
        if failed || available == [] {
          EndRead(Codex, stream, ending);
          return if failed then IoFailed else if frame == [] then NoFrame else Closed;
        }
        var take := if newline < |available| then newline + 1 else newline;
        if SatAdd(|frame|, take) > MAX_RESPONSE_BYTES {
          OverflowRead(Codex, stream, ending);
          return TooLarge;
        }
        Consume(take, frame, stream);
        frame := frame + available[..take];
        if available[take - 1] == NEWLINE {
          LineRead(Codex, stream, ending);
          return Frame(frame);
        }
        assert available[..take] == available;
        AtAgain(frame, stream);
      }
    }

    /** One Grok read: the newline is dropped, a tail is returned. */
    method ReadGrokFrame() returns (r: FrameResult)
      requires Valid()
      modifies this
      ensures Valid()
      ensures r == FirstRead(Grok, old(Stream()), ending).0
      ensures r.Frame? ==> Stream() == FirstRead(Grok, old(Stream()), ending).1
    {
      hide LineEnd, FirstRead, BufReader.Stream, BufReader.At;
      var frame: Text := [];
      ghost var stream := Stream();
      AtStart();
      while true
        invariant At(frame, stream) && |frame| <= MAX_RESPONSE_BYTES
        decreases |stream| - |frame|
      {
        var failed, available, newline := FillBuf(frame, stream);
        if failed || available == [] {
          EndRead(Grok, stream, ending);
          return if failed then IoFailed else if frame == [] then NoFrame else Frame(frame);
        }
        var complete := newline < |available|;
        Consume(if complete then newline + 1 else newline, frame, stream);
        DropNewline(frame, available, newline, complete, stream);
        frame := frame + available[..newline];
        if |frame| > MAX_RESPONSE_BYTES {
          OverflowRead(Grok, stream, ending);
          return TooLarge;
        }
        if complete {
          LineRead(Grok, stream, ending);
          return Frame(frame);
        }
        assert available[..newline] == available;
        AtAgain(frame, stream);
      }
    }

    method ReadFrame(form: Form) returns (r: FrameResult)
      requires Valid()
      modifies this
      ensures Valid()
      ensures r == FirstRead(form, old(Stream()), ending).0
      ensures r.Frame? ==> Stream() == FirstRead(form, old(Stream()), ending).1
    {
      match form
      case Codex => r := ReadCodexFrame();
      case Grok => r := ReadGrokFrame();
    }

    /** Read until no frame comes: the result depends on the bytes alone, not on
        how they were buffered. */
    method ReadAll(form: Form) returns (frames: seq<Text>, last: FrameResult)
      requires Valid()
      modifies this
      ensures (frames, last) == (AllReads(form, old(Stream()), ending).0, AllReads(form, old(Stream()), ending).1)
    {
      frames := [];
      ghost var stream := Stream();
      while true
        invariant Valid()
        invariant AllReads(form, stream, ending).0 == frames + AllReads(form, Stream(), ending).0
        invariant AllReads(form, stream, ending).1 == AllReads(form, Stream(), ending).1
        decreases |Stream()|
      {
        ghost var before := Stream();
        var r := ReadFrame(form);
        if !r.Frame? {
          assert frames + [] == frames;
          return frames, r;
        }
        Assoc(frames, [r.bytes], AllReads(form, Stream(), ending).0);
        frames := frames + [r.bytes];
      }
    }
  }

  lemma DropNewline(frame: Text, available: Text, newline: nat, complete: bool, stream: Text)
    requires newline <= |available| && (complete ==> newline < |available|)
    requires var n := if complete then newline + 1 else newline;
             |frame| + n <= |stream| && frame + available[..n] == stream[..|frame| + n]
    ensures frame + available[..newline] == stream[..|frame| + newline]
  {
    var n := if complete then newline + 1 else newline;
    assert (frame + available[..n])[..|frame| + newline] == frame + available[..newline];
  }

  lemma Advance(frame: Text, chunk: Text, rest: Text, stream: Text)
    requires |frame| <= |stream| && frame == stream[..|frame|] && stream[|frame|..] == chunk + rest
    ensures |frame| + |chunk| <= |stream|
    ensures frame + chunk == stream[..|frame| + |chunk|] && rest == stream[|frame| + |chunk|..]
  {
  }

  /** Looking for the newline in the next buffer is looking for it in the
      stream. */
  lemma ReadsOn(frame: Text, available: Text, more: Text, stream: Text)
    requires stream == frame + (available + more) && LineEnd(frame) == |frame|
    ensures LineEnd(available) < |available| ==> LineEnd(stream) == |frame| + LineEnd(available)
    ensures LineEnd(available) == |available| ==> LineEnd(frame + available) == |frame + available| <= LineEnd(stream)
  {
    hide LineEnd;
    var n, m := LineEnd(stream), LineEnd(available);
    assert stream[|frame|..] == available + more;
    if m < |available| {
      assert stream[|frame| + m] == available[m] == NEWLINE;
      assert forall i :: |frame| <= i < |frame| + m ==> stream[i] == available[i - |frame|];
      assert forall i :: 0 <= i < |frame| ==> stream[i] == frame[i];
    } else {
      assert forall i :: 0 <= i < |frame + available| ==> stream[i] == (frame + available)[i];
    }
  }
}
