/** Newline framing of the MCP bridge (crates/context-mcp/src/protocol.rs): a reader that may be abandoned
    between any two chunks and resumed with the same buffer, and a writer with the same size limit. */
module Framing {

  type Byte = bv8

  const LF: Byte := 10
  const CR: Byte := 13
  const MAX_FRAME: nat := 8 * 1024 * 1024

  // ----- The simple reading of a stream -----

  /** The position of the first LF, or the length when there is none. */
  function FirstLf(s: seq<Byte>): (n: nat)
    ensures n <= |s|
    ensures n < |s| ==> s[n] == LF
    ensures forall i | 0 <= i < n :: s[i] != LF
  {
    if s == [] || s[0] == LF then 0 else 1 + FirstLf(s[1..])
  }

  function DropCr(line: seq<Byte>): seq<Byte>
  {
    if line != [] && line[|line| - 1] == CR then line[..|line| - 1] else line
  }

  datatype Outcome = Frame(payload: seq<Byte>) | TooLarge

  function Bounded(payload: seq<Byte>): Outcome
  {
    if |payload| <= MAX_FRAME then Frame(payload) else TooLarge
  }

  /** Split at LF, drop one CR before it, stop at the first frame over the limit. A last line without its LF
      is a frame as it stands; the empty rest is the end of the stream. */
  function Frames(stream: seq<Byte>): seq<Outcome>
    decreases |stream|
  {
    var n := FirstLf(stream);
    if stream == [] then []
    else if n == |stream| then [Bounded(stream)]
    else
      var first := Bounded(DropCr(stream[..n]));
      if first.TooLarge? then [first] else [first] + Frames(stream[n + 1..])
  }

  // ----- The reader -----

  datatype ReadResult =
    | Message              // Ok(Some(())): the buffer holds a frame
    | EndOfStream          // Ok(None)
    | FrameTooLarge        // Err(FrameTooLarge), buffer cleared
    | Abandoned            // the future was dropped at an await point; the buffer keeps what was read

  predicate NoLf(s: seq<Byte>) { LF !in s }

  function Min(a: nat, b: nat): nat { if a <= b then a else b }

  /** Some poll of this read finds bytes waiting, or the end of the stream. */
  predicate Productive(chunks: seq<nat>) { exists k :: 0 <= k < |chunks| && chunks[k] > 0 }

  /** What `read_until` leaves in the buffer: a line with its LF, a full buffer without one, or the last line. */
  ghost predicate LineRead(line: seq<Byte>, rest: seq<Byte>)
  {
    || (line != [] && line[|line| - 1] == LF && NoLf(line[..|line| - 1]))
    || (NoLf(line) && |line| == MAX_FRAME + 2)
    || (NoLf(line) && rest == [])
  }

  lemma FirstLfAfter(body: seq<Byte>, rest: seq<Byte>)
    requires NoLf(body)
    ensures FirstLf(body + rest) == |body| + FirstLf(rest)
  {
    var s, n := body + rest, FirstLf(body + rest);
    assert n < |s| ==> s[n] == LF;
    assert forall i | 0 <= i < |rest| :: s[|body| + i] == rest[i];
  }

  lemma FramesOfLine(body: seq<Byte>, rest: seq<Byte>)
    requires NoLf(body)
    ensures var first := Bounded(DropCr(body));
            Frames(body + [LF] + rest) == [first] + if first.TooLarge? then [] else Frames(rest)
  {
    var stream := body + [LF] + rest;
    assert stream == body + ([LF] + rest);
    FirstLfAfter(body, [LF] + rest);
    assert stream[..|body|] == body && stream[|body| + 1..] == rest;
  }

  lemma FramesOfLastLine(line: seq<Byte>)
    requires NoLf(line) && line != []
    ensures Frames(line) == [Bounded(line)]
  {
  }

  lemma FramesOverLimit(line: seq<Byte>, rest: seq<Byte>)
    requires NoLf(line) && MAX_FRAME + 2 <= |line|
    ensures Frames(line + rest) == [TooLarge]
  {
    FirstLfAfter(line, rest);
    var n := FirstLf(line + rest);
    if n < |line + rest| {
      assert |DropCr((line + rest)[..n])| > MAX_FRAME;
    }
  }

  class Connection {
    const input: seq<Byte>
    var pos: nat
    var buffer: seq<Byte>

    /** Between calls the buffer is the start of an unfinished line. */
    ghost predicate Valid()
      reads this
    {
      pos <= |input| && NoLf(buffer)
    }

    /** Everything not yet delivered. */
    ghost function Remaining(): seq<Byte>
      requires pos <= |input|
      reads this
    {
      buffer + input[pos..]
    }

    constructor (stream: seq<Byte>)
      ensures Valid() && Remaining() == stream && input == stream && buffer == []
    {
      input, pos, buffer := stream, 0, [];
    }

    /** Takes what the transport has, up to and with the first newline. */
    method TakeChunk(size: nat) returns (found: bool, used: nat)
      requires Valid() && 0 < size <= |input| - pos
      modifies this
      ensures 0 < used <= size && pos == old(pos) + used <= |input| && |buffer| == |old(buffer)| + used
      ensures Remaining() == old(Remaining())
      ensures found ==> buffer[|buffer| - 1] == LF && NoLf(buffer[..|buffer| - 1])
      ensures !found ==> NoLf(buffer)
    {
      var available := input[pos..pos + size];
      var n := FirstLf(available);
      found := n < size;
      used := if found then n + 1 else size;
      assert buffer + input[pos..] == buffer + available[..used] + input[pos + used..];
      buffer := buffer + available[..used];
      pos := pos + used;
      if found {
        assert buffer[..|buffer| - 1] == old(buffer) + available[..n];
      }
    }

    /** `read_until(LF)` on the reader limited to `limit` bytes. `chunks` are the sizes the transport hands over
        (0: a poll that finds nothing yet); when they run out first, the future is dropped where it waits. */
    method ReadUntilLf(limit: nat, chunks: seq<nat>) returns (done: bool)
      requires Valid() && limit > 0 && |buffer| + limit == MAX_FRAME + 2
      modifies this
      ensures old(pos) <= pos <= |input| && Remaining() == old(Remaining())
      ensures |buffer| == |old(buffer)| + (pos - old(pos))
      ensures done ==> LineRead(buffer, input[pos..])
      ensures !done ==> Valid() && |buffer| < MAX_FRAME + 2
      ensures Productive(chunks) ==> old(pos) < pos || done
      ensures done && pos == old(pos) ==> pos == |input|
    {
      ghost var whole := Remaining();
      var left, k := limit, 0;
      done := false;
      while !done && k < |chunks|
        invariant k <= |chunks| && old(pos) <= pos <= |input| && Remaining() == whole
        invariant |buffer| + left == MAX_FRAME + 2 && pos - old(pos) == limit - left
        invariant !done ==> NoLf(buffer) && left > 0
        invariant done ==> LineRead(buffer, input[pos..])
        invariant done && pos == old(pos) ==> pos == |input|
        invariant old(pos) < pos || done || forall j | 0 <= j < k :: chunks[j] == 0
        decreases |chunks| - k, !done
      {
        var size := Min(Min(chunks[k], |input| - pos), left);
        k := k + 1;
        if pos == |input| {
          done := true;
        } else if size > 0 {
          var used;
          done, used := TakeChunk(size);
          left := left - used;
          done := done || left == 0;
        }
      }
    }

    /** `read_message`. */
    method ReadMessage(chunks: seq<nat>) returns (r: ReadResult)
      requires Valid()
      modifies this
      ensures pos <= |input|
      ensures r.Abandoned? ==> Valid() && Remaining() == old(Remaining()) && |buffer| < MAX_FRAME + 2
      ensures r.EndOfStream? ==> old(Remaining()) == [] && pos == |input| && buffer == []
      ensures r.Message? ==> Frames(old(Remaining())) == [Frame(buffer)] + Frames(input[pos..])
      ensures r.FrameTooLarge? ==> Frames(old(Remaining())) == [TooLarge] && buffer == []
      ensures old(pos) <= pos
      ensures Productive(chunks) ==> old(pos) < pos || !r.Abandoned?
      ensures r.Message? && pos == old(pos) ==> pos == |input| && old(buffer) != []
    {
      if MAX_FRAME + 2 <= |buffer| {
        FramesOverLimit(buffer, input[pos..]);
        buffer := [];
        return FrameTooLarge;
      }
      var done := ReadUntilLf(MAX_FRAME + 2 - |buffer|, chunks);
      if !done {
        return Abandoned;
      }
      if buffer == [] {
        return EndOfStream;
      }
      ghost var line, rest := buffer, input[pos..];
      if buffer[|buffer| - 1] == LF {
        buffer := buffer[..|buffer| - 1];
        assert line == buffer + [LF];
        FramesOfLine(buffer, rest);
        buffer := DropCr(buffer);
      } else if rest == [] {
        assert line + rest == line;
        FramesOfLastLine(line);
        assert [Bounded(line)] + Frames(rest) == [Bounded(line)];
      } else {
        FramesOverLimit(line, rest);
      }
      if MAX_FRAME < |buffer| {
        buffer := [];
        r := FrameTooLarge;
      } else {
        r := Message;
      }
    }

    /** The caller clears the buffer once it took a message. */
    method TakeMessage() returns (payload: seq<Byte>)
      requires pos <= |input|
      modifies this`buffer
      ensures payload == old(buffer) && Valid() && Remaining() == input[pos..] && buffer == []
    {
      payload := buffer;
      buffer := [];
    }
  }

  lemma Regroup(out: seq<Outcome>, next: Outcome, rest: seq<Outcome>)
    ensures out + ([next] + rest) == out + [next] + rest
  {
  }

  predicate AllProductive(attempts: seq<seq<nat>>)
  {
    forall i | 0 <= i < |attempts| :: Productive(attempts[i])
  }

  /** The server's reading loop over a whole stream: each element of `attempts` is one read, abandoned when its
      chunks run out. Whatever the schedule, what was delivered is a prefix of the simple split, and all of it
      once the loop ends; the loop ends if enough attempts find something to read. */
  method Serve(stream: seq<Byte>, attempts: seq<seq<nat>>) returns (out: seq<Outcome>, finished: bool)
    ensures out <= Frames(stream)
    ensures finished ==> out == Frames(stream)
    ensures |stream| + 2 <= |attempts| && AllProductive(attempts) ==> finished
  {
    var c := new Connection(stream);
    out, finished := [], false;
    ghost var lively := AllProductive(attempts);
    ghost var rest := Frames(stream);
    var i := 0;
    while i < |attempts| && !finished
      invariant i <= |attempts| && c.input == stream && c.Valid()
      invariant Frames(stream) == out + rest
      invariant rest == if finished then [] else Frames(c.Remaining())
      invariant lively && !finished ==> i <= c.pos + if c.pos == |stream| && c.buffer == [] then 1 else 0
      decreases |attempts| - i, !finished
    {
      assert lively ==> Productive(attempts[i]);
      var r := c.ReadMessage(attempts[i]);
      i := i + 1;
      match r {
        case Abandoned =>
        case EndOfStream =>
          finished := true;
        case FrameTooLarge =>
          out, rest, finished := out + [TooLarge], [], true;
        case Message =>
          var payload := c.TakeMessage();
          rest := Frames(c.Remaining());
          Regroup(out, Frame(payload), rest);
          out := out + [Frame(payload)];
      }
    }
  }

  // ----- The writer -----

  function Concat(pieces: seq<seq<Byte>>): seq<Byte>
  {
    if pieces == [] then [] else Concat(pieces[..|pieces| - 1]) + pieces[|pieces| - 1]
  }

  lemma {:induction false} ConcatPrefix(pieces: seq<seq<Byte>>, n: nat)
    requires n <= |pieces|
    ensures |Concat(pieces[..n])| <= |Concat(pieces)|
  {
    if n < |pieces| {
      ConcatPrefix(pieces[..|pieces| - 1], n);
      assert pieces[..|pieces| - 1][..n] == pieces[..n];
    } else {
      assert pieces[..n] == pieces;
    }
  }

  datatype Encoding = Encoded(bytes: seq<Byte>) | Oversized

  function Encode(payload: seq<Byte>): Encoding
  {
    if |payload| <= MAX_FRAME then Encoded(payload + [LF]) else Oversized
  }

  /** `BoundedWriter`: refuses the write that would pass the limit. */
  class BoundedWriter {
    var bytes: seq<Byte>

    constructor ()
      ensures bytes == []
    {
      bytes := [];
    }

    method Write(piece: seq<Byte>) returns (ok: bool)
      modifies this
      ensures ok == (|old(bytes)| + |piece| <= MAX_FRAME)
      ensures bytes == if ok then old(bytes) + piece else old(bytes)
    {
      if MAX_FRAME < |bytes| + |piece| {
        return false;
      }
      bytes := bytes + piece;
      return true;
    }
  }

  /** `encode_message`: however the serializer cuts the text, only its total length decides. */
  method EncodeMessage(pieces: seq<seq<Byte>>) returns (r: Encoding)
    ensures r == Encode(Concat(pieces))
  {
    var writer := new BoundedWriter();
    var i := 0;
    while i < |pieces|
      invariant i <= |pieces| && writer.bytes == Concat(pieces[..i]) && |writer.bytes| <= MAX_FRAME
    {
      var ok := writer.Write(pieces[i]);
      assert pieces[..i + 1][..i] == pieces[..i];
      if !ok {
        ConcatPrefix(pieces, i + 1);
        return Oversized;
      }
      i := i + 1;
    }
    assert pieces[..i] == pieces;
    return Encoded(writer.bytes + [LF]);
  }

  predicate EndsInCr(p: seq<Byte>) { p != [] && p[|p| - 1] == CR }

  /** What the writer puts on the wire for a conversation: each message as encoded, and nothing for one refused. */
  function EncodeAll(ps: seq<seq<Byte>>): seq<Byte>
  {
    if ps == [] then []
    else (if Encode(ps[0]).Encoded? then Encode(ps[0]).bytes else []) + EncodeAll(ps[1..])
  }

  /** One encoded message, whatever follows it on the wire, is read back as one frame and leaves what follows. */
  lemma EncodedIsOneFrame(p: seq<Byte>, rest: seq<Byte>)
    requires NoLf(p) && Encode(p).Encoded?
    ensures Frames(Encode(p).bytes + rest) == [Frame(DropCr(p))] + Frames(rest)
    ensures !EndsInCr(p) ==> Frames(Encode(p).bytes + rest) == [Frame(p)] + Frames(rest)
  {
    FramesOfLine(p, rest);
  }

  function Delivered(ps: seq<seq<Byte>>): seq<Outcome>
  {
    if ps == [] then [] else [Frame(ps[0])] + Delivered(ps[1..])
  }

  /** Reading back a conversation of newline-free payloads within the limit is the identity exactly when none
      of them ends in CR. */
  lemma {:induction false} RoundTrip(ps: seq<seq<Byte>>)
    requires forall p | p in ps :: NoLf(p) && Encode(p).Encoded?
    ensures Frames(EncodeAll(ps)) == Delivered(ps) <==> forall p | p in ps :: !EndsInCr(p)
  {
    if ps != [] {
      var p, rest := ps[0], ps[1..];
      assert ps == [p] + rest;
      EncodedIsOneFrame(p, EncodeAll(rest));
      RoundTrip(rest);
      var back := Frames(EncodeAll(ps));
      assert back[0] == Frame(DropCr(p)) && back[1..] == Frames(EncodeAll(rest));
      assert Delivered(ps)[0] == Frame(p) && Delivered(ps)[1..] == Delivered(rest);
      if back == Delivered(ps) {
        assert back[1..] == Delivered(rest);
      }
    }
  }

  /** The two sides share one limit: a payload the reader would return unchanged is one the writer accepts,
      and conversely. */
  lemma SameLimit(p: seq<Byte>)
    requires NoLf(p) && !EndsInCr(p)
    ensures Encode(p).Encoded? <==> Frames(p + [LF]) == [Frame(p)]
    ensures Encode(p).Oversized? <==> Frames(p + [LF]) == [TooLarge]
    ensures Encode(p).Encoded? ==> Frames(Encode(p).bytes) == [Frame(p)]
  {
    FramesOfLine(p, []);
    assert p + [LF] + [] == p + [LF];
    assert Frames(p + [LF]) == [Bounded(p)];
  }

  /** A payload ending in CR comes back one byte short, whatever precedes the CR. */
  lemma TrailingCrIsLost(body: seq<Byte>)
    requires NoLf(body) && |body| < MAX_FRAME
    ensures Frames(EncodeAll([body + [CR]])) == [Frame(body)] != Delivered([body + [CR]])
  {
    var line := body + [CR];
    EncodedIsOneFrame(line, []);
    assert EncodeAll([line]) == Encode(line).bytes + [];
    assert DropCr(line) == body;
    assert Delivered([line])[0] == Frame(line) && |line| != |body|;
  }

  const CLOSING_BRACE: Byte := 0x7d

  /** The text of a JSON-RPC message: one object on one line, so that its last byte closes it. */
  predicate MessageText(p: seq<Byte>) { NoLf(p) && p != [] && p[|p| - 1] == CLOSING_BRACE }

  /** So every conversation of messages as `encode_message` writes them is read back as it was sent. */
  lemma EncodedMessagesRoundTrip(ps: seq<seq<Byte>>)
    requires forall p | p in ps :: MessageText(p) && Encode(p).Encoded?
    ensures Frames(EncodeAll(ps)) == Delivered(ps)
  {
    RoundTrip(ps);
  }
}
