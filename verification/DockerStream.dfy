/**
 The stream of a docker exec: frames of an eight-byte header and a payload, the
 payload's length in the last four header bytes, most significant first. Stream
 1 is standard output, stream 2 standard error, and others are skipped.
 */
module DockerStream {
  import opened Wrappers

  newtype byte = x: int | 0 <= x < 256

  /** How a reader ends: at its end of file, or with another error. */
  datatype Ending = Eof | Broken(message: string)

  datatype ReadError = EndOfFile | UnexpectedEnd | Failed(message: string)

  datatype StreamError = BadHeader(cause: ReadError) | BadPayload(cause: ReadError)

  datatype Output = Output(stdout: seq<byte>, stderr: seq<byte>)

  // ------------------------------------------------------------------ reader

  /** A reader with the bytes still to come and what happens after them. */
  class Reader {
    var rest: seq<byte>
    const ending: Ending

    constructor (rest: seq<byte>, ending: Ending)
      ensures this.rest == rest && this.ending == ending
    {
      this.rest := rest;
      this.ending := ending;
    }

    /** io.ReadFull: fill the buffer, or use up the reader and say how it ended. */
    method ReadFull(buffer: array<byte>) returns (error: Option<ReadError>)
      modifies this`rest, buffer
      ensures error == ShortRead(old(rest), ending, buffer.Length)
      ensures error.None? ==> buffer[..] == old(rest)[..buffer.Length] && rest == old(rest)[buffer.Length..]
      ensures error.Some? ==> rest == []
      ensures error.Some? <==> |old(rest)| < buffer.Length
      ensures error.Some? && ending.Broken? ==> error.value == Failed(ending.message)
      ensures error.Some? && ending.Eof? ==> error.value == if old(rest) == [] then EndOfFile else UnexpectedEnd
    {
      if buffer.Length <= |rest| {
        forall i | 0 <= i < buffer.Length {
          buffer[i] := rest[i];
        }
        assert buffer[..] == rest[..buffer.Length];
        rest := rest[buffer.Length..];
        return None;
      }
      var none := rest == [];
      rest := [];
      match ending
      case Broken(message) => return Some(Failed(message));
      case Eof => return Some(if none then EndOfFile else UnexpectedEnd);
    }
  }

  /** Why n bytes cannot be read, if they cannot. */
  function ShortRead(input: seq<byte>, ending: Ending, n: nat): Option<ReadError> {
    if n <= |input| then None
    else if ending.Broken? then Some(Failed(ending.message))
    else Some(if input == [] then EndOfFile else UnexpectedEnd)
  }

  // ----------------------------------------------------------------- decoding

  function BigEndian(b: seq<byte>): (n: nat)
    requires |b| == 4
    ensures n < 0x1_0000_0000
  {
    0x100_0000 * b[0] as int + 0x1_0000 * b[1] as int + 0x100 * b[2] as int + b[3] as int
  }

  function Size(header: seq<byte>): nat
    requires |header| >= 8
  {
    BigEndian(header[4..8])
  }

  function Add(written: Output, stream: byte, payload: seq<byte>): Output {
    if stream == 1 then written.(stdout := written.stdout + payload)
    else if stream == 2 then written.(stderr := written.stderr + payload)
    else written
  }

  /** Demultiplexing the bytes of a reader, given what was written already. */
  function Demux(input: seq<byte>, ending: Ending, written: Output): Result<Output, StreamError>
    decreases |input|
  {
    if |input| < 8 then
      var cause := ShortRead(input, ending, 8).value;
      if cause.Failed? then Err(BadHeader(cause)) else Ok(written)
    else
      var size := Size(input);
      var rest := input[8..];
      if |rest| < size then Err(BadPayload(ShortRead(rest, ending, size).value))
      else Demux(rest[size..], ending, Add(written, input[0], rest[..size]))
  }

  method ReadDockerExecStream(r: Reader) returns (result: Result<Output, StreamError>)
    modifies r`rest
    ensures result == Demux(old(r.rest), r.ending, Output([], []))
  {
    var out, errBuf: seq<byte> := [], [];
    var header := new byte[8];
    while true
      invariant fresh(header) && header.Length == 8
      invariant Demux(r.rest, r.ending, Output(out, errBuf)) == Demux(old(r.rest), r.ending, Output([], []))
      decreases |r.rest|
    {
      ghost var input := r.rest;
      var error := r.ReadFull(header);
      if error.Some? {
        if error.value == EndOfFile || error.value == UnexpectedEnd {
          return Ok(Output(out, errBuf));
        }
        return Err(BadHeader(error.value));
      }
      assert header[..] == input[..8];
      var size := BigEndian(header[4..8]);
      assert header[4..8] == header[..][4..8] == input[4..8];
      if size == 0 {
        EmptyPayload(input, r.ending, Output(out, errBuf));
        continue;
      }
      var payload := new byte[size];
      error := r.ReadFull(payload);
      if error.Some? {
        return Err(BadPayload(error.value));
      }
      assert header[0] == header[..][0] == input[0];
      if header[0] == 1 {
        out := out + payload[..];
      } else if header[0] == 2 {
        errBuf := errBuf + payload[..];
      }
    }
  }

  lemma EmptyPayload(input: seq<byte>, ending: Ending, written: Output)
    requires |input| >= 8 && Size(input) == 0
    ensures Demux(input, ending, written) == Demux(input[8..], ending, written)
  {
    assert input[8..][0..] == input[8..];
    assert written.stdout + [] == written.stdout && written.stderr + [] == written.stderr;
    assert input[8..][..0] == [];
  }

  // ----------------------------------------------------------------- encoding

  /** A frame; the three bytes after the stream number are never looked at. */
  datatype Frame = Frame(stream: byte, padding: seq<byte>, payload: seq<byte>) {
    predicate Valid() {
      |padding| == 3 && |payload| < 0x1_0000_0000
    }
  }

  function FourBytes(n: nat): (b: seq<byte>)
    requires n < 0x1_0000_0000
    ensures |b| == 4
  {
    [(n / 0x100_0000) as byte, (n / 0x1_0000 % 0x100) as byte, (n / 0x100 % 0x100) as byte, (n % 0x100) as byte]
  }

  lemma BigEndianInverts(n: nat)
    requires n < 0x1_0000_0000
    ensures BigEndian(FourBytes(n)) == n
  {
    var a, b := n / 0x100, n / 0x1_0000;
    assert n == 0x100 * a + n % 0x100 && b == a / 0x100;
    assert a == 0x100 * b + a % 0x100;
    assert b == 0x100 * (b / 0x100) + b % 0x100 && b / 0x100 == n / 0x100_0000;
  }

  lemma FourBytesInverts(b: seq<byte>)
    requires |b| == 4
    ensures FourBytes(BigEndian(b)) == b
  {
    var n := BigEndian(b);
    var upper := 0x1_0000 * b[0] as int + 0x100 * b[1] as int + b[2] as int;
    var top := 0x100 * b[0] as int + b[1] as int;
    assert n == 0x100 * upper + b[3] as int;
    assert n / 0x100 == upper && n % 0x100 == b[3] as int;
    assert upper == 0x100 * top + b[2] as int;
    assert n / 0x1_0000 == upper / 0x100 == top;
    assert n / 0x100_0000 == top / 0x100 == b[0] as int;
  }

  function Encode(f: Frame): seq<byte>
    requires f.Valid()
  {
    [f.stream] + f.padding + FourBytes(|f.payload|) + f.payload
  }

  function EncodeAll(frames: seq<Frame>): seq<byte>
    requires forall f :: f in frames ==> f.Valid()
  {
    if frames == [] then [] else Encode(frames[0]) + EncodeAll(frames[1..])
  }

  /** The payloads of one stream, in order. */
  function Payloads(frames: seq<Frame>, stream: byte): seq<byte> {
    if frames == [] then []
    else (if frames[0].stream == stream then frames[0].payload else []) + Payloads(frames[1..], stream)
  }

  lemma EncodedShape(f: Frame, tail: seq<byte>)
    requires f.Valid()
    ensures var input := Encode(f) + tail;
            && |input| >= 8 && input[0] == f.stream && Size(input) == |f.payload|
            && |input[8..]| >= |f.payload| && input[8..][..|f.payload|] == f.payload
            && input[8..][|f.payload|..] == tail
  {
    var input := Encode(f) + tail;
    BigEndianInverts(|f.payload|);
    assert input[4..8] == FourBytes(|f.payload|);
    assert input[8..] == f.payload + tail;
  }

  // --------------------------------------------------------- the main results

  /** Whole frames at the front of a stream are delivered, whatever follows. */
  lemma {:induction false} WholeFrames(frames: seq<Frame>, tail: seq<byte>, ending: Ending, written: Output)
    requires forall f :: f in frames ==> f.Valid()
    ensures Demux(EncodeAll(frames) + tail, ending, written)
         == Demux(tail, ending, Output(written.stdout + Payloads(frames, 1), written.stderr + Payloads(frames, 2)))
  {
    if frames == [] {
      assert EncodeAll(frames) + tail == tail;
      assert written.stdout + [] == written.stdout && written.stderr + [] == written.stderr;
    } else {
      var f, more := frames[0], frames[1..];
      var next := EncodeAll(more) + tail;
      assert EncodeAll(frames) + tail == Encode(f) + next;
      OneFrame(f, next, ending, written);
      WholeFrames(more, tail, ending, Add(written, f.stream, f.payload));
      PayloadsAdd(f, more, frames, written);
    }
  }

  lemma OneFrame(f: Frame, next: seq<byte>, ending: Ending, written: Output)
    requires f.Valid()
    ensures Demux(Encode(f) + next, ending, written) == Demux(next, ending, Add(written, f.stream, f.payload))
  {
    EncodedShape(f, next);
  }

  lemma PayloadsAdd(f: Frame, more: seq<Frame>, frames: seq<Frame>, written: Output)
    requires frames != [] && f == frames[0] && more == frames[1..]
    ensures var one := Add(written, f.stream, f.payload);
            && one.stdout + Payloads(more, 1) == written.stdout + Payloads(frames, 1)
            && one.stderr + Payloads(more, 2) == written.stderr + Payloads(frames, 2)
  {
  }

  /** What a stream of whole frames and then fewer than eight bytes decodes to. */
  lemma DecodeInvertsEncode(frames: seq<Frame>, cut: seq<byte>, ending: Ending)
    requires forall f :: f in frames ==> f.Valid()
    requires |cut| < 8
    ensures Demux(EncodeAll(frames) + cut, ending, Output([], []))
         == if ending.Eof? then Ok(Output(Payloads(frames, 1), Payloads(frames, 2)))
            else Err(BadHeader(Failed(ending.message)))
  {
    WholeFrames(frames, cut, ending, Output([], []));
    assert [] + Payloads(frames, 1) == Payloads(frames, 1);
    assert [] + Payloads(frames, 2) == Payloads(frames, 2);
  }

  /** A stream that stops inside a payload is an error, whatever came before. */
  lemma CutPayloadIsError(frames: seq<Frame>, f: Frame, k: nat, ending: Ending)
    requires (forall g :: g in frames ==> g.Valid()) && f.Valid()
    requires 8 <= k < |Encode(f)|
    ensures Demux(EncodeAll(frames) + Encode(f)[..k], ending, Output([], [])).Err?
    ensures Demux(EncodeAll(frames) + Encode(f)[..k], ending, Output([], [])).error
         == BadPayload(if ending.Broken? then Failed(ending.message) else if k == 8 then EndOfFile else UnexpectedEnd)
  {
    var cut := Encode(f)[..k];
    EncodedShape(f, []);
    assert Encode(f) + [] == Encode(f);
    assert cut[4..8] == Encode(f)[4..8];
    WholeFrames(frames, cut, ending, Output([], []));
  }

  predicate CutInPayload(rest: seq<byte>) {
    |rest| >= 8 && |rest| < 8 + Size(rest)
  }

  /** Every input is whole frames and then a part of a header or of a frame. */
  lemma {:induction false} EveryInput(input: seq<byte>) returns (frames: seq<Frame>, rest: seq<byte>)
    ensures forall f :: f in frames ==> f.Valid()
    ensures input == EncodeAll(frames) + rest
    ensures |rest| < 8 || CutInPayload(rest)
    decreases |input|
  {
    if |input| < 8 || CutInPayload(input) {
      frames, rest := [], input;
      assert input == EncodeAll([]) + input;
    } else {
      var size := Size(input);
      var f := Frame(input[0], input[1..4], input[8..][..size]);
      var more;
      more, rest := EveryInput(input[8..][size..]);
      frames := [f] + more;
      assert frames[1..] == more;
      FourBytesInverts(input[4..8]);
      assert input == [input[0]] + input[1..4] + input[4..8] + input[8..][..size] + input[8..][size..];
      assert input == Encode(f) + input[8..][size..];
    }
  }

  /** Decoding succeeds on exactly the whole frames cut short of a header at the end of the file. */
  lemma DecodesIffWhole(input: seq<byte>, ending: Ending)
    ensures Demux(input, ending, Output([], [])).Ok?
       <==> ending.Eof? && exists frames: seq<Frame>, cut: seq<byte> ::
              (forall f :: f in frames ==> f.Valid()) && |cut| < 8 && input == EncodeAll(frames) + cut
  {
    var frames, rest := EveryInput(input);
    WholeFrames(frames, rest, ending, Output([], []));
    forall fs: seq<Frame>, cut: seq<byte>
      | (forall f :: f in fs ==> f.Valid()) && |cut| < 8 && input == EncodeAll(fs) + cut
      ensures ending.Eof? ==> Demux(input, ending, Output([], [])).Ok?
    {
      DecodeInvertsEncode(fs, cut, ending);
    }
  }
}
