// Multiplexing frames: validation, encoding, and reading them back from a byte
// stream that arrives in chunks of any size.
module Frames {
  import opened Bytes

  const HEADER_SIZE: nat := 9
  const MAX_DATA_PAYLOAD: nat := 16 * 1024
  const MAX_ERROR_PAYLOAD: nat := 256
  const MAX_SELECTOR: nat := 128

  const OPEN: byte := 1
  const OPEN_OK: byte := 2
  const OPEN_ERROR: byte := 3
  const DATA: byte := 4
  const WINDOW_UPDATE: byte := 5
  const FIN: byte := 6
  const RESET: byte := 7
  const SERVICE_LIST: byte := 8

  type Word = n: nat | n < 0x1_0000_0000

  datatype Frame = Frame(kind: byte, stream: Word, payload: seq<byte>)

  datatype FrameError = ErrInvalidFrame | ErrFrameTooLarge | EndOfStream | UnexpectedEnd

  datatype Verdict = Valid | Bad(error: FrameError)

  function Validate(f: Frame): Verdict {
    if f.stream == 0 && f.kind != SERVICE_LIST then Bad(ErrInvalidFrame)
    else if f.kind == OPEN_OK || f.kind == FIN then
      if f.payload != [] then Bad(ErrInvalidFrame) else Valid
    else if f.kind == OPEN then
      if |f.payload| > MAX_SELECTOR then Bad(ErrInvalidFrame) else Valid
    else if f.kind == OPEN_ERROR || f.kind == RESET then
      if |f.payload| > MAX_ERROR_PAYLOAD then Bad(ErrFrameTooLarge) else Valid
    else if f.kind == SERVICE_LIST then
      if f.payload == [] then Bad(ErrInvalidFrame) else Valid
    else if f.kind == DATA then
      if f.payload == [] || |f.payload| > MAX_DATA_PAYLOAD then Bad(ErrInvalidFrame) else Valid
    else if f.kind == WINDOW_UPDATE then
      if |f.payload| != 4 || FromBigEndian(f.payload) == 0 then Bad(ErrInvalidFrame) else Valid
    else Bad(ErrInvalidFrame)
  }

  function WindowUpdate(stream: Word, amount: Word): Frame {
    Frame(WINDOW_UPDATE, stream, BigEndian(amount, 4))
  }

  function WindowAmount(f: Frame): nat {
    if f.kind != WINDOW_UPDATE || |f.payload| != 4 then 0 else FromBigEndian(f.payload)
  }

  // The amount survives the wire, and a non-zero one is a valid frame.
  lemma WindowUpdateCarriesAmount(stream: Word, amount: Word)
    ensures WindowAmount(WindowUpdate(stream, amount)) == amount
    ensures stream != 0 && amount != 0 ==> Validate(WindowUpdate(stream, amount)) == Valid
  {
    Widths();
    DecodeInvertsEncode(amount, 4);
  }

  // The payload lengths of each frame type, from 1 (OPEN) to 8 (SERVICE_LIST); a list
  // has no upper bound.
  const SHORTEST: seq<nat> := [0, 0, 0, 1, 4, 0, 0, 1]
  const LONGEST: seq<nat> := [128, 0, 256, 16384, 4, 0, 256, 0]

  // A frame is valid exactly if its type is known, its stream is not 0 unless it is a
  // service list, its payload has a length its type may have, and credit is not nothing.
  lemma ValidExactly(f: Frame)
    ensures Validate(f) == Valid
            <==> && 1 <= f.kind <= 8 && (f.stream == 0 ==> f.kind == 8)
                 && SHORTEST[f.kind - 1] <= |f.payload| && (f.kind == 8 || |f.payload| <= LONGEST[f.kind - 1])
                 && (f.kind == 5 ==> FromBigEndian(f.payload) > 0)
  {}

  // ---- The byte format -----------------------------------------------------

  function Encode(f: Frame): seq<byte> {
    [f.kind] + BigEndian(f.stream, 4) + BigEndian(|f.payload|, 4) + f.payload
  }

  datatype Decoded = Got(frame: Frame, rest: seq<byte>) | Broken(error: FrameError)

  function Shortage(available: nat): FrameError {
    if available == 0 then EndOfStream else UnexpectedEnd
  }

  function Decode(s: seq<byte>): Decoded {
    if |s| < HEADER_SIZE then Broken(Shortage(|s|))
    else
      var length := FromBigEndian(s[5..9]);
      if length > MAX_DATA_PAYLOAD then Broken(ErrFrameTooLarge)
      else if |s| < HEADER_SIZE + length then Broken(Shortage(|s| - HEADER_SIZE))
      else
        Widths();
        var f := Frame(s[0], FromBigEndian(s[1..5]), s[9..9 + length]);
        if Validate(f).Bad? then Broken(Validate(f).error) else Got(f, s[9 + length..])
  }

  // What one frame's reader can hand over: valid, and small enough to read.
  predicate Readable(f: Frame) {
    Validate(f) == Valid && |f.payload| <= MAX_DATA_PAYLOAD
  }

  // Type, stream, length and payload stand at their byte positions.
  lemma FrameLayout(f: Frame)
    requires |f.payload| < 0x1_0000_0000
    ensures var s := Encode(f);
            && |s| == 9 + |f.payload| && s[0] == f.kind && FromBigEndian(s[1..5]) == f.stream
            && FromBigEndian(s[5..9]) == |f.payload| && s[9..] == f.payload
  {
    Widths();
    var s := Encode(f);
    assert s[1..5] == BigEndian(f.stream, 4) && s[5..9] == BigEndian(|f.payload|, 4);
    DecodeInvertsEncode(f.stream, 4);
    DecodeInvertsEncode(|f.payload|, 4);
  }

  lemma DecodeEncode(f: Frame, rest: seq<byte>)
    requires Readable(f)
    ensures Decode(Encode(f) + rest) == Got(f, rest)
  {
    Widths();
    var s := Encode(f) + rest;
    assert s[1..5] == BigEndian(f.stream, 4);
    assert s[5..9] == BigEndian(|f.payload|, 4);
    DecodeInvertsEncode(f.stream, 4);
    DecodeInvertsEncode(|f.payload|, 4);
    assert s[9..9 + |f.payload|] == f.payload;
    assert s[9 + |f.payload|..] == rest;
  }

  lemma EncodeDecode(s: seq<byte>)
    requires Decode(s).Got?
    ensures Encode(Decode(s).frame) + Decode(s).rest == s
    ensures Readable(Decode(s).frame)
  {
    EncodeInvertsDecode(s[1..5]);
    EncodeInvertsDecode(s[5..9]);
    var f := Decode(s).frame;
    assert s == [s[0]] + s[1..5] + s[5..9] + s[9..9 + |f.payload|] + s[9 + |f.payload|..];
  }

  // A service list over 16 KiB passes validation, but no reader takes it.
  lemma OversizedListIsUnreadable(f: Frame, rest: seq<byte>)
    requires Validate(f) == Valid && |f.payload| < 0x1_0000_0000
    ensures Decode(Encode(f) + rest).Got? <==> |f.payload| <= MAX_DATA_PAYLOAD
    ensures |f.payload| > MAX_DATA_PAYLOAD ==> f.kind == SERVICE_LIST && Decode(Encode(f) + rest) == Broken(ErrFrameTooLarge)
  {
    Widths();
    if |f.payload| <= MAX_DATA_PAYLOAD {
      DecodeEncode(f, rest);
    } else {
      var s := Encode(f) + rest;
      assert s[5..9] == BigEndian(|f.payload|, 4);
      DecodeInvertsEncode(|f.payload|, 4);
    }
  }

  // ---- Whole streams -------------------------------------------------------

  function EncodeAll(frames: seq<Frame>): seq<byte> {
    if frames == [] then [] else Encode(frames[0]) + EncodeAll(frames[1..])
  }

  // The frames of a stream up to the first error, and that error.
  function DecodeAll(s: seq<byte>): (seq<Frame>, FrameError)
    decreases |s|
  {
    match Decode(s)
    case Broken(error) => ([], error)
    case Got(f, rest) =>
      var (frames, error) := DecodeAll(rest);
      ([f] + frames, error)
  }

  lemma {:induction false} StreamRoundTrip(frames: seq<Frame>)
    requires forall i :: 0 <= i < |frames| ==> Readable(frames[i])
    ensures DecodeAll(EncodeAll(frames)) == (frames, EndOfStream)
  {
    if frames == [] {
    } else {
      DecodeEncode(frames[0], EncodeAll(frames[1..]));
      StreamRoundTrip(frames[1..]);
      assert frames == [frames[0]] + frames[1..];
    }
  }

  // What was read, written again, is the start of the stream.
  lemma {:induction false} ReadFramesAreThePrefix(s: seq<byte>)
    ensures EncodeAll(DecodeAll(s).0) <= s
    ensures forall i :: 0 <= i < |DecodeAll(s).0| ==> Readable(DecodeAll(s).0[i])
    decreases |s|
  {
    if Decode(s).Got? {
      EncodeDecode(s);
      ReadFramesAreThePrefix(Decode(s).rest);
      var (frames, _) := DecodeAll(Decode(s).rest);
      assert ([Decode(s).frame] + frames)[1..] == frames;
    }
  }

  // ---- Readers and writers -------------------------------------------------

  function Flatten(chunks: seq<seq<byte>>): seq<byte> {
    if chunks == [] then [] else chunks[0] + Flatten(chunks[1..])
  }

  datatype Reading = Took(frame: Frame) | Ended(error: FrameError)

  // A reader that hands over at most one chunk per call; chunks may be empty.
  class Source {
    var chunks: seq<seq<byte>>

    function Bytes(): seq<byte>
      reads this
    {
      Flatten(chunks)
    }

    constructor (chunks: seq<seq<byte>>)
      ensures this.chunks == chunks
    {
      this.chunks := chunks;
    }

    method Read(limit: nat) returns (p: seq<byte>, end: bool)
      requires limit > 0
      modifies this
      ensures |p| <= limit && old(Bytes()) == p + Bytes()
      ensures end <==> old(chunks) == []
      ensures !end ==> |chunks| < |old(chunks)| || (|chunks| == |old(chunks)| && |p| == limit)
      ensures end ==> p == [] && chunks == []
    {
      if chunks == [] {
        return [], true;
      }
      var first := chunks[0];
      if |first| <= limit {
        p, chunks := first, chunks[1..];
      } else {
        p := first[..limit];
        chunks := [first[limit..]] + chunks[1..];
        assert first == p + first[limit..];
      }
      end := false;
    }

    // Read exactly `limit` bytes, or to the end of the stream.
    method ReadFull(limit: nat) returns (p: seq<byte>, short: bool)
      modifies this
      ensures old(Bytes()) == p + Bytes()
      ensures short <==> |old(Bytes())| < limit
      ensures !short ==> |p| == limit
      ensures short ==> p == old(Bytes())
    {
      p, short := [], false;
      while |p| < limit
        invariant |p| <= limit && old(Bytes()) == p + Bytes()
        decreases limit - |p|, |chunks|
      {
        var q, end := Read(limit - |p|);
        if end {
          return p, true;
        }
        p := p + q;
      }
    }

    method ReadFrame() returns (r: Reading)
      modifies this
      ensures match Decode(old(Bytes()))
              case Got(f, rest) => r == Took(f) && Bytes() == rest
              case Broken(error) => r == Ended(error)
    {
      ghost var s := Bytes();
      var header, short := ReadFull(HEADER_SIZE);
      if short {
        return Ended(Shortage(|header|));
      }
      assert header == s[..9] && Bytes() == s[9..];
      assert header[5..9] == s[5..9] && header[1..5] == s[1..5];
      var length := FromBigEndian(header[5..9]);
      if length > MAX_DATA_PAYLOAD {
        return Ended(ErrFrameTooLarge);
      }
      var payload;
      payload, short := ReadFull(length);
      if short {
        return Ended(Shortage(|payload|));
      }
      assert payload == s[9..9 + length] && Bytes() == s[9 + length..];
      Widths();
      var f := Frame(header[0], FromBigEndian(header[1..5]), payload);
      if Validate(f).Bad? {
        return Ended(Validate(f).error);
      }
      r := Took(f);
    }

    // The read loop: frames until the first error.
    method ReadFrames() returns (frames: seq<Frame>, error: FrameError)
      modifies this
      ensures (frames, error) == DecodeAll(old(Bytes()))
    {
      frames := [];
      ghost var all := DecodeAll(Bytes());
      assert [] + all.0 == all.0;
      while true
        invariant (frames + DecodeAll(Bytes()).0, DecodeAll(Bytes()).1) == all
        decreases |Bytes()|
      {
        ghost var s := Bytes();
        var r := ReadFrame();
        if r.Ended? {
          assert frames + [] == frames;
          return frames, r.error;
        }
        assert frames + DecodeAll(s).0 == frames + [r.frame] + DecodeAll(Bytes()).0;
        frames := frames + [r.frame];
      }
    }
  }

  // A writer that may accept part of what it is given: each call follows the
  // next number of the plan; None is an error, an empty plan accepts all.
  datatype Accepts = Upto(n: nat) | Error

  class Sink {
    var data: seq<byte>
    var plan: seq<Accepts>

    constructor (plan: seq<Accepts>)
      ensures data == [] && this.plan == plan
    {
      data, this.plan := [], plan;
    }

    method Write(p: seq<byte>) returns (n: nat, ok: bool)
      modifies this
      ensures n <= |p| && data == old(data) + p[..n]
      ensures plan == if old(plan) == [] then [] else old(plan)[1..]
      ensures ok <==> old(plan) == [] || old(plan)[0].Upto?
      ensures !ok ==> n == 0
      ensures old(plan) == [] ==> n == |p|
      ensures old(plan) != [] && ok ==> n == Min(old(plan)[0].n, |p|)
    {
      n, ok := |p|, true;
      if plan != [] {
        if plan[0].Error? {
          n, ok := 0, false;
        } else {
          n := Min(plan[0].n, |p|);
        }
        plan := plan[1..];
      }
      data := data + p[..n];
    }

    // Write everything, in as many calls as it takes; fail on an error or on a
    // call that makes no progress.
    method WriteAll(p: seq<byte>) returns (ok: bool)
      modifies this
      ensures ok ==> data == old(data) + p
      ensures !ok ==> exists n: nat :: n < |p| && data == old(data) + p[..n]
      ensures (forall i :: 0 <= i < |old(plan)| ==> old(plan)[i].Upto? && old(plan)[i].n > 0) ==> ok
    {
      var rest := p;
      ghost var done: nat, calls: nat := 0, 0;
      assert p[..0] == [] && plan[0..] == plan;
      while |rest| > 0
        invariant done <= |p| && rest == p[done..] && data == old(data) + p[..done]
        invariant calls <= |old(plan)| && plan == old(plan)[calls..]
        decreases |rest|
      {
        if plan != [] {
          assert plan[0] == old(plan)[calls] && plan[1..] == old(plan)[calls + 1..];
          calls := calls + 1;
        }
        var n, good := Write(rest);
        assert p[..done + n] == p[..done] + rest[..n];
        if !good || n == 0 {
          assert done + n < |p|;
          return false;
        }
        rest := rest[n..];
        done := done + n;
      }
      assert p[..done] == p;
      ok := true;
    }

    method WriteFrame(f: Frame) returns (ok: bool)
      modifies this
      ensures Validate(f).Bad? ==> !ok && data == old(data)
      ensures ok ==> data == old(data) + Encode(f)
    {
      if Validate(f).Bad? {
        return false;
      }
      ok := WriteAll(Encode(f));
    }
  }

}
