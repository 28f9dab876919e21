/** Cutting a byte stream into frames by their headers, as the pipe server does. */
module WireFraming {
  import opened Basics
  import opened Contracts
  import opened Wire

  /** What the pipe server gets from the front of a stream: nothing, a bad header, or a whole frame. */
  datatype Incoming = Closed | Malformed(error: FrameError) | Whole(frame: Bytes, rest: Bytes)

  function ReadFrame(stream: Bytes): Incoming {
    if |stream| < 12 then Closed
    else
      match DeclaredFrameSize(stream[..12])
      case Err(e) => Malformed(e)
      case Ok(total) =>
        if |stream| < total then Closed
        else Whole(stream[..total], stream[total..])
  }

  /** The header of a frame the decoder lets through declares the frame's own length. */
  lemma DeclaredSizeAgrees(frame: Bytes)
    requires DecodeFrame(frame).Ok?
    ensures DeclaredFrameSize(frame[..12]) == Ok(|frame|)
  {
    var h := frame[..12];
    assert h[..4] == frame[..4] && h[4..6] == frame[4..6] && h[8..12] == frame[8..12];
  }

  lemma WholeHasEnvelope(stream: Bytes)
    requires ReadFrame(stream).Whole?
    ensures DecodeFrame(ReadFrame(stream).frame).Ok?
    ensures stream == ReadFrame(stream).frame + ReadFrame(stream).rest
  {
    var h, frame := stream[..12], ReadFrame(stream).frame;
    assert frame[..4] == h[..4] && frame[4..6] == h[4..6] && frame[8..12] == h[8..12];
    assert frame[7] == h[7];
  }

  /** Reading by header yields exactly the frames whose envelope the decoder accepts. */
  lemma ReadFrameExactly(stream: Bytes, frame: Bytes, rest: Bytes)
    ensures ReadFrame(stream) == Whole(frame, rest) <==> DecodeFrame(frame).Ok? && stream == frame + rest
  {
    if ReadFrame(stream) == Whole(frame, rest) { WholeHasEnvelope(stream); }
    if DecodeFrame(frame).Ok? && stream == frame + rest {
      assert stream[..12] == frame[..12];
      DeclaredSizeAgrees(frame);
      assert stream[..|frame|] == frame && stream[|frame|..] == rest;
    }
  }

  lemma AcceptedHasEnvelope(frame: Bytes)
    requires DecodeRequest(frame).Ok?
    ensures DecodeFrame(frame).Ok? && |frame| >= 12
  {
    hide TakeCommand, TakeString;
  }

  /** No accepted frame is a proper prefix of another. */
  lemma PrefixFree(f: Bytes, g: Bytes)
    requires DecodeRequest(f).Ok? && DecodeRequest(g).Ok? && f <= g
    ensures f == g
  {
    AcceptedHasEnvelope(f);
    AcceptedHasEnvelope(g);
    assert g == f + g[|f|..] && g == g + [];
    ReadFrameExactly(g, f, g[|f|..]);
    ReadFrameExactly(g, g, []);
  }

  function Concat(frames: seq<Bytes>): Bytes { if frames == [] then [] else frames[0] + Concat(frames[1..]) }

  /** Every whole frame of a stream, in order. */
  function SplitStream(stream: Bytes): seq<Bytes>
    decreases |stream|
  {
    match ReadFrame(stream)
    case Whole(frame, rest) =>
      assert |frame| >= 12 && |rest| < |stream|;
      [frame] + SplitStream(rest)
    case _ => []
  }

  lemma {:induction false} StreamSplitsBack(frames: seq<Bytes>)
    requires forall i :: 0 <= i < |frames| ==> DecodeRequest(frames[i]).Ok?
    ensures SplitStream(Concat(frames)) == frames
  {
    hide DecodeRequest, DecodeFrame, DeclaredFrameSize;
    if frames != [] {
      AcceptedHasEnvelope(frames[0]);
      ReadFrameExactly(Concat(frames), frames[0], Concat(frames[1..]));
      StreamSplitsBack(frames[1..]);
      assert [frames[0]] + frames[1..] == frames;
    }
  }
}
