/** The decoder of container logs, which arrive as length-prefixed frames or, without a multiplexer, as plain bytes. */
module LogFrames {
  import opened Wrappers

  type Byte = b: int | 0 <= b < 256

  const HEADER := 8

  /** A frame: the four bytes before the length (the stream and padding), and the payload. */
  datatype Frame = Frame(prefix: seq<Byte>, payload: seq<Byte>)

  predicate ValidFrame(f: Frame) { |f.prefix| == 4 && |f.payload| < 0x1_0000_0000 }

  predicate ValidFrames(frames: seq<Frame>) { forall f :: f in frames ==> ValidFrame(f) }

  function BigEndian(n: nat): (r: seq<Byte>)
    requires n < 0x1_0000_0000
    ensures |r| == 4
  {
    var high, low := n / 0x1_0000, n % 0x1_0000;
    [high / 256, high % 256, low / 256, low % 256]
  }

  /** The 32-bit number of four bytes, the most significant first. */
  function Number(a: int, b: int, c: int, d: int): int { (a * 256 + b) * 0x1_0000 + (c * 256 + d) }

  function SizeAt(data: seq<Byte>, offset: nat): (n: nat)
    requires offset + HEADER <= |data|
    ensures n < 0x1_0000_0000
  {
    Number(data[offset + 4], data[offset + 5], data[offset + 6], data[offset + 7])
  }

  function EncodeFrame(f: Frame): (r: seq<Byte>)
    requires ValidFrame(f)
    ensures |r| == HEADER + |f.payload|
  {
    f.prefix + BigEndian(|f.payload|) + f.payload
  }

  function Encode(frames: seq<Frame>): seq<Byte>
    requires ValidFrames(frames)
  {
    if frames == [] then [] else EncodeFrame(frames[0]) + Encode(frames[1..])
  }

  function Payloads(frames: seq<Frame>): seq<Byte> {
    if frames == [] then [] else frames[0].payload + Payloads(frames[1..])
  }

  /** The complete frames of the data from an offset, unless one runs over the end. */
  function FramesFrom(data: seq<Byte>, offset: nat): Option<seq<Frame>>
    decreases |data| - offset
  {
    if offset + HEADER > |data| then Some([])
    else
      var start := offset + HEADER;
      var end := start + SizeAt(data, offset);
      if end > |data| then None
      else
        match FramesFrom(data, end)
        case None => None
        case Some(rest) => Some([Frame(data[offset..offset + 4], data[start..end])] + rest)
  }

  /** The bytes shown: the payloads when the data is framed, the data itself otherwise. */
  function Shown(data: seq<Byte>): seq<Byte> {
    match FramesFrom(data, 0)
    case Some(frames) => if frames != [] then Payloads(frames) else data
    case None => data
  }

  lemma {:induction false} PayloadsSnoc(frames: seq<Frame>, last: Frame)
    ensures Payloads(frames + [last]) == Payloads(frames) + last.payload
  {
    if frames == [] {
      assert frames + [last] == [last];
      assert [last][1..] == [];
    } else {
      PayloadsSnoc(frames[1..], last);
      assert (frames + [last])[1..] == frames[1..] + [last];
    }
  }

  /** The frames found so far, followed by the rest. */
  function Resumed(found: seq<Frame>, rest: Option<seq<Frame>>): Option<seq<Frame>> {
    match rest case None => None case Some(frames) => Some(found + frames)
  }

  lemma ResumedFromNothing(rest: Option<seq<Frame>>)
    ensures Resumed([], rest) == rest
  {
    if rest.Some? {
      assert [] + rest.value == rest.value;
    }
  }

  lemma ResumedToNothing(found: seq<Frame>)
    ensures Resumed(found, None) == None
  {
  }

  lemma ResumedToTheEnd(found: seq<Frame>)
    ensures Resumed(found, Some([])) == Some(found)
  {
    assert found + [] == found;
  }

  lemma NextFrame(data: seq<Byte>, offset: nat, found: seq<Frame>, frame: Frame)
    requires offset + HEADER <= |data| && offset + HEADER + SizeAt(data, offset) <= |data|
    requires frame == Frame(data[offset..offset + 4], data[offset + HEADER..offset + HEADER + SizeAt(data, offset)])
    ensures Resumed(found, FramesFrom(data, offset))
              == Resumed(found + [frame], FramesFrom(data, offset + HEADER + SizeAt(data, offset)))
  {
    hide SizeAt;
    var rest := FramesFrom(data, offset + HEADER + SizeAt(data, offset));
    if rest.Some? {
      assert found + ([frame] + rest.value) == (found + [frame]) + rest.value;
    }
  }

  /** Decoding walks the data once, gathering the payload of each frame. */
  method DecodeDockerLogFrames(data: seq<Byte>) returns (shown: seq<Byte>)
    ensures shown == Shown(data)
  {
    hide SizeAt, Resumed;
    var lines: seq<seq<Byte>> := [];
    ghost var found: seq<Frame> := [];
    var offset := 0;
    ResumedFromNothing(FramesFrom(data, 0));
    while offset + HEADER <= |data|
      invariant offset <= |data| && |found| == |lines|
      invariant forall i :: 0 <= i < |lines| ==> lines[i] == found[i].payload
      invariant FramesFrom(data, 0) == Resumed(found, FramesFrom(data, offset))
      decreases |data| - offset
    {
      var size := SizeAt(data, offset);
      var start := offset + HEADER;
      var end := start + size;
      if end > |data| {
        ResumedToNothing(found);
        return data;
      }
      var frame := Frame(data[offset..offset + 4], data[start..end]);
      lines := lines + [data[start..end]];
      found := found + [frame];
      assert found[..|found| - 1] + [frame] == found;
      NextFrame(data, offset, found[..|found| - 1], frame);
      offset := end;
    }
    ResumedToTheEnd(found);
    if |lines| > 0 {
      shown := Joined(lines, found);
    } else {
      shown := data;
    }
  }

  method Joined(lines: seq<seq<Byte>>, ghost found: seq<Frame>) returns (all: seq<Byte>)
    requires |found| == |lines| && forall i :: 0 <= i < |lines| ==> lines[i] == found[i].payload
    ensures all == Payloads(found)
  {
    all := [];
    for i := 0 to |lines|
      invariant all == Payloads(found[..i])
    {
      PayloadsSnoc(found[..i], found[i]);
      assert found[..i + 1] == found[..i] + [found[i]];
      all := all + lines[i];
    }
    assert found[..|lines|] == found;
  }

  // ---------------------------------------------------------------------------------------------------------------

  lemma DigitsMakeSize(a: Byte, b: Byte, c: Byte, d: Byte)
    ensures 0 <= Number(a, b, c, d) < 0x1_0000_0000 && BigEndian(Number(a, b, c, d)) == [a, b, c, d]
  {
    var high: int, low: int := a * 256 + b, c * 256 + d;
    assert high / 256 == a && high % 256 == b && low / 256 == c && low % 256 == d;
    QuotientOf(high, low);
  }

  lemma QuotientOf(high: int, low: int)
    requires 0 <= low < 0x1_0000
    ensures (high * 0x1_0000 + low) / 0x1_0000 == high && (high * 0x1_0000 + low) % 0x1_0000 == low
  {
  }

  lemma BigEndianMakesSize(n: nat)
    requires n < 0x1_0000_0000
    ensures Number(BigEndian(n)[0], BigEndian(n)[1], BigEndian(n)[2], BigEndian(n)[3]) == n
  {
    var high, low := n / 0x1_0000, n % 0x1_0000;
    assert high / 256 * 256 + high % 256 == high;
    assert low / 256 * 256 + low % 256 == low;
  }

  /** The header: four bytes that are not looked at, then the payload's length, the most significant byte first. */
  lemma HeaderIsBigEndian(f: Frame)
    requires ValidFrame(f)
    ensures var e := EncodeFrame(f);
            && e[..4] == f.prefix && e[8..] == f.payload
            && |f.payload| == e[4] as int * 16_777_216 + e[5] as int * 65_536 + e[6] as int * 256 + e[7] as int
  {
    BigEndianMakesSize(|f.payload|);
    var b, e := BigEndian(|f.payload|), EncodeFrame(f);
    hide BigEndian;
    assert e[4] == b[0] && e[5] == b[1] && e[6] == b[2] && e[7] == b[3];
  }

  /** Frames written at an offset are read back from there, whatever shorter rest follows. */
  lemma {:induction false} ReadsWhatWasWritten(data: seq<Byte>, offset: nat, frames: seq<Frame>, tail: seq<Byte>)
    requires ValidFrames(frames) && |tail| < HEADER && offset <= |data| && data[offset..] == Encode(frames) + tail
    ensures FramesFrom(data, offset) == Some(frames)
    decreases |frames|
  {
    if frames == [] {
      NothingToRead(data, offset, tail);
    } else {
      hide *;
      ReadsFirst(data, offset, frames, tail);
      ReadsWhatWasWritten(data, offset + HEADER + |frames[0].payload|, frames[1..], tail);
      FramesStep(data, offset, frames);
    }
  }

  lemma ReadsFirst(data: seq<Byte>, offset: nat, frames: seq<Frame>, tail: seq<Byte>)
    requires ValidFrames(frames) && frames != [] && offset <= |data| && data[offset..] == Encode(frames) + tail
    ensures ValidFrames(frames[1..]) && |frames[0].prefix| == 4
    ensures var f, end := frames[0], offset + HEADER + |frames[0].payload|;
            && end <= |data| && SizeAt(data, offset) == |f.payload|
            && data[offset..offset + 4] == f.prefix && data[offset + HEADER..end] == f.payload
            && data[end..] == Encode(frames[1..]) + tail
  {
    EncodeCons(frames, tail);
    hide *;
    ReadsOneFrame(data, offset, frames[0], Encode(frames[1..]) + tail);
  }

  lemma FramesStep(data: seq<Byte>, offset: nat, frames: seq<Frame>)
    requires frames != [] && |frames[0].prefix| == 4 && offset + HEADER + |frames[0].payload| <= |data|
    requires SizeAt(data, offset) == |frames[0].payload|
    requires data[offset..offset + 4] == frames[0].prefix
              && data[offset + HEADER..offset + HEADER + |frames[0].payload|] == frames[0].payload
    requires FramesFrom(data, offset + HEADER + |frames[0].payload|) == Some(frames[1..])
    ensures FramesFrom(data, offset) == Some(frames)
  {
    assert [frames[0]] + frames[1..] == frames;
  }

  lemma NothingToRead(data: seq<Byte>, offset: nat, tail: seq<Byte>)
    requires |tail| < HEADER && offset <= |data| && data[offset..] == Encode([]) + tail
    ensures FramesFrom(data, offset) == Some([])
  {
    assert |data[offset..]| == |tail|;
  }

  lemma EncodeCons(frames: seq<Frame>, tail: seq<Byte>)
    requires ValidFrames(frames) && frames != []
    ensures ValidFrame(frames[0]) && |frames[0].prefix| == 4 && ValidFrames(frames[1..])
    ensures Encode(frames) + tail == EncodeFrame(frames[0]) + (Encode(frames[1..]) + tail)
  {
    hide EncodeFrame;
  }

  lemma ReadsOneFrame(data: seq<Byte>, offset: nat, f: Frame, rest: seq<Byte>)
    requires ValidFrame(f) && offset <= |data| && data[offset..] == EncodeFrame(f) + rest
    ensures offset + HEADER + |f.payload| <= |data| && SizeAt(data, offset) == |f.payload|
    ensures data[offset..offset + 4] == f.prefix && data[offset + HEADER..offset + HEADER + |f.payload|] == f.payload
    ensures data[offset + HEADER + |f.payload|..] == rest
  {
    hide BigEndian, Number;
    var size := BigEndian(|f.payload|);
    forall k | 0 <= k < |data| - offset ensures data[offset + k] == (EncodeFrame(f) + rest)[k] {
      assert data[offset..][k] == data[offset + k];
    }
    assert forall k :: 0 <= k < 4 ==> data[offset + 4 + k] == size[k];
    BigEndianMakesSize(|f.payload|);
  }

  /**
   * What is read as frames was written as frames: the data from the offset is their encoding and a rest shorter than
   * a header.
   */
  lemma {:induction false} WroteWhatIsRead(data: seq<Byte>, offset: nat) returns (tail: seq<Byte>)
    requires offset <= |data| && FramesFrom(data, offset).Some?
    ensures var frames := FramesFrom(data, offset).value;
            ValidFrames(frames) && |tail| < HEADER && data[offset..] == Encode(frames) + tail
    decreases |data| - offset
  {
    if offset + HEADER > |data| {
      tail := data[offset..];
    } else {
      var size := SizeAt(data, offset);
      var end := offset + HEADER + size;
      tail := WroteWhatIsRead(data, end);
      var frames := FramesFrom(data, offset).value;
      DigitsMakeSize(data[offset + 4], data[offset + 5], data[offset + 6], data[offset + 7]);
      assert EncodeFrame(frames[0]) == data[offset..end];
      assert data[offset..] == data[offset..end] + data[end..];
    }
  }

  /** The data reads as `frames`: their encoding, then less than a header. */
  ghost predicate Framed(data: seq<Byte>, frames: seq<Frame>) {
    ValidFrames(frames) && exists tail :: |tail| < HEADER && data == Encode(frames) + tail
  }

  /**
   * The decoder takes the framed path exactly when the data is the encoding of some frames and a rest shorter than a
   * header.
   */
  lemma FramedPathIff(data: seq<Byte>, frames: seq<Frame>)
    ensures FramesFrom(data, 0) == Some(frames) <==> Framed(data, frames)
  {
    if FramesFrom(data, 0) == Some(frames) {
      var tail := WroteWhatIsRead(data, 0);
      assert data[0..] == data;
    }
    if Framed(data, frames) {
      var tail :| |tail| < HEADER && data == Encode(frames) + tail;
      assert data[0..] == data;
      ReadsWhatWasWritten(data, 0, frames, tail);
    }
  }

  /** Decoding the encoding of any frames gives back their payloads. */
  lemma RoundTrip(frames: seq<Frame>)
    requires ValidFrames(frames) && frames != []
    ensures Shown(Encode(frames)) == Payloads(frames)
  {
    assert Encode(frames)[0..] == Encode(frames) + [];
    ReadsWhatWasWritten(Encode(frames), 0, frames, []);
  }

  /** Data that is no such encoding of at least one frame is shown unchanged. */
  lemma OtherwiseUnchanged(data: seq<Byte>)
    requires forall frames :: frames != [] ==> !Framed(data, frames)
    ensures Shown(data) == data
  {
    if FramesFrom(data, 0).Some? {
      FramedPathIff(data, FramesFrom(data, 0).value);
    }
  }

  /** No data can be framed in two ways. */
  lemma FramingIsUnique(data: seq<Byte>, a: seq<Frame>, b: seq<Frame>)
    requires Framed(data, a) && Framed(data, b)
    ensures a == b
  {
    FramedPathIff(data, a);
    FramedPathIff(data, b);
  }
}
