/** The capture in plain bytes and characters: UTF-8, where a text is cut, and how it is split into lines. */
module ProcessOutputLaws {
  import opened ProcessOutput

  // ---------------------------------------------------------------------------------------------------------------
  // UTF-8, section 3 of RFC 3629.

  function Continuation(bits: int): int { 0x80 + bits % 0x40 }

  function EncodedChar(c: char): (bytes: seq<int>)
    ensures bytes != []
  {
    var code := c as int;
    if code < 0x80 then [code]
    else if code < 0x800 then [0xC0 + code / 0x40, Continuation(code)]
    else if code < 0x1_0000 then [0xE0 + code / 0x1000, Continuation(code / 0x40), Continuation(code)]
    else [0xF0 + code / 0x4_0000, Continuation(code / 0x1000), Continuation(code / 0x40), Continuation(code)]
  }

  function Encoded(s: string): seq<int> { if s == "" then [] else EncodedChar(s[0]) + Encoded(s[1..]) }

  /** How many bytes a character has that begins with this one. */
  function Needed(lead: int): (n: nat)
    ensures n >= 1
  {
    if lead < 0x80 then 1 else if lead < 0xE0 then 2 else if lead < 0xF0 then 3 else 4
  }

  function CodeOf(bytes: seq<int>): int
    requires bytes != [] && |bytes| == Needed(bytes[0])
  {
    match |bytes|
    case 1 => bytes[0]
    case 2 => bytes[0] % 0x20 * 0x40 + bytes[1] % 0x40
    case 3 => bytes[0] % 0x10 * 0x1000 + bytes[1] % 0x40 * 0x40 + bytes[2] % 0x40
    case _ => bytes[0] % 0x08 * 0x4_0000 + bytes[1] % 0x40 * 0x1000 + bytes[2] % 0x40 * 0x40 + bytes[3] % 0x40
  }

  function CharOf(code: int): char {
    if 0 <= code < 0xD800 || 0xE000 <= code < 0x11_0000 then code as char else '\U{FFFD}'
  }

  /** What a streaming decoder has produced after some bytes of a text: it holds an incomplete character back. */
  function Decoded(bytes: seq<int>): string
    decreases |bytes|
  {
    if bytes == [] || |bytes| < Needed(bytes[0]) then ""
    else
      var n := Needed(bytes[0]);
      [CharOf(CodeOf(bytes[..n]))] + Decoded(bytes[n..])
  }

  /** One character: as many bytes as it is charged for, each a byte, and decoding gives it back. */
  lemma CharRoundTrip(c: char)
    ensures |EncodedChar(c)| == Width(c) == Needed(EncodedChar(c)[0])
    ensures forall b :: b in EncodedChar(c) ==> 0 <= b < 0x100
    ensures CharOf(CodeOf(EncodedChar(c))) == c
  {
    hide Continuation, CodeOf;
    var code := c as int;
    if code < 0x80 {
      assert CodeOf([code]) == code by { OneByte(code); }
    } else if code < 0x800 {
      TwoBytes(code);
    } else if code < 0x1_0000 {
      ThreeBytes(code);
    } else {
      FourBytes(code);
    }
  }

  lemma ContinuationBits(bits: int)
    ensures 0x80 <= Continuation(bits) < 0xC0 && Continuation(bits) % 0x40 == bits % 0x40
  {
  }

  lemma OneByte(code: int)
    requires 0 <= code < 0x80
    ensures Needed(code) == 1 && CodeOf([code]) == code
  {
  }

  lemma TwoBytes(code: int)
    requires 0x80 <= code < 0x800
    ensures var lead := 0xC0 + code / 0x40;
            && 0xC0 <= lead < 0xE0 && 0 <= Continuation(code) < 0x100
            && CodeOf([lead, Continuation(code)]) == code
  {
    ContinuationBits(code);
    hide Continuation;
    assert (0xC0 + code / 0x40) % 0x20 == code / 0x40;
  }

  lemma ThreeBytes(code: int)
    requires 0x800 <= code < 0x1_0000
    ensures var lead, second, third := 0xE0 + code / 0x1000, Continuation(code / 0x40), Continuation(code);
            && 0xE0 <= lead < 0xF0 && 0 <= second < 0x100 && 0 <= third < 0x100
            && CodeOf([lead, second, third]) == code
  {
    ContinuationBits(code);
    ContinuationBits(code / 0x40);
    hide Continuation;
    var q := code / 0x40;
    assert code / 0x1000 == q / 0x40 && 0 <= q < 0x400;
    assert (0xE0 + q / 0x40) % 0x10 == q / 0x40;
  }

  lemma FourBytes(code: int)
    requires 0x1_0000 <= code < 0x11_0000
    ensures var lead, second, third, fourth :=
              0xF0 + code / 0x4_0000, Continuation(code / 0x1000), Continuation(code / 0x40), Continuation(code);
            && 0xF0 <= lead < 0x100 && 0 <= second < 0x100 && 0 <= third < 0x100 && 0 <= fourth < 0x100
            && CodeOf([lead, second, third, fourth]) == code
  {
    ContinuationBits(code);
    ContinuationBits(code / 0x40);
    ContinuationBits(code / 0x1000);
    hide Continuation;
    var q := code / 0x40;
    var r := q / 0x40;
    assert code / 0x1000 == r && code / 0x4_0000 == r / 0x40 && 0 <= r < 0x110;
    assert (0xF0 + r / 0x40) % 0x08 == r / 0x40;
  }

  lemma {:induction false} BytesFront(s: string)
    ensures s != "" ==> Bytes(s) == Width(s[0]) + Bytes(s[1..])
  {
    if s != "" {
      assert s == s[..1] + s[1..];
      BytesAppend(s[..1], s[1..]);
      assert s[..1][..0] == "";
    }
  }

  /** A text is charged the length of its UTF-8 encoding. */
  lemma {:induction false} BytesAreEncoded(s: string)
    ensures Bytes(s) == |Encoded(s)|
  {
    if s != "" {
      BytesFront(s);
      BytesAreEncoded(s[1..]);
      CharRoundTrip(s[0]);
    }
  }

  /** The first bytes of a text, decoded: its longest prefix of characters that lie in them completely. */
  lemma {:induction false} DecodedPrefix(line: string, n: nat)
    requires n <= |Encoded(line)|
    ensures Decoded(Encoded(line)[..n]) == Fitting(line, n)
  {
    hide EncodedChar, Needed, CodeOf, CharOf, Width, Fitting, Bytes;
    if line == "" {
      FittingPrefix(line, n);
    } else {
      CharRoundTrip(line[0]);
      var first, bytes := EncodedChar(line[0]), Encoded(line);
      assert bytes == first + Encoded(line[1..]);
      if n < |first| {
        FittingNothing(line, n);
        assert n > 0 ==> bytes[..n][0] == first[0];
      } else {
        DecodedPrefix(line[1..], n - |first|);
        FittingFront(line, n);
        assert bytes[..n] == first + Encoded(line[1..])[..n - |first|];
        assert bytes[..n][0] == first[0] && bytes[..n][..|first|] == first;
        assert bytes[..n][|first|..] == Encoded(line[1..])[..n - |first|];
      }
    }
  }

  lemma FittingPrefix(line: string, n: nat)
    ensures Fitting(line, n) <= line
  {
  }

  lemma FittingNothing(line: string, n: nat)
    requires line != "" && n < Width(line[0])
    ensures Fitting(line, n) == ""
  {
    assert line[..1][..0] == "" && Bytes(line[..1]) == Width(line[0]);
    FittingIs(line, n, 0);
  }

  lemma FittingFront(line: string, n: nat)
    requires line != "" && Width(line[0]) <= n
    ensures Fitting(line, n) == [line[0]] + Fitting(line[1..], n - Width(line[0]))
  {
    hide Fitting, Width, Bytes;
    var rest := Fitting(line[1..], n - Width(line[0]));
    var k := 1 + |rest|;
    assert line[..k] == [line[0]] + rest;
    BytesFront(line[..k]);
    assert line[..k][1..] == rest;
    if k < |line| {
      BytesFront(line[..k + 1]);
      assert line[..k + 1][1..] == line[1..][..|rest| + 1];
    }
    FittingIs(line, n, k);
  }

  lemma FittingIs(line: string, n: nat, k: nat)
    requires k <= |line| && Bytes(line[..k]) <= n && (k < |line| ==> Bytes(line[..k + 1]) > n)
    ensures Fitting(line, n) == line[..k]
  {
    hide Fitting, Bytes;
    var r := Fitting(line, n);
    assert r == line[..|r|];
    if |r| < k {
      PrefixIsShorter(line, |r| + 1, k);
    } else if k < |r| {
      PrefixIsShorter(line, k + 1, |r|);
    }
  }

  lemma PrefixIsShorter(line: string, i: nat, j: nat)
    requires i <= j <= |line|
    ensures Bytes(line[..i]) <= Bytes(line[..j])
  {
    BytesAppend(line[..i], line[i..j]);
    assert line[..i] + line[i..j] == line[..j];
  }

  /**
   * What is kept of a line that does not fit: as many bytes of its encoding as remain, one set aside, without a
   * character they only begin and without a byte order mark in front.
   */
  lemma CutPieceIsDecoded(line: string, remaining: int)
    requires 0 < remaining < Bytes(line) + 1
    ensures remaining - 1 <= |Encoded(line)|
    ensures var text := Decoded(Encoded(line)[..remaining - 1]);
            CutPiece(line, remaining) == if text != "" && text[0] as int == 0xFEFF then text[1..] else text
  {
    hide Decoded, Encoded, Fitting, Bytes;
    BytesAreEncoded(line);
    DecodedPrefix(line, remaining - 1);
  }

  /** Decoding a whole encoding gives the text back. */
  lemma DecodesWhatWasEncoded(s: string)
    ensures Decoded(Encoded(s)) == s
  {
    BytesAreEncoded(s);
    DecodedPrefix(s, |Encoded(s)|);
    assert Encoded(s)[..|Encoded(s)|] == Encoded(s) && s[..|s|] == s;
    FittingIs(s, |Encoded(s)|, |s|);
  }

  // ---------------------------------------------------------------------------------------------------------------
  // Lines.

  /** Pieces with line ends between them: n pieces and n - 1 ends. */
  function Joined(pieces: seq<string>, ends: seq<string>): string
    requires |pieces| == |ends| + 1
  {
    if ends == [] then pieces[0]
    else Joined(pieces[..|ends|], ends[..|ends| - 1]) + ends[|ends| - 1] + pieces[|ends|]
  }

  /** Every line end is a line feed or a carriage return and a line feed, the longer one wherever possible. */
  predicate LineEnds(pieces: seq<string>, ends: seq<string>) {
    && |pieces| == |ends| + 1
    && (forall i :: 0 <= i < |pieces| ==> '\n' !in pieces[i])
    && forall i :: 0 <= i < |ends| ==>
         ends[i] == "\r\n" || (ends[i] == "\n" && (pieces[i] != "" ==> pieces[i][|pieces[i]| - 1] != '\r'))
  }

  /** What comes before the last piece. */
  function Front(whole: seq<string>, ends: seq<string>): string
    requires |whole| == |ends|
  {
    if ends == [] then "" else Joined(whole, ends[..|ends| - 1]) + ends[|ends| - 1]
  }

  lemma LastPiece(whole: seq<string>, ends: seq<string>, last: string)
    requires |whole| == |ends|
    ensures Joined(whole + [last], ends) == Front(whole, ends) + last
  {
    assert (whole + [last])[..|ends|] == whole;
  }

  /** A text is its pieces with the line ends between them. */
  lemma {:induction false} SplitLosesOnlyEnds(text: string) returns (ends: seq<string>)
    ensures LineEnds(Split(text), ends) && Joined(Split(text), ends) == text
  {
    if text == "" {
      ends := [];
    } else {
      hide *;
      var init, c := text[..|text| - 1], text[|text| - 1];
      assert text == init + [c];
      ends := SplitLosesOnlyEnds(init);
      SplitSnoc(init, c);
      ends := OneMoreChar(Split(init), ends, init, c);
    }
  }

  lemma OneMoreChar(pieces: seq<string>, ends: seq<string>, text: string, c: char) returns (ends': seq<string>)
    requires LineEnds(pieces, ends) && Joined(pieces, ends) == text
    ensures LineEnds(Extended(pieces, c), ends') && Joined(Extended(pieces, c), ends') == text + [c]
  {
    hide Joined, Front;
    var whole, rest := Whole(pieces), Rest(pieces);
    assert pieces == whole + [rest];
    LastPiece(whole, ends, rest);
    if c == '\n' {
      var last := if StripReturn(rest) == rest then "\n" else "\r\n";
      ends' := ends + [last];
      LastPiece(whole, ends, StripReturn(rest));
      LastPiece(whole + [StripReturn(rest)], ends', "");
      FrontSnoc(whole + [StripReturn(rest)], ends, last);
      assert Extended(pieces, c) == whole + [StripReturn(rest)] + [""];
      assert StripReturn(rest) + last == rest + [c];
    } else {
      ends' := ends;
      LastPiece(whole, ends, rest + [c]);
      assert Front(whole, ends) + (rest + [c]) == text + [c];
    }
  }

  lemma FrontSnoc(pieces: seq<string>, ends: seq<string>, last: string)
    requires |pieces| == |ends| + 1
    ensures Front(pieces, ends + [last]) == Joined(pieces, ends) + last
  {
    assert (ends + [last])[..|ends|] == ends;
  }

  /** Pieces joined by line ends are split where they were joined. */
  lemma {:induction false} SplitsWhereJoined(pieces: seq<string>, ends: seq<string>)
    requires LineEnds(pieces, ends)
    ensures Split(Joined(pieces, ends)) == pieces
  {
    OnlyPiece(pieces, ends);
    hide LineEnds, Split;
    if ends == [] {
      NoLineFeed(pieces[0]);
    } else {
      var n := |ends| - 1;
      var before, last := pieces[..n + 1], pieces[n + 1];
      LineEndsBefore(pieces, ends);
      SplitsWhereJoined(before, ends[..n]);
      NextPiece(before, Joined(before, ends[..n]), ends[n], last);
      assert pieces == before + [last];
    }
  }

  lemma OnlyPiece(pieces: seq<string>, ends: seq<string>)
    requires LineEnds(pieces, ends)
    ensures |pieces| == |ends| + 1 && '\n' !in pieces[0]
  {
  }

  lemma LineEndsBefore(pieces: seq<string>, ends: seq<string>)
    requires LineEnds(pieces, ends) && ends != []
    ensures LineEnds(pieces[..|ends|], ends[..|ends| - 1])
    ensures var end, piece := ends[|ends| - 1], pieces[|ends| - 1];
            end == "\r\n" || (end == "\n" && StripReturn(piece) == piece)
    ensures '\n' !in pieces[|ends|]
  {
    var before, init := pieces[..|ends|], ends[..|ends| - 1];
    assert forall i :: 0 <= i < |before| ==> before[i] == pieces[i];
    assert forall i :: 0 <= i < |init| ==> init[i] == ends[i];
  }

  lemma NextPiece(before: seq<string>, a: string, end: string, last: string)
    requires Split(a) == before
    requires end == "\r\n" || (end == "\n" && StripReturn(Rest(before)) == Rest(before))
    requires '\n' !in last
    ensures Split(a + end + last) == before + [last]
  {
    hide Split, StripReturn;
    AtLineEnd(a, end);
    SplitResumes(a + end, last);
    NoLineFeed(last);
    assert "" + last == last;
    assert Rest(before + [""]) == "" && Whole(before + [""]) == before;
  }

  lemma {:induction false} NoLineFeed(s: string)
    requires '\n' !in s
    ensures Split(s) == [s]
  {
    if s != "" {
      var init, c := s[..|s| - 1], s[|s| - 1];
      NoLineFeed(init);
      assert s == init + [c];
      SplitSnoc(init, c);
      hide Split;
      assert c in s && [init][..0] == [];
    }
  }

  lemma AtLineEnd(a: string, end: string)
    requires end == "\r\n" || (end == "\n" && StripReturn(Rest(Split(a))) == Rest(Split(a)))
    ensures Split(a + end) == Split(a) + [""]
  {
    hide Split;
    var pieces, rest := Split(a), Rest(Split(a));
    assert pieces == Whole(pieces) + [rest];
    if end == "\n" {
      SplitSnoc(a, '\n');
    } else {
      SplitSnoc(a, '\r');
      SplitSnoc(a + ['\r'], '\n');
      assert a + end == a + ['\r'] + ['\n'];
      AfterReturn(Whole(pieces), rest);
    }
  }

  lemma AfterReturn(whole: seq<string>, rest: string)
    ensures Extended(Extended(whole + [rest], '\r'), '\n') == whole + [rest] + [""]
  {
    var returned := whole + [rest + ['\r']];
    assert (whole + [rest])[..|whole|] == whole && returned[..|whole|] == whole;
    assert (rest + ['\r'])[..|rest|] == rest;
  }

  // ---------------------------------------------------------------------------------------------------------------
  // The pending rests.

  /** Whatever a process writes, less than 64 KiB of an unfinished line is held for each stream. */
  lemma {:induction false} PendingStaysShort(limit: nat, steps: seq<Step>)
    ensures Bytes(Run(limit, steps).pendingOut) < 65_536 && Bytes(Run(limit, steps).pendingErr) < 65_536
  {
    hide Split, RetainedAll, Bytes;
    assert Bytes("") == 0 by { BytesFront(""); BytesAreEncoded(""); }
    if steps != [] {
      PendingStaysShort(limit, steps[..|steps| - 1]);
    }
  }
}
