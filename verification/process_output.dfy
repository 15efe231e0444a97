/** The bounded capture of a process's two output streams. */
module ProcessOutput {
  const MAX_PENDING_LINE_BYTES := 65_536
  const BYTE_ORDER_MARK := '\U{FEFF}'

  datatype Stream = Stdout | Stderr

  /** A callback: a retained line, or the notice that output was truncated. */
  datatype Call = Line(stream: Stream, text: string) | Notice(stream: Stream)

  // ---------------------------------------------------------------------------------------------------------------
  // Bytes.

  /** The length of a character in UTF-8. */
  function Width(c: char): (n: nat)
    ensures 1 <= n <= 4
  {
    var code := c as int;
    if code < 0x80 then 1 else if code < 0x800 then 2 else if code < 0x1_0000 then 3 else 4
  }

  function Bytes(s: string): nat {
    if s == "" then 0 else Bytes(s[..|s| - 1]) + Width(s[|s| - 1])
  }

  lemma {:induction false} BytesAppend(a: string, b: string)
    ensures Bytes(a + b) == Bytes(a) + Bytes(b)
  {
    if b == "" {
      assert a + b == a;
    } else {
      BytesAppend(a, b[..|b| - 1]);
      assert (a + b)[..|a + b| - 1] == a + b[..|b| - 1];
    }
  }

  /** The longest prefix of complete characters that fits. */
  function Fitting(line: string, budget: int): (r: string)
    ensures r <= line
    ensures budget >= 0 ==> Bytes(r) <= budget
    ensures |r| < |line| ==> Bytes(line[..|r| + 1]) > budget
  {
    if line == "" then ""
    else if Bytes(line) <= budget then line
    else
      var r := Fitting(line[..|line| - 1], budget);
      assert |r| < |line| - 1 ==> line[..|line| - 1][..|r| + 1] == line[..|r| + 1];
      assert line[..|line| - 1] <= line;
      assert line[..|line|] == line;
      r
  }

  /** Decoding drops a byte order mark it finds first. */
  function WithoutMark(s: string): string {
    if s != "" && s[0] == BYTE_ORDER_MARK then s[1..] else s
  }

  lemma WithoutMarkIsShorter(s: string)
    ensures Bytes(WithoutMark(s)) <= Bytes(s)
  {
    if s != "" {
      assert s == s[..1] + s[1..];
      BytesAppend(s[..1], s[1..]);
    }
  }

  // ---------------------------------------------------------------------------------------------------------------
  // Retaining.

  datatype Capture = Capture(remaining: int, reported: bool, stdout: seq<string>, stderr: seq<string>, calls: seq<Call>)

  function KeptOf(c: Capture, stream: Stream): seq<string> { if stream == Stdout then c.stdout else c.stderr }

  function Report(c: Capture, stream: Stream): Capture {
    if c.reported then c else c.(reported := true, calls := c.calls + [Notice(stream)])
  }

  function Push(c: Capture, stream: Stream, line: string): Capture {
    var called := c.(calls := c.calls + [Line(stream, line)]);
    if stream == Stdout then called.(stdout := c.stdout + [line]) else called.(stderr := c.stderr + [line])
  }

  /** What is kept of a line that does not fit any more. */
  function CutPiece(line: string, remaining: int): string { WithoutMark(Fitting(line, remaining - 1)) }

  function Retained(c: Capture, line: string, stream: Stream): Capture {
    if c.remaining <= 0 then Report(c, stream)
    else if Bytes(line) + 1 <= c.remaining then Push(c, stream, line).(remaining := c.remaining - (Bytes(line) + 1))
    else
      var piece := CutPiece(line, c.remaining);
      Report((if piece != "" then Push(c, stream, piece) else c).(remaining := 0), stream)
  }

  function RetainedAll(c: Capture, lines: seq<string>, stream: Stream): Capture {
    if lines == [] then c else Retained(RetainedAll(c, lines[..|lines| - 1], stream), lines[|lines| - 1], stream)
  }

  /** The bytes charged for retained pieces: their text and one for each. */
  function Charged(pieces: seq<string>): nat {
    if pieces == [] then 0 else Charged(pieces[..|pieces| - 1]) + Bytes(pieces[|pieces| - 1]) + 1
  }

  function Notices(calls: seq<Call>): nat {
    if calls == [] then 0 else Notices(calls[..|calls| - 1]) + if calls[|calls| - 1].Notice? then 1 else 0
  }

  function LinesOf(calls: seq<Call>, stream: Stream): seq<string> {
    if calls == [] then []
    else
      var last := calls[|calls| - 1];
      LinesOf(calls[..|calls| - 1], stream) + if last.Line? && last.stream == stream then [last.text] else []
  }

  /** A piece cut from a line: some first characters, without a leading byte order mark. */
  ghost predicate CutFrom(line: string, piece: string) {
    exists m: nat :: m <= |line| && piece == WithoutMark(line[..m])
  }

  /** A prefix of the offered lines, of which only the last may be cut. */
  ghost predicate PrefixWithCut(offered: seq<string>, kept: seq<string>) {
    || kept <= offered
    || (&& 0 < |kept| <= |offered|
        && kept[..|kept| - 1] == offered[..|kept| - 1]
        && CutFrom(offered[|kept| - 1], kept[|kept| - 1]))
  }

  ghost predicate StreamOk(c: Capture, stream: Stream, offered: seq<string>) {
    && (c.remaining > 0 ==> KeptOf(c, stream) == offered)
    && PrefixWithCut(offered, KeptOf(c, stream))
    && LinesOf(c.calls, stream) == KeptOf(c, stream)
  }

  ghost predicate BudgetOk(c: Capture, limit: int) {
    && c.remaining >= 0
    && Charged(c.stdout) + Charged(c.stderr) + c.remaining <= limit
    && Notices(c.calls) == (if c.reported then 1 else 0)
    && (c.reported ==> c.remaining == 0)
  }

  lemma ChargedSnoc(pieces: seq<string>, line: string)
    ensures Charged(pieces + [line]) == Charged(pieces) + Bytes(line) + 1
  {
    assert (pieces + [line])[..|pieces|] == pieces;
  }

  lemma CallsSnoc(calls: seq<Call>, call: Call, stream: Stream)
    ensures Notices(calls + [call]) == Notices(calls) + if call.Notice? then 1 else 0
    ensures LinesOf(calls + [call], stream) == LinesOf(calls, stream) + if call.Line? && call.stream == stream
              then [call.text] else []
  {
    assert (calls + [call])[..|calls|] == calls;
  }

  lemma PushFacts(c: Capture, stream: Stream, line: string, other: Stream)
    ensures var p := Push(c, stream, line);
            && Charged(p.stdout) + Charged(p.stderr) == Charged(c.stdout) + Charged(c.stderr) + Bytes(line) + 1
            && Notices(p.calls) == Notices(c.calls)
            && LinesOf(p.calls, other) == LinesOf(c.calls, other) + (if other == stream then [line] else [])
            && KeptOf(p, other) == KeptOf(c, other) + (if other == stream then [line] else [])
            && p.reported == c.reported && p.remaining == c.remaining
  {
    hide Charged, Notices, LinesOf, Bytes;
    ChargedSnoc(KeptOf(c, stream), line);
    CallsSnoc(c.calls, Line(stream, line), other);
  }

  lemma ReportFacts(c: Capture, stream: Stream, other: Stream)
    ensures var p := Report(c, stream);
            && p.stdout == c.stdout && p.stderr == c.stderr && p.remaining == c.remaining && p.reported
            && Notices(p.calls) == Notices(c.calls) + (if c.reported then 0 else 1)
            && LinesOf(p.calls, other) == LinesOf(c.calls, other)
  {
    hide Notices, LinesOf;
    CallsSnoc(c.calls, Notice(stream), other);
  }

  lemma CutPieceFits(line: string, remaining: int)
    requires remaining > 0
    ensures Bytes(CutPiece(line, remaining)) + 1 <= remaining && CutFrom(line, CutPiece(line, remaining))
  {
    WithoutMarkIsShorter(Fitting(line, remaining - 1));
    assert Fitting(line, remaining - 1) == line[..|Fitting(line, remaining - 1)|];
  }

  /** A cut piece begins its line unless decoding dropped a byte order mark in front of other characters. */
  lemma CutIsPrefixIff(line: string, remaining: int)
    ensures CutPiece(line, remaining) <= line
       <==> || Fitting(line, remaining - 1) == "" || line[0] != BYTE_ORDER_MARK
            || forall k :: 0 <= k < |Fitting(line, remaining - 1)| ==> line[k] == BYTE_ORDER_MARK
  {
    var r := Fitting(line, remaining - 1);
    if r != "" && line[0] == BYTE_ORDER_MARK && r[1..] <= line {
      AllMarks(line, r, |r|);
    }
  }

  lemma {:induction false} AllMarks(line: string, r: string, n: nat)
    requires r <= line && r != "" && r[0] == BYTE_ORDER_MARK && r[1..] <= line && n <= |r|
    ensures forall k :: 0 <= k < n ==> line[k] == BYTE_ORDER_MARK
  {
    if n > 1 {
      AllMarks(line, r, n - 1);
      assert r[1..][n - 2] == line[n - 2];
    }
  }

  lemma RetainKeepsBudget(c: Capture, line: string, stream: Stream, limit: int)
    requires BudgetOk(c, limit)
    ensures BudgetOk(Retained(c, line, stream), limit)
  {
    hide Charged, Notices, Push, Report, CutPiece, Bytes;
    PushFacts(c, stream, line, stream);
    ReportFacts(c, stream, stream);
    if 0 < c.remaining < Bytes(line) + 1 {
      var piece := CutPiece(line, c.remaining);
      CutPieceFits(line, c.remaining);
      PushFacts(c, stream, piece, stream);
      ReportFacts((if piece != "" then Push(c, stream, piece) else c).(remaining := 0), stream, stream);
    }
  }

  /** A line that is offered is kept whole while the budget lasts, cut once, and dropped from then on. */
  lemma RetainKeepsStream(c: Capture, line: string, stream: Stream, other: Stream, offered: seq<string>)
    requires StreamOk(c, other, offered)
    ensures StreamOk(Retained(c, line, stream), other, if other == stream then offered + [line] else offered)
  {
    hide LinesOf, Push, Report, CutPiece, Bytes, KeptOf, PrefixWithCut;
    if c.remaining <= 0 {
      ReportFacts(c, stream, other);
      SameKept(Report(c, stream), c, other);
      CutIsStable(offered, KeptOf(c, other), line);
    } else if Bytes(line) + 1 <= c.remaining {
      PushFacts(c, stream, line, other);
      var p := Push(c, stream, line);
      SameKept(p.(remaining := c.remaining - (Bytes(line) + 1)), p, other);
      AllKept(KeptOf(p, other));
    } else {
      CutKeepsStream(c, line, stream, other, offered);
    }
  }

  lemma CutKeepsStream(c: Capture, line: string, stream: Stream, other: Stream, offered: seq<string>)
    requires StreamOk(c, other, offered) && 0 < c.remaining < Bytes(line) + 1
    ensures StreamOk(Retained(c, line, stream), other, if other == stream then offered + [line] else offered)
  {
    hide LinesOf, Push, Report, CutPiece, Bytes, KeptOf, PrefixWithCut, CutFrom;
    var piece := CutPiece(line, c.remaining);
    CutPieceFits(line, c.remaining);
    PushFacts(c, stream, piece, other);
    var p := if piece != "" then Push(c, stream, piece) else c;
    assert KeptOf(c, other) + [] == KeptOf(c, other) && KeptOf(c, other) == offered;
    assert KeptOf(p, other) == if piece != "" && other == stream then offered + [piece] else offered;
    assert LinesOf(p.calls, other) == KeptOf(p, other);
    SameKept(p.(remaining := 0), p, other);
    ReportFacts(p.(remaining := 0), stream, other);
    SameKept(Report(p.(remaining := 0), stream), p, other);
    AllKept(offered);
    CutIsStable(offered, offered, line);
    CutOnce(offered, line, piece);
  }

  lemma SameKept(a: Capture, b: Capture, stream: Stream)
    ensures a.stdout == b.stdout && a.stderr == b.stderr ==> KeptOf(a, stream) == KeptOf(b, stream)
  {
  }

  lemma AllKept(offered: seq<string>)
    ensures PrefixWithCut(offered, offered)
  {
  }

  lemma CutOnce(offered: seq<string>, line: string, piece: string)
    requires CutFrom(line, piece)
    ensures PrefixWithCut(offered + [line], offered + [piece])
  {
    hide CutFrom;
    assert (offered + [piece])[..|offered|] == offered == (offered + [line])[..|offered|];
  }

  lemma CutIsStable(offered: seq<string>, kept: seq<string>, line: string)
    ensures PrefixWithCut(offered, kept) ==> PrefixWithCut(offered + [line], kept)
  {
    hide CutFrom;
    if PrefixWithCut(offered, kept) && !(kept <= offered) {
      assert (offered + [line])[..|kept| - 1] == offered[..|kept| - 1];
    }
  }

  // ---------------------------------------------------------------------------------------------------------------
  // Lines.

  function StripReturn(s: string): string {
    if s != "" && s[|s| - 1] == '\r' then s[..|s| - 1] else s
  }

  /** The pieces after one more character. */
  function Extended(pieces: seq<string>, c: char): (r: seq<string>)
    requires |pieces| >= 1
    ensures |r| >= 1
  {
    var whole, rest := pieces[..|pieces| - 1], pieces[|pieces| - 1];
    if c == '\n' then whole + [StripReturn(rest), ""] else whole + [rest + [c]]
  }

  /**
   * The text split at line feeds, each with the carriage return before it; the last piece is what follows the last
   * one.
   */
  function Split(text: string): (r: seq<string>)
    ensures |r| >= 1
  {
    if text == "" then [""]
    else Extended(Split(text[..|text| - 1]), text[|text| - 1])
  }

  function Whole(pieces: seq<string>): seq<string>
    requires |pieces| >= 1
  {
    pieces[..|pieces| - 1]
  }

  function Rest(pieces: seq<string>): string
    requires |pieces| >= 1
  {
    pieces[|pieces| - 1]
  }

  /** Splitting can be resumed: only the last piece of the first part matters for what follows. */
  lemma {:induction false} SplitResumes(a: string, b: string)
    ensures Split(a + b) == Whole(Split(a)) + Split(Rest(Split(a)) + b)
  {
    hide *;
    if b == "" {
      SplitResumesWithNothing(a);
      assert a + b == a && Rest(Split(a)) + b == Rest(Split(a));
    } else {
      var init := b[..|b| - 1];
      SplitResumes(a, init);
      SplitResumesNext(a, init, b[|b| - 1]);
      assert b == init + [b[|b| - 1]];
    }
  }

  lemma SplitResumesNext(a: string, b: string, c: char)
    requires Split(a + b) == Whole(Split(a)) + Split(Rest(Split(a)) + b)
    ensures Split(a + (b + [c])) == Whole(Split(a)) + Split(Rest(Split(a)) + (b + [c]))
  {
    hide *;
    var rest := Rest(Split(a));
    SplitSnoc(a + b, c);
    SplitSnoc(rest + b, c);
    ExtendedInLast(Whole(Split(a)), Split(rest + b), c);
    assert a + (b + [c]) == (a + b) + [c];
    assert rest + (b + [c]) == (rest + b) + [c];
  }

  lemma SplitResumesWithNothing(a: string)
    ensures Split(a) == Whole(Split(a)) + Split(Rest(Split(a)))
  {
    RestSplitsToItself(a);
    hide Split;
    assert Whole(Split(a)) + [Rest(Split(a))] == Split(a);
  }

  lemma SplitSnoc(a: string, c: char)
    ensures Split(a + [c]) == Extended(Split(a), c)
  {
    assert (a + [c])[..|a|] == a;
  }

  lemma ExtendedInLast(before: seq<string>, pieces: seq<string>, c: char)
    requires |pieces| >= 1
    ensures Extended(before + pieces, c) == before + Extended(pieces, c)
  {
    assert (before + pieces)[..|before + pieces| - 1] == before + pieces[..|pieces| - 1];
  }

  lemma {:induction false} RestSplitsToItself(a: string)
    ensures Split(Rest(Split(a))) == [Rest(Split(a))]
  {
    if a != "" {
      RestSplitsToItself(a[..|a| - 1]);
      var rest := Rest(Split(a));
      if rest != "" {
        assert rest[..|rest| - 1] == Rest(Split(a[..|a| - 1]));
      }
    }
  }

  // ---------------------------------------------------------------------------------------------------------------
  // Runs. A step is a chunk of decoded text from a stream, or its end.

  datatype Step = Chunk(stream: Stream, text: string) | End(stream: Stream)

  datatype Progress = Progress(capture: Capture, pendingOut: string, pendingErr: string)

  function PendingOf(p: Progress, stream: Stream): string { if stream == Stdout then p.pendingOut else p.pendingErr }

  function WithPending(p: Progress, stream: Stream, pending: string): Progress {
    if stream == Stdout then p.(pendingOut := pending) else p.(pendingErr := pending)
  }

  /** The lines a step offers for retention: those completed, and a rest that grew too long or stands at the end. */
  function OfferedBy(p: Progress, step: Step): seq<string> {
    match step
    case Chunk(stream, text) =>
      if p.capture.remaining <= 0 then []
      else
        var pieces := Split(PendingOf(p, stream) + text);
        Whole(pieces) + if Bytes(Rest(pieces)) >= MAX_PENDING_LINE_BYTES then [Rest(pieces)] else []
    case End(stream) => if PendingOf(p, stream) != "" then [PendingOf(p, stream)] else []
  }

  function After(p: Progress, step: Step): Progress {
    match step
    case Chunk(stream, text) =>
      if p.capture.remaining <= 0 then WithPending(p.(capture := Report(p.capture, stream)), stream, "")
      else
        var rest := Rest(Split(PendingOf(p, stream) + text));
        WithPending(p.(capture := RetainedAll(p.capture, OfferedBy(p, step), stream)), stream,
                    if Bytes(rest) >= MAX_PENDING_LINE_BYTES then "" else rest)
    case End(stream) => p.(capture := RetainedAll(p.capture, OfferedBy(p, step), stream))
  }

  function Start(limit: nat): Progress { Progress(Capture(limit, false, [], [], []), "", "") }

  function Run(limit: nat, steps: seq<Step>): Progress {
    if steps == [] then Start(limit) else After(Run(limit, steps[..|steps| - 1]), steps[|steps| - 1])
  }

  function Offered(limit: nat, steps: seq<Step>, stream: Stream): seq<string> {
    if steps == [] then []
    else
      var init, step := steps[..|steps| - 1], steps[|steps| - 1];
      Offered(limit, init, stream) + if step.stream == stream then OfferedBy(Run(limit, init), step) else []
  }

  class Output {
    var remaining: int
    var reported: bool
    var stdout: seq<string>
    var stderr: seq<string>
    var calls: seq<Call>
    var pendingOut: string
    var pendingErr: string

    constructor (limit: nat)
      ensures Contents() == Start(limit)
    {
      remaining, reported, stdout, stderr, calls, pendingOut, pendingErr := limit, false, [], [], [], "", "";
    }

    function Contents(): Progress
      reads this
    {
      Progress(Capture(remaining, reported, stdout, stderr, calls), pendingOut, pendingErr)
    }

    method ReportTruncation(stream: Stream)
      modifies this
      ensures Contents() == old(Contents()).(capture := Report(old(Contents()).capture, stream))
    {
      if reported { return; }
      reported := true;
      calls := calls + [Notice(stream)];
    }

    method Keep(stream: Stream, line: string)
      modifies this
      ensures Contents() == old(Contents()).(capture := Push(old(Contents()).capture, stream, line))
    {
      if stream == Stdout { stdout := stdout + [line]; } else { stderr := stderr + [line]; }
      calls := calls + [Line(stream, line)];
    }

    /** The line is kept, and charged its bytes and one more; or cut, which ends the budget; or dropped. */
    method Retain(line: string, stream: Stream)
      modifies this
      ensures var kept := if old(remaining) <= 0 then []
                          else if Bytes(line) < old(remaining) then [line]
                          else if CutPiece(line, old(remaining)) == "" then [] else [CutPiece(line, old(remaining))];
              && stdout == old(stdout) + (if stream == Stdout then kept else [])
              && stderr == old(stderr) + (if stream == Stderr then kept else [])
              && calls == old(calls) + (if kept == [] then [] else [Line(stream, kept[0])])
                       + if Bytes(line) < old(remaining) || old(reported) then [] else [Notice(stream)]
      ensures Bytes(line) < old(remaining) ==>
                remaining == old(remaining) - Bytes(line) - 1 && reported == old(reported)
      ensures Bytes(line) >= old(remaining) ==>
                reported && remaining == if old(remaining) > 0 then 0 else old(remaining)
      ensures Contents() == old(Contents()).(capture := Retained(old(Contents()).capture, line, stream))
    {
      if remaining <= 0 {
        ReportTruncation(stream);
        return;
      }
      var bytes := Bytes(line) + 1;
      if bytes <= remaining {
        remaining := remaining - bytes;
        Keep(stream, line);
        return;
      }
      var piece := CutPiece(line, remaining);
      if piece != "" {
        Keep(stream, piece);
      }
      remaining := 0;
      ReportTruncation(stream);
    }

    method SetPending(stream: Stream, pending: string)
      modifies this
      ensures Contents() == WithPending(old(Contents()), stream, pending)
    {
      if stream == Stdout { pendingOut := pending; } else { pendingErr := pending; }
    }

    method RetainAll(lines: seq<string>, stream: Stream)
      modifies this
      ensures Contents() == old(Contents()).(capture := RetainedAll(old(Contents()).capture, lines, stream))
    {
      for i := 0 to |lines|
        invariant Contents() == old(Contents()).(capture := RetainedAll(old(Contents()).capture, lines[..i], stream))
      {
        assert lines[..i + 1][..i] == lines[..i];
        Retain(lines[i], stream);
      }
      assert lines[..|lines|] == lines;
    }

    /** One chunk of decoded text from a stream. */
    method Consume(stream: Stream, text: string)
      modifies this
      ensures Contents() == After(old(Contents()), Chunk(stream, text))
    {
      hide Split, RetainedAll, Bytes;
      if remaining <= 0 {
        ReportTruncation(stream);
        SetPending(stream, "");
        return;
      }
      ghost var before := Contents();
      var pieces := Split(PendingOf(Contents(), stream) + text);
      var lines, pending := Whole(pieces), Rest(pieces);
      RetainAll(lines, stream);
      if Bytes(pending) >= MAX_PENDING_LINE_BYTES {
        RetainedSnoc(before.capture, lines, pending, stream);
        Retain(pending, stream);
        pending := "";
      } else {
        assert lines + [] == lines;
      }
      SetPending(stream, pending);
    }

    /** The end of a stream. */
    method Finish(stream: Stream)
      modifies this
      ensures Contents() == After(old(Contents()), End(stream))
    {
      var pending := PendingOf(Contents(), stream);
      if pending != "" {
        RetainedSnoc(Contents().capture, [], pending, stream);
        assert [] + [pending] == [pending];
        Retain(pending, stream);
      }
    }
  }

  lemma RetainedSnoc(c: Capture, lines: seq<string>, line: string, stream: Stream)
    ensures RetainedAll(c, lines + [line], stream) == Retained(RetainedAll(c, lines, stream), line, stream)
    ensures RetainedAll(c, [], stream) == c
  {
    assert (lines + [line])[..|lines|] == lines;
  }

  // ---------------------------------------------------------------------------------------------------------------
  // What holds for any interleaving of the two streams.

  lemma {:induction false} RetainAllKeeps(c: Capture, lines: seq<string>, stream: Stream, limit: int,
                                          outOffered: seq<string>, errOffered: seq<string>)
    requires BudgetOk(c, limit) && StreamOk(c, Stdout, outOffered) && StreamOk(c, Stderr, errOffered)
    ensures var c' := RetainedAll(c, lines, stream);
            && BudgetOk(c', limit)
            && StreamOk(c', Stdout, if stream == Stdout then outOffered + lines else outOffered)
            && StreamOk(c', Stderr, if stream == Stderr then errOffered + lines else errOffered)
  {
    hide BudgetOk, StreamOk, Retained;
    if lines == [] {
      assert outOffered + lines == outOffered && errOffered + lines == errOffered;
    } else {
      var init, last := lines[..|lines| - 1], lines[|lines| - 1];
      RetainAllKeeps(c, init, stream, limit, outOffered, errOffered);
      var before := RetainedAll(c, init, stream);
      RetainKeepsBudget(before, last, stream, limit);
      RetainKeepsStream(before, last, stream, Stdout, if stream == Stdout then outOffered + init else outOffered);
      RetainKeepsStream(before, last, stream, Stderr, if stream == Stderr then errOffered + init else errOffered);
      assert outOffered + lines == outOffered + init + [last] && errOffered + lines == errOffered + init + [last];
    }
  }

  lemma ReportKeeps(c: Capture, stream: Stream, limit: int, outOffered: seq<string>, errOffered: seq<string>)
    requires BudgetOk(c, limit) && StreamOk(c, Stdout, outOffered) && StreamOk(c, Stderr, errOffered)
              && c.remaining <= 0
    ensures BudgetOk(Report(c, stream), limit) && StreamOk(Report(c, stream), Stdout, outOffered)
              && StreamOk(Report(c, stream), Stderr, errOffered)
  {
    hide Charged, Notices, LinesOf, PrefixWithCut, Report;
    ReportFacts(c, stream, Stdout);
    ReportFacts(c, stream, Stderr);
  }

  /**
   * For any interleaving of the chunks of both streams: what is retained, one byte for each piece included, stays
   * within the limit; the notice comes at most once; each stream keeps a prefix of the lines it offered, all of them
   * while the budget lasts, with only the last possibly cut; and the callbacks saw exactly the kept lines.
   */
  lemma {:induction false} CaptureIsBounded(limit: nat, steps: seq<Step>)
    ensures var c := Run(limit, steps).capture;
            BudgetOk(c, limit) && StreamOk(c, Stdout, Offered(limit, steps, Stdout))
                && StreamOk(c, Stderr, Offered(limit, steps, Stderr))
  {
    hide BudgetOk, StreamOk, RetainedAll, Report;
    if steps == [] {
      StartIsOk(limit);
    } else {
      var init, step := steps[..|steps| - 1], steps[|steps| - 1];
      CaptureIsBounded(limit, init);
      var p := Run(limit, init);
      var outOffered, errOffered := Offered(limit, init, Stdout), Offered(limit, init, Stderr);
      RetainAllKeeps(p.capture, OfferedBy(p, step), step.stream, limit, outOffered, errOffered);
      if step.Chunk? && p.capture.remaining <= 0 {
        ReportKeeps(p.capture, step.stream, limit, outOffered, errOffered);
      }
      assert outOffered + [] == outOffered && errOffered + [] == errOffered;
    }
  }

  lemma StartIsOk(limit: nat)
    ensures BudgetOk(Start(limit).capture, limit) && StreamOk(Start(limit).capture, Stdout, [])
              && StreamOk(Start(limit).capture, Stderr, [])
  {
  }

  // ---------------------------------------------------------------------------------------------------------------
  // Below both limits, how the text is cut into chunks does not matter.

  function TextOf(steps: seq<Step>, stream: Stream): string {
    if steps == [] then ""
    else
      var last := steps[|steps| - 1];
      TextOf(steps[..|steps| - 1], stream) + if last.Chunk? && last.stream == stream then last.text else ""
  }

  /** The stream has ended, with no chunk and no second end after that. */
  predicate Ended(steps: seq<Step>, stream: Stream) {
    steps != [] && (if steps[|steps| - 1].stream == stream then steps[|steps| - 1].End?
        else Ended(steps[..|steps| - 1], stream))
  }

  /** Nothing comes from a stream after its end. */
  predicate WellFormed(steps: seq<Step>) {
    steps == [] || (WellFormed(steps[..|steps| - 1]) && !Ended(steps[..|steps| - 1], steps[|steps| - 1].stream))
  }

  /** The lines of a whole text; a text that ends in a line feed has no further, empty line. */
  function Lines(text: string): seq<string> {
    Whole(Split(text)) + if Rest(Split(text)) != "" then [Rest(Split(text))] else []
  }

  /** Both limits are out of reach: no line comes near the longest pending one, and all lines fit with room to spare. */
  ghost predicate BelowLimits(limit: nat, outText: string, errText: string) {
    && Charged(Lines(outText)) + Charged(Lines(errText)) < limit
    && (forall line :: line in Split(outText) ==> Bytes(line) + 1 < MAX_PENDING_LINE_BYTES)
    && (forall line :: line in Split(errText) ==> Bytes(line) + 1 < MAX_PENDING_LINE_BYTES)
  }

  lemma {:induction false} ChargedAppend(a: seq<string>, b: seq<string>)
    ensures Charged(a + b) == Charged(a) + Charged(b)
  {
    if b == [] {
      assert a + b == a;
    } else {
      ChargedAppend(a, b[..|b| - 1]);
      assert (a + b)[..|a + b| - 1] == a + b[..|b| - 1];
    }
  }

  lemma {:induction false} RetainAllFits(c: Capture, lines: seq<string>, stream: Stream)
    requires Charged(lines) < c.remaining
    ensures RetainedAll(c, lines, stream).remaining == c.remaining - Charged(lines)
  {
    if lines != [] {
      RetainAllFits(c, lines[..|lines| - 1], stream);
    }
  }

  /** A pending rest is at most one byte, its carriage return, longer than the line it becomes part of. */
  lemma {:induction false} RestBecomesFirst(rest: string, b: string)
    requires Split(rest) == [rest]
    ensures Bytes(rest) <= Bytes(Split(rest + b)[0]) + 1
    ensures |Split(rest + b)| == 1 ==> rest <= Split(rest + b)[0]
  {
    if b == "" {
      assert rest + b == rest;
    } else {
      var init, c := b[..|b| - 1], b[|b| - 1];
      RestBecomesFirst(rest, init);
      SplitSnoc(rest + init, c);
      assert rest + b == (rest + init) + [c];
      hide Split;
      if |Split(rest + init)| == 1 {
        OneMore(rest, Split(rest + init)[0], c);
      }
    }
  }

  lemma OneMore(rest: string, line: string, c: char)
    requires rest <= line
    ensures Bytes(rest) <= Bytes(line + [c]) && rest <= line + [c]
    ensures Bytes(rest) <= Bytes(StripReturn(line)) + 1
  {
    BytesAppend(rest, line[|rest|..]);
    assert rest + line[|rest|..] == line;
    assert (line + [c])[..|line|] == line;
  }

  /** What has been split so far agrees with the lines of the whole text. */
  lemma SoFar(a: string, b: string)
    ensures |Split(a)| <= |Split(a + b)|
    ensures Whole(Split(a)) <= Lines(a + b) && Bytes(Rest(Split(a))) <= Bytes(Split(a + b)[|Split(a)| - 1]) + 1
  {
    hide Split, Bytes;
    SplitResumes(a, b);
    RestSplitsToItself(a);
    RestBecomesFirst(Rest(Split(a)), b);
  }

  /** What the run has done with one stream. */
  ghost predicate Faithful(limit: nat, steps: seq<Step>, stream: Stream) {
    var text := TextOf(steps, stream);
    if Ended(steps, stream) then Offered(limit, steps, stream) == Lines(text)
    else
      && Offered(limit, steps, stream) == Whole(Split(text))
      && PendingOf(Run(limit, steps), stream) == Rest(Split(text))
  }

  ghost predicate Unspent(limit: nat, steps: seq<Step>) {
    Run(limit, steps).capture.remaining
        == limit - Charged(Offered(limit, steps, Stdout)) - Charged(Offered(limit, steps, Stderr)) > 0
  }

  /** The text read so far begins the whole one, and an ended stream has been read in full. */
  ghost predicate Within(steps: seq<Step>, stream: Stream, text: string) {
    TextOf(steps, stream) <= text && (Ended(steps, stream) ==> TextOf(steps, stream) == text)
  }

  /** One step of a stream whose pending text is right offers the right lines. */
  lemma StepIsFaithful(limit: nat, steps: seq<Step>, stream: Stream, text: string)
    requires steps != [] && steps[|steps| - 1].stream == stream
    requires var init := steps[..|steps| - 1];
              Faithful(limit, init, stream) && !Ended(init, stream) && Run(limit, init).capture.remaining > 0
    requires Within(steps, stream, text) && forall line :: line in Split(text) ==>
              Bytes(line) + 1 < MAX_PENDING_LINE_BYTES
    ensures Faithful(limit, steps, stream)
  {
    hide Split, Bytes, RetainedAll, Whole, Rest, Lines, Report;
    var init, step := steps[..|steps| - 1], steps[|steps| - 1];
    var before := TextOf(init, stream);
    if step.Chunk? {
      ChunkLines(before, step.text, text);
      assert Whole(Split(Rest(Split(before)) + step.text)) + [] == Whole(Split(Rest(Split(before)) + step.text));
    } else {
      assert before + "" == before;
      LinesAtEnd(before);
    }
  }

  lemma LinesAtEnd(text: string)
    ensures Lines(text) == Whole(Split(text)) + if Rest(Split(text)) != "" then [Rest(Split(text))] else []
  {
  }

  lemma ChunkLines(before: string, chunk: string, text: string)
    requires before + chunk <= text && forall line :: line in Split(text) ==> Bytes(line) + 1 < MAX_PENDING_LINE_BYTES
    ensures Whole(Split(before + chunk)) == Whole(Split(before)) + Whole(Split(Rest(Split(before)) + chunk))
    ensures Rest(Split(before + chunk)) == Rest(Split(Rest(Split(before)) + chunk))
    ensures Bytes(Rest(Split(before + chunk))) < MAX_PENDING_LINE_BYTES
  {
    hide Split, Bytes, Lines;
    var now := before + chunk;
    SplitResumes(before, chunk);
    SoFar(now, text[|now|..]);
    assert now + text[|now|..] == text;
    assert Split(text)[|Split(now)| - 1] in Split(text);
  }

  lemma OtherStreamKeeps(limit: nat, steps: seq<Step>, stream: Stream)
    requires steps != [] && steps[|steps| - 1].stream != stream
    ensures Offered(limit, steps, stream) == Offered(limit, steps[..|steps| - 1], stream)
              && TextOf(steps, stream) == TextOf(steps[..|steps| - 1], stream)
    ensures Ended(steps, stream) == Ended(steps[..|steps| - 1], stream)
    ensures PendingOf(Run(limit, steps), stream) == PendingOf(Run(limit, steps[..|steps| - 1]), stream)
  {
    hide Split, Bytes, RetainedAll, Report;
  }

  lemma {:induction false} PrefixCharges(a: seq<string>, b: seq<string>)
    requires a <= b
    ensures Charged(a) <= Charged(b)
  {
    ChargedAppend(a, b[|a|..]);
    assert a + b[|a|..] == b;
  }

  lemma OfferedWithin(limit: nat, steps: seq<Step>, stream: Stream, text: string)
    requires Faithful(limit, steps, stream) && Within(steps, stream, text)
    ensures Charged(Offered(limit, steps, stream)) <= Charged(Lines(text))
  {
    hide Split, Bytes, Charged;
    var now := TextOf(steps, stream);
    if !Ended(steps, stream) {
      SoFar(now, text[|now|..]);
      assert now + text[|now|..] == text;
      PrefixCharges(Whole(Split(now)), Lines(text));
    }
  }

  lemma WithinBefore(steps: seq<Step>, stream: Stream, text: string)
    requires steps != [] && WellFormed(steps) && Within(steps, stream, text)
    ensures Within(steps[..|steps| - 1], stream, text)
  {
  }

  lemma StepIsUnspent(limit: nat, steps: seq<Step>, stream: Stream, other: Stream)
    requires steps != [] && steps[|steps| - 1].stream == stream && other != stream
    requires Unspent(limit, steps[..|steps| - 1])
    requires Charged(Offered(limit, steps, stream)) + Charged(Offered(limit, steps, other)) < limit
    ensures Unspent(limit, steps)
  {
    hide Split, Bytes, RetainedAll, Charged;
    var init, step := steps[..|steps| - 1], steps[|steps| - 1];
    var offers := OfferedBy(Run(limit, init), step);
    OtherStreamKeeps(limit, steps, other);
    ChargedAppend(Offered(limit, init, stream), offers);
    RetainAllFits(Run(limit, init).capture, offers, stream);
  }

  lemma {:induction false} RunIsFaithful(limit: nat, steps: seq<Step>, outText: string, errText: string)
    requires BelowLimits(limit, outText, errText) && WellFormed(steps)
    requires Within(steps, Stdout, outText) && Within(steps, Stderr, errText)
    ensures Faithful(limit, steps, Stdout) && Faithful(limit, steps, Stderr) && Unspent(limit, steps)
  {
    if steps == [] {
      NothingIsFaithful(limit, outText, errText);
    } else {
      hide Within, Faithful, TextOf, Offered, Run, Charged, Lines, Bytes, Split;
      var init, stream := steps[..|steps| - 1], steps[|steps| - 1].stream;
      var other := if stream == Stdout then Stderr else Stdout;
      WithinBefore(steps, Stdout, outText);
      WithinBefore(steps, Stderr, errText);
      RunIsFaithful(limit, init, outText, errText);
      StepIsFaithful(limit, steps, stream, if stream == Stdout then outText else errText);
      OtherIsFaithful(limit, steps, other);
      OfferedWithin(limit, steps, Stdout, outText);
      OfferedWithin(limit, steps, Stderr, errText);
      StepIsUnspent(limit, steps, stream, other);
    }
  }

  lemma NothingIsFaithful(limit: nat, outText: string, errText: string)
    requires BelowLimits(limit, outText, errText)
    ensures Faithful(limit, [], Stdout) && Faithful(limit, [], Stderr) && Unspent(limit, [])
  {
  }

  lemma OtherIsFaithful(limit: nat, steps: seq<Step>, stream: Stream)
    requires steps != [] && steps[|steps| - 1].stream != stream && Faithful(limit, steps[..|steps| - 1], stream)
    ensures Faithful(limit, steps, stream)
  {
    hide Split, Run, Offered, TextOf, Ended;
    OtherStreamKeeps(limit, steps, stream);
  }

  /**
   * Below both limits the retained lines are the lines of the two texts, however these were cut into chunks and
   * however the chunks of the two streams interleaved; a carriage return and its line feed may arrive in different
   * chunks.
   */
  lemma ChunkingDoesNotMatter(limit: nat, steps: seq<Step>)
    requires WellFormed(steps) && Ended(steps, Stdout) && Ended(steps, Stderr)
    requires BelowLimits(limit, TextOf(steps, Stdout), TextOf(steps, Stderr))
    ensures var c := Run(limit, steps).capture;
            c.stdout == Lines(TextOf(steps, Stdout)) && c.stderr == Lines(TextOf(steps, Stderr)) && !c.reported
  {
    hide Split, Bytes, Charged, Lines, Offered, TextOf, Run, PrefixWithCut, LinesOf, Notices;
    RunIsFaithful(limit, steps, TextOf(steps, Stdout), TextOf(steps, Stderr));
    CaptureIsBounded(limit, steps);
  }
}
