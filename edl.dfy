/** The edit decision list written for an `.edl` output: `make_edl` and
    `make_edl_segment` (videogrep/videogrep.py:74-127). Clip times are in
    milliseconds; the frame rate of a file (`get_fps`) and the rendering of
    a time as a timecode (`Timecode(fps, start_seconds=...)`) are given. */
module Edl {
  import opened Strings
  import opened Numerals
  import opened Compose
  import Clips

  /** `get_fps(file)` and `str(Timecode(fps, start_seconds=t))`, with `t`
      in milliseconds. */
  datatype Media = Media(fps: string -> real, timecode: (real, int) -> string)

  // ---------------------------------------------------------------------
  // one event

  /** `full_name[0:7]` when the name is longer than seven characters. */
  function Reel(fullName: string): (reel: string)
    ensures |reel| == if |fullName| > 7 then 7 else |fullName|
    ensures reel == fullName[..|reel|]
  {
    if |fullName| > 7 then fullName[0..7] else fullName
  }

  /** The fixed parts of the template of `make_edl_segment`
      (videogrep/videogrep.py:79): the track and transition columns, the
      labels of the clip-name, comment and reel lines. */
  const Track := " AA/V  C        "
  const ClipLabel := "* FROM CLIP NAME:  "
  const Comment := "* COMMENT: "
  const ReelLabel := " FINAL CUT PRO REEL: "
  const ReplacedBy := " REPLACED BY: "

  /** The first line of an event: number, name, track and transition, then
      the source in and out and the record in and out timecodes. */
  function EventLine(n: string, fullName: string, srcIn: string, srcOut: string, recIn: string, recOut: string): string {
    n + " " + fullName + Track + srcIn + " " + srcOut + " " + recIn + " " + recOut
  }

  /** The text `make_edl_segment` returns: its template filled in. */
  function EdlSegment(n: string, timeIn: int, timeOut: int, recIn: int, recOut: int,
                      fullName: string, filename: string, fps: real, timecode: (real, int) -> string): string
  {
    n + " " + fullName + Track + timecode(fps, timeIn) + " " + timecode(fps, timeOut) + " " +
    timecode(fps, recIn) + " " + timecode(fps, recOut) + "\n" + ClipLabel + filename + "\n" +
    Comment + "\n" + ReelLabel + fullName + ReplacedBy + Reel(fullName) + "\n" + "\n"
  }

  /** The lines of one event block. */
  function SegmentLines(n: string, timeIn: int, timeOut: int, recIn: int, recOut: int,
                        fullName: string, filename: string, fps: real, timecode: (real, int) -> string): (lines: seq<string>)
    ensures |lines| == 5
  {
    [EventLine(n, fullName, timecode(fps, timeIn), timecode(fps, timeOut), timecode(fps, recIn), timecode(fps, recOut)),
     ClipLabel + filename,
     Comment,
     ReelLabel + fullName + ReplacedBy + Reel(fullName),
     ""]
  }

  lemma NoLineBreakConcat(a: string, b: string)
    requires NoLineBreak(a) && NoLineBreak(b)
    ensures NoLineBreak(a + b)
  {
    assert forall i :: 0 <= i < |a + b| ==> (a + b)[i] == if i < |a| then a[i] else b[i - |a|];
  }

  lemma Terminated5(a: string, b: string, c: string, d: string, e: string)
    ensures Terminated([a, b, c, d, e]) == a + "\n" + (b + "\n" + (c + "\n" + (d + "\n" + (e + "\n"))))
  {
    assert [e][1..] == [];
    assert Terminated([e]) == e + "\n";
    assert [d, e][1..] == [e];
    assert Terminated([d, e]) == d + "\n" + (e + "\n");
    assert [c, d, e][1..] == [d, e];
    assert Terminated([c, d, e]) == c + "\n" + (d + "\n" + (e + "\n"));
    assert [b, c, d, e][1..] == [c, d, e];
    assert Terminated([b, c, d, e]) == b + "\n" + (c + "\n" + (d + "\n" + (e + "\n")));
    assert [a, b, c, d, e][1..] == [b, c, d, e];
  }

  /** The template read as five terminated lines, for any filling. */
  lemma TemplateLines(n: string, f: string, t1: string, t2: string, t3: string, t4: string, file: string, r: string)
    ensures n + " " + f + Track + t1 + " " + t2 + " " + t3 + " " + t4 + "\n" + ClipLabel + file + "\n" +
      Comment + "\n" + ReelLabel + f + ReplacedBy + r + "\n" + "\n" ==
      Terminated([EventLine(n, f, t1, t2, t3, t4), ClipLabel + file, Comment, ReelLabel + f + ReplacedBy + r, ""])
  {
    Terminated5(EventLine(n, f, t1, t2, t3, t4), ClipLabel + file, Comment, ReelLabel + f + ReplacedBy + r, "");
  }

  lemma SegmentIsTerminated(n: string, timeIn: int, timeOut: int, recIn: int, recOut: int,
                            fullName: string, filename: string, fps: real, timecode: (real, int) -> string)
    ensures EdlSegment(n, timeIn, timeOut, recIn, recOut, fullName, filename, fps, timecode) ==
      Terminated(SegmentLines(n, timeIn, timeOut, recIn, recOut, fullName, filename, fps, timecode))
  {
    TemplateLines(n, fullName, timecode(fps, timeIn), timecode(fps, timeOut), timecode(fps, recIn), timecode(fps, recOut),
      filename, Reel(fullName));
  }

  /** The lines of an event block have no line break of their own when the
      number, the names and the timecodes have none. */
  lemma SegmentLinesNoBreak(n: string, timeIn: int, timeOut: int, recIn: int, recOut: int,
                            fullName: string, filename: string, fps: real, timecode: (real, int) -> string)
    requires NoLineBreak(n) && NoLineBreak(fullName) && NoLineBreak(filename)
    requires NoLineBreak(timecode(fps, timeIn)) && NoLineBreak(timecode(fps, timeOut))
    requires NoLineBreak(timecode(fps, recIn)) && NoLineBreak(timecode(fps, recOut))
    ensures forall k :: 0 <= k < 5 ==>
      NoLineBreak(SegmentLines(n, timeIn, timeOut, recIn, recOut, fullName, filename, fps, timecode)[k])
  {
    var t1, t2, t3, t4 := timecode(fps, timeIn), timecode(fps, timeOut), timecode(fps, recIn), timecode(fps, recOut);
    assert NoLineBreak(" ") && NoLineBreak(Track);
    NoLineBreakConcat(n, " ");
    NoLineBreakConcat(n + " ", fullName);
    NoLineBreakConcat(n + " " + fullName, Track);
    NoLineBreakConcat(n + " " + fullName + Track, t1);
    NoLineBreakConcat(n + " " + fullName + Track + t1, " ");
    NoLineBreakConcat(n + " " + fullName + Track + t1 + " ", t2);
    NoLineBreakConcat(n + " " + fullName + Track + t1 + " " + t2, " ");
    NoLineBreakConcat(n + " " + fullName + Track + t1 + " " + t2 + " ", t3);
    NoLineBreakConcat(n + " " + fullName + Track + t1 + " " + t2 + " " + t3, " ");
    NoLineBreakConcat(n + " " + fullName + Track + t1 + " " + t2 + " " + t3 + " ", t4);
    assert NoLineBreak(ClipLabel) && NoLineBreak(Comment) && NoLineBreak(ReelLabel) && NoLineBreak(ReplacedBy);
    NoLineBreakConcat(ClipLabel, filename);
    assert NoLineBreak(Reel(fullName));
    NoLineBreakConcat(ReelLabel, fullName);
    NoLineBreakConcat(ReelLabel + fullName, ReplacedBy);
    NoLineBreakConcat(ReelLabel + fullName + ReplacedBy, Reel(fullName));
  }

  /** Read back line by line, an event block gives the event line with the
      untruncated name, the source file, the empty comment, the name and its
      seven-character reel, and the blank line that ends the block. */
  lemma EdlSegmentLines(n: string, timeIn: int, timeOut: int, recIn: int, recOut: int,
                        fullName: string, filename: string, fps: real, timecode: (real, int) -> string)
    requires NoLineBreak(n) && NoLineBreak(fullName) && NoLineBreak(filename)
    requires NoLineBreak(timecode(fps, timeIn)) && NoLineBreak(timecode(fps, timeOut))
    requires NoLineBreak(timecode(fps, recIn)) && NoLineBreak(timecode(fps, recOut))
    ensures SplitLines(EdlSegment(n, timeIn, timeOut, recIn, recOut, fullName, filename, fps, timecode)) ==
      SegmentLines(n, timeIn, timeOut, recIn, recOut, fullName, filename, fps, timecode)
  {
    SegmentIsTerminated(n, timeIn, timeOut, recIn, recOut, fullName, filename, fps, timecode);
    SegmentLinesNoBreak(n, timeIn, timeOut, recIn, recOut, fullName, filename, fps, timecode);
    SplitLinesTerminated(SegmentLines(n, timeIn, timeOut, recIn, recOut, fullName, filename, fps, timecode));
  }

  // ---------------------------------------------------------------------
  // numbering

  /** `str(index + 1).zfill(4)`. */
  function Number(i: nat): string {
    ZFill(Decimal(i + 1), 4)
  }

  /** `'reel_{}'.format(n)`. */
  function FullName(i: nat): string {
    "reel_" + Number(i)
  }

  /** The events are numbered from 1 in decimal, at least four digits
      wide. */
  lemma NumberValue(i: nat)
    ensures |Number(i)| >= 4 && AllDigits(Number(i)) && DigitsValue(Number(i)) == i + 1
  {
    ZFillDecimal(i + 1, 4);
  }

  /** No two events share a number or a name. */
  lemma NumbersDistinct(i: nat, j: nat)
    requires i != j
    ensures Number(i) != Number(j) && FullName(i) != FullName(j)
  {
    if Number(i) == Number(j) {
      ZFillDecimalInjective(i + 1, j + 1, 4);
    }
    assert Number(i) == FullName(i)[5..] && Number(j) == FullName(j)[5..];
  }

  lemma DecimalShort(n: nat)
    requires n < 100
    ensures |Decimal(n)| <= 2
  {
  }

  /** The reel cut to seven characters keeps only "reel_" and the first two
      digits, so the first 99 events all carry the reel "reel_00". */
  lemma ReelsCollide(i: nat)
    requires i < 99
    ensures Reel(FullName(i)) == "reel_00"
  {
    DecimalShort(i + 1);
    var r := Number(i);
    assert r[0] == '0' && r[1] == '0';
    assert FullName(i)[..7] == "reel_" + r[..2];
  }

  // ---------------------------------------------------------------------
  // the record timeline

  function Duration(c: Segment): int {
    c.end - c.start
  }

  /** The total length of the clips. */
  function Durations(s: seq<Segment>): int
    decreases |s|
  {
    if s == [] then 0 else Durations(s[..|s| - 1]) + Duration(s[|s| - 1])
  }

  lemma {:induction false} DurationsAppend(a: seq<Segment>, b: seq<Segment>)
    ensures Durations(a + b) == Durations(a) + Durations(b)
    decreases |b|
  {
    if b == [] {
      assert a + b == a;
    } else {
      assert (a + b)[..|a + b| - 1] == a + b[..|b| - 1];
      DurationsAppend(a, b[..|b| - 1]);
    }
  }

  /** Record in of the clip at `i`: where it lands on the edited timeline. */
  function RecIn(s: seq<Segment>, i: nat): int
    requires i <= |s|
  {
    Durations(s[..i])
  }

  /** The timeline has no gaps: the first clip is recorded from 0, each
      clip's record out is its record in plus its length, and the next clip
      is recorded from there. */
  lemma RecordContiguous(s: seq<Segment>, i: nat)
    requires i < |s|
    ensures RecIn(s, 0) == 0
    ensures RecIn(s, i + 1) == RecIn(s, i) + s[i].end - s[i].start
  {
    assert s[..i + 1][..i] == s[..i];
  }

  /** With no clip of negative length, record times never go back. */
  lemma {:induction false} RecordMonotone(s: seq<Segment>, i: nat, j: nat)
    requires i <= j <= |s|
    requires forall k :: 0 <= k < |s| ==> s[k].start <= s[k].end
    ensures RecIn(s, i) <= RecIn(s, j)
    decreases j - i
  {
    if i < j {
      RecordMonotone(s, i, j - 1);
      RecordContiguous(s, j - 1);
    }
  }

  /** Padding every clip by `p` at both ends lengthens the timeline by
      `2 * p` per clip. */
  lemma {:induction false} PaddedTimeline(s: seq<Segment>, sync: int, p: int)
    ensures Durations(Clips.Shifted(s, sync, p)) == Durations(s) + |s| * (2 * p)
    decreases |s|
  {
    if s != [] {
      var init := s[..|s| - 1];
      assert Clips.Shifted(s, sync, p)[..|s| - 1] == Clips.Shifted(init, sync, p);
      PaddedTimeline(init, sync, p);
      assert |s| * (2 * p) == |init| * (2 * p) + 2 * p;
    }
  }

  // ---------------------------------------------------------------------
  // the whole list

  /** The second line of the header. */
  const FrameCode := "FCM: NON-DROP FRAME"

  /** `"TITLE: {}\nFCM: NON-DROP FRAME\n\n".format(name)`. */
  function Header(name: string): string {
    "TITLE: " + name + "\n" + FrameCode + "\n" + "\n"
  }

  function HeaderLines(name: string): seq<string> {
    ["TITLE: " + name, FrameCode, ""]
  }

  lemma HeaderIsTerminated(name: string)
    ensures Header(name) == Terminated(HeaderLines(name))
  {
    var t := "TITLE: " + name;
    assert [""][1..] == [];
    assert Terminated([""]) == "\n";
    assert [FrameCode, ""][1..] == [""];
    assert Terminated([FrameCode, ""]) == FrameCode + "\n" + "\n";
    assert [t, FrameCode, ""][1..] == [FrameCode, ""];
  }

  /** The block of the clip at `i`, with its record times. */
  function Block(media: Media, s: seq<Segment>, i: nat): string
    requires i < |s|
  {
    EdlSegment(Number(i), s[i].start, s[i].end, RecIn(s, i), RecIn(s, i + 1), FullName(i), s[i].file,
      media.fps(s[i].file), media.timecode)
  }

  function BlockLines(media: Media, s: seq<Segment>, i: nat): seq<string>
    requires i < |s|
  {
    SegmentLines(Number(i), s[i].start, s[i].end, RecIn(s, i), RecIn(s, i + 1), FullName(i), s[i].file,
      media.fps(s[i].file), media.timecode)
  }

  /** The blocks and their lines, clip by clip. */
  function Blocks(media: Media, s: seq<Segment>): nat -> string {
    (i: nat) => if i < |s| then Block(media, s, i) else ""
  }

  function BlocksLines(media: Media, s: seq<Segment>): nat -> seq<string> {
    (i: nat) => if i < |s| then BlockLines(media, s, i) else []
  }

  /** The texts of parts `0` to `k - 1`, one after the other. */
  function Joined(texts: nat -> string, k: nat): string
    decreases k
  {
    if k == 0 then "" else Joined(texts, k - 1) + texts(k - 1)
  }

  /** The lines of parts `0` to `k - 1`, one after the other. */
  function Flatten(lines: nat -> seq<string>, k: nat): seq<string>
    decreases k
  {
    if k == 0 then [] else Flatten(lines, k - 1) + lines(k - 1)
  }

  /** The text `make_edl` writes to the file `name`. */
  function EdlText(media: Media, s: seq<Segment>, name: string): string {
    Header(name) + Joined(Blocks(media, s), |s|)
  }

  lemma {:induction false} TerminatedAppend(a: seq<string>, b: seq<string>)
    ensures Terminated(a + b) == Terminated(a) + Terminated(b)
    decreases |a|
  {
    if a == [] {
      assert a + b == b;
    } else {
      assert (a + b)[0] == a[0];
      assert (a + b)[1..] == a[1..] + b;
      TerminatedAppend(a[1..], b);
    }
  }

  lemma {:induction false} JoinedTerminated(texts: nat -> string, lines: nat -> seq<string>, k: nat)
    requires forall i: nat :: i < k ==> texts(i) == Terminated(lines(i))
    ensures Joined(texts, k) == Terminated(Flatten(lines, k))
    decreases k
  {
    if k > 0 {
      JoinedTerminated(texts, lines, k - 1);
      TerminatedAppend(Flatten(lines, k - 1), lines(k - 1));
    }
  }

  lemma {:induction false} FlattenNoBreak(lines: nat -> seq<string>, k: nat)
    requires forall i: nat, j :: i < k && 0 <= j < |lines(i)| ==> NoLineBreak(lines(i)[j])
    ensures forall j :: 0 <= j < |Flatten(lines, k)| ==> NoLineBreak(Flatten(lines, k)[j])
    decreases k
  {
    if k > 0 {
      FlattenNoBreak(lines, k - 1);
      var init := Flatten(lines, k - 1);
      forall j | 0 <= j < |Flatten(lines, k)|
        ensures NoLineBreak(Flatten(lines, k)[j])
      {
        if j >= |init| {
          assert Flatten(lines, k)[j] == lines(k - 1)[j - |init|];
        }
      }
    }
  }

  /** With five lines per part, the lines of part `i` sit at positions
      `5 * i` to `5 * i + 5`. */
  lemma {:induction false} FlattenAt(lines: nat -> seq<string>, k: nat, i: nat)
    requires forall j: nat :: j < k ==> |lines(j)| == 5
    requires i < k
    ensures |Flatten(lines, k)| == 5 * k
    ensures Flatten(lines, k)[5 * i..5 * i + 5] == lines(i)
    decreases k
  {
    var init := Flatten(lines, k - 1);
    if i < k - 1 {
      FlattenAt(lines, k - 1, i);
      assert (init + lines(k - 1))[5 * i..5 * i + 5] == init[5 * i..5 * i + 5];
    } else {
      if k > 1 {
        FlattenAt(lines, k - 1, 0);
      }
      assert (init + lines(k - 1))[5 * i..5 * i + 5] == lines(k - 1);
    }
  }

  /** The names, files and timecodes hold no line break. */
  ghost predicate Printable(media: Media, s: seq<Segment>, name: string) {
    NoLineBreak(name) &&
    (forall k :: 0 <= k < |s| ==> NoLineBreak(s[k].file)) &&
    (forall fps, t :: NoLineBreak(media.timecode(fps, t)))
  }

  lemma NamesNoBreak(i: nat)
    ensures NoLineBreak(Number(i)) && NoLineBreak(FullName(i))
  {
    NumberValue(i);
    assert forall c :: 0 <= c < |Number(i)| ==> IsDigit(Number(i)[c]);
    assert NoLineBreak("reel_");
    NoLineBreakConcat("reel_", Number(i));
  }

  lemma BlockFacts(media: Media, s: seq<Segment>, name: string, i: nat)
    requires i < |s| && Printable(media, s, name)
    ensures Block(media, s, i) == Terminated(BlockLines(media, s, i))
    ensures |BlockLines(media, s, i)| == 5
    ensures forall j :: 0 <= j < 5 ==> NoLineBreak(BlockLines(media, s, i)[j])
  {
    NamesNoBreak(i);
    var fps := media.fps(s[i].file);
    assert NoLineBreak(media.timecode(fps, s[i].start)) && NoLineBreak(media.timecode(fps, s[i].end));
    assert NoLineBreak(media.timecode(fps, RecIn(s, i))) && NoLineBreak(media.timecode(fps, RecIn(s, i + 1)));
    SegmentLinesNoBreak(Number(i), s[i].start, s[i].end, RecIn(s, i), RecIn(s, i + 1), FullName(i), s[i].file,
      fps, media.timecode);
    SegmentIsTerminated(Number(i), s[i].start, s[i].end, RecIn(s, i), RecIn(s, i + 1), FullName(i), s[i].file,
      fps, media.timecode);
  }

  lemma AllBlockFacts(media: Media, s: seq<Segment>, name: string)
    requires Printable(media, s, name)
    ensures forall i: nat :: i < |s| ==> Blocks(media, s)(i) == Terminated(BlocksLines(media, s)(i))
    ensures forall i: nat :: i < |s| ==> |BlocksLines(media, s)(i)| == 5
    ensures forall i: nat, j :: i < |s| && 0 <= j < |BlocksLines(media, s)(i)| ==> NoLineBreak(BlocksLines(media, s)(i)[j])
  {
    forall i: nat | i < |s|
      ensures Blocks(media, s)(i) == Terminated(BlocksLines(media, s)(i))
      ensures |BlocksLines(media, s)(i)| == 5
      ensures forall j :: 0 <= j < 5 ==> NoLineBreak(BlocksLines(media, s)(i)[j])
    {
      BlockFacts(media, s, name, i);
    }
  }

  /** The blocks of all clips are the lines of all clips, terminated, and
      none of these lines holds a line break of its own. */
  lemma EventsAsLines(media: Media, s: seq<Segment>, name: string)
    requires Printable(media, s, name)
    ensures Joined(Blocks(media, s), |s|) == Terminated(Flatten(BlocksLines(media, s), |s|))
    ensures |Flatten(BlocksLines(media, s), |s|)| == 5 * |s|
    ensures forall j :: 0 <= j < |Flatten(BlocksLines(media, s), |s|)| ==>
      NoLineBreak(Flatten(BlocksLines(media, s), |s|)[j])
  {
    var texts := Blocks(media, s);
    var lines := BlocksLines(media, s);
    AllBlockFacts(media, s, name);
    JoinedTerminated(texts, lines, |s|);
    FlattenNoBreak(lines, |s|);
    if |s| > 0 {
      FlattenAt(lines, |s|, 0);
    }
  }

  lemma HeaderLinesNoBreak(name: string)
    requires NoLineBreak(name)
    ensures forall j :: 0 <= j < |HeaderLines(name)| ==> NoLineBreak(HeaderLines(name)[j])
  {
    assert NoLineBreak("TITLE: ") && NoLineBreak(FrameCode);
    NoLineBreakConcat("TITLE: ", name);
  }

  /** Two runs of terminated lines read back as the lines of both. */
  lemma SplitTerminatedPair(a: seq<string>, b: seq<string>)
    requires forall j :: 0 <= j < |a| ==> NoLineBreak(a[j])
    requires forall j :: 0 <= j < |b| ==> NoLineBreak(b[j])
    ensures SplitLines(Terminated(a) + Terminated(b)) == a + b
  {
    TerminatedAppend(a, b);
    assert forall j :: 0 <= j < |a + b| ==> (a + b)[j] == if j < |a| then a[j] else b[j - |a|];
    SplitLinesTerminated(a + b);
  }

  /** Read back line by line, the list gives the title and frame-code lines
      and a blank line, then the five lines of each clip's block, in
      composition order. */
  lemma EdlLines(media: Media, s: seq<Segment>, name: string)
    requires Printable(media, s, name)
    ensures SplitLines(EdlText(media, s, name)) == HeaderLines(name) + Flatten(BlocksLines(media, s), |s|)
    ensures |SplitLines(EdlText(media, s, name))| == 3 + 5 * |s|
  {
    EventsAsLines(media, s, name);
    HeaderIsTerminated(name);
    HeaderLinesNoBreak(name);
    SplitTerminatedPair(HeaderLines(name), Flatten(BlocksLines(media, s), |s|));
  }

  lemma SliceAfter(a: seq<string>, b: seq<string>, x: nat)
    requires x + 5 <= |b|
    ensures (a + b)[|a| + x..|a| + x + 5] == b[x..x + 5]
  {
  }

  /** Lines `3 + 5 * i` to `3 + 5 * i + 5` of the list are the block of the
      clip at `i`. */
  lemma EdlBlockAt(media: Media, s: seq<Segment>, name: string, i: nat)
    requires Printable(media, s, name) && i < |s|
    ensures |SplitLines(EdlText(media, s, name))| == 3 + 5 * |s|
    ensures SplitLines(EdlText(media, s, name))[3 + 5 * i..3 + 5 * i + 5] == BlockLines(media, s, i)
  {
    EdlLines(media, s, name);
    var lines := BlocksLines(media, s);
    AllBlockFacts(media, s, name);
    FlattenAt(lines, |s|, i);
    SliceAfter(HeaderLines(name), Flatten(lines, |s|), 5 * i);
  }

  /** One step of `make_edl`: the block it appends for the clip at `i`
      extends the text by that clip's block. */
  lemma AppendBlock(media: Media, s: seq<Segment>, name: string, i: nat, out: string, segment: string,
                    n: string, recIn: int, recOut: int, fps: real)
    requires i < |s| && out == Header(name) + Joined(Blocks(media, s), i)
    requires n == Number(i) && recIn == RecIn(s, i) && recOut == RecIn(s, i + 1)
    requires fps == media.fps(s[i].file)
    requires segment == EdlSegment(n, s[i].start, s[i].end, recIn, recOut, "reel_" + n, s[i].file, fps, media.timecode)
    ensures out + segment == Header(name) + Joined(Blocks(media, s), i + 1)
  {
    BlockIs(media, s, i, n, recIn, recOut, fps);
    JoinedStep(media, s, i);
  }

  lemma BlockIs(media: Media, s: seq<Segment>, i: nat, n: string, recIn: int, recOut: int, fps: real)
    requires i < |s|
    requires n == Number(i) && recIn == RecIn(s, i) && recOut == RecIn(s, i + 1)
    requires fps == media.fps(s[i].file)
    ensures Block(media, s, i) == EdlSegment(n, s[i].start, s[i].end, recIn, recOut, "reel_" + n, s[i].file, fps, media.timecode)
  {
  }

  lemma JoinedStep(media: Media, s: seq<Segment>, i: nat)
    requires i < |s|
    ensures Joined(Blocks(media, s), i + 1) == Joined(Blocks(media, s), i) + Block(media, s, i)
  {
  }

  /** The files of the clips, in order. */
  function SegmentFiles(s: seq<Segment>): (files: seq<string>)
    ensures |files| == |s|
  {
    seq(|s|, i requires 0 <= i < |s| => s[i].file)
  }

  lemma LookupStep(s: seq<Segment>, i: nat)
    requires i < |s|
    ensures FirstOccurrences(SegmentFiles(s[..i + 1])) ==
      var before := FirstOccurrences(SegmentFiles(s[..i]));
      if s[i].file in before then before else before + [s[i].file]
  {
    assert SegmentFiles(s[..i + 1]) == SegmentFiles(s[..i]) + [s[i].file];
    assert SegmentFiles(s[..i + 1])[..i] == SegmentFiles(s[..i]);
  }

  /** `fpses[file]`, after asking `get_fps` for it and caching the answer
      when the file is new; `lookups` lists the files asked for. */
  method CachedFps(media: Media, fpses: map<string, real>, lookups: seq<string>, file: string)
    returns (cache: map<string, real>, asked: seq<string>, fps: real)
    requires forall f :: f in fpses ==> fpses[f] == media.fps(f)
    requires forall f :: f in fpses <==> f in lookups
    ensures fps == media.fps(file)
    ensures forall f :: f in cache ==> cache[f] == media.fps(f)
    ensures forall f :: f in cache <==> f in asked
    ensures asked == if file in lookups then lookups else lookups + [file]
  {
    cache, asked := fpses, lookups;
    if file !in cache {
      cache := cache[file := media.fps(file)];
      asked := asked + [file];
    }
    fps := cache[file];
  }

  /** The body of the loop of `make_edl` after the frame rate is known:
      the block of the clip at `index` appended, the record cursor moved on
      by the clip's length. */
  method AppendEvent(media: Media, s: seq<Segment>, name: string, index: nat, out: string, recIn: int, fps: real)
    returns (extended: string, recOut: int)
    requires index < |s|
    requires out == Header(name) + Joined(Blocks(media, s), index)
    requires recIn == RecIn(s, index) && fps == media.fps(s[index].file)
    ensures extended == Header(name) + Joined(Blocks(media, s), index + 1)
    ensures recOut == RecIn(s, index + 1)
  {
    var n := ZFill(Decimal(index + 1), 4);
    var timeIn := s[index].start;
    var timeOut := s[index].end;
    var duration := timeOut - timeIn;
    recOut := recIn + duration;
    var fullName := "reel_" + n;
    var filename := s[index].file;
    var segment := EdlSegment(n, timeIn, timeOut, recIn, recOut, fullName, filename, fps, media.timecode);
    RecordContiguous(s, index);
    AppendBlock(media, s, name, index, out, segment, n, recIn, recOut, fps);
    extended := out + segment;
  }

  /** `make_edl`: the text it writes, built in one pass with a running
      record cursor and a cache of frame rates; `lookups` lists the files
      whose frame rate was asked for, in the order they were asked. */
  method MakeEdl(media: Media, s: seq<Segment>, name: string) returns (out: string, lookups: seq<string>)
    ensures out == EdlText(media, s, name)
    ensures lookups == FirstOccurrences(SegmentFiles(s))
  {
    var fpses: map<string, real> := map[];
    out := Header(name);
    var recIn := 0;
    lookups := [];
    for index := 0 to |s|
      invariant out == Header(name) + Joined(Blocks(media, s), index)
      invariant recIn == RecIn(s, index)
      invariant forall f :: f in fpses ==> fpses[f] == media.fps(f)
      invariant forall f :: f in fpses <==> f in lookups
      invariant lookups == FirstOccurrences(SegmentFiles(s[..index]))
    {
      LookupStep(s, index);
      var fps;
      fpses, lookups, fps := CachedFps(media, fpses, lookups, s[index].file);
      out, recIn := AppendEvent(media, s, name, index, out, recIn, fps);
    }
    assert s[..|s|] == s;
  }

  /** Each distinct file has its frame rate looked up once, before its
      first clip is written. */
  lemma OneLookupPerFile(s: seq<Segment>)
    ensures forall f :: f in FirstOccurrences(SegmentFiles(s)) <==> exists i :: 0 <= i < |s| && s[i].file == f
    ensures forall i, j :: 0 <= i < j < |FirstOccurrences(SegmentFiles(s))| ==>
      FirstOccurrences(SegmentFiles(s))[i] != FirstOccurrences(SegmentFiles(s))[j]
  {
    assert forall i :: 0 <= i < |s| ==> SegmentFiles(s)[i] == s[i].file;
  }
}
