/** What happens to the composition before it is cut: the sync and padding
    adjustment and the `--max-clips` truncation of `videogrep`
    (videogrep/videogrep.py:518-531), and the overlap correction of
    `create_supercut` with its printed twin `demo_supercut`
    (videogrep/videogrep.py:240-261). Times are in milliseconds. */
module Clips {
  import opened Compose

  // ---------------------------------------------------------------------
  // sync and padding

  /** One clip moved by `sync` and widened by `padding` at both ends. */
  function Shift(c: Segment, sync: int, padding: int): Segment {
    c.(start := c.start + sync - padding, end := c.end + sync + padding)
  }

  /** Every clip of the composition shifted. */
  function Shifted(s: seq<Segment>, sync: int, padding: int): (r: seq<Segment>)
    ensures |r| == |s|
  {
    seq(|s|, i requires 0 <= i < |s| => Shift(s[i], sync, padding))
  }

  /** A shifted clip keeps its file and text, lasts `2 * padding` longer and
      has its middle moved by `sync`. */
  lemma ShiftedClips(s: seq<Segment>, sync: int, padding: int)
    ensures forall i :: 0 <= i < |s| ==>
      var r := Shifted(s, sync, padding)[i];
      r.file == s[i].file && r.line == s[i].line &&
      r.end - r.start == s[i].end - s[i].start + 2 * padding &&
      r.start + r.end == s[i].start + s[i].end + 2 * sync
  {
  }

  /** Shifting by nothing changes nothing, and shifting twice adds up. */
  lemma ShiftedCompose(s: seq<Segment>, sync1: int, padding1: int, sync2: int, padding2: int)
    ensures Shifted(s, 0, 0) == s
    ensures Shifted(Shifted(s, sync1, padding1), sync2, padding2) == Shifted(s, sync1 + sync2, padding1 + padding2)
  {
    assert forall i :: 0 <= i < |s| ==> Shifted(s, 0, 0)[i] == s[i];
  }

  /** The adjustment loop of `videogrep` (videogrep/videogrep.py:526-528),
      which updates the clips in place. */
  method Adjust(a: array<Segment>, sync: int, padding: int)
    modifies a
    ensures a[..] == Shifted(old(a[..]), sync, padding)
  {
    ghost var before := a[..];
    for i := 0 to a.Length
      invariant forall j :: 0 <= j < i ==> a[j] == Shift(before[j], sync, padding)
      invariant forall j :: i <= j < a.Length ==> a[j] == before[j]
    {
      a[i] := a[i].(start := a[i].start + sync - padding, end := a[i].end + sync + padding);
    }
  }

  // ---------------------------------------------------------------------
  // --max-clips

  /** `composition[:maxclips]` when `maxclips` is positive. */
  function Truncate(s: seq<Segment>, maxclips: int): (r: seq<Segment>)
    ensures maxclips <= 0 ==> r == s
    ensures maxclips > 0 ==> |r| == (if maxclips < |s| then maxclips else |s|)
    ensures |r| <= |s| && r == s[..|r|]
  {
    if maxclips > 0 && maxclips < |s| then s[..maxclips] else s
  }

  /** Truncating commutes with shifting, so the order of the two steps does
      not matter. */
  lemma TruncateShifted(s: seq<Segment>, maxclips: int, sync: int, padding: int)
    ensures Truncate(Shifted(s, sync, padding), maxclips) == Shifted(Truncate(s, maxclips), sync, padding)
  {
  }

  // ---------------------------------------------------------------------
  // overlap correction

  /** The clip at `i` starts inside the clip before it, from the same file. */
  predicate Overlaps(s: seq<Segment>, i: int)
    requires 0 <= i < |s|
  {
    i > 0 && s[i].file == s[i - 1].file && s[i].start < s[i - 1].end
  }

  /** The clip at `i` after the correction. */
  function CorrectedAt(s: seq<Segment>, i: int, padding: int): Segment
    requires 0 <= i < |s|
  {
    if Overlaps(s, i) then s[i].(start := s[i].start + padding) else s[i]
  }

  /** The composition after the correction. */
  function Corrected(s: seq<Segment>, padding: int): (r: seq<Segment>)
    ensures |r| == |s|
  {
    seq(|s|, i requires 0 <= i < |s| => CorrectedAt(s, i, padding))
  }

  /** The correction moves only starts, by `padding` exactly for the clips
      that start inside their predecessor and by nothing otherwise; the
      first clip and every end stay. */
  lemma CorrectedMoves(s: seq<Segment>, padding: int)
    ensures forall i :: 0 <= i < |s| ==>
      var r := Corrected(s, padding)[i];
      r.file == s[i].file && r.line == s[i].line && r.end == s[i].end &&
      r.start == (if Overlaps(s, i) then s[i].start + padding else s[i].start)
    ensures |s| > 0 ==> Corrected(s, padding)[0] == s[0]
  {
  }

  /** The loop of `create_supercut` over `zip(composition, composition[1:])`
      (videogrep/videogrep.py:259-261), advancing starts in place. */
  method FixOverlaps(a: array<Segment>, padding: int)
    modifies a
    ensures a[..] == Corrected(old(a[..]), padding)
  {
    ghost var before := a[..];
    ghost var after := Corrected(before, padding);
    if a.Length > 0 {
      for i := 1 to a.Length
        invariant a[0] == after[0]
        invariant forall j :: 0 < j < i ==> a[j] == after[j]
        invariant forall j :: i <= j < a.Length ==> a[j] == before[j]
      {
        assert a[i - 1].file == before[i - 1].file && a[i - 1].end == before[i - 1].end;
        if a[i].file == a[i - 1].file && a[i].start < a[i - 1].end {
          a[i] := a[i].(start := a[i].start + padding);
        }
      }
    }
    assert forall j :: 0 <= j < a.Length ==> a[j] == after[j];
  }

  /** A row `demo_supercut` prints: the text and the corrected start and the
      end of a clip. */
  datatype Row = Row(line: string, start: int, end: int)

  /** The rows `demo_supercut` prints for a composition. */
  function DemoRows(s: seq<Segment>, padding: int): (rows: seq<Row>)
    ensures |rows| == |s|
  {
    seq(|s|, i requires 0 <= i < |s| => Row(s[i].line, Corrected(s, padding)[i].start, s[i].end))
  }

  /** `demo_supercut` (videogrep/videogrep.py:240-247): the rows it prints,
      one per clip, without changing the composition. */
  method DemoSupercut(s: seq<Segment>, padding: int) returns (rows: seq<Row>)
    ensures rows == DemoRows(s, padding)
  {
    rows := [];
    for i := 0 to |s|
      invariant |rows| == i
      invariant forall j :: 0 <= j < i ==> rows[j] == Row(s[j].line, Corrected(s, padding)[j].start, s[j].end)
    {
      var start := s[i].start;
      if i > 0 && s[i - 1].file == s[i].file && start < s[i - 1].end {
        start := start + padding;
      }
      rows := rows + [Row(s[i].line, start, s[i].end)];
    }
  }

  /** The printed rows show each clip's text with exactly the times
      `create_supercut` cuts it at. */
  lemma DemoRowsAgree(s: seq<Segment>, padding: int)
    ensures forall i :: 0 <= i < |s| ==>
      var r := DemoRows(s, padding)[i];
      var c := SupercutCuts(s, padding)[i];
      r.line == s[i].line && r.start == c.start && r.end == c.end
  {
    CorrectedMoves(s, padding);
  }

  /** The correction does not separate clips that overlap by more than the
      padding: two clips of one file where the second starts 2000 ms before
      the first ends still overlap after a 500 ms correction. */
  lemma OverlapCanRemain()
    ensures var s := [Segment("a.mp4", "x", 0, 10000), Segment("a.mp4", "y", 8000, 12000)];
      Corrected(s, 500)[1].start < Corrected(s, 500)[0].end
  {
    var s := [Segment("a.mp4", "x", 0, 10000), Segment("a.mp4", "y", 8000, 12000)];
    assert Overlaps(s, 1);
  }

  /** After padding by `p`, two clips of one file that were `g` apart with
      `0 <= g < p` still overlap after the correction: the correction takes
      back only the padding added to the later clip's start. */
  lemma PaddedNeighboursStillOverlap(s: seq<Segment>, sync: int, p: int, i: int)
    requires 0 < i < |s|
    requires s[i].file == s[i - 1].file
    requires s[i - 1].end <= s[i].start < s[i - 1].end + p
    ensures var r := Corrected(Shifted(s, sync, p), p);
      r[i].start < r[i - 1].end
  {
    var t := Shifted(s, sync, p);
    assert t[i] == Shift(s[i], sync, p) && t[i - 1] == Shift(s[i - 1], sync, p);
    assert Overlaps(t, i);
  }

  // ---------------------------------------------------------------------
  // create_supercut

  /** A piece cut from a video: `VideoFileClip(file).subclip(start, end)`. */
  datatype Cut = Cut(file: string, start: int, end: int)

  function Cuts(s: seq<Segment>): (r: seq<Cut>)
    ensures |r| == |s|
    ensures forall i :: 0 <= i < |s| ==> r[i] == Cut(s[i].file, s[i].start, s[i].end)
  {
    seq(|s|, i requires 0 <= i < |s| => Cut(s[i].file, s[i].start, s[i].end))
  }

  /** What `create_supercut` cuts and concatenates, in order. */
  function SupercutCuts(s: seq<Segment>, padding: int): seq<Cut> {
    Cuts(Corrected(s, padding))
  }

  /** `create_supercut` (videogrep/videogrep.py:251-265) up to the pieces it
      concatenates: the rows it prints first, the correction it makes in
      place, then one piece per clip. */
  method CreateSupercut(a: array<Segment>, padding: int) returns (rows: seq<Row>, cuts: seq<Cut>)
    modifies a
    ensures a[..] == Corrected(old(a[..]), padding)
    ensures cuts == SupercutCuts(old(a[..]), padding)
    ensures rows == DemoRows(old(a[..]), padding)
    ensures |rows| == |cuts| && forall i :: 0 <= i < |rows| ==> rows[i].start == cuts[i].start && rows[i].end == cuts[i].end
  {
    rows := DemoSupercut(a[..], padding);
    FixOverlaps(a, padding);
    cuts := [];
    for i := 0 to a.Length
      invariant cuts == Cuts(a[..i])
    {
      cuts := cuts + [Cut(a[i].file, a[i].start, a[i].end)];
    }
    assert a[..a.Length] == a[..];
  }

  /** The pieces keep the order of the composition and their files; each
      piece starts where its clip starts after the correction. */
  lemma SupercutCutsFollow(s: seq<Segment>, padding: int)
    ensures |SupercutCuts(s, padding)| == |s|
    ensures forall i :: 0 <= i < |s| ==>
      var c := SupercutCuts(s, padding)[i];
      c.file == s[i].file && c.end == s[i].end &&
      c.start == (if Overlaps(s, i) then s[i].start + padding else s[i].start)
  {
    CorrectedMoves(s, padding);
  }
}
