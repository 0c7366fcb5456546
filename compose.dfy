/** Building the composition: the list of clips, one per matching subtitle,
    that the supercut is cut from (videogrep/videogrep.py:331-431 and
    464-495). The file system, the `.vtt` parser and the glob are given as
    functions. */
module Compose {
  import opened Outcomes
  import opened Strings
  import opened Search
  import opened Timestamps
  import opened SrtCues

  /** One entry of the composition: the video file, the matching text, and
      where the clip starts and ends, in milliseconds. */
  datatype Segment = Segment(file: string, line: string, start: int, end: int)

  /** What the program asks of the file system: `os.path.isfile` and the
      text of a file as `open(path, 'r').read()` returns it. That read is in
      text mode with universal newlines, so every "\r\n" and every lone
      "\r" of the file arrives as "\n" and the text holds no '\r'. */
  datatype Files = Files(isFile: string -> bool, read: string -> string)

  // ---------------------------------------------------------------------
  // get_subtitle_files and get_vtt_files

  /** The last `.`-separated component of a file name replaced by `srt`
      (videogrep/videogrep.py:336-338). */
  function SrtPath(f: string): string {
    var parts := Split(f, ".");
    Join(parts[..|parts| - 1] + ["srt"], ".")
  }

  /** A name with an extension gets the extension `srt`. */
  lemma SrtPathReplacesExtension(base: string, ext: string)
    requires forall i :: 0 <= i < |ext| ==> ext[i] != '.'
    ensures SrtPath(base + "." + ext) == base + ".srt"
  {
    SplitAppendChar(base, '.', ext);
    assert base + "." + ext == base + ['.'] + ext;
    var parts := Split(base + "." + ext, ".");
    assert parts[..|parts| - 1] == Split(base, ".");
    JoinSnoc(Split(base, "."), "srt", ".");
  }

  /** A name without a dot is replaced by `srt` as a whole. */
  lemma SrtPathNoDot(f: string)
    requires forall i :: 0 <= i < |f| ==> f[i] != '.'
    ensures SrtPath(f) == "srt"
  {
    NotContainsHead(f, ".");
    SplitWhole(f, ".");
  }

  /** Everything before the last `.`-separated component
      (videogrep/videogrep.py:356-357). */
  function VttPrefix(f: string): string {
    var parts := Split(f, ".");
    Join(parts[..|parts| - 1], ".")
  }

  lemma VttPrefixDropsExtension(base: string, ext: string)
    requires forall i :: 0 <= i < |ext| ==> ext[i] != '.'
    ensures VttPrefix(base + "." + ext) == base
  {
    SplitAppendChar(base, '.', ext);
    assert base + "." + ext == base + ['.'] + ext;
    var parts := Split(base + "." + ext, ".");
    assert parts[..|parts| - 1] == Split(base, ".");
  }

  lemma VttPrefixNoDot(f: string)
    requires forall i :: 0 <= i < |f| ==> f[i] != '.'
    ensures VttPrefix(f) == ""
  {
    NotContainsHead(f, ".");
    SplitWhole(f, ".");
  }

  /** The subtitle files that exist for the input files, in input order. */
  function SubtitleFiles(isFile: string -> bool, inputs: seq<string>): (srts: seq<string>)
    ensures forall s :: s in srts <==> exists i :: 0 <= i < |inputs| && s == SrtPath(inputs[i]) && isFile(s)
    decreases |inputs|
  {
    if inputs == [] then []
    else
      var prev := SubtitleFiles(isFile, inputs[..|inputs| - 1]);
      var srt := SrtPath(inputs[|inputs| - 1]);
      assert forall i :: 0 <= i < |inputs| - 1 ==> inputs[..|inputs| - 1][i] == inputs[i];
      if isFile(srt) then prev + [srt] else prev
  }

  /** `get_subtitle_files`: `None` stands for the `False` it returns when no
      subtitle file exists. */
  method GetSubtitleFiles(isFile: string -> bool, inputs: seq<string>) returns (srts: Option<seq<string>>)
    ensures srts.None? <==> SubtitleFiles(isFile, inputs) == []
    ensures srts.Some? ==> srts.value == SubtitleFiles(isFile, inputs)
  {
    var found: seq<string> := [];
    for i := 0 to |inputs|
      invariant found == SubtitleFiles(isFile, inputs[..i])
    {
      assert inputs[..i + 1][..i] == inputs[..i];
      var srt := SrtPath(inputs[i]);
      if isFile(srt) {
        found := found + [srt];
      }
    }
    assert inputs[..|inputs|] == inputs;
    if found == [] {
      srts := None;
    } else {
      srts := Some(found);
    }
  }

  /** A subtitle file of YouTube's `.vtt` kind and the video it belongs to. */
  datatype VttFile = VttFile(vtt: string, video: string)

  /** For each input file whose prefix globs to at least one `.vtt` file, the
      first match of the glob. */
  function VttFiles(glob: string -> seq<string>, inputs: seq<string>): (vtts: seq<VttFile>)
    ensures |vtts| <= |inputs|
    decreases |inputs|
  {
    if inputs == [] then []
    else
      var prev := VttFiles(glob, inputs[..|inputs| - 1]);
      var f := inputs[|inputs| - 1];
      var found := glob(VttPrefix(f) + "*.vtt");
      if |found| > 0 then prev + [VttFile(found[0], f)] else prev
  }

  /** Every recorded pair holds an input file and the first file its prefix
      globs to. */
  lemma {:induction false} VttFilesFromGlob(glob: string -> seq<string>, inputs: seq<string>)
    ensures forall v :: v in VttFiles(glob, inputs) ==>
      v.video in inputs && |glob(VttPrefix(v.video) + "*.vtt")| > 0 &&
      v.vtt == glob(VttPrefix(v.video) + "*.vtt")[0]
    decreases |inputs|
  {
    if inputs != [] {
      var p := inputs[..|inputs| - 1];
      VttFilesFromGlob(glob, p);
      assert forall x :: x in p ==> x in inputs;
    }
  }

  /** Every input file whose prefix globs to a `.vtt` file is paired with the
      first match. */
  lemma {:induction false} VttFilesComplete(glob: string -> seq<string>, inputs: seq<string>, i: nat)
    requires i < |inputs| && |glob(VttPrefix(inputs[i]) + "*.vtt")| > 0
    ensures VttFile(glob(VttPrefix(inputs[i]) + "*.vtt")[0], inputs[i]) in VttFiles(glob, inputs)
    decreases |inputs|
  {
    if i < |inputs| - 1 {
      var p := inputs[..|inputs| - 1];
      assert p[i] == inputs[i];
      VttFilesComplete(glob, p, i);
    }
  }

  /** `get_vtt_files`, with `None` for the `False` it returns when nothing is
      found. */
  method GetVttFiles(glob: string -> seq<string>, inputs: seq<string>) returns (vtts: Option<seq<VttFile>>)
    ensures vtts.None? <==> VttFiles(glob, inputs) == []
    ensures vtts.Some? ==> vtts.value == VttFiles(glob, inputs)
  {
    var found: seq<VttFile> := [];
    for i := 0 to |inputs|
      invariant found == VttFiles(glob, inputs[..i])
    {
      assert inputs[..i + 1][..i] == inputs[..i];
      var f := inputs[i];
      var matches := glob(VttPrefix(f) + "*.vtt");
      if |matches| > 0 {
        found := found + [VttFile(matches[0], f)];
      }
    }
    assert inputs[..|inputs|] == inputs;
    if found == [] {
      vtts := None;
    } else {
      vtts := Some(found);
    }
  }

  // ---------------------------------------------------------------------
  // the video that belongs to a subtitle file

  const UsableExtensions: seq<string> := ["mp4", "avi", "mov", "mkv", "m4v"]

  /** Every `.srt` in the subtitle file's name replaced by one usable
      extension each, in the order of the list. */
  function Candidates(srt: string): (c: seq<string>)
    ensures |c| == |UsableExtensions|
  {
    seq(|UsableExtensions|, i requires 0 <= i < |UsableExtensions| => ReplaceAll(srt, ".srt", "." + UsableExtensions[i]))
  }

  /** The last of the candidates that exists. */
  function LastExisting(isFile: string -> bool, c: seq<string>): Option<string>
    decreases |c|
  {
    if c == [] then None
    else if isFile(c[|c| - 1]) then Some(c[|c| - 1])
    else LastExisting(isFile, c[..|c| - 1])
  }

  /** Nothing is found exactly when no candidate exists; otherwise the one
      found exists and no later candidate does. */
  lemma {:induction false} LastExistingWins(isFile: string -> bool, c: seq<string>)
    ensures LastExisting(isFile, c).None? <==> forall i :: 0 <= i < |c| ==> !isFile(c[i])
    ensures LastExisting(isFile, c).Some? ==>
      exists i :: 0 <= i < |c| && c[i] == LastExisting(isFile, c).value && isFile(c[i]) &&
        forall j :: i < j < |c| ==> !isFile(c[j])
    decreases |c|
  {
    if c != [] && !isFile(c[|c| - 1]) {
      var p := c[..|c| - 1];
      LastExistingWins(isFile, p);
      assert forall i :: 0 <= i < |p| ==> p[i] == c[i];
    }
  }

  /** The video lookup of `compose_from_srts` (videogrep/videogrep.py:384-389):
      the loop tries every extension and does not stop at the first hit. */
  method FindVideo(isFile: string -> bool, srt: string) returns (video: Option<string>)
    ensures video == LastExisting(isFile, Candidates(srt))
  {
    var c := Candidates(srt);
    video := None;
    for i := 0 to |UsableExtensions|
      invariant video == LastExisting(isFile, c[..i])
    {
      assert c[..i + 1][..i] == c[..i];
      var temp := ReplaceAll(srt, ".srt", "." + UsableExtensions[i]);
      if isFile(temp) {
        video := Some(temp);
      }
    }
    assert c[..|UsableExtensions|] == c;
  }

  /** For a subtitle file whose only `.srt` is its suffix, the candidates are
      its stem with each usable extension. */
  lemma CandidateOf(stem: string, ext: string)
    requires forall j :: 0 <= j < |stem| ==> !OccursAt(stem + ".srt", ".srt", j)
    ensures ReplaceAll(stem + ".srt", ".srt", "." + ext) == stem + "." + ext
  {
    var s := stem + ".srt";
    assert s[|stem|..|stem| + |".srt"|] == ".srt";
    assert OccursAt(s, ".srt", |stem|);
    var r := Find(s, ".srt");
    assert r.Some?;
    if r.value < |stem| {
      assert false;
    } else if r.value > |stem| {
      assert false;
    }
    assert s[..|stem|] == stem;
    assert s[|stem| + 4..] == "";
  }

  // ---------------------------------------------------------------------
  // compose_from_srts

  /** Each item in turn contributes its segments, appended in item order;
      the first failure stops everything, as an uncaught exception does. */
  function Gather(per: string -> Result<seq<Segment>, TimeError>, items: seq<string>): Result<seq<Segment>, TimeError>
    decreases |items|
  {
    if items == [] then Ok([])
    else
      match Gather(per, items[..|items| - 1])
      case Err(e) => Err(e)
      case Ok(prev) =>
        match per(items[|items| - 1])
        case Err(e) => Err(e)
        case Ok(more) => Ok(prev + more)
  }

  /** One more item: its failure, or its segments appended. */
  lemma GatherStep(per: string -> Result<seq<Segment>, TimeError>, items: seq<string>, j: nat)
    requires j < |items|
    requires Gather(per, items[..j]).Ok?
    ensures per(items[j]).Err? ==>
      Gather(per, items[..j + 1]).Err? && Gather(per, items[..j + 1]).error == per(items[j]).error
    ensures per(items[j]).Ok? ==>
      Gather(per, items[..j + 1]).Ok? && Gather(per, items[..j + 1]).value == Gather(per, items[..j]).value + per(items[j]).value
  {
    assert items[..j + 1][..j] == items[..j];
  }

  /** Once an item fails, the later items do not matter. */
  lemma {:induction false} GatherErrorPersists(per: string -> Result<seq<Segment>, TimeError>, items: seq<string>, n: nat)
    requires n <= |items|
    requires Gather(per, items[..n]).Err?
    ensures Gather(per, items).Err? && Gather(per, items).error == Gather(per, items[..n]).error
    decreases |items| - n
  {
    if n < |items| {
      assert items[..n + 1][..n] == items[..n];
      GatherErrorPersists(per, items, n + 1);
    } else {
      assert items[..n] == items;
    }
  }

  /** Gathering fails exactly when one of the items fails. */
  lemma {:induction false} GatherFail(per: string -> Result<seq<Segment>, TimeError>, items: seq<string>)
    ensures Gather(per, items).Err? <==> exists i :: 0 <= i < |items| && per(items[i]).Err?
    decreases |items|
  {
    if items != [] {
      var p := items[..|items| - 1];
      GatherFail(per, p);
      assert forall i :: 0 <= i < |p| ==> p[i] == items[i];
    }
  }

  /** The segments gathered are exactly those the items contribute. */
  lemma {:induction false} GatherMembers(per: string -> Result<seq<Segment>, TimeError>, items: seq<string>)
    requires Gather(per, items).Ok?
    ensures forall i :: 0 <= i < |items| ==> per(items[i]).Ok?
    ensures forall s :: s in Gather(per, items).value <==>
      exists i :: 0 <= i < |items| && s in per(items[i]).value
    decreases |items|
  {
    if items != [] {
      var p := items[..|items| - 1];
      GatherMembers(per, p);
      assert forall i :: 0 <= i < |p| ==> p[i] == items[i];
    }
  }

  /** The segments of a concatenation are those of each part, in order. */
  lemma {:induction false} GatherAppend(per: string -> Result<seq<Segment>, TimeError>, a: seq<string>, b: seq<string>)
    requires Gather(per, a + b).Ok?
    ensures Gather(per, a).Ok? && Gather(per, b).Ok?
    ensures Gather(per, a + b).value == Gather(per, a).value + Gather(per, b).value
    decreases |b|
  {
    if b == [] {
      assert a + b == a;
    } else {
      var b' := b[..|b| - 1];
      assert (a + b)[..|a + b| - 1] == a + b';
      assert (a + b)[|a + b| - 1] == b[|b| - 1];
      GatherAppend(per, a, b');
    }
  }

  /** Items that contribute nothing gather to nothing. */
  lemma {:induction false} GatherNothing(per: string -> Result<seq<Segment>, TimeError>, items: seq<string>)
    requires forall i :: 0 <= i < |items| ==> per(items[i]).Ok? && per(items[i]).value == []
    ensures Gather(per, items).Ok? && Gather(per, items).value == []
    decreases |items|
  {
    if items != [] {
      var p := items[..|items| - 1];
      assert forall i :: 0 <= i < |p| ==> p[i] == items[i];
      GatherNothing(per, p);
    }
  }

  /** The text of a cue; every key of the order has one. */
  function CueText(cues: Cues, key: string): string {
    if key in cues.text then cues.text[key] else ""
  }

  /** What one cue contributes: nothing when its stripped text does not
      match, otherwise a segment timed by its timing line, or the
      `ValueError` of `convert_timespan` when that line does not parse. */
  function CueMatch(m: Matchers, search: string, t: SearchType, video: string, cues: Cues, key: string): Result<seq<Segment>, TimeError> {
    var line := Strip(CueText(cues, key));
    if !SearchLine(m, line, search, t) then Ok([])
    else
      match ConvertTimespan(key)
      case Err(e) => Err(e)
      case Ok(span) => Ok([Segment(video, line, span.0, span.1)])
  }

  /** A cue gives a segment exactly when its stripped text matches and its
      timing line parses; the segment carries the video, that text and the
      two times. */
  lemma CueMatchMeans(m: Matchers, search: string, t: SearchType, video: string, cues: Cues, key: string)
    ensures var line := Strip(CueText(cues, key));
      var r := CueMatch(m, search, t, video, cues, key);
      (r.Err? <==> SearchLine(m, line, search, t) && ConvertTimespan(key).Err?) &&
      (r.Ok? ==> |r.value| <= 1 && (r.value == [] <==> !SearchLine(m, line, search, t))) &&
      (r.Ok? && r.value != [] ==>
        r.value[0].file == video && r.value[0].line == line && SearchLine(m, line, search, t) &&
        ConvertTimespan(key).Ok? && ConvertTimespan(key).value == (r.value[0].start, r.value[0].end))
  {
    var line := Strip(CueText(cues, key));
    if SearchLine(m, line, search, t) {
      var span := ConvertTimespan(key);
      if span.Ok? {
        var r := CueMatch(m, search, t, video, cues, key);
        assert r.Ok? && r.value == [Segment(video, line, span.value.0, span.value.1)];
      }
    }
  }

  /** The segments of one subtitle file's cues, in cue order. */
  function CueSegments(m: Matchers, search: string, t: SearchType, video: string, cues: Cues, keys: seq<string>): Result<seq<Segment>, TimeError> {
    Gather(k => CueMatch(m, search, t, video, cues, k), keys)
  }

  /** What one subtitle file contributes: nothing when it has no video,
      otherwise the segments of its cues. */
  function FileSegments(fs: Files, m: Matchers, search: string, t: SearchType, srt: string): Result<seq<Segment>, TimeError> {
    var cues := CleanedCues(fs.read(srt));
    match LastExisting(fs.isFile, Candidates(srt))
    case None => Ok([])
    case Some(video) => CueSegments(m, search, t, video, cues, cues.order)
  }

  /** The segments of the subtitle files, in file order. */
  function SrtSegments(fs: Files, m: Matchers, search: string, t: SearchType, srts: seq<string>): Result<seq<Segment>, TimeError> {
    Gather(srt => FileSegments(fs, m, search, t, srt), srts)
  }

  /** Every segment of the composition matches the search and names a video
      that exists. */
  lemma SrtSegmentsMatch(fs: Files, m: Matchers, search: string, t: SearchType, srts: seq<string>)
    requires SrtSegments(fs, m, search, t, srts).Ok?
    ensures forall s :: s in SrtSegments(fs, m, search, t, srts).value ==>
      SearchLine(m, s.line, search, t) && fs.isFile(s.file)
  {
    var per := srt => FileSegments(fs, m, search, t, srt);
    GatherMembers(per, srts);
    forall i | 0 <= i < |srts|
      ensures forall s :: s in per(srts[i]).value ==> SearchLine(m, s.line, search, t) && fs.isFile(s.file)
    {
      FileSegmentsMatch(fs, m, search, t, srts[i]);
    }
  }

  /** Every matching cue of a subtitle file that has a video gives its
      segment in the composition: the cue's video, its stripped text and its
      two times. */
  lemma SrtSegmentsComplete(fs: Files, m: Matchers, search: string, t: SearchType, srts: seq<string>, i: int, key: string)
    requires SrtSegments(fs, m, search, t, srts).Ok?
    requires 0 <= i < |srts|
    requires LastExisting(fs.isFile, Candidates(srts[i])).Some?
    requires key in CleanedCues(fs.read(srts[i])).order
    requires SearchLine(m, Strip(CueText(CleanedCues(fs.read(srts[i])), key)), search, t)
    ensures ConvertTimespan(key).Ok?
    ensures Segment(LastExisting(fs.isFile, Candidates(srts[i])).value,
                    Strip(CueText(CleanedCues(fs.read(srts[i])), key)),
                    ConvertTimespan(key).value.0, ConvertTimespan(key).value.1)
      in SrtSegments(fs, m, search, t, srts).value
  {
    var per := srt => FileSegments(fs, m, search, t, srt);
    GatherMembers(per, srts);
    var cues := CleanedCues(fs.read(srts[i]));
    var video := LastExisting(fs.isFile, Candidates(srts[i])).value;
    assert per(srts[i]) == CueSegments(m, search, t, video, cues, cues.order);
    CueSegmentsComplete(m, search, t, video, cues, cues.order);
    var idx :| 0 <= idx < |cues.order| && cues.order[idx] == key;
    var seg := Segment(video, Strip(CueText(cues, key)), ConvertTimespan(key).value.0, ConvertTimespan(key).value.1);
    assert seg in per(srts[i]).value;
  }

  lemma FileSegmentsMatch(fs: Files, m: Matchers, search: string, t: SearchType, srt: string)
    requires FileSegments(fs, m, search, t, srt).Ok?
    ensures forall s :: s in FileSegments(fs, m, search, t, srt).value ==>
      SearchLine(m, s.line, search, t) && fs.isFile(s.file)
  {
    var cues := CleanedCues(fs.read(srt));
    var video := LastExisting(fs.isFile, Candidates(srt));
    LastExistingWins(fs.isFile, Candidates(srt));
    if video.Some? {
      CueSegmentsMatch(m, search, t, video.value, cues, cues.order);
    }
  }

  /** Every segment of a file's cues matches and belongs to its video. */
  lemma CueSegmentsMatch(m: Matchers, search: string, t: SearchType, video: string, cues: Cues, keys: seq<string>)
    requires CueSegments(m, search, t, video, cues, keys).Ok?
    ensures forall s :: s in CueSegments(m, search, t, video, cues, keys).value ==>
      SearchLine(m, s.line, search, t) && s.file == video
  {
    var per := k => CueMatch(m, search, t, video, cues, k);
    GatherMembers(per, keys);
    forall i | 0 <= i < |keys|
      ensures forall s :: s in per(keys[i]).value ==> SearchLine(m, s.line, search, t) && s.file == video
    {
      CueMatchFits(m, search, t, video, cues, keys[i]);
    }
  }

  lemma CueMatchFits(m: Matchers, search: string, t: SearchType, video: string, cues: Cues, key: string)
    ensures forall s :: CueMatch(m, search, t, video, cues, key).Ok? && s in CueMatch(m, search, t, video, cues, key).value ==>
      SearchLine(m, s.line, search, t) && s.file == video
  {
  }

  /** Every cue whose stripped text matches gives its segment. */
  lemma CueSegmentsComplete(m: Matchers, search: string, t: SearchType, video: string, cues: Cues, keys: seq<string>)
    requires CueSegments(m, search, t, video, cues, keys).Ok?
    ensures forall i :: 0 <= i < |keys| && SearchLine(m, Strip(CueText(cues, keys[i])), search, t) ==>
      ConvertTimespan(keys[i]).Ok? &&
      Segment(video, Strip(CueText(cues, keys[i])), ConvertTimespan(keys[i]).value.0, ConvertTimespan(keys[i]).value.1)
        in CueSegments(m, search, t, video, cues, keys).value
  {
    var per := k => CueMatch(m, search, t, video, cues, k);
    GatherMembers(per, keys);
    forall i | 0 <= i < |keys| && SearchLine(m, Strip(CueText(cues, keys[i])), search, t)
      ensures ConvertTimespan(keys[i]).Ok?
      ensures Segment(video, Strip(CueText(cues, keys[i])), ConvertTimespan(keys[i]).value.0, ConvertTimespan(keys[i]).value.1)
        in per(keys[i]).value
    {
      CueMatchGives(m, search, t, video, cues, keys[i]);
    }
  }

  lemma CueMatchGives(m: Matchers, search: string, t: SearchType, video: string, cues: Cues, key: string)
    requires SearchLine(m, Strip(CueText(cues, key)), search, t)
    requires CueMatch(m, search, t, video, cues, key).Ok?
    ensures ConvertTimespan(key).Ok?
    ensures CueMatch(m, search, t, video, cues, key).value ==
      [Segment(video, Strip(CueText(cues, key)), ConvertTimespan(key).value.0, ConvertTimespan(key).value.1)]
  {
  }

  /** Segments come file by file, in the order the subtitle files are given. */
  lemma SrtSegmentsAppend(fs: Files, m: Matchers, search: string, t: SearchType, a: seq<string>, b: seq<string>)
    requires SrtSegments(fs, m, search, t, a + b).Ok?
    ensures SrtSegments(fs, m, search, t, a).Ok? && SrtSegments(fs, m, search, t, b).Ok?
    ensures SrtSegments(fs, m, search, t, a + b).value ==
      SrtSegments(fs, m, search, t, a).value + SrtSegments(fs, m, search, t, b).value
  {
    GatherAppend(srt => FileSegments(fs, m, search, t, srt), a, b);
  }

  /** `fragment` and `franken` searches find nothing in subtitle files. */
  lemma NoSubtitleFragments(fs: Files, m: Matchers, search: string, t: SearchType, srts: seq<string>)
    requires t.Fragment? || t.Franken?
    ensures SrtSegments(fs, m, search, t, srts).Ok?
    ensures SrtSegments(fs, m, search, t, srts).value == []
  {
    forall i | 0 <= i < |srts|
      ensures FileSegments(fs, m, search, t, srts[i]).Ok? && FileSegments(fs, m, search, t, srts[i]).value == []
    {
      var cues := CleanedCues(fs.read(srts[i]));
      var video := LastExisting(fs.isFile, Candidates(srts[i]));
      if video.Some? {
        GatherNothing(k => CueMatch(m, search, t, video.value, cues, k), cues.order);
      }
    }
    GatherNothing(srt => FileSegments(fs, m, search, t, srt), srts);
  }

  /** The inner loop of `compose_from_srts` (videogrep/videogrep.py:398-410):
      one segment for every cue, in cue order, whose stripped text matches. */
  method MatchCues(m: Matchers, search: string, t: SearchType, video: string, cues: Cues)
    returns (segments: Result<seq<Segment>, TimeError>)
    requires forall k :: k in cues.order ==> k in cues.text
    ensures segments == CueSegments(m, search, t, video, cues, cues.order)
  {
    var per := k => CueMatch(m, search, t, video, cues, k);
    var keys := cues.order;
    var found: seq<Segment> := [];
    for j := 0 to |keys|
      invariant Gather(per, keys[..j]).Ok?
      invariant found == Gather(per, keys[..j]).value
    {
      GatherStep(per, keys, j);
      var timespan := keys[j];
      var line := Strip(cues.text[timespan]);
      if SearchLine(m, line, search, t) {
        var span := ConvertTimespan(timespan);
        if span.Err? {
          GatherErrorPersists(per, keys, j + 1);
          return Err(span.error);
        }
        found := found + [Segment(video, line, span.value.0, span.value.1)];
      }
    }
    assert keys[..|keys|] == keys;
    return Ok(found);
  }

  /** `compose_from_srts`: for each subtitle file in turn, clean it, look for
      its video, and, when there is one, append a segment for every cue whose
      text matches. */
  method ComposeFromSrts(fs: Files, srts: seq<string>, search: string, t: SearchType, m: Matchers)
    returns (composition: Result<seq<Segment>, TimeError>)
    ensures composition == SrtSegments(fs, m, search, t, srts)
  {
    var per := srt => FileSegments(fs, m, search, t, srt);
    var found: seq<Segment> := [];
    for i := 0 to |srts|
      invariant Gather(per, srts[..i]).Ok?
      invariant Gather(per, srts[..i]).value == found
    {
      GatherStep(per, srts, i);
      var srt := srts[i];
      var lines := CleanSrt(fs.read(srt));
      CollectKeys(StripAll(SplitLines(RemoveIndexLines(fs.read(srt)))));
      var video := FindVideo(fs.isFile, srt);
      if video.Some? {
        var matched := MatchCues(m, search, t, video.value, lines);
        if matched.Err? {
          GatherErrorPersists(per, srts, i + 1);
          return matched;
        }
        found := found + matched.value;
      }
    }
    assert srts[..|srts|] == srts;
    return Ok(found);
  }

  // ---------------------------------------------------------------------
  // compose_from_vtt

  /** A word of an automatic YouTube subtitle, with its own times. */
  datatype TimedWord = TimedWord(word: string, start: int, end: int)

  /** A sentence as `parse_auto_sub` returns it: its text, its times and
      its words. */
  datatype Sentence = Sentence(text: string, start: int, end: int, words: seq<TimedWord>)

  /** Each item in turn contributes its segments, appended in item order. */
  function Flat<T>(per: T -> seq<Segment>, items: seq<T>): seq<Segment>
    decreases |items|
  {
    if items == [] then [] else Flat(per, items[..|items| - 1]) + per(items[|items| - 1])
  }

  /** The segments are exactly those the items contribute. */
  lemma {:induction false} FlatMembers<T>(per: T -> seq<Segment>, items: seq<T>)
    ensures forall s: Segment :: s in Flat(per, items) ==> exists i :: 0 <= i < |items| && s in per(items[i])
    ensures forall s: Segment, i :: 0 <= i < |items| && s in per(items[i]) ==> s in Flat(per, items)
    decreases |items|
  {
    if items != [] {
      var p := items[..|items| - 1];
      FlatMembers(per, p);
      assert forall i :: 0 <= i < |p| ==> p[i] == items[i];
    }
  }

  lemma FlatStep<T>(per: T -> seq<Segment>, items: seq<T>, j: nat)
    requires j < |items|
    ensures Flat(per, items[..j + 1]) == Flat(per, items[..j]) + per(items[j])
  {
    assert items[..j + 1][..j] == items[..j];
  }

  /** What a matching word contributes. */
  function WordMatch(m: Matchers, search: string, t: SearchType, video: string, w: TimedWord): seq<Segment> {
    if SearchLine(m, w.word, search, t) then [Segment(video, w.word, w.start, w.end)] else []
  }

  /** What a sentence contributes: its matching words for a word, hypernym
      or part-of-speech search, otherwise the sentence itself when it
      matches. */
  function SentenceMatch(m: Matchers, search: string, t: SearchType, video: string, s: Sentence): seq<Segment> {
    if PerWord(t) then Flat(w => WordMatch(m, search, t, video, w), s.words)
    else if SearchLine(m, s.text, search, t) then [Segment(video, s.text, s.start, s.end)]
    else []
  }

  /** What a subtitle file contributes: the segments of its sentences. */
  function VttFileSegments(subs: string -> seq<Sentence>, m: Matchers, search: string, t: SearchType, f: VttFile): seq<Segment> {
    Flat(s => SentenceMatch(m, search, t, f.video, s), subs(f.vtt))
  }

  function VttSegments(subs: string -> seq<Sentence>, m: Matchers, search: string, t: SearchType, files: seq<VttFile>): seq<Segment> {
    Flat(f => VttFileSegments(subs, m, search, t, f), files)
  }

  /** The word loop of `compose_from_vtt` (videogrep/videogrep.py:474-482). */
  method MatchWords(m: Matchers, search: string, t: SearchType, video: string, words: seq<TimedWord>)
    returns (found: seq<Segment>)
    ensures found == Flat(w => WordMatch(m, search, t, video, w), words)
  {
    var perWord := w => WordMatch(m, search, t, video, w);
    found := [];
    for k := 0 to |words|
      invariant found == Flat(perWord, words[..k])
    {
      FlatStep(perWord, words, k);
      var word := words[k];
      if SearchLine(m, word.word, search, t) {
        found := found + [Segment(video, word.word, word.start, word.end)];
      }
    }
    assert words[..|words|] == words;
  }

  /** The sentence loop of `compose_from_vtt` (videogrep/videogrep.py:472-491). */
  method MatchSentences(m: Matchers, search: string, t: SearchType, video: string, sentences: seq<Sentence>)
    returns (found: seq<Segment>)
    ensures found == Flat(s => SentenceMatch(m, search, t, video, s), sentences)
  {
    var perSentence := s => SentenceMatch(m, search, t, video, s);
    found := [];
    for j := 0 to |sentences|
      invariant found == Flat(perSentence, sentences[..j])
    {
      FlatStep(perSentence, sentences, j);
      var sentence := sentences[j];
      if PerWord(t) {
        var words := MatchWords(m, search, t, video, sentence.words);
        found := found + words;
      } else {
        if SearchLine(m, sentence.text, search, t) {
          found := found + [Segment(video, sentence.text, sentence.start, sentence.end)];
        }
      }
    }
    assert sentences[..|sentences|] == sentences;
  }

  /** `compose_from_vtt`: for each subtitle file in turn, the segments of its
      sentences; `subs` reads and parses a subtitle file. */
  method ComposeFromVtt(subs: string -> seq<Sentence>, files: seq<VttFile>, search: string, t: SearchType, m: Matchers)
    returns (segments: seq<Segment>)
    ensures segments == VttSegments(subs, m, search, t, files)
  {
    var perFile := f => VttFileSegments(subs, m, search, t, f);
    segments := [];
    for i := 0 to |files|
      invariant segments == Flat(perFile, files[..i])
    {
      FlatStep(perFile, files, i);
      var found := MatchSentences(m, search, t, files[i].video, subs(files[i].vtt));
      segments := segments + found;
    }
    assert files[..|files|] == files;
  }

  /** For a word, hypernym or part-of-speech search every segment is a
      matching word of some sentence of some file, timed by that word. */
  lemma VttPerWord(subs: string -> seq<Sentence>, m: Matchers, search: string, t: SearchType, files: seq<VttFile>)
    requires PerWord(t)
    ensures forall seg :: seg in VttSegments(subs, m, search, t, files) ==>
      SearchLine(m, seg.line, search, t) &&
      exists i, j, k :: 0 <= i < |files| && 0 <= j < |subs(files[i].vtt)| && 0 <= k < |subs(files[i].vtt)[j].words| &&
        var w := subs(files[i].vtt)[j].words[k];
        seg == Segment(files[i].video, w.word, w.start, w.end)
  {
    var perFile := f => VttFileSegments(subs, m, search, t, f);
    FlatMembers(perFile, files);
    forall i | 0 <= i < |files|
      ensures forall seg :: seg in perFile(files[i]) ==>
        SearchLine(m, seg.line, search, t) &&
        exists j, k :: 0 <= j < |subs(files[i].vtt)| && 0 <= k < |subs(files[i].vtt)[j].words| &&
          var w := subs(files[i].vtt)[j].words[k];
          seg == Segment(files[i].video, w.word, w.start, w.end)
    {
      var perSentence := s => SentenceMatch(m, search, t, files[i].video, s);
      FlatMembers(perSentence, subs(files[i].vtt));
      forall j | 0 <= j < |subs(files[i].vtt)|
        ensures forall seg :: seg in perSentence(subs(files[i].vtt)[j]) ==>
          SearchLine(m, seg.line, search, t) &&
          exists k :: 0 <= k < |subs(files[i].vtt)[j].words| &&
            var w := subs(files[i].vtt)[j].words[k];
            seg == Segment(files[i].video, w.word, w.start, w.end)
      {
        var perWord := w => WordMatch(m, search, t, files[i].video, w);
        FlatMembers(perWord, subs(files[i].vtt)[j].words);
      }
    }
  }

  /** For any other search every segment is a matching sentence, timed by
      that sentence. */
  lemma VttPerSentence(subs: string -> seq<Sentence>, m: Matchers, search: string, t: SearchType, files: seq<VttFile>)
    requires !PerWord(t)
    ensures forall seg :: seg in VttSegments(subs, m, search, t, files) ==>
      SearchLine(m, seg.line, search, t) &&
      exists i, j :: 0 <= i < |files| && 0 <= j < |subs(files[i].vtt)| &&
        var s := subs(files[i].vtt)[j];
        seg == Segment(files[i].video, s.text, s.start, s.end)
  {
    var perFile := f => VttFileSegments(subs, m, search, t, f);
    FlatMembers(perFile, files);
    forall i | 0 <= i < |files|
      ensures forall seg :: seg in perFile(files[i]) ==>
        SearchLine(m, seg.line, search, t) &&
        exists j :: 0 <= j < |subs(files[i].vtt)| &&
          var s := subs(files[i].vtt)[j];
          seg == Segment(files[i].video, s.text, s.start, s.end)
    {
      var perSentence := s => SentenceMatch(m, search, t, files[i].video, s);
      FlatMembers(perSentence, subs(files[i].vtt));
    }
  }

  /** For a word, hypernym or part-of-speech search every matching word of
      every sentence of every file gives its segment. */
  lemma VttWordComplete(subs: string -> seq<Sentence>, m: Matchers, search: string, t: SearchType, files: seq<VttFile>,
                        i: int, j: int, k: int)
    requires PerWord(t)
    requires 0 <= i < |files| && 0 <= j < |subs(files[i].vtt)| && 0 <= k < |subs(files[i].vtt)[j].words|
    requires SearchLine(m, subs(files[i].vtt)[j].words[k].word, search, t)
    ensures var w := subs(files[i].vtt)[j].words[k];
      Segment(files[i].video, w.word, w.start, w.end) in VttSegments(subs, m, search, t, files)
  {
    var sentences := subs(files[i].vtt);
    var w := sentences[j].words[k];
    var seg := Segment(files[i].video, w.word, w.start, w.end);
    var perWord := x => WordMatch(m, search, t, files[i].video, x);
    FlatMembers(perWord, sentences[j].words);
    assert seg in perWord(sentences[j].words[k]);
    var perSentence := s => SentenceMatch(m, search, t, files[i].video, s);
    FlatMembers(perSentence, sentences);
    assert seg in perSentence(sentences[j]);
    var perFile := f => VttFileSegments(subs, m, search, t, f);
    FlatMembers(perFile, files);
    assert seg in perFile(files[i]);
  }

  /** For any other search every matching sentence of every file gives its
      segment. */
  lemma VttSentenceComplete(subs: string -> seq<Sentence>, m: Matchers, search: string, t: SearchType, files: seq<VttFile>,
                            i: int, j: int)
    requires !PerWord(t)
    requires 0 <= i < |files| && 0 <= j < |subs(files[i].vtt)|
    requires SearchLine(m, subs(files[i].vtt)[j].text, search, t)
    ensures var s := subs(files[i].vtt)[j];
      Segment(files[i].video, s.text, s.start, s.end) in VttSegments(subs, m, search, t, files)
  {
    var sentences := subs(files[i].vtt);
    var s := sentences[j];
    var seg := Segment(files[i].video, s.text, s.start, s.end);
    var perSentence := x => SentenceMatch(m, search, t, files[i].video, x);
    FlatMembers(perSentence, sentences);
    assert seg in perSentence(sentences[j]);
    var perFile := f => VttFileSegments(subs, m, search, t, f);
    FlatMembers(perFile, files);
    assert seg in perFile(files[i]);
  }
}
