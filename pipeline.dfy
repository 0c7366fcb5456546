/** The `videogrep` function (videogrep/videogrep.py:498-550): build the
    composition from the subtitle files, give up when nothing matched,
    apply sync and padding, cut to `--max-clips`, then hand the clips to
    one of the outputs. Also the clip file names of `split_clips`
    (videogrep/videogrep.py:309-318). */
module Pipeline {
  import opened Outcomes
  import opened Strings
  import opened Numerals
  import opened Search
  import opened Timestamps
  import opened Compose
  import opened Clips
  import opened Batches
  import opened Edl

  // ---------------------------------------------------------------------
  // split_clips

  /** `basename + '_' + str(i).zfill(5) + ext`, where `basename, ext` is
      `os.path.splitext(outputfile)`. */
  function ClipName(out: string, i: nat): string {
    SplitExt(out).0 + "_" + ZFill(Decimal(i), 5) + SplitExt(out).1
  }

  function ClipNames(out: string, n: nat): (names: seq<string>)
    ensures |names| == n
  {
    seq(n, i requires 0 <= i < n => ClipName(out, i))
  }

  /** A string laid out as four pieces, read back piece by piece. */
  lemma FourPieces(a: string, b: string, c: string, d: string)
    ensures var x := a + b + c + d;
      x[..|a| + |b|] == a + b && x[|a| + |b|..|x| - |d|] == c && x[|x| - |d|..] == d
  {
    var x := a + b + c + d;
    assert x == (a + b) + c + d;
  }

  /** A clip file is named after the output file: its base name, an
      underscore, the clip's index in at least five digits, then the
      output's extension. */
  lemma ClipNameParts(out: string, i: nat)
    ensures exists digits: string ::
      ClipName(out, i) == SplitExt(out).0 + "_" + digits + SplitExt(out).1 &&
      |digits| >= 5 && AllDigits(digits) && DigitsValue(digits) == i
  {
    var z := ZFill(Decimal(i), 5);
    ZFillDecimal(i, 5);
    assert ClipName(out, i) == SplitExt(out).0 + "_" + z + SplitExt(out).1;
  }

  /** No two clips are written to the same file. */
  lemma ClipNamesDistinct(out: string, i: nat, j: nat)
    requires i != j
    ensures ClipName(out, i) != ClipName(out, j)
  {
    var base := SplitExt(out).0;
    var ext := SplitExt(out).1;
    var zi := ZFill(Decimal(i), 5);
    var zj := ZFill(Decimal(j), 5);
    FourPieces(base, "_", zi, ext);
    FourPieces(base, "_", zj, ext);
    if ClipName(out, i) == ClipName(out, j) {
      ZFillDecimalInjective(i, j, 5);
    }
  }

  lemma ClipNamesStep(out: string, i: nat)
    ensures ClipNames(out, i + 1) == ClipNames(out, i) + [ClipName(out, i)]
  {
  }

  /** `split_clips`: one piece per clip, uncorrected, each written to its
      own numbered file. */
  method SplitClips(out: string, s: seq<Segment>) returns (names: seq<string>, cuts: seq<Cut>)
    ensures names == ClipNames(out, |s|)
    ensures cuts == Cuts(s)
  {
    var parts := SplitExt(out);
    var basename, ext := parts.0, parts.1;
    names := [];
    cuts := [];
    for i := 0 to |s|
      invariant names == ClipNames(out, i)
      invariant cuts == Cuts(s[..i])
    {
      var clipfilename := basename + "_" + ZFill(Decimal(i), 5) + ext;
      assert clipfilename == ClipName(out, i);
      ClipNamesStep(out, i);
      names := names + [clipfilename];
      cuts := cuts + [Cut(s[i].file, s[i].start, s[i].end)];
    }
    assert s[..|s|] == s;
  }

  // ---------------------------------------------------------------------
  // the outside world and the options

  /** Where the subtitles come from: `.srt` files next to the videos, or
      YouTube `.vtt` files (`--use-vtt`). */
  datatype Source = FromSrt | FromVtt

  /** The options `videogrep` takes, with padding and sync in milliseconds. */
  datatype Options = Options(source: Source, maxclips: int, padding: int, sync: int, test: bool, exportClips: bool)

  /** Everything the program asks of its surroundings: which files exist
      and what they hold, the glob, the `.vtt` parser, the search engines,
      frame rates and timecodes, and whether a batch renders. */
  datatype World = World(fs: Files, glob: string -> seq<string>, subs: string -> seq<Sentence>,
                         m: Matchers, media: Media, render: Renderer)

  /** How a run ends without output: no subtitle file at all (iterating
      over the `False` returned raises a `TypeError`), a timing line that
      does not convert, or no match (`exit(1)`). */
  datatype Failure = NoSubtitles | BadTimestamp(error: TimeError) | NotFound

  /** What a run produces. */
  datatype Output =
    | Demo(rows: seq<Row>)
    | EdlFile(text: string)
    | OtioFile
    | ClipFiles(names: seq<string>, pieces: seq<Cut>)
    | Batched(file: string, kept: seq<string>, video: seq<Cut>)
    | Supercut(file: string, pieces: seq<Cut>)

  // ---------------------------------------------------------------------
  // the composition

  /** The composition built from the inputs. */
  function Composition(w: World, inputs: seq<string>, search: string, t: SearchType, source: Source): Result<seq<Segment>, Failure> {
    match source
    case FromSrt =>
      var srts := SubtitleFiles(w.fs.isFile, inputs);
      if srts == [] then Err(NoSubtitles)
      else
        var r := SrtSegments(w.fs, w.m, search, t, srts);
        if r.Ok? then Ok(r.value) else Err(BadTimestamp(r.error))
    case FromVtt =>
      var vtts := VttFiles(w.glob, inputs);
      if vtts == [] then Err(NoSubtitles) else Ok(VttSegments(w.subs, w.m, search, t, vtts))
  }

  /** The composition after the adjustment and the truncation. */
  function Prepared(s: seq<Segment>, opts: Options): seq<Segment> {
    Truncate(Shifted(s, opts.sync, opts.padding), opts.maxclips)
  }

  /** The prepared clips are the first clips of the composition, at most
      `maxclips` of them when that is positive, in order, each moved by the
      sync and widened by the padding. */
  lemma PreparedClips(s: seq<Segment>, opts: Options)
    ensures Prepared(s, opts) == Shifted(Truncate(s, opts.maxclips), opts.sync, opts.padding)
    ensures opts.maxclips <= 0 ==> |Prepared(s, opts)| == |s|
    ensures opts.maxclips > 0 ==> |Prepared(s, opts)| == if opts.maxclips < |s| then opts.maxclips else |s|
  {
    TruncateShifted(s, opts.maxclips, opts.sync, opts.padding);
  }

  // ---------------------------------------------------------------------
  // dispatch

  /** `os.path.splitext(outputfile)[1].lower()`. */
  function Extension(out: string): string {
    Lower(SplitExt(out).1)
  }

  /** The last branch of the dispatch: separate clip files, or the
      supercut, in batches when there are more than twenty clips. */
  function Render(w: World, out: string, s: seq<Segment>, opts: Options): Output {
    if opts.exportClips then ClipFiles(ClipNames(out, |s|), Cuts(s))
    else if |s| > 20 then
      Batched(out, Kept(s, out, opts.padding, w.render, BatchCount(|s|)),
        Rendered(s, out, opts.padding, w.render, BatchCount(|s|)))
    else Supercut(out, SupercutCuts(s, opts.padding))
  }

  /** The dispatch as written (videogrep/videogrep.py:536-550): the `.edl`
      test is an `if` of its own, and the chain that follows still ends in a
      render. */
  function OutputsAsWritten(w: World, out: string, s: seq<Segment>, opts: Options): seq<Output> {
    if opts.test then [Demo(DemoRows(s, opts.padding))]
    else
      (if Extension(out) == ".edl" then [EdlFile(EdlText(w.media, s, out))] else []) +
      (if Extension(out) == ".otio" then [OtioFile] else [Render(w, out, s, opts)])
  }

  /** The dispatch with the `.edl` test as the first link of the chain. */
  function Outputs(w: World, out: string, s: seq<Segment>, opts: Options): seq<Output> {
    if opts.test then [Demo(DemoRows(s, opts.padding))]
    else if Extension(out) == ".edl" then [EdlFile(EdlText(w.media, s, out))]
    else if Extension(out) == ".otio" then [OtioFile]
    else [Render(w, out, s, opts)]
  }

  /** As written, an `.edl` output without `--export-clips` gets its edit
      list, and then a render is attempted into the same path; batches or
      not, the render targets the `.edl` file. */
  lemma EdlAlsoRenders(w: World, out: string, s: seq<Segment>, opts: Options)
    requires !opts.test && !opts.exportClips && Extension(out) == ".edl"
    ensures |OutputsAsWritten(w, out, s, opts)| == 2
    ensures OutputsAsWritten(w, out, s, opts)[0] == EdlFile(EdlText(w.media, s, out))
    ensures OutputsAsWritten(w, out, s, opts)[1].file == out
    ensures Outputs(w, out, s, opts) == [EdlFile(EdlText(w.media, s, out))]
  {
  }

  /** An output named `supercut.edl` has the extension `.edl`. */
  lemma EdlExtension()
    ensures Extension("supercut.edl") == ".edl"
  {
    var p := "supercut.edl";
    assert forall j :: 0 <= j < |p| ==> p[j] != '/';
    assert LastIndexOf(p, '/') == -1;
    assert p[8] == '.' && forall j :: 8 < j < |p| ==> p[j] != '.';
    assert LastIndexOf(p, '.') == 8;
    assert p[0] != '.';
    assert p[8..] == ".edl";
  }

  /** So a run asked for `supercut.edl`, outside test mode and without
      `--export-clips`, writes the edit list and then attempts a render of
      the clips into that same file. */
  lemma SupercutEdlRendersTwice(w: World, s: seq<Segment>, opts: Options)
    requires !opts.test && !opts.exportClips
    ensures |OutputsAsWritten(w, "supercut.edl", s, opts)| == 2
    ensures OutputsAsWritten(w, "supercut.edl", s, opts)[0].EdlFile?
    ensures OutputsAsWritten(w, "supercut.edl", s, opts)[1].file == "supercut.edl"
  {
    EdlExtension();
    EdlAlsoRenders(w, "supercut.edl", s, opts);
  }

  /** The two dispatches disagree exactly on `.edl` outputs outside test
      mode; the corrected one always produces one output. */
  lemma DispatchDiffers(w: World, out: string, s: seq<Segment>, opts: Options)
    ensures |Outputs(w, out, s, opts)| == 1
    ensures OutputsAsWritten(w, out, s, opts) != Outputs(w, out, s, opts) <==>
      !opts.test && Extension(out) == ".edl"
    ensures |OutputsAsWritten(w, out, s, opts)| == 2 <==> !opts.test && Extension(out) == ".edl"
  {
  }

  /** Which output the corrected dispatch chooses. */
  lemma OutputChosen(w: World, out: string, s: seq<Segment>, opts: Options)
    ensures Outputs(w, out, s, opts)[0].Demo? <==> opts.test
    ensures Outputs(w, out, s, opts)[0].EdlFile? <==> !opts.test && Extension(out) == ".edl"
    ensures Outputs(w, out, s, opts)[0].ClipFiles? <==>
      !opts.test && Extension(out) != ".edl" && Extension(out) != ".otio" && opts.exportClips
    ensures Outputs(w, out, s, opts)[0].Batched? <==>
      !opts.test && Extension(out) != ".edl" && Extension(out) != ".otio" && !opts.exportClips && |s| > 20
  {
  }

  // ---------------------------------------------------------------------
  // the run

  /** A whole run: the composition, or why there is none, then the output. */
  function Run(w: World, inputs: seq<string>, out: string, search: string, t: SearchType, opts: Options): Result<seq<Output>, Failure> {
    var c := Composition(w, inputs, search, t, opts.source);
    if c.Err? then Err(c.error)
    else if c.value == [] then Err(NotFound)
    else Ok(Outputs(w, out, Prepared(c.value, opts), opts))
  }

  /** A run fails with `NotFound` exactly when the composition is empty,
      and otherwise nothing is written unless the composition was built. */
  lemma RunOutcome(w: World, inputs: seq<string>, out: string, search: string, t: SearchType, opts: Options)
    ensures Run(w, inputs, out, search, t, opts) == Err(NotFound) <==>
      Composition(w, inputs, search, t, opts.source) == Ok([])
    ensures Run(w, inputs, out, search, t, opts).Ok? <==>
      Composition(w, inputs, search, t, opts.source).Ok? && Composition(w, inputs, search, t, opts.source).value != []
  {
  }

  /** A whole run with the dispatch as written. */
  function RunAsWritten(w: World, inputs: seq<string>, out: string, search: string, t: SearchType, opts: Options): Result<seq<Output>, Failure> {
    var c := Composition(w, inputs, search, t, opts.source);
    if c.Err? then Err(c.error)
    else if c.value == [] then Err(NotFound)
    else Ok(OutputsAsWritten(w, out, Prepared(c.value, opts), opts))
  }

  /** The run as written fails exactly when the corrected run fails, with
      the same failure; when both produce output, they differ exactly for an
      `.edl` output outside test mode, where the run as written adds a
      second output aimed at the same path. */
  lemma RunAsWrittenDiffers(w: World, inputs: seq<string>, out: string, search: string, t: SearchType, opts: Options)
    ensures RunAsWritten(w, inputs, out, search, t, opts).Err? <==> Run(w, inputs, out, search, t, opts).Err?
    ensures Run(w, inputs, out, search, t, opts).Err? ==>
      RunAsWritten(w, inputs, out, search, t, opts).error == Run(w, inputs, out, search, t, opts).error
    ensures Run(w, inputs, out, search, t, opts).Ok? ==>
      (RunAsWritten(w, inputs, out, search, t, opts).value != Run(w, inputs, out, search, t, opts).value <==>
        !opts.test && Extension(out) == ".edl")
    ensures Run(w, inputs, out, search, t, opts).Ok? && !opts.test && Extension(out) == ".edl" ==>
      |RunAsWritten(w, inputs, out, search, t, opts).value| == 2 &&
      RunAsWritten(w, inputs, out, search, t, opts).value[0] == Run(w, inputs, out, search, t, opts).value[0]
  {
    var c := Composition(w, inputs, search, t, opts.source);
    if c.Ok? && c.value != [] {
      DispatchDiffers(w, out, Prepared(c.value, opts), opts);
    }
  }

  /** Reading the subtitles: `get_subtitle_files` then `compose_from_srts`,
      or `get_vtt_files` then `compose_from_vtt`. */
  method BuildComposition(w: World, inputs: seq<string>, search: string, t: SearchType, source: Source)
    returns (composition: Result<seq<Segment>, Failure>)
    ensures composition == Composition(w, inputs, search, t, source)
  {
    match source {
      case FromSrt =>
        var srts := GetSubtitleFiles(w.fs.isFile, inputs);
        if srts.None? {
          return Err(NoSubtitles);
        }
        var c := ComposeFromSrts(w.fs, srts.value, search, t, w.m);
        if c.Err? {
          return Err(BadTimestamp(c.error));
        }
        return Ok(c.value);
      case FromVtt =>
        var vtts := GetVttFiles(w.glob, inputs);
        if vtts.None? {
          return Err(NoSubtitles);
        }
        var c := ComposeFromVtt(w.subs, vtts.value, search, t, w.m);
        return Ok(c);
    }
  }

  /** The adjustment loop on the clips, in place, then `composition[:maxclips]`. */
  method Prepare(s: seq<Segment>, opts: Options) returns (prepared: seq<Segment>)
    ensures prepared == Prepared(s, opts)
  {
    var a := new Segment[|s|](i requires 0 <= i < |s| => s[i]);
    assert a[..] == s;
    Adjust(a, opts.sync, opts.padding);
    prepared := a[..];
    if opts.maxclips > 0 && opts.maxclips < |prepared| {
      prepared := prepared[..opts.maxclips];
    }
  }

  /** The last branch: separate clips, batches, or one supercut. */
  method Produce(w: World, out: string, s: seq<Segment>, opts: Options) returns (output: Output)
    ensures output == Render(w, out, s, opts)
  {
    if opts.exportClips {
      var names, cuts := SplitClips(out, s);
      output := ClipFiles(names, cuts);
    } else if |s| > BatchSize {
      var kept, video := SupercutInBatches(s, out, opts.padding, w.render);
      output := Batched(out, kept, video);
    } else {
      var a := new Segment[|s|](i requires 0 <= i < |s| => s[i]);
      assert a[..] == s;
      var rows, cuts := CreateSupercut(a, opts.padding);
      output := Supercut(out, cuts);
    }
  }

  /** `videogrep`, with the `.edl` test as the first link of the dispatch
      chain. */
  method Videogrep(w: World, inputs: seq<string>, out: string, search: string, t: SearchType, opts: Options)
    returns (result: Result<seq<Output>, Failure>)
    ensures result == Run(w, inputs, out, search, t, opts)
  {
    var composition := BuildComposition(w, inputs, search, t, opts.source);
    if composition.Err? {
      return Err(composition.error);
    }
    if |composition.value| == 0 {
      return Err(NotFound);
    }
    var prepared := Prepare(composition.value, opts);
    var outputs: seq<Output>;
    if opts.test {
      var rows := DemoSupercut(prepared, opts.padding);
      outputs := [Demo(rows)];
    } else {
      var ext := Lower(SplitExt(out).1);
      if ext == ".edl" {
        var text, lookups := MakeEdl(w.media, prepared, out);
        outputs := [EdlFile(text)];
      } else if ext == ".otio" {
        outputs := [OtioFile];
      } else {
        var output := Produce(w, out, prepared, opts);
        outputs := [output];
      }
    }
    return Ok(outputs);
  }
}
