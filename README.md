# videogrep, modelled in Dafny

videogrep searches the subtitles of a set of videos for a term and cuts
the matching moments into one video, a set of clip files, or an edit
decision list. This project models the part of
`videogrep/videogrep.py` that decides what gets cut, and proves
properties of that model:

- reading SRT subtitle files (`clean_srt`);
- converting their timing lines (`convert_timestamp`, `convert_timespan`);
- choosing matching cues and YouTube `.vtt` words or sentences
  (`search_line`, `get_subtitle_files`, `get_vtt_files`,
  `compose_from_srts`, `compose_from_vtt`);
- the sync, padding and `--max-clips` adjustment of `videogrep`;
- the choice of output;
- the overlap correction of `create_supercut` and `demo_supercut`;
- the twenty-clip batches of `create_supercut_in_batches`;
- the EDL text of `make_edl` and `make_edl_segment`;
- the clip file names of `split_clips`;
- the n-gram windows of `get_ngrams`.

Times are whole milliseconds (`int`) throughout. SRT stamps carry whole
milliseconds, and padding and sync are given in milliseconds. Everything
the program asks of its surroundings is a parameter: opening and reading
files, `os.path.isfile`, `glob`, `re.search`, the part-of-speech and
hypernym searches, `parse_auto_sub`, `get_fps`, `Timecode` and whether
moviepy renders a batch. These are the fields of the datatypes `Files`,
`Matchers`, `Media` and `Pipeline.World`, and the `Renderer` function of
`Batches`.

Modules, in dependency order:

- `Outcomes`: `Option` and `Result`.
- `Strings`: the Python string operations the program uses — `strip`,
  `find`, `split`, `join`, `replace`, `splitlines`, `lower`,
  `os.path.splitext`, and the key order of a dict filled in a loop.
- `Numerals`: `str(n)`, `int(s)` and `zfill`.
- `Timestamps`: `convert_timestamp` and `convert_timespan`, with their
  `ValueError` as `TimeError`.
- `SrtCues`: `clean_srt`. The cue-number scrub is modelled as a scan of
  the text that matches `^` only at its start and after `\n`, the grouping
  loop as a method proved against a fold, and the OrderedDict as `Cues`:
  its key order plus a map.
- `Search`: `search_line`.
- `Compose`: the composition; the subtitle and video files;
  `compose_from_srts` and `compose_from_vtt` as loops proved against folds.
- `Clips`: sync and padding, the truncation, the overlap correction in
  place on an array, `demo_supercut`, and the pieces `create_supercut` cuts.
- `Batches`: the batch loop.
- `Edl`: `make_edl_segment` and `make_edl`, including the record cursor
  and the frame-rate cache.
- `Ngrams`: the `zip` window.
- `Pipeline`: `split_clips` naming, the dispatch, and `videogrep` as a
  whole.

Behaviour of the code worth knowing:

- The overlap correction only advances a clip's start by the padding. It
  does not guarantee that the clip then starts after its predecessor ends.
  `Clips.OverlapCanRemain` and `Clips.PaddedNeighboursStillOverlap` show
  clips that still overlap afterwards.
- Sync and padding are applied to each clip in one step.
- Each batch of `create_supercut_in_batches` is corrected on its own. The
  first clip of a batch is never moved, even when it starts inside the
  last clip of the batch before (`Batches.BatchBoundaryUncorrected`).
- The `REPLACED BY` reel is the name cut to seven characters. For the
  first 99 events that is `reel_00` every time (`Edl.ReelsCollide`).

## Model

| member | source | states |
|---|---|---|
| `Strings.StripPadded` | videogrep/videogrep.py:199 | `strip` removes exactly the whitespace around a core that neither starts nor ends with whitespace |
| `Strings.LStripRemovesSpace` | videogrep/videogrep.py:221 | `lstrip` keeps a suffix of the string and what it drops is all whitespace |
| `Strings.RStripRemovesSpace` | videogrep/videogrep.py:221 | `rstrip` keeps a prefix of the string and what it drops is all whitespace |
| `Strings.Strip` | videogrep/videogrep.py:221 | a stripped line neither starts nor ends with whitespace |
| `Strings.Find` | videogrep/videogrep.py:222 | `find` returns the first index where the pattern occurs, and `None` (Python's -1) exactly when it occurs nowhere |
| `Strings.Split` | videogrep/videogrep.py:200-201 | the pieces of `split` contain no separator and joining them with it gives back the string |
| `Strings.SplitCount` | videogrep/videogrep.py:200-201 | splitting on a character yields one more piece than there are occurrences of it, which is how the unpacking of a stamp checks for one `,` and two `:` |
| `Strings.SplitAtFirst` | videogrep/videogrep.py:191 | splitting at the first occurrence of the separator gives the head, then the pieces of the rest |
| `Strings.SplitAfterHead` | videogrep/videogrep.py:191 | a head free of the separator's first character is split off whole |
| `Strings.ReplaceAll` | videogrep/videogrep.py:385 | `replace` is joining the pieces of `split` with the replacement |
| `Strings.FirstOccurrences` | videogrep/videogrep.py:106-107 | the keys of a dict filled in a loop are exactly the elements seen, each once |
| `Strings.SplitLines` | videogrep/videogrep.py:216 | no line from `splitlines` contains a line boundary |
| `Strings.SplitLinesTerminated` | videogrep/videogrep.py:216 | `splitlines` gives back the lines that were written out each followed by `\n` |
| `Strings.Lower` | videogrep/videogrep.py:539 | no contract of its own; `Pipeline.EdlExtension` shows it lowering the extension of `supercut.edl` |
| `Strings.SplitExt` | videogrep/videogrep.py:314 | `splitext` cuts the path into base and extension, which concatenate to the path; the extension is empty or a `.` followed by no `.` or `/` |
| `Numerals.Decimal` | videogrep/videogrep.py:111 | `str(n)` is a non-empty string of digits that reads back as `n` |
| `Numerals.ZFill` | videogrep/videogrep.py:317 | `zfill` pads with `0` on the left up to the width, keeps the string as its suffix and never shortens it |
| `Numerals.ZFillDecimal` | videogrep/videogrep.py:111 | a zero-padded `str(n)` is all digits and reads back as `n` |
| `Numerals.ZFillDecimalInjective` | videogrep/videogrep.py:317 | distinct numbers have distinct zero-padded numerals |
| `Numerals.ParseInt` | videogrep/videogrep.py:202-204 | no contract of its own; `Numerals.ParseIntDigits` and `Numerals.ParseIntChars` state what `int()` accepts and what it gives |
| `Numerals.ParseIntDigits` | videogrep/videogrep.py:202-204 | `int()` accepts every whitespace-padded numeral and returns its value |
| `Numerals.ParseIntChars` | videogrep/videogrep.py:202-204 | a string `int()` accepts holds only whitespace, digits and signs |
| `Timestamps.ParseClock` | videogrep/videogrep.py:200-204 | no contract of its own; `Timestamps.ClockCounts` says when the unpacking succeeds, `Timestamps.ParseClockDigits` what it gives for decimal fields |
| `Timestamps.ConvertTimestamp` | videogrep/videogrep.py:197-206 | an accepted stamp has, once stripped, exactly one `,` and exactly two `:` |
| `Timestamps.ClockCounts` | videogrep/videogrep.py:200-201 | unpacking into two halves and three fields succeeds only with one `,` and two `:` |
| `Timestamps.ConvertTimestampDigits` | videogrep/videogrep.py:197-206 | a stamp of decimal fields, padded with any whitespace, converts to `H*3600000 + M*60000 + S*1000 + mmm` milliseconds |
| `Timestamps.ConvertFormatted` | videogrep/videogrep.py:197-206 | converting the canonical `HH:MM:SS,mmm` rendering of any time gives that time back |
| `Timestamps.ConvertTimespan` | videogrep/videogrep.py:189-194 | only a line containing `-->` converts |
| `Timestamps.ArrowFirstAfter` | videogrep/videogrep.py:191 | in `a-->b` with no `-->` inside `a`, the first `-->` is the one after `a` |
| `Timestamps.ConvertTimespanParts` | videogrep/videogrep.py:189-194 | for halves that hold no `-->`, `a-->b` converts (in both directions) exactly when both stamps do; then it gives the pair of their values, and otherwise the error of the first stamp that fails |
| `Timestamps.ConvertFormattedSpan` | videogrep/videogrep.py:189-194 | converting the canonical `start --> end` rendering gives `(start, end)` back |
| `SrtCues.RemoveIndexLines` | videogrep/videogrep.py:215 | no contract of its own; `SrtCues.KeptLines`, `SrtCues.RemoveIndexLinesTerminated` and `SrtCues.IndexLinesRemoved` say which lines it removes, `SrtCues.FormFeedLine` what it keeps |
| `SrtCues.DigitRunDigits` | videogrep/videogrep.py:215 | the digit run at the start of a string is all digits and is not followed by a digit |
| `SrtCues.IndexMatch` | videogrep/videogrep.py:215 | a match of `\d+[\n\r]` is at least two characters long and ends in `\n` or `\r` |
| `SrtCues.KeptLines` | videogrep/videogrep.py:215 | the kept lines are exactly the lines that are not cue numbers |
| `SrtCues.ScrubLine` | videogrep/videogrep.py:215 | a line at a line start followed by `\n` is dropped exactly when it is all digits |
| `SrtCues.RemoveIndexLinesTerminated` | videogrep/videogrep.py:215 | on `\n`-terminated lines the substitution removes exactly the cue-number lines |
| `SrtCues.IndexLinesRemoved` | videogrep/videogrep.py:215-216 | after the substitution and `splitlines`, no cue-number line is left and every other line is, in order |
| `SrtCues.FormFeedLine` | videogrep/videogrep.py:215-216 | a cue number after a form feed is not at a line start for `^`, so it survives the substitution, and `splitlines` makes it a line of its own |
| `SrtCues.TimingFind` | videogrep/videogrep.py:222 | a line is a timing line exactly when `find('-->')` finds something |
| `SrtCues.Absorb` | videogrep/videogrep.py:220-227 | no contract of its own; `SrtCues.Collect` folds it over the lines, and the `Collect` lemmas below state what the turns build |
| `SrtCues.Collect` | videogrep/videogrep.py:218-224 | once a timing line has been seen, the current key is one of the dict's keys (before that it is empty) |
| `SrtCues.CleanedCues` | videogrep/videogrep.py:209-229 | no contract of its own; `SrtCues.CleanSrt` computes it by the loop; `SrtCues.CollectOrder`, `SrtCues.CollectText` and `SrtCues.TimingKeys` state its keys, their order and their texts |
| `SrtCues.CleanSrt` | videogrep/videogrep.py:209-229 | the loop builds the dict of the stripped lines of the scrubbed text |
| `SrtCues.TimingKeys` | videogrep/videogrep.py:222-223 | the keys seen are exactly the timing lines |
| `SrtCues.CollectKeys` | videogrep/videogrep.py:217-224 | the recorded key order lists exactly the keys of the dict |
| `SrtCues.CollectOrder` | videogrep/videogrep.py:222-224 | keys keep the order of their first timing line, however often it repeats, so they are distinct |
| `SrtCues.CollectKey` | videogrep/videogrep.py:218-223 | the current key is the last timing line seen, or empty before the first |
| `SrtCues.Section` | videogrep/videogrep.py:227 | a cue's text is empty or ends in a space |
| `SrtCues.CollectTextOf` | videogrep/videogrep.py:220-227 | a key's text is the lines after its last timing line, up to the next timing line, each followed by a space |
| `SrtCues.CollectText` | videogrep/videogrep.py:220-227 | the same for every key of the dict |
| `SrtCues.PreambleDropped` | videogrep/videogrep.py:226 | lines before the first timing line leave no trace |
| `SrtCues.NoTimingNoCues` | videogrep/videogrep.py:226 | without a timing line the dict is empty |
| `SrtCues.RepeatedKeyResets` | videogrep/videogrep.py:223-224 | a timing line seen again keeps its key's place and empties its text |
| `Search.SearchLine` | videogrep/videogrep.py:321-328 | `re`/`word` match through `re.search`, `pos` and `hyper` through their engines, and no other search type ever matches |
| `Compose.SrtPath` | videogrep/videogrep.py:336-338 | no contract of its own; `Compose.SrtPathReplacesExtension` and `Compose.SrtPathNoDot` state the path it gives |
| `Compose.SrtPathReplacesExtension` | videogrep/videogrep.py:336-338 | a name with an extension gets the extension `srt` |
| `Compose.SrtPathNoDot` | videogrep/videogrep.py:336-338 | a name without a dot becomes just `srt` |
| `Compose.VttPrefix` | videogrep/videogrep.py:356-357 | no contract of its own; `Compose.VttPrefixDropsExtension` and `Compose.VttPrefixNoDot` state the prefix it gives |
| `Compose.VttPrefixDropsExtension` | videogrep/videogrep.py:354-355 | the glob prefix is the name without its last extension |
| `Compose.VttPrefixNoDot` | videogrep/videogrep.py:354-355 | a name without a dot gives the empty prefix |
| `Compose.SubtitleFiles` | videogrep/videogrep.py:335-340 | the subtitle files are exactly the derived `.srt` paths that exist |
| `Compose.GetSubtitleFiles` | videogrep/videogrep.py:331-346 | the loop returns those files in input order, and `False` exactly when there are none |
| `Compose.VttFiles` | videogrep/videogrep.py:353-358 | at most one pair per input file; `Compose.VttFilesFromGlob` and `Compose.VttFilesComplete` together say the pairs are exactly the inputs whose prefix glob is non-empty, each with its first match |
| `Compose.VttFilesFromGlob` | videogrep/videogrep.py:353-358 | every pair holds an input file and the first of the nonempty matches of its prefix glob |
| `Compose.VttFilesComplete` | videogrep/videogrep.py:353-358 | every input whose prefix glob is non-empty is paired with the first match of that glob |
| `Compose.GetVttFiles` | videogrep/videogrep.py:349-364 | the loop returns those pairs, and `False` exactly when there are none |
| `Compose.Candidates` | videogrep/videogrep.py:384-385 | one candidate video name per usable extension |
| `Compose.LastExisting` | videogrep/videogrep.py:384-389 | no contract of its own; `Compose.LastExistingWins` states which candidate it picks, `Compose.FindVideo` computes it by the loop |
| `Compose.LastExistingWins` | videogrep/videogrep.py:384-389 | no video is found exactly when no candidate exists; otherwise the one found exists and no later candidate does |
| `Compose.FindVideo` | videogrep/videogrep.py:384-389 | the lookup loop finds the last existing candidate |
| `Compose.CandidateOf` | videogrep/videogrep.py:385 | for a file whose only `.srt` is its suffix the candidate is its stem with the extension |
| `Compose.CueSegments` | videogrep/videogrep.py:396-407 | no contract of its own; `Compose.MatchCues` computes it by the loop, `Compose.CueSegmentsMatch` and `Compose.CueSegmentsComplete` state its segments |
| `Compose.FileSegments` | videogrep/videogrep.py:375-420 | no contract of its own; `Compose.FileSegmentsMatch` and `Compose.NoSubtitleFragments` state what one file gives |
| `Compose.SrtSegments` | videogrep/videogrep.py:367-429 | no contract of its own; `Compose.ComposeFromSrts` computes it by the loops; `Compose.SrtSegmentsMatch`, `Compose.SrtSegmentsComplete` and `Compose.SrtSegmentsAppend` state its segments and their order |
| `Compose.Gather` | videogrep/videogrep.py:375-410 | no contract of its own; `Compose.GatherStep`, `Compose.GatherErrorPersists`, `Compose.GatherFail`, `Compose.GatherMembers` and `Compose.GatherAppend` state how it appends and how the first failure ends it |
| `Compose.GatherStep` | videogrep/videogrep.py:375-410 | each subtitle file in turn either raises or appends its segments |
| `Compose.GatherErrorPersists` | videogrep/videogrep.py:407 | once a timing line fails to convert, later files do not matter |
| `Compose.GatherFail` | videogrep/videogrep.py:407 | the composition fails exactly when some file fails |
| `Compose.GatherMembers` | videogrep/videogrep.py:375-410 | the segments are exactly those the files contribute |
| `Compose.GatherAppend` | videogrep/videogrep.py:375-410 | the segments of a concatenation of files are those of each part, in order |
| `Compose.GatherNothing` | videogrep/videogrep.py:375-410 | files that contribute nothing give an empty composition |
| `Compose.CueMatch` | videogrep/videogrep.py:396-407 | no contract of its own; `Compose.CueMatchMeans`, `Compose.CueMatchFits` and `Compose.CueMatchGives` state when a cue fails, gives nothing or gives its segment |
| `Compose.CueMatchMeans` | videogrep/videogrep.py:398-410 | a cue fails exactly when its stripped text matches and its timing line does not convert, gives at most one segment, and gives one exactly when it matches; that segment has the video, the stripped text and the converted times |
| `Compose.SrtSegmentsMatch` | videogrep/videogrep.py:367-429 | every segment of the composition matches the search and names an existing video |
| `Compose.SrtSegmentsComplete` | videogrep/videogrep.py:375-410 | every cue of every subtitle file that has a video, whose stripped text matches, gives its segment in the composition, with that video, text and converted times |
| `Compose.FileSegmentsMatch` | videogrep/videogrep.py:380-410 | every segment of one subtitle file matches and names an existing video |
| `Compose.CueSegmentsMatch` | videogrep/videogrep.py:398-410 | every segment of a file's cues matches and belongs to that file's video |
| `Compose.CueMatchFits` | videogrep/videogrep.py:402-410 | what one cue contributes matches and belongs to the video |
| `Compose.CueSegmentsComplete` | videogrep/videogrep.py:398-410 | every cue whose stripped text matches gives its segment |
| `Compose.CueMatchGives` | videogrep/videogrep.py:402-410 | a matching cue gives exactly its one segment |
| `Compose.SrtSegmentsAppend` | videogrep/videogrep.py:375 | segments come file by file, in the order the subtitle files are given |
| `Compose.NoSubtitleFragments` | videogrep/videogrep.py:402 | `fragment` and `franken` searches find nothing in subtitle files |
| `Compose.MatchCues` | videogrep/videogrep.py:398-410 | the cue loop yields the segments of the matching cues, in cue order |
| `Compose.ComposeFromSrts` | videogrep/videogrep.py:367-429 | the nested loops yield the segments file by file and cue by cue |
| `Compose.FlatMembers` | videogrep/videogrep.py:466-491 | the appended segments are exactly those each item contributes |
| `Compose.FlatStep` | videogrep/videogrep.py:466-491 | one more item appends its segments |
| `Compose.WordMatch` | videogrep/videogrep.py:474-482 | no contract of its own; `Compose.MatchWords` computes its fold over a sentence by the loop |
| `Compose.SentenceMatch` | videogrep/videogrep.py:473-491 | no contract of its own; `Compose.MatchSentences` computes it by the loops, per word or per sentence |
| `Compose.VttFileSegments` | videogrep/videogrep.py:466-491 | no contract of its own; the fold over a file's sentences; `Compose.VttPerWord`, `Compose.VttPerSentence`, `Compose.VttWordComplete` and `Compose.VttSentenceComplete` state its segments through `Compose.VttSegments` |
| `Compose.MatchWords` | videogrep/videogrep.py:474-482 | the word loop yields a segment for each matching word, in order |
| `Compose.MatchSentences` | videogrep/videogrep.py:472-491 | the sentence loop yields the matching words or sentences, in order |
| `Compose.ComposeFromVtt` | videogrep/videogrep.py:463-493 | the loops yield the segments file by file and sentence by sentence |
| `Compose.VttSegments` | videogrep/videogrep.py:463-493 | no contract of its own; `Compose.ComposeFromVtt` computes it by the loops; `Compose.VttPerWord`, `Compose.VttPerSentence`, `Compose.VttWordComplete` and `Compose.VttSentenceComplete` state its segments |
| `Compose.VttPerWord` | videogrep/videogrep.py:473-482 | for `word`, `hyper` and `pos` every segment is a matching word of some sentence, timed by that word |
| `Compose.VttPerSentence` | videogrep/videogrep.py:483-491 | for other search types every segment is a matching sentence, timed by that sentence |
| `Compose.VttWordComplete` | videogrep/videogrep.py:473-482 | for `word`, `hyper` and `pos` every matching word of every sentence of every file gives its segment |
| `Compose.VttSentenceComplete` | videogrep/videogrep.py:483-491 | for other search types every matching sentence of every file gives its segment |
| `Clips.Shift` | videogrep/videogrep.py:527-528 | no contract of its own; `Clips.ShiftedClips` and `Clips.ShiftedCompose` state what it does to each clip, `Clips.Adjust` applies it in place |
| `Clips.Shifted` | videogrep/videogrep.py:526-528 | every clip is adjusted and none is added or lost |
| `Clips.ShiftedClips` | videogrep/videogrep.py:526-528 | an adjusted clip keeps its file and text, lasts `2 * padding` longer and has its midpoint moved by `sync` |
| `Clips.ShiftedCompose` | videogrep/videogrep.py:526-528 | adjusting by nothing changes nothing, and two adjustments add up |
| `Clips.Adjust` | videogrep/videogrep.py:526-528 | the loop adjusts every clip in place |
| `Clips.Truncate` | videogrep/videogrep.py:530-531 | with a positive limit the result is the first `min(maxclips, n)` clips, otherwise the composition unchanged |
| `Clips.TruncateShifted` | videogrep/videogrep.py:526-531 | truncating and adjusting commute |
| `Clips.Overlaps` | videogrep/videogrep.py:260 | no contract of its own; `Clips.CorrectedMoves` states that exactly the clips it holds for are moved |
| `Clips.Corrected` | videogrep/videogrep.py:259-261 | the correction keeps the number of clips |
| `Clips.CorrectedMoves` | videogrep/videogrep.py:259-261 | only starts move: by exactly `padding` for a clip starting inside its same-file predecessor (compared with the original values), by nothing otherwise; the first clip and every end stay |
| `Clips.FixOverlaps` | videogrep/videogrep.py:259-261 | the pairwise loop makes that correction in place |
| `Clips.DemoRows` | videogrep/videogrep.py:242-248 | one printed row per clip |
| `Clips.DemoSupercut` | videogrep/videogrep.py:240-248 | the printing loop shows each clip's text, end and corrected start, and changes nothing |
| `Clips.DemoRowsAgree` | videogrep/videogrep.py:246-261 | the printed rows carry exactly the times `create_supercut` cuts at |
| `Clips.OverlapCanRemain` | videogrep/videogrep.py:259-261 | two clips 2000 ms into each other still overlap after a 500 ms correction |
| `Clips.PaddedNeighboursStillOverlap` | videogrep/videogrep.py:259-261 | same-file clips closer than the padding still overlap after padding and correction |
| `Clips.Cuts` | videogrep/videogrep.py:266 | one piece per clip, with its file and times |
| `Clips.SupercutCuts` | videogrep/videogrep.py:259-266 | no contract of its own; `Clips.SupercutCutsFollow` states the order, files and times of its pieces, `Clips.CreateSupercut` computes it |
| `Clips.CreateSupercut` | videogrep/videogrep.py:251-266 | it prints the rows of `demo_supercut`, and so the corrected times, corrects the clips in place, and cuts one piece per corrected clip |
| `Clips.SupercutCutsFollow` | videogrep/videogrep.py:259-266 | the pieces keep the order and files of the clips and the corrected starts |
| `Batches.Batch` | videogrep/videogrep.py:287 | no contract of its own; `Batches.BatchesCover` and `Batches.BatchSizes` state which clips each slice holds |
| `Batches.TempName` | videogrep/videogrep.py:285 | no contract of its own; `Batches.TempNameInjective` says distinct batches get distinct names |
| `Batches.Kept` | videogrep/videogrep.py:283-295 | no contract of its own; `Batches.SupercutInBatches` computes it by the loop, `Batches.KeptNames` states its names |
| `Batches.Rendered` | videogrep/videogrep.py:287-298 | no contract of its own; `Batches.SupercutInBatches` computes it by the loop, `Batches.AllRendered` states it when every batch renders |
| `Batches.BatchCount` | videogrep/videogrep.py:284 | no contract of its own; `Batches.BatchCountIs` states that it is the number of turns of the loop |
| `Batches.BatchCountIs` | videogrep/videogrep.py:284 | the loop stops after the first `k` with `20k >= n` |
| `Batches.TempNameInjective` | videogrep/videogrep.py:285 | different batches get different temporary files |
| `Batches.BatchesPrefix` | videogrep/videogrep.py:284-294 | the first `k` batches are the first `20k` clips, in order |
| `Batches.BatchesCover` | videogrep/videogrep.py:284-294 | the batches together are the whole composition, each clip once |
| `Batches.BatchSizes` | videogrep/videogrep.py:282-287 | every batch the loop visits has 1 to 20 clips and starts at clip `20k` |
| `Batches.KeptNames` | videogrep/videogrep.py:285-294 | the kept names are exactly the temporary files of the batches that rendered, each once |
| `Batches.AllRendered` | videogrep/videogrep.py:286-291 | when every batch renders, the video holds one piece per clip |
| `Batches.BatchBoundaryUncorrected` | videogrep/videogrep.py:287 | the first clip of a later batch keeps its start where the unbatched correction would move it |
| `Batches.SupercutInBatches` | videogrep/videogrep.py:276-295 | the loop keeps the names and pieces of exactly the batches that rendered, skipping the others |
| `Edl.EventLine` | videogrep/videogrep.py:79 | no contract of its own; `Edl.EdlSegmentLines` states it as the first line of an event block |
| `Edl.EdlSegment` | videogrep/videogrep.py:74-93 | no contract of its own; `Edl.SegmentIsTerminated` and `Edl.EdlSegmentLines` state its five lines |
| `Edl.Reel` | videogrep/videogrep.py:75-77 | the reel is the name's first seven characters, or the whole name when shorter |
| `Edl.SegmentLines` | videogrep/videogrep.py:79 | an event block has five lines |
| `Edl.SegmentIsTerminated` | videogrep/videogrep.py:79-93 | the filled template is its five lines, each followed by `\n` |
| `Edl.SegmentLinesNoBreak` | videogrep/videogrep.py:79-93 | those lines hold no line break when the names and timecodes hold none |
| `Edl.EdlSegmentLines` | videogrep/videogrep.py:74-93 | read line by line, a block gives the event line with the full name, the source file, the comment, and the name with its seven-character reel, then a blank line |
| `Edl.Number` | videogrep/videogrep.py:111 | no contract of its own; `Edl.NumberValue` and `Edl.NumbersDistinct` state its value and that numbers differ |
| `Edl.FullName` | videogrep/videogrep.py:119 | no contract of its own; `Edl.NumbersDistinct` and `Edl.ReelsCollide` state that names differ and their reels collide |
| `Edl.NumberValue` | videogrep/videogrep.py:111 | event `i` is numbered `i + 1` in at least four digits |
| `Edl.NumbersDistinct` | videogrep/videogrep.py:111-119 | no two events share a number or a name |
| `Edl.ReelsCollide` | videogrep/videogrep.py:75-77 | the first 99 events all carry the reel `reel_00` |
| `Edl.DurationsAppend` | videogrep/videogrep.py:115-117 | total length adds up over concatenation |
| `Edl.RecIn` | videogrep/videogrep.py:103-125 | no contract of its own; `Edl.RecordContiguous` and `Edl.RecordMonotone` state where each clip lands on the timeline |
| `Edl.RecordContiguous` | videogrep/videogrep.py:103-125 | the first record in is 0, each record out is the record in plus the clip's length, and the next record in is that record out |
| `Edl.RecordMonotone` | videogrep/videogrep.py:113-125 | with no clip of negative length record times never go back |
| `Edl.PaddedTimeline` | videogrep/videogrep.py:115-117 | padding every clip by `p` lengthens the timeline by `2p` per clip |
| `Edl.Header` | videogrep/videogrep.py:101 | no contract of its own; `Edl.HeaderIsTerminated` states its three lines |
| `Edl.EdlText` | videogrep/videogrep.py:96-128 | no contract of its own; `Edl.MakeEdl` computes it by the loop; `Edl.EdlLines`, `Edl.EdlBlockAt` and `Edl.RecordContiguous` state its lines and record times |
| `Edl.HeaderIsTerminated` | videogrep/videogrep.py:101 | the header is the title line, the frame-code line and a blank line |
| `Edl.EventsAsLines` | videogrep/videogrep.py:105-123 | the appended blocks are five break-free lines per clip |
| `Edl.Block` | videogrep/videogrep.py:105-123 | no contract of its own; `Edl.BlockIs` states it as the `make_edl_segment` text of clip `i` with its record times, `Edl.BlockFacts` as five break-free terminated lines, and `Edl.EdlBlockAt` reads those lines back from the whole text |
| `Edl.EdlLines` | videogrep/videogrep.py:96-125 | read line by line, the list is the header's three lines and then five lines per clip |
| `Edl.EdlBlockAt` | videogrep/videogrep.py:105-123 | lines `3 + 5i` to `3 + 5i + 5` are the block of clip `i` |
| `Edl.AppendBlock` | videogrep/videogrep.py:111-125 | one loop step extends the text by the next clip's block |
| `Edl.SegmentFiles` | videogrep/videogrep.py:106 | one file per clip |
| `Edl.LookupStep` | videogrep/videogrep.py:106-107 | a clip adds its file to the looked-up files exactly when it is new |
| `Edl.CachedFps` | videogrep/videogrep.py:106-109 | the frame rate is that of the file, asked for only when the file is not cached |
| `Edl.AppendEvent` | videogrep/videogrep.py:111-125 | the loop body appends the clip's block and moves the record cursor by the clip's length |
| `Edl.MakeEdl` | videogrep/videogrep.py:96-128 | the text written is the header and the blocks of all clips, and the frame rates asked for are those of the distinct files, in first-use order |
| `Edl.OneLookupPerFile` | videogrep/videogrep.py:106-107 | every file of the composition has its frame rate looked up, and only once |
| `Ngrams.Zip` | videogrep/videogrep.py:70 | no contract of its own; `Ngrams.NGramCount` and `Ngrams.NGramAt` state the tuples it gives over the shifted copies |
| `Ngrams.NGrams` | videogrep/videogrep.py:70 | no contract of its own; `Ngrams.NGramCount`, `Ngrams.NGramAt`, `Ngrams.NGramWindows` and `Ngrams.EveryWindow` state its n-grams |
| `Ngrams.MinLength` | videogrep/videogrep.py:70 | the shortest list's length is at most every length and is attained |
| `Ngrams.Suffixes` | videogrep/videogrep.py:70 | `n` shifted copies, none for `n <= 0` |
| `Ngrams.NGramCount` | videogrep/videogrep.py:70 | there are `|words| - n + 1` n-grams, none when `n <= 0` or the words are fewer than `n` |
| `Ngrams.NGramAt` | videogrep/videogrep.py:70 | the n-gram at `j` is the `n` words from `j` on |
| `Ngrams.NGramWindows` | videogrep/videogrep.py:70 | the n-grams are exactly the windows of `n` consecutive words, in order |
| `Ngrams.EveryWindow` | videogrep/videogrep.py:70 | every run of `n` words is an n-gram |
| `Pipeline.ClipName` | videogrep/videogrep.py:314-317 | no contract of its own; `Pipeline.ClipNameParts` and `Pipeline.ClipNamesDistinct` state its parts and that names differ |
| `Pipeline.ClipNames` | videogrep/videogrep.py:316-317 | one file name per clip |
| `Pipeline.FourPieces` | videogrep/videogrep.py:317 | a name built from base, separator, number and extension gives each part back |
| `Pipeline.ClipNameParts` | videogrep/videogrep.py:314-317 | a clip's file name is the output's base name, `_`, at least five digits reading as the clip's index, and the output's extension |
| `Pipeline.ClipNamesDistinct` | videogrep/videogrep.py:316-317 | no two clips are written to the same file |
| `Pipeline.SplitClips` | videogrep/videogrep.py:309-318 | one numbered file per clip, each holding its uncorrected piece |
| `Pipeline.Composition` | videogrep/videogrep.py:507-515 | no contract of its own; `Pipeline.BuildComposition` computes it, and `Pipeline.RunOutcome` relates it to the run |
| `Pipeline.Render` | videogrep/videogrep.py:543-550 | no contract of its own; `Pipeline.Produce` computes it, and `Pipeline.OutputChosen` says which branch it takes |
| `Pipeline.OutputsAsWritten` | videogrep/videogrep.py:536-550 | no contract of its own; `Pipeline.EdlAlsoRenders`, `Pipeline.SupercutEdlRendersTwice` and `Pipeline.DispatchDiffers` state what it gives |
| `Pipeline.Outputs` | videogrep/videogrep.py:536-550 | no contract of its own; `Pipeline.OutputChosen` states which output it gives, and `Pipeline.DispatchDiffers` that it gives one and relates it to `Pipeline.OutputsAsWritten` |
| `Pipeline.Prepared` | videogrep/videogrep.py:526-531 | no contract of its own; `Pipeline.PreparedClips` states the clips it keeps, `Pipeline.Prepare` computes it |
| `Pipeline.PreparedClips` | videogrep/videogrep.py:526-531 | the prepared clips are the first `min(maxclips, n)` clips (all when `maxclips <= 0`), each adjusted |
| `Pipeline.EdlAlsoRenders` | videogrep/videogrep.py:539-550 | as written, an `.edl` output without `--export-clips` gets its edit list and then a render to the same path; the corrected chain writes only the edit list |
| `Pipeline.Extension` | videogrep/videogrep.py:539-541 | no contract of its own; `Pipeline.EdlExtension` gives its value for `supercut.edl`, and `Pipeline.OutputChosen` and `Pipeline.DispatchDiffers` branch on it |
| `Pipeline.EdlExtension` | videogrep/videogrep.py:539 | `supercut.edl` has the extension `.edl` |
| `Pipeline.SupercutEdlRendersTwice` | videogrep/videogrep.py:539-550 | as written, `supercut.edl` gets an edit list, then a render is attempted into the same file |
| `Pipeline.DispatchDiffers` | videogrep/videogrep.py:536-550 | the corrected dispatch makes one output; the two dispatches differ exactly for `.edl` outputs outside test mode |
| `Pipeline.OutputChosen` | videogrep/videogrep.py:536-550 | test mode prints, `.edl` writes the list, `.otio` the timeline, `--export-clips` the clip files, and more than 20 clips go in batches |
| `Pipeline.Run` | videogrep/videogrep.py:496-550 | no contract of its own; `Pipeline.Videogrep` computes it, `Pipeline.RunOutcome` states when it fails and when it gives output |
| `Pipeline.RunOutcome` | videogrep/videogrep.py:507-520 | a run fails with "not found" exactly when the composition is empty, and produces output exactly when a non-empty composition was built |
| `Pipeline.RunAsWritten` | videogrep/videogrep.py:496-550 | the whole run with the dispatch as written |
| `Pipeline.RunAsWrittenDiffers` | videogrep/videogrep.py:536-550 | the run as written fails exactly when the corrected run does, with the same failure; their outputs differ exactly for an `.edl` output outside test mode, where the run as written adds a second output |
| `Pipeline.BuildComposition` | videogrep/videogrep.py:507-514 | subtitle files then their composition, or the failure |
| `Pipeline.Prepare` | videogrep/videogrep.py:526-531 | the in-place adjustment then the truncation give the prepared clips |
| `Pipeline.Produce` | videogrep/videogrep.py:543-550 | clip files, batches for more than 20 clips, or one supercut |
| `Pipeline.Videogrep` | videogrep/videogrep.py:496-550 | the whole run: composition, failure exits, adjustment, truncation, and the output of the corrected dispatch |

## Left out

- Transcripts: the `--use-transcript` path (`create_timestamps`,
  `compose_from_transcript`) depends on audiogrep, a foreign engine.
  `Pipeline.Source` has only the SRT and VTT sources.
- `make_otio` is a wrapper over an external timeline library with
  floating-point frame arithmetic. `Pipeline.Output.OtioFile` stands for
  its output.
- `--randomize` (`random.shuffle`) is randomness. The model never shuffles.
- The media work left out: cutting, concatenating and encoding video;
  deleting the temporary batch files; `cleanup_log_files`; `get_fps` and
  `get_duration`. A render's success for a batch and a file's frame rate
  are given functions. `Clips.CreateSupercut` and `Pipeline.SplitClips`
  stop at the pieces they would cut.
- Printing and `main` (argument parsing) are left out. The `exit(1)` for
  an empty composition is `Err(NotFound)`. The `TypeError` raised when no
  subtitle file exists is `Err(NoSubtitles)`.
- The regular-expression engine (`re.search`, the `re.split` tokenizer of
  `get_ngrams`), `parse_auto_sub`, the part-of-speech and hypernym
  searches and `Timecode` are outside code. They are function parameters.
  A search pattern that is not a valid regular expression makes
  `re.search` raise `re.error`, which ends the run; `Matchers.regex` is a
  total predicate, so the model has no such failure.
  The n-grams are taken over a given word list.
- The `time` entry of a composition segment is left out: nothing in the
  modelled code reads it.
- Timestamps.ConvertTimestamp: reads the milliseconds field with `int()`
  rather than `float()`, so a fractional or exponent millisecond field is
  rejected where Python would accept it. Results are whole milliseconds,
  not floating-point seconds.
- SrtCues.IndexLinesRemoved: the characterisation of the cue-number scrub
  is proved for `\n`-terminated lines only. The text is read in text mode,
  so it holds no `\r`. But `splitlines` also breaks at boundaries that are
  no line start for `^`, such as a form feed or U+2028; for those,
  `SrtCues.FormFeedLine` shows the scrub by example. Its digits are ASCII,
  as below.
- SrtCues.RemoveIndexLines: `\d` is read as the ASCII digits 0-9. In
  Python 3 it matches every Unicode decimal digit, so a cue number such as
  `١٢` on its own line is removed by the program but kept by the model.
  The same gap holds for the members built on it, listed next.
- SrtCues.DigitRunDigits: the run is of ASCII digits only (see
  SrtCues.RemoveIndexLines).
- SrtCues.IndexMatch: matches `\d+[\n\r]` with ASCII digits only (see
  SrtCues.RemoveIndexLines).
- SrtCues.KeptLines: a cue-number line is one of ASCII digits only, so a
  line of other Unicode digits is kept (see SrtCues.RemoveIndexLines).
- SrtCues.ScrubLine: "all digits" means ASCII digits (see
  SrtCues.RemoveIndexLines).
- SrtCues.RemoveIndexLinesTerminated: removes the lines of ASCII digits
  only (see SrtCues.RemoveIndexLines).
- The universal-newline translation of text-mode reading is not modelled
  as a step. `Compose.Files.read` stands for the text as read, which holds
  no `\r`.
- Pipeline.Videogrep: follows the corrected dispatch. For an `.edl` output
  outside test mode it returns only the edit list, while the code as
  written then also runs `split_clips` or a render into the same path.
  `Pipeline.RunAsWritten` models the run as written, and
  `Pipeline.RunAsWrittenDiffers` relates the two.
- Strings.Lower: only ASCII letters are lowered. No Unicode case mapping.
- Numerals.ParseIntDigits: `int()` is modelled for ASCII digits with an
  optional sign. Underscores and non-ASCII digits are not.
- Edl.MakeEdl: `Timecode` is a given function of the frame rate and the
  milliseconds, and `get_fps` returns a given real. Writing the file is
  left out.

## Findings

| source | as written | input that shows it | evidently intended | confidence | as-written member | corrected member |
|---|---|---|---|---|---|---|
| videogrep/videogrep.py:539-550 | the `.edl` test is a separate `if`, so the `if .otio … elif … else` chain after it also runs; an `.edl` output without `--export-clips` gets its edit list, then a render is attempted into the same path | output `supercut.edl`, no `--test`, no `--export-clips`, any non-empty composition | `.edl`, `.otio`, `--export-clips` and the render as one `if … elif` chain, so an `.edl` output gets only the edit list | not executed; high that the second output is unintended | `Pipeline.SupercutEdlRendersTwice` (over `Pipeline.OutputsAsWritten`) | `Pipeline.DispatchDiffers` (over `Pipeline.Outputs`, which `Pipeline.Videogrep` follows) |
