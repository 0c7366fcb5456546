/** `clean_srt` (videogrep/videogrep.py:209-229): the text of an srt file has
    its cue-number lines removed, is cut into lines, and the lines are grouped
    into an insertion-ordered map from each timing line ("a --> b") to the
    text that follows it. Reading the file is left to the caller: the model
    starts from the file's text as a text-mode read returns it, in which
    every "\r\n" and every lone "\r" of the file has become "\n". */
module SrtCues {
  import opened Strings
  import opened Numerals

  // ---------------------------------------------------------------------
  // re.sub(r'^\d+[\n\r]', '', text, flags=re.MULTILINE)

  /** Length of the run of digits at the start of `s`. `\d` is read as the
      ASCII digits 0-9; in Python 3 it also matches the other Unicode
      decimal digits, which this model does not. */
  function DigitRun(s: string): (r: nat)
    ensures r <= |s|
    decreases |s|
  {
    if s != [] && IsDigit(s[0]) then 1 + DigitRun(s[1..]) else 0
  }

  /** The run is made of digits and is not followed by one. */
  lemma {:induction false} DigitRunDigits(s: string)
    ensures forall i :: 0 <= i < DigitRun(s) ==> IsDigit(s[i])
    ensures DigitRun(s) < |s| ==> !IsDigit(s[DigitRun(s)])
    decreases |s|
  {
    if s != [] && IsDigit(s[0]) {
      DigitRunDigits(s[1..]);
      assert forall i :: 1 <= i <= DigitRun(s[1..]) ==> s[i] == s[1..][i - 1];
    }
  }

  /** Length of the match of `\d+[\n\r]` at the start of `s`, 0 when there
      is none (a shorter digit run is never followed by a line break, so the
      greedy run is the only candidate). */
  function IndexMatch(s: string): (n: nat)
    ensures n <= |s|
    ensures n > 0 ==> n >= 2 && (s[n - 1] == '\n' || s[n - 1] == '\r')
  {
    var r := DigitRun(s);
    if 0 < r < |s| && (s[r] == '\n' || s[r] == '\r') then r + 1 else 0
  }

  /** Index of the first '\n' in `s`, |s| when there is none. */
  function FirstNewline(s: string): (i: nat)
    ensures i <= |s| && (i < |s| ==> s[i] == '\n')
    ensures forall j :: 0 <= j < i ==> s[j] != '\n'
    decreases |s|
  {
    if s == [] || s[0] == '\n' then 0 else 1 + FirstNewline(s[1..])
  }

  /** The substitution scan over the rest `s` of the text, at a position
      where `^` matches: the start of the text or right after a '\n'
      (multi-line mode; a lone '\r' starts no line for `^`). A match is
      dropped and the scan goes on after it; otherwise the scan copies
      characters up to the next line start. */
  function ScrubAtStart(s: string): (r: string)
    ensures |r| <= |s|
    decreases |s|, 1
  {
    if s == [] then ""
    else
      var n := IndexMatch(s);
      if n == 0 then ScrubInside(s)
      else if s[n - 1] == '\n' then ScrubAtStart(s[n..])
      else ScrubInside(s[n..])
  }

  /** The scan at a position where `^` does not match: nothing can match
      before the next '\n', so everything up to it is copied. */
  function ScrubInside(s: string): (r: string)
    ensures |r| <= |s|
    decreases |s|, 0
  {
    var i := FirstNewline(s);
    if i == |s| then s else s[..i + 1] + ScrubAtStart(s[i + 1..])
  }

  /** `re.sub(r'^\d+[\n\r]', '', text, flags=re.MULTILINE)` */
  function RemoveIndexLines(text: string): string {
    ScrubAtStart(text)
  }

  /** A cue-number line: one or more (ASCII) digits. */
  predicate IsIndexLine(line: string) {
    line != [] && AllDigits(line)
  }

  /** The lines that are not cue-number lines, in their order. */
  function KeptLines(lines: seq<string>): (kept: seq<string>)
    ensures forall k :: 0 <= k < |kept| ==> !IsIndexLine(kept[k]) && kept[k] in lines
    ensures forall k :: 0 <= k < |lines| && !IsIndexLine(lines[k]) ==> lines[k] in kept
    decreases |lines|
  {
    if lines == [] then []
    else (if IsIndexLine(lines[0]) then [] else [lines[0]]) + KeptLines(lines[1..])
  }

  /** A line `l` at a line start, followed by "\n", is dropped exactly when
      it is a cue-number line. */
  lemma ScrubLine(l: string, rest: string)
    requires NoLineBreak(l)
    ensures ScrubAtStart(l + "\n" + rest) == (if IsIndexLine(l) then "" else l + "\n") + ScrubAtStart(rest)
  {
    var s := l + "\n" + rest;
    var k := |l|;
    assert s[k] == '\n';
    assert s[..k] == l && s[..k + 1] == l + "\n" && s[k + 1..] == rest;
    assert forall i :: 0 <= i < k ==> s[i] == l[i] && !IsLineBreak(l[i]);
    var r := DigitRun(s);
    DigitRunDigits(s);
    if r > k {
      assert false;
    }
    if IsIndexLine(l) {
      if r < k {
        assert false;
      }
      assert IndexMatch(s) == k + 1;
    } else {
      if r == k && r > 0 {
        assert false;
      }
      assert IndexMatch(s) == 0;
      assert FirstNewline(s) == k;
    }
  }

  /** On '\n'-terminated lines the substitution removes exactly the
      cue-number lines. */
  lemma {:induction false} RemoveIndexLinesTerminated(lines: seq<string>)
    requires forall k :: 0 <= k < |lines| ==> NoLineBreak(lines[k])
    ensures RemoveIndexLines(Terminated(lines)) == Terminated(KeptLines(lines))
    decreases |lines|
  {
    if lines != [] {
      ScrubLine(lines[0], Terminated(lines[1..]));
      RemoveIndexLinesTerminated(lines[1..]);
      TerminatedKept(lines);
    }
  }

  lemma TerminatedKept(lines: seq<string>)
    requires lines != []
    ensures Terminated(KeptLines(lines))
         == (if IsIndexLine(lines[0]) then "" else lines[0] + "\n") + Terminated(KeptLines(lines[1..]))
  {
    var rest := KeptLines(lines[1..]);
    if !IsIndexLine(lines[0]) {
      assert ([lines[0]] + rest)[1..] == rest;
    } else {
      assert KeptLines(lines) == rest;
    }
  }

  /** So no cue-number line of a '\n'-terminated file reaches the grouping,
      and every other line does, in order. */
  lemma IndexLinesRemoved(lines: seq<string>)
    requires forall k :: 0 <= k < |lines| ==> NoLineBreak(lines[k])
    ensures SplitLines(RemoveIndexLines(Terminated(lines))) == KeptLines(lines)
    ensures forall k :: 0 <= k < |KeptLines(lines)| ==> !IsIndexLine(KeptLines(lines)[k])
  {
    RemoveIndexLinesTerminated(lines);
    SplitLinesTerminated(KeptLines(lines));
  }

  /** `splitlines` honours more line boundaries than `^` does: a cue number
      after a form feed is not at a line start for `^`, so it survives the
      substitution, and `splitlines` then makes it a line of its own. */
  lemma FormFeedLine()
    ensures RemoveIndexLines("x\U{000C}2\ny") == "x\U{000C}2\ny"
    ensures SplitLines(RemoveIndexLines("x\U{000C}2\ny")) == ["x", "2", "y"]
  {
    var s := "x\U{000C}2\ny";
    assert DigitRun(s) == 0;
    assert FirstNewline(s) == 3 by {
      assert s[1..] == "\U{000C}2\ny" && s[1..][1..] == "2\ny" && s[1..][1..][1..] == "\ny";
    }
    assert s[..4] == "x\U{000C}2\n" && s[4..] == "y";
    assert ScrubAtStart("y") == "y" by {
      assert FirstNewline("y") == 1 by {
        assert "y"[1..] == [];
      }
    }
    assert FirstBreak(s) == 1 by {
      assert FirstBreak(s[1..]) == 0;
    }
    assert s[..1] == "x" && s[2..] == "2\ny";
    var t := "2\ny";
    assert FirstBreak(t) == 1 by {
      assert FirstBreak(t[1..]) == 0;
    }
    assert t[..1] == "2" && t[2..] == "y";
    SplitLinesSingle("y");
  }

  // ---------------------------------------------------------------------
  // grouping the lines

  /** The OrderedDict: its keys in insertion order and its values. */
  datatype Cues = Cues(order: seq<string>, text: map<string, string>)

  /** The loop state: the dict and the current `key` ("" before the first
      timing line). */
  datatype Grouping = Grouping(cues: Cues, key: string)

  /** A stripped line holding a timing: "-->" occurs in it. */
  predicate IsTiming(line: string)
    decreases |line|
  {
    |line| >= 3 && ((line[0] == '-' && line[1] == '-' && line[2] == '>') || IsTiming(line[1..]))
  }

  /** `IsTiming` is the test `line.find('-->') > -1`. */
  lemma {:induction false} TimingFind(line: string)
    ensures IsTiming(line) <==> Find(line, "-->").Some?
    decreases |line|
  {
    if |line| >= 3 {
      assert line[..3] == "-->" <==> (line[0] == '-' && line[1] == '-' && line[2] == '>') by {
        if line[0] == '-' && line[1] == '-' && line[2] == '>' {
          assert line[..3] == "-->";
        }
      }
      TimingFind(line[1..]);
    }
  }

  /** One turn of the loop of clean_srt, on the stripped line. */
  function Absorb(g: Grouping, line: string): Grouping
    requires g.key != "" ==> g.key in g.cues.text
  {
    if IsTiming(line) then
      var order := if line in g.cues.text then g.cues.order else g.cues.order + [line];
      Grouping(Cues(order, g.cues.text[line := ""]), line)
    else if g.key != "" then
      Grouping(Cues(g.cues.order, g.cues.text[g.key := g.cues.text[g.key] + line + " "]), g.key)
    else g
  }

  /** The state after the loop has absorbed the stripped `lines`; once a
      timing line has been seen, the current key is one of the dict's keys
      (before that it is ""). */
  function Collect(lines: seq<string>): (g: Grouping)
    ensures g.key != "" ==> g.key in g.cues.text
    decreases |lines|
  {
    if lines == [] then Grouping(Cues([], map[]), "")
    else Absorb(Collect(lines[..|lines| - 1]), lines[|lines| - 1])
  }

  /** Every line stripped. */
  function StripAll(lines: seq<string>): (r: seq<string>)
    ensures |r| == |lines|
  {
    seq(|lines|, i requires 0 <= i < |lines| => Strip(lines[i]))
  }

  /** The dict clean_srt returns for the text of a file. */
  function CleanedCues(text: string): Cues {
    Collect(StripAll(SplitLines(RemoveIndexLines(text)))).cues
  }

  /** `clean_srt` on the text of a file. */
  method CleanSrt(text: string) returns (output: Cues)
    ensures output == CleanedCues(text)
  {
    var lines := SplitLines(RemoveIndexLines(text));
    ghost var stripped := StripAll(lines);
    var order: seq<string> := [];
    var texts: map<string, string> := map[];
    var key := "";
    var i := 0;
    while i < |lines|
      invariant 0 <= i <= |lines|
      invariant Collect(stripped[..i]).cues.order == order
      invariant Collect(stripped[..i]).cues.text == texts
      invariant Collect(stripped[..i]).key == key
    {
      var line := Strip(lines[i]);
      assert stripped[..i + 1][..i] == stripped[..i];
      assert stripped[..i + 1][i] == line;
      TimingFind(line);
      if Find(line, "-->").Some? {
        key := line;
        if key !in texts {
          order := order + [key];
        }
        texts := texts[key := ""];
      } else if key != "" {
        texts := texts[key := texts[key] + line + " "];
      }
      i := i + 1;
    }
    assert stripped[..i] == stripped;
    output := Cues(order, texts);
  }

  // ---------------------------------------------------------------------
  // what the grouping computes

  /** The timing lines, in order. */
  function TimingKeys(lines: seq<string>): (keys: seq<string>)
    ensures forall k :: k in keys <==> exists i :: 0 <= i < |lines| && IsTiming(lines[i]) && lines[i] == k
    decreases |lines|
  {
    if lines == [] then []
    else
      var p := lines[..|lines| - 1];
      var l := lines[|lines| - 1];
      assert forall i :: 0 <= i < |p| ==> p[i] == lines[i];
      TimingKeys(p) + (if IsTiming(l) then [l] else [])
  }

  /** The recorded order lists exactly the keys of the dict. */
  lemma {:induction false} CollectKeys(lines: seq<string>)
    ensures forall k :: k in Collect(lines).cues.text <==> k in Collect(lines).cues.order
    decreases |lines|
  {
    if lines != [] {
      CollectKeys(lines[..|lines| - 1]);
    }
  }

  /** Keys keep the order of their first timing line, however often a timing
      line repeats; so they are distinct. */
  lemma {:induction false} CollectOrder(lines: seq<string>)
    ensures Collect(lines).cues.order == FirstOccurrences(TimingKeys(lines))
    decreases |lines|
  {
    if lines != [] {
      var p := lines[..|lines| - 1];
      var l := lines[|lines| - 1];
      CollectOrder(p);
      CollectKeys(p);
      var keys := TimingKeys(lines);
      if IsTiming(l) {
        assert keys[..|keys| - 1] == TimingKeys(p);
      } else {
        assert keys == TimingKeys(p);
      }
    }
  }

  /** No timing line from `from` on. */
  predicate RunsToEnd(lines: seq<string>, from: int) {
    forall j :: 0 <= j < |lines| && from <= j ==> !IsTiming(lines[j])
  }

  /** Index of the last timing line, -1 when there is none. */
  function LastTiming(lines: seq<string>): (r: int)
    ensures -1 <= r < |lines|
    ensures r >= 0 ==> IsTiming(lines[r])
    ensures RunsToEnd(lines, r + 1)
    decreases |lines|
  {
    if lines == [] then -1
    else if IsTiming(lines[|lines| - 1]) then |lines| - 1
    else LastTiming(lines[..|lines| - 1])
  }

  /** Index of the last timing line equal to `k`, -1 when there is none. */
  function LastTimingOf(lines: seq<string>, k: string): (r: int)
    ensures -1 <= r < |lines|
    ensures r >= 0 ==> IsTiming(lines[r]) && lines[r] == k
    ensures forall j :: r < j < |lines| ==> !(IsTiming(lines[j]) && lines[j] == k)
    decreases |lines|
  {
    if lines == [] then -1
    else if IsTiming(lines[|lines| - 1]) && lines[|lines| - 1] == k then |lines| - 1
    else LastTimingOf(lines[..|lines| - 1], k)
  }

  /** The text a cue collects from line `from` on: each line followed by a
      space, up to the next timing line. */
  function Section(lines: seq<string>, from: nat): (r: string)
    ensures r != [] ==> r[|r| - 1] == ' '
    decreases |lines| - from
  {
    if from >= |lines| || IsTiming(lines[from]) then ""
    else lines[from] + " " + Section(lines, from + 1)
  }

  /** What one more line adds to a section that still runs to the end. */
  function Piece(l: string): string {
    if IsTiming(l) then "" else l + " "
  }

  lemma {:induction false} SectionSnoc(lines: seq<string>, l: string, from: nat)
    requires from <= |lines|
    ensures Section(lines + [l], from) == if RunsToEnd(lines, from) then Section(lines, from) + Piece(l) else Section(lines, from)
    decreases |lines| - from
  {
    var q := lines + [l];
    if from == |lines| {
      assert q[from] == l;
      assert Section(q, from + 1) == "";
    } else {
      assert q[from] == lines[from];
      if !IsTiming(lines[from]) {
        SectionSnoc(lines, l, from + 1);
        assert RunsToEnd(lines, from) <==> RunsToEnd(lines, from + 1);
      } else {
        assert !RunsToEnd(lines, from);
      }
    }
  }

  /** The last timing line, "" when there is none. */
  function CurrentKey(lines: seq<string>): string {
    var t := LastTiming(lines);
    if t < 0 then "" else lines[t]
  }

  /** The current key is the last timing line. */
  lemma {:induction false} CollectKey(lines: seq<string>)
    ensures Collect(lines).key == CurrentKey(lines)
    decreases |lines|
  {
    if lines != [] {
      var p := lines[..|lines| - 1];
      var l := lines[|lines| - 1];
      assert lines == p + [l];
      CollectKey(p);
      if IsTiming(l) {
        TimingSnoc(p, l);
      } else {
        TextSnoc(p, l);
      }
    }
  }

  /** The text of key `k` is made of the lines after the LAST timing line
      equal to `k`, up to the next timing line. So text before the first
      timing line is dropped, and a repeated timing line starts its key's
      text afresh. */
  lemma {:induction false} CollectTextOf(lines: seq<string>, k: string)
    requires k in Collect(lines).cues.text
    ensures LastTimingOf(lines, k) >= 0
    ensures Collect(lines).cues.text[k] == Section(lines, LastTimingOf(lines, k) + 1)
    decreases |lines|
  {
    var p := lines[..|lines| - 1];
    var l := lines[|lines| - 1];
    assert lines == p + [l];
    var g := Collect(p);
    if IsTiming(l) {
      TimingSnoc(p, l);
      if k != l {
        CollectTextOf(p, k);
        KeySnocTiming(p, l, k);
      }
    } else {
      CollectTextOf(p, k);
      CollectKey(p);
      TextSnocKey(p, l, k);
      if k == g.key {
        assert Collect(lines).cues.text[k] == g.cues.text[k] + l + " ";
      } else {
        assert IsTiming(p[LastTimingOf(p, k)]);
        OtherKeySnoc(p, l, k);
      }
    }
  }

  /** The same for every key. */
  lemma CollectText(lines: seq<string>)
    ensures forall k :: k in Collect(lines).cues.text ==>
      LastTimingOf(lines, k) >= 0 && Collect(lines).cues.text[k] == Section(lines, LastTimingOf(lines, k) + 1)
  {
    forall k | k in Collect(lines).cues.text
      ensures LastTimingOf(lines, k) >= 0 && Collect(lines).cues.text[k] == Section(lines, LastTimingOf(lines, k) + 1)
    {
      CollectTextOf(lines, k);
    }
  }

  /** A timing line becomes the last timing line, of itself too, and opens
      an empty section. */
  lemma TimingSnoc(p: seq<string>, l: string)
    requires IsTiming(l)
    ensures LastTiming(p + [l]) == |p| && CurrentKey(p + [l]) == l
    ensures LastTimingOf(p + [l], l) == |p| && Section(p + [l], |p| + 1) == ""
  {
    assert (p + [l])[|p|] == l;
  }

  /** A text line changes no last-timing index. */
  lemma TextSnoc(p: seq<string>, l: string)
    requires !IsTiming(l)
    ensures LastTiming(p + [l]) == LastTiming(p) && CurrentKey(p + [l]) == CurrentKey(p)
  {
    assert (p + [l])[..|p|] == p;
  }

  lemma TextSnocKey(p: seq<string>, l: string, k: string)
    requires !IsTiming(l)
    ensures LastTimingOf(p + [l], k) == LastTimingOf(p, k)
    ensures k == CurrentKey(p) && k != "" ==>
      LastTimingOf(p, k) == LastTiming(p) &&
      Section(p + [l], LastTiming(p) + 1) == Section(p, LastTiming(p) + 1) + l + " "
  {
    assert (p + [l])[..|p|] == p;
    var t := LastTiming(p);
    if k == CurrentKey(p) && k != "" {
      assert t >= 0 && p[t] == k;
      SectionSnoc(p, l, t + 1);
    }
  }

  /** A timing line closes every open section. */
  lemma KeySnocTiming(p: seq<string>, l: string, k: string)
    requires IsTiming(l) && k != l && LastTimingOf(p, k) >= 0
    ensures LastTimingOf(p + [l], k) == LastTimingOf(p, k)
    ensures Section(p + [l], LastTimingOf(p, k) + 1) == Section(p, LastTimingOf(p, k) + 1)
  {
    assert (p + [l])[..|p|] == p;
    var i := LastTimingOf(p, k);
    SectionSnoc(p, l, i + 1);
    assert Piece(l) == "";
  }

  /** The section of a key that is not the current one is closed: a new line
      does not change it. */
  lemma OtherKeySnoc(p: seq<string>, l: string, k: string)
    requires k != CurrentKey(p) && LastTimingOf(p, k) >= 0
    ensures Section(p + [l], LastTimingOf(p, k) + 1) == Section(p, LastTimingOf(p, k) + 1)
  {
    assert (p + [l])[..|p|] == p;
    var i := LastTimingOf(p, k);
    var t := LastTiming(p);
    assert IsTiming(p[i]) && p[i] == k;
    assert i <= t;
    assert p[t] == CurrentKey(p);
    assert IsTiming(p[t]) && i + 1 <= t;
    assert !RunsToEnd(p, i + 1);
    SectionSnoc(p, l, i + 1);
  }

  /** Lines before the first timing line leave no trace. */
  lemma {:induction false} PreambleDropped(pre: seq<string>, lines: seq<string>)
    requires forall i :: 0 <= i < |pre| ==> !IsTiming(pre[i])
    ensures Collect(pre + lines) == Collect(lines)
    decreases |lines|
  {
    if lines == [] {
      assert pre + lines == pre;
      NoTimingNoCues(pre);
    } else {
      var p := lines[..|lines| - 1];
      assert (pre + lines)[..|pre + lines| - 1] == pre + p;
      assert (pre + lines)[|pre + lines| - 1] == lines[|lines| - 1];
      PreambleDropped(pre, p);
    }
  }

  lemma {:induction false} NoTimingNoCues(pre: seq<string>)
    requires forall i :: 0 <= i < |pre| ==> !IsTiming(pre[i])
    ensures Collect(pre) == Grouping(Cues([], map[]), "")
    decreases |pre|
  {
    if pre != [] {
      NoTimingNoCues(pre[..|pre| - 1]);
    }
  }

  /** A timing line seen again keeps its key's place and empties its text. */
  lemma RepeatedKeyResets(lines: seq<string>, l: string)
    requires IsTiming(l) && l in Collect(lines).cues.text
    ensures Collect(lines + [l]).cues.order == Collect(lines).cues.order
    ensures Collect(lines + [l]).cues.text[l] == ""
  {
    assert (lines + [l])[..|lines|] == lines;
  }
}
