/** `create_supercut_in_batches` (videogrep/videogrep.py:276-295): long
    compositions are rendered twenty clips at a time into temporary files,
    and the files that were written are joined. Whether rendering a batch
    succeeds is given as a function of the pieces and the file name. */
module Batches {
  import opened Numerals
  import opened Compose
  import opened Clips

  /** `BATCH_SIZE` (videogrep/videogrep.py:19); the formulas below write it
      out as the literal 20. */
  const BatchSize: nat := 20

  /** Whether `create_supercut` returns normally for these pieces and this
      output file, rather than raising. */
  type Renderer = (seq<Cut>, string) -> bool

  /** `composition[20 * k : 20 * k + 20]`, clamped to the composition as
      Python clamps slices. */
  function Batch(s: seq<Segment>, k: nat): seq<Segment> {
    var lo := if 20 * k < |s| then 20 * k else |s|;
    var hi := if 20 * k + 20 < |s| then 20 * k + 20 else |s|;
    s[lo..hi]
  }

  /** The number of batches: the loop runs while `20 * k` is below the
      length. */
  function BatchCount(n: nat): nat {
    (n + 19) / 20
  }

  lemma BatchCountIs(n: nat, k: nat)
    requires 20 * k >= n && 20 * k < n + 20
    ensures k == BatchCount(n)
  {
  }

  /** The temporary file of the batch that starts at `start`. */
  function TempName(out: string, start: nat): string {
    out + ".tmp" + Decimal(start) + ".mp4"
  }

  /** Distinct batches get distinct temporary files. */
  lemma TempNameInjective(out: string, a: nat, b: nat)
    requires TempName(out, a) == TempName(out, b)
    ensures a == b
  {
    var x := TempName(out, a);
    var da := Decimal(a);
    var db := Decimal(b);
    assert |da| == |db|;
    assert x[|out| + 4..|x| - 4] == da;
    assert TempName(out, b)[|out| + 4..|x| - 4] == db;
  }

  /** The batches of the first `k` steps, one after the other. */
  function Batches(s: seq<Segment>, k: nat): seq<Segment>
    decreases k
  {
    if k == 0 then [] else Batches(s, k - 1) + Batch(s, k - 1)
  }

  /** The first `k` batches are the first `20 * k` clips; so all batches
      together are the composition, in order, each clip once. */
  lemma {:induction false} BatchesPrefix(s: seq<Segment>, k: nat)
    ensures Batches(s, k) == s[..if 20 * k < |s| then 20 * k else |s|]
    decreases k
  {
    if k > 0 {
      BatchesPrefix(s, k - 1);
      var lo := if 20 * (k - 1) < |s| then 20 * (k - 1) else |s|;
      var hi := if 20 * k < |s| then 20 * k else |s|;
      assert s[..lo] + s[lo..hi] == s[..hi];
    }
  }

  lemma BatchesCover(s: seq<Segment>)
    ensures Batches(s, BatchCount(|s|)) == s
  {
    BatchesPrefix(s, BatchCount(|s|));
  }

  /** Every batch the loop visits holds between one and twenty clips, and
      starts at clip `20 * k`. */
  lemma BatchSizes(s: seq<Segment>, k: nat)
    requires k < BatchCount(|s|)
    ensures 1 <= |Batch(s, k)| <= 20
    ensures Batch(s, k)[0] == s[20 * k]
  {
  }

  /** The names kept after the first `k` batches: the successful ones, in
      batch order. */
  function Kept(s: seq<Segment>, out: string, padding: int, render: Renderer, k: nat): seq<string>
    decreases k
  {
    if k == 0 then []
    else
      var name := TempName(out, 20 * (k - 1));
      Kept(s, out, padding, render, k - 1) +
        (if render(SupercutCuts(Batch(s, k - 1), padding), name) then [name] else [])
  }

  /** The pieces of the successful batches among the first `k`, in order. */
  function Rendered(s: seq<Segment>, out: string, padding: int, render: Renderer, k: nat): seq<Cut>
    decreases k
  {
    if k == 0 then []
    else
      var cuts := SupercutCuts(Batch(s, k - 1), padding);
      Rendered(s, out, padding, render, k - 1) +
        (if render(cuts, TempName(out, 20 * (k - 1))) then cuts else [])
  }

  /** A kept name is the temporary file of a batch that rendered, and every
      batch that rendered is kept; no name is kept twice. */
  lemma {:induction false} KeptNames(s: seq<Segment>, out: string, padding: int, render: Renderer, k: nat)
    ensures forall name :: name in Kept(s, out, padding, render, k) <==>
      exists j :: 0 <= j < k && name == TempName(out, 20 * j) &&
        render(SupercutCuts(Batch(s, j), padding), name)
    ensures forall i, j :: 0 <= i < j < |Kept(s, out, padding, render, k)| ==>
      Kept(s, out, padding, render, k)[i] != Kept(s, out, padding, render, k)[j]
    decreases k
  {
    if k > 0 {
      KeptNames(s, out, padding, render, k - 1);
      var name := TempName(out, 20 * (k - 1));
      forall j | 0 <= j < k - 1 && name == TempName(out, 20 * j)
        ensures false
      {
        TempNameInjective(out, 20 * (k - 1), 20 * j);
      }
      var before := Kept(s, out, padding, render, k - 1);
      assert name !in before;
      var after := Kept(s, out, padding, render, k);
      assert after == before || after == before + [name];
      forall i, j | 0 <= i < j < |after|
        ensures after[i] != after[j]
      {
        if j == |before| {
          assert after[i] in before;
        }
      }
    }
  }

  /** When every batch renders, the joined video holds a piece for every
      clip of the composition. */
  lemma {:induction false} AllRendered(s: seq<Segment>, out: string, padding: int, render: Renderer, k: nat)
    requires forall j :: 0 <= j < k ==> render(SupercutCuts(Batch(s, j), padding), TempName(out, 20 * j))
    ensures |Rendered(s, out, padding, render, k)| == |Batches(s, k)|
    decreases k
  {
    if k > 0 {
      AllRendered(s, out, padding, render, k - 1);
    }
  }

  /** Each batch is corrected on its own: the first clip of a later batch
      keeps its start even when it starts inside the last clip of the batch
      before, where the unbatched `create_supercut` would move it. */
  lemma BatchBoundaryUncorrected(s: seq<Segment>, padding: int, k: nat)
    requires 0 < k < BatchCount(|s|)
    requires Overlaps(s, 20 * k) && padding != 0
    ensures SupercutCuts(Batch(s, k), padding)[0].start == s[20 * k].start
    ensures SupercutCuts(s, padding)[20 * k].start == s[20 * k].start + padding
  {
    SupercutCutsFollow(Batch(s, k), padding);
    SupercutCutsFollow(s, padding);
  }

  /** The loop of `create_supercut_in_batches`: a batch that raises is
      skipped, and both cursors advance by twenty either way. */
  method SupercutInBatches(s: seq<Segment>, out: string, padding: int, render: Renderer)
    returns (kept: seq<string>, video: seq<Cut>)
    ensures kept == Kept(s, out, padding, render, BatchCount(|s|))
    ensures video == Rendered(s, out, padding, render, BatchCount(|s|))
  {
    var total := |s|;
    var startIndex := 0;
    var endIndex := BatchSize;
    kept := [];
    video := [];
    ghost var k := 0;
    while startIndex < total
      invariant startIndex == 20 * k && endIndex == startIndex + 20
      invariant 20 * k < total + 20
      invariant kept == Kept(s, out, padding, render, k)
      invariant video == Rendered(s, out, padding, render, k)
      decreases total - startIndex
    {
      var filename := out + ".tmp" + Decimal(startIndex) + ".mp4";
      var batch := s[startIndex..if endIndex < total then endIndex else total];
      assert batch == Batch(s, k);
      var clips := new Segment[|batch|](i requires 0 <= i < |batch| => batch[i]);
      assert clips[..] == batch;
      var rows, cuts := CreateSupercut(clips, padding);
      if render(cuts, filename) {
        kept := kept + [filename];
        video := video + cuts;
      }
      startIndex := startIndex + BatchSize;
      endIndex := endIndex + BatchSize;
      k := k + 1;
    }
    BatchCountIs(total, k);
  }
}
