/** The word windows of `get_ngrams` (videogrep/videogrep.py:70):
    `zip(*[words[i:] for i in range(n)])` over the words of the subtitles.
    How the words are obtained (a regular-expression split of the cue text,
    or the words of a transcript) is not modelled; the words are given. */
module Ngrams {

  /** The shortest length among `lists`. */
  function MinLength(lists: seq<seq<string>>): (m: nat)
    requires lists != []
    ensures forall i :: 0 <= i < |lists| ==> m <= |lists[i]|
    ensures exists i :: 0 <= i < |lists| && m == |lists[i]|
    decreases |lists|
  {
    if |lists| == 1 then |lists[0]|
    else
      var rest := MinLength(lists[1..]);
      assert forall i :: 1 <= i < |lists| ==> lists[i] == lists[1..][i - 1];
      if |lists[0]| <= rest then |lists[0]| else rest
  }

  /** Python's `zip` over a list of lists: tuple `j` takes element `j` of
      every list, and there are as many tuples as the shortest list is long;
      with no lists at all there are none. */
  function Zip(lists: seq<seq<string>>): seq<seq<string>> {
    if lists == [] then []
    else
      seq(MinLength(lists), j requires 0 <= j < MinLength(lists) =>
        seq(|lists|, i requires 0 <= i < |lists| => lists[i][j]))
  }

  /** `[words[i:] for i in range(n)]`. */
  function Suffixes(words: seq<string>, n: int): (r: seq<seq<string>>)
    ensures |r| == if n <= 0 then 0 else n
  {
    if n <= 0 then []
    else seq(n, i requires 0 <= i < n => if i <= |words| then words[i..] else [])
  }

  /** `get_ngrams`: the tuples zipped from the shifted copies. */
  function NGrams(words: seq<string>, n: int): seq<seq<string>> {
    Zip(Suffixes(words, n))
  }

  lemma NGramCount(words: seq<string>, n: int)
    ensures |NGrams(words, n)| == if n <= 0 || |words| < n then 0 else |words| - n + 1
  {
    if n > 0 {
      var lists := Suffixes(words, n);
      assert forall i :: 0 <= i < n ==> |lists[i]| == if i <= |words| then |words| - i else 0;
      if |words| < n {
        assert |lists[n - 1]| == 0;
      } else {
        assert |lists[n - 1]| == |words| - n + 1;
      }
    }
  }

  lemma NGramAt(words: seq<string>, n: int, j: nat)
    requires n > 0 && j + n <= |words|
    ensures j < |NGrams(words, n)|
    ensures NGrams(words, n)[j] == words[j..j + n]
  {
    NGramCount(words, n);
    var lists := Suffixes(words, n);
    var g := NGrams(words, n)[j];
    assert g == seq(|lists|, i requires 0 <= i < |lists| => lists[i][j]);
    forall i | 0 <= i < n
      ensures g[i] == words[j..j + n][i]
    {
      assert lists[i] == words[i..];
    }
  }

  /** The n-grams are the windows of `n` consecutive words, one starting at
      each position that leaves room for `n` words; for `n <= 0` there are
      none. */
  lemma NGramWindows(words: seq<string>, n: int)
    ensures |NGrams(words, n)| == if n <= 0 || |words| < n then 0 else |words| - n + 1
    ensures forall j :: 0 <= j < |NGrams(words, n)| ==> NGrams(words, n)[j] == words[j..j + n]
  {
    NGramCount(words, n);
    forall j | 0 <= j < |NGrams(words, n)|
      ensures NGrams(words, n)[j] == words[j..j + n]
    {
      NGramAt(words, n, j);
    }
  }

  /** Every word run of length `n` appears among the n-grams. */
  lemma EveryWindow(words: seq<string>, n: int, j: nat)
    requires n > 0 && j + n <= |words|
    ensures words[j..j + n] in NGrams(words, n)
  {
    NGramAt(words, n, j);
  }
}
