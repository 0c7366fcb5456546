/** `search_line` (videogrep/videogrep.py:321-328): whether a subtitle line
    or a word matches the search term, for each kind of search the command
    line offers. */
module Search {

  /** The choices of `--search-type`. */
  datatype SearchType = Re | Word | Pos | Hyper | Fragment | Franken

  /** The engines `search_line` hands the work to, as predicates: `re.search`
      (pattern first, then the line) and the part-of-speech and hypernym
      searches of the `searcher` module (line first, then the term). A
      truthy return value becomes `true`. */
  datatype Matchers = Matchers(
    regex: (string, string) -> bool,
    pos: (string, string) -> bool,
    hyper: (string, string) -> bool)

  /** Regular-expression and word searches both use `re.search`; `pos` and
      `hyper` go to their own engines; any other search type falls off the
      end of the function and returns `None`, so it never matches. */
  function SearchLine(m: Matchers, line: string, search: string, t: SearchType): (found: bool)
    ensures found ==> t.Re? || t.Word? || t.Pos? || t.Hyper?
    ensures (t.Re? || t.Word?) ==> (found <==> m.regex(search, line))
    ensures t.Pos? ==> (found <==> m.pos(line, search))
    ensures t.Hyper? ==> (found <==> m.hyper(line, search))
  {
    match t
    case Re => m.regex(search, line)
    case Word => m.regex(search, line)
    case Pos => m.pos(line, search)
    case Hyper => m.hyper(line, search)
    case Fragment => false
    case Franken => false
  }

  /** The search types for which `compose_from_vtt` looks at single words
      rather than whole sentences. */
  predicate PerWord(t: SearchType) {
    t.Word? || t.Hyper? || t.Pos?
  }
}
