/** The interface the core uses of the `regex` crate, left uninterpreted: an engine is
    a bundle of total functions supplied from outside. A compiled regex is identified
    with the pattern text it was compiled from. */
module RegexLib {
  import opened Base

  /** A match of a pattern in a haystack: the half-open range `start..end`. */
  datatype Span = Span(start: nat, end: nat)

  datatype RegexEngine = RegexEngine(
    /** `Regex::new(pattern).is_ok()` */
    accepts: string -> bool,
    /** `re.is_match(haystack)`, given the pattern and the haystack */
    isMatch: (string, string) -> bool,
    /** the spans of `re.find_iter(haystack)`: leftmost-first, non-overlapping, in order */
    findIter: (string, string) -> seq<Span>,
    /** what a replacement template expands to for one match (capture groups such as `$1`),
        given the pattern, the template, the haystack and the span of the match */
    expand: (string, string, string, Span) -> string)

  datatype Regex = Regex(source: string)

  /** `Regex::new`: succeeds exactly when the engine accepts the pattern. */
  function Compile(engine: RegexEngine, pattern: string): (r: Option<Regex>)
    ensures r.Some? <==> engine.accepts(pattern)
    ensures r.Some? ==> r.value.source == pattern
  {
    if engine.accepts(pattern) then Some(Regex(pattern)) else None
  }

  /** A list of spans is what `find_iter` can return on a haystack of length `n`:
      each inside the haystack and each starting at or after the end of the previous one. */
  ghost predicate SpansOk(spans: seq<Span>, n: nat)
  {
    (forall k :: 0 <= k < |spans| ==> spans[k].start <= spans[k].end <= n) &&
    (forall k :: 0 < k < |spans| ==> spans[k - 1].end <= spans[k].start)
  }

  /** Non-overlapping occurrences of a literal, scanning left to right from `from`.
      The empty pattern is given no occurrences. */
  function LiteralSpans(pattern: string, haystack: string, from: nat): (r: seq<Span>)
    ensures forall k :: 0 <= k < |r| ==>
      from <= r[k].start && r[k].end == r[k].start + |pattern| <= |haystack| &&
      haystack[r[k].start..r[k].end] == pattern
    ensures forall k :: 0 < k < |r| ==> r[k - 1].end <= r[k].start
    decreases |haystack| - from
  {
    if |pattern| == 0 || from + |pattern| > |haystack| then []
    else if haystack[from..from + |pattern|] == pattern then
      [Span(from, from + |pattern|)] + LiteralSpans(pattern, haystack, from + |pattern|)
    else LiteralSpans(pattern, haystack, from + 1)
  }

  /** An instance of the engine for patterns without metacharacters and templates
      without capture references: every pattern compiles, a match is an occurrence. */
  function LiteralEngine(): (e: RegexEngine)
    ensures forall p, h :: SpansOk(e.findIter(p, h), |h|)
  {
    RegexEngine(
      p => true,
      (p, h) => LiteralSpans(p, h, 0) != [],
      (p, h) => LiteralSpans(p, h, 0),
      (p, t, h, s) => t)
  }

  /** A position where the pattern's first character does not occur starts no occurrence. */
  lemma {:induction false} LiteralSpansSkip(pattern: string, haystack: string, from: nat)
    requires |pattern| > 0 && from < |haystack| && haystack[from] != pattern[0]
    ensures LiteralSpans(pattern, haystack, from) == LiteralSpans(pattern, haystack, from + 1)
  {
    if from + |pattern| <= |haystack| {
      assert haystack[from..from + |pattern|][0] != pattern[0];
    }
  }
}
