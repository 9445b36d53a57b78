/** The sed-style substitution language of `arg_rewrite` and `command_rewrite`:
    `s<d>pattern<d>replacement<d>flags`, with `\<d>` standing for a literal delimiter. */
module Rewriter {
  import opened Base
  import opened Errors
  import opened Strings
  import opened RegexLib

  // ---------------------------------------------------------------------------
  // Splitting on the delimiter

  /** Prefix `s` to the first of a non-empty list of parts. */
  function Attach(s: string, parts: seq<string>): (r: seq<string>)
    requires |parts| >= 1
    ensures |r| == |parts| && r[0] == s + parts[0] && r[1..] == parts[1..]
  {
    [s + parts[0]] + parts[1..]
  }

  /** `split_by_delimiter`, one character (or one escape) at a time from the front:
      `\` followed by the delimiter contributes the delimiter; any other `\` is itself;
      a delimiter ends the current part. */
  function Split(s: string, d: char): (r: seq<string>)
    ensures |r| >= 1
    decreases |s|
  {
    if |s| == 0 then [""]
    else if s[0] == '\\' && |s| >= 2 && s[1] == d then Attach([d], Split(s[2..], d))
    else if s[0] == '\\' then Attach(['\\'], Split(s[1..], d))
    else if s[0] == d then [""] + Split(s[1..], d)
    else Attach([s[0]], Split(s[1..], d))
  }

  lemma {:induction false} AttachTwice(a: string, b: string, parts: seq<string>)
    requires |parts| >= 1
    ensures Attach(a, Attach(b, parts)) == Attach(a + b, parts)
  {
    assert a + (b + parts[0]) == (a + b) + parts[0];
  }

  lemma {:induction false} AttachNothing(parts: seq<string>)
    requires |parts| >= 1
    ensures Attach("", parts) == parts
  {
    assert "" + parts[0] == parts[0];
  }

  /** `\` and the delimiter stand for the delimiter. */
  lemma {:induction false} SplitEscapeStep(x: string, d: char)
    ensures Split(['\\', d] + x, d) == Attach([d], Split(x, d))
  {
    assert (['\\', d] + x)[2..] == x;
  }

  /** A delimiter (other than `\`) ends a part. */
  lemma {:induction false} SplitDelimiterStep(x: string, d: char)
    requires d != '\\'
    ensures Split([d] + x, d) == [""] + Split(x, d)
  {
    assert ([d] + x)[1..] == x;
  }

  /** A `\` not followed by the delimiter is kept. */
  lemma {:induction false} SplitBackslashStep(x: string, d: char)
    requires |x| == 0 || x[0] != d
    ensures Split(['\\'] + x, d) == Attach(['\\'], Split(x, d))
  {
    assert (['\\'] + x)[1..] == x;
  }

  /** Any other character is kept. */
  lemma {:induction false} SplitPlainStep(c: char, x: string, d: char)
    requires c != d && c != '\\'
    ensures Split([c] + x, d) == Attach([c], Split(x, d))
  {
    assert ([c] + x)[1..] == x;
  }

  /** What the scanner of `split_by_delimiter` has done after reading `input[..i]`: the
      finished `parts`, then `current` glued to the front of what the rest splits into.
      With an escape pending, the `\` just read and the delimiter after it are the rest. */
  ghost predicate Scanned(input: string, d: char, i: nat, parts: seq<string>, current: string, escapeNext: bool)
  {
    i <= |input| &&
    if escapeNext then
      1 <= i < |input| && input[i - 1] == '\\' && input[i] == d &&
      parts + Attach(current, Split(input[i - 1..], d)) == Split(input, d)
    else
      parts + Attach(current, Split(input[i..], d)) == Split(input, d)
  }

  lemma {:induction false} ScanStart(input: string, d: char)
    ensures Scanned(input, d, 0, [], "", false)
  {
    assert input[0..] == input;
    AttachNothing(Split(input, d));
  }

  /** The character after an escaping `\` (the delimiter) goes into the current part. */
  lemma {:induction false} ScanEscaped(input: string, d: char, i: nat, parts: seq<string>, current: string)
    requires Scanned(input, d, i, parts, current, true)
    ensures Scanned(input, d, i + 1, parts, current + [input[i]], false)
  {
    var rest := input[i + 1..];
    assert input[i - 1..] == ['\\', d] + rest;
    SplitEscapeStep(rest, d);
    AttachTwice(current, [d], Split(rest, d));
  }

  /** A `\` before the delimiter starts an escape and is dropped. */
  lemma {:induction false} ScanEscape(input: string, d: char, i: nat, parts: seq<string>, current: string)
    requires Scanned(input, d, i, parts, current, false)
    requires i + 1 < |input| && input[i] == '\\' && input[i + 1] == d
    ensures Scanned(input, d, i + 1, parts, current, true)
  {
  }

  /** A `\` not before the delimiter, or a character other than `\` and the delimiter,
      goes into the current part. */
  lemma {:induction false} ScanKeep(input: string, d: char, i: nat, parts: seq<string>, current: string)
    requires Scanned(input, d, i, parts, current, false) && i < |input|
    requires if input[i] == '\\' then i + 1 == |input| || input[i + 1] != d else input[i] != d
    ensures Scanned(input, d, i + 1, parts, current + [input[i]], false)
  {
    var c, rest := input[i], input[i + 1..];
    assert input[i..] == [c] + rest;
    if c == '\\' {
      SplitBackslashStep(rest, d);
    } else {
      SplitPlainStep(c, rest, d);
    }
    AttachTwice(current, [c], Split(rest, d));
  }

  /** An unescaped delimiter finishes the current part. */
  lemma {:induction false} ScanDelimiter(input: string, d: char, i: nat, parts: seq<string>, current: string)
    requires Scanned(input, d, i, parts, current, false) && i < |input|
    requires input[i] == d && d != '\\'
    ensures Scanned(input, d, i + 1, parts + [current], "", false)
  {
    var rest := input[i + 1..];
    assert input[i..] == [d] + rest;
    SplitDelimiterStep(rest, d);
    AttachNothing(Split(rest, d));
    assert current + "" == current;
    assert Attach(current, [""] + Split(rest, d)) == [current] + Split(rest, d);
  }

  lemma {:induction false} ScanEnd(input: string, d: char, parts: seq<string>, current: string, escapeNext: bool)
    requires Scanned(input, d, |input|, parts, current, escapeNext)
    ensures !escapeNext && parts + [current] == Split(input, d)
  {
    assert input[|input|..] == "";
    assert current + "" == current;
    assert Attach(current, Split("", d)) == [current];
  }

  /** `split_by_delimiter`: the scanner with its pending-escape flag and its one
      character of look-ahead. */
  method SplitByDelimiter(input: string, delimiter: char) returns (parts: seq<string>)
    ensures parts == Split(input, delimiter)
  {
    parts := [];
    var current := "";
    var escapeNext := false;
    var i := 0;
    ScanStart(input, delimiter);
    while i < |input|
      invariant Scanned(input, delimiter, i, parts, current, escapeNext)
    {
      var c := input[i];
      if escapeNext {
        ScanEscaped(input, delimiter, i, parts, current);
        current := current + [c];
        escapeNext := false;
      } else if c == '\\' {
        if i + 1 < |input| && input[i + 1] == delimiter {
          ScanEscape(input, delimiter, i, parts, current);
          escapeNext := true;
        } else {
          ScanKeep(input, delimiter, i, parts, current);
          current := current + [c];
        }
      } else if c == delimiter {
        ScanDelimiter(input, delimiter, i, parts, current);
        parts := parts + [current];
        current := "";
      } else {
        ScanKeep(input, delimiter, i, parts, current);
        current := current + [c];
      }
      i := i + 1;
    }
    ScanEnd(input, delimiter, parts, current, escapeNext);
    parts := parts + [current];
  }

  /** A part as it must be written between delimiters: each delimiter preceded by `\`. */
  function Escape(part: string, d: char): (r: string)
    ensures |r| >= |part|
  {
    if |part| == 0 then ""
    else if part[0] == d then ['\\', d] + Escape(part[1..], d)
    else [part[0]] + Escape(part[1..], d)
  }

  lemma {:induction false} EscapeFirst(part: string, d: char)
    requires |part| > 0 && d != '\\'
    ensures |Escape(part, d)| > 0 && Escape(part, d)[0] != d
  {
  }

  /** An escaped part is read back whole, as long as a trailing `\` of the part is not
      followed by the delimiter. */
  lemma {:induction false} SplitEscaped(p: string, t: string, d: char)
    requires d != '\\'
    requires |p| > 0 && p[|p| - 1] == '\\' ==> |t| == 0 || t[0] != d
    ensures Split(Escape(p, d) + t, d) == Attach(p, Split(t, d))
    decreases |p|
  {
    if |p| == 0 {
      assert Escape(p, d) + t == t;
      assert p == "";
      AttachNothing(Split(t, d));
    } else {
      var c, p' := p[0], p[1..];
      assert |p'| > 0 ==> p'[|p'| - 1] == p[|p| - 1];
      SplitEscaped(p', t, d);
      var x := Escape(p', d) + t;
      assert Escape(p, d) + t == EscapeChar(c, d) + x by {
        EscapeCons(p, d);
      }
      assert c == '\\' ==> |x| == 0 || x[0] != d by {
        if c == '\\' && |p'| > 0 {
          EscapeFirst(p', d);
          assert x[0] == Escape(p', d)[0];
        } else if c == '\\' {
          assert x == t;
        }
      }
      SplitEscapedChar(c, x, d);
      AttachTwice([c], p', Split(t, d));
      assert [c] + p' == p;
    }
  }

  /** How one character is written between delimiters. */
  function EscapeChar(c: char, d: char): string
  {
    if c == d then ['\\', d] else [c]
  }

  lemma {:induction false} EscapeCons(p: string, d: char)
    requires |p| > 0
    ensures Escape(p, d) == EscapeChar(p[0], d) + Escape(p[1..], d)
  {
  }

  lemma {:induction false} SplitEscapedChar(c: char, x: string, d: char)
    requires d != '\\'
    requires c == '\\' ==> |x| == 0 || x[0] != d
    ensures Split(EscapeChar(c, d) + x, d) == Attach([c], Split(x, d))
  {
    if c == d {
      SplitEscapeStep(x, d);
    } else if c == '\\' {
      SplitBackslashStep(x, d);
    } else {
      SplitPlainStep(c, x, d);
    }
  }

  /** The parts joined by the delimiter, each escaped. */
  function JoinEscaped(parts: seq<string>, d: char): string
  {
    if |parts| == 0 then ""
    else if |parts| == 1 then Escape(parts[0], d)
    else Escape(parts[0], d) + [d] + JoinEscaped(parts[1..], d)
  }

  /** Splitting undoes escaping and joining, for any delimiter other than `\`, when no part
      but the last ends in `\`. */
  lemma {:induction false} SplitJoinEscaped(parts: seq<string>, d: char)
    requires |parts| >= 1 && d != '\\'
    requires forall k :: 0 <= k < |parts| - 1 ==> |parts[k]| == 0 || parts[k][|parts[k]| - 1] != '\\'
    ensures Split(JoinEscaped(parts, d), d) == parts
    decreases |parts|
  {
    if |parts| == 1 {
      SplitEscaped(parts[0], "", d);
      assert Escape(parts[0], d) + "" == Escape(parts[0], d);
      assert Split("", d) == [""];
      assert parts[0] + "" == parts[0];
      assert Attach(parts[0], [""]) == [parts[0]] == parts;
    } else {
      var rest := [d] + JoinEscaped(parts[1..], d);
      assert JoinEscaped(parts, d) == Escape(parts[0], d) + rest;
      SplitEscaped(parts[0], rest, d);
      SplitDelimiterStep(JoinEscaped(parts[1..], d), d);
      SplitJoinEscaped(parts[1..], d);
      assert Attach(parts[0], [""] + parts[1..]) == [parts[0] + ""] + parts[1..];
      assert parts[0] + "" == parts[0];
      assert [parts[0]] + parts[1..] == parts;
    }
  }

  /** Text without the delimiter is a single part, backslashes included. */
  lemma {:induction false} SplitWithoutDelimiter(s: string, d: char)
    requires forall i :: 0 <= i < |s| ==> s[i] != d
    ensures Split(s, d) == [s]
    decreases |s|
  {
    if |s| > 0 {
      assert forall i :: 0 <= i < |s[1..]| ==> s[1..][i] == s[i + 1];
      SplitWithoutDelimiter(s[1..], d);
      assert [s[0]] + s[1..] == s;
    }
  }

  /** `\` at `i` escapes the delimiter at `i + 1`: for a delimiter other than `\`, a
      delimiter is escaped exactly when the character before it is `\`. */
  predicate Unescaped(s: string, d: char, i: nat)
    requires i < |s|
  {
    s[i] == d && !(i > 0 && s[i - 1] == '\\')
  }

  /** The number of unescaped delimiters at positions `i` and later. */
  function CountUnescaped(s: string, d: char, i: nat): nat
    requires i <= |s|
    decreases |s| - i
  {
    if i == |s| then 0
    else (if Unescaped(s, d, i) then 1 else 0) + CountUnescaped(s, d, i + 1)
  }

  /** There is one part more than there are unescaped delimiters. */
  lemma {:induction false} SplitCount(s: string, d: char)
    requires d != '\\'
    ensures |Split(s, d)| == CountUnescaped(s, d, 0) + 1
  {
    SplitCountFrom(s, d, 0);
    assert s[0..] == s;
  }

  lemma {:induction false} SplitCountFrom(s: string, d: char, i: nat)
    requires d != '\\' && i <= |s|
    requires i > 0 && i < |s| && s[i - 1] == '\\' ==> s[i] != d
    ensures |Split(s[i..], d)| == CountUnescaped(s, d, i) + 1
    decreases |s| - i
  {
    if i < |s| {
      var t := s[i..];
      assert t[1..] == s[i + 1..];
      if s[i] == '\\' && i + 1 < |s| && s[i + 1] == d {
        assert t[2..] == s[i + 2..];
        SplitCountFrom(s, d, i + 2);
        assert !Unescaped(s, d, i + 1);
      } else {
        SplitCountFrom(s, d, i + 1);
      }
    }
  }

  // ---------------------------------------------------------------------------
  // Parsing

  datatype Substitution = Substitution(pattern: Regex, replacement: string, global: bool)

  const MustStartWithS := "Substitution must start with 's'"
  const TooShort := "Substitution too short"
  const NeedsTwoParts := "Substitution must have pattern and replacement"

  /** `Substitution::parse`. The text after the `s` and the delimiter is split with the
      delimiter; the first part is the pattern, the second the replacement, and the third
      (if any) the flags, of which only `g` means something. */
  function Parse(engine: RegexEngine, input: string): (r: Result<Substitution, TrampError>)
    ensures (|input| == 0 || input[0] != 's') ==> r == Err(InvalidRegex(input, Syntax(MustStartWithS)))
    ensures input == "s" ==> r == Err(InvalidRegex(input, Syntax(TooShort)))
    ensures r.Ok? ==> |input| >= 2 && input[0] == 's' && |Split(input[2..], input[1])| >= 2
    ensures r.Ok? ==> r.value.pattern.source == Split(input[2..], input[1])[0] &&
                      r.value.replacement == Split(input[2..], input[1])[1]
    ensures r.Ok? ==> (r.value.global <==> var p := Split(input[2..], input[1]); |p| > 2 && 'g' in p[2])
    ensures |input| >= 2 && input[0] == 's' && |Split(input[2..], input[1])| < 2 ==>
              r == Err(InvalidRegex(input, Syntax(NeedsTwoParts)))
    ensures |input| >= 2 && input[0] == 's' && |Split(input[2..], input[1])| >= 2 ==>
              (r.Ok? <==> engine.accepts(Split(input[2..], input[1])[0])) &&
              (r.Err? ==> r.error == InvalidRegex(Split(input[2..], input[1])[0], EngineRejected))
  {
    if |input| == 0 || input[0] != 's' then Err(InvalidRegex(input, Syntax(MustStartWithS)))
    else if |input| < 2 then Err(InvalidRegex(input, Syntax(TooShort)))
    else
      var parts := Split(input[2..], input[1]);
      if |parts| < 2 then Err(InvalidRegex(input, Syntax(NeedsTwoParts)))
      else
        var flags := if |parts| > 2 then parts[2] else "";
        match Compile(engine, parts[0])
        case None => Err(InvalidRegex(parts[0], EngineRejected))
        case Some(re) => Ok(Substitution(re, parts[1], 'g' in flags))
  }

  /** A substitution written out with delimiter `d`: `s`, `d`, and the escaped parts
      (pattern, replacement, then flags and anything after) separated by `d`. */
  function Render(parts: seq<string>, d: char): (r: string)
    ensures |r| >= 2 && r[0] == 's' && r[1] == d
  {
    ['s', d] + JoinEscaped(parts, d)
  }

  /** Parsing a written-out substitution gives back its pattern and replacement verbatim,
      `global` exactly when the third part has a `g`, ignores every later part, and fails
      only on a pattern the engine rejects, naming that pattern. */
  lemma {:induction false} ParseRender(engine: RegexEngine, parts: seq<string>, d: char)
    requires |parts| >= 2 && d != '\\'
    requires forall k :: 0 <= k < |parts| - 1 ==> |parts[k]| == 0 || parts[k][|parts[k]| - 1] != '\\'
    ensures engine.accepts(parts[0]) ==>
      Parse(engine, Render(parts, d)) == Ok(Substitution(Regex(parts[0]), parts[1], |parts| > 2 && 'g' in parts[2]))
    ensures !engine.accepts(parts[0]) ==>
      Parse(engine, Render(parts, d)) == Err(InvalidRegex(parts[0], EngineRejected))
  {
    SplitJoinEscaped(parts, d);
    assert Render(parts, d)[2..] == JoinEscaped(parts, d);
  }

  /** A single part (no second delimiter) is an error that names the whole input. */
  lemma {:induction false} ParseOnePart(engine: RegexEngine, part: string, d: char)
    requires d != '\\'
    ensures Parse(engine, Render([part], d)) == Err(InvalidRegex(Render([part], d), Syntax(NeedsTwoParts)))
  {
    SplitJoinEscaped([part], d);
    assert Render([part], d)[2..] == JoinEscaped([part], d);
  }

  /** With a backslash as the delimiter nothing ever splits: every backslash is taken by
      the escape branch before the delimiter branch is reached, so there is one part. */
  lemma {:induction false} SplitOnBackslash(s: string)
    ensures |Split(s, '\\')| == 1
    decreases |s|
  {
    if |s| > 0 {
      if s[0] == '\\' && |s| >= 2 && s[1] == '\\' {
        SplitOnBackslash(s[2..]);
      } else {
        SplitOnBackslash(s[1..]);
      }
    }
  }

  /** So `s\...` is always missing its replacement. */
  lemma {:induction false} ParseBackslashDelimiter(engine: RegexEngine, rest: string)
    ensures Parse(engine, ['s', '\\'] + rest) == Err(InvalidRegex(['s', '\\'] + rest, Syntax(NeedsTwoParts)))
  {
    var input := ['s', '\\'] + rest;
    assert input[2..] == rest;
    SplitOnBackslash(rest);
  }

  // ---------------------------------------------------------------------------
  // Applying

  /** Copy `input` from `from`, putting the expansion of the template in place of each
      span in turn; a span that is out of order or out of bounds ends the replacing. */
  function Splice(engine: RegexEngine, pattern: string, template: string, input: string,
                  spans: seq<Span>, from: nat): string
    requires from <= |input|
    decreases |spans|
  {
    if |spans| == 0 || !(from <= spans[0].start <= spans[0].end <= |input|) then input[from..]
    else
      input[from..spans[0].start] + engine.expand(pattern, template, input, spans[0]) +
      Splice(engine, pattern, template, input, spans[1..], spans[0].end)
  }

  /** The matches a substitution replaces: all of them with `g`, otherwise the first. */
  function Replaced(engine: RegexEngine, sub: Substitution, input: string): (r: seq<Span>)
    ensures r <= engine.findIter(sub.pattern.source, input)
    ensures sub.global ==> r == engine.findIter(sub.pattern.source, input)
    ensures !sub.global ==> |r| == if engine.findIter(sub.pattern.source, input) == [] then 0 else 1
  {
    var spans := engine.findIter(sub.pattern.source, input);
    if sub.global || |spans| <= 1 then spans else spans[..1]
  }

  /** `Substitution::apply`: `replace_all` with `g`, `replace` without. */
  function Apply(engine: RegexEngine, sub: Substitution, input: string): string
  {
    Splice(engine, sub.pattern.source, sub.replacement, input, Replaced(engine, sub, input), 0)
  }

  /** Without a match the input comes back unchanged, whatever the flag. */
  lemma {:induction false} ApplyNoMatch(engine: RegexEngine, sub: Substitution, input: string)
    requires engine.findIter(sub.pattern.source, input) == []
    ensures Apply(engine, sub, input) == input
  {
    assert input[0..] == input;
  }

  /** Without `g` only the first match is replaced; the rest of the input is kept. */
  lemma {:induction false} ApplyFirstOnly(engine: RegexEngine, sub: Substitution, input: string)
    requires !sub.global
    requires SpansOk(engine.findIter(sub.pattern.source, input), |input|)
    requires engine.findIter(sub.pattern.source, input) != []
    ensures var m := engine.findIter(sub.pattern.source, input)[0];
      Apply(engine, sub, input) ==
        input[..m.start] + engine.expand(sub.pattern.source, sub.replacement, input, m) + input[m.end..]
  {
    var spans := Replaced(engine, sub, input);
    assert |spans| == 1 && spans[0] == engine.findIter(sub.pattern.source, input)[0];
    assert spans[1..] == [];
    assert input[0..spans[0].start] == input[..spans[0].start];
    assert Splice(engine, sub.pattern.source, sub.replacement, input, spans[1..], spans[0].end) == input[spans[0].end..];
  }

  /** With exactly one match the flag makes no difference. */
  lemma {:induction false} ApplyOneMatch(engine: RegexEngine, sub: Substitution, input: string)
    requires |engine.findIter(sub.pattern.source, input)| == 1
    ensures Apply(engine, sub, input) == Apply(engine, sub.(global := !sub.global), input)
  {
  }

  /** Replacing spans of one length `n` by a fixed text changes the length by the number
      of spans times the difference. */
  lemma {:induction false} SpliceLength(engine: RegexEngine, pattern: string, template: string, input: string,
                                        spans: seq<Span>, from: nat, n: nat)
    requires from <= |input| && SpansOk(spans, |input|)
    requires |spans| > 0 ==> from <= spans[0].start
    requires forall k :: 0 <= k < |spans| ==> spans[k].end == spans[k].start + n
    requires forall k :: 0 <= k < |spans| ==> engine.expand(pattern, template, input, spans[k]) == template
    ensures |Splice(engine, pattern, template, input, spans, from)| == |input| - from + |spans| * (|template| - n)
    decreases |spans|
  {
    if |spans| > 0 {
      var s := spans[0];
      assert SpansOk(spans[1..], |input|) by {
        assert forall k :: 0 <= k < |spans[1..]| ==> spans[1..][k] == spans[k + 1];
      }
      assert |spans| > 1 ==> s.end <= spans[1..][0].start by {
        if |spans| > 1 { assert spans[1..][0] == spans[1]; }
      }
      SpliceLength(engine, pattern, template, input, spans[1..], s.end, n);
      var rest := Splice(engine, pattern, template, input, spans[1..], s.end);
      assert Splice(engine, pattern, template, input, spans, from) == input[from..s.start] + template + rest;
      var c := |template| - n;
      assert |spans| * c == c + (|spans| - 1) * c;
    }
  }

  /** When every match has length `n` and expands to the replacement itself, the result
      grows by the replacement's excess over `n` once per replaced match. */
  lemma {:induction false} ApplyLength(engine: RegexEngine, sub: Substitution, input: string, n: nat)
    requires SpansOk(engine.findIter(sub.pattern.source, input), |input|)
    requires forall m <- engine.findIter(sub.pattern.source, input) :: m.end == m.start + n
    requires forall m <- engine.findIter(sub.pattern.source, input) ::
      engine.expand(sub.pattern.source, sub.replacement, input, m) == sub.replacement
    ensures |Apply(engine, sub, input)| == |input| + |Replaced(engine, sub, input)| * (|sub.replacement| - n)
  {
    var all := engine.findIter(sub.pattern.source, input);
    var spans := Replaced(engine, sub, input);
    assert forall k :: 0 <= k < |spans| ==> spans[k] == all[k];
    SpliceLength(engine, sub.pattern.source, sub.replacement, input, spans, 0, n);
  }

  /** For a literal pattern the result grows by the replacement's excess over the pattern
      once per replaced occurrence: for every occurrence with `g`, for the first without. */
  lemma {:induction false} LiteralApplyLength(sub: Substitution, input: string)
    requires |sub.pattern.source| > 0
    ensures var k := |Replaced(LiteralEngine(), sub, input)|;
      |Apply(LiteralEngine(), sub, input)| == |input| + k * (|sub.replacement| - |sub.pattern.source|)
  {
    var e := LiteralEngine();
    var all := LiteralSpans(sub.pattern.source, input, 0);
    assert e.findIter(sub.pattern.source, input) == all;
    assert SpansOk(all, |input|);
    ApplyLength(e, sub, input, |sub.pattern.source|);
  }

  // ---------------------------------------------------------------------------
  // Rewriting an invocation

  /** `rewrite_args`: join with spaces, substitute, split on white space. */
  function RewriteArgs(engine: RegexEngine, args: seq<string>, sub: Substitution): (r: seq<string>)
    ensures forall k :: 0 <= k < |r| ==> IsWord(r[k])
  {
    SplitWhitespace(Apply(engine, sub, Join(args, " ")))
  }

  /** A substitution that leaves the joined text alone leaves white-space-free arguments alone. */
  lemma {:induction false} RewriteArgsIdentity(engine: RegexEngine, args: seq<string>, sub: Substitution)
    requires Apply(engine, sub, Join(args, " ")) == Join(args, " ")
    requires forall k :: 0 <= k < |args| ==> IsWord(args[k])
    ensures RewriteArgs(engine, args, sub) == args
  {
    SplitJoinWords(args);
  }

  /** `rewrite_command`: the binary name and the arguments are rewritten as one text; its
      first token is the new binary and the rest the new arguments, and a text with no
      token at all leaves the original binary with no arguments. */
  function RewriteCommand(engine: RegexEngine, binary: string, args: seq<string>, sub: Substitution)
    : (r: (string, seq<string>))
    ensures forall k :: 0 <= k < |r.1| ==> IsWord(r.1[k])
    ensures var tokens := SplitWhitespace(Apply(engine, sub, Join([binary] + args, " ")));
      (tokens == [] ==> r == (binary, [])) && (tokens != [] ==> [r.0] + r.1 == tokens && IsWord(r.0))
  {
    var tokens := SplitWhitespace(Apply(engine, sub, Join([binary] + args, " ")));
    if tokens == [] then (binary, []) else (tokens[0], tokens[1..])
  }

  lemma {:induction false} WordsCons(w: string, ws: seq<string>)
    requires IsWord(w) && forall k :: 0 <= k < |ws| ==> IsWord(ws[k])
    ensures forall k :: 0 <= k < |[w] + ws| ==> IsWord(([w] + ws)[k])
  {
    forall k | 0 <= k < |[w] + ws|
      ensures IsWord(([w] + ws)[k])
    {
      if k > 0 {
        assert ([w] + ws)[k] == ws[k - 1];
      }
    }
  }

  /** A substitution that leaves the command line alone gives back the binary and the
      arguments when they are free of white space. */
  lemma {:induction false} RewriteCommandIdentity(engine: RegexEngine, binary: string, args: seq<string>, sub: Substitution)
    requires Apply(engine, sub, Join([binary] + args, " ")) == Join([binary] + args, " ")
    requires IsWord(binary) && forall k :: 0 <= k < |args| ==> IsWord(args[k])
    ensures RewriteCommand(engine, binary, args, sub) == (binary, args)
  {
    var line := [binary] + args;
    WordsCons(binary, args);
    SplitJoinWords(line);
    assert line[0] == binary && line[1..] == args;
  }

  // ---------------------------------------------------------------------------
  // The unit tests' examples

  lemma {:induction false} EscapeAppend(a: string, b: string, d: char)
    ensures Escape(a + b, d) == Escape(a, d) + Escape(b, d)
    decreases |a|
  {
    if |a| == 0 {
      assert a + b == b;
    } else {
      assert (a + b)[1..] == a[1..] + b;
      EscapeAppend(a[1..], b, d);
      EscapeCons(a + b, d);
      EscapeCons(a, d);
    }
  }

  lemma {:induction false} EscapePlain(s: string, d: char)
    requires d !in s
    ensures Escape(s, d) == s
    decreases |s|
  {
    if |s| > 0 {
      assert d !in s[1..] by {
        assert forall i :: 0 <= i < |s[1..]| ==> s[1..][i] == s[i + 1];
      }
      EscapePlain(s[1..], d);
      assert [s[0]] + s[1..] == s;
    }
  }

  lemma {:induction false} RenderThree(a: string, b: string, c: string, d: char)
    ensures Render([a, b, c], d) == ['s', d] + Escape(a, d) + [d] + Escape(b, d) + [d] + Escape(c, d)
  {
    assert [a, b, c][1..] == [b, c] && [b, c][1..] == [c];
    assert JoinEscaped([b, c], d) == Escape(b, d) + [d] + Escape(c, d);
    assert JoinEscaped([a, b, c], d) == Escape(a, d) + [d] + (Escape(b, d) + [d] + Escape(c, d));
  }

  lemma {:induction false} RenderPlainThree(a: string, b: string, c: string, d: char)
    requires d !in a && d !in b && d !in c
    ensures Render([a, b, c], d) == ['s', d] + a + [d] + b + [d] + c
  {
    EscapePlain(a, d);
    EscapePlain(b, d);
    EscapePlain(c, d);
    RenderThree(a, b, c, d);
  }

  /** The tests' substitutions, read by any engine that accepts their patterns. */
  lemma {:induction false} ParseSimpleExample(engine: RegexEngine)
    requires engine.accepts("foo")
    ensures Parse(engine, "s/foo/bar/") == Ok(Substitution(Regex("foo"), "bar", false))
  {
    RenderPlainThree("foo", "bar", "", '/');
    assert ['s', '/'] + "foo" + ['/'] + "bar" + ['/'] + "" == "s/foo/bar/";
    ParseRender(engine, ["foo", "bar", ""], '/');
  }

  lemma {:induction false} ParseGlobalExample(engine: RegexEngine)
    requires engine.accepts("foo")
    ensures Parse(engine, "s/foo/bar/g") == Ok(Substitution(Regex("foo"), "bar", true))
  {
    RenderPlainThree("foo", "bar", "g", '/');
    assert ['s', '/'] + "foo" + ['/'] + "bar" + ['/'] + "g" == "s/foo/bar/g";
    ParseRender(engine, ["foo", "bar", "g"], '/');
  }

  lemma {:induction false} ParseOtherDelimiterExample(engine: RegexEngine)
    requires engine.accepts("foo")
    ensures Parse(engine, "s#foo#bar#") == Ok(Substitution(Regex("foo"), "bar", false))
  {
    RenderPlainThree("foo", "bar", "", '#');
    assert ['s', '#'] + "foo" + ['#'] + "bar" + ['#'] + "" == "s#foo#bar#";
    ParseRender(engine, ["foo", "bar", ""], '#');
  }

  lemma {:induction false} EscapeOneDelimiter(a: string, b: string, d: char)
    requires d !in a && d !in b
    ensures Escape(a + [d] + b, d) == a + ['\\', d] + b
  {
    EscapeAppend(a, [d] + b, d);
    EscapeAppend([d], b, d);
    EscapePlain(a, d);
    EscapePlain(b, d);
    assert Escape([d], d) == ['\\', d];
    assert a + [d] + b == a + ([d] + b);
  }

  lemma {:induction false} RenderEscapedDelimiter(a: string, b: string, rep: string, d: char)
    requires d !in a && d !in b && d !in rep
    ensures Render([a + [d] + b, rep, ""], d) == ['s', d] + a + ['\\', d] + b + [d] + rep + [d]
  {
    var pattern := a + [d] + b;
    EscapeOneDelimiter(a, b, d);
    EscapePlain(rep, d);
    EscapePlain("", d);
    RenderThree(pattern, rep, "", d);
    assert ['s', d] + Escape(pattern, d) + [d] + Escape(rep, d) + [d] + Escape("", d) ==
           ['s', d] + a + ['\\', d] + b + [d] + rep + [d];
  }

  /** An escaped delimiter stays in the pattern, without its backslash (the test uses
      `s/foo\\/bar/baz/`). */
  lemma {:induction false} ParseEscapedDelimiter(engine: RegexEngine, a: string, b: string, rep: string, d: char)
    requires d != '\\' && d !in a && d !in b && d !in rep
    requires |b| == 0 || b[|b| - 1] != '\\'
    requires |rep| == 0 || rep[|rep| - 1] != '\\'
    requires engine.accepts(a + [d] + b)
    ensures Parse(engine, ['s', d] + a + ['\\', d] + b + [d] + rep + [d]) ==
            Ok(Substitution(Regex(a + [d] + b), rep, false))
  {
    var pattern := a + [d] + b;
    RenderEscapedDelimiter(a, b, rep, d);
    assert pattern[|pattern| - 1] != '\\' by {
      if |b| > 0 {
        assert pattern[|pattern| - 1] == b[|b| - 1];
      }
    }
    ParseRender(engine, [pattern, rep, ""], d);
  }

  /** A missing third delimiter is fine, a missing second one is not. */
  lemma {:induction false} ParsePartsExamples(engine: RegexEngine)
    requires engine.accepts("foo")
    ensures Parse(engine, "s/foo/") == Ok(Substitution(Regex("foo"), "", false))
    ensures Parse(engine, "s/foo") == Err(InvalidRegex("s/foo", Syntax(NeedsTwoParts)))
  {
    EscapePlain("foo", '/');
    assert ["foo", ""][1..] == [""];
    assert Render(["foo", ""], '/') == "s/foo/";
    ParseRender(engine, ["foo", ""], '/');
    assert Render(["foo"], '/') == "s/foo";
    ParseOnePart(engine, "foo", '/');
  }

  lemma {:induction false} FooSpans()
    ensures LiteralSpans("foo", "foo foo foo", 0) == [Span(0, 3), Span(4, 7), Span(8, 11)]
  {
    var h, p := "foo foo foo", "foo";
    assert h[8..11] == p;
    assert LiteralSpans(p, h, 8) == [Span(8, 11)];
    LiteralSpansSkip(p, h, 7);
    LiteralSpansSkip(p, h, 6);
    LiteralSpansSkip(p, h, 5);
    assert h[4..7] == p;
    LiteralSpansSkip(p, h, 3);
    assert h[0..3] == p;
  }

  /** `s/foo/bar/g` replaces every `foo`. */
  lemma {:induction false} GlobalExample()
    ensures Apply(LiteralEngine(), Substitution(Regex("foo"), "bar", true), "foo foo foo") == "bar bar bar"
  {
    FooSpans();
    var e := LiteralEngine();
    assert Replaced(e, Substitution(Regex("foo"), "bar", true), "foo foo foo") == [Span(0, 3), Span(4, 7), Span(8, 11)];
    SpliceExample(e);
  }

  lemma {:induction false} SpliceExample(e: RegexEngine)
    requires e == LiteralEngine()
    ensures Splice(e, "foo", "bar", "foo foo foo", [Span(0, 3), Span(4, 7), Span(8, 11)], 0) == "bar bar bar"
  {
    var h := "foo foo foo";
    assert h[7..8] == " " && h[3..4] == " " && h[0..0] == "";
    assert Splice(e, "foo", "bar", h, [], 11) == "";
    assert Splice(e, "foo", "bar", h, [Span(8, 11)], 7) == " bar";
    assert Splice(e, "foo", "bar", h, [Span(4, 7), Span(8, 11)], 3) == " bar bar";
  }

  /** `s/foo/bar/` replaces the first `foo` only. */
  lemma {:induction false} FirstOnlyExample()
    ensures Apply(LiteralEngine(), Substitution(Regex("foo"), "bar", false), "foo foo foo") == "bar foo foo"
  {
    var h := "foo foo foo";
    assert h[..3] == "foo" && h[3..] == " foo foo";
    LiteralApplyAtStart(Substitution(Regex("foo"), "bar", false), h);
  }
  /** A literal at the very start of the text is the first thing a substitution replaces. */
  lemma {:induction false} LiteralApplyAtStart(sub: Substitution, input: string)
    requires !sub.global && 0 < |sub.pattern.source| <= |input|
    requires input[..|sub.pattern.source|] == sub.pattern.source
    ensures Apply(LiteralEngine(), sub, input) == sub.replacement + input[|sub.pattern.source|..]
  {
    var e, p := LiteralEngine(), sub.pattern.source;
    assert input[0..|p|] == p;
    var spans := LiteralSpans(p, input, 0);
    assert spans[0] == Span(0, |p|);
    ApplyFirstOnly(e, sub, input);
    assert input[..0] == "";
  }

  /** `s/build/build --release/` turns `build` into `build --release`. */
  lemma {:induction false} ApplyBuildExample()
    ensures Apply(LiteralEngine(), Substitution(Regex("build"), "build --release", false), "build") == "build --release"
  {
    LiteralApplyAtStart(Substitution(Regex("build"), "build --release", false), "build");
    assert "build --release" + "build"[5..] == "build --release";
  }

  lemma {:induction false} BuildWords()
    ensures IsWord("build") && IsWord("--release")
    ensures Join(["build", "--release"], " ") == "build --release"
  {
  }

  /** `s/build/build --release/` on the single argument `build` gives two arguments. */
  lemma {:induction false} RewriteArgsExample()
    ensures RewriteArgs(LiteralEngine(), ["build"], Substitution(Regex("build"), "build --release", false)) ==
            ["build", "--release"]
  {
    var sub := Substitution(Regex("build"), "build --release", false);
    assert Join(["build"], " ") == "build";
    LiteralApplyAtStart(sub, "build");
    assert "build --release" + "build"[5..] == "build --release";
    BuildWords();
    SplitJoinWords(["build", "--release"]);
  }

  /** `s/foo\\/bar/baz/` reads as the pattern `foo/bar` and the replacement `baz`. */
  lemma {:induction false} EscapedDelimiterExample(engine: RegexEngine)
    requires engine.accepts("foo/bar")
    ensures Parse(engine, "s/foo\\/bar/baz/") == Ok(Substitution(Regex("foo/bar"), "baz", false))
  {
    assert "foo" + ['/'] + "bar" == "foo/bar";
    assert '/' !in "foo" && '/' !in "bar" && '/' !in "baz";
    ParseEscapedDelimiter(engine, "foo", "bar", "baz", '/');
    assert ['s', '/'] + "foo" + ['\\', '/'] + "bar" + ['/'] + "baz" + ['/'] == "s/foo\\/bar/baz/";
  }

  /** That substitution turns `foo/bar` into `baz`. */
  lemma {:induction false} EscapedDelimiterApply()
    ensures Apply(LiteralEngine(), Substitution(Regex("foo/bar"), "baz", false), "foo/bar") == "baz"
  {
    LiteralApplyAtStart(Substitution(Regex("foo/bar"), "baz", false), "foo/bar");
    assert "baz" + "foo/bar"[7..] == "baz";
  }
}
