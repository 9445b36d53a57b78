/** The few string operations of Rust's standard library that the core relies on. */
module Strings {

  /** `slice.join(sep)`: the pieces with `sep` between consecutive ones. */
  function Join(parts: seq<string>, sep: string): string
  {
    if |parts| == 0 then ""
    else if |parts| == 1 then parts[0]
    else parts[0] + sep + Join(parts[1..], sep)
  }

  /** ASCII white space (the model's stand-in for Unicode `White_Space`). */
  predicate IsSpace(c: char)
  {
    c == ' ' || c == '\t' || c == '\n' || c == '\r' || c == '\U{000B}' || c == '\U{000C}'
  }

  /** A token of `split_whitespace`: non-empty and free of white space. */
  predicate IsWord(w: string)
  {
    |w| > 0 && forall i :: 0 <= i < |w| ==> !IsSpace(w[i])
  }

  /** Length of the maximal white-space-free prefix of `s`. */
  function WordLength(s: string): (n: nat)
    requires |s| > 0 && !IsSpace(s[0])
    ensures 1 <= n <= |s|
    ensures IsWord(s[..n])
    ensures n < |s| ==> IsSpace(s[n])
  {
    if |s| == 1 || IsSpace(s[1]) then 1 else 1 + WordLength(s[1..])
  }

  /** `str::split_whitespace`: the maximal runs of non-white-space characters, left to right. */
  function SplitWhitespace(s: string): (r: seq<string>)
    ensures forall k :: 0 <= k < |r| ==> IsWord(r[k])
    ensures (forall i :: 0 <= i < |s| ==> IsSpace(s[i])) <==> r == []
    decreases |s|
  {
    if |s| == 0 then []
    else if IsSpace(s[0]) then (assert forall i :: 1 <= i < |s| ==> s[1..][i - 1] == s[i]; SplitWhitespace(s[1..]))
    else
      var n := WordLength(s);
      [s[..n]] + SplitWhitespace(s[n..])
  }

  lemma {:induction false} WordLengthOfWord(w: string, t: string)
    requires IsWord(w)
    requires |t| == 0 || IsSpace(t[0])
    ensures WordLength(w + t) == |w|
    decreases |w|
  {
    if |w| > 1 {
      assert (w + t)[1..] == w[1..] + t;
      WordLengthOfWord(w[1..], t);
    }
  }

  lemma {:induction false} SplitWhitespaceOfWord(w: string, t: string)
    requires IsWord(w)
    requires |t| == 0 || IsSpace(t[0])
    ensures SplitWhitespace(w + t) == [w] + SplitWhitespace(t)
  {
    WordLengthOfWord(w, t);
    assert (w + t)[..|w|] == w;
    assert (w + t)[|w|..] == t;
  }

  /** Splitting words joined by single spaces gives the words back. */
  lemma {:induction false} SplitJoinWords(ws: seq<string>)
    requires forall k :: 0 <= k < |ws| ==> IsWord(ws[k])
    ensures SplitWhitespace(Join(ws, " ")) == ws
    decreases |ws|
  {
    if |ws| == 1 {
      SplitWhitespaceOfWord(ws[0], "");
      assert ws[0] + "" == ws[0];
    } else if |ws| > 1 {
      var rest := " " + Join(ws[1..], " ");
      assert ws[0] + " " + Join(ws[1..], " ") == ws[0] + rest;
      SplitWhitespaceOfWord(ws[0], rest);
      assert rest[1..] == Join(ws[1..], " ");
      SplitJoinWords(ws[1..]);
      assert [ws[0]] + ws[1..] == ws;
    }
  }

  function DigitChar(d: nat): (c: char)
    requires d < 10
  {
    ('0' as int + d) as char
  }

  /** `usize::to_string`: the decimal numeral without leading zeros. */
  function NatToString(n: nat): (r: string)
    ensures |r| >= 1
    ensures n >= 10 ==> |r| >= 2
    ensures forall i :: 0 <= i < |r| ==> '0' <= r[i] <= '9'
  {
    if n < 10 then [DigitChar(n)] else NatToString(n / 10) + [DigitChar(n % 10)]
  }

  /** Different numbers have different numerals. */
  lemma {:induction false} NatToStringInjective(a: nat, b: nat)
    requires NatToString(a) == NatToString(b)
    ensures a == b
    decreases a
  {
    var sa, sb := NatToString(a), NatToString(b);
    if a >= 10 && b >= 10 {
      assert sa[..|sa| - 1] == NatToString(a / 10);
      assert sb[..|sb| - 1] == NatToString(b / 10);
      NatToStringInjective(a / 10, b / 10);
      assert DigitChar(a % 10) == DigitChar(b % 10);
    }
  }

  /** `i32::to_string`: a minus sign before the magnitude of a negative number. */
  function IntToString(i: int): (r: string)
    ensures |r| >= 1
    ensures i >= 0 ==> r == NatToString(i)
    ensures i < 0 ==> r == "-" + NatToString(-i)
  {
    if i < 0 then "-" + NatToString(-i) else NatToString(i)
  }

  function LowerChar(c: char): char
  {
    if 'A' <= c <= 'Z' then (c as int + 32) as char else c
  }

  /** ASCII lowercase (the model's stand-in for Unicode `to_lowercase`). */
  function ToLowerAscii(s: string): (r: string)
    ensures |r| == |s|
    ensures forall i :: 0 <= i < |s| ==> r[i] == LowerChar(s[i])
  {
    seq(|s|, i requires 0 <= i < |s| => LowerChar(s[i]))
  }

  /** A string lowercases to an all-lowercase target exactly when it spells
      the target with each letter in either case. */
  lemma {:induction false} LowerEqualsLowercaseWord(s: string, target: string)
    requires forall i :: 0 <= i < |target| ==> 'a' <= target[i] <= 'z' || '0' <= target[i] <= '9'
    ensures ToLowerAscii(s) == target <==>
      |s| == |target| &&
      forall i :: 0 <= i < |s| ==> s[i] == target[i] || ('a' <= target[i] <= 'z' && s[i] as int == target[i] as int - 32)
  {
    if ToLowerAscii(s) == target {
      assert |s| == |target|;
      forall i | 0 <= i < |s|
        ensures s[i] == target[i] || ('a' <= target[i] <= 'z' && s[i] as int == target[i] as int - 32)
      {
        assert LowerChar(s[i]) == target[i];
      }
    }
  }
  /** `str::split(sep)` for one separator character: the pieces between separators,
      empty pieces included, so there is always at least one. */
  function Fields(s: string, sep: char): (r: seq<string>)
    ensures |r| >= 1
    ensures forall k :: 0 <= k < |r| ==> sep !in r[k]
    decreases |s|
  {
    if |s| == 0 then [""]
    else
      var rest := Fields(s[1..], sep);
      if s[0] == sep then [""] + rest
      else [[s[0]] + rest[0]] + rest[1..]
  }

  /** Joining the fields with the separator gives the text back. */
  lemma {:induction false} JoinFields(s: string, sep: char)
    ensures Join(Fields(s, sep), [sep]) == s
    decreases |s|
  {
    if |s| > 0 {
      var rest := Fields(s[1..], sep);
      JoinFields(s[1..], sep);
      var r := Fields(s, sep);
      if s[0] == sep {
        assert r == [""] + rest;
        assert r[1..] == rest;
        assert Join(r, [sep]) == "" + [sep] + Join(rest, [sep]);
      } else if |rest| == 1 {
        assert r == [[s[0]] + rest[0]];
      } else {
        assert r[0] == [s[0]] + rest[0];
        assert r[1..] == rest[1..];
        assert Join(rest, [sep]) == rest[0] + [sep] + Join(rest[1..], [sep]);
      }
    }
  }

  /** The fields of a separator-free text are that text alone. */
  lemma {:induction false} FieldsOfField(w: string, sep: char)
    requires sep !in w
    ensures Fields(w, sep) == [w]
    decreases |w|
  {
    if |w| > 0 {
      FieldsOfField(w[1..], sep);
      assert [w[0]] + w[1..] == w;
    }
  }

  /** A separator-free field before a separator comes off as the first field. */
  lemma {:induction false} FieldsOfFieldThen(w: string, sep: char, t: string)
    requires sep !in w
    ensures Fields(w + [sep] + t, sep) == [w] + Fields(t, sep)
    decreases |w|
  {
    if |w| == 0 {
      assert w + [sep] + t == [sep] + t;
      assert ([sep] + t)[1..] == t;
    } else {
      assert (w + [sep] + t)[1..] == w[1..] + [sep] + t;
      FieldsOfFieldThen(w[1..], sep, t);
      assert [w[0]] + w[1..] == w;
    }
  }

  /** Splitting separator-free pieces joined by the separator gives the pieces back. */
  lemma {:induction false} FieldsOfJoin(parts: seq<string>, sep: char)
    requires |parts| >= 1
    requires forall k :: 0 <= k < |parts| ==> sep !in parts[k]
    ensures Fields(Join(parts, [sep]), sep) == parts
    decreases |parts|
  {
    if |parts| == 1 {
      FieldsOfField(parts[0], sep);
    } else {
      FieldsOfJoin(parts[1..], sep);
      FieldsOfFieldThen(parts[0], sep, Join(parts[1..], [sep]));
      assert [parts[0]] + parts[1..] == parts;
    }
  }
}
