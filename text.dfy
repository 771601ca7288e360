/**
 * The JavaScript string built-ins the routes and the detect page rely on:
 * `trim`, `split("\n")`, `split(",")`, `split(/\s+/)`, `substring(0, 100)`
 * and the rendering of an integer inside a template literal.
 * A string is a sequence of characters; the routes never look inside a
 * character beyond asking whether it is white space, a newline or a comma.
 */
module Text {

  /** The characters that JavaScript's `\s` and `String.prototype.trim` both
      treat as white space: the ECMAScript WhiteSpace and LineTerminator sets. */
  predicate IsWhitespace(c: char) {
    || c == '\t' || c == '\n' || c == '\U{000B}' || c == '\U{000C}' || c == '\r' || c == ' '
    || c == '\U{00A0}' || c == '\U{1680}' || ('\U{2000}' <= c <= '\U{200A}')
    || c == '\U{2028}' || c == '\U{2029}' || c == '\U{202F}' || c == '\U{205F}'
    || c == '\U{3000}' || c == '\U{FEFF}'
  }

  /** Every character is white space (the empty string included). */
  predicate Blank(s: string) {
    forall i :: 0 <= i < |s| ==> IsWhitespace(s[i])
  }

  /** No character is white space. */
  predicate NoWhitespace(s: string) {
    forall i :: 0 <= i < |s| ==> !IsWhitespace(s[i])
  }

  // ---------------------------------------------------------------------------
  // trim

  /** Drops the leading white space. */
  function TrimStart(s: string): (r: string)
    ensures |r| <= |s| && r == s[|s| - |r|..]
    ensures Blank(s[..|s| - |r|])
    ensures r == [] || !IsWhitespace(r[0])
  {
    if |s| > 0 && IsWhitespace(s[0]) then
      var r := TrimStart(s[1..]);
      assert s[..|s| - |r|] == [s[0]] + s[1..][..|s| - 1 - |r|];
      r
    else s
  }

  /** Drops the trailing white space. */
  function TrimEnd(s: string): (r: string)
    ensures |r| <= |s| && r == s[..|r|]
    ensures Blank(s[|r|..])
    ensures r == [] || !IsWhitespace(r[|r| - 1])
  {
    if |s| > 0 && IsWhitespace(s[|s| - 1]) then
      var r := TrimEnd(s[..|s| - 1]);
      assert s[|r|..] == s[..|s| - 1][|r|..] + [s[|s| - 1]];
      r
    else s
  }

  /** `s.trim()`: the leading and the trailing white space dropped. */
  function Trim(s: string): (r: string)
    ensures |r| <= |s|
    ensures r == [] || (!IsWhitespace(r[0]) && !IsWhitespace(r[|r| - 1]))
  {
    TrimEnd(TrimStart(s))
  }

  /** `s.trim()` is empty (falsy) exactly when `s` holds nothing but white space. */
  lemma TrimEmptyIffBlank(s: string)
    ensures Trim(s) == "" <==> Blank(s)
  {
    var t := TrimStart(s);
    if Trim(s) == "" {
      assert Blank(t[0..]);
      assert s == s[..|s| - |t|] + t;
    } else {
      var r := Trim(s);
      assert !IsWhitespace(r[0]);
      assert r[0] == t[0] == s[|s| - |t|];
    }
  }

  // ---------------------------------------------------------------------------
  // split on a single character, and join

  /** `s.split(sep)` for a one-character separator: the pieces between the
      occurrences of `sep`, in order. There is always at least one piece. */
  function SplitOn(s: string, sep: char): (r: seq<string>)
    ensures |r| >= 1
    ensures forall i :: 0 <= i < |r| ==> sep !in r[i]
    decreases |s|
  {
    if |s| == 0 then [""]
    else
      var tail := SplitOn(s[1..], sep);
      if s[0] == sep then [""] + tail
      else [[s[0]] + tail[0]] + tail[1..]
  }

  /** `parts.join(sep)`. */
  function JoinWith(parts: seq<string>, sep: string): (r: string)
    ensures |parts| > 0 ==> parts[0] <= r
  {
    if |parts| == 0 then ""
    else if |parts| == 1 then parts[0]
    else parts[0] + sep + JoinWith(parts[1..], sep)
  }

  /** Splitting loses nothing: joining the pieces back with the separator
      gives the original string. */
  lemma {:induction false} SplitOnJoin(s: string, sep: char)
    ensures JoinWith(SplitOn(s, sep), [sep]) == s
    decreases |s|
  {
    if |s| > 0 {
      var tail := SplitOn(s[1..], sep);
      SplitOnJoin(s[1..], sep);
      if s[0] == sep {
        assert SplitOn(s, sep)[1..] == tail;
      } else {
        var r := SplitOn(s, sep);
        if |tail| == 1 {
          assert r == [[s[0]] + tail[0]];
        } else {
          assert r[1..] == tail[1..];
          assert JoinWith(tail, [sep]) == tail[0] + [sep] + JoinWith(tail[1..], [sep]);
          assert JoinWith(r, [sep]) == [s[0]] + tail[0] + [sep] + JoinWith(tail[1..], [sep]);
        }
      }
    }
  }

  /** The first piece of `s.split(sep)` is the text before the first `sep`:
      a prefix of `s` free of `sep` that ends at `sep` or at the end of `s`. */
  lemma {:induction false} SplitOnFirst(s: string, sep: char)
    ensures SplitOn(s, sep)[0] <= s
    ensures sep !in SplitOn(s, sep)[0]
    ensures |SplitOn(s, sep)[0]| < |s| ==> s[|SplitOn(s, sep)[0]|] == sep
    decreases |s|
  {
    if |s| > 0 && s[0] != sep {
      SplitOnFirst(s[1..], sep);
    }
  }

  /** A text without the separator is a single piece. */
  lemma {:induction false} SplitOnWithout(s: string, sep: char)
    requires sep !in s
    ensures SplitOn(s, sep) == [s]
    decreases |s|
  {
    if |s| > 0 {
      assert sep !in s[1..] by {
        forall j | 0 <= j < |s| - 1 ensures s[1..][j] != sep {
          assert s[1..][j] == s[j + 1];
        }
      }
      SplitOnWithout(s[1..], sep);
      assert [s[0]] + s[1..] == s;
    }
  }

  /** Splitting at a separator splits the two sides apart: the pieces of
      `a + [sep] + b` are the pieces of `a` followed by the pieces of `b`. */
  lemma {:induction false} SplitOnAppend(a: string, sep: char, b: string)
    ensures SplitOn(a + [sep] + b, sep) == SplitOn(a, sep) + SplitOn(b, sep)
    decreases |a|
  {
    var s := a + [sep] + b;
    if |a| == 0 {
      assert s[0] == sep && s[1..] == b;
    } else {
      assert s[0] == a[0] && s[1..] == a[1..] + [sep] + b;
      SplitOnAppend(a[1..], sep, b);
    }
  }

  // ---------------------------------------------------------------------------
  // split(/\s+/)

  /**
   * `s.split(/\s+/)`: the pieces between the maximal runs of white space.
   * A leading run yields an empty first piece and a trailing run an empty
   * last piece; the empty string yields `[""]`. The definition walks the
   * string one character at a time: a white-space character that is followed
   * by more white space belongs to the same run and adds nothing, the last
   * character of a run opens a new piece.
   */
  function Words(s: string): (r: seq<string>)
    ensures |r| >= 1
    ensures forall i :: 0 <= i < |r| ==> NoWhitespace(r[i])
    ensures r[0] == "" <==> |s| == 0 || IsWhitespace(s[0])
    ensures |r| == 1 <==> NoWhitespace(s)
    decreases |s|
  {
    if |s| == 0 then [""]
    else
      var tail := Words(s[1..]);
      if !IsWhitespace(s[0]) then
        assert forall i :: 1 <= i < |s| ==> s[1..][i - 1] == s[i];
        [[s[0]] + tail[0]] + tail[1..]
      else if |s| > 1 && IsWhitespace(s[1]) then
        assert !NoWhitespace(s[1..]) by { assert s[1..][0] == s[1]; }
        tail
      else
        [""] + tail
  }

  /** The number of maximal runs of white space in `s` (each run is counted at
      its last character: a white-space character not followed by another). */
  function RunCount(s: string): nat
  {
    if |s| == 0 then 0
    else (if IsWhitespace(s[0]) && (|s| == 1 || !IsWhitespace(s[1])) then 1 else 0) + RunCount(s[1..])
  }

  /** There is one more word than there are runs of white space. */
  lemma {:induction false} WordsCount(s: string)
    ensures |Words(s)| == RunCount(s) + 1
    decreases |s|
  {
    if |s| > 0 {
      WordsCount(s[1..]);
    }
  }

  /** The word lists `split(/\s+/)` can produce: at least one word, no word
      holding white space, and only the first and the last word possibly empty. */
  predicate WellFormedWords(ws: seq<string>) {
    && |ws| >= 1
    && (forall i :: 0 <= i < |ws| ==> NoWhitespace(ws[i]))
    && (forall i :: 0 < i < |ws| - 1 ==> ws[i] != "")
  }

  /** Only the first and the last word can be empty. */
  lemma {:induction false} WordsInnerNonEmpty(s: string)
    ensures forall i :: 0 < i < |Words(s)| - 1 ==> Words(s)[i] != ""
    decreases |s|
  {
    if |s| > 0 {
      var tail := Words(s[1..]);
      WordsInnerNonEmpty(s[1..]);
      var r := Words(s);
      if !IsWhitespace(s[0]) {
        assert r == [[s[0]] + tail[0]] + tail[1..];
        forall i | 0 < i < |r| - 1 ensures r[i] != "" {
          assert r[i] == tail[i];
        }
      } else if !(|s| > 1 && IsWhitespace(s[1])) {
        assert r == [""] + tail;
        forall i | 0 < i < |r| - 1 ensures r[i] != "" {
          assert r[i] == tail[i - 1];
          if i == 1 {
            assert s[1..][0] == s[1];
          }
        }
      }
    }
  }

  /** The last word is empty exactly when the text is empty or ends with white space. */
  lemma {:induction false} WordsLastEmpty(s: string)
    ensures Words(s)[|Words(s)| - 1] == "" <==> |s| == 0 || IsWhitespace(s[|s| - 1])
    decreases |s|
  {
    if |s| > 1 {
      var tail := Words(s[1..]);
      WordsLastEmpty(s[1..]);
      var r := Words(s);
      assert s[|s| - 1] == s[1..][|s| - 2];
      if !IsWhitespace(s[0]) {
        assert r == [[s[0]] + tail[0]] + tail[1..];
        if |tail| > 1 {
          assert r[|r| - 1] == tail[|tail| - 1];
        }
      } else if !IsWhitespace(s[1]) {
        assert r == [""] + tail;
        assert r[|r| - 1] == tail[|tail| - 1];
      }
    }
  }

  /** What `split(/\s+/)` yields is a well-formed word list, and its last word
      is empty exactly when the text is empty or ends with white space. */
  lemma WordsWellFormed(s: string)
    ensures WellFormedWords(Words(s))
    ensures Words(s)[|Words(s)| - 1] == "" <==> |s| == 0 || IsWhitespace(s[|s| - 1])
  {
    WordsInnerNonEmpty(s);
    WordsLastEmpty(s);
  }

  /** A word glued in front of a text extends the text's first word. */
  lemma {:induction false} WordsAfterWord(w: string, s: string)
    requires NoWhitespace(w)
    ensures Words(w + s) == [w + Words(s)[0]] + Words(s)[1..]
    decreases |w|
  {
    if |w| > 0 {
      var w' := w[1..];
      assert (w + s)[1..] == w' + s;
      assert (w + s)[0] == w[0];
      WordsAfterWord(w', s);
      assert [w[0]] + (w' + Words(s)[0]) == w + Words(s)[0];
    } else {
      var t := Words(s);
      assert w == [];
      assert w + s == s && w + t[0] == t[0];
      assert [t[0]] + t[1..] == t;
    }
  }

  /** A single space in front of a text that does not start with white space
      opens an empty first word. */
  lemma WordsAfterSpace(s: string)
    requires s == "" || !IsWhitespace(s[0])
    ensures Words(" " + s) == [""] + Words(s)
  {
    assert (" " + s)[1..] == s;
    if |s| > 0 {
      assert (" " + s)[1] == s[0];
    }
  }

  /** The tail of a well-formed word list, joined, does not start with white
      space: its first word is non-empty unless it is the only one. */
  lemma JoinStartsWithWord(ws: seq<string>)
    requires |ws| >= 1 && (forall i :: 0 <= i < |ws| ==> NoWhitespace(ws[i]))
    requires ws[0] != "" || |ws| == 1
    ensures var j := JoinWith(ws, " "); j == "" || !IsWhitespace(j[0])
  {
    var j := JoinWith(ws, " ");
    if ws[0] != "" {
      assert ws[0] <= j;
      assert j[0] == ws[0][0];
    }
  }

  /** Splitting and joining are inverse: joining a well-formed word list with
      single spaces and splitting on white-space runs gives the list back. */
  lemma {:induction false} WordsOfJoin(ws: seq<string>)
    requires WellFormedWords(ws)
    ensures Words(JoinWith(ws, " ")) == ws
    decreases |ws|
  {
    if |ws| == 1 {
      WordsAfterWord(ws[0], "");
      assert ws[0] + "" == ws[0];
    } else {
      var rest := ws[1..];
      var j := JoinWith(rest, " ");
      assert WellFormedWords(rest) by {
        forall i | 0 < i < |rest| - 1 ensures rest[i] != "" {
          assert rest[i] == ws[i + 1];
        }
      }
      WordsOfJoin(rest);
      JoinStartsWithWord(rest);
      WordsAfterSpace(j);
      WordsAfterWord(ws[0], " " + j);
      assert ws[0] + " " + j == ws[0] + (" " + j);
      assert ws[0] + "" == ws[0];
      assert [ws[0]] + rest == ws;
    }
  }

  /** The white-space runs between the words of `split(/\s+/)`, in order:
      one fewer than the words, each non-empty and all white space. */
  function Gaps(s: string): (r: seq<string>)
    ensures |r| == |Words(s)| - 1
    ensures forall i :: 0 <= i < |r| ==> r[i] != [] && Blank(r[i])
    ensures |s| > 0 && IsWhitespace(s[0]) ==> |r| > 0 && r[0][0] == s[0]
    decreases |s|
  {
    if |s| == 0 then []
    else
      var tail := Gaps(s[1..]);
      if !IsWhitespace(s[0]) then tail
      else if |s| > 1 && IsWhitespace(s[1]) then
        assert !NoWhitespace(s[1..]) by { assert s[1..][0] == s[1]; }
        var g := [s[0]] + tail[0];
        assert forall j :: 1 <= j < |g| ==> g[j] == tail[0][j - 1];
        [g] + tail[1..]
      else
        [[s[0]]] + tail
  }

  /** The words with the gaps between them put back. */
  function Interleave(ws: seq<string>, gaps: seq<string>): string
    requires |ws| == |gaps| + 1
    decreases |gaps|
  {
    if |gaps| == 0 then ws[0] else ws[0] + gaps[0] + Interleave(ws[1..], gaps[1..])
  }

  /** Putting a prefix in front of the first word puts it in front of the text. */
  lemma InterleaveFront(p: string, ws: seq<string>, gaps: seq<string>)
    requires |ws| == |gaps| + 1
    ensures Interleave([p + ws[0]] + ws[1..], gaps) == p + Interleave(ws, gaps)
  {
    var ws' := [p + ws[0]] + ws[1..];
    assert ws'[1..] == ws[1..];
  }

  /** The round trip for a text that starts with a word character. */
  lemma GapsAfterWordChar(s: string)
    requires |s| > 0 && !IsWhitespace(s[0])
    requires Interleave(Words(s[1..]), Gaps(s[1..])) == s[1..]
    ensures Interleave(Words(s), Gaps(s)) == s
  {
    var t := Words(s[1..]);
    assert Words(s) == [[s[0]] + t[0]] + t[1..];
    InterleaveFront([s[0]], t, Gaps(s[1..]));
  }

  /** Putting a prefix in front of the first gap, after an empty first
      word, puts it in front of the text. */
  lemma InterleaveGapFront(p: string, ws: seq<string>, gaps: seq<string>)
    requires |ws| == |gaps| + 1 && |gaps| > 0 && ws[0] == ""
    ensures Interleave(ws, [p + gaps[0]] + gaps[1..]) == p + Interleave(ws, gaps)
  {
    var gaps' := [p + gaps[0]] + gaps[1..];
    assert gaps'[1..] == gaps[1..];
    var rest := Interleave(ws[1..], gaps[1..]);
    assert ws[0] + gaps[0] == gaps[0];
    assert p + gaps[0] + rest == p + (gaps[0] + rest);
  }

  /** The round trip for a text that starts with two white-space characters. */
  lemma GapsInsideRun(s: string)
    requires |s| > 1 && IsWhitespace(s[0]) && IsWhitespace(s[1])
    requires Interleave(Words(s[1..]), Gaps(s[1..])) == s[1..]
    ensures Interleave(Words(s), Gaps(s)) == s
  {
    var t := Words(s[1..]);
    var g := Gaps(s[1..]);
    assert s[1..][0] == s[1];
    assert Words(s) == t;
    assert Gaps(s) == [[s[0]] + g[0]] + g[1..];
    InterleaveGapFront([s[0]], t, g);
    assert s == [s[0]] + s[1..];
  }

  /** The round trip for a text whose white-space run starts and ends at its
      first character. */
  lemma GapsSingleSpace(s: string)
    requires |s| > 0 && IsWhitespace(s[0]) && !(|s| > 1 && IsWhitespace(s[1]))
    requires Interleave(Words(s[1..]), Gaps(s[1..])) == s[1..]
    ensures Interleave(Words(s), Gaps(s)) == s
  {
    var t := Words(s[1..]);
    var g := Gaps(s[1..]);
    assert Words(s) == [""] + t;
    assert Gaps(s) == [[s[0]]] + g;
    assert ([""] + t)[1..] == t && ([[s[0]]] + g)[1..] == g;
    assert s == [s[0]] + s[1..];
  }

  /** `split(/\s+/)` loses only the white space: the words interleaved with
      the white-space runs between them give back the text. */
  lemma {:induction false} WordsGapsRoundTrip(s: string)
    ensures Interleave(Words(s), Gaps(s)) == s
    decreases |s|
  {
    if |s| > 0 {
      WordsGapsRoundTrip(s[1..]);
      if !IsWhitespace(s[0]) {
        GapsAfterWordChar(s);
      } else if |s| > 1 && IsWhitespace(s[1]) {
        GapsInsideRun(s);
      } else {
        GapsSingleSpace(s);
      }
    }
  }

  // ---------------------------------------------------------------------------
  // truncation to 100 characters

  const TruncateLimit: nat := 100
  const Ellipsis: string := "..."

  /** `s.substring(0, 100) + (s.length > 100 ? "..." : "")`. */
  function Truncate100(s: string): string
  {
    s[..if |s| <= TruncateLimit then |s| else TruncateLimit] + (if |s| > TruncateLimit then Ellipsis else "")
  }

  /** A text of at most 100 characters is kept as it is; a longer one keeps its
      first 100 characters and gains "..." — so the result has at most 103
      characters, and "..." is appended exactly when the text is too long. */
  lemma TruncateShape(s: string)
    ensures |s| <= TruncateLimit ==> Truncate100(s) == s
    ensures |s| > TruncateLimit <==> |Truncate100(s)| == TruncateLimit + |Ellipsis|
    ensures |s| > TruncateLimit ==> Truncate100(s) == s[..TruncateLimit] + Ellipsis
    ensures |Truncate100(s)| <= TruncateLimit + |Ellipsis|
  {
  }

  /** Truncating twice is truncating once. */
  lemma TruncateIdempotent(s: string)
    ensures Truncate100(Truncate100(s)) == Truncate100(s)
  {
    if |s| > TruncateLimit {
      var r := Truncate100(s);
      assert r[..TruncateLimit] == s[..TruncateLimit];
    }
  }

  // ---------------------------------------------------------------------------
  // integers in template literals

  predicate IsDigit(c: char) {
    '0' <= c <= '9'
  }

  function DigitChar(d: nat): (c: char)
    requires d < 10
    ensures IsDigit(c)
  {
    "0123456789"[d]
  }

  /** `${n}` for a non-negative integer: its decimal digits, without leading zeros. */
  function Decimal(n: nat): (r: string)
    ensures |r| >= 1
    ensures forall i :: 0 <= i < |r| ==> IsDigit(r[i])
    ensures |r| == 1 || r[0] != '0'
  {
    if n < 10 then [DigitChar(n)] else Decimal(n / 10) + [DigitChar(n % 10)]
  }

  /** The number a string of decimal digits denotes. */
  function DecimalValue(d: string): nat
    requires forall i :: 0 <= i < |d| ==> IsDigit(d[i])
  {
    if |d| == 0 then 0
    else DecimalValue(d[..|d| - 1]) * 10 + DigitValue(d[|d| - 1])
  }

  function DigitValue(c: char): (d: nat)
    requires IsDigit(c)
    ensures d < 10
  {
    (c as int - '0' as int) as nat
  }

  /** Reading back the rendered digits gives the number. */
  lemma {:induction false} DecimalRoundTrip(n: nat)
    ensures DecimalValue(Decimal(n)) == n
  {
    if n >= 10 {
      DecimalRoundTrip(n / 10);
      var r := Decimal(n);
      assert r[..|r| - 1] == Decimal(n / 10);
    }
  }
}
