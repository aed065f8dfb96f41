/** The `str` methods the puzzle code relies on: `ends_with`, `split` on a
    one-character pattern, `trim` and `replace(pattern, "")`. */
module Text {

  /** `s.ends_with(suffix)`, compared letter by letter from the back. */
  predicate EndsWith(s: string, suffix: string) {
    if suffix == [] then true
    else s != [] && s[|s| - 1] == suffix[|suffix| - 1] && EndsWith(s[..|s| - 1], suffix[..|suffix| - 1])
  }

  /** A string ends with `suffix` exactly when its last `|suffix|` letters are `suffix`. */
  lemma {:induction false} EndsWithSuffix(s: string, suffix: string)
    ensures EndsWith(s, suffix) <==> |suffix| <= |s| && s[|s| - |suffix|..] == suffix
  {
    if suffix != [] && s != [] {
      var s', suffix' := s[..|s| - 1], suffix[..|suffix| - 1];
      EndsWithSuffix(s', suffix');
      if |suffix| <= |s| {
        assert s[|s| - |suffix|..] == s'[|s'| - |suffix'|..] + [s[|s| - 1]];
        assert suffix == suffix' + [suffix[|suffix| - 1]];
      }
    }
  }

  /** `pieces.join(&sep.to_string())`. */
  function Join(pieces: seq<string>, sep: char): string
    requires pieces != []
  {
    if |pieces| == 1 then pieces[0] else pieces[0] + [sep] + Join(pieces[1..], sep)
  }

  /** A character that is neither the separator nor in any piece is not in the joined text. */
  lemma {:induction false} JoinExcludes(pieces: seq<string>, sep: char, x: char)
    requires pieces != [] && x != sep
    requires forall i | 0 <= i < |pieces| :: x !in pieces[i]
    ensures x !in Join(pieces, sep)
  {
    if |pieces| > 1 {
      JoinExcludes(pieces[1..], sep, x);
    }
  }

  /** `s.split(sep)`: the pieces between separators, empty pieces included;
      there is always one more piece than there are separators. */
  function Split(s: string, sep: char): (pieces: seq<string>)
    ensures pieces != []
    ensures forall i | 0 <= i < |pieces| :: sep !in pieces[i]
    ensures Join(pieces, sep) == s
  {
    if s == [] then [""]
    else
      var rest := Split(s[1..], sep);
      if s[0] == sep then
        assert s == [sep] + s[1..];
        [""] + rest
      else
        var pieces := [[s[0]] + rest[0]] + rest[1..];
        assert pieces[1..] == rest[1..];
        assert s == [s[0]] + s[1..];
        pieces
  }

  /** Without a separator there is one piece, the whole string. */
  lemma {:induction false} SplitNoSeparator(s: string, sep: char)
    requires sep !in s
    ensures Split(s, sep) == [s]
  {
    if s != [] {
      SplitNoSeparator(s[1..], sep);
      assert s == [s[0]] + s[1..];
    }
  }

  /** The first separator ends the first piece. */
  lemma {:induction false} SplitAtFirstSeparator(a: string, sep: char, b: string)
    requires sep !in a
    ensures Split(a + [sep] + b, sep) == [a] + Split(b, sep)
  {
    var s := a + [sep] + b;
    if a == [] {
      assert s[1..] == b;
    } else {
      assert s[1..] == a[1..] + [sep] + b;
      SplitAtFirstSeparator(a[1..], sep, b);
      assert [a[0]] + a[1..] == a;
    }
  }

  /** Two pieces around the one separator. */
  lemma {:induction false} SplitInTwo(a: string, sep: char, b: string)
    requires sep !in a && sep !in b
    ensures Split(a + [sep] + b, sep) == [a, b]
  {
    SplitAtFirstSeparator(a, sep, b);
    SplitNoSeparator(b, sep);
  }

  /** Splitting undoes joining pieces that do not contain the separator. */
  lemma {:induction false} SplitJoin(pieces: seq<string>, sep: char)
    requires pieces != []
    requires forall i | 0 <= i < |pieces| :: sep !in pieces[i]
    ensures Split(Join(pieces, sep), sep) == pieces
  {
    if |pieces| == 1 {
      SplitNoSeparator(pieces[0], sep);
    } else {
      SplitJoin(pieces[1..], sep);
      SplitAtFirstSeparator(pieces[0], sep, Join(pieces[1..], sep));
      assert [pieces[0]] + pieces[1..] == pieces;
    }
  }

  /** A text containing the separator splits into at least two pieces. */
  lemma {:induction false} SplitNoSeparatorLength(line: string, sep: char)
    ensures |Split(line, sep)| < 2 ==> sep !in line
  {
    if |Split(line, sep)| < 2 {
      assert Join(Split(line, sep), sep) == Split(line, sep)[0];
    }
  }

  /** `char::is_whitespace`: the Unicode White_Space property. */
  predicate IsWhitespace(c: char) {
    var n := c as int;
    (0x09 <= n <= 0x0D) || n == 0x20 || n == 0x85 || n == 0xA0 || n == 0x1680
    || (0x2000 <= n <= 0x200A) || n == 0x2028 || n == 0x2029 || n == 0x202F
    || n == 0x205F || n == 0x3000
  }

  /** `s.trim_start()`: drops the whitespace at the front and nothing else. */
  function TrimStart(s: string): (r: string)
    ensures |r| <= |s| && r == s[|s| - |r|..]
    ensures forall k | 0 <= k < |s| - |r| :: IsWhitespace(s[k])
    ensures r != [] ==> !IsWhitespace(r[0])
  {
    if s != [] && IsWhitespace(s[0]) then TrimStart(s[1..]) else s
  }

  /** `s.trim_end()`: drops the whitespace at the back and nothing else. */
  function TrimEnd(s: string): (r: string)
    ensures |r| <= |s| && r == s[..|r|]
    ensures forall k | |r| <= k < |s| :: IsWhitespace(s[k])
    ensures r != [] ==> !IsWhitespace(r[|r| - 1])
  {
    if s != [] && IsWhitespace(s[|s| - 1]) then TrimEnd(s[..|s| - 1]) else s
  }

  /** `s.trim()`. */
  function Trim(s: string): string {
    TrimEnd(TrimStart(s))
  }

  /** Text that neither starts nor ends with whitespace, after any amount of
      leading whitespace, trims to itself. */
  lemma {:induction false} TrimPadded(pad: string, s: string)
    requires forall k | 0 <= k < |pad| :: IsWhitespace(pad[k])
    requires s != [] && !IsWhitespace(s[0]) && !IsWhitespace(s[|s| - 1])
    ensures Trim(pad + s) == s
  {
    TrimStartPadded(pad, s);
  }

  lemma {:induction false} TrimStartPadded(pad: string, s: string)
    requires forall k | 0 <= k < |pad| :: IsWhitespace(pad[k])
    requires s != [] && !IsWhitespace(s[0])
    ensures TrimStart(pad + s) == s
  {
    var t := pad + s;
    var r := TrimStart(t);
    assert !IsWhitespace(t[|pad|]) by { assert t[|pad|] == s[0]; }
    assert forall k | 0 <= k < |pad| :: IsWhitespace(t[k]) by {
      assert forall k | 0 <= k < |pad| :: t[k] == pad[k];
    }
    assert |r| == |s|;
    assert t[|pad|..] == s;
  }

  /** `s.replace(pattern, "")`: removes the non-overlapping occurrences of
      `pattern` found scanning left to right; text that the removals bring
      together is not scanned again. */
  function RemoveAll(s: string, pattern: string): (r: string)
    requires pattern != []
    ensures |r| <= |s|
    decreases |s|
  {
    if |pattern| <= |s| && s[..|pattern|] == pattern then RemoveAll(s[|pattern|..], pattern)
    else if s == [] then []
    else [s[0]] + RemoveAll(s[1..], pattern)
  }

  /** A leading occurrence is removed, and text after it that cannot start
      another one is kept as it is. */
  lemma {:induction false} RemoveAllLeading(pattern: string, s: string)
    requires pattern != [] && pattern[0] !in s
    ensures RemoveAll(pattern + s, pattern) == s
  {
    var t := pattern + s;
    assert t[..|pattern|] == pattern && t[|pattern|..] == s;
    RemoveAllAbsent(s, pattern);
  }

  /** Text that cannot start an occurrence of the pattern is left alone. */
  lemma {:induction false} RemoveAllAbsent(s: string, pattern: string)
    requires pattern != [] && pattern[0] !in s
    ensures RemoveAll(s, pattern) == s
  {
    if s != [] {
      assert s[0] != pattern[0];
      RemoveAllAbsent(s[1..], pattern);
      assert [s[0]] + s[1..] == s;
    }
  }
}
