/** The parts of Rust's `str` and integer API that the bot relies on, over
    `string` (a sequence of Unicode scalar values). Comparing two strings
    code point by code point orders them exactly as comparing their UTF-8
    bytes does, so `LexLe` is both Rust's `String` order and SQLite's
    BINARY collation. */
module Strings {
  import opened Wrappers

  // ---------------------------------------------------------------------
  // Fixed-width integers
  // ---------------------------------------------------------------------

  predicate IsI32(n: int) { -0x8000_0000 <= n < 0x8000_0000 }

  predicate IsI64(n: int) { -0x8000_0000_0000_0000 <= n < 0x8000_0000_0000_0000 }

  /** Two's-complement wrap-around of an `i32` result, as a release build
      computes `a * b`, `a + 1` or `a - 1`. */
  function Wrap32(n: int): (r: int)
    ensures IsI32(r)
    ensures IsI32(n) ==> r == n
  {
    (n + 0x8000_0000) % 0x1_0000_0000 - 0x8000_0000
  }

  // ---------------------------------------------------------------------
  // Decimal digits, `to_string` and `parse::<i32>`
  // ---------------------------------------------------------------------

  predicate IsDigit(c: char) { '0' <= c <= '9' }

  predicate AllDigits(s: string) { forall i | 0 <= i < |s| :: IsDigit(s[i]) }

  function DigitChar(d: nat): (c: char)
    requires d < 10
    ensures IsDigit(c) && c as int - '0' as int == d
  {
    ('0' as int + d) as char
  }

  /** The value of a string of decimal digits (leading zeros allowed). */
  function DigitsValue(s: string): (n: nat)
    requires AllDigits(s)
    decreases |s|
  {
    if s == [] then 0 else DigitsValue(s[..|s| - 1]) * 10 + (s[|s| - 1] as int - '0' as int)
  }

  /** `Display` of a non-negative integer: digits without leading zeros. */
  function NatToString(n: nat): (s: string)
    ensures |s| >= 1 && AllDigits(s)
    ensures s[0] == '0' ==> n == 0
    ensures DigitsValue(s) == n
    decreases n
  {
    if n < 10 then [DigitChar(n)]
    else
      var prefix := NatToString(n / 10);
      var s := prefix + [DigitChar(n % 10)];
      assert s[..|s| - 1] == prefix;
      s
  }

  /** `Display` of a signed integer (`i32`, `i64`, `u32`). */
  function IntToString(n: int): (s: string)
    ensures |s| >= 1
    ensures forall i | 0 <= i < |s| :: IsDigit(s[i]) || (i == 0 && s[i] == '-')
    ensures s[0] == '-' <==> n < 0
  {
    if n < 0 then "-" + NatToString(-n) else NatToString(n)
  }

  /** `<i32 as FromStr>::from_str`: an optional `+` or `-`, then at least one
      ASCII digit and nothing else, with a value in the `i32` range. */
  function ParseI32(s: string): (r: Option<int>)
    ensures r.Some? ==> IsI32(r.value)
    ensures r.Some? ==> s != [] && (IsDigit(s[0]) || s[0] == '+' || s[0] == '-')
  {
    if s == [] || ((s[0] == '+' || s[0] == '-') && |s| == 1) then None
    else
      var digits := if s[0] == '+' || s[0] == '-' then s[1..] else s;
      if !AllDigits(digits) then None
      else
        var v: int := if s[0] == '-' then -(DigitsValue(digits) as int) else DigitsValue(digits);
        if IsI32(v) then Some(v) else None
  }

  /** Printing an `i32` and parsing it back gives the same number. */
  lemma ParseI32OfIntToString(n: int)
    requires IsI32(n)
    ensures ParseI32(IntToString(n)) == Some(n)
  {
    var s := IntToString(n);
    if n < 0 {
      assert s[1..] == NatToString(-n);
    } else {
      assert s == NatToString(n);
    }
  }

  /** A string that is not an integer at all does not parse. */
  lemma ParseI32RejectsNonDigit(s: string, i: nat)
    requires i < |s| && !IsDigit(s[i]) && (i > 0 || (s[0] != '+' && s[0] != '-'))
    ensures ParseI32(s) == None
  {
    if s[0] == '+' || s[0] == '-' {
      assert s[1..][i - 1] == s[i];
    }
  }

  // ---------------------------------------------------------------------
  // Prefixes
  // ---------------------------------------------------------------------

  /** `str::trim_start_matches` with a non-empty string pattern: removes
      the pattern from the front as many times as it occurs there. */
  function TrimStartMatches(s: string, p: string): (r: string)
    requires p != []
    ensures |r| <= |s| && r == s[|s| - |r|..]
    ensures !(p <= r)
    decreases |s|
  {
    if p <= s then TrimStartMatches(s[|p|..], p) else s
  }

  /** Repeated occurrences of the pattern are all stripped. */
  lemma {:induction false} TrimStartMatchesRepeated(p: string, k: nat, s: string)
    requires p != [] && !(p <= s)
    ensures TrimStartMatches(Repeat(p, k) + s, p) == s
  {
    if k > 0 {
      var t := Repeat(p, k - 1) + s;
      assert Repeat(p, k) + s == p + t;
      assert p <= p + t;
      assert (p + t)[|p|..] == t;
      TrimStartMatchesRepeated(p, k - 1, s);
    }
  }

  function Repeat(p: string, k: nat): string {
    if k == 0 then [] else p + Repeat(p, k - 1)
  }

  // ---------------------------------------------------------------------
  // Whitespace: `split_whitespace` and `trim`
  // ---------------------------------------------------------------------

  /** The Unicode `White_Space` property, which `split_whitespace` and
      `trim` use. */
  predicate IsWhitespace(c: char) {
    || '\t' <= c <= '\r'
    || c == ' '
    || c == '\U{85}'
    || c == '\U{A0}'
    || c == '\U{1680}'
    || '\U{2000}' <= c <= '\U{200A}'
    || c == '\U{2028}'
    || c == '\U{2029}'
    || c == '\U{202F}'
    || c == '\U{205F}'
    || c == '\U{3000}'
  }

  predicate NoWhitespace(s: string) { forall i | 0 <= i < |s| :: !IsWhitespace(s[i]) }

  predicate AllWhitespace(s: string) { forall i | 0 <= i < |s| :: IsWhitespace(s[i]) }

  /** Length of the longest prefix of `s` without whitespace. */
  function WordLength(s: string): (k: nat)
    ensures k <= |s| && NoWhitespace(s[..k])
    ensures k < |s| ==> IsWhitespace(s[k])
  {
    if s == [] || IsWhitespace(s[0]) then 0 else 1 + WordLength(s[1..])
  }

  /** `str::split_whitespace`: the maximal runs of non-whitespace. */
  function SplitWhitespace(s: string): (words: seq<string>)
    ensures forall i | 0 <= i < |words| :: words[i] != [] && NoWhitespace(words[i])
    decreases |s|
  {
    if s == [] then []
    else if IsWhitespace(s[0]) then SplitWhitespace(s[1..])
    else
      var k := WordLength(s);
      [s[..k]] + SplitWhitespace(s[k..])
  }

  lemma {:induction false} WordLengthOfWord(w: string, rest: string)
    requires NoWhitespace(w)
    requires rest == [] || IsWhitespace(rest[0])
    ensures WordLength(w + rest) == |w|
  {
    if w != [] {
      assert (w + rest)[1..] == w[1..] + rest;
      WordLengthOfWord(w[1..], rest);
    } else {
      assert w + rest == rest;
    }
  }

  /** Words separated by single spaces split back into the same words. */
  lemma {:induction false} SplitWhitespaceOfJoin(words: seq<string>)
    requires forall i | 0 <= i < |words| :: words[i] != [] && NoWhitespace(words[i])
    ensures SplitWhitespace(Join(words, ' ')) == words
  {
    if |words| == 1 {
      var w := words[0];
      WordLengthOfWord(w, []);
      assert w + [] == w;
      assert w[|w|..] == [];
    } else if |words| > 1 {
      var w := words[0];
      var tail := Join(words[1..], ' ');
      var s := w + ([' '] + tail);
      assert Join(words, ' ') == s;
      WordLengthOfWord(w, [' '] + tail);
      assert s[..|w|] == w;
      assert s[|w|..] == [' '] + tail;
      assert ([' '] + tail)[1..] == tail;
      SplitWhitespaceOfJoin(words[1..]);
    }
  }

  /** `str::trim_start` with the `White_Space` property. */
  function TrimStart(s: string): (r: string)
    ensures |r| <= |s| && r == s[|s| - |r|..]
    ensures AllWhitespace(s[..|s| - |r|])
    ensures r == [] || !IsWhitespace(r[0])
  {
    if s != [] && IsWhitespace(s[0]) then
      var r := TrimStart(s[1..]);
      assert s[..|s| - |r|] == [s[0]] + s[1..][..|s| - 1 - |r|];
      r
    else s
  }

  /** `str::trim_end` with the `White_Space` property. */
  function TrimEnd(s: string): (r: string)
    ensures |r| <= |s| && r == s[..|r|]
    ensures AllWhitespace(s[|r|..])
    ensures r == [] || !IsWhitespace(r[|r| - 1])
  {
    if s != [] && IsWhitespace(s[|s| - 1]) then
      var r := TrimEnd(s[..|s| - 1]);
      assert s[|r|..] == s[..|s| - 1][|r|..] + [s[|s| - 1]];
      r
    else s
  }

  /** `str::trim`. */
  function Trim(s: string): (r: string)
    ensures r == [] || (!IsWhitespace(r[0]) && !IsWhitespace(r[|r| - 1]))
  {
    TrimEnd(TrimStart(s))
  }

  /** Trimming a string that has no whitespace leaves it unchanged. */
  lemma TrimNoWhitespace(s: string)
    requires NoWhitespace(s)
    ensures Trim(s) == s
  {
    if s != [] {
      assert !IsWhitespace(s[0]);
      assert TrimStart(s) == s;
      assert !IsWhitespace(s[|s| - 1]);
    }
  }

  // ---------------------------------------------------------------------
  // `split(sep)` and `join(sep)`
  // ---------------------------------------------------------------------

  /** Length of the longest prefix of `s` without `sep`. */
  function FieldLength(s: string, sep: char): (k: nat)
    ensures k <= |s| && sep !in s[..k]
    ensures k < |s| ==> s[k] == sep
  {
    if s == [] || s[0] == sep then 0
    else
      var k := 1 + FieldLength(s[1..], sep);
      assert s[..k] == [s[0]] + s[1..][..k - 1];
      k
  }

  /** `str::split` on one character: always at least one field, and an
      empty string gives one empty field. */
  function Split(s: string, sep: char): (parts: seq<string>)
    ensures |parts| >= 1
    ensures forall i | 0 <= i < |parts| :: sep !in parts[i]
    decreases |s|
  {
    var k := FieldLength(s, sep);
    if k == |s| then [s] else [s[..k]] + Split(s[k + 1..], sep)
  }

  /** `[String]::join` with a one-character separator. */
  function Join(parts: seq<string>, sep: char): string {
    if |parts| == 0 then []
    else if |parts| == 1 then parts[0]
    else parts[0] + [sep] + Join(parts[1..], sep)
  }

  lemma {:induction false} FieldLengthOfField(f: string, sep: char, rest: string)
    requires sep !in f
    requires rest == [] || rest[0] == sep
    ensures FieldLength(f + rest, sep) == |f|
  {
    if f != [] {
      assert (f + rest)[1..] == f[1..] + rest;
      FieldLengthOfField(f[1..], sep, rest);
    } else {
      assert f + rest == rest;
    }
  }

  /** Splitting a joined list gives the list back, when no part holds the
      separator. */
  lemma {:induction false} SplitOfJoin(parts: seq<string>, sep: char)
    requires |parts| >= 1
    requires forall i | 0 <= i < |parts| :: sep !in parts[i]
    ensures Split(Join(parts, sep), sep) == parts
  {
    var f := parts[0];
    if |parts| == 1 {
      FieldLengthOfField(f, sep, []);
      assert f + [] == f;
    } else {
      var tail := Join(parts[1..], sep);
      var s := f + ([sep] + tail);
      assert Join(parts, sep) == s;
      FieldLengthOfField(f, sep, [sep] + tail);
      assert s[..|f|] == f;
      assert s[|f| + 1..] == tail;
      SplitOfJoin(parts[1..], sep);
    }
  }

  /** Joining the fields of a split gives the string back. */
  lemma {:induction false} JoinOfSplit(s: string, sep: char)
    ensures Join(Split(s, sep), sep) == s
    decreases |s|
  {
    var k := FieldLength(s, sep);
    if k < |s| {
      JoinOfSplit(s[k + 1..], sep);
      var tail := Split(s[k + 1..], sep);
      assert Split(s, sep) == [s[..k]] + tail;
      assert ([s[..k]] + tail)[1..] == tail;
      assert s == s[..k] + [sep] + s[k + 1..];
    }
  }

  /** There is one field more than there are separators. */
  lemma {:induction false} SplitCount(s: string, sep: char)
    ensures |Split(s, sep)| == multiset(s)[sep] + 1
    decreases |s|
  {
    var k := FieldLength(s, sep);
    assert multiset(s[..k])[sep] == 0;
    if k == |s| {
      assert s[..k] == s;
    } else {
      SplitCount(s[k + 1..], sep);
      assert s == s[..k] + [sep] + s[k + 1..];
    }
  }

  // ---------------------------------------------------------------------
  // Orders on strings
  // ---------------------------------------------------------------------

  /** Lexicographic order on code points (= on UTF-8 bytes). */
  predicate LexLe(a: string, b: string)
    decreases |a|
  {
    a == [] || (b != [] && (a[0] < b[0] || (a[0] == b[0] && LexLe(a[1..], b[1..]))))
  }

  lemma {:induction false} LexLeTotal(a: string, b: string)
    ensures LexLe(a, b) || LexLe(b, a)
    decreases |a|
  {
    if a != [] && b != [] && a[0] == b[0] {
      LexLeTotal(a[1..], b[1..]);
    }
  }

  lemma {:induction false} LexLeTransitive(a: string, b: string, c: string)
    requires LexLe(a, b) && LexLe(b, c)
    ensures LexLe(a, c)
    decreases |a|
  {
    if a != [] && a[0] == b[0] && b[0] == c[0] {
      LexLeTransitive(a[1..], b[1..], c[1..]);
    }
  }

  lemma {:induction false} LexLeAntisymmetric(a: string, b: string)
    requires LexLe(a, b) && LexLe(b, a)
    ensures a == b
    decreases |a|
  {
    if a != [] {
      LexLeAntisymmetric(a[1..], b[1..]);
      assert a == [a[0]] + a[1..] && b == [b[0]] + b[1..];
    }
  }

  /** SQLite's NOCASE collation: ASCII upper case folded to lower case,
      every other character left as it is. */
  function FoldAscii(c: char): (r: char)
    ensures ('A' <= c <= 'Z') == (r != c)
  {
    if 'A' <= c <= 'Z' then (c as int + 32) as char else c
  }

  function FoldAsciiString(s: string): (r: string)
    ensures |r| == |s|
    ensures forall i | 0 <= i < |s| :: r[i] == FoldAscii(s[i])
  {
    seq(|s|, i requires 0 <= i < |s| => FoldAscii(s[i]))
  }

  predicate NoCaseLe(a: string, b: string) {
    LexLe(FoldAsciiString(a), FoldAsciiString(b))
  }
}
