/**
 * The pieces of Rust's standard library that the core relies on, stated over
 * `string` (a sequence of `char`): the `u8` type and its `FromStr` parser,
 * zero-padded decimal formatting (`{:02}`), `str::split` on a set of
 * characters, `str::lines`, `str::split_once`, `str::contains` and
 * `char::is_alphabetic`.
 */
module Text {
  import opened Wrappers

  /** Rust's `u8`: an 8-bit unsigned integer. */
  newtype u8 = x: int | 0 <= x < 256

  // ---------------------------------------------------------------------------
  // Decimal digits

  predicate IsDigit(c: char) {
    '0' <= c <= '9'
  }

  predicate AllDigits(s: string) {
    forall i :: 0 <= i < |s| ==> IsDigit(s[i])
  }

  function DigitValue(c: char): nat
    requires IsDigit(c)
  {
    c as int - '0' as int
  }

  function DigitChar(d: nat): (c: char)
    requires d < 10
    ensures IsDigit(c) && DigitValue(c) == d
  {
    ('0' as int + d) as char
  }

  /** The value of a string of decimal digits, most significant first. */
  function DigitsValue(s: string): nat
    requires AllDigits(s)
    decreases |s|
  {
    if s == [] then 0 else 10 * DigitsValue(s[..|s| - 1]) + DigitValue(s[|s| - 1])
  }

  /**
   * `u8::from_str`: an optional leading `+`, then one or more decimal digits
   * whose value is at most 255.  Anything else (the empty string, a lone `+`,
   * a `-`, any other character, an overflowing value) is an error.
   */
  function ParseU8(s: string): Option<u8> {
    var digits := if |s| > 0 && s[0] == '+' then s[1..] else s;
    if |digits| == 0 || !AllDigits(digits) then None
    else if DigitsValue(digits) > 255 then None
    else Some(DigitsValue(digits) as u8)
  }

  /** The shortest decimal representation of `n` (no leading zeros). */
  function Decimal(n: nat): string
    decreases n
  {
    if n < 10 then [DigitChar(n)] else Decimal(n / 10) + [DigitChar(n % 10)]
  }

  /**
   * Rust's `{:02}` on an unsigned integer: decimal, zero-padded to at least
   * two digits.  The source writes `{:<02}`; for integers the `0` flag
   * overrides the `<` alignment, so the output is the same.
   */
  function Pad2(n: nat): string {
    if n < 10 then "0" + Decimal(n) else Decimal(n)
  }

  lemma {:induction false} DecimalDigits(n: nat)
    ensures AllDigits(Decimal(n)) && |Decimal(n)| >= 1
    ensures DigitsValue(Decimal(n)) == n
    ensures n >= 10 ==> |Decimal(n)| >= 2
    decreases n
  {
    if n >= 10 {
      DecimalDigits(n / 10);
      var d := Decimal(n);
      assert d[..|d| - 1] == Decimal(n / 10);
    }
  }

  /** Formatting a `u8` with `{:02}` and parsing it back with `u8::from_str` gives the same value. */
  lemma Pad2RoundTrip(n: u8)
    ensures AllDigits(Pad2(n as nat)) && |Pad2(n as nat)| >= 2
    ensures ParseU8(Pad2(n as nat)) == Some(n)
  {
    DecimalDigits(n as nat);
    var p := Pad2(n as nat);
    if n < 10 {
      assert p[..|p| - 1] == "0";
      assert DigitsValue("0") == 0 by {
        assert "0"[..0] == [];
      }
    }
  }

  // ---------------------------------------------------------------------------
  // Splitting

  /**
   * `str::split` with a character pattern: the pieces between occurrences of
   * any character of `seps`.  There is always at least one piece, and the
   * empty string gives one empty piece.
   */
  function Split(s: string, seps: set<char>): (parts: seq<string>)
    ensures |parts| >= 1
    decreases |s|
  {
    if s == [] then [""]
    else
      var rest := Split(s[1..], seps);
      if s[0] in seps then [""] + rest
      else [[s[0]] + rest[0]] + rest[1..]
  }

  predicate Avoids(s: string, seps: set<char>) {
    forall j :: 0 <= j < |s| ==> s[j] !in seps
  }

  lemma AvoidsConcat(a: string, b: string, seps: set<char>)
    requires Avoids(a, seps) && Avoids(b, seps)
    ensures Avoids(a + b, seps)
  {
    forall j | 0 <= j < |a + b|
      ensures (a + b)[j] !in seps
    {
      if j >= |a| {
        assert (a + b)[j] == b[j - |a|];
      }
    }
  }

  /** A string without separators is a single piece. */
  lemma {:induction false} SplitNone(a: string, seps: set<char>)
    requires Avoids(a, seps)
    ensures Split(a, seps) == [a]
    decreases |a|
  {
    if a != [] {
      SplitNone(a[1..], seps);
      assert [a[0]] + a[1..] == a;
    }
  }

  /** A separator-free prefix followed by a separator is the first piece. */
  lemma {:induction false} SplitAt(a: string, c: char, b: string, seps: set<char>)
    requires Avoids(a, seps) && c in seps
    ensures Split(a + [c] + b, seps) == [a] + Split(b, seps)
    decreases |a|
  {
    var s := a + [c] + b;
    if a == [] {
      assert s[1..] == b;
    } else {
      assert s[1..] == a[1..] + [c] + b;
      SplitAt(a[1..], c, b, seps);
      assert [a[0]] + a[1..] == a;
    }
  }

  /** The pieces with `sep` between each two: the inverse of `Split` on separator-free pieces. */
  function Join(pieces: seq<string>, sep: char): string
    requires |pieces| >= 1
    decreases |pieces|
  {
    if |pieces| == 1 then pieces[0] else pieces[0] + [sep] + Join(pieces[1..], sep)
  }

  /** Splitting joined separator-free pieces at any set of separators containing the joiner gives the pieces back. */
  lemma {:induction false} SplitJoin(pieces: seq<string>, sep: char, seps: set<char>)
    requires |pieces| >= 1 && sep in seps
    requires forall i :: 0 <= i < |pieces| ==> Avoids(pieces[i], seps)
    ensures Split(Join(pieces, sep), seps) == pieces
    decreases |pieces|
  {
    if |pieces| == 1 {
      SplitNone(pieces[0], seps);
    } else {
      SplitJoin(pieces[1..], sep, seps);
      SplitAt(pieces[0], sep, Join(pieces[1..], sep), seps);
      assert [pieces[0]] + pieces[1..] == pieces;
    }
  }

  /** Joining separator-free pieces with a character outside the separators gives a separator-free string. */
  lemma {:induction false} JoinAvoids(pieces: seq<string>, sep: char, seps: set<char>)
    requires |pieces| >= 1 && sep !in seps
    requires forall i :: 0 <= i < |pieces| ==> Avoids(pieces[i], seps)
    ensures Avoids(Join(pieces, sep), seps)
    decreases |pieces|
  {
    if |pieces| > 1 {
      JoinAvoids(pieces[1..], sep, seps);
      var rest := Join(pieces[1..], sep);
      var s := pieces[0] + [sep] + rest;
      forall j | 0 <= j < |s|
        ensures s[j] !in seps
      {
        if j > |pieces[0]| {
          assert s[j] == rest[j - |pieces[0]| - 1];
        }
      }
    }
  }

  /** A joined string starts with its first piece. */
  lemma {:induction false} JoinStarts(pieces: seq<string>, sep: char)
    requires |pieces| >= 1
    ensures pieces[0] <= Join(pieces, sep)
    decreases |pieces|
  {
  }

  /** The pieces, each followed by a newline. */
  function Terminated(rows: seq<string>): string
    decreases |rows|
  {
    if rows == [] then "" else rows[0] + "\n" + Terminated(rows[1..])
  }

  lemma {:induction false} SplitTerminated(rows: seq<string>)
    requires forall i :: 0 <= i < |rows| ==> Avoids(rows[i], {'\n'})
    ensures Split(Terminated(rows), {'\n'}) == rows + [""]
    decreases |rows|
  {
    if rows == [] {
    } else {
      SplitTerminated(rows[1..]);
      SplitAt(rows[0], '\n', Terminated(rows[1..]), {'\n'});
      assert rows[0] + "\n" + Terminated(rows[1..]) == rows[0] + ['\n'] + Terminated(rows[1..]);
      assert [rows[0]] + (rows[1..] + [""]) == rows + [""];
    }
  }

  /** A line without its `\r` of a `\r\n` ending. */
  function StripCr(line: string): string {
    if |line| > 0 && line[|line| - 1] == '\r' then line[..|line| - 1] else line
  }

  /**
   * `str::lines`: the text split at `\n` or `\r\n`; a final line ending does
   * not start an empty line, and a last line without an ending keeps its
   * characters as they are.
   */
  function Lines(s: string): seq<string> {
    var parts := Split(s, {'\n'});
    var ended := parts[..|parts| - 1];
    var last := parts[|parts| - 1];
    StripEach(ended) + (if last == "" then [] else [last])
  }

  function StripEach(lines: seq<string>): (r: seq<string>)
    ensures |r| == |lines|
    decreases |lines|
  {
    if lines == [] then [] else [StripCr(lines[0])] + StripEach(lines[1..])
  }

  lemma {:induction false} StripEachUnchanged(lines: seq<string>)
    requires forall i :: 0 <= i < |lines| ==> StripCr(lines[i]) == lines[i]
    ensures StripEach(lines) == lines
    decreases |lines|
  {
    if lines != [] {
      StripEachUnchanged(lines[1..]);
    }
  }

  /** A line without a carriage return is its own stripped form. */
  lemma StripCrAvoids(line: string)
    requires Avoids(line, {'\r'})
    ensures StripCr(line) == line
  {
    if |line| > 0 {
      assert line[|line| - 1] !in {'\r'};
    }
  }

  /** Newline-terminated rows that do not end in `\r` read back as the same rows. */
  lemma LinesTerminated(rows: seq<string>)
    requires forall i :: 0 <= i < |rows| ==> Avoids(rows[i], {'\n'})
    requires forall i :: 0 <= i < |rows| ==> StripCr(rows[i]) == rows[i]
    ensures Lines(Terminated(rows)) == rows
  {
    SplitTerminated(rows);
    var parts := Split(Terminated(rows), {'\n'});
    var ended := parts[..|parts| - 1];
    assert ended == rows;
    assert parts[|parts| - 1] == "";
    StripEachUnchanged(rows);
  }

  /** `str::split_once` with a character: the text before and after its first occurrence. */
  function SplitOnce(s: string, c: char): (r: Option<(string, string)>)
    ensures r.None? <==> c !in s
    ensures r.Some? ==> r.value.0 + [c] + r.value.1 == s && c !in r.value.0
    decreases |s|
  {
    if s == [] then None
    else if s[0] == c then Some(([], s[1..]))
    else
      match SplitOnce(s[1..], c)
      case None => None
      case Some(kv) => Some(([s[0]] + kv.0, kv.1))
  }

  // ---------------------------------------------------------------------------
  // Searching and classifying

  /** `str::contains` with a string pattern. */
  predicate Contains(s: string, pattern: string)
    decreases |s|
  {
    pattern <= s || (|s| > 0 && Contains(s[1..], pattern))
  }

  lemma {:induction false} ContainsInside(before: string, pattern: string, after: string)
    ensures Contains(before + pattern + after, pattern)
    decreases |before|
  {
    var s := before + pattern + after;
    if before == [] {
      assert s[..|pattern|] == pattern;
    } else {
      assert s[1..] == before[1..] + pattern + after;
      ContainsInside(before[1..], pattern, after);
    }
  }

  /** `char::is_alphabetic`, restricted to ASCII letters. */
  predicate IsAlphabetic(c: char) {
    'a' <= c <= 'z' || 'A' <= c <= 'Z'
  }
}
