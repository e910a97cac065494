/** String helpers with the semantics of the two runtimes: JavaScript's
    `String.prototype.trim`, Python's `str.strip`, `str.lower`, `str.split`,
    `Array.prototype.join`, and decimal rendering of numbers. */
module Text {

  /** Whose definition of whitespace a trim uses. */
  datatype Trimmer = JavaScript | Python

  /** Whitespace that JavaScript's `trim` and Python's `strip` agree on: the
      ASCII controls tab to carriage return, the Unicode space separators and
      the line and paragraph separators. */
  predicate IsCommonSpace(c: char) {
    || c == ' ' || c == '\t' || c == '\n' || c == '\r' || c == '\U{000B}' || c == '\U{000C}'
    || c == '\U{00A0}' || c == '\U{1680}' || ('\U{2000}' <= c <= '\U{200A}')
    || c == '\U{2028}' || c == '\U{2029}' || c == '\U{202F}' || c == '\U{205F}' || c == '\U{3000}'
  }

  /** JavaScript also trims the byte-order mark; Python also strips the
      information separators U+001C..U+001F and NEXT LINE (U+0085). */
  predicate IsSpace(t: Trimmer, c: char) {
    || IsCommonSpace(c)
    || (t == JavaScript && c == '\U{FEFF}')
    || (t == Python && (('\U{001C}' <= c <= '\U{001F}') || c == '\U{0085}'))
  }

  predicate AllSpace(t: Trimmer, s: string) {
    forall k :: 0 <= k < |s| ==> IsSpace(t, s[k])
  }

  /** Number of whitespace characters that open `s`. */
  function LeadingSpace(t: Trimmer, s: string): (n: nat)
    ensures n <= |s|
    ensures forall k :: 0 <= k < n ==> IsSpace(t, s[k])
    ensures n < |s| ==> !IsSpace(t, s[n])
  {
    if |s| > 0 && IsSpace(t, s[0]) then 1 + LeadingSpace(t, s[1..]) else 0
  }

  /** Number of whitespace characters that close `s`. */
  function TrailingSpace(t: Trimmer, s: string): (n: nat)
    ensures n <= |s|
    ensures forall k :: |s| - n <= k < |s| ==> IsSpace(t, s[k])
    ensures n < |s| ==> !IsSpace(t, s[|s| - 1 - n])
  {
    if |s| > 0 && IsSpace(t, s[|s| - 1]) then 1 + TrailingSpace(t, s[..|s| - 1]) else 0
  }

  /** `s.trim()` (JavaScript) or `s.strip()` (Python): `s` without its
      leading and trailing whitespace. */
  function Trim(t: Trimmer, s: string): (r: string)
    ensures |r| <= |s|
    ensures r == "" <==> AllSpace(t, s)
    ensures r != "" ==> !IsSpace(t, r[0]) && !IsSpace(t, r[|r| - 1])
    ensures forall c :: c in r ==> c in s
  {
    var rest := s[LeadingSpace(t, s)..];
    rest[..|rest| - TrailingSpace(t, rest)]
  }

  /** The trimmed text is a contiguous piece of the input, and everything cut
      from either end is whitespace. */
  lemma TrimIsSlice(t: Trimmer, s: string)
    ensures exists i, j :: 0 <= i <= j <= |s| && Trim(t, s) == s[i..j] && AllSpace(t, s[..i]) && AllSpace(t, s[j..])
  {
    var i := LeadingSpace(t, s);
    var rest := s[i..];
    var n := TrailingSpace(t, rest);
    var j := i + |rest| - n;
    assert Trim(t, s) == s[i..j] by {
      assert rest[..|rest| - n] == s[i..j];
    }
    assert AllSpace(t, s[..i]) by {
      forall k | 0 <= k < i ensures IsSpace(t, s[..i][k]) {
        assert s[..i][k] == s[k];
      }
    }
    assert AllSpace(t, s[j..]) by {
      forall k | 0 <= k < |s| - j ensures IsSpace(t, s[j..][k]) {
        assert s[j..][k] == rest[|rest| - n + k];
      }
    }
  }

  /** Trimming removes whitespace only: a character that is not whitespace
      occurs in the trimmed text exactly when it occurs in the input. */
  lemma TrimKeeps(t: Trimmer, s: string, c: char)
    requires !IsSpace(t, c)
    ensures c in Trim(t, s) <==> c in s
  {
    var r := Trim(t, s);
    TrimIsSlice(t, s);
    var i, j :| 0 <= i <= j <= |s| && r == s[i..j] && AllSpace(t, s[..i]) && AllSpace(t, s[j..]);
    if c in s {
      var k :| 0 <= k < |s| && s[k] == c;
      if i <= k < j {
        assert r[k - i] == c;
      }
    }
  }

  /** A string that neither opens nor closes with whitespace is its own trim. */
  lemma TrimOfTrimmed(t: Trimmer, s: string)
    requires s != "" ==> !IsSpace(t, s[0]) && !IsSpace(t, s[|s| - 1])
    ensures Trim(t, s) == s
  {
    if s != "" {
      assert LeadingSpace(t, s) == 0;
      assert s[0..] == s;
      assert TrailingSpace(t, s) == 0;
    }
  }

  lemma TrimIdempotent(t: Trimmer, s: string)
    ensures Trim(t, Trim(t, s)) == Trim(t, s)
  {
    TrimOfTrimmed(t, Trim(t, s));
  }

  /** Python's `str.lower` on one character, for the ASCII letters. */
  function LowerChar(c: char): (l: char)
    ensures 'A' <= c <= 'Z' ==> l as int == c as int + 32
    ensures !('A' <= c <= 'Z') ==> l == c
  {
    if 'A' <= c <= 'Z' then (c as int + 32) as char else c
  }

  function UpperChar(c: char): (u: char)
    requires 'a' <= c <= 'z'
    ensures 'A' <= u <= 'Z' && LowerChar(u) == c
  {
    (c as int - 32) as char
  }

  /** `s.lower()`, with the ASCII letters mapped (see README for why this is
      exact for the comparisons the source makes). */
  function Lower(s: string): (r: string)
    ensures |r| == |s|
    ensures forall k :: 0 <= k < |s| ==> r[k] == LowerChar(s[k])
  {
    seq(|s|, k requires 0 <= k < |s| => LowerChar(s[k]))
  }

  /** `s.lower() == w` for a lower-case ASCII word `w` holds exactly when
      `s` spells `w` letter by letter in either case. */
  lemma LowerEqualsWord(s: string, w: string)
    requires forall k :: 0 <= k < |w| ==> 'a' <= w[k] <= 'z'
    ensures Lower(s) == w <==>
              |s| == |w| && forall k :: 0 <= k < |s| ==> s[k] == w[k] || s[k] == UpperChar(w[k])
  {
    if Lower(s) == w {
      forall k | 0 <= k < |s| ensures s[k] == w[k] || s[k] == UpperChar(w[k]) {
        assert LowerChar(s[k]) == w[k];
        if 'A' <= s[k] <= 'Z' {
          assert s[k] as int == w[k] as int - 32;
        }
      }
    }
    if |s| == |w| && forall k :: 0 <= k < |s| ==> s[k] == w[k] || s[k] == UpperChar(w[k]) {
      forall k | 0 <= k < |s| ensures Lower(s)[k] == w[k] {
      }
    }
  }

  /** `parts.join(sep)` in JavaScript, `sep.join(parts)` in Python. */
  function Join(parts: seq<string>, sep: string): (r: string)
    ensures parts == [] ==> r == ""
    ensures |parts| == 1 ==> r == parts[0]
  {
    if |parts| == 0 then ""
    else if |parts| == 1 then parts[0]
    else parts[0] + sep + Join(parts[1..], sep)
  }

  /** Python's `s.split(sep)` for a one-character separator: the segments
      between separators, always at least one. */
  function Split(s: string, sep: char): (parts: seq<string>)
    ensures |parts| >= 1
  {
    if s == [] then [""]
    else
      var rest := Split(s[1..], sep);
      if s[0] == sep then [""] + rest
      else [[s[0]] + rest[0]] + rest[1..]
  }

  /** No segment holds the separator. */
  lemma {:induction false} SplitSegmentsFree(s: string, sep: char)
    ensures forall p :: p in Split(s, sep) ==> sep !in p
  {
    if s != [] {
      var rest := Split(s[1..], sep);
      SplitSegmentsFree(s[1..], sep);
      if s[0] != sep {
        assert rest[0] in rest;
        assert forall p :: p in rest[1..] ==> p in rest;
      }
    }
  }

  /** Every character of every segment comes from the input. */
  lemma {:induction false} SplitKeepsChars(s: string, sep: char)
    ensures forall p, c :: p in Split(s, sep) && c in p ==> c in s
  {
    if s != [] {
      var rest := Split(s[1..], sep);
      SplitKeepsChars(s[1..], sep);
      assert forall c :: c in s[1..] ==> c in s;
      if s[0] != sep {
        assert forall c :: c in [s[0]] + rest[0] ==> c == s[0] || c in rest[0];
        assert rest[0] in rest;
        assert forall p :: p in rest[1..] ==> p in rest;
      }
    }
  }

  /** Joining the segments with the separator gives the input back. */
  lemma {:induction false} JoinSplit(s: string, sep: char)
    ensures Join(Split(s, sep), [sep]) == s
  {
    if s != [] {
      var rest := Split(s[1..], sep);
      JoinSplit(s[1..], sep);
      if s[0] == sep {
        assert Split(s, sep) == [""] + rest;
        assert ([""] + rest)[1..] == rest;
      } else {
        var parts := Split(s, sep);
        assert parts[1..] == rest[1..];
        if |rest| > 1 {
          assert Join(rest, [sep]) == rest[0] + [sep] + Join(rest[1..], [sep]);
        }
      }
    }
  }

  lemma {:induction false} SplitAfterWord(w: string, s: string, sep: char)
    requires sep !in w
    ensures Split(w + s, sep) == [w + Split(s, sep)[0]] + Split(s, sep)[1..]
  {
    if w != [] {
      SplitAfterWord(w[1..], s, sep);
      assert (w + s)[1..] == w[1..] + s;
      assert w[0] != sep;
      assert [w[0]] + (w[1..] + Split(s, sep)[0]) == w + Split(s, sep)[0];
    } else {
      var parts := Split(s, sep);
      assert w + s == s && w + parts[0] == parts[0];
      assert parts == [parts[0]] + parts[1..];
    }
  }

  /** One step of `Split`: a leading character either opens a new segment (a
      separator) or joins the first segment of the rest. */
  lemma SplitCons(c: char, s: string, sep: char)
    ensures Split([c] + s, sep) ==
      if c == sep then [""] + Split(s, sep) else [[c] + Split(s, sep)[0]] + Split(s, sep)[1..]
  {
    assert ([c] + s)[0] == c && ([c] + s)[1..] == s;
  }

  /** Prepending a non-separator to a list of segments extends its first
      segment, also when more segments follow. */
  lemma MergeFirst(c: char, left: seq<string>, right: seq<string>, merged: seq<string>, first: seq<string>)
    requires |left| >= 1
    requires merged == [[c] + (left + right)[0]] + (left + right)[1..]
    requires first == [[c] + left[0]] + left[1..]
    ensures merged == first + right
  {
    assert (left + right)[0] == left[0];
    assert (left + right)[1..] == left[1..] + right;
  }

  /** The inductive step of `SplitConcat`: one more leading character. */
  lemma SplitConcatCons(c: char, tail: string, b: string, sep: char)
    requires Split(tail + [sep] + b, sep) == Split(tail, sep) + Split(b, sep)
    ensures Split([c] + tail + [sep] + b, sep) == Split([c] + tail, sep) + Split(b, sep)
  {
    var x := tail + [sep] + b;
    var left, right := Split(tail, sep), Split(b, sep);
    assert [c] + tail + [sep] + b == [c] + x;
    SplitCons(c, x, sep);
    SplitCons(c, tail, sep);
    if c == sep {
      assert [""] + (left + right) == ([""] + left) + right;
    } else {
      MergeFirst(c, left, right, Split([c] + x, sep), Split([c] + tail, sep));
    }
  }

  /** A separator splits the text in two: the segments of both halves, in
      order, with none merged or lost. */
  lemma {:induction false} SplitConcat(a: string, b: string, sep: char)
    ensures Split(a + [sep] + b, sep) == Split(a, sep) + Split(b, sep)
  {
    if a == [] {
      assert a + [sep] + b == [sep] + b;
      SplitCons(sep, b, sep);
    } else {
      SplitConcat(a[1..], b, sep);
      SplitConcatCons(a[0], a[1..], b, sep);
      assert a == [a[0]] + a[1..];
    }
  }

  /** Splitting a join of separator-free segments gives the segments back. */
  lemma {:induction false} SplitJoin(parts: seq<string>, sep: char)
    requires |parts| >= 1
    requires forall p :: p in parts ==> sep !in p
    ensures Split(Join(parts, [sep]), sep) == parts
  {
    if |parts| == 1 {
      SplitAfterWord(parts[0], "", sep);
      assert parts[0] + "" == parts[0];
    } else {
      var tail := Join(parts[1..], [sep]);
      SplitJoin(parts[1..], sep);
      assert Join(parts, [sep]) == parts[0] + ([sep] + tail);
      SplitAfterWord(parts[0], [sep] + tail, sep);
      assert ([sep] + tail)[1..] == tail;
      assert Split([sep] + tail, sep) == [""] + parts[1..];
      assert parts[0] + "" == parts[0];
    }
  }

  function DigitChar(d: nat): (c: char)
    requires d < 10
    ensures '0' <= c <= '9'
  {
    ['0', '1', '2', '3', '4', '5', '6', '7', '8', '9'][d]
  }

  function DigitValue(c: char): (d: nat)
    requires '0' <= c <= '9'
    ensures d < 10 && DigitChar(d) == c
  {
    c as int - '0' as int
  }

  predicate IsDigits(s: string) {
    s != [] && forall k :: 0 <= k < |s| ==> '0' <= s[k] <= '9'
  }

  /** Decimal rendering of a natural number, as Python's f-strings and
      JavaScript's `toString` give it: digits only, no leading zero. */
  function NatToDecimal(n: nat): (s: string)
    ensures IsDigits(s)
    ensures |s| > 1 ==> s[0] != '0'
  {
    if n < 10 then [DigitChar(n)] else NatToDecimal(n / 10) + [DigitChar(n % 10)]
  }

  /** Reads a string of decimal digits. */
  function ParseDecimal(s: string): nat
    requires IsDigits(s)
  {
    if |s| == 1 then DigitValue(s[0])
    else 10 * ParseDecimal(s[..|s| - 1]) + DigitValue(s[|s| - 1])
  }

  lemma {:induction false} DecimalRoundTrip(n: nat)
    ensures ParseDecimal(NatToDecimal(n)) == n
  {
    if n >= 10 {
      DecimalRoundTrip(n / 10);
      var s := NatToDecimal(n);
      assert s[..|s| - 1] == NatToDecimal(n / 10);
    }
  }

  lemma DecimalInjective(m: nat, n: nat)
    requires NatToDecimal(m) == NatToDecimal(n)
    ensures m == n
  {
    DecimalRoundTrip(m);
    DecimalRoundTrip(n);
  }

  /** Decimal rendering of an integer, with a leading '-' when negative
      (`Number.prototype.toString` for integral values). */
  function IntToDecimal(i: int): (s: string)
    ensures i >= 0 ==> s == NatToDecimal(i)
    ensures i < 0 ==> s == "-" + NatToDecimal(-i)
  {
    if i >= 0 then NatToDecimal(i) else "-" + NatToDecimal(-i)
  }
}
