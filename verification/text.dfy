/** The JavaScript string operations the components rely on: `trim`, `split(' ')`, `join`,
    decimal `toString` of a non-negative integer, and `padStart`. */
module Text {

  type String = seq<char>

  /** ECMAScript WhiteSpace and LineTerminator code points: exactly what `String.prototype.trim` strips. */
  predicate IsWhitespace(c: char)
  {
    || c == ' ' || c == '\t' || c == '\n' || c == '\r'
    || c == '\U{000B}' || c == '\U{000C}' || c == '\U{00A0}' || c == '\U{FEFF}'
    || c == '\U{1680}' || ('\U{2000}' <= c <= '\U{200A}')
    || c == '\U{2028}' || c == '\U{2029}' || c == '\U{202F}' || c == '\U{205F}' || c == '\U{3000}'
  }

  predicate AllWhitespace(s: String)
  {
    forall k :: 0 <= k < |s| ==> IsWhitespace(s[k])
  }

  /** The end of the whitespace run of `s` that starts at `i`. */
  function SkipForward(s: String, i: nat): (n: nat)
    requires i <= |s|
    ensures i <= n <= |s|
    ensures forall k :: i <= k < n ==> IsWhitespace(s[k])
    ensures n < |s| ==> !IsWhitespace(s[n])
    decreases |s| - i
  {
    if i < |s| && IsWhitespace(s[i]) then SkipForward(s, i + 1) else i
  }

  /** The start of the whitespace run of `s` that ends at `j`, not going below `lo`. */
  function SkipBackward(s: String, lo: nat, j: nat): (m: nat)
    requires lo <= j <= |s|
    ensures lo <= m <= j
    ensures forall k :: m <= k < j ==> IsWhitespace(s[k])
    ensures lo < m ==> !IsWhitespace(s[m - 1])
    decreases j
  {
    if lo < j && IsWhitespace(s[j - 1]) then SkipBackward(s, lo, j - 1) else j
  }

  /** `r` is `s` with a whitespace-only prefix of length `i` and a whitespace-only suffix removed,
      and nothing more could be removed. */
  ghost predicate IsTrimmed(s: String, r: String, i: nat)
  {
    && i + |r| <= |s|
    && r == s[i..i + |r|]
    && (forall k :: 0 <= k < i ==> IsWhitespace(s[k]))
    && (forall k :: i + |r| <= k < |s| ==> IsWhitespace(s[k]))
    && (r != [] ==> !IsWhitespace(r[0]) && !IsWhitespace(r[|r| - 1]))
  }

  /** `String.prototype.trim`: the leading whitespace run is skipped, then the trailing one. */
  function Trim(s: String): (r: String)
    ensures exists i :: IsTrimmed(s, r, i)
    ensures r == [] <==> AllWhitespace(s)
  {
    var i := SkipForward(s, 0);
    var j := SkipBackward(s, i, |s|);
    var r := s[i..j];
    assert IsTrimmed(s, r, i);
    assert r != [] ==> !AllWhitespace(s) by {
      if r != [] {
        assert !IsWhitespace(s[i]);
      }
    }
    r
  }

  /** Trimming an already trimmed string changes nothing. */
  lemma TrimIdempotent(s: String)
    ensures Trim(Trim(s)) == Trim(s)
  {
    var r := Trim(s);
    var i :| IsTrimmed(s, r, i);
    if r != [] {
      assert SkipForward(r, 0) == 0;
      assert SkipBackward(r, 0, |r|) == |r|;
      assert r[0..|r|] == r;
    }
  }

  /** `s.split(sep)` for a one-character separator: the pieces between separators, always at
      least one (the empty string splits into one empty piece). */
  function SplitOn(s: String, sep: char): (r: seq<String>)
    ensures |r| >= 1
    ensures forall k :: 0 <= k < |r| ==> sep !in r[k]
  {
    if |s| == 0 then [[]]
    else if s[0] == sep then [[]] + SplitOn(s[1..], sep)
    else
      var rest := SplitOn(s[1..], sep);
      [[s[0]] + rest[0]] + rest[1..]
  }

  /** `ws.join(sep)` for a one-character separator. */
  function Join(ws: seq<String>, sep: char): String
  {
    if |ws| == 0 then []
    else if |ws| == 1 then ws[0]
    else ws[0] + [sep] + Join(ws[1..], sep)
  }

  lemma JoinConsHead(c: char, ws: seq<String>, sep: char)
    requires |ws| >= 1
    ensures Join([[c] + ws[0]] + ws[1..], sep) == [c] + Join(ws, sep)
  {
    var v := [[c] + ws[0]] + ws[1..];
    assert v[1..] == ws[1..];
  }

  /** Splitting and joining again with the same separator gives back the original string. */
  lemma {:induction false} SplitJoin(s: String, sep: char)
    ensures Join(SplitOn(s, sep), sep) == s
  {
    if |s| > 0 {
      SplitJoin(s[1..], sep);
      var rest := SplitOn(s[1..], sep);
      if s[0] == sep {
        var r := [[]] + rest;
        assert r[1..] == rest;
        if |rest| == 1 {
          assert Join(r, sep) == [] + [sep] + rest[0];
        }
        assert s == [s[0]] + s[1..];
      } else {
        JoinConsHead(s[0], rest, sep);
        assert s == [s[0]] + s[1..];
      }
    }
  }

  /** The first piece is empty exactly when the string is empty or starts with the separator. */
  lemma SplitFirstEmpty(s: String, sep: char)
    ensures SplitOn(s, sep)[0] == [] <==> (s == [] || s[0] == sep)
  {
  }

  /** A string without the separator splits into itself alone. */
  lemma {:induction false} SplitNoSeparator(s: String, sep: char)
    requires sep !in s
    ensures SplitOn(s, sep) == [s]
  {
    if |s| > 0 {
      assert sep !in s[1..];
      SplitNoSeparator(s[1..], sep);
      assert s == [s[0]] + s[1..];
    }
  }

  /** Two separator-free strings joined by one separator split back into the two. */
  lemma {:induction false} SplitPair(a: String, b: String, sep: char)
    requires sep !in a && sep !in b
    ensures SplitOn(a + [sep] + b, sep) == [a, b]
  {
    var s := a + [sep] + b;
    if |a| == 0 {
      assert s[1..] == b;
      SplitNoSeparator(b, sep);
    } else {
      assert s[1..] == a[1..] + [sep] + b;
      assert sep !in a[1..];
      SplitPair(a[1..], b, sep);
      assert a == [a[0]] + a[1..];
    }
  }

  /** Adding one word at the end of a non-empty list inserts one separator. */
  lemma {:induction false} JoinSnoc(ws: seq<String>, w: String, sep: char)
    requires |ws| >= 1
    ensures Join(ws + [w], sep) == Join(ws, sep) + [sep] + w
  {
    if |ws| == 1 {
      assert (ws + [w])[1..] == [w];
    } else {
      assert (ws + [w])[1..] == ws[1..] + [w];
      JoinSnoc(ws[1..], w, sep);
    }
  }

  predicate IsDigit(c: char)
  {
    '0' <= c <= '9'
  }

  function DigitChar(d: nat): (c: char)
    requires d < 10
    ensures IsDigit(c)
  {
    (('0' as int) + d) as char
  }

  function DigitValue(c: char): (d: nat)
    requires IsDigit(c)
    ensures d < 10 && DigitChar(d) == c
  {
    (c as int) - ('0' as int)
  }

  /** `n.toString()` for a non-negative integer: decimal digits with no leading zero. */
  function Decimal(n: nat): (r: String)
    ensures |r| >= 1
    ensures forall k :: 0 <= k < |r| ==> IsDigit(r[k])
    ensures |r| > 1 ==> r[0] != '0'
  {
    if n < 10 then [DigitChar(n)] else Decimal(n / 10) + [DigitChar(n % 10)]
  }

  /** Reads a string of decimal digits back as a number. */
  function ParseDecimal(s: String): nat
    requires forall k :: 0 <= k < |s| ==> IsDigit(s[k])
  {
    if |s| == 0 then 0 else ParseDecimal(s[..|s| - 1]) * 10 + DigitValue(s[|s| - 1])
  }

  lemma {:induction false} DecimalRoundTrip(n: nat)
    ensures ParseDecimal(Decimal(n)) == n
  {
    var r := Decimal(n);
    if n >= 10 {
      DecimalRoundTrip(n / 10);
      assert r[..|r| - 1] == Decimal(n / 10);
    }
  }

  /** A digit string without a leading zero is the decimal form of the number it reads as. */
  lemma {:induction false} DecimalOfParse(d: String)
    requires |d| >= 1 && forall k :: 0 <= k < |d| ==> IsDigit(d[k])
    requires |d| > 1 ==> d[0] != '0'
    ensures Decimal(ParseDecimal(d)) == d
    ensures |d| > 1 ==> ParseDecimal(d) >= 10
  {
    var init := d[..|d| - 1];
    var v := DigitValue(d[|d| - 1]);
    if |d| == 1 {
      assert init == [];
    } else {
      assert init[0] == d[0];
      DecimalOfParse(init);
      var q := ParseDecimal(init);
      if |init| == 1 {
        assert init[..0] == [];
        assert DigitChar(q) == init[0];
      }
      var n := q * 10 + v;
      assert n / 10 == q && n % 10 == v;
      assert d == init + [d[|d| - 1]];
    }
  }

  /** `s.padStart(2, '0')`. */
  function PadStart2(s: String): (r: String)
    ensures |r| == if |s| >= 2 then |s| else 2
    ensures r[|r| - |s|..] == s
    ensures forall k :: 0 <= k < |r| - |s| ==> r[k] == '0'
  {
    if |s| >= 2 then s else seq(2 - |s|, _ => '0') + s
  }
}
