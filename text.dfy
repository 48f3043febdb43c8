/**
 * The string operations of the browser that the dashboard's logic relies on,
 * written out over `seq<char>`:
 *  - `toLowerCase` / `toUpperCase`, restricted to the ASCII letters;
 *  - `includes` (substring containment);
 *  - `trim`, with ECMAScript's own set of white-space and line-terminator characters;
 *  - `split` on a one-character separator and `join` with a separator;
 *  - `Number.prototype.toString` and `Number(text)` for integers;
 *  - the code-unit order JavaScript's `<` uses on two strings.
 */
module Text {

  // ---------------------------------------------------------------- case

  function LowerChar(c: char): char {
    if 'A' <= c <= 'Z' then (c as int + 32) as char else c
  }

  function UpperChar(c: char): char {
    if 'a' <= c <= 'z' then (c as int - 32) as char else c
  }

  /** `s.toLowerCase()` on the ASCII letters. */
  function Lower(s: string): string {
    seq(|s|, i requires 0 <= i < |s| => LowerChar(s[i]))
  }

  /** Two characters that agree after lower-casing but differ are letters. */
  lemma LowerCharDiffers(a: char, b: char)
    requires a != b && LowerChar(a) == LowerChar(b)
    ensures ('A' <= a <= 'Z' || 'a' <= a <= 'z') && ('A' <= b <= 'Z' || 'a' <= b <= 'z')
  {
  }

  // ---------------------------------------------------------------- containment

  predicate IsPrefix(p: string, s: string) {
    |p| <= |s| && s[..|p|] == p
  }

  /** `s.includes(t)`. */
  predicate Contains(s: string, t: string)
    decreases |s|
  {
    IsPrefix(t, s) || (s != [] && Contains(s[1..], t))
  }

  /** `t` occurs in `s` starting at offset `i`. */
  predicate OccursAt(s: string, t: string, i: int) {
    0 <= i && i + |t| <= |s| && s[i..i + |t|] == t
  }

  /** `includes` means: `t` occurs in `s` at some offset. */
  lemma {:induction false} ContainsIffOccurs(s: string, t: string)
    ensures Contains(s, t) <==> exists i :: OccursAt(s, t, i)
    decreases |s|
  {
    assert IsPrefix(t, s) <==> OccursAt(s, t, 0);
    if s != [] {
      ContainsIffOccurs(s[1..], t);
      if Contains(s[1..], t) {
        var j :| OccursAt(s[1..], t, j);
        assert s[j + 1..j + 1 + |t|] == s[1..][j..j + |t|];
        assert OccursAt(s, t, j + 1);
      }
      if i :| OccursAt(s, t, i) && i > 0 {
        assert s[1..][i - 1..i - 1 + |t|] == s[i..i + |t|];
        assert OccursAt(s[1..], t, i - 1);
      }
    } else {
      if i :| OccursAt(s, t, i) {
        assert i == 0;
      }
    }
  }

  /** Every string includes the empty string. */
  lemma ContainsEmpty(s: string)
    ensures Contains(s, "")
  {
  }

  // ---------------------------------------------------------------- trim

  /** ECMAScript WhiteSpace and LineTerminator code points, which `trim` removes. */
  predicate IsWhitespace(c: char) {
    var n := c as int;
    n == 0x09 || n == 0x0A || n == 0x0B || n == 0x0C || n == 0x0D || n == 0x20
    || n == 0xA0 || n == 0x1680 || (0x2000 <= n <= 0x200A) || n == 0x2028
    || n == 0x2029 || n == 0x202F || n == 0x205F || n == 0x3000 || n == 0xFEFF
  }

  /** Neither the first nor the last character is white space. */
  predicate Trimmed(s: string) {
    s == [] || (!IsWhitespace(s[0]) && !IsWhitespace(s[|s| - 1]))
  }

  function TrimStart(s: string): string
    decreases |s|
  {
    if s != [] && IsWhitespace(s[0]) then TrimStart(s[1..]) else s
  }

  function TrimEnd(s: string): string
    decreases |s|
  {
    if s != [] && IsWhitespace(s[|s| - 1]) then TrimEnd(s[..|s| - 1]) else s
  }

  /** `s.trim()`. */
  function Trim(s: string): string {
    TrimEnd(TrimStart(s))
  }

  lemma {:induction false} TrimStartFirst(s: string)
    ensures TrimStart(s) == [] || !IsWhitespace(TrimStart(s)[0])
    decreases |s|
  {
    if s != [] && IsWhitespace(s[0]) {
      TrimStartFirst(s[1..]);
    }
  }

  lemma {:induction false} TrimEndShape(s: string)
    ensures |TrimEnd(s)| <= |s| && TrimEnd(s) == s[..|TrimEnd(s)|]
    ensures TrimEnd(s) == [] || !IsWhitespace(TrimEnd(s)[|TrimEnd(s)| - 1])
    ensures s != [] && !IsWhitespace(s[0]) ==> TrimEnd(s) != []
    decreases |s|
  {
    if s != [] && IsWhitespace(s[|s| - 1]) {
      TrimEndShape(s[..|s| - 1]);
      assert s[..|s| - 1][..|TrimEnd(s)|] == s[..|TrimEnd(s)|];
    }
  }

  /** The result of `trim` has no white space at either end. */
  lemma TrimIsTrimmed(s: string)
    ensures Trimmed(Trim(s))
  {
    TrimStartFirst(s);
    var t := TrimStart(s);
    TrimEndShape(t);
    if TrimEnd(t) != [] {
      assert TrimEnd(t)[0] == t[0];
    }
  }

  /** `trim` leaves a string that is already trimmed unchanged. */
  lemma TrimOfTrimmed(s: string)
    requires Trimmed(s)
    ensures Trim(s) == s
  {
  }

  /** `trim` removes one leading space from a trimmed string. */
  lemma TrimLeadingSpace(s: string)
    requires Trimmed(s)
    ensures Trim(" " + s) == s
  {
    assert (" " + s)[0] == ' ' && (" " + s)[1..] == s;
    assert TrimStart(" " + s) == TrimStart(s);
    assert TrimStart(s) == s;
  }

  // ---------------------------------------------------------------- split and join

  /** Number of occurrences of `c` in `s`. */
  function Count(s: string, c: char): nat
    decreases |s|
  {
    if s == [] then 0 else (if s[0] == c then 1 else 0) + Count(s[1..], c)
  }

  /** `s.split(sep)` for a one-character separator: the empty string gives `[""]`. */
  function Split(s: string, sep: char): (r: seq<string>)
    ensures |r| >= 1
    decreases |s|
  {
    if s == [] then [[]]
    else
      var rest := Split(s[1..], sep);
      if s[0] == sep then [[]] + rest else [[s[0]] + rest[0]] + rest[1..]
  }

  /** `xs.join(sep)`: the empty list gives `""`. */
  function Join(xs: seq<string>, sep: string): string
    decreases |xs|
  {
    if xs == [] then [] else if |xs| == 1 then xs[0] else xs[0] + sep + Join(xs[1..], sep)
  }

  /** Splitting yields one more piece than there are separators. */
  lemma {:induction false} SplitCount(s: string, sep: char)
    ensures |Split(s, sep)| == Count(s, sep) + 1
    decreases |s|
  {
    if s != [] {
      SplitCount(s[1..], sep);
    }
  }

  /** No piece of a split contains the separator. */
  lemma {:induction false} SplitPiecesFree(s: string, sep: char)
    ensures forall i :: 0 <= i < |Split(s, sep)| ==> sep !in Split(s, sep)[i]
    decreases |s|
  {
    if s != [] {
      SplitPiecesFree(s[1..], sep);
    }
  }

  /** Joining the pieces with the separator gives the text back. */
  lemma {:induction false} JoinSplit(s: string, sep: char)
    ensures Join(Split(s, sep), [sep]) == s
    decreases |s|
  {
    if s != [] {
      var rest := Split(s[1..], sep);
      JoinSplit(s[1..], sep);
      JoinCons(rest, [sep]);
      if s[0] != sep {
        JoinCons([[s[0]] + rest[0]] + rest[1..], [sep]);
        if |rest| == 1 {
          assert [[s[0]] + rest[0]] + rest[1..] == [[s[0]] + rest[0]];
        } else {
          assert ([[s[0]] + rest[0]] + rest[1..])[1..] == rest[1..];
        }
      } else {
        assert ([[]] + rest)[1..] == rest;
      }
    }
  }

  /** Join unfolds on its first element whatever the length. */
  lemma JoinCons(xs: seq<string>, sep: string)
    requires xs != []
    ensures Join(xs, sep) == if |xs| == 1 then xs[0] else xs[0] + sep + Join(xs[1..], sep)
  {
  }

  /** A text without the separator splits into itself. */
  lemma {:induction false} SplitNoSep(a: string, sep: char)
    requires sep !in a
    ensures Split(a, sep) == [a]
    decreases |a|
  {
    if a != [] {
      SplitNoSep(a[1..], sep);
      assert [a[0]] + a[1..] == a;
    }
  }

  /** A separator-free prefix glues onto the first piece. */
  lemma {:induction false} SplitPrefix(a: string, b: string, sep: char)
    requires sep !in a
    ensures Split(a + b, sep) == [a + Split(b, sep)[0]] + Split(b, sep)[1..]
    decreases |a|
  {
    var parts := Split(b, sep);
    if a == [] {
      assert a + b == b && a + parts[0] == parts[0];
      assert [parts[0]] + parts[1..] == parts;
    } else {
      var x := a + b;
      var rest := Split(a[1..] + b, sep);
      SplitPrefix(a[1..], b, sep);
      assert a[0] in a;
      assert x[0] == a[0] && x[1..] == a[1..] + b;
      assert Split(x, sep) == [[a[0]] + rest[0]] + rest[1..];
      assert rest[0] == a[1..] + parts[0] && rest[1..] == parts[1..];
      assert [a[0]] + (a[1..] + parts[0]) == a + parts[0];
    }
  }

  /**
   * Joining separator-free items with `sep` followed by a separator-free `pad`
   * and splitting on `sep` gives the first item and `pad` before each later item.
   */
  lemma {:induction false} SplitJoinPadded(xs: seq<string>, sep: char, pad: string)
    requires xs != [] && sep !in pad
    requires forall i :: 0 <= i < |xs| ==> sep !in xs[i]
    ensures |Split(Join(xs, [sep] + pad), sep)| == |xs|
    ensures Split(Join(xs, [sep] + pad), sep)[0] == xs[0]
    ensures forall i :: 1 <= i < |xs| ==> Split(Join(xs, [sep] + pad), sep)[i] == pad + xs[i]
    decreases |xs|
  {
    if |xs| == 1 {
      SplitNoSep(xs[0], sep);
    } else {
      var tail := Join(xs[1..], [sep] + pad);
      SplitJoinPadded(xs[1..], sep, pad);
      assert Join(xs, [sep] + pad) == xs[0] + ([sep] + (pad + tail));
      SplitPrefix(xs[0], [sep] + (pad + tail), sep);
      assert ([sep] + (pad + tail))[1..] == pad + tail;
      SplitPrefix(pad, tail, sep);
    }
  }

  /** Splitting separator-free items joined with the separator recovers them. */
  lemma {:induction false} SplitJoin(xs: seq<string>, sep: char)
    requires xs != []
    requires forall i :: 0 <= i < |xs| ==> sep !in xs[i]
    ensures Split(Join(xs, [sep]), sep) == xs
    decreases |xs|
  {
    if |xs| == 1 {
      SplitNoSep(xs[0], sep);
    } else {
      var tail := Join(xs[1..], [sep]);
      SplitJoin(xs[1..], sep);
      assert Join(xs, [sep]) == xs[0] + ([sep] + tail);
      SplitPrefix(xs[0], [sep] + tail, sep);
      assert ([sep] + tail)[0] == sep && ([sep] + tail)[1..] == tail;
      assert Split([sep] + tail, sep) == [[]] + xs[1..];
      assert Split(Join(xs, [sep]), sep) == [xs[0] + []] + xs[1..];
      assert xs[0] + [] == xs[0];
      assert xs == [xs[0]] + xs[1..];
    }
  }

  /** `s.split(sep).map(x => x.trim())`. */
  function SplitTrim(s: string, sep: char): (r: seq<string>)
    ensures |r| == |Split(s, sep)|
  {
    var parts := Split(s, sep);
    seq(|parts|, i requires 0 <= i < |parts| => Trim(parts[i]))
  }

  /** The pieces are the separated parts, each with its surrounding white space removed. */
  lemma SplitTrimPieces(s: string, sep: char)
    ensures |SplitTrim(s, sep)| == Count(s, sep) + 1
    ensures forall i :: 0 <= i < |SplitTrim(s, sep)| ==>
      Trimmed(SplitTrim(s, sep)[i]) && sep !in SplitTrim(s, sep)[i]
  {
    SplitCount(s, sep);
    SplitPiecesFree(s, sep);
    var parts := Split(s, sep);
    forall i | 0 <= i < |parts|
      ensures Trimmed(SplitTrim(s, sep)[i]) && sep !in SplitTrim(s, sep)[i]
    {
      TrimIsTrimmed(parts[i]);
      TrimSubsequence(parts[i], sep);
    }
  }

  /** Trimming removes characters, so it adds no separator. */
  lemma TrimSubsequence(s: string, c: char)
    requires c !in s
    ensures c !in Trim(s)
  {
    TrimStartSuffix(s);
    var t := TrimStart(s);
    TrimEndShape(t);
  }

  lemma {:induction false} TrimStartSuffix(s: string)
    ensures |TrimStart(s)| <= |s| && TrimStart(s) == s[|s| - |TrimStart(s)|..]
    decreases |s|
  {
    if s != [] && IsWhitespace(s[0]) {
      TrimStartSuffix(s[1..]);
      assert s[1..][|s| - 1 - |TrimStart(s)|..] == s[|s| - |TrimStart(s)|..];
    }
  }

  /**
   * Items without the separator and without surrounding white space, joined with
   * the separator and a space, split and trim back into themselves.
   */
  lemma SplitTrimJoin(xs: seq<string>, sep: char)
    requires xs != [] && sep != ' '
    requires forall i :: 0 <= i < |xs| ==> sep !in xs[i] && Trimmed(xs[i])
    ensures SplitTrim(Join(xs, [sep, ' ']), sep) == xs
  {
    assert [sep, ' '] == [sep] + " ";
    SplitJoinPadded(xs, sep, " ");
    var parts := Split(Join(xs, [sep, ' ']), sep);
    var r := SplitTrim(Join(xs, [sep, ' ']), sep);
    forall i | 0 <= i < |xs|
      ensures r[i] == xs[i]
    {
      if i == 0 {
        TrimOfTrimmed(xs[0]);
      } else {
        TrimLeadingSpace(xs[i]);
      }
    }
  }

  // ---------------------------------------------------------------- numbers

  predicate IsDigit(c: char) {
    '0' <= c <= '9'
  }

  predicate AllDigits(s: string) {
    forall i :: 0 <= i < |s| ==> IsDigit(s[i])
  }

  function DigitChar(d: nat): char
    requires d < 10
  {
    ('0' as int + d) as char
  }

  /** Decimal digits of a natural number, most significant first, no leading zero. */
  function Digits(n: nat): string
    decreases n
  {
    if n < 10 then [DigitChar(n)] else Digits(n / 10) + [DigitChar(n % 10)]
  }

  /** `n.toString()` for an integer `n`. */
  function Decimal(n: int): string {
    if n < 0 then "-" + Digits(-n) else Digits(n)
  }

  function DigitsValue(s: string): nat
    requires AllDigits(s)
    decreases |s|
  {
    if s == [] then 0 else DigitsValue(s[..|s| - 1]) * 10 + (s[|s| - 1] as int - '0' as int)
  }

  /** What `Number(text)` gives: an integer, or something this model leaves uninterpreted. */
  datatype Number = Int(value: int) | NotInteger(text: string)

  /**
   * `Number(s)`: surrounding white space is ignored, the empty text is 0, an optionally
   * signed run of decimal digits is that integer. Any other text (a fraction, an exponent,
   * a hexadecimal literal, `Infinity`, or text that gives NaN) is kept as `NotInteger`.
   */
  function ToNumber(s: string): Number {
    var t := Trim(s);
    if t == [] then Int(0)
    else if AllDigits(t) then Int(DigitsValue(t))
    else if |t| > 1 && (t[0] == '-' || t[0] == '+') && AllDigits(t[1..]) then
      var v: int := DigitsValue(t[1..]);
      Int(if t[0] == '-' then -v else v)
    else NotInteger(s)
  }

  lemma {:induction false} DigitsSound(n: nat)
    ensures |Digits(n)| >= 1 && AllDigits(Digits(n))
    ensures DigitsValue(Digits(n)) == n
    decreases n
  {
    if n >= 10 {
      DigitsSound(n / 10);
      var d := Digits(n);
      assert d[..|d| - 1] == Digits(n / 10);
    }
  }

  /** Every character of a decimal text is a digit or a leading minus sign. */
  lemma DecimalAlphabet(n: int)
    ensures forall i :: 0 <= i < |Decimal(n)| ==> IsDigit(Decimal(n)[i]) || (i == 0 && Decimal(n)[i] == '-')
  {
    DigitsSound(if n < 0 then -n else n);
  }

  /** `Number(n.toString()) == n`: the decimal text of an integer reads back as that integer. */
  lemma NumberOfDecimal(n: int)
    ensures ToNumber(Decimal(n)) == Int(n)
  {
    var m: nat := if n < 0 then -n else n;
    DigitsSound(m);
    var d := Decimal(n);
    assert Trimmed(d);
    TrimOfTrimmed(d);
    if n < 0 {
      assert d[1..] == Digits(m);
      assert !AllDigits(d);
    }
  }

  // ---------------------------------------------------------------- string order

  /** JavaScript's `a < b` on two strings: lexicographic on the characters. */
  predicate StrLess(a: string, b: string)
    decreases |a|
  {
    if b == [] then false
    else if a == [] then true
    else if a[0] != b[0] then a[0] < b[0]
    else StrLess(a[1..], b[1..])
  }

  lemma {:induction false} StrLessIrreflexive(a: string)
    ensures !StrLess(a, a)
    decreases |a|
  {
    if a != [] {
      StrLessIrreflexive(a[1..]);
    }
  }

  lemma {:induction false} StrLessTransitive(a: string, b: string, c: string)
    requires StrLess(a, b) && StrLess(b, c)
    ensures StrLess(a, c)
    decreases |a|
  {
    if a != [] && a[0] == b[0] && b[0] == c[0] {
      StrLessTransitive(a[1..], b[1..], c[1..]);
    }
  }

  lemma {:induction false} StrLessTotal(a: string, b: string)
    requires a != b
    ensures StrLess(a, b) || StrLess(b, a)
    decreases |a|
  {
    if a != [] && b != [] && a[0] == b[0] {
      assert a == [a[0]] + a[1..] && b == [b[0]] + b[1..];
      StrLessTotal(a[1..], b[1..]);
    }
  }

  /** String `<` is a strict total order: it is asymmetric. */
  lemma StrLessAsymmetric(a: string, b: string)
    requires StrLess(a, b)
    ensures !StrLess(b, a)
  {
    if StrLess(b, a) {
      StrLessTransitive(a, b, a);
      StrLessIrreflexive(a);
    }
  }
}
