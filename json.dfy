/**
 * `JSON.stringify` of an array of strings, as the chef form sends its list
 * fields: the array syntax of section 5 of RFC 8259 with no insignificant white
 * space, and the string syntax of its section 7 with the escapes `JSON.stringify`
 * chooses (`\"`, `\\`, the five short control escapes, `\u00xx` with lower-case
 * hexadecimal digits for the other control characters, every other character as is).
 *
 * A strict reader of that text is the partner that shows nothing is lost.
 */
module Json {
  import opened Wrappers

  // ---------------------------------------------------------------- writing

  function HexDigit(d: nat): char
    requires d < 16
  {
    if d < 10 then ('0' as int + d) as char else ('a' as int + d - 10) as char
  }

  /** How `JSON.stringify` writes one character inside a string literal. */
  function EscapeChar(c: char): string {
    if c == '"' then ['\\', '"']
    else if c == '\\' then ['\\', '\\']
    else if c as int == 0x08 then ['\\', 'b']
    else if c as int == 0x0C then ['\\', 'f']
    else if c == '\n' then ['\\', 'n']
    else if c == '\r' then ['\\', 'r']
    else if c == '\t' then ['\\', 't']
    else if (c as int) < 0x20 then ['\\', 'u', '0', '0', HexDigit(c as int / 16), HexDigit(c as int % 16)]
    else [c]
  }

  function Escape(s: string): string
    decreases |s|
  {
    if s == [] then [] else EscapeChar(s[0]) + Escape(s[1..])
  }

  /** A JSON string literal. */
  function Quote(s: string): string {
    ['"'] + (Escape(s) + ['"'])
  }

  /** The array elements, separated by commas, and the closing bracket. */
  function Elements(xs: seq<string>): string
    decreases |xs|
  {
    if xs == [] then [']']
    else if |xs| == 1 then Quote(xs[0]) + [']']
    else Quote(xs[0]) + ([','] + Elements(xs[1..]))
  }

  /** `JSON.stringify(xs)` for an array of strings. */
  function Stringify(xs: seq<string>): string {
    ['['] + Elements(xs)
  }

  // ---------------------------------------------------------------- reading

  function HexValue(c: char): (r: Option<nat>)
    ensures r.Some? ==> r.value < 16
  {
    if '0' <= c <= '9' then Some(c as int - '0' as int)
    else if 'a' <= c <= 'f' then Some(c as int - 'a' as int + 10)
    else if 'A' <= c <= 'F' then Some(c as int - 'A' as int + 10)
    else None
  }

  /** Reads the escape after a backslash; gives the character and the text after it. */
  function ReadEscape(t: string): (r: Option<(char, string)>)
    ensures r.Some? ==> |r.value.1| < |t|
  {
    if t == [] then None
    else if t[0] == '"' then Some(('"', t[1..]))
    else if t[0] == '\\' then Some(('\\', t[1..]))
    else if t[0] == '/' then Some(('/', t[1..]))
    else if t[0] == 'b' then Some((0x08 as char, t[1..]))
    else if t[0] == 'f' then Some((0x0C as char, t[1..]))
    else if t[0] == 'n' then Some(('\n', t[1..]))
    else if t[0] == 'r' then Some(('\r', t[1..]))
    else if t[0] == 't' then Some(('\t', t[1..]))
    else if t[0] == 'u' && |t| >= 5 then
      match (HexValue(t[1]), HexValue(t[2]), HexValue(t[3]), HexValue(t[4]))
      case (Some(a), Some(b), Some(c), Some(d)) =>
        var v := a * 4096 + b * 256 + c * 16 + d;
        if v < 0xD800 || 0xE000 <= v then Some((v as char, t[5..])) else None
      case _ => None
    else None
  }

  /** Puts `c` in front of the string a successful read produced. */
  function Prepend(c: char, o: Option<(string, string)>): Option<(string, string)> {
    match o
    case None => None
    case Some((s, rest)) => Some(([c] + s, rest))
  }

  /**
   * Reads the body of a string literal whose opening quote is already consumed;
   * gives the string and the text after the closing quote.
   */
  function ReadString(t: string): (r: Option<(string, string)>)
    ensures r.Some? ==> |r.value.1| < |t|
    decreases |t|
  {
    if t == [] then None
    else if t[0] == '"' then Some(([], t[1..]))
    else if t[0] == '\\' then
      match ReadEscape(t[1..])
      case None => None
      case Some((c, more)) => Prepend(c, ReadString(more))
    else if (t[0] as int) < 0x20 then None
    else Prepend(t[0], ReadString(t[1..]))
  }

  /** Reads one or more string literals separated by commas and closed by `]` at the very end. */
  function ReadItems(t: string): Option<seq<string>>
    decreases |t|
  {
    if t == [] || t[0] != '"' then None
    else
      match ReadString(t[1..])
      case None => None
      case Some((s, rest)) =>
        if rest == [']'] then Some([s])
        else if rest != [] && rest[0] == ',' then
          match ReadItems(rest[1..])
          case None => None
          case Some(ss) => Some([s] + ss)
        else None
  }

  /** Reads a JSON array of strings written without insignificant white space. */
  function ReadStringArray(t: string): Option<seq<string>> {
    if t == ['[', ']'] then Some([])
    else if |t| >= 2 && t[0] == '[' then ReadItems(t[1..])
    else None
  }

  // ---------------------------------------------------------------- round trip

  lemma ReadEscapedChar(c: char, tail: string)
    ensures ReadString(EscapeChar(c) + tail) == Prepend(c, ReadString(tail))
  {
    var t := EscapeChar(c) + tail;
    var n := c as int;
    if c == '"' || c == '\\' || n == 0x08 || n == 0x0C || c == '\n' || c == '\r' || c == '\t' {
      assert t[0] == '\\' && t[1..] == [EscapeChar(c)[1]] + tail;
      assert ReadEscape(t[1..]) == Some((c, tail));
    } else if n < 0x20 {
      var u := t[1..];
      assert u == ['u', '0', '0', HexDigit(n / 16), HexDigit(n % 16)] + tail;
      assert HexValue(u[1]) == Some(0) && HexValue(u[2]) == Some(0);
      assert HexValue(u[3]) == Some(n / 16) && HexValue(u[4]) == Some(n % 16);
      assert u[5..] == tail;
      assert (n / 16) * 16 + n % 16 == n;
      assert ReadEscape(u) == Some((c, tail));
    } else {
      assert t[0] == c && t[1..] == tail;
    }
  }

  /** Reading an escaped string followed by its closing quote gives the string back. */
  lemma {:induction false} ReadEscaped(s: string, rest: string)
    ensures ReadString(Escape(s) + (['"'] + rest)) == Some((s, rest))
    decreases |s|
  {
    if s == [] {
      assert Escape(s) + (['"'] + rest) == ['"'] + rest;
    } else {
      var tail := Escape(s[1..]) + (['"'] + rest);
      assert Escape(s) + (['"'] + rest) == EscapeChar(s[0]) + tail;
      ReadEscapedChar(s[0], tail);
      ReadEscaped(s[1..], rest);
      assert [s[0]] + s[1..] == s;
    }
  }

  /** A literal followed by more text: its opening quote, then the escaped body and the rest. */
  lemma QuoteThen(x: string, after: string)
    ensures (Quote(x) + after)[0] == '"'
    ensures (Quote(x) + after)[1..] == Escape(x) + (['"'] + after)
  {
    var e := Escape(x);
    calc {
      Quote(x) + after;
      ['"'] + (e + ['"']) + after;
      ['"'] + (e + (['"'] + after));
    }
  }

  /** The first element's literal, then the text after it. */
  lemma ElementsHead(xs: seq<string>)
    requires xs != []
    ensures Elements(xs) == Quote(xs[0]) + if |xs| == 1 then [']'] else [','] + Elements(xs[1..])
  {
  }

  /** A literal followed by `]` reads as the one-element list. */
  lemma ReadItemsLast(x: string)
    ensures ReadItems(Quote(x) + [']']) == Some([x])
  {
    QuoteThen(x, [']']);
    ReadEscaped(x, [']']);
  }

  /** A literal followed by a comma reads as that string in front of what the rest reads as. */
  lemma ReadItemsCons(x: string, rest: string)
    ensures ReadItems(Quote(x) + ([','] + rest))
         == match ReadItems(rest) case None => None case Some(ss) => Some([x] + ss)
  {
    var after := [','] + rest;
    QuoteThen(x, after);
    ReadEscaped(x, after);
    assert after[0] == ',' && after[1..] == rest && after != [']'];
  }

  lemma {:induction false} ReadElementsRoundTrip(xs: seq<string>)
    requires xs != []
    ensures ReadItems(Elements(xs)) == Some(xs)
    decreases |xs|
  {
    ElementsHead(xs);
    if |xs| == 1 {
      ReadItemsLast(xs[0]);
      assert [xs[0]] == xs;
    } else {
      ReadItemsCons(xs[0], Elements(xs[1..]));
      ReadElementsRoundTrip(xs[1..]);
      assert [xs[0]] + xs[1..] == xs;
    }
  }

  /** What `JSON.stringify` wrote for a string array reads back as that array. */
  lemma StringifyRoundTrip(xs: seq<string>)
    ensures ReadStringArray(Stringify(xs)) == Some(xs)
  {
    if xs != [] {
      ReadElementsRoundTrip(xs);
      var t := Stringify(xs);
      assert |Elements(xs)| >= 2;
      assert t[1..] == Elements(xs);
    }
  }
}
