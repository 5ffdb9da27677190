/** The Python values that reach a command line, with their truthiness, `repr` and `str`.
    Only what the formatting code inspects is kept: floats, tuples, sets and
    non-string dictionary keys are not part of this model. */
module PyValues {
  import opened Wrappers
  import Text

  /** A Python value handed to `format_cli_arg`. An enum member carries its class
      name, member name, value and the `item_to_choice()` text its class gives it. */
  datatype Value =
    | Bool(b: bool)
    | Int(i: int)
    | Str(s: string)
    | Path(path: string)
    | EnumMember(cls: string, member: string, ordinal: int, choice: string)
    | NoneValue
    | List(items: seq<Value>)
    | Dict(entries: seq<(string, Value)>)

  /** `bool(v)`: False, 0, "", None and empty containers are falsy; paths and
      enum members define no length and are always truthy. */
  predicate Truthy(v: Value)
  {
    match v
    case Bool(b) => b
    case Int(i) => i != 0
    case Str(s) => s != ""
    case Path(_) => true
    case EnumMember(_, _, _, _) => true
    case NoneValue => false
    case List(items) => items != []
    case Dict(entries) => entries != []
  }

  /** `not_iterable(v)`: strings and dicts count as single values, and so does
      everything that cannot be iterated; only lists are spread out. */
  predicate NotIterable(v: Value)
  {
    !v.List?
  }

  // ---------------------------------------------------------------------------
  // repr of a str

  predicate IsQuoteChar(c: char) { c == '\'' || c == '"' }

  /** The quote `repr` puts around `s`: double quotes only when `s` holds a single
      quote and no double quote. */
  function ReprQuote(s: string): (q: char)
    ensures IsQuoteChar(q)
  {
    if '\'' in s && '"' !in s then '"' else '\''
  }

  function HexDigit(n: nat): char
    requires n < 16
  {
    if n < 10 then ('0' as int + n) as char else ('a' as int + n - 10) as char
  }

  predicate IsHexDigit(c: char)
  {
    '0' <= c <= '9' || 'a' <= c <= 'f'
  }

  function HexValue(c: char): (n: nat)
    requires IsHexDigit(c)
    ensures n < 16
  {
    if c <= '9' then c as int - '0' as int else c as int - 'a' as int + 10
  }

  /** How `repr` writes one character inside quotes `q`: the quote itself and the
      backslash get a backslash, tab, newline and carriage return their short
      escapes, the other control characters `\xNN`; the rest stands for itself. */
  function EscapeChar(c: char, q: char): string
  {
    if c == q || c == '\\' then ['\\', c]
    else if c == '\t' then "\\t"
    else if c == '\n' then "\\n"
    else if c == '\r' then "\\r"
    else if c < ' ' || c as int == 0x7f then ['\\', 'x', HexDigit(c as int / 16), HexDigit(c as int % 16)]
    else [c]
  }

  function EscapeBody(s: string, q: char): string
  {
    if s == [] then [] else EscapeChar(s[0], q) + EscapeBody(s[1..], q)
  }

  /** `repr(s)` for a `str`. */
  function StrRepr(s: string): (r: string)
    ensures |r| >= 2 && IsQuoteChar(r[0]) && r[|r| - 1] == r[0]
    ensures r[0] == '"' <==> '\'' in s && '"' !in s
  {
    var q := ReprQuote(s);
    [q] + EscapeBody(s, q) + [q]
  }

  function Prepend(c: char, o: Option<string>): Option<string>
  {
    match o
    case None => None
    case Some(t) => Some([c] + t)
  }

  /** Reads the body of a Python string literal opened with quote `q`, up to and
      including the closing quote, which must end the text. */
  function DecodeBody(t: string, q: char): Option<string>
    decreases |t|
  {
    if t == [] then None
    else if t[0] == q then (if |t| == 1 then Some([]) else None)
    else if t[0] == '\\' then
      if |t| < 2 then None
      else if t[1] == '\\' || t[1] == '\'' || t[1] == '"' then Prepend(t[1], DecodeBody(t[2..], q))
      else if t[1] == 't' then Prepend('\t', DecodeBody(t[2..], q))
      else if t[1] == 'n' then Prepend('\n', DecodeBody(t[2..], q))
      else if t[1] == 'r' then Prepend('\r', DecodeBody(t[2..], q))
      else if t[1] == 'x' && |t| >= 4 && IsHexDigit(t[2]) && IsHexDigit(t[3]) then
        Prepend((HexValue(t[2]) * 16 + HexValue(t[3])) as char, DecodeBody(t[4..], q))
      else None
    else Prepend(t[0], DecodeBody(t[1..], q))
  }

  /** What Python reads back from a single- or double-quoted string literal. */
  function DecodeStrLiteral(t: string): Option<string>
  {
    if t != [] && IsQuoteChar(t[0]) then DecodeBody(t[1..], t[0]) else None
  }

  lemma HexRoundTrip(n: nat)
    requires n < 16
    ensures IsHexDigit(HexDigit(n)) && HexValue(HexDigit(n)) == n
  {
  }

  lemma {:induction false} EscapeCharDecodes(c: char, q: char, rest: string)
    requires IsQuoteChar(q)
    ensures DecodeBody(EscapeChar(c, q) + rest, q) == Prepend(c, DecodeBody(rest, q))
  {
    var e := EscapeChar(c, q);
    var t := e + rest;
    if c == q || c == '\\' {
      assert t[2..] == rest;
    } else if c == '\t' || c == '\n' || c == '\r' {
      assert t[2..] == rest;
    } else if c < ' ' || c as int == 0x7f {
      var hi, lo := c as int / 16, c as int % 16;
      HexRoundTrip(hi);
      HexRoundTrip(lo);
      assert t[2] == HexDigit(hi) && t[3] == HexDigit(lo);
      assert (HexValue(t[2]) * 16 + HexValue(t[3])) as char == c;
      assert t[4..] == rest;
    } else {
      assert t[1..] == rest;
    }
  }

  lemma {:induction false} EscapeBodyDecodes(s: string, q: char)
    requires IsQuoteChar(q)
    ensures DecodeBody(EscapeBody(s, q) + [q], q) == Some(s)
  {
    if s != [] {
      EscapeCharDecodes(s[0], q, EscapeBody(s[1..], q) + [q]);
      assert EscapeBody(s, q) + [q] == EscapeChar(s[0], q) + (EscapeBody(s[1..], q) + [q]);
      EscapeBodyDecodes(s[1..], q);
      assert [s[0]] + s[1..] == s;
    }
  }

  /** Python reads `repr(s)` back as `s`: the rendering of a dictionary entry is
      a faithful string literal. */
  lemma StrReprRoundTrip(s: string)
    ensures DecodeStrLiteral(StrRepr(s)) == Some(s)
  {
    var q := ReprQuote(s);
    EscapeBodyDecodes(s, q);
    assert StrRepr(s)[1..] == EscapeBody(s, q) + [q];
  }

  /** Printable text without the quote `q` and without backslashes. */
  predicate PlainFor(s: string, q: char)
  {
    forall i | 0 <= i < |s| :: ' ' <= s[i] && s[i] as int != 0x7f && s[i] != q && s[i] != '\\'
  }

  /** Plain text is written as is. */
  lemma {:induction false} EscapeBodyPlain(s: string, q: char)
    requires PlainFor(s, q)
    ensures EscapeBody(s, q) == s
  {
    if s != [] {
      EscapeBodyPlain(s[1..], q);
      assert [s[0]] + s[1..] == s;
    }
  }

  /** Printable text with a single quote, no double quote and no backslash is
      written between double quotes unchanged. */
  lemma StrReprDoubleQuoted(s: string, k: nat)
    requires k < |s| && s[k] == '\''
    requires PlainFor(s, '"')
    ensures StrRepr(s) == "\"" + s + "\""
  {
    assert '\'' in s;
    assert ReprQuote(s) == '"';
    EscapeBodyPlain(s, '"');
  }

  // ---------------------------------------------------------------------------
  // repr and str of any value

  function BoolRepr(b: bool): string
  {
    if b then "True" else "False"
  }

  /** `repr(v)`. */
  function Repr(v: Value): string
  {
    match v
    case Bool(b) => BoolRepr(b)
    case Int(i) => Text.IntToString(i)
    case Str(s) => StrRepr(s)
    case Path(p) => "PosixPath(" + StrRepr(p) + ")"
    case EnumMember(cls, member, ordinal, _) => "<" + cls + "." + member + ": " + Text.IntToString(ordinal) + ">"
    case NoneValue => "None"
    case List(items) =>
      "[" + Text.Join(", ", seq(|items|, i requires 0 <= i < |items| => Repr(items[i]))) + "]"
    case Dict(entries) =>
      "{" + Text.Join(", ", seq(|entries|, i requires 0 <= i < |entries| =>
                                  StrRepr(entries[i].0) + ": " + Repr(entries[i].1))) + "}"
  }

  /** `str(v)`, which an f-string uses: strings and paths give their own text. */
  function PyStr(v: Value): string
  {
    match v
    case Str(s) => s
    case Path(p) => p
    case EnumMember(cls, member, _, _) => cls + "." + member
    case _ => Repr(v)
  }
}
