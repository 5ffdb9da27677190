/** `shlex.quote` and the POSIX shell's reading of the word it produces
    (single quotes, double quotes and backslash, as in section 2.2 of the
    POSIX Shell Command Language). */
module Shell {
  import opened Wrappers

  /** The characters `shlex.quote` leaves bare: ASCII letters, digits and `_@%+=:,./-`. */
  predicate SafeChar(c: char)
  {
    'a' <= c <= 'z' || 'A' <= c <= 'Z' || '0' <= c <= '9' || c in "_@%+=:,./-"
  }

  predicate AllSafe(s: string)
  {
    forall i :: 0 <= i < |s| ==> SafeChar(s[i])
  }

  /** The inside of the single-quoted form: every `'` becomes `'"'"'`
      (close the quotes, a double-quoted quote, reopen). */
  function QuoteBody(s: string): string
  {
    if s == [] then []
    else if s[0] == '\'' then "'\"'\"'" + QuoteBody(s[1..])
    else [s[0]] + QuoteBody(s[1..])
  }

  /** `shlex.quote(s)`. */
  function Quote(s: string): string
  {
    if s == [] then "''"
    else if AllSafe(s) then s
    else "'" + QuoteBody(s) + "'"
  }

  /** Blank, operator, expansion and pattern characters may not stand unquoted
      in a literal word; everything `shlex` calls safe may. */
  predicate BareChar(c: char)
  {
    SafeChar(c)
  }

  /** The literal text of one shell word, or None when `t` is not exactly one word
      free of expansions: outside quotes. */
  function ReadWord(t: string): Option<string>
    decreases |t|, 2
  {
    if t == [] then Some([])
    else if t[0] == '\'' then ReadSingle(t[1..])
    else if t[0] == '"' then ReadDouble(t[1..])
    else if t[0] == '\\' then
      if |t| < 2 then None
      else if t[1] == '\n' then ReadWord(t[2..])
      else Prepend(t[1], ReadWord(t[2..]))
    else if BareChar(t[0]) then Prepend(t[0], ReadWord(t[1..]))
    else None
  }

  /** Inside single quotes every character stands for itself up to the next `'`. */
  function ReadSingle(t: string): Option<string>
    decreases |t|, 1
  {
    if t == [] then None
    else if t[0] == '\'' then ReadWord(t[1..])
    else Prepend(t[0], ReadSingle(t[1..]))
  }

  /** Inside double quotes a backslash escapes only `$`, `` ` ``, `"`, `\` and
      newline; `$` and `` ` `` would start an expansion. */
  function ReadDouble(t: string): Option<string>
    decreases |t|, 1
  {
    if t == [] then None
    else if t[0] == '"' then ReadWord(t[1..])
    else if t[0] == '$' || t[0] == '`' then None
    else if t[0] == '\\' && |t| >= 2 && t[1] in "$`\"\\\n" then
      if t[1] == '\n' then ReadDouble(t[2..]) else Prepend(t[1], ReadDouble(t[2..]))
    else Prepend(t[0], ReadDouble(t[1..]))
  }

  function Prepend(c: char, o: Option<string>): Option<string>
  {
    match o
    case None => None
    case Some(t) => Some([c] + t)
  }

  lemma {:induction false} ReadWordOfSafe(s: string)
    requires AllSafe(s)
    ensures ReadWord(s) == Some(s)
  {
    if s != [] {
      assert SafeChar(s[0]);
      ReadWordOfSafe(s[1..]);
      assert [s[0]] + s[1..] == s;
    }
  }

  /** `s` followed by what the rest reads as. */
  function After(s: string, o: Option<string>): Option<string>
  {
    match o
    case None => None
    case Some(w) => Some(s + w)
  }

  /** Inside single quotes, `'"'"'` reads as one `'` and stays inside single quotes. */
  lemma EscapedQuoteReads(tail: string)
    ensures ReadSingle("'\"'\"'" + tail) == Prepend('\'', ReadSingle(tail))
  {
    var sq, dq := '\'', '"';
    assert "'\"'\"'" == [sq, dq, sq, dq, sq];
    var t := [sq, dq, sq, dq, sq] + tail;
    assert t[1..] == [dq, sq, dq, sq] + tail;
    assert ReadSingle(t) == ReadWord([dq, sq, dq, sq] + tail);
    assert ([dq, sq, dq, sq] + tail)[1..] == [sq, dq, sq] + tail;
    assert ReadWord([dq, sq, dq, sq] + tail) == ReadDouble([sq, dq, sq] + tail);
    assert ([sq, dq, sq] + tail)[1..] == [dq, sq] + tail;
    assert ReadDouble([sq, dq, sq] + tail) == Prepend(sq, ReadDouble([dq, sq] + tail));
    assert ([dq, sq] + tail)[1..] == [sq] + tail;
    assert ReadDouble([dq, sq] + tail) == ReadWord([sq] + tail);
    assert ([sq] + tail)[1..] == tail;
  }

  lemma AfterCons(c: char, s: string, o: Option<string>)
    ensures Prepend(c, After(s, o)) == After([c] + s, o)
  {
    match o {
      case None =>
      case Some(w) => assert [c] + (s + w) == [c] + s + w;
    }
  }

  lemma AfterEmpty(o: Option<string>)
    ensures After([], o) == o
  {
    match o {
      case None =>
      case Some(w) => assert [] + w == w;
    }
  }

  /** One character of the body is read as itself and the reading goes on inside the quotes. */
  lemma BodyStep(s: string, tail: string)
    requires s != []
    ensures ReadSingle(QuoteBody(s) + tail) == Prepend(s[0], ReadSingle(QuoteBody(s[1..]) + tail))
  {
    var rest := QuoteBody(s[1..]) + tail;
    if s[0] == '\'' {
      assert QuoteBody(s) + tail == "'\"'\"'" + rest;
      EscapedQuoteReads(rest);
    } else {
      assert QuoteBody(s) + tail == [s[0]] + rest;
      assert ([s[0]] + rest)[1..] == rest;
    }
  }

  lemma {:induction false} ReadSingleOfBody(s: string, rest: string)
    ensures ReadSingle(QuoteBody(s) + "'" + rest) == After(s, ReadWord(rest))
  {
    if s == [] {
      assert (QuoteBody(s) + "'" + rest)[1..] == rest;
      AfterEmpty(ReadWord(rest));
    } else {
      ReadSingleOfBody(s[1..], rest);
      assert QuoteBody(s) + "'" + rest == QuoteBody(s) + ("'" + rest);
      assert QuoteBody(s[1..]) + "'" + rest == QuoteBody(s[1..]) + ("'" + rest);
      BodyStep(s, "'" + rest);
      AfterCons(s[0], s[1..], ReadWord(rest));
      assert [s[0]] + s[1..] == s;
    }
  }

  /** The shell reads `shlex.quote(s)` back as exactly one word whose text is `s`. */
  lemma QuoteRoundTrip(s: string)
    ensures ReadWord(Quote(s)) == Some(s)
  {
    if s == [] {
      assert ReadSingle("'") == ReadWord([]);
    } else if AllSafe(s) {
      ReadWordOfSafe(s);
    } else {
      QuotedFormReads(s);
    }
  }

  /** The single-quoted form reads back as the text. */
  lemma QuotedFormReads(s: string)
    ensures ReadWord("'" + QuoteBody(s) + "'") == Some(s)
  {
    var q := "'" + QuoteBody(s) + "'";
    assert q[0] == '\'';
    assert q[1..] == QuoteBody(s) + "'" + "";
    ReadSingleOfBody(s, "");
    assert ReadWord("") == Some([]);
    assert s + [] == s;
  }

  /** The quoted form never contains an unquoted blank: for a non-empty safe text it
      is the text itself, otherwise it is enclosed in single quotes. */
  lemma QuoteShape(s: string)
    ensures AllSafe(s) && s != [] ==> Quote(s) == s
    ensures !AllSafe(s) || s == [] ==> |Quote(s)| >= 2 && Quote(s)[0] == '\'' && Quote(s)[|Quote(s)| - 1] == '\''
  {
  }
}
