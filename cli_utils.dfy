/** Command-line rendering of the current interface package
    (snakemake_interface_executor_plugins/utils.py): flags with values, the
    quoting of values, the join of fragments and the `--target-jobs` encoding. */
module CliUtils {
  import opened Wrappers
  import Text
  import Shell
  import opened PyValues

  // ---------------------------------------------------------------------------
  // is_quoted

  /** `is_quoted(s)`: `re.match(r"^['\"].+['\"]", s)`. The match needs an opening
      quote, at least one character that is not a newline, and then a quote; the
      text may go on after it. */
  predicate IsQuoted(s: string)
  {
    |s| >= 3 && IsQuoteChar(s[0]) && s[1] != '\n' && QuoteFrom(s, 2)
  }

  /** The greedy `.+['\"]` backtracks to some quote at or after `i` reached
      without crossing a newline. */
  predicate QuoteFrom(s: string, i: nat)
    decreases |s| - i
  {
    i < |s| && (IsQuoteChar(s[i]) || (s[i] != '\n' && QuoteFrom(s, i + 1)))
  }

  predicate NoNewline(s: string, lo: nat, hi: nat)
    requires lo <= hi <= |s|
  {
    forall k | lo <= k < hi :: s[k] != '\n'
  }

  /** The regular expression's meaning, written out: a quote at 0 and a quote at
      some `j >= 2` with no newline strictly between them. */
  predicate MatchesQuotedPattern(s: string)
  {
    |s| >= 1 && IsQuoteChar(s[0]) &&
    exists j | 2 <= j < |s| :: IsQuoteChar(s[j]) && NoNewline(s, 1, j)
  }

  lemma {:induction false} QuoteFromMeaning(s: string, i: nat)
    requires 1 <= i <= |s|
    ensures QuoteFrom(s, i) <==> exists j | i <= j < |s| :: IsQuoteChar(s[j]) && NoNewline(s, i, j)
    decreases |s| - i
  {
    if i < |s| {
      QuoteFromMeaning(s, i + 1);
      if QuoteFrom(s, i) && !IsQuoteChar(s[i]) {
        var j :| i + 1 <= j < |s| && IsQuoteChar(s[j]) && NoNewline(s, i + 1, j);
        assert NoNewline(s, i, j);
      }
      if exists j | i <= j < |s| :: IsQuoteChar(s[j]) && NoNewline(s, i, j) {
        var j :| i <= j < |s| && IsQuoteChar(s[j]) && NoNewline(s, i, j);
        if j > i {
          assert s[i] != '\n';
          assert NoNewline(s, i + 1, j);
        }
      }
    }
  }

  /** `is_quoted` holds exactly when the pattern matches at the start: the last
      character need not be a quote, and a newline before the closing quote
      defeats the match. */
  lemma IsQuotedIff(s: string)
    ensures IsQuoted(s) <==> MatchesQuotedPattern(s)
  {
    if |s| >= 3 {
      QuoteFromMeaning(s, 2);
      if IsQuoted(s) {
        var j :| 2 <= j < |s| && IsQuoteChar(s[j]) && NoNewline(s, 2, j);
        assert NoNewline(s, 1, j);
      }
      if MatchesQuotedPattern(s) {
        var j :| 2 <= j < |s| && IsQuoteChar(s[j]) && NoNewline(s, 1, j);
        assert s[1] != '\n';
        assert NoNewline(s, 2, j);
      }
    }
  }

  // ---------------------------------------------------------------------------
  // format_cli_value, format_cli_pos_arg, format_cli_arg

  /** `format_cli_value(v)`: an enum member gives its choice text, a path is
      shell-quoted, a string is shell-quoted unless it already looks quoted, and
      every other value gives its `repr`. A path, and a string that does not
      look quoted, reach the spawned process as one shell word equal to them. */
  function FormatCliValue(v: Value): (r: string)
    ensures v.EnumMember? ==> r == v.choice
    ensures v.Path? ==> Shell.ReadWord(r) == Some(v.path)
    ensures v.Str? && IsQuoted(v.s) ==> r == v.s
    ensures v.Str? && !IsQuoted(v.s) ==> Shell.ReadWord(r) == Some(v.s)
    ensures !v.EnumMember? && !v.Path? && !v.Str? ==> r == Repr(v)
  {
    match v
    case EnumMember(_, _, _, choice) => choice
    case Path(p) => Shell.QuoteRoundTrip(p); Shell.Quote(p)
    case Str(s) => if IsQuoted(s) then s else Shell.QuoteRoundTrip(s); Shell.Quote(s)
    case _ => Repr(v)
  }

  /** The token of one dictionary entry: `repr(f"{key}={format_cli_value(val)}")`. */
  function DictEntryToken(key: string, val: Value): string
  {
    StrRepr(key + "=" + FormatCliValue(val))
  }

  /** The renderings of the items of a list. */
  function ItemTexts(items: seq<Value>): (r: seq<string>)
    ensures |r| == |items|
    ensures forall i | 0 <= i < |items| :: r[i] == FormatCliValue(items[i])
  {
    seq(|items|, i requires 0 <= i < |items| => FormatCliValue(items[i]))
  }

  /** `format_cli_pos_arg(v)`: the entries of a dict or the items of a list, each
      rendered on its own and joined with single spaces; any other value alone.
      The items of a list whose renderings hold no blank read back as the
      separate words of the result; a dict with one entry is that entry's token. */
  function FormatCliPosArg(v: Value): (r: string)
    ensures !v.Dict? && !v.List? ==> r == FormatCliValue(v)
    ensures v.List? && (forall i | 0 <= i < |v.items| :: ' ' !in FormatCliValue(v.items[i])) ==>
      Text.Words(r) == Text.NonEmpty(ItemTexts(v.items))
    ensures v.Dict? && |v.entries| == 1 ==> r == DictEntryToken(v.entries[0].0, v.entries[0].1)
  {
    match v
    case Dict(entries) =>
      var toks := seq(|entries|, i requires 0 <= i < |entries| => DictEntryToken(entries[i].0, entries[i].1));
      assert |entries| == 1 ==> Text.NonEmpty(toks) == toks;
      Text.JoinNonEmpty(toks)
    case List(items) =>
      var texts := ItemTexts(items);
      if forall x | x in texts :: ' ' !in x then
        Text.WordsOfJoinNonEmpty(texts);
        Text.JoinNonEmpty(texts)
      else
        Text.JoinNonEmpty(texts)
    case _ => FormatCliValue(v)
  }

  /** `format_cli_arg(flag, value, quote, skip)`. `quote` is accepted and never read. */
  function FormatCliArg(flag: string, value: Value, quote: bool, skip: bool): (r: string)
    ensures r == "" <==> skip || !Truthy(value)
    ensures !skip && value == Bool(true) ==> r == flag + " "
    ensures !skip && Truthy(value) && !value.Bool? ==> r == flag + " " + FormatCliPosArg(value)
  {
    if !skip && Truthy(value) then
      if value.Bool? then flag + " " + "" else flag + " " + FormatCliPosArg(value)
    else ""
  }

  /** The `quote` argument has no effect on the rendering. */
  lemma FormatCliArgIgnoresQuote(flag: string, value: Value, skip: bool)
    ensures FormatCliArg(flag, value, true, skip) == FormatCliArg(flag, value, false, skip)
  {
  }

  /** A dictionary entry is rendered as a Python string literal of `key=value`:
      double-quoted exactly when that text holds a single quote and no double
      quote, and read back by Python as exactly that text. */
  lemma DictEntryTokenMeaning(key: string, val: Value)
    ensures var text := key + "=" + FormatCliValue(val);
            var t := DictEntryToken(key, val);
            (t[0] == '"' <==> '\'' in text && '"' !in text) &&
            (t[0] == '\'' <==> !('\'' in text && '"' !in text)) &&
            DecodeStrLiteral(t) == Some(text)
  {
    StrReprRoundTrip(key + "=" + FormatCliValue(val));
  }

  /** The rendering of a one-entry dict is that entry's token alone. */
  lemma SingleEntryDict(flag: string, key: string, val: Value)
    ensures FormatCliArg(flag, Dict([(key, val)]), true, false) == flag + " " + DictEntryToken(key, val)
  {
    var toks := seq(1, i requires 0 <= i < 1 => DictEntryToken([(key, val)][i].0, [(key, val)][i].1));
    assert toks == [DictEntryToken(key, val)];
    assert Text.NonEmpty(toks) == toks;
  }

  /** An already quoted value, such as a `slurm_extra` resource, is kept as is. */
  lemma QuotedSlurmExtraKept()
    ensures FormatCliValue(Str("'--gres=gpu:1'")) == "'--gres=gpu:1'"
  {
    var v := "'--gres=gpu:1'";
    assert IsQuoteChar(v[13]) && NoNewline(v, 1, 13);
    IsQuotedIff(v);
  }

  /** The documented case in general form: an already quoted value under a key,
      with a single quote and no double quote or backslash anywhere, renders as
      the flag and `"key=value"` between double quotes, e.g.
      `--default-resources "slurm_extra='--gres=gpu:1'"`. */
  lemma QuotedDictValue(flag: string, key: string, v: string)
    requires IsQuoted(v)
    requires PlainFor(key + "=" + v, '"')
    ensures FormatCliArg(flag, Dict([(key, Str(v))]), true, false) == flag + " " + "\"" + key + "=" + v + "\""
  {
    QuotedDictToken(key, v);
    SingleEntryDict(flag, key, Str(v));
    Text.ConcatFive(flag + " ", "\"", key, "=" + v, "\"");
  }

  /** The entry's token is the entry between double quotes. */
  lemma QuotedDictToken(key: string, v: string)
    requires IsQuoted(v)
    requires PlainFor(key + "=" + v, '"')
    ensures DictEntryToken(key, Str(v)) == "\"" + (key + ("=" + v)) + "\""
  {
    var text := key + "=" + v;
    QuotedTextOpensSingle(key, v);
    StrReprDoubleQuoted(text, |key| + 1);
    assert text == key + ("=" + v);
  }

  /** A quoted value inside text free of double quotes opens with a single
      quote, and is kept as it is. */
  lemma QuotedTextOpensSingle(key: string, v: string)
    requires IsQuoted(v)
    requires PlainFor(key + "=" + v, '"')
    ensures (key + "=" + v)[|key| + 1] == '\''
    ensures DictEntryToken(key, Str(v)) == StrRepr(key + "=" + v)
  {
    var text := key + "=" + v;
    assert text[|key| + 1] == v[0];
  }

  // ---------------------------------------------------------------------------
  // join_cli_args

  datatype CliError = JoinTypeError(message: string)

  const JoinErrorMessage := "bug: join_cli_args expects iterable of strings. Given: "

  /** The texts of the truthy fragments, in order (every truthy fragment being a string). */
  function TruthyTexts(args: seq<Value>): (r: seq<string>)
    ensures forall w :: w in r ==> w != ""
  {
    if args == [] then []
    else if !Truthy(args[0]) then TruthyTexts(args[1..])
    else (if args[0].Str? then [args[0].s] else []) + TruthyTexts(args[1..])
  }

  predicate AllTruthyAreStrings(args: seq<Value>)
  {
    forall i | 0 <= i < |args| :: Truthy(args[i]) ==> args[i].Str?
  }

  /** `join_cli_args(args)` on a list: the truthy fragments joined with single
      spaces; a truthy fragment that is not a string is a programming error,
      reported with the list as `str` shows it. (The callers that pass a
      generator instead pass only strings, so they never reach the error.) */
  function JoinCliArgs(args: seq<Value>): (r: Result<string, CliError>)
    ensures r.Ok? <==> AllTruthyAreStrings(args)
    ensures r.Err? ==>
      Text.StartsWith(r.error.message, JoinErrorMessage) && r.error.message[|JoinErrorMessage|..] == PyStr(List(args))
    ensures r.Ok? ==> r.value == Text.Join(" ", TruthyTexts(args))
  {
    if AllTruthyAreStrings(args) then Ok(Text.Join(" ", TruthyTexts(args)))
    else Err(JoinTypeError(JoinErrorMessage + PyStr(List(args))))
  }

  /** Joining fragments that contain no space keeps them apart: splitting the
      joined line at spaces gives back exactly the non-empty fragments. */
  lemma JoinCliArgsWords(args: seq<string>)
    requires forall x :: x in args ==> ' ' !in x
    ensures JoinCliArgs(seq(|args|, i requires 0 <= i < |args| => Str(args[i]))) ==
            Ok(Text.JoinNonEmpty(args))
    ensures Text.Words(Text.JoinNonEmpty(args)) == Text.NonEmpty(args)
  {
    Text.WordsOfJoinNonEmpty(args);
    TruthyTextsOfStrings(args);
  }

  lemma {:induction false} TruthyTextsOfStrings(args: seq<string>)
    ensures TruthyTexts(seq(|args|, i requires 0 <= i < |args| => Str(args[i]))) == Text.NonEmpty(args)
  {
    var vs := seq(|args|, i requires 0 <= i < |args| => Str(args[i]));
    if args != [] {
      assert vs[1..] == seq(|args[1..]|, i requires 0 <= i < |args[1..]| => Str(args[1..][i]));
      TruthyTextsOfStrings(args[1..]);
    }
  }

  // ---------------------------------------------------------------------------
  // encode_target_jobs_cli_args

  /** A `TargetSpec`: a rule name and its wildcard values, in dict order. */
  datatype TargetSpec = TargetSpec(rulename: string, wildcards: seq<(string, string)>)

  function WildcardItems(w: seq<(string, string)>): (r: seq<string>)
    ensures |r| == |w|
  {
    seq(|w|, i requires 0 <= i < |w| => w[i].0 + "=" + w[i].1)
  }

  /** One `--target-jobs` item: `rulename:k1=v1,k2=v2`. */
  function TargetJobItem(spec: TargetSpec): string
  {
    spec.rulename + ":" + Text.Join(",", WildcardItems(spec.wildcards))
  }

  /** `s.split(c)`: the pieces between occurrences of `c`, at least one. */
  function SplitOn(s: string, c: char): (r: seq<string>)
    ensures |r| >= 1
    decreases |s|
  {
    if s == [] then [""]
    else if s[0] == c then [""] + SplitOn(s[1..], c)
    else
      var rest := SplitOn(s[1..], c);
      [[s[0]] + rest[0]] + rest[1..]
  }

  lemma {:induction false} SplitOnFree(x: string, c: char)
    requires c !in x
    ensures SplitOn(x, c) == [x]
  {
    if x != [] {
      SplitOnFree(x[1..], c);
      assert [x[0]] + x[1..] == x;
    }
  }

  lemma {:induction false} SplitOnPiece(x: string, c: char, t: string)
    requires c !in x
    ensures SplitOn(x + [c] + t, c) == [x] + SplitOn(t, c)
  {
    if x == [] {
      assert x + [c] + t == [c] + t;
      assert ([c] + t)[1..] == t;
    } else {
      SplitOnPiece(x[1..], c, t);
      assert (x + [c] + t)[1..] == x[1..] + [c] + t;
      assert [x[0]] + x[1..] == x;
    }
  }

  /** Splitting a join at its separator gives the pieces back, as long as no
      piece contains the separator. */
  lemma {:induction false} SplitOnJoin(xs: seq<string>, c: char)
    requires xs != []
    requires forall x :: x in xs ==> c !in x
    ensures SplitOn(Text.Join([c], xs), c) == xs
    decreases |xs|
  {
    if |xs| == 1 {
      SplitOnFree(xs[0], c);
    } else {
      SplitOnJoin(xs[1..], c);
      SplitOnPiece(xs[0], c, Text.Join([c], xs[1..]));
      assert [xs[0]] + xs[1..] == xs;
    }
  }

  /** The text before and after the first `c`, when there is one (`s.partition(c)`). */
  function PartitionFirst(s: string, c: char): (r: Option<(string, string)>)
    ensures r.Some? ==> r.value.0 + [c] + r.value.1 == s && c !in r.value.0
    ensures r.None? <==> c !in s
    decreases |s|
  {
    if s == [] then None
    else if s[0] == c then Some(([], s[1..]))
    else match PartitionFirst(s[1..], c)
      case None => None
      case Some((a, b)) => Some(([s[0]] + a, b))
  }

  lemma {:induction false} PartitionFirstOf(a: string, c: char, b: string)
    requires c !in a
    ensures PartitionFirst(a + [c] + b, c) == Some((a, b))
  {
    if a == [] {
      assert a + [c] + b == [c] + b;
      assert ([c] + b)[1..] == b;
    } else {
      PartitionFirstOf(a[1..], c, b);
      assert (a + [c] + b)[1..] == a[1..] + [c] + b;
      assert [a[0]] + a[1..] == a;
    }
  }

  /** Reads one `key=value` item back. */
  function DecodeWildcard(item: string): Option<(string, string)>
  {
    PartitionFirst(item, '=')
  }

  function DecodeWildcards(items: seq<string>): (r: Option<seq<(string, string)>>)
    ensures r.Some? ==> |r.value| == |items|
  {
    if items == [] then Some([])
    else match DecodeWildcard(items[0])
      case None => None
      case Some(kv) =>
        match DecodeWildcards(items[1..])
        case None => None
        case Some(rest) => Some([kv] + rest)
  }

  /** How the receiving side reads one `--target-jobs` item: the rule name up
      to the first `:`, then comma-separated `key=value` pairs (none when the
      text after the colon is empty). */
  function DecodeTargetJobItem(item: string): Option<TargetSpec>
  {
    match PartitionFirst(item, ':')
    case None => None
    case Some((rulename, rest)) =>
      if rest == "" then Some(TargetSpec(rulename, []))
      else
        match DecodeWildcards(SplitOn(rest, ','))
        case None => None
        case Some(w) => Some(TargetSpec(rulename, w))
  }

  /** The separators the encoding relies on do not occur where they would be
      misread. */
  predicate Unambiguous(spec: TargetSpec)
  {
    ':' !in spec.rulename &&
    forall i | 0 <= i < |spec.wildcards| ::
      '=' !in spec.wildcards[i].0 && ',' !in spec.wildcards[i].0 && ',' !in spec.wildcards[i].1
  }

  lemma {:induction false} DecodeWildcardItems(w: seq<(string, string)>)
    requires forall i | 0 <= i < |w| :: '=' !in w[i].0
    ensures DecodeWildcards(WildcardItems(w)) == Some(w)
    decreases |w|
  {
    if w != [] {
      PartitionFirstOf(w[0].0, '=', w[0].1);
      assert WildcardItems(w)[1..] == WildcardItems(w[1..]);
      DecodeWildcardItems(w[1..]);
      assert [w[0]] + w[1..] == w;
    }
  }

  /** Every item `encode_target_jobs_cli_args` produces decodes to the spec it
      came from, whenever rule name, keys and values avoid the separators. */
  lemma TargetJobItemRoundTrip(spec: TargetSpec)
    requires Unambiguous(spec)
    ensures DecodeTargetJobItem(TargetJobItem(spec)) == Some(spec)
  {
    var items := WildcardItems(spec.wildcards);
    var rest := Text.Join(",", items);
    PartitionFirstOf(spec.rulename, ':', rest);
    assert TargetJobItem(spec) == spec.rulename + [':'] + rest;
    if spec.wildcards != [] {
      forall x | x in items
        ensures ',' !in x
      {
        var i :| 0 <= i < |items| && items[i] == x;
        assert x == spec.wildcards[i].0 + "=" + spec.wildcards[i].1;
      }
      assert "," == [','];
      SplitOnJoin(items, ',');
      assert '=' in items[0] by { assert items[0][|spec.wildcards[0].0|] == '='; }
      assert rest != "" by { assert rest[..|items[0]|] == items[0] || |items| == 1; }
      DecodeWildcardItems(spec.wildcards);
    }
  }

  /** `encode_target_jobs_cli_args(target_jobs)`: one item per spec, in order. */
  method EncodeTargetJobsCliArgs(targetJobs: seq<TargetSpec>) returns (items: seq<string>)
    ensures |items| == |targetJobs|
    ensures forall i | 0 <= i < |targetJobs| :: items[i] == TargetJobItem(targetJobs[i])
  {
    items := [];
    for k := 0 to |targetJobs|
      invariant |items| == k
      invariant forall i | 0 <= i < k :: items[i] == TargetJobItem(targetJobs[i])
    {
      var spec := targetJobs[k];
      var wildcards := Text.Join(",", WildcardItems(spec.wildcards));
      items := items + [spec.rulename + ":" + wildcards];
    }
  }
}
