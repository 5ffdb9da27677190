/** The few Python `str` operations the interface relies on, over `seq<char>`.
    Characters are treated as code points; case mapping is ASCII-only. */
module Text {

  /** `sep.join(xs)`. */
  function Join(sep: string, xs: seq<string>): string
    decreases |xs|
  {
    if |xs| == 0 then ""
    else if |xs| == 1 then xs[0]
    else xs[0] + sep + Join(sep, xs[1..])
  }

  /** The fragments of `xs` that are truthy, i.e. not the empty string, in order. */
  function NonEmpty(xs: seq<string>): (r: seq<string>)
    ensures |r| <= |xs|
    ensures forall w :: w in r <==> w in xs && w != ""
  {
    if xs == [] then []
    else if xs[0] == "" then NonEmpty(xs[1..])
    else [xs[0]] + NonEmpty(xs[1..])
  }

  /** `" ".join(arg for arg in xs if arg)`: the join used for every command line. */
  function JoinNonEmpty(xs: seq<string>): string
  {
    Join(" ", NonEmpty(xs))
  }

  /** The words of `s`: its maximal runs of non-space characters, in order
      (Python `s.split(" ")` with the empty pieces dropped). */
  function Words(s: string): seq<string>
    decreases |s|
  {
    if s == [] then []
    else if s[0] == ' ' then Words(s[1..])
    else
      var k := WordEnd(s, 0);
      [s[..k]] + Words(s[k..])
  }

  /** The index of the first space of `s` at or after `i`, or `|s|`. */
  function WordEnd(s: string, i: nat): (k: nat)
    requires i <= |s|
    ensures i <= k <= |s|
    ensures k < |s| ==> s[k] == ' '
    ensures forall j :: i <= j < k ==> s[j] != ' '
    decreases |s| - i
  {
    if i == |s| || s[i] == ' ' then i else WordEnd(s, i + 1)
  }

  lemma {:induction false} WordsOfWord(w: string, t: string)
    requires w != [] && ' ' !in w
    requires t == [] || t[0] == ' '
    ensures Words(w + t) == [w] + Words(t)
  {
    var s := w + t;
    var k := WordEnd(s, 0);
    assert s[|w|..] == t;
    assert forall j :: 0 <= j < |w| ==> s[j] == w[j];
    assert k == |w|;
    assert s[..k] == w;
  }

  /** Joining non-empty fragments that contain no space with single spaces and
      splitting the result at spaces gives the fragments back: `join_cli_args`
      loses nothing and invents no word boundary. */
  lemma {:induction false} WordsOfJoinNonEmpty(xs: seq<string>)
    requires forall x :: x in xs ==> ' ' !in x
    ensures Words(JoinNonEmpty(xs)) == NonEmpty(xs)
  {
    if xs == [] {
    } else if xs[0] == "" {
      WordsOfJoinNonEmpty(xs[1..]);
    } else {
      WordsOfJoinNonEmpty(xs[1..]);
      var rest := NonEmpty(xs[1..]);
      assert NonEmpty(xs) == [xs[0]] + rest;
      if rest == [] {
        WordsOfWord(xs[0], "");
        assert xs[0] + "" == xs[0];
      } else {
        var t := " " + Join(" ", rest);
        assert Join(" ", [xs[0]] + rest) == xs[0] + t by {
          assert ([xs[0]] + rest)[1..] == rest;
        }
        WordsOfWord(xs[0], t);
        assert t[1..] == Join(" ", rest);
        assert Words(t) == Words(Join(" ", rest));
      }
    }
  }

  /** `s.startswith(p)`. */
  predicate StartsWith(s: string, p: string)
  {
    |p| <= |s| && s[..|p|] == p
  }

  /** `s.replace(pat, rep)`: every non-overlapping occurrence, scanning left to right. */
  function ReplaceAll(s: string, pat: string, rep: string): string
    requires pat != []
    decreases |s|
  {
    if |s| < |pat| then s
    else if s[..|pat|] == pat then rep + ReplaceAll(s[|pat|..], pat, rep)
    else [s[0]] + ReplaceAll(s[1..], pat, rep)
  }

  /** `pat` occurs in `s` at index `i`. */
  predicate OccursAt(s: string, pat: string, i: int)
  {
    0 <= i && i + |pat| <= |s| && s[i..i + |pat|] == pat
  }

  /** `pat in s`. */
  predicate Occurs(s: string, pat: string)
  {
    exists i | 0 <= i <= |s| :: OccursAt(s, pat, i)
  }

  /** A prefix occurs in the text. */
  lemma StartsWithOccurs(s: string, p: string)
    ensures StartsWith(s, p) ==> Occurs(s, p)
  {
    if StartsWith(s, p) {
      assert OccursAt(s, p, 0);
    }
  }

  /** Replacing a pattern that does not occur changes nothing. */
  lemma {:induction false} ReplaceAllAbsent(s: string, pat: string, rep: string)
    requires pat != [] && !Occurs(s, pat)
    ensures ReplaceAll(s, pat, rep) == s
    decreases |s|
  {
    if |s| >= |pat| {
      assert !OccursAt(s, pat, 0);
      assert !Occurs(s[1..], pat) by {
        forall i | OccursAt(s[1..], pat, i)
          ensures OccursAt(s, pat, i + 1)
        {
          assert s[1..][i..i + |pat|] == s[i + 1..i + 1 + |pat|];
        }
      }
      ReplaceAllAbsent(s[1..], pat, rep);
    }
  }

  /** `s.replace(pat, rep, 1)`: the first occurrence only. */
  function ReplaceFirst(s: string, pat: string, rep: string): string
    requires pat != []
    decreases |s|
  {
    if |s| < |pat| then s
    else if s[..|pat|] == pat then rep + s[|pat|..]
    else [s[0]] + ReplaceFirst(s[1..], pat, rep)
  }

  /** Removing the first occurrence of a prefix the text starts with strips exactly that prefix. */
  lemma ReplaceFirstAtStart(p: string, t: string)
    requires p != []
    ensures ReplaceFirst(p + t, p, "") == t
  {
    assert (p + t)[..|p|] == p;
    assert (p + t)[|p|..] == t;
  }

  /** `s.removeprefix(p)`. */
  function RemovePrefix(s: string, p: string): (r: string)
    ensures StartsWith(s, p) ==> r == s[|p|..]
    ensures !StartsWith(s, p) ==> r == s
  {
    if StartsWith(s, p) then s[|p|..] else s
  }

  /** `s.replace(a, b)` for single characters. */
  function ReplaceChar(s: string, a: char, b: char): (r: string)
    ensures |r| == |s|
    ensures forall i :: 0 <= i < |s| ==> r[i] == if s[i] == a then b else s[i]
  {
    seq(|s|, i requires 0 <= i < |s| => if s[i] == a then b else s[i])
  }

  /** `s.upper()` on ASCII letters. */
  function Upper(s: string): (r: string)
    ensures |r| == |s|
  {
    seq(|s|, i requires 0 <= i < |s| => if 'a' <= s[i] <= 'z' then (s[i] as int - 32) as char else s[i])
  }

  predicate IsDigit(c: char) { '0' <= c <= '9' }

  /** `s.isdigit()` for ASCII text: non-empty and only decimal digits. */
  predicate IsDigits(s: string)
  {
    s != [] && forall i :: 0 <= i < |s| ==> IsDigit(s[i])
  }

  /** The decimal digits of a natural number, most significant first. */
  function NatToString(n: nat): (r: string)
    ensures IsDigits(r)
    decreases n
  {
    if n < 10 then [('0' as int + n) as char]
    else NatToString(n / 10) + [('0' as int + n % 10) as char]
  }

  /** `str(i)` for a Python `int`. */
  function IntToString(i: int): string
  {
    if i < 0 then "-" + NatToString(-i) else NatToString(i)
  }

  /** `s.endswith(p)`. */
  predicate EndsWith(s: string, p: string)
  {
    |p| <= |s| && s[|s| - |p|..] == p
  }

  /** Two texts built around the same frame are equal only if their middles are. */
  lemma MiddleDetermines(pre: string, a: string, b: string, post: string)
    requires pre + a + post == pre + b + post
    ensures a == b
  {
    var x := pre + a + post;
    assert |a| == |b|;
    assert a == x[|pre|..|pre| + |a|];
  }

  /** Fragments that are all non-empty are kept as they are. */
  lemma {:induction false} NonEmptyOfNonEmpty(xs: seq<string>)
    requires forall i :: 0 <= i < |xs| ==> xs[i] != ""
    ensures NonEmpty(xs) == xs
  {
    if xs != [] {
      NonEmptyOfNonEmpty(xs[1..]);
    }
  }

  lemma {:induction false} NonEmptyAppend(xs: seq<string>, ys: seq<string>)
    ensures NonEmpty(xs + ys) == NonEmpty(xs) + NonEmpty(ys)
  {
    if xs != [] {
      assert (xs + ys)[0] == xs[0];
      assert (xs + ys)[1..] == xs[1..] + ys;
      NonEmptyAppend(xs[1..], ys);
    } else {
      assert xs + ys == ys;
    }
  }

  lemma {:induction false} JoinAppendLast(sep: string, xs: seq<string>, y: string)
    requires xs != []
    ensures Join(sep, xs + [y]) == Join(sep, xs) + sep + y
    decreases |xs|
  {
    if |xs| > 1 {
      assert (xs + [y])[1..] == xs[1..] + [y];
      JoinAppendLast(sep, xs[1..], y);
    }
  }

  /** A line joined from fragments starts with the first fragment when that
      one is non-empty. */
  lemma JoinNonEmptyStarts(x: string, rest: seq<string>)
    requires x != ""
    ensures StartsWith(JoinNonEmpty([x] + rest), x)
  {
    assert ([x] + rest)[1..] == rest;
    var ys := NonEmpty(rest);
    assert NonEmpty([x] + rest) == [x] + ys;
    if ys != [] {
      assert ([x] + ys)[1..] == ys;
    }
  }

  /** ... and ends with the last fragment when that one is non-empty. */
  lemma JoinNonEmptyEnds(init: seq<string>, x: string)
    requires x != ""
    ensures EndsWith(JoinNonEmpty(init + [x]), x)
  {
    NonEmptyAppend(init, [x]);
    assert NonEmpty([x]) == [x] by {
      assert [x][1..] == [];
    }
    var ys := NonEmpty(init);
    if ys != [] {
      JoinAppendLast(" ", ys, x);
    }
  }

  /** A flag followed by its items reads back as the flag and the items. */
  lemma WordsOfFlagAndItems(flag: string, xs: seq<string>)
    requires flag != [] && ' ' !in flag
    requires forall i :: 0 <= i < |xs| ==> xs[i] != "" && ' ' !in xs[i]
    ensures Words(flag + (" " + JoinNonEmpty(xs))) == [flag] + xs
  {
    var j := JoinNonEmpty(xs);
    WordsOfJoinNonEmpty(xs);
    NonEmptyOfNonEmpty(xs);
    WordsOfWord(flag, " " + j);
    assert (" " + j)[1..] == j;
  }

  /** Regrouping a concatenation of five pieces. */
  lemma ConcatFive(a: string, b: string, c: string, d: string, e: string)
    ensures a + (b + (c + d) + e) == a + b + c + d + e
  {
  }
}
