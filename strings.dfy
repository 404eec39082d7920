/** String helpers shared by the middleware and the controllers: the `\w` character
    class of JavaScript regular expressions (no `u` flag), `String.prototype.startsWith`,
    and `split` / `join` with a one-character separator. */
module Strings {

  /** `\w` in a JavaScript regular expression without the `u` flag: `[A-Za-z0-9_]`. */
  predicate IsWordChar(c: char) {
    ('A' <= c <= 'Z') || ('a' <= c <= 'z') || ('0' <= c <= '9') || c == '_'
  }

  predicate StartsWith(s: string, prefix: string) {
    |prefix| <= |s| && s[..|prefix|] == prefix
  }

  /** `s.split(d)` for a one-character separator `d`: the pieces between the
      occurrences of `d`, from left to right; there is always at least one piece. */
  function Split(s: string, d: char): (pieces: seq<string>)
    ensures |pieces| >= 1
    ensures forall k :: 0 <= k < |pieces| ==> d !in pieces[k]
    decreases |s|
  {
    if |s| == 0 then [""]
    else
      var rest := Split(s[1..], d);
      if s[0] == d then [""] + rest
      else [[s[0]] + rest[0]] + rest[1..]
  }

  /** `pieces.join(e)` for a one-character glue `e`. */
  function Join(pieces: seq<string>, e: char): string
    decreases |pieces|
  {
    if |pieces| == 0 then ""
    else if |pieces| == 1 then pieces[0]
    else pieces[0] + [e] + Join(pieces[1..], e)
  }

  /** Every occurrence of `d` in `s` replaced by `e`, the rest left in place. */
  function ReplaceChar(s: string, d: char, e: char): (r: string)
    ensures |r| == |s|
    ensures forall k :: 0 <= k < |s| ==> r[k] == (if s[k] == d then e else s[k])
  {
    seq(|s|, k requires 0 <= k < |s| => if s[k] == d then e else s[k])
  }

  lemma {:induction false} JoinCons(c: char, x: string, ys: seq<string>, e: char)
    ensures Join([[c] + x] + ys, e) == [c] + Join([x] + ys, e)
  {
    if |ys| > 0 {
      assert ([[c] + x] + ys)[1..] == ys;
      assert ([x] + ys)[1..] == ys;
    }
  }

  lemma {:induction false} JoinEmptyFirst(rest: seq<string>, e: char)
    requires |rest| >= 1
    ensures Join([""] + rest, e) == [e] + Join(rest, e)
  {
    assert ([""] + rest)[1..] == rest;
  }

  lemma {:induction false} ReplaceCharStep(s: string, d: char, e: char)
    requires |s| > 0
    ensures ReplaceChar(s, d, e) == [if s[0] == d then e else s[0]] + ReplaceChar(s[1..], d, e)
  {
  }

  lemma {:induction false} HeadTail<T>(xs: seq<T>)
    requires |xs| > 0
    ensures [xs[0]] + xs[1..] == xs
  {
  }

  /** Splitting on `d` and gluing the pieces back with `e` replaces each `d` by `e`. */
  lemma {:induction false} JoinSplit(s: string, d: char, e: char)
    ensures Join(Split(s, d), e) == ReplaceChar(s, d, e)
    decreases |s|
  {
    if |s| > 0 {
      var rest := Split(s[1..], d);
      JoinSplit(s[1..], d, e);
      ReplaceCharStep(s, d, e);
      if s[0] == d {
        JoinEmptyFirst(rest, e);
      } else {
        HeadTail(rest);
        JoinCons(s[0], rest[0], rest[1..], e);
      }
    }
  }

  /** Splitting and joining with the same character gives the text back. */
  lemma {:induction false} SplitJoinRoundTrip(s: string, d: char)
    ensures Join(Split(s, d), d) == s
  {
    JoinSplit(s, d, d);
    assert ReplaceChar(s, d, d) == s;
  }

  /** The piece before the first separator: when `a` has no separator and `b` is
      empty or starts with one, the first piece of `a + b` is `a`. */
  lemma {:induction false} SplitFirstPiece(a: string, b: string, d: char)
    requires d !in a
    requires |b| == 0 || b[0] == d
    ensures Split(a + b, d)[0] == a
    decreases |a|
  {
    if |a| > 0 {
      assert (a + b)[1..] == a[1..] + b;
      SplitFirstPiece(a[1..], b, d);
    } else {
      assert a + b == b;
    }
  }

  /** A separator right after a separator-free prefix starts the second piece. */
  lemma {:induction false} SplitAfterFirst(a: string, b: string, d: char)
    requires d !in a
    ensures Split(a + [d] + b, d) == [a] + Split(b, d)
    decreases |a|
  {
    if |a| > 0 {
      assert (a + [d] + b)[1..] == a[1..] + [d] + b;
      SplitAfterFirst(a[1..], b, d);
      var rest := Split(a[1..] + [d] + b, d);
      assert rest[0] == a[1..] && rest[1..] == Split(b, d);
      assert [a[0]] + a[1..] == a;
    } else {
      assert a + [d] + b == [d] + b;
      assert ([d] + b)[1..] == b;
    }
  }

  /** Text without the separator is a single piece. */
  lemma {:induction false} SplitWithoutSeparator(a: string, d: char)
    requires d !in a
    ensures Split(a, d) == [a]
  {
    SplitFirstPiece(a, "", d);
    assert a + "" == a;
    if |a| > 0 {
      SplitWithoutSeparator(a[1..], d);
    }
  }
}
