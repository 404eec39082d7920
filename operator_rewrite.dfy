/** The operator rewrite of middleware/advancedResults.js: in the serialised filter
    text, every whole-word `gt`, `gte`, `lt`, `lte` or `in` gets a `$` in front, as
    `text.replace(/\b(gt|gte|lt|lte|in)\b/g, m => "$" + m)` does. The text is scanned
    left to right the way a global regular expression replace does; `prevWord`
    records whether the character just before the remaining text is a `\w`
    character, which is what `\b` looks at. */
module OperatorRewrite {
  import opened Wrappers
  import opened Strings

  /** The alternatives of the group, in the order the regular expression tries them. */
  const Operators: seq<string> := ["gt", "gte", "lt", "lte", "in"]

  /** The longest prefix of `s` made of `\w` characters. */
  function LeadingWord(s: string): (w: string)
    ensures |w| <= |s| && w == s[..|w|]
    ensures forall k :: 0 <= k < |w| ==> IsWordChar(w[k])
    ensures |w| == |s| || !IsWordChar(s[|w|])
    decreases |s|
  {
    if |s| > 0 && IsWordChar(s[0]) then [s[0]] + LeadingWord(s[1..]) else ""
  }

  /** Whether alternative `Operators[k]`, or a later one, matches at the front of `s`
      followed by `\b`; the length of the first that does. The `\b` before it holds
      because every alternative starts with a `\w` character and the caller has
      checked that the previous character is not one. */
  function FirstAlternative(s: string, k: nat): (r: Option<nat>)
    ensures r.Some? ==> 2 <= r.value <= |s|
    decreases |Operators| - k
  {
    if k >= |Operators| then None
    else
      var op := Operators[k];
      if StartsWith(s, op) && (|s| == |op| || !IsWordChar(s[|op|])) then Some(|op|)
      else FirstAlternative(s, k + 1)
  }

  /** Length of the match of `\b(gt|gte|lt|lte|in)\b` at the front of `s`, if any. */
  function MatchAt(s: string, prevWord: bool): (r: Option<nat>)
    ensures r.Some? ==> 2 <= r.value <= |s|
  {
    if prevWord then None else FirstAlternative(s, 0)
  }

  /** The global replace; `prevWord` is false at the start of the text. */
  function Rewrite(s: string, prevWord: bool): string
    decreases |s|
  {
    if |s| == 0 then ""
    else
      match MatchAt(s, prevWord)
      case Some(n) => "$" + s[..n] + Rewrite(s[n..], true)
      case None => [s[0]] + Rewrite(s[1..], IsWordChar(s[0]))
  }

  /** The rewrite applied to a whole serialised filter. */
  function RewriteOperators(text: string): string {
    Rewrite(text, false)
  }

  // ---------------------------------------------------------------------------
  // Reference definitions, independent of the scanner.

  /** Removes each `$` that stands right before a whole word that is an operator. */
  function Unrewrite(t: string): string
    decreases |t|
  {
    if |t| == 0 then ""
    else if t[0] == '$' && LeadingWord(t[1..]) in Operators then Unrewrite(t[1..])
    else [t[0]] + Unrewrite(t[1..])
  }

  /** Position `i` of `t` starts a whole word that is an operator and has no `$` before it. */
  ghost predicate BareOperatorAt(t: string, i: nat, prevWord: bool)
    requires i <= |t|
  {
    && (if i == 0 then !prevWord else !IsWordChar(t[i - 1]) && t[i - 1] != '$')
    && LeadingWord(t[i..]) in Operators
  }

  /** The number of positions of `s` where a whole word that is an operator starts. */
  ghost function OperatorCount(s: string, prevWord: bool): nat
    decreases |s|
  {
    if |s| == 0 then 0
    else (if !prevWord && LeadingWord(s) in Operators then 1 else 0)
         + OperatorCount(s[1..], IsWordChar(s[0]))
  }

  // ---------------------------------------------------------------------------
  // Lemmas.

  /** Every operator is a non-empty word. */
  lemma {:induction false} OperatorIsWord(w: string)
    requires w in Operators
    ensures |w| >= 2 && forall k :: 0 <= k < |w| ==> IsWordChar(w[k])
  {
  }

  /** One step of the scan where an operator matches. */
  lemma {:induction false} RewriteMatchStep(s: string, prevWord: bool, n: nat)
    requires MatchAt(s, prevWord) == Some(n)
    ensures Rewrite(s, prevWord) == ("$" + s[..n]) + Rewrite(s[n..], true)
  {
    assert "$" + s[..n] + Rewrite(s[n..], true) == ("$" + s[..n]) + Rewrite(s[n..], true);
  }

  /** One step of the scan where a character is copied. */
  lemma {:induction false} RewriteCopyStep(s: string, prevWord: bool)
    requires |s| > 0 && MatchAt(s, prevWord).None?
    ensures Rewrite(s, prevWord) == [s[0]] + Rewrite(s[1..], IsWordChar(s[0]))
  {
  }

  lemma {:induction false} LeadingWordIs(s: string, w: string)
    requires |w| <= |s| && s[..|w|] == w
    requires forall k :: 0 <= k < |w| ==> IsWordChar(w[k])
    requires |w| == |s| || !IsWordChar(s[|w|])
    ensures LeadingWord(s) == w
    decreases |w|
  {
    if |w| > 0 {
      LeadingWordIs(s[1..], w[1..]);
    }
  }

  lemma {:induction false} FirstAlternativeIsWholeWord(s: string, k: nat)
    requires k <= |Operators|
    ensures FirstAlternative(s, k) ==
      (if LeadingWord(s) in Operators[k..] then Some(|LeadingWord(s)|) else None)
    decreases |Operators| - k
  {
    if k < |Operators| {
      var op := Operators[k];
      OperatorIsWord(op);
      InLaterOperators(LeadingWord(s), k);
      if StartsWith(s, op) && (|s| == |op| || !IsWordChar(s[|op|])) {
        LeadingWordIs(s, op);
      } else {
        FirstAlternativeIsWholeWord(s, k + 1);
      }
    }
  }

  lemma {:induction false} InLaterOperators(x: string, k: nat)
    requires k < |Operators|
    ensures (x in Operators[k..]) == (x == Operators[k] || x in Operators[k + 1..])
  {
    assert Operators[k..] == [Operators[k]] + Operators[k + 1..];
  }

  /** The regular expression matches exactly when the whole word at the front is an
      operator: `gte` is matched as `gte`, never as `gt` followed by `e`, and a word
      such as `gtx` or `min` is never matched. */
  lemma {:induction false} MatchIsWholeWord(s: string)
    ensures MatchAt(s, false) ==
      (if LeadingWord(s) in Operators then Some(|LeadingWord(s)|) else None)
  {
    FirstAlternativeIsWholeWord(s, 0);
    assert Operators[0..] == Operators;
  }

  lemma {:induction false} LeadingWordPreserved(u: string, prevWord: bool)
    requires MatchAt(u, prevWord).None?
    ensures LeadingWord(Rewrite(u, prevWord)) == LeadingWord(u)
    decreases |u|
  {
    if |u| > 0 && IsWordChar(u[0]) {
      LeadingWordPreserved(u[1..], true);
      var r := Rewrite(u[1..], true);
      assert Rewrite(u, prevWord) == [u[0]] + r;
      assert ([u[0]] + r)[1..] == r;
    }
  }

  lemma {:induction false} UnrewriteWordPrefix(w: string, r: string)
    requires forall k :: 0 <= k < |w| ==> IsWordChar(w[k])
    ensures Unrewrite(w + r) == w + Unrewrite(r)
    decreases |w|
  {
    if |w| > 0 {
      var t := w + r;
      ConcatTakeDrop(w, r, 1);
      assert w[0] != '$';
      UnrewriteWordPrefix(w[1..], r);
      Associate([w[0]], w[1..], Unrewrite(r));
      HeadTail(w);
    } else {
      assert w + r == r;
    }
  }

  /** What follows a match starts with a non-word character, if anything follows. */
  lemma {:induction false} AfterMatch(s: string, n: nat)
    requires MatchAt(s, false) == Some(n)
    ensures LeadingWord(s) == s[..n] && s[..n] in Operators
    ensures |Rewrite(s[n..], true)| > 0 ==> !IsWordChar(Rewrite(s[n..], true)[0])
  {
    MatchIsWholeWord(s);
    if |s[n..]| > 0 {
      assert !IsWordChar(s[n]);
      assert Rewrite(s[n..], true) == [s[n..][0]] + Rewrite(s[n..][1..], IsWordChar(s[n..][0]));
    }
  }

  /** Removing the `$` put in front of an operator word `w`, followed by text `r` that
      does not continue the word. */
  lemma {:induction false} UnrewritePrefixed(w: string, r: string)
    requires w in Operators
    requires |r| == 0 || !IsWordChar(r[0])
    ensures Unrewrite("$" + w + r) == w + Unrewrite(r)
  {
    OperatorIsWord(w);
    assert (w + r)[..|w|] == w;
    assert |r| > 0 ==> (w + r)[|w|] == r[0];
    LeadingWordIs(w + r, w);
    UnrewriteDollar(w + r);
    Associate("$", w, r);
    UnrewriteWordPrefix(w, r);
  }

  lemma {:induction false} UnrewriteMatched(s: string, n: nat)
    requires MatchAt(s, false) == Some(n)
    requires Unrewrite(Rewrite(s[n..], true)) == s[n..]
    ensures Unrewrite("$" + s[..n] + Rewrite(s[n..], true)) == s
  {
    var w, rest := s[..n], s[n..];
    var r := Rewrite(rest, true);
    AfterMatch(s, n);
    UnrewritePrefixed(w, r);
    SplitAt(s, n);
  }

  lemma ConcatTakeDrop(a: string, b: string, n: nat)
    requires 0 < n <= |a|
    ensures (a + b)[0] == a[0]
    ensures (a + b)[..n] == a[..n] && (a + b)[n..] == a[n..] + b
  {
  }

  lemma SplitAt(s: string, n: nat)
    requires n <= |s|
    ensures s[..n] + s[n..] == s
  {
  }

  lemma {:induction false} Associate(a: string, b: string, c: string)
    ensures a + b + c == a + (b + c)
  {
  }

  /** The `$` in front of an operator word is what `Unrewrite` removes. */
  lemma {:induction false} UnrewriteDollar(x: string)
    requires LeadingWord(x) in Operators
    ensures Unrewrite("$" + x) == Unrewrite(x)
  {
    assert ("$" + x)[0] == '$' && ("$" + x)[1..] == x;
  }

  lemma {:induction false} UnrewriteCopied(s: string, prevWord: bool)
    requires |s| > 0 && MatchAt(s, prevWord).None?
    requires Unrewrite(Rewrite(s[1..], IsWordChar(s[0]))) == s[1..]
    ensures Unrewrite([s[0]] + Rewrite(s[1..], IsWordChar(s[0]))) == s
  {
    var r := Rewrite(s[1..], IsWordChar(s[0]));
    var t := [s[0]] + r;
    assert t[1..] == r;
    if s[0] == '$' {
      if |s[1..]| > 0 && MatchAt(s[1..], false).None? {
        LeadingWordPreserved(s[1..], false);
        MatchIsWholeWord(s[1..]);
      }
      assert LeadingWord(r) !in Operators;
    }
    assert Unrewrite(t) == [s[0]] + Unrewrite(r);
    assert s == [s[0]] + s[1..];
  }

  /** Deleting the inserted `$` characters gives the original text back. */
  lemma {:induction false} UnrewriteRewrite(s: string, prevWord: bool)
    ensures Unrewrite(Rewrite(s, prevWord)) == s
    decreases |s|
  {
    if |s| > 0 {
      match MatchAt(s, prevWord)
      case Some(n) =>
        UnrewriteRewrite(s[n..], true);
        UnrewriteMatched(s, n);
      case None =>
        UnrewriteRewrite(s[1..], IsWordChar(s[0]));
        UnrewriteCopied(s, prevWord);
    }
  }

  /** Past the first character, whether an operator stands bare at a position of
      `p + r` depends only on `r`. */
  lemma {:induction false} BareOperatorShift(p: string, r: string, i: nat, pw: bool, pw': bool)
    requires |p| < i <= |p| + |r|
    ensures BareOperatorAt(p + r, i, pw) == BareOperatorAt(r, i - |p|, pw')
  {
    var t := p + r;
    assert t[i - 1] == r[i - |p| - 1];
    assert t[i..] == r[i - |p|..];
  }

  /** Inside a prefixed word no operator stands bare. */
  lemma {:induction false} NoBareInPrefixed(w: string, r: string, i: nat, pw: bool)
    requires forall k :: 0 <= k < |w| ==> IsWordChar(w[k])
    requires i <= |w| + 1
    ensures !BareOperatorAt(("$" + w) + r, i, pw)
  {
    var t := ("$" + w) + r;
    if i == 0 {
      assert t[0] == '$';
      assert LeadingWord(t) == "";
    } else {
      assert t[i - 1] == (if i == 1 then '$' else w[i - 2]);
    }
  }

  /** The step of `NoBareOperator` where the scan has just prefixed a match. */
  lemma {:induction false} NoBareAfterMatch(s: string, prevWord: bool, n: nat, i: nat)
    requires MatchAt(s, prevWord) == Some(n)
    requires i <= |Rewrite(s, prevWord)|
    requires i > n + 1 ==> !BareOperatorAt(Rewrite(s[n..], true), i - n - 1, true)
    ensures !BareOperatorAt(Rewrite(s, prevWord), i, prevWord)
  {
    if prevWord { assert false; }
    var p, r' := "$" + s[..n], Rewrite(s[n..], true);
    RewriteMatchStep(s, false, n);
    assert |p| == n + 1;
    if i <= n + 1 {
      AfterMatch(s, n);
      OperatorIsWord(s[..n]);
      NoBareInPrefixed(s[..n], r', i, false);
    } else {
      BareOperatorShift(p, r', i, false, true);
    }
  }

  /** The step of `NoBareOperator` where the scan has copied one character. */
  lemma {:induction false} NoBareAfterCopy(s: string, prevWord: bool, i: nat)
    requires |s| > 0 && MatchAt(s, prevWord).None?
    requires i <= |Rewrite(s, prevWord)|
    requires i > 0 ==>
      !BareOperatorAt(Rewrite(s[1..], IsWordChar(s[0])), i - 1, IsWordChar(s[0]))
    ensures !BareOperatorAt(Rewrite(s, prevWord), i, prevWord)
  {
    var r' := Rewrite(s[1..], IsWordChar(s[0]));
    var t := Rewrite(s, prevWord);
    RewriteCopyStep(s, prevWord);
    if i == 0 {
      if !prevWord {
        MatchIsWholeWord(s);
        LeadingWordPreserved(s, prevWord);
      }
    } else if i == 1 {
      assert t[0] == s[0] && t[1..] == r';
    } else {
      BareOperatorShift([s[0]], r', i, prevWord, IsWordChar(s[0]));
    }
  }

  /** After the rewrite no whole-word operator is left without a `$` before it. */
  lemma {:induction false} NoBareOperator(s: string, prevWord: bool, i: nat)
    requires i <= |Rewrite(s, prevWord)|
    ensures !BareOperatorAt(Rewrite(s, prevWord), i, prevWord)
    decreases |s|
  {
    if |s| > 0 {
      match MatchAt(s, prevWord)
      case Some(n) =>
        if i > n + 1 {
          NoBareOperator(s[n..], true, i - n - 1);
        }
        NoBareAfterMatch(s, prevWord, n, i);
      case None =>
        if i > 0 {
          NoBareOperator(s[1..], IsWordChar(s[0]), i - 1);
        }
        NoBareAfterCopy(s, prevWord, i);
    }
  }

  lemma {:induction false} OperatorCountInsideWord(u: string, k: nat)
    requires k <= |u|
    requires forall j :: 0 <= j < k ==> IsWordChar(u[j])
    ensures OperatorCount(u, true) == OperatorCount(u[k..], true)
    decreases k
  {
    if k > 0 {
      OperatorCountInsideWord(u[1..], k - 1);
      DropDrop(u, 1, k - 1);
    }
  }

  lemma DropDrop(s: string, i: nat, j: nat)
    requires i + j <= |s|
    ensures s[i..][j..] == s[i + j..]
  {
  }

  /** The step of `RewriteLength` where an operator matches. */
  lemma {:induction false} RewriteLengthMatched(s: string, n: nat)
    requires MatchAt(s, false) == Some(n)
    requires |Rewrite(s[n..], true)| == |s[n..]| + OperatorCount(s[n..], true)
    ensures |Rewrite(s, false)| == |s| + OperatorCount(s, false)
  {
    var w := s[..n];
    AfterMatch(s, n);
    OperatorIsWord(w);
    RewriteMatchStep(s, false, n);
    assert forall j :: 0 <= j < n - 1 ==> s[1..][j] == w[j + 1];
    OperatorCountInsideWord(s[1..], n - 1);
    DropDrop(s, 1, n - 1);
    assert IsWordChar(s[0]) by { assert s[0] == w[0]; }
  }

  /** The rewrite adds exactly one character per whole-word operator. */
  lemma {:induction false} RewriteLength(s: string, prevWord: bool)
    ensures |Rewrite(s, prevWord)| == |s| + OperatorCount(s, prevWord)
    decreases |s|
  {
    if |s| > 0 {
      match MatchAt(s, prevWord)
      case Some(n) =>
        if prevWord { assert false; }
        RewriteLength(s[n..], true);
        RewriteLengthMatched(s, n);
      case None =>
        RewriteLength(s[1..], IsWordChar(s[0]));
        RewriteCopyStep(s, prevWord);
        if !prevWord {
          MatchIsWholeWord(s);
        }
    }
  }

  /** Text without whole-word operators passes through unchanged. */
  lemma {:induction false} RewriteWithoutOperators(s: string, prevWord: bool)
    requires OperatorCount(s, prevWord) == 0
    ensures Rewrite(s, prevWord) == s
    decreases |s|
  {
    if |s| > 0 {
      if !prevWord {
        MatchIsWholeWord(s);
      }
      RewriteWithoutOperators(s[1..], IsWordChar(s[0]));
      RewriteCopyStep(s, prevWord);
      HeadTail(s);
    }
  }

  lemma {:induction false} LeadingWordConcat(a: string, b: string)
    requires |b| == 0 || !IsWordChar(b[0])
    ensures LeadingWord(a + b) == LeadingWord(a)
    decreases |a|
  {
    if |a| > 0 {
      assert (a + b)[1..] == a[1..] + b;
      LeadingWordConcat(a[1..], b);
    } else {
      assert a + b == b;
    }
  }

  lemma {:induction false} MatchAtConcat(a: string, b: string, prevWord: bool)
    requires |b| == 0 || !IsWordChar(b[0])
    ensures MatchAt(a + b, prevWord) == MatchAt(a, prevWord)
  {
    if !prevWord {
      LeadingWordConcat(a, b);
      MatchIsWholeWord(a + b);
      MatchIsWholeWord(a);
    }
  }

  lemma {:induction false} RewriteFromNonWord(b: string, prevWord: bool)
    requires |b| == 0 || !IsWordChar(b[0])
    ensures Rewrite(b, prevWord) == Rewrite(b, false)
  {
    if |b| > 0 && !prevWord {
      MatchIsWholeWord(b);
    }
  }

  /** The step of `RewriteConcat` where an operator matches at the front of `a`. */
  lemma {:induction false} RewriteConcatMatched(a: string, b: string, prevWord: bool, n: nat)
    requires |b| == 0 || !IsWordChar(b[0])
    requires MatchAt(a, prevWord) == Some(n)
    requires Rewrite(a[n..] + b, true) == Rewrite(a[n..], true) + Rewrite(b, false)
    ensures Rewrite(a + b, prevWord) == Rewrite(a, prevWord) + Rewrite(b, false)
  {
    var s := a + b;
    var p, x, y := "$" + a[..n], Rewrite(a[n..], true), Rewrite(b, false);
    MatchAtConcat(a, b, prevWord);
    ConcatTakeDrop(a, b, n);
    RewriteMatchStep(s, prevWord, n);
    RewriteMatchStep(a, prevWord, n);
    Associate(p, x, y);
  }

  /** The step of `RewriteConcat` where the first character of `a` is copied. */
  lemma {:induction false} RewriteConcatCopied(a: string, b: string, prevWord: bool)
    requires |b| == 0 || !IsWordChar(b[0])
    requires |a| > 0 && MatchAt(a, prevWord).None?
    requires Rewrite(a[1..] + b, IsWordChar(a[0]))
      == Rewrite(a[1..], IsWordChar(a[0])) + Rewrite(b, false)
    ensures Rewrite(a + b, prevWord) == Rewrite(a, prevWord) + Rewrite(b, false)
  {
    var s := a + b;
    var p, x, y := [a[0]], Rewrite(a[1..], IsWordChar(a[0])), Rewrite(b, false);
    MatchAtConcat(a, b, prevWord);
    ConcatTakeDrop(a, b, 1);
    RewriteCopyStep(s, prevWord);
    RewriteCopyStep(a, prevWord);
    Associate(p, x, y);
  }

  /** The rewrite works piece by piece: text split in front of a non-word character
      is rewritten as the two pieces are, so operators are found anywhere in the
      serialised text, in keys and values alike. */
  lemma {:induction false} RewriteConcat(a: string, b: string, prevWord: bool)
    requires |b| == 0 || !IsWordChar(b[0])
    ensures Rewrite(a + b, prevWord) == Rewrite(a, prevWord) + Rewrite(b, false)
    decreases |a|
  {
    if |a| == 0 {
      assert a + b == b;
      RewriteFromNonWord(b, prevWord);
    } else {
      match MatchAt(a, prevWord)
      case Some(n) =>
        RewriteConcat(a[n..], b, true);
        RewriteConcatMatched(a, b, prevWord, n);
      case None =>
        RewriteConcat(a[1..], b, IsWordChar(a[0]));
        RewriteConcatCopied(a, b, prevWord);
    }
  }

  /** Each operator on its own is prefixed as a whole: `gte` becomes `$gte`. */
  lemma {:induction false} RewriteOperatorWord(w: string)
    requires w in Operators
    ensures Rewrite(w, false) == "$" + w
  {
    assert forall k :: 0 <= k < |w| ==> IsWordChar(w[k]);
    LeadingWordIs(w, w);
    MatchIsWholeWord(w);
    assert w[|w|..] == "";
  }

  /** A word that is not one of the operators, such as `gtx` or `min`, is left alone
      even when an operator is a prefix or a part of it. */
  lemma {:induction false} RewriteOtherWord(w: string)
    requires |w| > 0 && w !in Operators
    requires forall k :: 0 <= k < |w| ==> IsWordChar(w[k])
    ensures Rewrite(w, false) == w
  {
    LeadingWordIs(w, w);
    OperatorCountInsideWord(w[1..], |w| - 1);
    assert w[1..][|w| - 1..] == "";
    assert OperatorCount(w, false) == 0;
    RewriteWithoutOperators(w, false);
  }

  lemma {:induction false} RewriteExamples()
    ensures RewriteOperators("gte") == "$gte"
  {
    RewriteOperatorWord("gte");
  }

  lemma {:induction false} RewriteNearMisses()
    ensures RewriteOperators("gtx") == "gtx"
    ensures RewriteOperators("min") == "min"
  {
    RewriteOtherWord("gtx");
    RewriteOtherWord("min");
  }
}
