/** The email pattern of models/User.js, `^\w+([\.-]?\w+)*@\w+([\.-]?\w+)*(\.\w{2,3})+$`,
    as a hand-written recognizer, with the shape of the accepted addresses proved
    about it.

    Reading the pattern: `\w+([\.-]?\w+)*` is a run of `\w` characters in which a
    single `.` or `-` may stand between two of them (a "dotted word"). The local part
    is one dotted word. After the `@`, `\w+([\.-]?\w+)*(\.\w{2,3})+` is a dotted word
    whose last piece is a `.` followed by two or three `\w` characters: any earlier
    `(\.\w{2,3})` groups are themselves dotted-word pieces. */
module EmailPattern {
  import opened Strings

  predicate IsSep(c: char) {
    c == '.' || c == '-'
  }

  /** `(\w|[\.-]\w)*`: word characters, each separator followed by a word character. */
  function SepWords(s: string): bool
    decreases |s|
  {
    if |s| == 0 then true
    else if IsWordChar(s[0]) then SepWords(s[1..])
    else if IsSep(s[0]) then |s| >= 2 && IsWordChar(s[1]) && SepWords(s[2..])
    else false
  }

  /** `\w+([\.-]?\w+)*`. */
  function DottedWord(s: string): bool {
    |s| > 0 && IsWordChar(s[0]) && SepWords(s[1..])
  }

  /** The last piece is `.` followed by exactly two or three word characters. */
  function EndsWithShortSuffix(d: string): bool {
    || (|d| >= 3 && d[|d| - 3] == '.' && IsWordChar(d[|d| - 2]) && IsWordChar(d[|d| - 1]))
    || (|d| >= 4 && d[|d| - 4] == '.' && IsWordChar(d[|d| - 3]) && IsWordChar(d[|d| - 2])
        && IsWordChar(d[|d| - 1]))
  }

  /** Index of the first `@` of `s`, or `|s|` when there is none. */
  function FirstAt(s: string): (i: nat)
    ensures i <= |s|
    ensures forall k :: 0 <= k < i ==> s[k] != '@'
    ensures i < |s| ==> s[i] == '@'
    decreases |s|
  {
    if |s| == 0 then 0
    else if s[0] == '@' then 0
    else 1 + FirstAt(s[1..])
  }

  /** The recognizer: split at the first `@`; the local part is a dotted word, and
      the domain is a dotted word ending in the short suffix. A second `@` is
      rejected, since neither part may contain one. */
  function IsValidEmail(s: string): bool {
    var a := FirstAt(s);
    a < |s| && DottedWord(s[..a]) && DottedWord(s[a + 1..]) && EndsWithShortSuffix(s[a + 1..])
  }

  // ---------------------------------------------------------------------------
  // The shape of a dotted word, stated without the scanner.

  ghost predicate AllowedChars(s: string) {
    forall k :: 0 <= k < |s| ==> IsWordChar(s[k]) || IsSep(s[k])
  }

  ghost predicate NoDoubleSep(s: string) {
    forall k :: 0 <= k < |s| - 1 ==> !(IsSep(s[k]) && IsSep(s[k + 1]))
  }

  ghost predicate DottedShape(s: string) {
    && |s| > 0
    && IsWordChar(s[0])
    && IsWordChar(s[|s| - 1])
    && AllowedChars(s)
    && NoDoubleSep(s)
  }

  /** `SepWords` holds exactly of the separator-and-word texts whose every separator
      is directly followed by a word character. */
  lemma {:induction false} SepWordsShape(s: string)
    ensures SepWords(s) <==>
      (AllowedChars(s) && forall k :: 0 <= k < |s| && IsSep(s[k]) ==> k + 1 < |s| && IsWordChar(s[k + 1]))
    decreases |s|
  {
    if |s| > 0 {
      if IsWordChar(s[0]) {
        SepWordsShape(s[1..]);
        assert forall k :: 1 <= k < |s| ==> s[k] == s[1..][k - 1];
      } else if IsSep(s[0]) && |s| >= 2 && IsWordChar(s[1]) {
        SepWordsShape(s[2..]);
        assert forall k :: 2 <= k < |s| ==> s[k] == s[2..][k - 2];
      }
    }
  }

  /** A dotted word starts and ends with a word character, uses only word characters,
      `.` and `-`, and never has two separators in a row; and every such text is one. */
  lemma {:induction false} DottedWordShape(s: string)
    ensures DottedWord(s) <==> DottedShape(s)
  {
    if |s| > 0 {
      var t := s[1..];
      SepWordsShape(t);
      assert forall k :: 1 <= k < |s| ==> s[k] == t[k - 1];
      if DottedShape(s) {
        forall k | 0 <= k < |t| && IsSep(t[k])
          ensures k + 1 < |t| && IsWordChar(t[k + 1])
        {
          assert s[k + 1] == t[k];
          if k + 1 < |t| {
            assert !(IsSep(s[k + 1]) && IsSep(s[k + 2]));
          }
        }
      }
      if DottedWord(s) {
        if |s| > 1 {
          assert s[|s| - 1] == t[|t| - 1];
          assert !IsSep(t[|t| - 1]);
        }
        forall k | 0 <= k < |s| - 1
          ensures !(IsSep(s[k]) && IsSep(s[k + 1]))
        {
          if k > 0 && IsSep(s[k]) {
            assert t[k - 1] == s[k];
          }
        }
      }
    }
  }

  // ---------------------------------------------------------------------------
  // Properties of accepted addresses.

  /** An accepted address has exactly one `@`, with the local part before it and
      the domain after it, and consists of word characters, `.`, `-` and that `@`. */
  lemma {:induction false} AcceptedHasOneAt(s: string)
    requires IsValidEmail(s)
    ensures FirstAt(s) < |s| && s[FirstAt(s)] == '@'
    ensures forall k :: 0 <= k < |s| && s[k] == '@' ==> k == FirstAt(s)
    ensures forall k :: 0 <= k < |s| ==> IsWordChar(s[k]) || IsSep(s[k]) || s[k] == '@'
  {
    var a := FirstAt(s);
    DottedWordShape(s[..a]);
    DottedWordShape(s[a + 1..]);
    OneAtBetween(s, a);
  }

  /** Text made of two parts without `@`, joined by an `@`, has that `@` only. */
  lemma {:induction false} OneAtBetween(s: string, a: nat)
    requires a < |s| && s[a] == '@'
    requires AllowedChars(s[..a]) && AllowedChars(s[a + 1..])
    ensures forall k :: 0 <= k < |s| && s[k] == '@' ==> k == a
    ensures forall k :: 0 <= k < |s| ==> IsWordChar(s[k]) || IsSep(s[k]) || s[k] == '@'
  {
    var l, d := s[..a], s[a + 1..];
    forall k | 0 <= k < |s|
      ensures (IsWordChar(s[k]) || IsSep(s[k])) == (k != a)
    {
      if k < a {
        assert s[k] == l[k];
      } else if k > a {
        assert s[k] == d[k - a - 1];
      }
    }
  }

  /** The local part and the domain each start and end with a word character and
      never hold two separators in a row, and the address ends with `.` and two or
      three word characters. */
  lemma {:induction false} AcceptedShape(s: string)
    requires IsValidEmail(s)
    ensures var a := FirstAt(s);
      DottedShape(s[..a]) && DottedShape(s[a + 1..]) && EndsWithShortSuffix(s)
  {
    var a := FirstAt(s);
    DottedWordShape(s[..a]);
    var d := s[a + 1..];
    DottedWordShape(d);
    SuffixKeepsEnding(s, a + 1);
  }

  lemma {:induction false} SuffixKeepsEnding(s: string, i: nat)
    requires i <= |s| && EndsWithShortSuffix(s[i..])
    ensures EndsWithShortSuffix(s)
  {
    var d := s[i..];
    assert |d| == |s| - i;
    if |d| >= 3 {
      assert d[|d| - 3] == s[|s| - 3] && d[|d| - 2] == s[|s| - 2] && d[|d| - 1] == s[|s| - 1];
    }
    if |d| >= 4 {
      assert d[|d| - 4] == s[|s| - 4];
    }
  }

  /** Conversely, text of that shape is accepted. */
  lemma {:induction false} ShapeAccepted(l: string, d: string)
    requires DottedShape(l) && DottedShape(d) && EndsWithShortSuffix(d)
    requires '@' !in l
    ensures IsValidEmail(l + "@" + d)
  {
    var s := l + "@" + d;
    assert forall k :: 0 <= k < |l| ==> s[k] == l[k];
    assert s[|l|] == '@';
    FirstAtIs(s, |l|);
    assert s[..|l|] == l;
    assert s[|l| + 1..] == d;
    DottedWordShape(l);
    DottedWordShape(d);
  }

  lemma {:induction false} FirstAtIs(s: string, i: nat)
    requires i < |s| && s[i] == '@'
    requires forall k :: 0 <= k < i ==> s[k] != '@'
    ensures FirstAt(s) == i
    decreases i
  {
    if i > 0 {
      FirstAtIs(s[1..], i - 1);
    }
  }

  lemma {:induction false} ExampleLocalPart()
    ensures DottedWord("jo.d")
  {
    assert "jo.d"[1..] == "o.d" && "o.d"[1..] == ".d" && ".d"[2..] == "";
  }

  lemma {:induction false} ExampleDomain()
    ensures DottedWord("ma.co") && EndsWithShortSuffix("ma.co")
  {
    assert "ma.co"[1..] == "a.co" && "a.co"[1..] == ".co" && ".co"[2..] == "o" && "o"[1..] == "";
  }

  lemma {:induction false} ExampleSplit()
    ensures FirstAt("jo.d@ma.co") == 4
    ensures "jo.d@ma.co"[..4] == "jo.d" && "jo.d@ma.co"[5..] == "ma.co"
  {
    FirstAtIs("jo.d@ma.co", 4);
  }

  lemma {:induction false} AcceptedExample()
    ensures IsValidEmail("jo.d@ma.co")
  {
    ExampleSplit();
    ExampleLocalPart();
    ExampleDomain();
  }

  /** Two separators in a row are refused. */
  lemma {:induction false} RejectedDoubleDot()
    ensures !IsValidEmail("j..d@ma.co")
  {
    DoubleDotSplit();
    DoubleDotLocalPart();
  }

  lemma {:induction false} DoubleDotSplit()
    ensures FirstAt("j..d@ma.co") == 4 && "j..d@ma.co"[..4] == "j..d"
  {
    FirstAtIs("j..d@ma.co", 4);
  }

  lemma {:induction false} DoubleDotLocalPart()
    ensures !DottedWord("j..d")
  {
    assert "j..d"[1..] == "..d" && "..d"[1] == '.';
  }

  /** A last piece of four characters is refused. */
  lemma {:induction false} RejectedLongSuffix()
    ensures !IsValidEmail("a@b.comm")
  {
    FirstAtIs("a@b.comm", 1);
    assert "a@b.comm"[2..] == "b.comm";
  }
}
