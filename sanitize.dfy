/** Style-class sanitisation of tier and grade labels.

    `+` and `-` cannot stand in a style-class name, so the renderer rewrites
    them to the words `plus` and `minus`.  It does so with JavaScript's
    `String.prototype.replace` and a string pattern, which rewrites only the
    FIRST occurrence; that is what is modelled here. */
module Sanitize {

  /** The position of the first `c` in `s`. */
  function IndexOf(s: string, c: char): (i: nat)
    requires c in s
    ensures i < |s| && s[i] == c
    ensures c !in s[..i]
  {
    if s[0] == c then 0
    else
      assert c in s[1..] by { assert s == [s[0]] + s[1..]; }
      var j := IndexOf(s[1..], c);
      assert s[..j + 1] == [s[0]] + s[1..][..j];
      j + 1
  }

  /** `s.replace(c, rep)` for a one-character string pattern `c`. */
  function ReplaceFirst(s: string, c: char, rep: string): (r: string)
    ensures c !in s ==> r == s
    ensures |r| == if c in s then |s| - 1 + |rep| else |s|
  {
    if s == [] then []
    else if s[0] == c then rep + s[1..]
    else
      assert s == [s[0]] + s[1..];
      [s[0]] + ReplaceFirst(s[1..], c, rep)
  }

  /** Without a `c` the string is left as it is; otherwise exactly the first
      `c` is replaced by `rep` and everything before and after it is kept. */
  lemma {:induction false} ReplaceFirstSpec(s: string, c: char, rep: string)
    ensures c !in s ==> ReplaceFirst(s, c, rep) == s
    ensures c in s ==>
      ReplaceFirst(s, c, rep) == s[..IndexOf(s, c)] + rep + s[IndexOf(s, c) + 1..]
  {
    if s != [] && s[0] != c {
      ReplaceFirstSpec(s[1..], c, rep);
      assert s == [s[0]] + s[1..];
      if c in s {
        var j := IndexOf(s[1..], c);
        assert IndexOf(s, c) == j + 1;
        assert s[..j + 1] == [s[0]] + s[1..][..j];
        assert s[j + 2..] == s[1..][j + 1..];
      }
    }
  }

  /** Character counts after a first-occurrence replacement: one `c` is
      traded for the characters of `rep`, or nothing changes. */
  lemma ReplaceFirstMultiset(s: string, c: char, rep: string)
    ensures multiset(ReplaceFirst(s, c, rep)) ==
      if c in s then multiset(s) - multiset{c} + multiset(rep) else multiset(s)
  {
    ReplaceFirstSpec(s, c, rep);
    if c in s {
      var i := IndexOf(s, c);
      assert s == s[..i] + [c] + s[i + 1..];
      assert multiset(s) == multiset(s[..i]) + multiset{c} + multiset(s[i + 1..]);
    }
  }

  /** The class suffix of a tier: `t.replace('+', 'plus')`. */
  function TierClass(t: string): (r: string)
    ensures '+' !in t ==> r == t
    ensures |r| == if '+' in t then |t| + 3 else |t|
  {
    ReplaceFirst(t, '+', "plus")
  }

  /** The class suffix of a grade:
      `g.replace('+', 'plus').replace('-', 'minus')`. */
  function GradeClass(g: string): (r: string)
    ensures '+' !in g && '-' !in g ==> r == g
  {
    ReplaceFirst(ReplaceFirst(g, '+', "plus"), '-', "minus")
  }

  /** The count of one character `d` after a first-occurrence replacement. */
  lemma ReplaceFirstCount(s: string, c: char, rep: string, d: char)
    ensures multiset(ReplaceFirst(s, c, rep))[d] ==
      if c in s then multiset(s)[d] - (if d == c then 1 else 0) + multiset(rep)[d] else multiset(s)[d]
  {
    ReplaceFirstMultiset(s, c, rep);
  }

  /** A tier loses one `+` if it has any, and its `-` characters are
      untouched: only `+` is sanitised in a tier. */
  lemma TierClassCounts(t: string)
    ensures multiset(TierClass(t))['+'] ==
      if multiset(t)['+'] > 0 then multiset(t)['+'] - 1 else 0
    ensures multiset(TierClass(t))['-'] == multiset(t)['-']
  {
    assert multiset("plus")['+'] == 0 && multiset("plus")['-'] == 0;
    ReplaceFirstCount(t, '+', "plus", '+');
    ReplaceFirstCount(t, '+', "plus", '-');
  }

  /** A grade loses one `+` if it has any and one `-` if it has any. */
  lemma GradeClassCounts(g: string)
    ensures multiset(GradeClass(g))['+'] ==
      if multiset(g)['+'] > 0 then multiset(g)['+'] - 1 else 0
    ensures multiset(GradeClass(g))['-'] ==
      if multiset(g)['-'] > 0 then multiset(g)['-'] - 1 else 0
  {
    var g1 := ReplaceFirst(g, '+', "plus");
    assert multiset("plus")['+'] == 0 && multiset("plus")['-'] == 0;
    assert multiset("minus")['+'] == 0 && multiset("minus")['-'] == 0;
    ReplaceFirstCount(g, '+', "plus", '+');
    ReplaceFirstCount(g, '+', "plus", '-');
    ReplaceFirstCount(g1, '-', "minus", '+');
    ReplaceFirstCount(g1, '-', "minus", '-');
  }

  /** The grade class is a valid class name (no `+`, no `-`) exactly when
      the grade holds at most one `+` and at most one `-`. */
  lemma {:induction false} GradeClassSafe(g: string)
    ensures ('+' !in GradeClass(g) && '-' !in GradeClass(g)) <==>
      (multiset(g)['+'] <= 1 && multiset(g)['-'] <= 1)
  {
    GradeClassCounts(g);
  }

  /** A one-character string `[x]` followed by `rest`, when `x` is not `c`,
      keeps `x` in front of the rewritten rest. */
  lemma ReplaceFirstCons(x: char, rest: string, c: char, rep: string)
    requires x != c
    ensures ReplaceFirst([x] + rest, c, rep) == [x] + ReplaceFirst(rest, c, rep)
  {
    assert ([x] + rest)[1..] == rest;
  }

  /** The tiers of the grid and typical grades: `+` and `-` become words. */
  lemma SanitiseExamples()
    ensures GradeClass("A+") == "Aplus" && GradeClass("B-") == "Bminus"
    ensures GradeClass("A") == "A"
    ensures TierClass("S+") == "Splus" && TierClass("A+") == "Aplus"
    ensures TierClass("S") == "S" && TierClass("A") == "A"
  {
    assert ReplaceFirst("+", '+', "plus") == "plus";
    ReplaceFirstCons('A', "+", '+', "plus");
    ReplaceFirstCons('S', "+", '+', "plus");
    assert "A+" == ['A'] + "+" && "S+" == ['S'] + "+";
    assert "plus" + [] == "plus";
    ReplaceFirstSpec("Aplus", '-', "minus");
    ReplaceFirstSpec("B-", '+', "plus");
    assert ReplaceFirst("-", '-', "minus") == "minus";
    ReplaceFirstCons('B', "-", '-', "minus");
    assert "B-" == ['B'] + "-";
    ReplaceFirstSpec("S", '+', "plus");
    ReplaceFirstSpec("A", '+', "plus");
  }

  /** Only the first occurrence is rewritten, and a tier keeps its `-`. */
  lemma FirstOccurrenceOnly()
    ensures TierClass("S++") == "Splus+"
    ensures GradeClass("A--") == "Aminus-"
    ensures TierClass("B-") == "B-"
  {
    assert ReplaceFirst("++", '+', "plus") == "plus+";
    ReplaceFirstCons('S', "++", '+', "plus");
    assert "S++" == ['S'] + "++";
    ReplaceFirstSpec("A--", '+', "plus");
    assert ReplaceFirst("--", '-', "minus") == "minus-";
    ReplaceFirstCons('A', "--", '-', "minus");
    assert "A--" == ['A'] + "--";
    ReplaceFirstSpec("B-", '+', "plus");
  }
}
