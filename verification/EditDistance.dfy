/**
  The spelling-correction rule of the shared run domain: the rolling-row edit distance
  and the relation built on it.
*/
module EditDistance {
  import opened Common

  /** Levenshtein distance by recursion on the last characters: the reference definition. */
  function Distance(a: string, b: string): nat
    decreases |a| + |b|
  {
    if a == [] then |b|
    else if b == [] then |a|
    else
      var a', b' := a[..|a| - 1], b[..|b| - 1];
      Min(Min(Distance(a', b) + 1, Distance(a, b') + 1),
          Distance(a', b') + if a[|a| - 1] == b[|b| - 1] then 0 else 1)
  }

  /** row[k] is the distance from the prefix p to b[..k], for every k below `upTo`. */
  ghost predicate IsRow(row: seq<int>, p: string, b: string, upTo: nat)
  {
    upTo <= |row| && upTo <= |b| + 1 &&
    forall k | 0 <= k < upTo :: row[k] == Distance(p, b[..k])
  }

  lemma RowAt(row: seq<int>, p: string, b: string, upTo: nat, k: nat)
    requires IsRow(row, p, b, upTo) && k < upTo
    ensures k < |row| && k <= |b| && row[k] == Distance(p, b[..k])
  {
  }

  lemma RowGrows(row: seq<int>, p: string, b: string, j: nat, x: int)
    requires IsRow(row, p, b, j) && j < |row| && j <= |b| && x == Distance(p, b[..j])
    ensures IsRow(row[j := x], p, b, j + 1)
  {
  }

  lemma FirstCell(row: seq<int>, p: string, b: string)
    requires row != []
    ensures IsRow(row[0 := |p|], p, b, 1)
  {
  }

  /** The recurrence. */
  lemma LastStep(a: string, b: string)
    requires a != "" && b != ""
    ensures var a', b' := a[..|a| - 1], b[..|b| - 1];
            Distance(a, b) ==
            Min(Min(Distance(a', b) + 1, Distance(a, b') + 1),
                Distance(a', b') + if a[|a| - 1] == b[|b| - 1] then 0 else 1)
  {
  }

  /** The recurrence, on prefixes of the two names. */
  lemma Cell(a: string, b: string, i: nat, j: nat)
    requires 1 <= i <= |a| && 1 <= j <= |b|
    ensures Distance(a[..i], b[..j]) ==
            Min(Min(Distance(a[..i - 1], b[..j]) + 1, Distance(a[..i], b[..j - 1]) + 1),
                Distance(a[..i - 1], b[..j - 1]) + if a[i - 1] == b[j - 1] then 0 else 1)
  {
    hide Distance, Min;
    LastStep(a[..i], b[..j]);
    Cut(a, i);
    Cut(b, j);
  }

  lemma Cut(s: string, i: nat)
    requires 1 <= i <= |s|
    ensures |s[..i]| == i && s[..i][..|s[..i]| - 1] == s[..i - 1] && s[..i][|s[..i]| - 1] == s[i - 1]
  {
  }

  /** One row from the row above it. */
  method NextRow(a: string, i: nat, b: string, prev: array<int>, cur: array<int>)
    requires 1 <= i <= |a| && prev.Length == cur.Length == |b| + 1 && prev != cur
    requires IsRow(prev[..], a[..i - 1], b, |b| + 1)
    modifies cur
    ensures IsRow(cur[..], a[..i], b, |b| + 1)
  {
    hide Distance, IsRow, Min;
    ghost var start := cur[..];
    cur[0] := i;
    assert cur[..] == start[0 := i];
    FirstCell(start, a[..i], b);
    for j := 1 to |b| + 1
      invariant IsRow(cur[..], a[..i], b, j)
    {
      Cell(a, b, i, j);
      RowAt(prev[..], a[..i - 1], b, |b| + 1, j);
      RowAt(prev[..], a[..i - 1], b, |b| + 1, j - 1);
      RowAt(cur[..], a[..i], b, j, j - 1);
      ghost var before := cur[..];
      cur[j] := Min(Min(prev[j] + 1, cur[j - 1] + 1),
                    prev[j - 1] + if a[i - 1] == b[j - 1] then 0 else 1);
      assert cur[..] == before[j := cur[j]];
      RowGrows(before, a[..i], b, j, cur[j]);
    }
  }

  /** `prev` and `cur` are the only two rows ever kept; row i holds the distances from a[..i]. */
  method Compute(a: string, b: string) returns (d: int)
    ensures d == Distance(a, b)
  {
    var m, n := |a|, |b|;
    var prev, cur := new int[n + 1], new int[n + 1];
    for j := 0 to n + 1
      invariant IsRow(prev[..], a[..0], b, j)
    {
      prev[j] := j;
    }
    for i := 1 to m + 1
      invariant IsRow(prev[..], a[..i - 1], b, n + 1)
    {
      NextRow(a, i, b, prev, cur);
      for j := 0 to n + 1
        invariant IsRow(cur[..], a[..i], b, n + 1) && IsRow(prev[..], a[..i], b, j)
      {
        assert cur[..][j] == cur[j];
        prev[j] := cur[j];
      }
    }
    assert a[..m] == a && b[..n] == b;
    d := prev[..][n];
  }

  lemma {:induction false} Symmetric(a: string, b: string)
    ensures Distance(a, b) == Distance(b, a)
    decreases |a| + |b|
  {
    if a != [] && b != [] {
      var a', b' := a[..|a| - 1], b[..|b| - 1];
      Symmetric(a', b);
      Symmetric(a, b');
      Symmetric(a', b');
    }
  }

  /** No edit script is shorter than the difference of the lengths. */
  lemma {:induction false} LengthBound(a: string, b: string)
    ensures |a| - |b| <= Distance(a, b)
    ensures |b| - |a| <= Distance(a, b)
    decreases |a| + |b|
  {
    if a != [] && b != [] {
      var a', b' := a[..|a| - 1], b[..|b| - 1];
      LengthBound(a', b);
      LengthBound(a, b');
      LengthBound(a', b');
    }
  }

  lemma {:induction false} ZeroIffEqual(a: string, b: string)
    ensures Distance(a, b) == 0 <==> a == b
    decreases |a| + |b|
  {
    if a != [] && b != [] {
      var a', b' := a[..|a| - 1], b[..|b| - 1];
      ZeroIffEqual(a', b');
      assert a == a' + [a[|a| - 1]] && b == b' + [b[|b| - 1]];
    }
  }

  /** An intermediate spelling never makes two names closer than they are. */
  lemma {:induction false} Triangle(a: string, b: string, c: string)
    ensures Distance(a, c) <= Distance(a, b) + Distance(b, c)
    decreases |a| + |b| + |c|
  {
    if a == [] {
      LengthBound(b, c);
    } else if c == [] {
      LengthBound(a, b);
    } else if b == [] {
      LengthBound(a[..|a| - 1], c);
      TrivialBound(a, c);
    } else {
      var a', b', c' := a[..|a| - 1], b[..|b| - 1], c[..|c| - 1];
      Triangle(a', b, c);
      Triangle(a, b, c');
      Triangle(a, b', c);
      Triangle(a, b', c');
      Triangle(a', b', c);
      Triangle(a', b', c');
    }
  }

  /** Deleting all of a and typing all of b is one way to get from a to b. */
  lemma {:induction false} TrivialBound(a: string, b: string)
    ensures Distance(a, b) <= |a| + |b|
    decreases |a| + |b|
  {
    if a != [] && b != [] {
      TrivialBound(a[..|a| - 1], b);
    }
  }

  // ---------------------------------------------------------------- what the distance counts

  /** u + x + v becomes u + y + v: one letter put in, taken out or replaced, or nothing. */
  ghost predicate EditAt(a: string, b: string, u: string, x: string, y: string, v: string)
  {
    |x| <= 1 && |y| <= 1 && a == u + x + v && b == u + y + v
  }

  ghost predicate OneEdit(a: string, b: string) { exists u, x, y, v :: EditAt(a, b, u, x, y, v) }

  ghost predicate Edits(a: string, b: string, k: nat)
    decreases k
  {
    if k == 0 then a == b else exists m :: OneEdit(a, m) && Edits(m, b, k - 1)
  }

  lemma {:induction false} SuffixCostsNothing(s: string, t: string, v: string)
    ensures Distance(s + v, t + v) <= Distance(s, t)
  {
    if v == "" {
      assert s + v == s && t + v == t;
    } else {
      var v' := v[..|v| - 1];
      SuffixCostsNothing(s, t, v');
      assert (s + v)[..|s + v| - 1] == s + v' && (t + v)[..|t + v| - 1] == t + v';
    }
  }

  lemma ReplaceCost(u: string, x: string, y: string)
    requires |x| == |y| == 1
    ensures Distance(u + x, u + y) <= 1
  {
    LastStep(u + x, u + y);
    hide Distance;
    ZeroIffEqual(u, u);
    assert (u + x)[..|u + x| - 1] == u && (u + y)[..|u + y| - 1] == u;
  }

  lemma EditCostsOne(a: string, b: string)
    requires OneEdit(a, b)
    ensures Distance(a, b) <= 1
  {
    hide Distance;
    var u, x, y, v :| EditAt(a, b, u, x, y, v);
    SuffixCostsNothing(u + x, u + y, v);
    AppendCost(u, x);
    AppendCost(u, y);
    if x == "" {
      assert u + x == u;
    } else if y == "" {
      assert u + y == u;
      Symmetric(u + x, u);
    } else {
      ReplaceCost(u, x, y);
    }
  }

  lemma {:induction false} EditsCost(a: string, b: string, k: nat)
    requires Edits(a, b, k)
    ensures Distance(a, b) <= k
    decreases k
  {
    hide Distance, OneEdit;
    if k == 0 {
      ZeroIffEqual(a, b);
    } else {
      var m :| OneEdit(a, m) && Edits(m, b, k - 1);
      EditCostsOne(a, m);
      EditsCost(m, b, k - 1);
      Triangle(a, m, b);
    }
  }

  lemma {:induction false} OneMore(a: string, m: string, b: string, k: nat)
    requires Edits(a, m, k) && OneEdit(m, b)
    ensures Edits(a, b, k + 1)
    decreases k
  {
    hide OneEdit;
    if k == 0 {
      assert OneEdit(a, b) && Edits(b, b, 0);
    } else {
      var n :| OneEdit(a, n) && Edits(n, m, k - 1);
      OneMore(n, m, b, k - 1);
      assert OneEdit(a, n) && Edits(n, b, k);
    }
  }

  lemma {:induction false} EditsBefore(s: string, t: string, v: string, k: nat)
    requires Edits(s, t, k)
    ensures Edits(s + v, t + v, k)
    decreases k
  {
    if k > 0 {
      var m :| OneEdit(s, m) && Edits(m, t, k - 1);
      EditsBefore(m, t, v, k - 1);
      var u, x, y, w :| EditAt(s, m, u, x, y, w);
      assert u + x + w + v == u + x + (w + v) && u + y + w + v == u + y + (w + v);
      assert EditAt(s + v, m + v, u, x, y, w + v);
      assert OneEdit(s + v, m + v) && Edits(m + v, t + v, k - 1);
    }
  }

  lemma LastEdit(s: string, x: string, y: string)
    requires |x| <= 1 && |y| <= 1
    ensures OneEdit(s + x, s + y)
  {
    assert EditAt(s + x, s + y, s, x, y, "") by {
      assert s + x + "" == s + x && s + y + "" == s + y;
    }
  }

  lemma LastLetter(s: string)
    requires s != ""
    ensures var front := s[..|s| - 1];
            s == front + [s[|s| - 1]] && OneEdit(s, front) && OneEdit(front, s)
  {
    var front, c := s[..|s| - 1], [s[|s| - 1]];
    assert s == front + c && front == front + "";
    LastEdit(front, c, "");
    LastEdit(front, "", c);
  }

  lemma {:induction false} EditsReach(a: string, b: string)
    ensures Edits(a, b, Distance(a, b))
    decreases |a| + |b|, 1
  {
    hide OneEdit;
    if a == "" && b != "" {
      LastLetter(b);
      EditsReach(a, b[..|b| - 1]);
      OneMore(a, b[..|b| - 1], b, |b| - 1);
    } else if a != "" && b == "" {
      LastLetter(a);
      EditsReach(a[..|a| - 1], b);
      assert OneEdit(a, a[..|a| - 1]) && Edits(a[..|a| - 1], b, |a| - 1);
    } else if a != "" {
      ReachBoth(a, b);
    }
  }

  /** Both names end in a letter of their own, which is replaced unless it is the same. */
  lemma Diagonal(a: string, b: string, k: nat)
    requires a != "" && b != "" && Edits(a[..|a| - 1], b[..|b| - 1], k)
    ensures Edits(a, b, k + if a[|a| - 1] == b[|b| - 1] then 0 else 1)
  {
    hide OneEdit, Edits;
    var a', b', c, e := a[..|a| - 1], b[..|b| - 1], [a[|a| - 1]], [b[|b| - 1]];
    LastLetter(a);
    LastLetter(b);
    EditsBefore(a', b', c, k);
    if a[|a| - 1] != b[|b| - 1] {
      LastEdit(b', c, e);
      OneMore(a, b' + c, b, k);
    }
  }

  /** Which of the three the recurrence took. */
  lemma LastChoice(a: string, b: string)
    requires a != "" && b != ""
    ensures Distance(a, b) == Distance(a[..|a| - 1], b) + 1 || Distance(a, b) == Distance(a, b[..|b| - 1]) + 1 ||
            Distance(a, b) == Distance(a[..|a| - 1], b[..|b| - 1]) + if a[|a| - 1] == b[|b| - 1] then 0 else 1
  {
    LastStep(a, b);
    hide Distance;
  }

  lemma {:induction false} ReachBoth(a: string, b: string)
    requires a != "" && b != ""
    ensures Edits(a, b, Distance(a, b))
    decreases |a| + |b|, 0
  {
    hide OneEdit, Edits, Distance, Min;
    LastChoice(a, b);
    var a', b', d := a[..|a| - 1], b[..|b| - 1], Distance(a, b);
    if d == Distance(a', b) + 1 {
      EditsReach(a', b);
      LastLetter(a);
      FirstEdit(a, a', b, d - 1);
    } else if d == Distance(a, b') + 1 {
      EditsReach(a, b');
      LastLetter(b);
      OneMore(a, b', b, d - 1);
    } else {
      EditsReach(a', b');
      Diagonal(a, b, Distance(a', b'));
    }
  }

  lemma FirstEdit(a: string, m: string, b: string, k: nat)
    requires OneEdit(a, m) && Edits(m, b, k)
    ensures Edits(a, b, k + 1)
  {
  }

  lemma {:induction false} MoreEdits(a: string, b: string, k: nat, more: nat)
    requires Edits(a, b, k) && k <= more
    ensures Edits(a, b, more)
    decreases more - k
  {
    if k < more {
      LastEdit(b, "", "");
      assert b + "" == b;
      OneMore(a, b, b, k);
      MoreEdits(a, b, k + 1, more);
    }
  }

  /** The distance is the least number of letters to put in, take out or replace that makes one name the other. */
  lemma DistanceIsEdits(a: string, b: string, k: nat)
    ensures Distance(a, b) <= k <==> Edits(a, b, k)
  {
    hide Edits;
    if Distance(a, b) <= k {
      EditsReach(a, b);
      MoreEdits(a, b, Distance(a, b), k);
    }
    if Edits(a, b, k) { EditsCost(a, b, k); }
  }

  // ---------------------------------------------------------------- corrections

  /** The words of a normalised name, cut at single spaces. */
  function Words(s: string): seq<string>
  {
    if s == [] then [[]]
    else
      var rest, last := Words(s[..|s| - 1]), s[|s| - 1];
      if last == ' ' then rest + [[]] else rest[..|rest| - 1] + [rest[|rest| - 1] + [last]]
  }

  /** The words with single spaces between them. */
  function Joined(words: seq<string>): string
  {
    if |words| == 0 then "" else if |words| == 1 then words[0]
    else Joined(words[..|words| - 1]) + " " + words[|words| - 1]
  }

  lemma {:induction false} WordsJoin(s: string)
    ensures Words(s) != [] && Joined(Words(s)) == s
  {
    if s != "" {
      var front, last := s[..|s| - 1], s[|s| - 1];
      WordsJoin(front);
      var rest, ws := Words(front), Words(s);
      assert s == front + [last];
      if last == ' ' {
        assert ws[..|ws| - 1] == rest && Joined(ws) == Joined(rest) + " " + "";
      } else {
        assert ws[..|ws| - 1] == rest[..|rest| - 1] && ws[|ws| - 1] == rest[|rest| - 1] + [last];
      }
    }
  }

  lemma {:induction false} NoSpaceInside(s: string)
    ensures forall i | 0 <= i < |Words(s)| :: ' ' !in Words(s)[i]
  {
    if s != "" { NoSpaceInside(s[..|s| - 1]); }
  }

  /** Cutting takes out the spaces and nothing else. */
  lemma WordsAreParts(s: string)
    ensures Joined(Words(s)) == s && forall w <- Words(s) :: ' ' !in w
  {
    WordsJoin(s);
    NoSpaceInside(s);
  }

  /** Comparing the sorted words joined back together is comparing the words as a multiset. */
  predicate SameWords(a: string, b: string) { multiset(Words(a)) == multiset(Words(b)) }

  /** Both names are already normalised (upper case, single spaces, no surrounding space). */
  method IsSpellingCorrection(a: string, b: string) returns (ok: bool)
    ensures ok == SpellingCorrection(a, b)
  {
    if a == [] || b == [] { return false; }
    if a == b { return true; }
    if SameWords(a, b) { return true; }
    var d := Compute(a, b);
    return d <= 2 && Min(|a|, |b|) >= 3;
  }

  /** The relation in terms of the metric: both names present, and a reordering or at most two typos. */
  predicate SpellingCorrection(a: string, b: string)
  {
    a != [] && b != [] &&
    (SameWords(a, b) || (Distance(a, b) <= 2 && |a| >= 3 && |b| >= 3))
  }

  /** The relation does not depend on which spelling came first, and keeps every present name. */
  lemma CorrectionIsSymmetric(a: string, b: string)
    ensures SpellingCorrection(a, b) <==> SpellingCorrection(b, a)
    ensures SpellingCorrection(a, a) <==> a != []
  {
    Symmetric(a, b);
  }

  /**
    Two accepted typo corrections in a row stay within four edits and move the length by at most four,
    so a chain of corrections drifts by a bounded amount per link.
  */
  lemma CorrectionsDriftSlowly(a: string, b: string, c: string)
    requires SpellingCorrection(a, b) && !SameWords(a, b)
    requires SpellingCorrection(b, c) && !SameWords(b, c)
    ensures Distance(a, c) <= 4 && -4 <= |a| - |c| <= 4
  {
    Triangle(a, b, c);
    LengthBound(a, c);
  }

  /** A word with the space behind it. */
  function Length(w: string): int { |w| + 1 }

  lemma {:induction false} WordLengths(s: string)
    ensures SumBy(Words(s), Length) == |s| + 1
  {
    if s == [] {
      assert Words(s)[..0] == [];
    } else {
      var rest, last := Words(s[..|s| - 1]), s[|s| - 1];
      WordLengths(s[..|s| - 1]);
      if last == ' ' {
        SumByAppend(rest, [], Length);
      } else {
        var n := |rest| - 1;
        SumByAppend(rest[..n], rest[n] + [last], Length);
      }
    }
  }

  /** Reordering words does not change the length of a name. */
  lemma SameWordsLength(a: string, b: string)
    ensures SameWords(a, b) ==> |a| == |b|
  {
    WordLengths(a);
    WordLengths(b);
    if SameWords(a, b) { SumByPermutation(Words(a), Words(b), Length); }
  }

  /** Four letters more in two accepted steps, but not in one. */
  lemma TwoStepsTooFar(a: string, t: string, u: string)
    requires |a| >= 3 && |t| == 2 && |u| == 2
    ensures SpellingCorrection(a, a + t) && SpellingCorrection(a + t, a + t + u)
    ensures !SpellingCorrection(a, a + t + u)
  {
    AppendCost(a, t);
    AppendCost(a + t, u);
    LengthBound(a, a + t + u);
    SameWordsLength(a, a + t + u);
  }

  predicate IsNameChar(c: char) { 'A' <= c <= 'Z' || '0' <= c <= '9' || '\U{4e00}' <= c <= '\U{9fa5}' }

  /** What normalising leaves: words of capitals, digits and Chinese characters, one space between them. */
  predicate Normalised(s: string)
  {
    s != [] && IsNameChar(s[0]) && IsNameChar(s[|s| - 1]) &&
    forall i | 0 <= i < |s| :: IsNameChar(s[i]) || (s[i] == ' ' && i > 0 && s[i - 1] != ' ')
  }

  /**
    Among normalised names, corrections of a name chain exactly when it has fewer than three letters, where only
    reorderings are accepted.
  */
  lemma CorrectionsChainIff(a: string)
    requires Normalised(a)
    ensures (forall b, c | Normalised(b) && Normalised(c) ::
               SpellingCorrection(a, b) && SpellingCorrection(b, c) ==> SpellingCorrection(a, c)) <==> |a| < 3
  {
    if |a| < 3 {
      forall b, c | SpellingCorrection(a, b) && SpellingCorrection(b, c) ensures SpellingCorrection(a, c) {
        SameWordsLength(a, b);
      }
    } else {
      assert Normalised(a + "XX") && Normalised(a + "XX" + "YY");
      TwoStepsTooFar(a, "XX", "YY");
    }
  }

  /** Appending t costs at most |t| edits. */
  lemma {:induction false} AppendCost(s: string, t: string)
    ensures Distance(s, s + t) <= |t|
  {
    if t == [] {
      assert s + t == s;
      ZeroIffEqual(s, s);
    } else {
      var t' := t[..|t| - 1];
      AppendCost(s, t');
      assert (s + t)[..|s + t| - 1] == s + t';
    }
  }
}
