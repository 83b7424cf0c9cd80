/** Typo suggestions: the edit distance and the nearest known keyword. */
module Levenshtein {

  function Min3(x: nat, y: nat, z: nat): nat {
    if x <= y && x <= z then x else if y <= z then y else z
  }

  function Cost(c: char, d: char): nat {
    if c == d then 0 else 1
  }

  function Init(s: string): string
    requires s != ""
  {
    s[..|s| - 1]
  }

  function Last(s: string): char
    requires s != ""
  {
    s[|s| - 1]
  }

  /** The distance by its recurrence on the last characters. */
  function Dist(a: string, b: string): nat
    decreases |a| + |b|
  {
    if a == "" then |b|
    else if b == "" then |a|
    else Min3(Dist(Init(a), b) + 1, Dist(a, Init(b)) + 1, Dist(Init(a), Init(b)) + Cost(Last(a), Last(b)))
  }

  lemma DistCell(a: string, i: nat, b: string, j: nat, x: string, y: string)
    requires 0 < i <= |a| && 0 < j <= |b| && x == a[..i] && y == b[..j]
    ensures Dist(x, y) == Min3(Dist(a[..i - 1], y) + 1, Dist(x, b[..j - 1]) + 1,
                               Dist(a[..i - 1], b[..j - 1]) + Cost(a[i - 1], b[j - 1]))
  {
    assert Init(x) == a[..i - 1] && Init(y) == b[..j - 1];
  }

  /** The first j + 1 entries of the row for the i-th character c of a, given the row above. */
  function RowFrom(above: seq<nat>, i: nat, c: char, b: string, j: nat): (row: seq<nat>)
    requires |above| == |b| + 1 && j <= |b|
    ensures |row| == j + 1
  {
    if j == 0 then [i] else
      var row := RowFrom(above, i, c, b, j - 1);
      row + [Min3(above[j] + 1, row[j - 1] + 1, above[j - 1] + Cost(c, b[j - 1]))]
  }

  /** A row holds the distances between a prefix of a and every prefix of b. */
  ghost predicate IsRow(row: seq<nat>, x: string, b: string) {
    |row| <= |b| + 1 && forall k | 0 <= k < |row| :: row[k] == Dist(x, b[..k])
  }

  lemma {:induction false} RowFromIsRow(above: seq<nat>, a: string, i: nat, b: string, j: nat)
    requires 0 < i <= |a| && j <= |b| && |above| == |b| + 1 && IsRow(above, a[..i - 1], b)
    ensures IsRow(RowFrom(above, i, a[i - 1], b, j), a[..i], b)
  {
    var row := RowFrom(above, i, a[i - 1], b, j);
    if j == 0 {
      assert b[..0] == "";
    } else {
      RowFromIsRow(above, a, i, b, j - 1);
      forall k | 0 <= k < |row| ensures row[k] == Dist(a[..i], b[..k]) {
        if k == j {
          DistCell(a, i, b, j, a[..i], b[..j]);
        }
      }
    }
  }

  /** levenshtein: two rows, swapped after each character of a. */
  method Distance(a: string, b: string) returns (d: nat)
    ensures d == Dist(a, b)
  {
    if |a| == 0 {
      return |b|;
    }
    if |b| == 0 {
      return |a|;
    }
    var prev, curr := new nat[|b| + 1], new nat[|b| + 1];
    for j := 0 to |b| + 1
      invariant forall k | 0 <= k < j :: prev[k] == k
    {
      prev[j] := j;
    }
    for i := 1 to |a| + 1
      invariant prev != curr && prev.Length == curr.Length == |b| + 1 && fresh(prev) && fresh(curr)
      invariant IsRow(prev[..], a[..i - 1], b)
    {
      FillRow(i, a[i - 1], b, prev, curr);
      RowFromIsRow(prev[..], a, i, b, |b|);
      prev, curr := curr, prev;
    }
    assert a[..|a|] == a && b[..|b|] == b;
    return prev[|b|];
  }

  /** The inner loop, for the i-th character c of a. */
  method FillRow(i: nat, c: char, b: string, prev: array<nat>, curr: array<nat>)
    requires prev != curr && prev.Length == curr.Length == |b| + 1
    modifies curr
    ensures curr[..] == RowFrom(prev[..], i, c, b, |b|)
  {
    curr[0] := i;
    for j := 1 to |b| + 1
      invariant curr[..j] == RowFrom(prev[..], i, c, b, j - 1)
    {
      var cost := 1;
      if c == b[j - 1] {
        cost := 0;
      }
      var del, ins, sub := prev[j] + 1, curr[j - 1] + 1, prev[j - 1] + cost;
      var min := del;
      if ins < min {
        min := ins;
      }
      if sub < min {
        min := sub;
      }
      ghost var row := curr[..j];
      curr[j] := min;
      assert curr[..j + 1] == row + [min];
    }
    assert curr[..|b| + 1] == curr[..];
  }

  // ---- the distance is a metric ----

  lemma {:induction false} DistSymmetric(a: string, b: string)
    ensures Dist(a, b) == Dist(b, a)
    decreases |a| + |b|
  {
    if a != "" && b != "" {
      DistSymmetric(Init(a), b);
      DistSymmetric(a, Init(b));
      DistSymmetric(Init(a), Init(b));
    }
  }

  lemma {:induction false} DistZero(a: string, b: string)
    ensures Dist(a, b) == 0 <==> a == b
    decreases |a| + |b|
  {
    if a != "" && b != "" {
      DistZero(Init(a), Init(b));
      assert a == Init(a) + [Last(a)] && b == Init(b) + [Last(b)];
    }
  }

  lemma {:induction false} DistBounds(a: string, b: string)
    ensures |b| <= |a| + Dist(a, b) && |a| <= |b| + Dist(a, b) && Dist(a, b) <= |a| + |b|
    decreases |a| + |b|
  {
    if a != "" && b != "" {
      DistBounds(Init(a), b);
      DistBounds(a, Init(b));
      DistBounds(Init(a), Init(b));
    }
  }

  lemma {:induction false} Triangle(a: string, b: string, c: string)
    ensures Dist(a, c) <= Dist(a, b) + Dist(b, c)
    decreases |a| + |b| + |c|
  {
    if a == "" || b == "" || c == "" {
      DistBounds(a, b);
      DistBounds(b, c);
      DistBounds(a, c);
    } else {
      Triangle(Init(a), b, c);
      Triangle(a, b, Init(c));
      Triangle(a, Init(b), c);
      Triangle(a, Init(b), Init(c));
      Triangle(Init(a), Init(b), c);
      Triangle(Init(a), Init(b), Init(c));
      TriangleStep(a, b, c, Dist(a, b), Dist(b, c));
    }
  }

  /** The inductive step, by which edit ends each of the two shortest scripts. */
  lemma TriangleStep(a: string, b: string, c: string, ab: nat, bc: nat)
    requires a != "" && b != "" && c != "" && ab == Dist(a, b) && bc == Dist(b, c)
    requires Dist(Init(a), c) <= Dist(Init(a), b) + bc && Dist(a, Init(c)) <= ab + Dist(b, Init(c))
    requires Dist(a, c) <= Dist(a, Init(b)) + Dist(Init(b), c)
    requires Dist(a, Init(c)) <= Dist(a, Init(b)) + Dist(Init(b), Init(c))
    requires Dist(Init(a), c) <= Dist(Init(a), Init(b)) + Dist(Init(b), c)
    requires Dist(Init(a), Init(c)) <= Dist(Init(a), Init(b)) + Dist(Init(b), Init(c))
    ensures Dist(a, c) <= ab + bc
  {
    DistBelow(a, c);
    LastOf(a, b);
    LastOf(b, c);
    TriangleArithmetic(ab, Dist(Init(a), b), Dist(a, Init(b)), Dist(Init(a), Init(b)), Cost(Last(a), Last(b)),
                       bc, Dist(Init(b), c), Dist(b, Init(c)), Dist(Init(b), Init(c)), Cost(Last(b), Last(c)),
                       Dist(a, c), Dist(Init(a), c), Dist(a, Init(c)), Dist(Init(a), Init(c)), Cost(Last(a), Last(c)));
  }

  /** A zero after a letter marks a string that lost its last character. */
  lemma TriangleArithmetic(ab: nat, a0b: nat, ab0: nat, a0b0: nat, abCost: nat,
                           bc: nat, b0c: nat, bc0: nat, b0c0: nat, bcCost: nat,
                           ac: nat, a0c: nat, ac0: nat, a0c0: nat, acCost: nat)
    requires ab == a0b + 1 || ab == ab0 + 1 || ab == a0b0 + abCost
    requires bc == b0c + 1 || bc == bc0 + 1 || bc == b0c0 + bcCost
    requires ac <= a0c + 1 && ac <= ac0 + 1 && ac <= a0c0 + acCost
    requires acCost <= abCost + bcCost
    requires a0c <= a0b + bc && ac0 <= ab + bc0 && ac <= ab0 + b0c
    requires ac0 <= ab0 + b0c0 && a0c <= a0b0 + b0c && a0c0 <= a0b0 + b0c0
    ensures ac <= ab + bc
  {
  }

  lemma DistBelow(a: string, b: string)
    requires a != "" && b != ""
    ensures Dist(a, b) <= Dist(Init(a), b) + 1 && Dist(a, b) <= Dist(a, Init(b)) + 1
    ensures Dist(a, b) <= Dist(Init(a), Init(b)) + Cost(Last(a), Last(b))
  {
  }

  lemma LastOf(a: string, b: string)
    requires a != "" && b != ""
    ensures || Dist(a, b) == Dist(Init(a), b) + 1 || Dist(a, b) == Dist(a, Init(b)) + 1
            || Dist(a, b) == Dist(Init(a), Init(b)) + Cost(Last(a), Last(b))
  {
  }

  // ---- edit scripts ----

  predicate Inserts(s: string, t: string, i: nat, c: char) {
    i <= |s| && t == s[..i] + [c] + s[i..]
  }

  predicate Deletes(s: string, t: string, i: nat) {
    i < |s| && t == s[..i] + s[i + 1..]
  }

  predicate Replaces(s: string, t: string, i: nat, c: char) {
    i < |s| && t == s[..i] + [c] + s[i + 1..]
  }

  /** t is s with one character inserted, deleted or replaced. */
  ghost predicate OneEdit(s: string, t: string) {
    || (exists i: nat, c :: Inserts(s, t, i, c))
    || (exists i: nat :: Deletes(s, t, i))
    || (exists i: nat, c :: Replaces(s, t, i, c))
  }

  /** A script of edits, written as the strings it goes through. */
  ghost predicate IsScript(script: seq<string>, a: string, b: string) {
    && script != [] && script[0] == a && script[|script| - 1] == b
    && forall k | 0 <= k < |script| - 1 :: OneEdit(script[k], script[k + 1])
  }

  lemma {:induction false} DistSuffix(x: string, y: string, z: string)
    ensures Dist(x + z, y + z) <= Dist(x, y)
  {
    if z == "" {
      assert x + z == x && y + z == y;
    } else {
      DistSuffix(x, y, Init(z));
      assert Init(x + z) == x + Init(z) && Init(y + z) == y + Init(z);
    }
  }

  lemma OneEditCosts(s: string, t: string)
    requires OneEdit(s, t)
    ensures Dist(s, t) <= 1
  {
    if i: nat, c :| Inserts(s, t, i, c) {
      InsertCosts(s, t, i, c);
    } else if i: nat :| Deletes(s, t, i) {
      DeleteCosts(s, t, i);
    } else {
      var i: nat, c :| Replaces(s, t, i, c);
      ReplaceCosts(s, t, i, c);
    }
  }

  lemma InsertCosts(s: string, t: string, i: nat, c: char)
    requires Inserts(s, t, i, c)
    ensures Dist(s, t) <= 1
  {
    EditAt(s, t, s[..i], "", [c], s[i..]);
  }

  lemma DeleteCosts(s: string, t: string, i: nat)
    requires Deletes(s, t, i)
    ensures Dist(s, t) <= 1
  {
    EditAt(s, t, s[..i], [s[i]], "", s[i + 1..]);
  }

  lemma ReplaceCosts(s: string, t: string, i: nat, c: char)
    requires Replaces(s, t, i, c)
    ensures Dist(s, t) <= 1
  {
    EditAt(s, t, s[..i], [s[i]], [c], s[i + 1..]);
  }

  /** s and t differ in at most one character between a common prefix and suffix. */
  lemma EditAt(s: string, t: string, p: string, x: string, y: string, q: string)
    requires |x| <= 1 && |y| <= 1 && s == p + x + q && t == p + y + q
    ensures Dist(s, t) <= 1
  {
    DistSuffix(p + x, p + y, q);
    EditEnd(p, x, y);
  }

  lemma EditEnd(p: string, x: string, y: string)
    requires |x| <= 1 && |y| <= 1
    ensures Dist(p + x, p + y) <= 1
  {
    assert x == "" ==> p + x == p;
    assert y == "" ==> p + y == p;
    assert x != "" ==> x == [x[0]];
    assert y != "" ==> y == [y[0]];
    LastEdit(p, if x == "" then 'x' else x[0], if y == "" then 'x' else y[0]);
  }

  lemma LastEdit(p: string, c: char, d: char)
    ensures Dist(p, p) == 0 && Dist(p, p + [d]) <= 1 && Dist(p + [c], p) <= 1 && Dist(p + [c], p + [d]) <= 1
  {
    DistZero(p, p);
    assert Init(p + [c]) == p && Init(p + [d]) == p;
  }

  /** No script is shorter than the distance. */
  lemma {:induction false} ScriptsAreNoShorter(script: seq<string>, a: string, b: string)
    requires IsScript(script, a, b)
    ensures Dist(a, b) <= |script| - 1
  {
    if |script| == 1 {
      DistZero(a, b);
    } else {
      ScriptsAreNoShorter(script[1..], script[1], b);
      assert OneEdit(script[0], script[1]);
      OneEditCosts(a, script[1]);
      Triangle(a, script[1], b);
    }
  }

  lemma OneEditSuffix(s: string, t: string, c: char)
    requires OneEdit(s, t)
    ensures OneEdit(s + [c], t + [c])
  {
    var u, v := s + [c], t + [c];
    if i: nat, d :| Inserts(s, t, i, d) {
      assert u[i..] == s[i..] + [c];
      assert Inserts(u, v, i, d);
    } else if i: nat :| Deletes(s, t, i) {
      assert u[i + 1..] == s[i + 1..] + [c];
      assert Deletes(u, v, i);
    } else {
      var i: nat, d :| Replaces(s, t, i, d);
      assert u[i + 1..] == s[i + 1..] + [c];
      assert Replaces(u, v, i, d);
    }
  }

  lemma {:induction false} ScriptSuffix(script: seq<string>, a: string, b: string, c: char) returns (r: seq<string>)
    requires IsScript(script, a, b)
    ensures IsScript(r, a + [c], b + [c]) && |r| == |script|
  {
    r := seq(|script|, k requires 0 <= k < |script| => script[k] + [c]);
    forall k | 0 <= k < |r| - 1 ensures OneEdit(r[k], r[k + 1]) {
      OneEditSuffix(script[k], script[k + 1], c);
    }
  }

  lemma Prepend(s: string, script: seq<string>, a: string, b: string)
    requires IsScript(script, a, b) && OneEdit(s, a)
    ensures IsScript([s] + script, s, b)
  {
    var r := [s] + script;
    forall k | 0 <= k < |r| - 1 ensures OneEdit(r[k], r[k + 1]) {
      assert k > 0 ==> r[k] == script[k - 1] && r[k + 1] == script[k];
    }
  }

  lemma Append(script: seq<string>, a: string, b: string, t: string)
    requires IsScript(script, a, b) && OneEdit(b, t)
    ensures IsScript(script + [t], a, t)
  {
    var r := script + [t];
    forall k | 0 <= k < |r| - 1 ensures OneEdit(r[k], r[k + 1]) {
      assert k < |script| - 1 ==> r[k] == script[k] && r[k + 1] == script[k + 1];
    }
  }

  lemma LastEdits(p: string, c: char, d: char)
    ensures OneEdit(p, p + [c]) && OneEdit(p + [c], p) && OneEdit(p + [c], p + [d])
  {
    assert Inserts(p, p + [c], |p|, c);
    assert Deletes(p + [c], p, |p|);
    assert Replaces(p + [c], p + [d], |p|, d);
  }

  /** A script of exactly that length exists. */
  lemma {:induction false} ShortestScript(a: string, b: string) returns (script: seq<string>)
    ensures IsScript(script, a, b) && |script| - 1 == Dist(a, b)
    decreases |a| + |b|
  {
    if a == "" && b == "" {
      script := [a];
    } else if b == "" || (a != "" && Dist(a, b) == Dist(Init(a), b) + 1) {
      script := ShortestScript(Init(a), b);
      LastCharEdits(a);
      Prepend(a, script, Init(a), b);
      script := [a] + script;
    } else if a == "" || Dist(a, b) == Dist(a, Init(b)) + 1 {
      script := ShortestScript(a, Init(b));
      LastCharEdits(b);
      Append(script, a, Init(b), b);
      script := script + [b];
    } else {
      LastOf(a, b);
      script := ScriptOfInits(a, b);
    }
  }

  lemma LastCharEdits(s: string)
    requires s != ""
    ensures OneEdit(Init(s), s) && OneEdit(s, Init(s))
  {
    assert Inserts(Init(s), s, |s| - 1, Last(s));
    assert Deletes(s, Init(s), |s| - 1);
  }

  lemma {:induction false} ScriptOfInits(a: string, b: string) returns (script: seq<string>)
    requires a != "" && b != "" && Dist(a, b) == Dist(Init(a), Init(b)) + Cost(Last(a), Last(b))
    ensures IsScript(script, a, b) && |script| - 1 == Dist(a, b)
    decreases |a| + |b|, 0
  {
    script := ShortestScript(Init(a), Init(b));
    assert a == Init(a) + [Last(a)] && b == Init(b) + [Last(b)];
    script := ScriptSuffix(script, Init(a), Init(b), Last(b));
    if Last(a) != Last(b) {
      LastEdits(Init(a), Last(a), Last(b));
      Prepend(a, script, Init(a) + [Last(b)], b);
      script := [a] + script;
    }
  }

  /** The distance is the least number of edits of any script from a to b. */
  lemma DistIsLeastScript(a: string, b: string)
    ensures exists script :: IsScript(script, a, b) && |script| - 1 == Dist(a, b)
    ensures forall script :: IsScript(script, a, b) ==> Dist(a, b) <= |script| - 1
  {
    var shortest := ShortestScript(a, b);
    forall script | IsScript(script, a, b) ensures Dist(a, b) <= |script| - 1 {
      ScriptsAreNoShorter(script, a, b);
    }
  }

  // ---- closestKeyword ----

  const THRESHOLD := 4

  /** closestKeyword: the map of known keywords is ranged over in any order. The result is a
      keyword at the least distance, if that is at most three, and empty otherwise. */
  method ClosestKeyword(word: string, known: set<string>) returns (best: string)
    ensures (exists k :: k in known && Dist(word, k) <= 3) ==>
              best in known && Dist(word, best) <= 3 && forall k | k in known :: Dist(word, best) <= Dist(word, k)
    ensures (forall k | k in known :: Dist(word, k) > 3) ==> best == ""
  {
    best := "";
    var bestDist := THRESHOLD;
    var todo := known;
    while todo != {}
      invariant todo <= known && bestDist <= THRESHOLD
      invariant forall k | k in known && k !in todo :: bestDist <= Dist(word, k)
      invariant if bestDist == THRESHOLD then best == "" else best in known && Dist(word, best) == bestDist
      decreases todo
    {
      var k :| k in todo;
      todo := todo - {k};
      var d := Distance(word, k);
      if d < bestDist {
        bestDist, best := d, k;
      }
    }
  }
}
