/** Did-you-mean suggestions by edit distance (internal/store/search.go). */
module EditDistance {
  import opened Model
  import opened Ordering

  function Min(a: nat, b: nat): nat {
    if b < a then b else a
  }

  function Cost(x: char, y: char): nat {
    if x == y then 0 else 1
  }

  function Min3(ins: nat, del: nat, sub: nat): nat {
    Min(Min(ins, del), sub)
  }

  function Init(a: string): string
    requires a != []
  {
    a[..|a| - 1]
  }

  function Final(a: string): char
    requires a != []
  {
    a[|a| - 1]
  }

  /** The recursive definition, on the last characters. */
  function Dist(a: string, b: string): nat
    decreases |a| + |b|
  {
    if a == [] then |b|
    else if b == [] then |a|
    else Min3(Dist(a, Init(b)) + 1, Dist(Init(a), b) + 1, Dist(Init(a), Init(b)) + Cost(Final(a), Final(b)))
  }

  /** One cell of the table the loop fills: the distance of two prefixes. */
  ghost function Cell(a: string, b: string, i: nat, j: nat): nat
    requires i <= |a| && j <= |b|
  {
    Dist(a[..i], b[..j])
  }

  /** The first `n` entries of a row of the table. */
  ghost predicate RowOf(row: seq<nat>, a: string, b: string, i: nat, n: nat) {
    i <= |a| && n <= |b| + 1 == |row| && forall j :: 0 <= j < n ==> row[j] == Cell(a, b, i, j)
  }

  /** The two-row loop: `prev` is the row of the characters done so far, `curr` the one being filled. */
  method Levenshtein(a: string, b: string) returns (d: nat)
    ensures d == Dist(a, b)
  {
    if |a| == 0 {
      return |b|;
    }
    if |b| == 0 {
      return |a|;
    }
    var prev := new nat[|b| + 1](j => j);
    var curr := new nat[|b| + 1](_ => 0);
    assert RowOf(prev[..], a, b, 0, |b| + 1);
    for i := 1 to |a| + 1
      invariant prev != curr && prev.Length == curr.Length == |b| + 1
      invariant fresh(prev) && fresh(curr)
      invariant RowOf(prev[..], a, b, i - 1, |b| + 1)
    {
      curr[0] := i;
      for j := 1 to |b| + 1
        invariant RowOf(prev[..], a, b, i - 1, |b| + 1)
        invariant RowOf(curr[..], a, b, i, j)
      {
        var cost := if a[i - 1] == b[j - 1] then 0 else 1;
        var ins := curr[j - 1] + 1;
        var del := prev[j] + 1;
        var sub := prev[j - 1] + cost;
        var m := ins;
        if del < m {
          m := del;
        }
        if sub < m {
          m := sub;
        }
        NextCell(prev[..], curr[..], a, b, i, j, m);
        curr[j] := m;
      }
      prev, curr := curr, prev;
    }
    assert a[..|a|] == a && b[..|b|] == b;
    d := prev[|b|];
  }

  /** The least of the three neighbours is the next cell of the row. */
  lemma {:induction false} NextCell(prev: seq<nat>, curr: seq<nat>, a: string, b: string, i: nat, j: nat, m: nat)
    requires 1 <= i <= |a| && 1 <= j <= |b|
    requires RowOf(prev, a, b, i - 1, |b| + 1) && RowOf(curr, a, b, i, j)
    requires m == Min3(curr[j - 1] + 1, prev[j] + 1, prev[j - 1] + Cost(a[i - 1], b[j - 1]))
    ensures RowOf(curr[j := m], a, b, i, j + 1)
  {
    assert Init(a[..i]) == a[..i - 1] && Init(b[..j]) == b[..j - 1];
    assert Cell(a, b, i, j)
        == Min3(Cell(a, b, i, j - 1) + 1, Cell(a, b, i - 1, j) + 1, Cell(a, b, i - 1, j - 1) + Cost(a[i - 1], b[j - 1]));
  }

  // ---- The distance is a metric ----

  /** Zero exactly on equal strings. */
  lemma {:induction false} ZeroOnlyOnEqual(a: string, b: string)
    ensures Dist(a, b) == 0 <==> a == b
    decreases |a| + |b|
  {
    if a != [] && b != [] {
      ZeroOnlyOnEqual(Init(a), Init(b));
      assert a == Init(a) + [Final(a)] && b == Init(b) + [Final(b)];
    }
  }

  lemma {:induction false} Symmetric(a: string, b: string)
    ensures Dist(a, b) == Dist(b, a)
    decreases |a| + |b|
  {
    if a != [] && b != [] {
      Symmetric(a, Init(b));
      Symmetric(Init(a), b);
      Symmetric(Init(a), Init(b));
    }
  }

  /** Dropping a last character costs at most one. */
  lemma {:induction false} DropLast(a: string, b: string)
    requires a != []
    ensures Dist(a, b) <= Dist(Init(a), b) + 1
    ensures Dist(b, a) <= Dist(b, Init(a)) + 1
  {
    Symmetric(a, b);
    Symmetric(Init(a), b);
  }

  lemma {:induction false} Triangle(a: string, b: string, c: string)
    ensures Dist(a, c) <= Dist(a, b) + Dist(b, c)
    decreases |a| + |b| + |c|
  {
    if a == [] {
      LengthBound(b, c);
    } else if c == [] {
      LengthBound(a, b);
    } else if b == [] {
      DeleteAll(a, c);
    } else if Dist(a, b) == Dist(Init(a), b) + 1 {
      Triangle(Init(a), b, c);
      DropLast(a, c);
    } else if Dist(b, c) == Dist(b, Init(c)) + 1 {
      Triangle(a, b, Init(c));
      DropLast(c, a);
    } else if Dist(a, b) == Dist(a, Init(b)) + 1 {
      if Dist(b, c) == Dist(Init(b), c) + 1 {
        Triangle(a, Init(b), c);
      } else {
        Triangle(a, Init(b), Init(c));
        DropLast(c, a);
      }
    } else if Dist(b, c) == Dist(Init(b), c) + 1 {
      Triangle(Init(a), Init(b), c);
      DropLast(a, c);
    } else {
      Triangle(Init(a), Init(b), Init(c));
      assert Cost(Final(a), Final(c)) <= Cost(Final(a), Final(b)) + Cost(Final(b), Final(c));
    }
  }

  /** The length difference is a lower bound. */
  lemma {:induction false} LengthBound(a: string, b: string)
    ensures |a| <= Dist(a, b) + |b| && |b| <= Dist(a, b) + |a|
    decreases |a| + |b|
  {
    if a != [] && b != [] {
      LengthBound(a, Init(b));
      LengthBound(Init(a), b);
      LengthBound(Init(a), Init(b));
    }
  }

  lemma {:induction false} DeleteAll(a: string, b: string)
    ensures Dist(a, b) <= |a| + |b|
    decreases |a| + |b|
  {
    if a != [] && b != [] {
      DeleteAll(Init(a), b);
    }
  }

  // ---- The distance is the least number of edits ----

  predicate Inserts(a: string, b: string, i: nat, x: char) {
    i <= |a| && b == a[..i] + [x] + a[i..]
  }

  predicate Replaces(a: string, b: string, i: nat, x: char) {
    i < |a| && b == a[..i] + [x] + a[i + 1..]
  }

  /** One edit: a character is inserted, deleted or replaced somewhere. */
  ghost predicate Edit(a: string, b: string) {
    || (exists i: nat, x: char :: Inserts(a, b, i, x))
    || (exists i: nat, x: char :: Inserts(b, a, i, x))
    || (exists i: nat, x: char :: Replaces(a, b, i, x))
  }

  /** `b` is reached from `a` in exactly `n` edits. */
  ghost predicate Edits(a: string, b: string, n: nat)
    decreases n
  {
    if n == 0 then a == b else exists c :: Edit(a, c) && Edits(c, b, n - 1)
  }

  lemma {:induction false} CutAtLast(a: string, i: nat)
    requires i < |a|
    ensures a[i..] == Init(a)[i..] + [Final(a)] && a[..i] == Init(a)[..i]
  {}

  lemma {:induction false} InsertIsNear(a: string, b: string, i: nat, x: char)
    requires Inserts(a, b, i, x)
    ensures Dist(a, b) <= 1
    decreases |a|
  {
    if i < |a| {
      CutAtLast(a, i);
      assert Init(b) == Init(a)[..i] + [x] + Init(a)[i..] && Final(b) == Final(a);
      InsertIsNear(Init(a), Init(b), i, x);
    } else {
      assert Init(b) == a;
      ZeroOnlyOnEqual(a, Init(b));
    }
  }

  lemma {:induction false} ReplaceIsNear(a: string, b: string, i: nat, x: char)
    requires Replaces(a, b, i, x)
    ensures Dist(a, b) <= 1
    decreases |a|
  {
    if i < |a| - 1 {
      var next := i + 1;
      CutAtLast(a, i);
      CutAtLast(a, next);
      assert Init(b) == Init(a)[..i] + [x] + Init(a)[next..] && Final(b) == Final(a);
      ReplaceIsNear(Init(a), Init(b), i, x);
    } else {
      assert Init(b) == a[..i] == Init(a);
      ZeroOnlyOnEqual(Init(a), Init(b));
    }
  }

  lemma {:induction false} EditIsNear(a: string, b: string)
    requires Edit(a, b)
    ensures Dist(a, b) <= 1
  {
    if i: nat, x: char :| Inserts(a, b, i, x) {
      InsertIsNear(a, b, i, x);
    } else if i: nat, x: char :| Inserts(b, a, i, x) {
      InsertIsNear(b, a, i, x);
      Symmetric(a, b);
    } else {
      var i: nat, x: char :| Replaces(a, b, i, x);
      ReplaceIsNear(a, b, i, x);
    }
  }

  /** No sequence of edits is shorter than the distance. */
  lemma {:induction false} EditsAreNoFewer(a: string, b: string, n: nat)
    requires Edits(a, b, n)
    ensures Dist(a, b) <= n
    decreases n
  {
    if n == 0 {
      ZeroOnlyOnEqual(a, b);
    } else {
      var c :| Edit(a, c) && Edits(c, b, n - 1);
      EditIsNear(a, c);
      EditsAreNoFewer(c, b, n - 1);
      Triangle(a, c, b);
    }
  }

  lemma {:induction false} EditBeforeLast(a: string, b: string, x: char)
    requires Edit(a, b)
    ensures Edit(a + [x], b + [x])
  {
    if i: nat, y: char :| Inserts(a, b, i, y) {
      assert Inserts(a + [x], b + [x], i, y);
    } else if i: nat, y: char :| Inserts(b, a, i, y) {
      assert Inserts(b + [x], a + [x], i, y);
    } else {
      var i: nat, y: char :| Replaces(a, b, i, y);
      assert Replaces(a + [x], b + [x], i, y);
    }
  }

  lemma {:induction false} EditsBeforeLast(a: string, b: string, x: char, n: nat)
    requires Edits(a, b, n)
    ensures Edits(a + [x], b + [x], n)
    decreases n
  {
    if n > 0 {
      var c :| Edit(a, c) && Edits(c, b, n - 1);
      EditBeforeLast(a, c, x);
      var m := n - 1;
      EditsBeforeLast(c, b, x, m);
      assert Edit(a + [x], c + [x]) && Edits(c + [x], b + [x], m);
    }
  }

  lemma {:induction false} EditsThenOne(a: string, b: string, c: string, n: nat)
    requires Edits(a, b, n) && Edit(b, c)
    ensures Edits(a, c, n + 1)
    decreases n
  {
    if n == 0 {
      assert Edits(c, c, 0);
    } else {
      var d :| Edit(a, d) && Edits(d, b, n - 1);
      EditsThenOne(d, b, c, n - 1);
    }
  }

  lemma {:induction false} LastEdits(a: string, b: string)
    ensures a != [] ==> Edit(a, Init(a)) && Edit(Init(a), a)
    ensures a != [] && b != [] && Init(a) == Init(b) && Final(a) != Final(b) ==> Edit(a, b)
  {
    if a != [] {
      assert Inserts(Init(a), a, |a| - 1, Final(a));
      if b != [] && Init(a) == Init(b) {
        assert b == a[..|a| - 1] + [Final(b)] + a[|a|..];
        assert Replaces(a, b, |a| - 1, Final(b));
      }
    }
  }

  lemma {:induction false} EditsThenReplace(a: string, b: string, n: nat)
    requires a != [] && b != [] && Edits(Init(a), Init(b), n)
    ensures Final(a) == Final(b) ==> Edits(a, b, n)
    ensures Final(a) != Final(b) ==> Edits(a, b, n + 1)
  {
    var c := Init(b) + [Final(a)];
    assert Init(a) + [Final(a)] == a && Init(c) == Init(b) && Final(c) == Final(a) && Init(b) + [Final(b)] == b;
    EditsBeforeLast(Init(a), Init(b), Final(a), n);
    if Final(a) != Final(b) {
      LastEdits(c, b);
      EditsThenOne(a, c, b, n);
    }
  }

  lemma {:induction false} DeletesAll(a: string)
    ensures Edits(a, [], |a|) && Edits([], a, |a|)
  {
    if a != [] {
      DeletesAll(Init(a));
      LastEdits(a, []);
      EditsThenOne([], Init(a), a, |a| - 1);
    }
  }

  lemma {:induction false} EditsThenInsert(a: string, b: string, n: nat)
    requires b != [] && Edits(a, Init(b), n)
    ensures Edits(a, b, n + 1)
  {
    LastEdits(b, []);
    EditsThenOne(a, Init(b), b, n);
  }

  lemma {:induction false} DeleteThenEdits(a: string, b: string, n: nat)
    requires a != [] && Edits(Init(a), b, n)
    ensures Edits(a, b, n + 1)
  {
    LastEdits(a, []);
  }

  /** The three ways in which the distance comes about. */
  lemma {:induction false} StepIsReached(a: string, b: string, d: nat)
    requires a != [] && b != []
    requires || (d > 0 && Edits(a, Init(b), d - 1)) || (d > 0 && Edits(Init(a), b, d - 1))
             || (Final(a) == Final(b) && Edits(Init(a), Init(b), d))
             || (Final(a) != Final(b) && d > 0 && Edits(Init(a), Init(b), d - 1))
    ensures Edits(a, b, d)
  {
    if d > 0 && Edits(a, Init(b), d - 1) {
      EditsThenInsert(a, b, d - 1);
    } else if d > 0 && Edits(Init(a), b, d - 1) {
      DeleteThenEdits(a, b, d - 1);
    } else {
      EditsThenReplace(a, b, if Final(a) == Final(b) then d else d - 1);
    }
  }

  /** As many edits as the distance suffice. */
  lemma {:induction false} DistIsReached(a: string, b: string)
    ensures Edits(a, b, Dist(a, b))
    decreases |a| + |b|
  {
    if a == [] {
      DeletesAll(b);
    } else if b == [] {
      DeletesAll(a);
    } else {
      DistIsReached(a, Init(b));
      DistIsReached(Init(a), b);
      DistIsReached(Init(a), Init(b));
      StepIsReached(a, b, Dist(a, b));
    }
  }

  /** The distance is the least number of single-character edits that turn one string into the other. */
  lemma {:induction false} DistIsLeastEdits(a: string, b: string)
    ensures Edits(a, b, Dist(a, b)) && forall n: nat :: Edits(a, b, n) ==> Dist(a, b) <= n
  {
    DistIsReached(a, b);
    forall n: nat | Edits(a, b, n) ensures Dist(a, b) <= n {
      EditsAreNoFewer(a, b, n);
    }
  }

  // ---- Suggestions ----

  const MAX_DISTANCE: nat := 3
  const WINDOW_CAP: nat := 5000
  const DEFAULT_SUGGESTIONS: nat := 5

  datatype Name = Name(id: nat, text: string)

  datatype Suggestion = Suggestion(name: Name, dist: nat)

  function DistanceTo(query: string): Name -> nat {
    (x: Name) => Dist(Lower(query), Lower(x.text))
  }

  predicate Close(x: Name, dist: Name -> nat) {
    x.text != "" && dist(x) <= MAX_DISTANCE
  }

  function Match(x: Name, dist: Name -> nat): seq<Suggestion> {
    if Close(x, dist) then [Suggestion(x, dist(x))] else []
  }

  /** The non-empty names close enough to the query, each with its distance. */
  function Matches(names: seq<Name>, dist: Name -> nat): seq<Suggestion> {
    if names == [] then [] else Match(names[0], dist) + Matches(names[1..], dist)
  }

  /** `LENGTH(name) BETWEEN minLen AND maxLen`. */
  predicate InWindow(x: Name, query: string) {
    (if |query| - 3 < 1 then 1 else |query| - 3) <= |x.text| <= |query| + 3
  }

  function Window(names: seq<Name>, query: string): seq<Name> {
    if names == [] then []
    else (if InWindow(names[0], query) then [names[0]] else []) + Window(names[1..], query)
  }

  function Limit(limit: int): nat {
    if limit <= 0 then DEFAULT_SUGGESTIONS else limit
  }

  predicate RankLe(a: Suggestion, b: Suggestion) {
    a.dist < b.dist || (a.dist == b.dist && LexLe(a.name.text, b.name.text))
  }

  ghost predicate Ranked(q: seq<Suggestion>) {
    forall i, j :: 0 <= i < j < |q| ==> RankLe(q[i], q[j])
  }

  lemma {:induction false} RankLeOrders(a: Suggestion, b: Suggestion, c: Suggestion)
    ensures RankLe(a, b) || RankLe(b, a)
    ensures RankLe(a, b) && RankLe(b, c) ==> RankLe(a, c)
  {
    LexConnected(a.name.text, b.name.text);
    if LexLe(a.name.text, b.name.text) && LexLe(b.name.text, c.name.text) {
      LexTransitive(a.name.text, b.name.text, c.name.text);
    }
  }

  ghost predicate NoneBelow(x: Suggestion, q: seq<Suggestion>) {
    forall y :: y in q ==> RankLe(x, y)
  }

  function Place(x: Suggestion, q: seq<Suggestion>): seq<Suggestion> {
    if q == [] then [x]
    else if RankLe(x, q[0]) then [x] + q
    else [q[0]] + Place(x, q[1..])
  }

  /** sort.Slice by (distance, name). */
  function Sort(q: seq<Suggestion>): seq<Suggestion> {
    if q == [] then [] else Place(q[0], Sort(q[1..]))
  }

  lemma {:induction false} RankedCons(x: Suggestion, q: seq<Suggestion>)
    ensures Ranked([x] + q) <==> NoneBelow(x, q) && Ranked(q)
  {
    var r := [x] + q;
    if Ranked(r) {
      forall y | y in q ensures RankLe(x, y) {
        var k :| 0 <= k < |q| && q[k] == y;
        assert RankLe(r[0], r[k + 1]);
      }
      forall i, j | 0 <= i < j < |q| ensures RankLe(q[i], q[j]) {
        assert RankLe(r[i + 1], r[j + 1]);
      }
    }
  }

  lemma {:induction false} PlaceRanks(x: Suggestion, q: seq<Suggestion>)
    requires Ranked(q)
    ensures Ranked(Place(x, q)) && multiset(Place(x, q)) == multiset(q) + multiset{x}
  {
    if q != [] {
      assert q == [q[0]] + q[1..];
      RankedCons(q[0], q[1..]);
      RankLeOrders(x, q[0], x);
      if RankLe(x, q[0]) {
        forall y | y in q ensures RankLe(x, y) {
          RankLeOrders(x, q[0], y);
        }
        RankedCons(x, q);
      } else {
        var rest := Place(x, q[1..]);
        PlaceRanks(x, q[1..]);
        forall y | y in rest ensures RankLe(q[0], y) {
          assert y in multiset(rest);
        }
        RankedCons(q[0], rest);
      }
    }
  }

  lemma {:induction false} SortRanks(q: seq<Suggestion>)
    ensures Ranked(Sort(q)) && multiset(Sort(q)) == multiset(q)
  {
    if q != [] {
      assert q == [q[0]] + q[1..];
      SortRanks(q[1..]);
      PlaceRanks(q[0], Sort(q[1..]));
    }
  }

  /** Matches are exactly the non-empty names of the table within the distance. */
  lemma {:induction false} MatchesAre(names: seq<Name>, dist: Name -> nat, s: Suggestion)
    ensures s in Matches(names, dist) <==> s.name in names && Close(s.name, dist) && s.dist == dist(s.name)
  {
    if names != [] {
      MatchesAre(names[1..], dist, s);
      assert names == [names[0]] + names[1..];
    }
  }

  lemma {:induction false} MatchesCons(x: Name, names: seq<Name>, dist: Name -> nat)
    ensures Matches([x] + names, dist) == Match(x, dist) + Matches(names, dist)
  {
    assert ([x] + names)[1..] == names;
  }

  lemma {:induction false} MatchesSnoc(names: seq<Name>, x: Name, dist: Name -> nat)
    ensures Matches(names + [x], dist) == Matches(names, dist) + Match(x, dist)
  {
    if names == [] {
      assert names + [x] == [x] + [];
      MatchesCons(x, [], dist);
    } else {
      var head, rest := names[0], names[1..];
      var more := rest + [x];
      MatchesSnoc(rest, x, dist);
      assert names == [head] + rest && names + [x] == [head] + more;
      MatchesCons(head, rest, dist);
      MatchesCons(head, more, dist);
      assert Matches(names + [x], dist) == Match(head, dist) + (Matches(rest, dist) + Match(x, dist));
    }
  }

  lemma {:induction false} CloseIsInWindow(x: Name, query: string)
    requires Close(x, DistanceTo(query))
    ensures InWindow(x, query)
  {
    LengthBound(Lower(query), Lower(x.text));
  }

  /** The length window drops no row within the distance. */
  lemma {:induction false} WindowKeepsMatches(names: seq<Name>, query: string)
    ensures Matches(Window(names, query), DistanceTo(query)) == Matches(names, DistanceTo(query))
  {
    if names != [] {
      var x, rest := names[0], Window(names[1..], query);
      WindowKeepsMatches(names[1..], query);
      if InWindow(x, query) {
        MatchesCons(x, rest, DistanceTo(query));
        assert Window(names, query) == [x] + rest;
      } else {
        assert Match(x, DistanceTo(query)) == [] by {
          if Close(x, DistanceTo(query)) {
            CloseIsInWindow(x, query);
          }
        }
        assert Window(names, query) == [] + rest == rest;
      }
    }
  }

  lemma {:induction false} WindowNonEmpty(names: seq<Name>, query: string, i: nat)
    requires i < |Window(names, query)|
    ensures InWindow(Window(names, query)[i], query)
  {
    if !InWindow(names[0], query) {
      WindowNonEmpty(names[1..], query, i);
    } else if i > 0 {
      WindowNonEmpty(names[1..], query, i - 1);
    }
  }

  /** `hits` are the `n` best of `all`, ranked: nothing left out ranks strictly before one of them. */
  ghost predicate BestOf(hits: seq<Suggestion>, all: seq<Suggestion>, n: nat) {
    && Ranked(hits)
    && |hits| == (if |all| < n then |all| else n)
    && exists left :: LeftOver(hits, left, all)
  }

  ghost predicate LeftOver(hits: seq<Suggestion>, left: seq<Suggestion>, all: seq<Suggestion>) {
    && multiset(hits) + multiset(left) == multiset(all)
    && forall h, s :: h in hits && s in left ==> RankLe(h, s)
  }

  lemma {:induction false} SplitBest(q: seq<Suggestion>, all: seq<Suggestion>, n: nat)
    requires Ranked(q) && multiset(q) == multiset(all)
    ensures BestOf(if n < |q| then q[..n] else q, all, n)
  {
    assert |multiset(q)| == |q| && |multiset(all)| == |all|;
    if n < |q| {
      RankedSplits(q, n);
      assert LeftOver(q[..n], q[n..], all);
    } else {
      assert multiset(q) + multiset([]) == multiset(all);
      assert LeftOver(q, [], all);
    }
  }

  lemma {:induction false} RankedSplits(q: seq<Suggestion>, n: nat)
    requires Ranked(q) && n < |q|
    ensures Ranked(q[..n]) && multiset(q[..n]) + multiset(q[n..]) == multiset(q)
    ensures forall h, s :: h in q[..n] && s in q[n..] ==> RankLe(h, s)
  {
    assert q == q[..n] + q[n..];
    forall h, s | h in q[..n] && s in q[n..] ensures RankLe(h, s) {
      var i :| 0 <= i < n && q[i] == h;
      var j :| n <= j < |q| && q[j] == s;
    }
  }

  // ---- What a suggestion is ----

  /** `n` edits turn the query into the name, regardless of case, and no fewer do. */
  ghost predicate EditsAway(x: Name, query: string, n: nat) {
    var a, b := Lower(query), Lower(x.text);
    Edits(a, b, n) && forall k: nat :: Edits(a, b, k) ==> n <= k
  }

  /** Nearer, or as near and not later in the byte order. */
  ghost predicate NotBehind(d: nat, x: Name, e: nat, y: Name) {
    d < e || (d == e && !TextBefore(y.text, x.text))
  }

  /** The row has a length within three of the query's, and is not empty. */
  predicate SimilarLength(x: Name, query: string) {
    x.text != "" && |x.text| <= |query| + 3 && |query| <= |x.text| + 3
  }

  /**
   * The suggestions from the rows `names`: at most `n`, all within three edits, the nearest first and ties by name, and
   * no row within three edits is passed over but for nearer ones.
   */
  ghost predicate Suggests(hits: seq<Suggestion>, names: seq<Name>, query: string, n: nat) {
    && |hits| <= n
    && (forall h :: h in hits ==>
          h.name in names && h.name.text != "" && h.dist <= 3 && EditsAway(h.name, query, h.dist))
    && (forall i, j :: 0 <= i < j < |hits| ==> NotBehind(hits[i].dist, hits[i].name, hits[j].dist, hits[j].name))
    && forall x, d: nat :: x in names && x.text != "" && d <= 3 && EditsAway(x, query, d) ==>
         Suggestion(x, d) in hits || (|hits| == n && forall h :: h in hits ==> NotBehind(h.dist, h.name, d, x))
  }

  lemma {:induction false} EditsAwayIs(x: Name, query: string, n: nat)
    ensures EditsAway(x, query, n) <==> n == DistanceTo(query)(x)
  {
    DistIsLeastEdits(Lower(query), Lower(x.text));
  }

  lemma {:induction false} RankLeIs(a: Suggestion, b: Suggestion)
    ensures RankLe(a, b) <==> NotBehind(a.dist, a.name, b.dist, b.name)
  {
    LexLeIs(a.name.text, b.name.text);
  }

  lemma {:induction false} MatchIs(names: seq<Name>, query: string, x: Name, d: nat)
    ensures Suggestion(x, d) in Matches(names, DistanceTo(query))
       <==> x in names && x.text != "" && d <= 3 && EditsAway(x, query, d)
  {
    MatchesAre(names, DistanceTo(query), Suggestion(x, d));
    EditsAwayIs(x, query, d);
  }

  lemma {:induction false} BestIsSuggested(hits: seq<Suggestion>, names: seq<Name>, query: string, n: nat)
    requires BestOf(hits, Matches(names, DistanceTo(query)), n)
    ensures Suggests(hits, names, query, n)
  {
    var all := Matches(names, DistanceTo(query));
    var left :| LeftOver(hits, left, all);
    forall h | h in hits
      ensures h.name in names && h.name.text != "" && h.dist <= 3 && EditsAway(h.name, query, h.dist)
    {
      assert h in multiset(hits) + multiset(left);
      assert h in multiset(all);
      MatchIs(names, query, h.name, h.dist);
    }
    forall i, j | 0 <= i < j < |hits| ensures NotBehind(hits[i].dist, hits[i].name, hits[j].dist, hits[j].name) {
      RankLeIs(hits[i], hits[j]);
    }
    forall x, d: nat | x in names && x.text != "" && d <= 3 && EditsAway(x, query, d) && Suggestion(x, d) !in hits
      ensures |hits| == n && forall h :: h in hits ==> NotBehind(h.dist, h.name, d, x)
    {
      LeftBehind(hits, left, all, n, names, query, x, d);
    }
  }

  lemma {:induction false} LeftBehind(hits: seq<Suggestion>, left: seq<Suggestion>, all: seq<Suggestion>, n: nat,
      names: seq<Name>, query: string, x: Name, d: nat)
    requires LeftOver(hits, left, all) && |hits| == (if |all| < n then |all| else n)
    requires all == Matches(names, DistanceTo(query)) && Suggestion(x, d) !in hits
    requires x in names && x.text != "" && d <= 3 && EditsAway(x, query, d)
    ensures |hits| == n && forall h :: h in hits ==> NotBehind(h.dist, h.name, d, x)
  {
    var s := Suggestion(x, d);
    MatchIs(names, query, x, d);
    assert s in multiset(all);
    assert s in multiset(hits) + multiset(left);
    assert s in left && |left| > 0;
    assert |multiset(hits) + multiset(left)| == |hits| + |left| && |multiset(all)| == |all|;
    forall h | h in hits ensures NotBehind(h.dist, h.name, d, x) {
      RankLeIs(h, s);
    }
  }

  /** The rows read are, in order, the first ones of similar length. */
  lemma {:induction false} WindowIs(names: seq<Name>, query: string, x: Name)
    ensures x in Window(names, query) <==> x in names && SimilarLength(x, query)
  {
    if names != [] {
      WindowIs(names[1..], query, x);
      assert names == [names[0]] + names[1..];
    }
  }

  /** The loop over the candidate rows. */
  method Candidates(rows: seq<Name>, query: string) returns (found: seq<Suggestion>)
    requires forall x :: x in rows ==> x.text != ""
    ensures found == Matches(rows, DistanceTo(query))
  {
    found := [];
    for i := 0 to |rows|
      invariant found == Matches(rows[..i], DistanceTo(query))
    {
      assert rows[..i + 1] == rows[..i] + [rows[i]];
      MatchesSnoc(rows[..i], rows[i], DistanceTo(query));
      var d := Levenshtein(Lower(query), Lower(rows[i].text));
      if d <= MAX_DISTANCE {
        found := found + [Suggestion(rows[i], d)];
      }
    }
    assert rows[..|rows|] == rows;
  }

  /** The rows read: the length window up to its row cap. */
  function RowsRead(names: seq<Name>, query: string): seq<Name> {
    Take(Window(names, query), WINDOW_CAP)
  }

  function Take(names: seq<Name>, n: nat): seq<Name> {
    if |names| > n then names[..n] else names
  }

  lemma {:induction false} RowsReadAre(names: seq<Name>, query: string, x: Name)
    requires x in RowsRead(names, query)
    ensures x.text != "" && x in names
  {
    var rows := Window(names, query);
    var i :| 0 <= i < |rows| && rows[i] == x;
    WindowNonEmpty(names, query, i);
    WindowIsPart(names, query, i);
  }

  lemma {:induction false} WindowIsPart(names: seq<Name>, query: string, i: nat)
    requires i < |Window(names, query)|
    ensures Window(names, query)[i] in names
  {
    if !InWindow(names[0], query) {
      WindowIsPart(names[1..], query, i);
    } else if i > 0 {
      WindowIsPart(names[1..], query, i - 1);
    }
  }

  /** A suggestion is a name of the table within the distance, with its distance. */
  ghost predicate IsMatch(s: Suggestion, names: seq<Name>, query: string) {
    s.name in names && Close(s.name, DistanceTo(query)) && s.dist == DistanceTo(query)(s.name)
  }

  lemma {:induction false} BestAreMatches(hits: seq<Suggestion>, names: seq<Name>, query: string, n: nat)
    requires BestOf(hits, Matches(RowsRead(names, query), DistanceTo(query)), n)
    ensures |hits| <= n && Ranked(hits) && forall h :: h in hits ==> IsMatch(h, names, query)
  {
    var all := Matches(RowsRead(names, query), DistanceTo(query));
    var left :| LeftOver(hits, left, all);
    forall h | h in hits ensures IsMatch(h, names, query) {
      assert h in multiset(hits) + multiset(left);
      assert h in multiset(all);
      MatchesAre(RowsRead(names, query), DistanceTo(query), h);
      RowsReadAre(names, query, h.name);
    }
  }

  /**
   * The suggestions are the `limit` best of the rows read, each a name of the table within distance three of the
   * query. As long as the length window stays below its row cap they are the best of all names: neither the window
   * nor the cut passes over a better one.
   */
  method DidYouMean(names: seq<Name>, query: string, limit: int) returns (hits: seq<Suggestion>)
    ensures query == "" ==> hits == []
    ensures query != "" ==> BestOf(hits, Matches(RowsRead(names, query), DistanceTo(query)), Limit(limit))
    ensures |hits| <= Limit(limit) && Ranked(hits) && forall h :: h in hits ==> IsMatch(h, names, query)
    ensures query != "" && |Window(names, query)| <= 5000 ==>
              BestOf(hits, Matches(names, DistanceTo(query)), Limit(limit))
    ensures query != "" ==> Suggests(hits, Take(Window(names, query), 5000), query, if limit <= 0 then 5 else limit)
    ensures query != "" && |Window(names, query)| <= 5000 ==>
              Suggests(hits, names, query, if limit <= 0 then 5 else limit)
  {
    if query == "" {
      return [];
    }
    var rows := RowsRead(names, query);
    forall x | x in rows ensures x.text != "" {
      RowsReadAre(names, query, x);
    }
    var found := Candidates(rows, query);
    WindowKeepsMatches(names, query);
    SortRanks(found);
    SplitBest(Sort(found), found, Limit(limit));
    hits := Sort(found);
    if |hits| > Limit(limit) {
      hits := hits[..Limit(limit)];
    }
    BestAreMatches(hits, names, query, Limit(limit));
    BestIsSuggested(hits, RowsRead(names, query), query, Limit(limit));
    if |Window(names, query)| <= WINDOW_CAP {
      BestIsSuggested(hits, names, query, Limit(limit));
    }
  }
}
