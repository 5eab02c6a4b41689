/** Total orders, ascending listings of finite sets, and the byte order SQLite and Go use on text. */
module Ordering {

  ghost predicate TotalOrder<T(!new)>(le: (T, T) -> bool) {
    && (forall x, y :: le(x, y) || le(y, x))
    && (forall x, y :: le(x, y) && le(y, x) ==> x == y)
    && (forall x, y, z :: le(x, y) && le(y, z) ==> le(x, z))
  }

  ghost predicate Ascending<T>(le: (T, T) -> bool, q: seq<T>) {
    forall i, j :: 0 <= i < j < |q| ==> le(q[i], q[j]) && q[i] != q[j]
  }

  function Elements<T(==)>(q: seq<T>): set<T> {
    set x | x in q
  }

  lemma {:induction false} SubsetSize<T>(a: set<T>, b: set<T>)
    requires a <= b
    ensures |a| <= |b|
  {
    assert b == a + (b - a);
  }

  ghost predicate IsLeast<T>(le: (T, T) -> bool, s: set<T>, m: T) {
    m in s && forall x | x in s :: le(m, x)
  }

  lemma {:induction false} LeastExists<T(!new)>(s: set<T>, le: (T, T) -> bool)
    requires TotalOrder(le) && s != {}
    ensures exists m :: IsLeast(le, s, m)
  {
    var y :| y in s;
    assert le(y, y);
    if s == {y} {
      assert IsLeast(le, s, y);
    } else {
      LeastExists(s - {y}, le);
      var m :| IsLeast(le, s - {y}, m);
      assert IsLeast(le, s, if le(m, y) then m else y);
    }
  }

  lemma PrependLeast<T(!new)>(le: (T, T) -> bool, m: T, rest: seq<T>, s: set<T>)
    requires IsLeast(le, s, m)
    requires Ascending(le, rest) && Elements(rest) == s - {m} && |rest| == |s - {m}|
    ensures Ascending(le, [m] + rest) && Elements([m] + rest) == s && |[m] + rest| == |s|
  {
    var q := [m] + rest;
    forall x ensures x in q <==> x in s {
      assert x in rest <==> x in Elements(rest);
    }
    forall i, j | 0 <= i < j < |q| ensures le(q[i], q[j]) && q[i] != q[j] {
      if i == 0 {
        assert q[j] in Elements(rest);
      } else {
        assert q[i] == rest[i - 1] && q[j] == rest[j - 1];
      }
    }
  }

  /** The elements of `s` in ascending order: the meaning of `ORDER BY` on a column without ties. */
  function Listing<T(!new, ==)>(s: set<T>, le: (T, T) -> bool): (q: seq<T>)
    requires TotalOrder(le)
    ensures Ascending(le, q) && Elements(q) == s && |q| == |s|
    decreases s
  {
    if s == {} then []
    else
      LeastExists(s, le);
      var m :| m in s && forall x | x in s :: le(m, x);
      assert IsLeast(le, s, m);
      var rest := Listing(s - {m}, le);
      PrependLeast(le, m, rest, s);
      [m] + rest
  }

  /** An ascending sequence is determined by its elements. */
  lemma {:induction false} AscendingUnique<T(!new)>(le: (T, T) -> bool, p: seq<T>, q: seq<T>)
    requires TotalOrder(le) && Ascending(le, p) && Ascending(le, q) && Elements(p) == Elements(q)
    ensures p == q
  {
    assert p != [] ==> p[0] in Elements(p);
    assert q != [] ==> q[0] in Elements(q);
    if p != [] {
      var i :| 0 <= i < |q| && q[i] == p[0];
      var j :| 0 <= j < |p| && p[j] == q[0];
      assert p[0] == q[0];
      forall x ensures x in p[1..] <==> x in q[1..] {
        if x in p[1..] {
          var k :| 0 <= k < |p[1..]| && p[1..][k] == x;
          assert p[k + 1] == x && x != p[0] && x in Elements(p);
          assert x in q;
        }
        if x in q[1..] {
          var k :| 0 <= k < |q[1..]| && q[1..][k] == x;
          assert q[k + 1] == x && x != q[0] && x in Elements(q);
          assert x in p;
        }
      }
      AscendingUnique(le, p[1..], q[1..]);
      assert p == [p[0]] + p[1..] && q == [q[0]] + q[1..];
    }
  }

  predicate NatLe(a: nat, b: nat) { a <= b }

  lemma NatLeTotal()
    ensures TotalOrder(NatLe)
  {}

  /** Byte-wise text order (SQLite's BINARY collation, Go's `<` on strings). */
  predicate LexLe(a: string, b: string) {
    a == [] || (b != [] && (a[0] < b[0] || (a[0] == b[0] && LexLe(a[1..], b[1..]))))
  }

  /** `a` ends inside `b`, or the first character in which they differ is the smaller one in `a`. */
  ghost predicate TextBefore(a: string, b: string) {
    a < b || exists k: nat :: DiffersAt(a, b, k) && a[k] < b[k]
  }

  ghost predicate DiffersAt(a: string, b: string, k: nat) {
    k < |a| && k < |b| && a[k] != b[k] && forall j :: 0 <= j < k ==> a[j] == b[j]
  }

  lemma {:induction false} DiffersInTail(a: string, b: string, k: nat)
    requires a != [] && b != [] && a[0] == b[0]
    ensures k > 0 ==> (DiffersAt(a, b, k) <==> DiffersAt(a[1..], b[1..], k - 1))
    ensures !DiffersAt(a, b, 0) && (a < b <==> a[1..] < b[1..])
  {
    assert a == [a[0]] + a[1..] && b == [b[0]] + b[1..];
    if k > 0 && DiffersAt(a[1..], b[1..], k - 1) {
      forall j | 0 <= j < k ensures a[j] == b[j] {
        assert j > 0 ==> a[j] == a[1..][j - 1] && b[j] == b[1..][j - 1];
      }
    }
  }

  /** The byte order in terms of the texts. */
  lemma {:induction false} LexLeIs(a: string, b: string)
    ensures LexLe(a, b) <==> !TextBefore(b, a)
    ensures TextBefore(a, b) <==> LexLe(a, b) && a != b
  {
    OneIsBefore(a, b);
    LexLeIsNotAfter(a, b);
  }

  lemma {:induction false} OneIsBefore(a: string, b: string)
    ensures TextBefore(a, b) <==> a != b && !TextBefore(b, a)
  {
    if a == [] || b == [] {
    } else if a[0] != b[0] {
      assert DiffersAt(a, b, 0) && DiffersAt(b, a, 0);
    } else {
      OneIsBefore(a[1..], b[1..]);
      BeforeInTail(a, b);
      BeforeInTail(b, a);
      assert a == [a[0]] + a[1..] && b == [b[0]] + b[1..];
    }
  }

  lemma {:induction false} BeforeInTail(a: string, b: string)
    requires a != [] && b != [] && a[0] == b[0]
    ensures TextBefore(a, b) <==> TextBefore(a[1..], b[1..])
  {
    DiffersInTail(a, b, 0);
    if k: nat :| DiffersAt(a, b, k) && a[k] < b[k] {
      DiffersInTail(a, b, k);
      assert DiffersAt(a[1..], b[1..], k - 1);
    }
    if k: nat :| DiffersAt(a[1..], b[1..], k) && a[1..][k] < b[1..][k] {
      var next := k + 1;
      DiffersInTail(a, b, next);
      assert DiffersAt(a, b, next);
    }
  }

  lemma {:induction false} LexLeIsNotAfter(a: string, b: string)
    ensures LexLe(a, b) <==> !TextBefore(b, a)
  {
    if a != [] && b != [] {
      if a[0] == b[0] {
        LexLeIsNotAfter(a[1..], b[1..]);
        BeforeInTail(b, a);
      } else {
        assert DiffersAt(b, a, 0);
      }
    }
  }

  lemma {:induction false} LexAntisymmetric(a: string, b: string)
    requires LexLe(a, b) && LexLe(b, a)
    ensures a == b
  {
    if a != [] && b != [] {
      LexAntisymmetric(a[1..], b[1..]);
      assert a == [a[0]] + a[1..] && b == [b[0]] + b[1..];
    }
  }

  lemma {:induction false} LexTransitive(a: string, b: string, c: string)
    requires LexLe(a, b) && LexLe(b, c)
    ensures LexLe(a, c)
  {
    if a != [] && a[0] == b[0] == c[0] { LexTransitive(a[1..], b[1..], c[1..]); }
  }

  lemma {:induction false} LexConnected(a: string, b: string)
    ensures LexLe(a, b) || LexLe(b, a)
  {
    if a != [] && b != [] { LexConnected(a[1..], b[1..]); }
  }

  lemma LexLeTotal()
    ensures TotalOrder(LexLe)
  {
    forall x, y ensures LexLe(x, y) || LexLe(y, x) { LexConnected(x, y); }
    forall x, y | LexLe(x, y) && LexLe(y, x) ensures x == y { LexAntisymmetric(x, y); }
    forall x, y, z | LexLe(x, y) && LexLe(y, z) ensures LexLe(x, z) { LexTransitive(x, y, z); }
  }
}
