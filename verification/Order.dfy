/** The byte-wise order on strings, and the order in which ordered maps and sets yield their keys. */
module Order {
  /** Lexicographic; a proper prefix comes first. */
  predicate Less(a: string, b: string)
    decreases |a|
  {
    b != [] && (a == [] || a[0] < b[0] || (a[0] == b[0] && Less(a[1..], b[1..])))
  }

  lemma {:induction false} LessIrreflexive(a: string)
    ensures !Less(a, a)
    decreases |a|
  {
    if a != [] {
      LessIrreflexive(a[1..]);
    }
  }

  lemma {:induction false} LessTransitive(a: string, b: string, c: string)
    requires Less(a, b) && Less(b, c)
    ensures Less(a, c)
    decreases |a|
  {
    if a != [] && a[0] == b[0] && b[0] == c[0] {
      LessTransitive(a[1..], b[1..], c[1..]);
    }
  }

  lemma {:induction false} LessTotal(a: string, b: string)
    ensures a == b || Less(a, b) || Less(b, a)
    decreases |a|
  {
    if a != [] && b != [] && a[0] == b[0] {
      LessTotal(a[1..], b[1..]);
      if a[1..] == b[1..] {
        assert a == [a[0]] + a[1..] && b == [b[0]] + b[1..];
      }
    }
  }

  ghost predicate Sorted(s: seq<string>) {
    forall i, j :: 0 <= i < j < |s| ==> Less(s[i], s[j])
  }

  /** A strictly sorted sequence is determined by its elements. */
  lemma {:induction false} SortedUnique(a: seq<string>, b: seq<string>)
    requires Sorted(a) && Sorted(b) && (forall x :: x in a <==> x in b)
    ensures a == b
  {
    assert a != [] ==> a[0] in a;
    assert b != [] ==> b[0] in b;
    if a != [] {
      HeadIsLeast(a, b);
      HeadIsLeast(b, a);
      LessIrreflexive(a[0]);
      if a[0] != b[0] {
        LessTransitive(a[0], b[0], a[0]);
      }
      TailElements(a);
      TailElements(b);
      assert forall x :: x in a[1..] <==> x in b[1..];
      SortedUnique(a[1..], b[1..]);
      assert a == [a[0]] + a[1..] && b == [b[0]] + b[1..];
    }
  }

  lemma HeadIsLeast(a: seq<string>, b: seq<string>)
    requires Sorted(a) && a != [] && b != [] && b[0] in a
    ensures a[0] == b[0] || Less(a[0], b[0])
  {
  }

  lemma TailElements(a: seq<string>)
    requires Sorted(a) && a != []
    ensures forall x :: x in a[1..] <==> x in a && x != a[0]
  {
    LessIrreflexive(a[0]);
    forall x | x in a && x != a[0] ensures x in a[1..] {
      var i :| 0 <= i < |a| && a[i] == x;
      assert a[1..][i - 1] == x;
    }
    forall x | x in a[1..] ensures x in a && x != a[0] {
      var i :| 0 <= i < |a[1..]| && a[1..][i] == x;
      assert x == a[i + 1];
    }
  }

  predicate IsLeast(x: string, s: set<string>) {
    x in s && forall y | y in s :: x == y || Less(x, y)
  }

  lemma {:induction false} LeastExists(s: set<string>)
    requires s != {}
    ensures exists x :: IsLeast(x, s)
  {
    var x :| x in s;
    if s == {x} {
      assert IsLeast(x, s);
    } else {
      LeastExists(s - {x});
      var y :| IsLeast(y, s - {x});
      LessTotal(x, y);
      var least := if Less(x, y) then x else y;
      forall z | z in s ensures least == z || Less(least, z) {
        if z != x && Less(x, y) && z != y {
          LessTransitive(x, y, z);
        }
      }
      assert IsLeast(least, s);
    }
  }

  lemma LeastIsUnique(x: string, y: string, s: set<string>)
    requires IsLeast(x, s) && IsLeast(y, s)
    ensures x == y
  {
    if x != y {
      LessTransitive(x, y, x);
      LessIrreflexive(x);
    }
  }

  function Least(s: set<string>): (x: string)
    requires s != {}
    ensures IsLeast(x, s)
  {
    LeastExists(s);
    assert forall x, y | IsLeast(x, s) && IsLeast(y, s) :: x == y by {
      forall x, y | IsLeast(x, s) && IsLeast(y, s) ensures x == y {
        LeastIsUnique(x, y, s);
      }
    }
    var x :| x in s && IsLeast(x, s);
    x
  }

  /** The elements of a set in order, as an ordered set or map yields them. */
  function InOrder(s: set<string>): (r: seq<string>)
    ensures Sorted(r)
    ensures forall x :: x in r <==> x in s
  {
    if s == {} then []
    else
      var x := Least(s);
      [x] + InOrder(s - {x})
  }

  lemma SortedSize(r: seq<string>, s: set<string>)
    requires Sorted(r) && (forall x :: x in r <==> x in s)
    ensures |r| == |s|
  {
    if r == [] {
      assert s == {};
    } else {
      TailElements(r);
      assert r[0] in s;
      SortedSize(r[1..], s - {r[0]});
    }
  }
}
