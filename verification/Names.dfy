/** Go strings in ascending order, as `sort.Strings` leaves them. */
module Names {

  /** The lexicographic order. */
  predicate Before(a: string, b: string) {
    b != [] && (a == [] || a[0] < b[0] || (a[0] == b[0] && Before(a[1..], b[1..])))
  }

  lemma {:induction false} BeforeIsTotal(a: string, b: string)
    ensures a == b || Before(a, b) || Before(b, a)
    ensures !(Before(a, b) && Before(b, a)) && (a == b ==> !Before(a, b))
  {
    if a != [] && b != [] && a[0] == b[0] {
      BeforeIsTotal(a[1..], b[1..]);
      assert a == [a[0]] + a[1..] && b == [b[0]] + b[1..];
    }
  }

  lemma {:induction false} BeforeIsTransitive(a: string, b: string, c: string)
    requires Before(a, b) && Before(b, c)
    ensures Before(a, c)
  {
    if a != [] && a[0] == b[0] && b[0] == c[0] {
      BeforeIsTransitive(a[1..], b[1..], c[1..]);
    }
  }

  /** At the first place where two strings differ, the earlier one has the smaller character or ends. */
  lemma {:induction false} BeforeIsLexicographic(a: string, b: string)
    ensures Before(a, b)
            <==> exists k :: && 0 <= k <= |a| && k < |b| && a[..k] == b[..k]
                             && (k == |a| || a[k] as int < b[k] as int)
  {
    if b != [] && a != [] && a[0] == b[0] {
      BeforeIsLexicographic(a[1..], b[1..]);
      if Before(a, b) {
        var k :| 0 <= k <= |a[1..]| && k < |b[1..]| && a[1..][..k] == b[1..][..k]
                 && (k == |a[1..]| || a[1..][k] as int < b[1..][k] as int);
        assert a[..k + 1] == [a[0]] + a[1..][..k] && b[..k + 1] == [b[0]] + b[1..][..k];
      }
      if k :| 0 <= k <= |a| && k < |b| && a[..k] == b[..k] && (k == |a| || a[k] as int < b[k] as int) {
        assert k > 0;
        assert a[1..][..k - 1] == a[..k][1..] && b[1..][..k - 1] == b[..k][1..];
      }
    } else if b != [] {
      assert a[..0] == b[..0];
      if k :| 0 <= k <= |a| && k < |b| && a[..k] == b[..k] && (k == |a| || a[k] as int < b[k] as int) {
        if k > 0 {
          assert a[..k][0] == b[..k][0];
        }
      }
    }
  }

  predicate IsAscending(s: seq<string>) {
    forall i, j :: 0 <= i < j < |s| ==> Before(s[i], s[j])
  }

  function Elements(s: seq<string>): (r: set<string>)
    ensures forall x :: x in r <==> x in s
  {
    set x | x in s
  }

  predicate IsFirst(x: string, s: set<string>) {
    x in s && forall y :: y in s && y != x ==> Before(x, y)
  }

  lemma {:induction false} FirstExists(s: set<string>)
    requires s != {}
    ensures exists x :: IsFirst(x, s)
  {
    var y :| y in s;
    if s == {y} {
      assert IsFirst(y, s);
    } else {
      FirstExists(s - {y});
      var x :| IsFirst(x, s - {y});
      BeforeIsTotal(x, y);
      if Before(x, y) {
        assert IsFirst(x, s);
      } else {
        forall z | z in s && z != y
          ensures Before(y, z)
        {
          if z != x {
            BeforeIsTransitive(y, x, z);
          }
        }
        assert IsFirst(y, s);
      }
    }
  }

  /** The elements of a set in ascending order. */
  function Sorted(s: set<string>): (r: seq<string>)
    ensures IsAscending(r) && Elements(r) == s
  {
    if s == {} then []
    else
      FirstExists(s);
      assert forall x, y :: IsFirst(x, s) && IsFirst(y, s) ==> x == y by {
        forall x, y | IsFirst(x, s) && IsFirst(y, s)
          ensures x == y
        {
          BeforeIsTotal(x, y);
        }
      }
      var x :| IsFirst(x, s);
      [x] + Sorted(s - {x})
  }

  /** Comparing two ascending lists compares the sets they list. */
  lemma {:induction false} AscendingListsAreSets(a: seq<string>, b: seq<string>)
    requires IsAscending(a) && IsAscending(b)
    ensures a == b <==> Elements(a) == Elements(b)
  {
    if Elements(a) == Elements(b) {
      NoElements(a);
      NoElements(b);
      if a != [] && b != [] {
        FirstOfAscending(a, b);
        FirstOfAscending(b, a);
        BeforeIsTotal(a[0], b[0]);
        TailElements(a);
        TailElements(b);
        AscendingListsAreSets(a[1..], b[1..]);
        assert a == [a[0]] + a[1..] && b == [b[0]] + b[1..];
      }
    }
  }

  lemma NoElements(s: seq<string>)
    ensures Elements(s) == {} <==> s == []
  {
    if s != [] {
      assert s[0] in Elements(s);
    }
  }

  lemma FirstOfAscending(a: seq<string>, b: seq<string>)
    requires IsAscending(a) && a != [] && b != [] && Elements(a) == Elements(b)
    ensures a[0] == b[0] || Before(a[0], b[0])
  {
    assert b[0] in Elements(b);
    var i :| 0 <= i < |a| && a[i] == b[0];
  }

  lemma NextElement(s: seq<string>, i: nat)
    requires i < |s|
    ensures s[i] in Elements(s) && Elements(s[..i + 1]) == Elements(s[..i]) + {s[i]}
  {
    assert s[..i + 1] == s[..i] + [s[i]];
  }

  lemma TailElements(a: seq<string>)
    requires IsAscending(a) && a != []
    ensures Elements(a[1..]) == Elements(a) - {a[0]}
  {
    forall i | 1 <= i < |a|
      ensures a[i] != a[0]
    {
      BeforeIsTotal(a[0], a[i]);
    }
  }
}
