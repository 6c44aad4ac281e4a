/** Go's string order, and the sorted listing of a set of strings (sort.Strings). */
module StringOrder {

  /** Go's string order. */
  predicate Less(a: string, b: string) {
    b != [] && (a == [] || a[0] < b[0] || (a[0] == b[0] && Less(a[1..], b[1..])))
  }

  lemma {:induction false} LessIrreflexive(a: string)
    ensures !Less(a, a)
  {
    if a != [] { LessIrreflexive(a[1..]); }
  }

  lemma {:induction false} LessTransitive(a: string, b: string, c: string)
    requires Less(a, b) && Less(b, c)
    ensures Less(a, c)
  {
    if a != [] && a[0] == b[0] && b[0] == c[0] {
      LessTransitive(a[1..], b[1..], c[1..]);
    }
  }

  lemma {:induction false} LessTotal(a: string, b: string)
    ensures Less(a, b) || Less(b, a) || a == b
  {
    if a != [] && b != [] && a[0] == b[0] {
      LessTotal(a[1..], b[1..]);
      assert a == [a[0]] + a[1..] && b == [b[0]] + b[1..];
    }
  }

  predicate IsLeast(p: string, keys: set<string>) {
    p in keys && forall q :: q in keys && q != p ==> Less(p, q)
  }

  lemma {:induction false} LeastExists(keys: set<string>)
    requires keys != {}
    ensures exists p :: IsLeast(p, keys)
    decreases |keys|
  {
    var x :| x in keys;
    var rest := keys - {x};
    if rest == {} {
      assert keys == {x};
      assert IsLeast(x, keys);
    } else {
      LeastExists(rest);
      var y :| IsLeast(y, rest);
      LessTotal(x, y);
      if Less(x, y) {
        forall q | q in keys && q != x ensures Less(x, q) {
          if q != y { LessTransitive(x, y, q); }
        }
        assert IsLeast(x, keys);
      } else {
        assert IsLeast(y, keys);
      }
    }
  }

  lemma LeastUnique(p: string, q: string, keys: set<string>)
    requires IsLeast(p, keys) && IsLeast(q, keys)
    ensures p == q
  {
    if p != q {
      LessTransitive(p, q, p);
      LessIrreflexive(p);
    }
  }

  ghost function Least(keys: set<string>): (p: string)
    requires keys != {}
    ensures IsLeast(p, keys)
  {
    LeastExists(keys);
    var p :| IsLeast(p, keys);
    p
  }

  /** The members of a set in order. */
  ghost function Sorted(keys: set<string>): seq<string>
    decreases |keys|
  {
    if keys == {} then [] else [Least(keys)] + Sorted(keys - {Least(keys)})
  }

  /** The list is in strict order, so it names each string once. */
  lemma {:induction false} SortedIsStrict(keys: set<string>)
    ensures forall i, j :: 0 <= i < j < |Sorted(keys)| ==> Less(Sorted(keys)[i], Sorted(keys)[j])
    decreases |keys|
  {
    hide Less;
    if keys != {} {
      var p, rest := Least(keys), keys - {Least(keys)};
      SortedIsStrict(rest);
      SortedLists(rest);
      forall i | 0 <= i < |Sorted(rest)| ensures Less(p, Sorted(rest)[i]) {
        assert Sorted(rest)[i] in rest;
      }
    }
  }

  lemma {:induction false} SortedLists(keys: set<string>)
    ensures forall k :: k in Sorted(keys) <==> k in keys
    decreases |keys|
  {
    hide Less;
    if keys != {} {
      SortedLists(keys - {Least(keys)});
    }
  }

  method SortStrings(keys: set<string>) returns (sorted: seq<string>)
    ensures sorted == Sorted(keys)
  {
    hide Less;
    sorted := [];
    var rest := keys;
    while rest != {}
      invariant Sorted(keys) == sorted + Sorted(rest)
      decreases |rest|
    {
      LeastExists(rest);
      var k :| k in rest && forall q :: q in rest && q != k ==> Less(k, q);
      LeastUnique(k, Least(rest), rest);
      sorted := sorted + [k];
      rest := rest - {k};
    }
  }
}
