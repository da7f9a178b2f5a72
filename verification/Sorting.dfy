/** sort.Strings: the lexicographic order on strings and a sorted permutation. */
module Sorting {

  predicate Le(a: string, b: string) {
    a == "" || (b != "" && (a[0] < b[0] || (a[0] == b[0] && Le(a[1..], b[1..]))))
  }

  lemma {:induction false} LeTotal(a: string, b: string)
    ensures Le(a, b) || Le(b, a)
  {
    if a != "" && b != "" {
      LeTotal(a[1..], b[1..]);
    }
  }

  lemma {:induction false} LeTransitive(a: string, b: string, c: string)
    requires Le(a, b) && Le(b, c)
    ensures Le(a, c)
  {
    if a != "" && b != "" && c != "" && a[0] == b[0] == c[0] {
      LeTransitive(a[1..], b[1..], c[1..]);
    }
  }

  lemma {:induction false} LeAntisymmetric(a: string, b: string)
    requires Le(a, b) && Le(b, a)
    ensures a == b
  {
    if a != "" && b != "" {
      LeAntisymmetric(a[1..], b[1..]);
      assert a == [a[0]] + a[1..] && b == [b[0]] + b[1..];
    }
  }

  /** `x` comes no later than any of `names`. */
  ghost predicate Leads(x: string, names: seq<string>) {
    forall y :: y in names ==> Le(x, y)
  }

  ghost predicate Sorted(names: seq<string>) {
    names == [] || (Leads(names[0], names[1..]) && Sorted(names[1..]))
  }

  function Insert(x: string, names: seq<string>): seq<string> {
    if names == [] then [x]
    else if Le(x, names[0]) then [x] + names
    else [names[0]] + Insert(x, names[1..])
  }

  function SortStrings(names: seq<string>): seq<string> {
    if names == [] then [] else Insert(names[0], SortStrings(names[1..]))
  }

  lemma LeadsOn(x: string, y: string, names: seq<string>)
    requires Le(x, y) && Leads(y, names)
    ensures Leads(x, [y] + names)
  {
    forall z | z in [y] + names ensures Le(x, z) {
      if z != y {
        assert z in names;
        LeTransitive(x, y, z);
      }
    }
  }

  lemma {:induction false} InsertElements(x: string, names: seq<string>)
    ensures multiset(Insert(x, names)) == multiset{x} + multiset(names)
    ensures forall y :: y in Insert(x, names) <==> y == x || y in names
  {
    if names != [] {
      assert names == [names[0]] + names[1..];
      InsertElements(x, names[1..]);
    }
  }

  lemma {:induction false} InsertSorted(x: string, names: seq<string>)
    requires Sorted(names)
    ensures Sorted(Insert(x, names))
  {
    if names == [] {
      assert [x][1..] == [];
    } else {
      var rest := names[1..];
      assert names == [names[0]] + rest;
      if Le(x, names[0]) {
        LeadsOn(x, names[0], rest);
        assert ([x] + names)[1..] == names;
      } else {
        LeTotal(x, names[0]);
        InsertSorted(x, rest);
        InsertElements(x, rest);
        var r := Insert(x, rest);
        assert Leads(names[0], r);
        assert ([names[0]] + r)[1..] == r;
      }
    }
  }

  lemma {:induction false} SortIsSorted(names: seq<string>)
    ensures Sorted(SortStrings(names))
    ensures multiset(SortStrings(names)) == multiset(names)
  {
    if names != [] {
      SortIsSorted(names[1..]);
      InsertSorted(names[0], SortStrings(names[1..]));
      InsertElements(names[0], SortStrings(names[1..]));
      assert names == [names[0]] + names[1..];
    }
  }

  /** A sorted list is determined by its elements: sorting leaves no choice. */
  lemma {:induction false} SortedIsUnique(a: seq<string>, b: seq<string>)
    requires Sorted(a) && Sorted(b) && multiset(a) == multiset(b)
    ensures a == b
  {
    if a == [] {
      assert |multiset(a)| == |a| && |multiset(b)| == |b|;
    } else {
      assert a[0] in multiset(a);
      assert a[0] in multiset(b);
      assert b != [];
      SameFirst(a, b);
      assert a == [a[0]] + a[1..] && b == [b[0]] + b[1..];
      assert multiset(a[1..]) == multiset(a) - multiset{a[0]};
      assert multiset(b[1..]) == multiset(b) - multiset{b[0]};
      SortedIsUnique(a[1..], b[1..]);
    }
  }

  lemma SameFirst(a: seq<string>, b: seq<string>)
    requires Sorted(a) && Sorted(b) && multiset(a) == multiset(b) && a != [] && b != []
    ensures a[0] == b[0]
  {
    assert a == [a[0]] + a[1..] && b == [b[0]] + b[1..];
    if a[0] != b[0] {
      assert a[0] in multiset(b) && b[0] in multiset(a);
      assert a[0] in b[1..] && b[0] in a[1..];
      LeAntisymmetric(a[0], b[0]);
    }
  }
}
