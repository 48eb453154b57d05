/** The byte-wise order of strings and the sorted sequence of a set of names, as `sort.Strings` leaves it. */
module Sorting {

  predicate Less(a: string, b: string) {
    b != "" && (a == "" || a[0] < b[0] || (a[0] == b[0] && Less(a[1..], b[1..])))
  }

  lemma {:induction false} LessTransitive(a: string, b: string, c: string)
    requires Less(a, b) && Less(b, c)
    ensures Less(a, c)
  {
    if a != "" && a[0] == b[0] && b[0] == c[0] {
      LessTransitive(a[1..], b[1..], c[1..]);
    }
  }

  lemma {:induction false} LessTotal(a: string, b: string)
    ensures Less(a, b) || Less(b, a) || a == b
    ensures !(Less(a, b) && Less(b, a)) && !Less(a, a)
  {
    if a != "" {
      if b != "" && a[0] == b[0] {
        LessTotal(a[1..], b[1..]);
        assert a == [a[0]] + a[1..] && b == [b[0]] + b[1..];
      }
      LessTotal(a[1..], a[1..]);
    }
  }

  predicate Ascending(names: seq<string>) {
    forall i, j | 0 <= i < j < |names| :: Less(names[i], names[j])
  }

  /** `names` lists exactly the members of `members`, each once, in ascending order. */
  ghost predicate SortedNames(names: seq<string>, members: set<string>) {
    Ascending(names) && forall n :: n in names <==> n in members
  }

  /** There is only one such list. */
  lemma {:induction false} SortedNamesUnique(a: seq<string>, b: seq<string>, members: set<string>)
    requires SortedNames(a, members) && SortedNames(b, members)
    ensures a == b
    decreases |a|
  {
    EmptyList(a, members);
    EmptyList(b, members);
    if a != [] {
      assert a[0] in a && a[0] in b;
      assert b[0] in b && b[0] in a;
      var i :| 0 <= i < |b| && b[i] == a[0];
      var j :| 0 <= j < |a| && a[j] == b[0];
      LessTotal(a[0], b[0]);
      assert a[0] == b[0];
      Rest(a, members);
      Rest(b, members);
      SortedNamesUnique(a[1..], b[1..], members - {a[0]});
    }
  }

  lemma EmptyList(a: seq<string>, members: set<string>)
    requires SortedNames(a, members)
    ensures a == [] <==> members == {}
  {
    if a != [] {
      assert a[0] in a;
    }
    if members != {} {
      var n :| n in members;
      assert n in a;
    }
  }

  lemma Rest(a: seq<string>, members: set<string>)
    requires SortedNames(a, members) && a != []
    ensures SortedNames(a[1..], members - {a[0]})
  {
    forall n ensures n in a[1..] <==> n in members - {a[0]} {
      if n in a[1..] {
        var i :| 0 <= i < |a| - 1 && a[1..][i] == n;
        assert a[i + 1] == n;
        LessTotal(a[0], n);
      }
      if n in members - {a[0]} {
        assert n in a;
        var i :| 0 <= i < |a| && a[i] == n;
        assert a[1..][i - 1] == n;
      }
    }
  }

  /** Where `name` belongs in an ascending list that does not hold it. */
  method Insert(names: seq<string>, name: string) returns (r: seq<string>)
    requires Ascending(names) && name !in names
    ensures Ascending(r) && forall n :: n in r <==> n in names || n == name
  {
    var i := 0;
    while i < |names| && Less(names[i], name)
      invariant 0 <= i <= |names|
      invariant forall k | 0 <= k < i :: Less(names[k], name)
    {
      i := i + 1;
    }
    r := names[..i] + [name] + names[i..];
    forall k | i <= k < |names| ensures Less(name, names[k]) {
      LessTotal(names[i], name);
      if i < k { LessTransitive(name, names[i], names[k]); }
    }
    assert names == names[..i] + names[i..];
  }

  /** `sort.Strings` on the names collected in any order. */
  method Sort(members: set<string>) returns (r: seq<string>)
    ensures SortedNames(r, members)
  {
    r := [];
    var rest := members;
    while rest != {}
      invariant rest <= members && SortedNames(r, members - rest)
      decreases |rest|
    {
      var n :| n in rest;
      r := Insert(r, n);
      rest := rest - {n};
    }
  }
}
