/** Sorting by name: what sort.Slice and sort.Strings promise, and when that fixes the result. */
module Sorting {

  /** Go's string order: bytewise lexicographic. */
  predicate Le(a: string, b: string)
  {
    a == "" || (b != "" && (a[0] < b[0] || (a[0] == b[0] && Le(a[1..], b[1..]))))
  }

  lemma {:induction false} LeTotal(a: string, b: string)
    ensures Le(a, b) || Le(b, a)
  {
    if a != "" && b != "" && a[0] == b[0] {
      LeTotal(a[1..], b[1..]);
    }
  }

  lemma {:induction false} LeAntisymmetric(a: string, b: string)
    requires Le(a, b) && Le(b, a)
    ensures a == b
  {
    if a != "" && b != "" {
      LeAntisymmetric(a[1..], b[1..]);
      assert a == [a[0]] + a[1..] && b == [b[0]] + b[1..];
    }
  }

  lemma {:induction false} LeTransitive(a: string, b: string, c: string)
    requires Le(a, b) && Le(b, c)
    ensures Le(a, c)
  {
    if a != "" && a[0] == b[0] == c[0] {
      LeTransitive(a[1..], b[1..], c[1..]);
    }
  }

  ghost predicate SortedBy<T>(s: seq<T>, key: T -> string)
  {
    forall i, j :: 0 <= i < j < |s| ==> Le(key(s[i]), key(s[j]))
  }

  ghost predicate DistinctBy<T>(s: seq<T>, key: T -> string)
  {
    forall i, j :: 0 <= i < j < |s| ==> key(s[i]) != key(s[j])
  }

  function InsertBy<T>(x: T, s: seq<T>, key: T -> string): seq<T>
  {
    if s == [] then [x]
    else if Le(key(x), key(s[0])) then [x] + s
    else [s[0]] + InsertBy(x, s[1..], key)
  }

  function SortBy<T>(s: seq<T>, key: T -> string): seq<T>
  {
    if s == [] then [] else InsertBy(s[0], SortBy(s[1..], key), key)
  }

  lemma {:induction false} InsertKeepsElements<T>(x: T, s: seq<T>, key: T -> string)
    ensures multiset(InsertBy(x, s, key)) == multiset{x} + multiset(s)
  {
    if s != [] {
      assert s == [s[0]] + s[1..];
      InsertKeepsElements(x, s[1..], key);
    }
  }

  lemma {:induction false} InsertKeepsSorted<T>(x: T, s: seq<T>, key: T -> string)
    requires SortedBy(s, key)
    ensures SortedBy(InsertBy(x, s, key), key)
  {
    if s != [] {
      var r := InsertBy(x, s, key);
      if Le(key(x), key(s[0])) {
        forall j | 1 <= j < |r| ensures Le(key(r[0]), key(r[j])) {
          if j > 1 {
            LeTransitive(key(x), key(s[0]), key(s[j - 1]));
          }
        }
      } else {
        LeTotal(key(x), key(s[0]));
        var rest := InsertBy(x, s[1..], key);
        InsertKeepsSorted(x, s[1..], key);
        InsertKeepsElements(x, s[1..], key);
        forall j | 0 <= j < |rest| ensures Le(key(s[0]), key(rest[j])) {
          assert rest[j] in multiset(rest);
          assert rest[j] == x || rest[j] in s[1..];
          if rest[j] != x {
            var k :| 0 <= k < |s[1..]| && s[1..][k] == rest[j];
            assert s[k + 1] == rest[j];
          }
        }
      }
    }
  }

  lemma {:induction false} SortBySorts<T>(s: seq<T>, key: T -> string)
    ensures SortedBy(SortBy(s, key), key)
    ensures multiset(SortBy(s, key)) == multiset(s)
  {
    if s != [] {
      assert s == [s[0]] + s[1..];
      SortBySorts(s[1..], key);
      InsertKeepsSorted(s[0], SortBy(s[1..], key), key);
      InsertKeepsElements(s[0], SortBy(s[1..], key), key);
    }
  }

  /** sort.Slice by name: a permutation in name order; the order of equal names is not promised. */
  method SortSlice<T>(s: seq<T>, key: T -> string) returns (r: seq<T>)
    ensures SortedBy(r, key) && multiset(r) == multiset(s)
  {
    SortBySorts(s, key);
    r := SortBy(s, key);
  }

  lemma DistinctMultiplicity<T>(a: seq<T>, key: T -> string, i: nat)
    requires DistinctBy(a, key) && i < |a|
    ensures multiset(a)[a[i]] == 1
  {
    assert a == a[..i] + [a[i]] + a[i + 1..];
    assert a[i] !in a[..i] && a[i] !in a[i + 1..];
  }

  lemma MultiplicityTwo<T>(b: seq<T>, i: nat, j: nat)
    requires i < j < |b| && b[i] == b[j]
    ensures multiset(b)[b[i]] >= 2
  {
    assert b == b[..i] + [b[i]] + b[i + 1..j] + [b[j]] + b[j + 1..];
  }

  lemma DistinctCarriesOver<T>(a: seq<T>, b: seq<T>, key: T -> string)
    requires DistinctBy(a, key) && multiset(a) == multiset(b)
    ensures DistinctBy(b, key)
  {
    forall i, j | 0 <= i < j < |b| ensures key(b[i]) != key(b[j]) {
      assert b[i] in multiset(a) && b[j] in multiset(a);
      var i' :| 0 <= i' < |a| && a[i'] == b[i];
      var j' :| 0 <= j' < |a| && a[j'] == b[j];
      if i' == j' {
        MultiplicityTwo(b, i, j);
        DistinctMultiplicity(a, key, i');
      }
    }
  }

  lemma TailMultiset<T>(a: seq<T>)
    requires a != []
    ensures a == [a[0]] + a[1..] && multiset(a[1..]) == multiset(a) - multiset{a[0]}
  {
    assert a == [a[0]] + a[1..];
  }

  lemma SameHead<T>(a: seq<T>, b: seq<T>, key: T -> string)
    requires SortedBy(a, key) && SortedBy(b, key) && DistinctBy(a, key)
    requires a != [] && b != [] && a[0] in b && b[0] in a
    ensures a[0] == b[0]
  {
    var i :| 0 <= i < |a| && a[i] == b[0];
    var j :| 0 <= j < |b| && b[j] == a[0];
    if i > 0 && j > 0 {
      LeAntisymmetric(key(a[0]), key(b[0]));
    }
  }

  /** With distinct names there is only one sorted permutation. */
  lemma {:induction false} SortedIsUnique<T>(a: seq<T>, b: seq<T>, key: T -> string)
    requires SortedBy(a, key) && SortedBy(b, key)
    requires DistinctBy(a, key) && multiset(a) == multiset(b)
    ensures a == b
    decreases |a|
  {
    assert |multiset(a)| == |a| && |multiset(b)| == |b|;
    if a != [] {
      assert a[0] in multiset(b) && b[0] in multiset(a);
      SameHead(a, b, key);
      TailMultiset(a);
      TailMultiset(b);
      SortedIsUnique(a[1..], b[1..], key);
    }
  }

  // ---- the names of a map in order ----

  ghost predicate StrictlySorted(s: seq<string>)
  {
    forall i, j :: 0 <= i < j < |s| ==> Le(s[i], s[j]) && s[i] != s[j]
  }

  function Self(s: string): string
  {
    s
  }

  lemma SameHeadString(a: seq<string>, b: seq<string>)
    requires SortedBy(a, Self) && SortedBy(b, Self)
    requires a != [] && b != [] && a[0] in b && b[0] in a
    ensures a[0] == b[0]
  {
    var i :| 0 <= i < |a| && a[i] == b[0];
    var j :| 0 <= j < |b| && b[j] == a[0];
    LeTotal(a[0], a[0]);
    assert Le(Self(a[0]), Self(a[i])) && Le(Self(b[0]), Self(b[j]));
    LeAntisymmetric(a[0], b[0]);
  }

  /** Equal strings cannot be told apart, so sorting strings has one result. */
  lemma {:induction false} SortedStringsAreUnique(a: seq<string>, b: seq<string>)
    requires SortedBy(a, Self) && SortedBy(b, Self) && multiset(a) == multiset(b)
    ensures a == b
    decreases |a|
  {
    hide Le;
    assert |multiset(a)| == |a| && |multiset(b)| == |b|;
    if a != [] {
      assert a[0] in multiset(b) && b[0] in multiset(a);
      SameHeadString(a, b);
      TailMultiset(a);
      TailMultiset(b);
      SortedStringsAreUnique(a[1..], b[1..]);
    }
  }

  lemma InsertIsStrict(n: string, rest: seq<string>)
    requires StrictlySorted(rest) && n !in rest
    ensures var r := InsertBy(n, rest, Self);
            StrictlySorted(r) && |r| == |rest| + 1 && forall m :: m in r <==> m == n || m in rest
  {
    var r := InsertBy(n, rest, Self);
    assert SortedBy(rest, Self);
    InsertKeepsSorted(n, rest, Self);
    InsertKeepsElements(n, rest, Self);
    assert DistinctBy([n] + rest, Self);
    assert multiset([n] + rest) == multiset{n} + multiset(rest);
    DistinctCarriesOver([n] + rest, r, Self);
    assert |r| == |multiset(r)|;
    forall m ensures m in r <==> m == n || m in rest {
      assert m in r <==> m in multiset(r);
    }
    forall i, j | 0 <= i < j < |r| ensures Le(r[i], r[j]) && r[i] != r[j] {
      assert Le(Self(r[i]), Self(r[j])) && Self(r[i]) != Self(r[j]);
    }
  }

  /** The members of a set in string order. */
  ghost function InOrder(names: set<string>): (r: seq<string>)
    ensures StrictlySorted(r) && (forall n :: n in names <==> n in r)
    ensures |r| == |names|
  {
    if names == {} then [] else
      var n :| n in names;
      var rest := InOrder(names - {n});
      InsertKeepsSorted(n, rest, Self);
      InsertKeepsElements(n, rest, Self);
      InsertIsStrict(n, rest);
      InsertBy(n, rest, Self)
  }

  lemma SameMembers(a: seq<string>, b: seq<string>)
    requires DistinctBy(a, Self) && DistinctBy(b, Self)
    requires forall n :: n in a <==> n in b
    ensures multiset(a) == multiset(b)
  {
    forall n ensures multiset(a)[n] == multiset(b)[n] {
      if n in a {
        var i :| 0 <= i < |a| && a[i] == n;
        var j :| 0 <= j < |b| && b[j] == n;
        DistinctMultiplicity(a, Self, i);
        DistinctMultiplicity(b, Self, j);
      }
    }
  }

  /** Collecting the members in any order and sorting gives InOrder. */
  lemma SortedNamesAreInOrder(names: set<string>, s: seq<string>, r: seq<string>)
    requires DistinctBy(s, Self) && forall n :: n in names <==> n in s
    requires SortedBy(r, Self) && multiset(r) == multiset(s)
    ensures r == InOrder(names)
  {
    var o := InOrder(names);
    assert SortedBy(o, Self) && DistinctBy(o, Self);
    SameMembers(s, o);
    DistinctCarriesOver(s, r, Self);
    SortedIsUnique(r, o, Self);
  }
}
