// Byte order on strings, sort.Strings, and the one sorted listing that a set
// of strings has whatever order a map was iterated in.
module Strings {

  predicate Leq(a: string, b: string) {
    a == "" || (b != "" && (a[0] < b[0] || (a[0] == b[0] && Leq(a[1..], b[1..]))))
  }

  lemma {:induction false} LeqTotal(a: string, b: string)
    ensures Leq(a, b) || Leq(b, a)
  {
    if a == "" || b == "" || a[0] != b[0] {
    } else {
      LeqTotal(a[1..], b[1..]);
    }
  }

  lemma {:induction false} LeqAntisymmetric(a: string, b: string)
    requires Leq(a, b) && Leq(b, a)
    ensures a == b
  {
    if a == "" || b == "" {
    } else {
      LeqAntisymmetric(a[1..], b[1..]);
      assert a == [a[0]] + a[1..] && b == [b[0]] + b[1..];
    }
  }

  lemma {:induction false} LeqTransitive(a: string, b: string, c: string)
    requires Leq(a, b) && Leq(b, c)
    ensures Leq(a, c)
  {
    if a == "" || !(a[0] == b[0] == c[0]) {
    } else {
      LeqTransitive(a[1..], b[1..], c[1..]);
    }
  }

  predicate Sorted(s: seq<string>) {
    |s| <= 1 || (Leq(s[0], s[1]) && Sorted(s[1..]))
  }

  lemma {:induction false} HeadIsLeast(s: seq<string>, k: string)
    requires Sorted(s) && k in s
    ensures Leq(s[0], k)
  {
    LeqTotal(k, k);
    if k == s[0] {
    } else {
      assert k in s[1..];
      HeadIsLeast(s[1..], k);
      LeqTransitive(s[0], s[1], k);
    }
  }

  function Insert(x: string, s: seq<string>): (r: seq<string>)
    requires Sorted(s)
    ensures Sorted(r) && multiset(r) == multiset(s) + multiset{x}
    ensures r[0] == x || (s != [] && r[0] == s[0])
  {
    if s == [] then [x]
    else if Leq(x, s[0]) then
      var r := [x] + s;
      assert r[1..] == s;
      r
    else
      LeqTotal(x, s[0]);
      assert s == [s[0]] + s[1..];
      var r := [s[0]] + Insert(x, s[1..]);
      assert r[1..] == Insert(x, s[1..]);
      r
  }

  // sort.Strings.
  function SortStrings(s: seq<string>): (r: seq<string>)
    ensures Sorted(r) && multiset(r) == multiset(s)
  {
    if s == [] then []
    else
      assert s == [s[0]] + s[1..];
      Insert(s[0], SortStrings(s[1..]))
  }

  lemma TailMultiset(s: seq<string>)
    requires s != []
    ensures s[0] in multiset(s) && multiset(s[1..]) == multiset(s) - multiset{s[0]}
  {
    assert s == [s[0]] + s[1..];
  }

  lemma SameHead(s: seq<string>, t: seq<string>)
    requires Sorted(s) && Sorted(t) && s != [] && t != []
    requires t[0] in s && s[0] in t
    ensures s[0] == t[0]
  {
    HeadIsLeast(s, t[0]);
    HeadIsLeast(t, s[0]);
    LeqAntisymmetric(s[0], t[0]);
  }

  // A multiset of strings has only one sorted listing.
  lemma {:induction false} SortedUnique(s: seq<string>, t: seq<string>)
    requires Sorted(s) && Sorted(t) && multiset(s) == multiset(t)
    ensures s == t
  {
    if s == [] || t == [] {
      assert |multiset(t)| == |multiset(s)|;
    } else {
      TailMultiset(s);
      TailMultiset(t);
      assert s[0] in multiset(t) && t[0] in multiset(s);
      SameHead(s, t);
      hide Leq;
      SortedUnique(s[1..], t[1..]);
      assert s == [s[0]] + s[1..] && t == [t[0]] + t[1..];
    }
  }

  // s lists the set once, in some order: one possible range over a map.
  ghost predicate Enumerates(s: seq<string>, keys: set<string>) {
    multiset(s) == multiset(keys)
  }

  ghost function SomeEnumeration(keys: set<string>): (s: seq<string>)
    ensures Enumerates(s, keys)
  {
    if keys == {} then []
    else
      var k :| k in keys;
      [k] + SomeEnumeration(keys - {k})
  }

  // s lists the set once, in ascending order.
  ghost predicate IsOrdered(s: seq<string>, keys: set<string>) {
    Sorted(s) && Enumerates(s, keys)
  }

  // The keys of a map in ascending order.
  ghost function OrderedKeys(keys: set<string>): (s: seq<string>)
    ensures IsOrdered(s, keys)
  {
    assert IsOrdered(SortStrings(SomeEnumeration(keys)), keys);
    var s :| IsOrdered(s, keys);
    s
  }

  lemma EnumerationHasNoDuplicates(s: seq<string>, keys: set<string>)
    requires Enumerates(s, keys)
    ensures forall i, j :: 0 <= i < j < |s| ==> s[i] != s[j]
    ensures forall k :: k in keys <==> k in s
  {
    forall i, j | 0 <= i < j < |s| ensures s[i] != s[j] {
      assert s == s[..i] + [s[i]] + s[i + 1..j] + [s[j]] + s[j + 1..];
      assert s[i] == s[j] ==> multiset(s)[s[i]] >= 2;
      assert multiset(keys)[s[i]] <= 1;
    }
    forall k ensures k in keys <==> k in s {
      assert k in multiset(s) <==> k in multiset(keys);
    }
  }

  // a is a proper prefix of b, or has the smaller byte where they first differ.
  ghost predicate Before(a: string, b: string) {
    a < b || exists i :: 0 <= i < |a| && i < |b| && a[..i] == b[..i] && a[i] < b[i]
  }

  // Leq is the order of the dictionary, and not its reverse.
  lemma {:induction false} LeqIsLexicographic(a: string, b: string)
    ensures Leq(a, b) <==> a == b || Before(a, b)
  {
    if a == "" || b == "" || a[0] != b[0] {
      assert a != "" && b != "" && a[0] < b[0] ==> a[..0] == b[..0];
    } else {
      var a', b' := a[1..], b[1..];
      LeqIsLexicographic(a', b');
      assert a == [a[0]] + a' && b == [b[0]] + b';
      if i :| 0 <= i < |a'| && i < |b'| && a'[..i] == b'[..i] && a'[i] < b'[i] {
        assert a[..i + 1] == [a[0]] + a'[..i] && b[..i + 1] == [b[0]] + b'[..i] && a[i + 1] < b[i + 1];
      }
      if i :| 0 <= i < |a| && i < |b| && a[..i] == b[..i] && a[i] < b[i] {
        assert a'[..i - 1] == a[..i][1..] && b'[..i - 1] == b[..i][1..] && a'[i - 1] < b'[i - 1];
      }
    }
  }

  ghost predicate Ascending(s: seq<string>) {
    forall i, j :: 0 <= i < j < |s| ==> Before(s[i], s[j])
  }

  lemma {:induction false} SortedPairs(s: seq<string>, i: nat, j: nat)
    requires Sorted(s) && i < j < |s|
    ensures Leq(s[i], s[j])
  {
    if i == 0 {
      HeadIsLeast(s, s[j]);
    } else {
      SortedPairs(s[1..], i - 1, j - 1);
    }
  }

  lemma {:induction false} AscendingIsSorted(s: seq<string>)
    requires Ascending(s)
    ensures Sorted(s)
  {
    if |s| <= 1 {
    } else {
      LeqIsLexicographic(s[0], s[1]);
      forall i, j | 0 <= i < j < |s[1..]| ensures Before(s[1..][i], s[1..][j]) {
        assert Before(s[i + 1], s[j + 1]);
      }
      AscendingIsSorted(s[1..]);
    }
  }

  lemma NothingBeforeItself(a: string)
    ensures !Before(a, a)
  {
  }

  lemma {:induction false} DistinctListing(s: seq<string>, keys: set<string>)
    requires forall i, j :: 0 <= i < j < |s| ==> s[i] != s[j]
    requires forall k :: k in keys <==> k in s
    ensures Enumerates(s, keys)
  {
    if s == [] {
      assert keys == {};
    } else {
      var rest := s[1..];
      assert s == [s[0]] + rest && s[0] !in rest;
      DistinctListing(rest, keys - {s[0]});
      assert keys == keys - {s[0]} + {s[0]};
    }
  }

  // The ordered keys are the one listing of all keys that ascends.
  lemma OrderedKeysAscend(s: seq<string>, keys: set<string>)
    ensures s == OrderedKeys(keys) <==> Ascending(s) && forall k :: k in keys <==> k in s
  {
    if s == OrderedKeys(keys) {
      EnumerationHasNoDuplicates(s, keys);
      forall i, j | 0 <= i < j < |s| ensures Before(s[i], s[j]) {
        SortedPairs(s, i, j);
        LeqIsLexicographic(s[i], s[j]);
      }
    } else if Ascending(s) && forall k :: k in keys <==> k in s {
      AscendingIsSorted(s);
      forall i, j | 0 <= i < j < |s| ensures s[i] != s[j] { NothingBeforeItself(s[i]); }
      DistinctListing(s, keys);
      SortedUnique(s, OrderedKeys(keys));
    }
  }

  // The keys of a map, all of them and no others.
  lemma KeysListed(m: map<string, string>)
    ensures forall k :: k in m <==> k in OrderedKeys(m.Keys)
  {
    EnumerationHasNoDuplicates(OrderedKeys(m.Keys), m.Keys);
  }

  // Sorting erases the iteration order.
  lemma IterationOrderIrrelevant(s: seq<string>, keys: set<string>)
    requires Enumerates(s, keys)
    ensures SortStrings(s) == OrderedKeys(keys)
  {
    SortedUnique(SortStrings(s), OrderedKeys(keys));
  }

  // The keys of a map, collected in whatever order the range yields them and
  // then sorted.
  method SortedKeys(m: map<string, string>) returns (keys: seq<string>)
    ensures keys == OrderedKeys(m.Keys)
  {
    keys := [];
    var rest := m.Keys;
    while rest != {}
      invariant rest <= m.Keys
      invariant Enumerates(keys, m.Keys - rest)
      decreases rest
    {
      var k :| k in rest;
      assert m.Keys - (rest - {k}) == m.Keys - rest + {k};
      keys := keys + [k];
      rest := rest - {k};
    }
    assert m.Keys - rest == m.Keys;
    IterationOrderIrrelevant(keys, m.Keys);
    keys := SortStrings(keys);
  }
}
