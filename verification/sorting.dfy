/** `sorted` on items by path: Python's order on strings, code point by code point. */
module Sorting {
  import opened Common
  import opened Workspace

  predicate Leq(a: Str, b: Str) {
    a == [] || (b != [] && (a[0] < b[0] || (a[0] == b[0] && Leq(a[1..], b[1..]))))
  }

  /** The order is that of the first place where the strings differ, by code point;
      a string comes before those it begins. */
  lemma {:induction false} LeqMeans(a: Str, b: Str)
    ensures Leq(a, b) <==> a <= b || exists i :: 0 <= i < |a| && i < |b| && a[..i] == b[..i] && a[i] < b[i]
  {
    if a != [] && b != [] {
      LeqMeans(a[1..], b[1..]);
      if a[0] == b[0] {
        SameFirst(a, b);
      } else {
        assert a[..0] == b[..0];
        assert forall i | 0 < i < |a| && i < |b| :: a[..i][0] == a[0] && b[..i][0] == b[0];
      }
    }
  }

  lemma SameFirst(a: Str, b: Str)
    requires a != [] && b != [] && a[0] == b[0]
    ensures a <= b <==> a[1..] <= b[1..]
    ensures (exists i :: 0 <= i < |a| && i < |b| && a[..i] == b[..i] && a[i] < b[i])
            <==> exists i :: 0 <= i < |a[1..]| && i < |b[1..]| && a[1..][..i] == b[1..][..i] && a[1..][i] < b[1..][i]
  {
    var c, d := a[1..], b[1..];
    assert a == [a[0]] + c && b == [b[0]] + d;
    if a <= b {
      assert c == b[..|a|][1..];
    }
    if i :| 0 <= i < |a| && i < |b| && a[..i] == b[..i] && a[i] < b[i] {
      assert c[..i - 1] == a[..i][1..] && d[..i - 1] == b[..i][1..] && c[i - 1] < d[i - 1];
    }
    if i :| 0 <= i < |c| && i < |d| && c[..i] == d[..i] && c[i] < d[i] {
      assert a[..i + 1] == [a[0]] + c[..i] && b[..i + 1] == [b[0]] + d[..i] && a[i + 1] < b[i + 1];
    }
  }

  lemma {:induction false} LeqTotal(a: Str, b: Str)
    ensures Leq(a, b) || Leq(b, a)
  {
    if a != [] && b != [] {
      LeqTotal(a[1..], b[1..]);
    }
  }

  lemma {:induction false} LeqAntisymmetric(a: Str, b: Str)
    requires Leq(a, b) && Leq(b, a)
    ensures a == b
  {
    if a != [] && b != [] {
      LeqAntisymmetric(a[1..], b[1..]);
      assert a == [a[0]] + a[1..] && b == [b[0]] + b[1..];
    }
  }

  lemma {:induction false} LeqTransitive(a: Str, b: Str, c: Str)
    requires Leq(a, b) && Leq(b, c)
    ensures Leq(a, c)
  {
    if a != [] && b != [] && c != [] && a[0] == b[0] == c[0] {
      LeqTransitive(a[1..], b[1..], c[1..]);
    }
  }

  ghost predicate Ordered(items: seq<Item>) {
    forall i, j | 0 <= i < j < |items| :: Leq(items[i].path, items[j].path)
  }

  function Insert(x: Item, items: seq<Item>): (r: seq<Item>)
    ensures multiset(r) == multiset(items) + multiset{x}
  {
    if items == [] then [x]
    else if Leq(x.path, items[0].path) then [x] + items
    else
      assert items == [items[0]] + items[1..];
      [items[0]] + Insert(x, items[1..])
  }

  lemma {:induction false} InsertOrdered(x: Item, items: seq<Item>)
    requires Ordered(items)
    ensures Ordered(Insert(x, items))
  {
    if items != [] {
      var first := items[0].path;
      if Leq(x.path, first) {
        forall j | 0 <= j < |items| ensures Leq(x.path, items[j].path) {
          if j > 0 {
            LeqTransitive(x.path, first, items[j].path);
          }
        }
      } else {
        assert Ordered(items[1..]) by {
          assert forall i | 0 <= i < |items[1..]| :: items[1..][i] == items[i + 1];
        }
        InsertOrdered(x, items[1..]);
        LeqTotal(x.path, first);
        var rest := Insert(x, items[1..]);
        forall j | 0 <= j < |rest| ensures Leq(first, rest[j].path) {
          assert rest[j] in multiset(rest);
          if rest[j] != x {
            assert rest[j] in multiset(items[1..]);
            assert rest[j] in items[1..];
          }
        }
      }
    }
  }

  function Sort(items: seq<Item>): (r: seq<Item>)
    ensures multiset(r) == multiset(items)
  {
    if items == [] then []
    else
      assert items == [items[0]] + items[1..];
      Insert(items[0], Sort(items[1..]))
  }

  lemma {:induction false} SortOrdered(items: seq<Item>)
    ensures Ordered(Sort(items))
  {
    if items != [] {
      SortOrdered(items[1..]);
      InsertOrdered(items[0], Sort(items[1..]));
    }
  }

  /** The items of a map, with no path twice. */
  ghost predicate Lists(items: seq<Item>, m: Dir) {
    && Distinct(items)
    && (forall i | 0 <= i < |items| :: items[i].path in m && m[items[i].path] == items[i].data)
    && (forall p | p in m :: Item(p, m[p]) in items)
  }

  lemma {:induction false} ListsAsMap(items: seq<Item>)
    requires Distinct(items)
    ensures Lists(items, AsMap(items))
  {
    if items != [] {
      DistinctTail(items);
      ListsAsMap(items[1..]);
      var rest := AsMap(items[1..]);
      forall i | 0 <= i < |items|
        ensures items[i].path in AsMap(items) && AsMap(items)[items[i].path] == items[i].data
      {
        if i > 0 {
          assert items[1..][i - 1] == items[i];
        }
      }
      forall p | p in AsMap(items) ensures Item(p, AsMap(items)[p]) in items {
        if p in rest {
          assert Item(p, rest[p]) in items[1..];
        } else {
          assert items[0] == Item(p, AsMap(items)[p]);
        }
      }
    }
  }

  lemma ListsUnique(items: seq<Item>, m: Dir)
    requires Lists(items, m)
    ensures m == AsMap(items)
  {
    ListsAsMap(items);
    forall p ensures p in m <==> p in AsMap(items) {
      if p in m {
        assert Item(p, m[p]) in items;
      }
      if p in AsMap(items) {
        assert Item(p, AsMap(items)[p]) in items;
      }
    }
    forall p | p in m ensures m[p] == AsMap(items)[p] {
      assert Item(p, m[p]) in items;
    }
  }

  /** A rearrangement of the items of a map lists the same map. */
  lemma SameItemsList(a: seq<Item>, b: seq<Item>, m: Dir)
    requires Lists(a, m) && multiset(a) == multiset(b)
    ensures Lists(b, m)
  {
    forall i | 0 <= i < |b| ensures b[i] in a {
      assert b[i] in multiset(b);
      assert b[i] in multiset(a);
    }
    forall x | x in a ensures x in b {
      assert x in multiset(a);
      assert x in multiset(b);
    }
    forall i, j | 0 <= i < j < |b| ensures b[i].path != b[j].path {
      if b[i].path == b[j].path {
        assert b[i] == b[j];
        TwiceIn(b, i, j);
        OnceIn(a, b[i]);
      }
    }
  }

  lemma TwiceIn(s: seq<Item>, i: nat, j: nat)
    requires i < j < |s| && s[i] == s[j]
    ensures multiset(s)[s[i]] >= 2
  {
    assert s == s[..j] + [s[j]] + s[j + 1..];
    assert s[..j][i] == s[i];
    assert s[i] in multiset(s[..j]);
  }

  lemma {:induction false} OnceIn(s: seq<Item>, x: Item)
    requires Distinct(s)
    ensures multiset(s)[x] <= 1
  {
    if s != [] {
      DistinctTail(s);
      OnceIn(s[1..], x);
      assert s == [s[0]] + s[1..];
      AsMapKeys(s[1..]);
      assert x == s[0] ==> x !in s[1..];
      assert x !in s[1..] ==> x !in multiset(s[1..]);
    }
  }

  lemma SortLists(items: seq<Item>, m: Dir)
    requires Lists(items, m)
    ensures Lists(Sort(items), m) && Ordered(Sort(items))
  {
    SortOrdered(items);
    SameItemsList(items, Sort(items), m);
  }

  lemma EmptyTogether(a: seq<Item>, m: Dir)
    requires Lists(a, m)
    ensures a == [] <==> m == map[]
  {
    if a != [] {
      assert a[0].path in m;
    }
  }

  // Ordered lists of one map are equal: each starts with the least path.
  lemma {:induction false} OrderedUnique(a: seq<Item>, b: seq<Item>, m: Dir)
    requires Lists(a, m) && Lists(b, m) && Ordered(a) && Ordered(b)
    ensures a == b
    decreases |a|
  {
    EmptyTogether(a, m);
    EmptyTogether(b, m);
    if a != [] {
      TailsEqual(a, b, m);
      OrderedUnique(a[1..], b[1..], m - {a[0].path});
      Whole(a, b);
    }
  }

  lemma Whole(a: seq<Item>, b: seq<Item>)
    requires a != [] && b != [] && a[0] == b[0] && a[1..] == b[1..]
    ensures a == b
  {
    assert a == [a[0]] + a[1..] && b == [b[0]] + b[1..];
  }

  lemma TailsEqual(a: seq<Item>, b: seq<Item>, m: Dir)
    requires Lists(a, m) && Lists(b, m) && Ordered(a) && Ordered(b) && a != [] && b != []
    ensures a[0] == b[0]
    ensures Lists(a[1..], m - {a[0].path}) && Ordered(a[1..])
    ensures Lists(b[1..], m - {a[0].path}) && Ordered(b[1..])
  {
    SameHead(a, b, m);
    TailLists(a, m);
    TailLists(b, m);
  }

  lemma HeadLeast(a: seq<Item>, b: seq<Item>, m: Dir)
    requires Lists(a, m) && Lists(b, m) && Ordered(a) && a != [] && b != []
    ensures Leq(a[0].path, b[0].path)
  {
    assert Item(b[0].path, m[b[0].path]) in a;
    var i :| 0 <= i < |a| && a[i] == b[0];
    if i == 0 {
      LeqTotal(a[0].path, a[0].path);
    }
  }

  lemma SameHead(a: seq<Item>, b: seq<Item>, m: Dir)
    requires Lists(a, m) && Lists(b, m) && Ordered(a) && Ordered(b) && a != [] && b != []
    ensures a[0] == b[0]
  {
    HeadLeast(a, b, m);
    HeadLeast(b, a, m);
    LeqAntisymmetric(a[0].path, b[0].path);
  }

  lemma TailLists(a: seq<Item>, m: Dir)
    requires Lists(a, m) && Ordered(a) && a != []
    ensures Lists(a[1..], m - {a[0].path}) && Ordered(a[1..])
  {
    assert forall i | 0 <= i < |a[1..]| :: a[1..][i] == a[i + 1];
    forall p | p in m - {a[0].path} ensures Item(p, m[p]) in a[1..] {
      var i :| 0 <= i < |a| && a[i] == Item(p, m[p]);
      assert a[1..][i - 1] == a[i];
    }
  }

  /** Sorting depends only on the map listed, not on the order of the listing. */
  lemma SortCanonical(a: seq<Item>, b: seq<Item>, m: Dir)
    requires Lists(a, m) && Lists(b, m)
    ensures Sort(a) == Sort(b)
  {
    SortLists(a, m);
    SortLists(b, m);
    OrderedUnique(Sort(a), Sort(b), m);
  }
}
