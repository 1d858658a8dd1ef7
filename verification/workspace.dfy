/** A worker's working directory as a map from relative paths to contents.
    Directories exist where a file below them does. */
module Workspace {
  import opened Common

  type Dir = map<Str, Bytes>

  datatype Item = Item(path: Str, data: Bytes)

  const SLASH: Code := 47

  /** `a` names a directory on the way to `b`. */
  predicate Ancestor(a: Str, b: Str) { |a| < |b| && b[..|a|] == a && b[|a|] == SLASH }

  ghost predicate PrefixFree(keys: set<Str>) { forall a, b | a in keys && b in keys :: !Ancestor(a, b) }

  /** Making the directories of `p` and opening it for writing succeeds: no file
      is in the way, and `p` is not a directory. */
  predicate CanWrite(ws: Dir, p: Str) { forall q | q in ws :: !Ancestor(q, p) && !Ancestor(p, q) }

  function WriteAll(ws: Dir, items: seq<Item>): Option<Dir>
    decreases |items|
  {
    if items == [] then Some(ws)
    else if CanWrite(ws, items[0].path) then WriteAll(ws[items[0].path := items[0].data], items[1..])
    else None
  }

  predicate Distinct(items: seq<Item>) { forall i, j | 0 <= i < j < |items| :: items[i].path != items[j].path }

  function AsMap(items: seq<Item>): Dir {
    if items == [] then map[] else map[items[0].path := items[0].data] + AsMap(items[1..])
  }

  lemma AsMapKeys(items: seq<Item>)
    ensures forall p :: p in AsMap(items) <==> exists i :: 0 <= i < |items| && items[i].path == p
  {
    if items != [] {
      AsMapKeys(items[1..]);
      forall p ensures p in AsMap(items) <==> exists i :: 0 <= i < |items| && items[i].path == p {
        if p in AsMap(items[1..]) {
          var i :| 0 <= i < |items[1..]| && items[1..][i].path == p;
          assert items[i + 1].path == p;
        }
        if i :| 0 <= i < |items| && items[i].path == p {
          if i > 0 {
            assert items[1..][i - 1].path == p;
          }
        }
      }
    }
  }

  lemma DistinctTail(items: seq<Item>)
    requires items != [] && Distinct(items)
    ensures Distinct(items[1..]) && items[0].path !in AsMap(items[1..])
  {
    AsMapKeys(items[1..]);
    forall i | 0 <= i < |items[1..]| ensures items[1..][i].path != items[0].path {
      assert items[1..][i] == items[i + 1];
    }
  }

  /** Whatever order they come in, distinct items can be written over a directory
      exactly when no path leads through another file, and then each is there. */
  lemma {:induction false} WriteAllExact(ws: Dir, items: seq<Item>)
    requires Distinct(items) && PrefixFree(ws.Keys)
    ensures WriteAll(ws, items).Some? <==> PrefixFree(ws.Keys + AsMap(items).Keys)
    ensures WriteAll(ws, items).Some? ==> WriteAll(ws, items).value == ws + AsMap(items)
    decreases |items|
  {
    if items == [] {
      assert ws.Keys + AsMap(items).Keys == ws.Keys;
      assert ws + AsMap(items) == ws;
    } else {
      DistinctTail(items);
      var p, rest := items[0].path, AsMap(items[1..]);
      var ws1 := ws[p := items[0].data];
      assert AsMap(items).Keys == {p} + rest.Keys;
      assert ws1.Keys + rest.Keys == ws.Keys + AsMap(items).Keys;
      if CanWrite(ws, p) {
        assert PrefixFree(ws1.Keys);
        WriteAllExact(ws1, items[1..]);
        assert ws1 + rest == ws + AsMap(items);
      } else {
        var q :| q in ws && (Ancestor(q, p) || Ancestor(p, q));
        assert p in ws.Keys + AsMap(items).Keys && q in ws.Keys + AsMap(items).Keys;
      }
    }
  }

  // ---- sizes ----------------------------------------------------------------

  ghost function Sizes(d: Dir): map<Str, nat> { map p | p in d :: if p in d then |d[p]| else 0 }

  /** All the bytes of a directory. */
  ghost function DirBytes(d: Dir): nat { Total(Sizes(d)) }

  lemma DirBytesAdd(d: Dir, p: Str, data: Bytes)
    requires p !in d
    ensures DirBytes(d[p := data]) == DirBytes(d) + |data|
  {
    TotalRemove(Sizes(d[p := data]), p);
    assert Sizes(d[p := data]) - {p} == Sizes(d);
  }

  lemma NothingHasNoBytes()
    ensures DirBytes(map[]) == 0
  {
    var none: Dir := map[];
    assert Sizes(none) == map[];
  }

  /** `sum(len(v) for v in d.values())`. */
  method SizeOf(d: Dir) returns (n: nat)
    ensures n == DirBytes(d)
  {
    n := 0;
    var rest := d;
    NothingHasNoBytes();
    while rest != map[]
      invariant n + DirBytes(rest) == DirBytes(d)
      decreases |rest|
    {
      var p :| p in rest;
      DirBytesAdd(rest - {p}, p, rest[p]);
      assert (rest - {p})[p := rest[p]] == rest;
      n := n + |rest[p]|;
      assert (rest - {p}).Keys == rest.Keys - {p};
      rest := rest - {p};
    }
  }
}
