/** Checkpoint blobs as lists of archive members: packing a file map in sorted
    order, and unpacking an archive, tampered with or not. */
module Snapshot {
  import opened Common
  import opened Workspace
  import opened Sorting
  import opened Paths

  datatype Member = Member(name: Str, regular: bool, mtime: nat, data: Bytes)

  function MemberOf(item: Item): Member { Member(item.path, true, 0, item.data) }

  function Members(items: seq<Item>): seq<Member> {
    if items == [] then [] else [MemberOf(items[0])] + Members(items[1..])
  }

  lemma {:induction false} MembersAppend(items: seq<Item>, item: Item)
    ensures Members(items + [item]) == Members(items) + [MemberOf(item)]
  {
    if items == [] {
      assert Members([item]) == [MemberOf(item)] + Members([]);
    } else {
      assert (items + [item])[1..] == items[1..] + [item];
      MembersAppend(items[1..], item);
    }
  }

  /** `_pack_snapshot`: `files` in the dictionary's own order. */
  method Pack(files: seq<Item>) returns (archive: seq<Member>)
    requires Distinct(files)
    ensures archive == Members(Sort(files))
  {
    var names := Sort(files);
    archive := [];
    for i := 0 to |names|
      invariant archive == Members(names[..i])
    {
      MembersAppend(names[..i], names[i]);
      assert names[..i + 1] == names[..i] + [names[i]];
      archive := archive + [Member(names[i].path, true, 0, names[i].data)];
    }
    assert names[..|names|] == names;
  }

  /** The files of an archive on top of `out`; Err is the offending name. */
  function Unpacked(out: Dir, archive: seq<Member>): Result<Dir, Str>
    decreases |archive|
  {
    if archive == [] then Ok(out)
    else if !archive[0].regular then Unpacked(out, archive[1..])
    else if !Accepted(archive[0].name) then Err(archive[0].name)
    else Unpacked(out[NormPath(archive[0].name) := archive[0].data], archive[1..])
  }

  /** `_unpack_snapshot`. */
  method Unpack(archive: seq<Member>) returns (r: Result<Dir, Str>)
    ensures r == Unpacked(map[], archive)
  {
    var out: Dir := map[];
    var i := 0;
    while i < |archive|
      invariant 0 <= i <= |archive|
      invariant Unpacked(out, archive[i..]) == Unpacked(map[], archive)
    {
      var m := archive[i];
      assert archive[i..][1..] == archive[i + 1..];
      if m.regular {
        var name := NormPath(m.name);
        if !SafeName(name) {
          return Err(m.name);
        }
        out := out[name := m.data];
      }
      i := i + 1;
    }
    r := Ok(out);
  }

  // ---- what unpacking yields ------------------------------------------------

  /** A blob is refused exactly when some regular member's name is not accepted. */
  lemma {:induction false} RefusedExactly(out: Dir, archive: seq<Member>)
    ensures Unpacked(out, archive).Err? <==> exists m :: m in archive && m.regular && !Accepted(m.name)
    decreases |archive|
  {
    if archive != [] {
      var next := if archive[0].regular then out[NormPath(archive[0].name) := archive[0].data] else out;
      RefusedExactly(next, archive[1..]);
      assert archive == [archive[0]] + archive[1..];
      if archive[0].regular && !Accepted(archive[0].name) {
        assert archive[0] in archive;
      } else {
        forall m | m in archive && m.regular && !Accepted(m.name) ensures m in archive[1..] {}
        assert Unpacked(out, archive) == Unpacked(next, archive[1..]);
      }
    }
  }

  /** The refusal names the first regular member whose name is not accepted. */
  lemma {:induction false} RefusesFirst(out: Dir, archive: seq<Member>)
    requires Unpacked(out, archive).Err?
    ensures exists i :: 0 <= i < |archive| && archive[i].regular && !Accepted(archive[i].name)
                        && Unpacked(out, archive).error == archive[i].name
                        && forall j | 0 <= j < i && archive[j].regular :: Accepted(archive[j].name)
    decreases |archive|
  {
    if archive[0].regular && !Accepted(archive[0].name) {
      assert Unpacked(out, archive).error == archive[0].name;
    } else {
      var next := if archive[0].regular then out[NormPath(archive[0].name) := archive[0].data] else out;
      RefusesFirst(next, archive[1..]);
      var i :| 0 <= i < |archive[1..]| && archive[1..][i].regular && !Accepted(archive[1..][i].name)
               && Unpacked(next, archive[1..]).error == archive[1..][i].name
               && forall j | 0 <= j < i && archive[1..][j].regular :: Accepted(archive[1..][j].name);
      assert archive[i + 1] == archive[1..][i];
      assert forall j | 0 < j < i + 1 :: archive[j] == archive[1..][j - 1];
    }
  }

  /** A regular member whose name normalises to `p`. */
  predicate Names(m: Member, p: Str) { m.regular && NormPath(m.name) == p }

  predicate Unnamed(archive: seq<Member>, p: Str) { forall i | 0 <= i < |archive| :: !Names(archive[i], p) }

  /** What a member leaves for the ones after it. */
  function After(out: Dir, m: Member): Dir { if m.regular then out[NormPath(m.name) := m.data] else out }

  lemma UnpackOne(out: Dir, archive: seq<Member>)
    requires archive != [] && Unpacked(out, archive).Ok?
    ensures Unpacked(out, archive) == Unpacked(After(out, archive[0]), archive[1..])
  {}

  lemma {:induction false} UnnamedStays(out: Dir, archive: seq<Member>, p: Str)
    requires Unpacked(out, archive).Ok? && Unnamed(archive, p)
    ensures var r := Unpacked(out, archive).value; (p in r <==> p in out) && (p in r ==> r[p] == out[p])
    decreases |archive|
  {
    if archive != [] {
      UnpackOne(out, archive);
      assert !Names(archive[0], p);
      assert forall i | 0 <= i < |archive[1..]| :: archive[1..][i] == archive[i + 1];
      UnnamedStays(After(out, archive[0]), archive[1..], p);
    }
  }

  lemma {:induction false} LastStays(out: Dir, archive: seq<Member>, p: Str, i: nat)
    requires Unpacked(out, archive).Ok? && i < |archive|
    requires Names(archive[i], p) && Unnamed(archive[i + 1..], p)
    ensures var r := Unpacked(out, archive).value; p in r && r[p] == archive[i].data
    decreases |archive|
  {
    UnpackOne(out, archive);
    if i == 0 {
      UnnamedStays(After(out, archive[0]), archive[1..], p);
    } else {
      assert archive[1..][i - 1] == archive[i] && archive[1..][i..] == archive[i + 1..];
      LastStays(After(out, archive[0]), archive[1..], p, i - 1);
    }
  }

  /** A file comes from the last regular member whose name normalises to its
      path, and there are no other files. */
  lemma LastWins(out: Dir, archive: seq<Member>, p: Str)
    requires Unpacked(out, archive).Ok?
    ensures var r := Unpacked(out, archive).value;
            && (forall i | 0 <= i < |archive| && Names(archive[i], p) && Unnamed(archive[i + 1..], p) ::
                  p in r && r[p] == archive[i].data)
            && (Unnamed(archive, p) ==> (p in r <==> p in out) && (p in r ==> r[p] == out[p]))
  {
    forall i | 0 <= i < |archive| && Names(archive[i], p) && Unnamed(archive[i + 1..], p)
      ensures var r := Unpacked(out, archive).value; p in r && r[p] == archive[i].data
    {
      LastStays(out, archive, p, i);
    }
    if Unnamed(archive, p) {
      UnnamedStays(out, archive, p);
    }
  }

  // ---- round trips ----------------------------------------------------------

  predicate Keys(items: seq<Item>) { forall i | 0 <= i < |items| :: IsKey(items[i].path) }

  lemma UnpackNext(out: Dir, items: seq<Item>)
    requires items != [] && IsKey(items[0].path)
    ensures Unpacked(out, Members(items)) == Unpacked(out[items[0].path := items[0].data], Members(items[1..]))
  {
    assert Members(items)[1..] == Members(items[1..]);
  }

  predicate NewTo(out: Dir, items: seq<Item>) { forall i | 0 <= i < |items| :: items[i].path !in out }

  lemma NewTail(out: Dir, items: seq<Item>)
    requires items != [] && Distinct(items) && NewTo(out, items)
    ensures var out1 := out[items[0].path := items[0].data];
            NewTo(out1, items[1..]) && out1 + AsMap(items[1..]) == out + AsMap(items)
  {
    DistinctTail(items);
    assert forall i | 0 <= i < |items[1..]| :: items[1..][i] == items[i + 1];
  }

  lemma KeysTail(items: seq<Item>)
    requires items != [] && Keys(items)
    ensures IsKey(items[0].path) && Keys(items[1..])
  {
    forall i | 0 <= i < |items[1..]| ensures IsKey(items[1..][i].path) {
      assert items[1..][i] == items[i + 1];
    }
  }

  lemma {:induction false} UnpackMembers(out: Dir, items: seq<Item>)
    requires Keys(items) && Distinct(items) && NewTo(out, items)
    ensures Unpacked(out, Members(items)) == Ok(out + AsMap(items))
    decreases |items|
  {
    if items == [] {
      assert out + AsMap(items) == out;
    } else {
      KeysTail(items);
      UnpackNext(out, items);
      DistinctTail(items);
      NewTail(out, items);
      UnpackMembers(out[items[0].path := items[0].data], items[1..]);
    }
  }

  /** Unpacking what was packed gives back the file map, for normal safe names. */
  lemma UnpackUndoesPack(items: seq<Item>)
    requires Distinct(items) && Keys(items)
    ensures Unpacked(map[], Members(Sort(items))) == Ok(AsMap(items))
  {
    ListsAsMap(items);
    SortLists(items, AsMap(items));
    SortedKeys(items);
    UnpackFresh(Sort(items));
    ListsUnique(Sort(items), AsMap(items));
  }

  lemma UnpackFresh(items: seq<Item>)
    requires Keys(items) && Distinct(items)
    ensures Unpacked(map[], Members(items)) == Ok(AsMap(items))
  {
    var empty: Dir := map[];
    UnpackMembers(empty, items);
    assert empty + AsMap(items) == AsMap(items);
  }

  lemma SortedKeys(items: seq<Item>)
    requires Keys(items)
    ensures Keys(Sort(items))
  {
    var sorted := Sort(items);
    forall i | 0 <= i < |sorted| ensures IsKey(sorted[i].path) {
      assert sorted[i] in multiset(sorted);
      assert sorted[i] in multiset(items);
      assert sorted[i] in items;
    }
  }

  lemma {:induction false} MembersAt(items: seq<Item>)
    ensures |Members(items)| == |items|
    ensures forall i | 0 <= i < |items| :: Members(items)[i] == Member(items[i].path, true, 0, items[i].data)
  {
    if items != [] {
      MembersAt(items[1..]);
    }
  }

  lemma SortedAre(files: seq<Item>)
    requires Distinct(files)
    ensures |Sort(files)| == |files| && Distinct(Sort(files)) && Ordered(Sort(files))
    ensures forall i | 0 <= i < |Sort(files)| :: Sort(files)[i] in files
  {
    var sorted := Sort(files);
    ListsAsMap(files);
    SortLists(files, AsMap(files));
    assert |multiset(sorted)| == |sorted| && |multiset(files)| == |files|;
    forall i | 0 <= i < |sorted| ensures sorted[i] in files {
      assert sorted[i] in multiset(sorted);
      assert sorted[i] in multiset(files);
    }
  }

  /** A blob lists each file of the state once, by rising name, as a regular member
      without a time of its own. */
  lemma PackedAre(files: seq<Item>)
    requires Distinct(files)
    ensures var archive := Members(Sort(files));
            && |archive| == |files|
            && (forall i | 0 <= i < |archive| :: archive[i].regular && archive[i].mtime == 0)
            && (forall i | 0 <= i < |archive| :: Item(archive[i].name, archive[i].data) in files)
            && (forall i, j | 0 <= i < j < |archive| ::
                  archive[i].name != archive[j].name && Leq(archive[i].name, archive[j].name))
  {
    SortedAre(files);
    MembersAt(Sort(files));
  }

  /** Equal states give equal blobs, whatever order the files were listed in. */
  lemma PackDependsOnTheMap(a: seq<Item>, b: seq<Item>)
    requires Distinct(a) && Distinct(b) && AsMap(a) == AsMap(b)
    ensures Members(Sort(a)) == Members(Sort(b))
  {
    ListsAsMap(a);
    ListsAsMap(b);
    SortCanonical(a, b, AsMap(a));
  }

  lemma {:induction false} UnpackedAreKeys(out: Dir, archive: seq<Member>)
    requires Unpacked(out, archive).Ok? && forall p | p in out :: IsKey(p)
    ensures forall p | p in Unpacked(out, archive).value :: IsKey(p)
    decreases |archive|
  {
    if archive != [] {
      if archive[0].regular {
        NormalisesToKey(archive[0].name);
        UnpackedAreKeys(out[NormPath(archive[0].name) := archive[0].data], archive[1..]);
      } else {
        UnpackedAreKeys(out, archive[1..]);
      }
    }
  }

  /** Whatever an archive holds (duplicates, directories, names not normal),
      unpacking it, packing the result and unpacking again changes nothing more. */
  lemma UnpackPackUnpack(archive: seq<Member>, items: seq<Item>)
    requires Unpacked(map[], archive).Ok?
    requires Lists(items, Unpacked(map[], archive).value)
    ensures Unpacked(map[], Members(Sort(items))) == Unpacked(map[], archive)
  {
    UnpackedAreKeys(map[], archive);
    ListsUnique(items, Unpacked(map[], archive).value);
    UnpackUndoesPack(items);
  }
}
