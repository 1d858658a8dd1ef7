/** Reading files out of a worker under a byte cap. */
module Collector {
  import opened Common
  import opened Workspace
  import opened Json
  import opened Disks
  import opened Upload

  // ---- sizes ----------------------------------------------------------------

  function SumData(items: seq<Item>): nat {
    if items == [] then 0 else SumData(items[..|items| - 1]) + |items[|items| - 1].data|
  }

  lemma DistinctFront(items: seq<Item>)
    requires items != [] && Distinct(items)
    ensures Distinct(items[..|items| - 1]) && items[|items| - 1].path !in AsMap(items[..|items| - 1])
  {
    AsMapKeys(items[..|items| - 1]);
  }

  lemma {:induction false} SumIsDirBytes(items: seq<Item>)
    requires Distinct(items)
    ensures SumData(items) == DirBytes(AsMap(items))
  {
    if items != [] {
      var front, last := items[..|items| - 1], items[|items| - 1];
      DistinctFront(items);
      SumIsDirBytes(front);
      AsMapLast(front, last);
      DirBytesAdd(AsMap(front), last.path, last.data);
      assert front + [last] == items;
    }
  }

  lemma {:induction false} AsMapLast(items: seq<Item>, last: Item)
    ensures AsMap(items + [last]) == AsMap(items)[last.path := last.data]
  {
    if items == [] {
      assert [last][1..] == [];
    } else {
      assert (items + [last])[1..] == items[1..] + [last];
      AsMapLast(items[1..], last);
    }
  }

  // ---- the collector --------------------------------------------------------

  datatype Kept = Kept(out: seq<Item>, trunc: seq<Str>, total: nat)

  /** `out[rel] = data`; a path kept before holds the same data already. */
  function Add(out: seq<Item>, rel: Str, data: Bytes): seq<Item> {
    if exists i :: 0 <= i < |out| && out[i].path == rel then out else out + [Item(rel, data)]
  }

  /** One request: unreadable paths are passed over, and a file that does not fit
      beside what was read so far is only named. */
  function AddRequest(k: Kept, rel: Str, fs: Dir, cap: nat): Kept {
    if rel !in fs then k
    else if k.total + |fs[rel]| > cap then k.(trunc := k.trunc + [rel])
    else Kept(Add(k.out, rel, fs[rel]), k.trunc, k.total + |fs[rel]|)
  }

  function Collected(requests: seq<Str>, fs: Dir, cap: nat): Kept {
    if requests == [] then Kept([], [], 0)
    else AddRequest(Collected(requests[..|requests| - 1], fs, cap), requests[|requests| - 1], fs, cap)
  }

  /** The collector script; `fs` holds what opening and reading each path yields. */
  method Collect(requests: seq<Str>, fs: Dir, cap: nat) returns (out: seq<Item>, trunc: seq<Str>)
    ensures out == Collected(requests, fs, cap).out && trunc == Collected(requests, fs, cap).trunc
  {
    out, trunc := [], [];
    var total: nat := 0;
    for i := 0 to |requests|
      invariant Kept(out, trunc, total) == Collected(requests[..i], fs, cap)
    {
      var rel := requests[i];
      ghost var next := requests[..i + 1];
      assert next[..|next| - 1] == requests[..i] && next[|next| - 1] == rel;
      assert Collected(next, fs, cap) == AddRequest(Collected(requests[..i], fs, cap), rel, fs, cap);
      if rel in fs {
        var data := fs[rel];
        if total + |data| > cap {
          trunc := trunc + [rel];
        } else {
          total := total + |data|;
          out := Add(out, rel, data);
        }
      }
    }
    assert requests[..|requests|] == requests;
  }

  /** The bytes of all readable requests, each as often as it is asked for. */
  function Asked(requests: seq<Str>, fs: Dir): nat {
    if requests == [] then 0
    else
      var rel := requests[|requests| - 1];
      Asked(requests[..|requests| - 1], fs) + if rel in fs then |fs[rel]| else 0
  }

  ghost predicate Within(requests: seq<Str>, fs: Dir, cap: nat, k: Kept) {
    && Distinct(k.out) && SumData(k.out) <= k.total <= cap
    && (forall i | 0 <= i < |k.out| ::
          k.out[i].path in requests && k.out[i].path in fs && k.out[i].data == fs[k.out[i].path])
    && (forall i | 0 <= i < |k.trunc| :: k.trunc[i] in requests && k.trunc[i] in fs)
  }

  lemma WithinMore(front: seq<Str>, rel: Str, fs: Dir, cap: nat, k: Kept)
    requires Within(front, fs, cap, k)
    ensures Within(front + [rel], fs, cap, k)
  {
    assert forall p | p in front :: p in front + [rel];
  }

  lemma WithinNext(front: seq<Str>, rel: Str, fs: Dir, cap: nat, k: Kept)
    requires Within(front, fs, cap, k)
    ensures Within(front + [rel], fs, cap, AddRequest(k, rel, fs, cap))
  {
    var requests := front + [rel];
    assert requests[|front|] == rel;
    WithinMore(front, rel, fs, cap, k);
    if rel in fs {
      WithinAdded(requests, rel, fs, cap, k);
    }
  }

  lemma WithinAdded(requests: seq<Str>, rel: Str, fs: Dir, cap: nat, k: Kept)
    requires Within(requests, fs, cap, k) && rel in requests && rel in fs
    ensures Within(requests, fs, cap, AddRequest(k, rel, fs, cap))
  {
    if k.total + |fs[rel]| <= cap && Add(k.out, rel, fs[rel]) != k.out {
      AddedLast(k.out, Item(rel, fs[rel]));
    }
  }

  lemma AddedLast(out: seq<Item>, last: Item)
    requires Distinct(out) && forall i | 0 <= i < |out| :: out[i].path != last.path
    ensures Distinct(out + [last]) && SumData(out + [last]) == SumData(out) + |last.data|
  {
    assert (out + [last])[..|out|] == out;
  }

  /** For any list of requests, what is kept is readable, kept once, and within
      the cap, and what is dropped was asked for and readable. */
  lemma {:induction false} KeptWithinCap(requests: seq<Str>, fs: Dir, cap: nat)
    ensures Within(requests, fs, cap, Collected(requests, fs, cap))
  {
    if requests != [] {
      var front, rel := requests[..|requests| - 1], requests[|requests| - 1];
      KeptWithinCap(front, fs, cap);
      assert requests == front + [rel];
      WithinNext(front, rel, fs, cap, Collected(front, fs, cap));
    }
  }

  /** Nothing is dropped exactly when all that was asked for fits the cap. */
  lemma {:induction false} DropsNothing(requests: seq<Str>, fs: Dir, cap: nat)
    ensures var k := Collected(requests, fs, cap);
            && (k.trunc == [] <==> Asked(requests, fs) <= cap)
            && (k.trunc == [] ==> k.total == Asked(requests, fs))
  {
    if requests != [] {
      DropsNothing(requests[..|requests| - 1], fs, cap);
    }
  }

  ghost predicate KeptPath(k: Kept, p: Str) { exists i :: 0 <= i < |k.out| && k.out[i].path == p }

  /** Kept and dropped split the readable requests, the total is that of the kept,
      and no dropped file fits beside them. */
  ghost predicate SplitsAll(requests: seq<Str>, fs: Dir, cap: nat, k: Kept) {
    && k.total == SumData(k.out)
    && (forall p :: p in requests && p in fs <==> KeptPath(k, p) || p in k.trunc)
    && (forall p | p in k.trunc :: !KeptPath(k, p) && p in fs && SumData(k.out) + |fs[p]| > cap)
  }

  // Keeping a file not asked for before.
  lemma KeepsNew(k: Kept, rel: Str, data: Bytes)
    requires !KeptPath(k, rel)
    ensures var k' := Kept(Add(k.out, rel, data), k.trunc, k.total + |data|);
            && SumData(k'.out) == SumData(k.out) + |data|
            && forall p :: KeptPath(k', p) <==> KeptPath(k, p) || p == rel
  {
    var k' := Kept(Add(k.out, rel, data), k.trunc, k.total + |data|);
    assert k'.out == k.out + [Item(rel, data)];
    assert k'.out[..|k'.out| - 1] == k.out;
    assert k'.out[|k.out|].path == rel;
    forall p ensures KeptPath(k', p) <==> KeptPath(k, p) || p == rel {
      if i :| 0 <= i < |k.out| && k.out[i].path == p {
        assert k'.out[i].path == p;
      }
    }
  }

  lemma SplitsOneMore(front: seq<Str>, rel: Str, fs: Dir, cap: nat, k: Kept)
    requires SplitsAll(front, fs, cap, k) && rel !in front
    ensures SplitsAll(front + [rel], fs, cap, AddRequest(k, rel, fs, cap))
  {
    assert rel in fs ==> !KeptPath(k, rel) && rel !in k.trunc;
    if rel in fs && k.total + |fs[rel]| <= cap {
      KeepsNew(k, rel, fs[rel]);
    }
  }

  // Asking again for what cannot be read, or is empty, changes nothing.
  lemma SplitsRepeat(front: seq<Str>, rel: Str, fs: Dir, cap: nat, k: Kept)
    requires SplitsAll(front, fs, cap, k) && k.total <= cap && rel in front
    requires rel in fs ==> fs[rel] == []
    ensures SplitsAll(front + [rel], fs, cap, AddRequest(k, rel, fs, cap))
  {
    if rel in fs {
      assert KeptPath(k, rel);
      assert AddRequest(k, rel, fs, cap) == k;
    }
  }

  /** No file that can be read and has contents is asked for twice. */
  ghost predicate HarmlessRepeats(requests: seq<Str>, fs: Dir) {
    forall i, j | 0 <= i < j < |requests| && requests[i] == requests[j] && requests[j] in fs :: fs[requests[j]] == []
  }

  lemma {:induction false} CollectAll(requests: seq<Str>, fs: Dir, cap: nat)
    requires HarmlessRepeats(requests, fs)
    ensures SplitsAll(requests, fs, cap, Collected(requests, fs, cap))
  {
    if requests != [] {
      var front, rel := requests[..|requests| - 1], requests[|requests| - 1];
      CollectAll(front, fs, cap);
      assert requests == front + [rel];
      var k := Collected(front, fs, cap);
      if rel in front {
        var i :| 0 <= i < |front| && front[i] == rel;
        assert requests[i] == requests[|requests| - 1];
        KeptWithinCap(front, fs, cap);
        SplitsRepeat(front, rel, fs, cap, k);
      } else {
        SplitsOneMore(front, rel, fs, cap, k);
      }
    }
  }

  /** What the first `n` requests kept or dropped stays so. */
  lemma {:induction false} StaysKept(requests: seq<Str>, n: nat, fs: Dir, cap: nat, p: Str)
    requires n <= |requests|
    ensures var k, k' := Collected(requests[..n], fs, cap), Collected(requests, fs, cap);
            (KeptPath(k, p) ==> KeptPath(k', p)) && (p in k.trunc ==> p in k'.trunc)
    decreases |requests|
  {
    if n == |requests| {
      assert requests[..n] == requests;
    } else {
      var front, rel := requests[..|requests| - 1], requests[|requests| - 1];
      StaysKept(front, n, fs, cap, p);
      assert front[..n] == requests[..n];
      StaysOnce(Collected(front, fs, cap), rel, fs, cap, p);
    }
  }

  lemma StaysOnce(k: Kept, rel: Str, fs: Dir, cap: nat, p: Str)
    ensures var k' := AddRequest(k, rel, fs, cap);
            (KeptPath(k, p) ==> KeptPath(k', p)) && (p in k.trunc ==> p in k'.trunc)
  {
    var k' := AddRequest(k, rel, fs, cap);
    if i :| 0 <= i < |k.out| && k.out[i].path == p {
      assert k'.out[i] == k.out[i];
    }
  }

  // A readable request is kept or dropped.
  lemma {:induction false} Accounted(requests: seq<Str>, fs: Dir, cap: nat, p: Str)
    requires p in requests && p in fs
    ensures KeptPath(Collected(requests, fs, cap), p) || p in Collected(requests, fs, cap).trunc
  {
    var front, rel := requests[..|requests| - 1], requests[|requests| - 1];
    var k := Collected(front, fs, cap);
    assert requests == front + [rel];
    if p in front {
      Accounted(front, fs, cap, p);
      StaysOnce(k, rel, fs, cap, p);
    } else {
      AddedIsKept(k, p, fs, cap);
    }
  }

  lemma AddedIsKept(k: Kept, p: Str, fs: Dir, cap: nat)
    requires p in fs
    ensures var k' := AddRequest(k, p, fs, cap); KeptPath(k', p) || p in k'.trunc
  {
    var k' := AddRequest(k, p, fs, cap);
    if !KeptPath(k, p) && k.total + |fs[p]| <= cap {
      KeepsNew(k, p, fs[p]);
    }
  }

  /** With a cap that the requests before it just fill, a repeated file is both
      kept and dropped. */
  lemma RepeatBreaks(requests: seq<Str>, fs: Dir, i: nat, j: nat)
    requires i < j < |requests| && requests[i] == requests[j] && requests[j] in fs && fs[requests[j]] != []
    ensures var cap := Asked(requests[..j], fs); !SplitsAll(requests, fs, cap, Collected(requests, fs, cap))
  {
    var p, front := requests[j], requests[..j];
    var cap := Asked(front, fs);
    var k := Collected(front, fs, cap);
    DropsNothing(front, fs, cap);
    assert front[i] == p;
    Accounted(front, fs, cap, p);
    var next := requests[..j + 1];
    assert next[..|next| - 1] == front && next[|next| - 1] == p;
    assert Collected(next, fs, cap) == AddRequest(k, p, fs, cap);
    StaysOnce(k, p, fs, cap, p);
    assert p in AddRequest(k, p, fs, cap).trunc by {
      assert (k.trunc + [p])[|k.trunc|] == p;
    }
    StaysKept(requests, j + 1, fs, cap, p);
  }

  /** Whatever the cap, the collector splits the readable requests into kept and
      dropped, with no dropped file fitting beside the kept ones, if and only if no
      readable file with contents is asked for twice. */
  lemma SplitsExactly(requests: seq<Str>, fs: Dir)
    ensures (forall cap: nat :: SplitsAll(requests, fs, cap, Collected(requests, fs, cap)))
            <==> HarmlessRepeats(requests, fs)
  {
    if HarmlessRepeats(requests, fs) {
      forall cap: nat ensures SplitsAll(requests, fs, cap, Collected(requests, fs, cap)) {
        CollectAll(requests, fs, cap);
      }
    } else {
      var i, j :| 0 <= i < j < |requests| && requests[i] == requests[j]
                  && requests[j] in fs && fs[requests[j]] != [];
      RepeatBreaks(requests, fs, i, j);
    }
  }

  /** Asking for a path twice counts it twice: a file can then be dropped that
      would have fitted beside the kept ones. */
  lemma RepeatsCountTwice()
    ensures var a, b: Str := [97], [98];
            var fs: Dir := map[a := [0], b := [0]];
            var k := Collected([a, a, b], fs, 2);
            k.out == [Item(a, [0])] && k.trunc == [b] && SumData(k.out) + |fs[b]| <= 2
  {
    var a, b: Str := [97], [98];
    var fs: Dir := map[a := [0], b := [0]];
    var none: seq<Str> := [];
    assert [a, a, b][..2] == [a, a] && [a, a][..1] == [a] && [a][..0] == none;
    assert Collected(none, fs, 2) == Kept([], [], 0);
    var k1 := Collected([a], fs, 2);
    assert k1 == AddRequest(Collected([a][..0], fs, 2), a, fs, 2);
    assert k1 == Kept([Item(a, [0])], [], 1);
    var k2 := Collected([a, a], fs, 2);
    assert k1.out[0].path == a;
    assert k2 == Kept([Item(a, [0])], [], 2);
    assert [Item(a, [0])][..0] == [];
  }

  // ---- what the caller reads ------------------------------------------------

  const FILES: Str := Lit("files")
  const TRUNC: Str := Lit("trunc")

  function Strings(names: seq<Str>): seq<Value> {
    if names == [] then [] else [JStr(names[0])] + Strings(names[1..])
  }

  /** What the collector prints. */
  function Report(out: seq<Item>, trunc: seq<Str>): Str {
    Dumps(JObj([Field(FILES, JObj(Fields(out))), Field(TRUNC, JArr(Strings(trunc)))]))
  }

  function Names(values: seq<Value>): Option<seq<Str>> {
    if values == [] then Some([])
    else if !values[0].JStr? then None
    else
      match Names(values[1..])
      case None => None
      case Some(rest) => Some([values[0].s] + rest)
  }

  /** The files and dropped names in a report. */
  function ReadReport(text: Str): Option<(seq<Item>, seq<Str>)> {
    match Loads(text)
    case Some(JObj(fields)) =>
      var d := DictOf(fields);
      var f, t := IndexOf(d, FILES), IndexOf(d, TRUNC);
      if f < |d| && t < |d| && d[f].val.JObj? && d[t].val.JArr? then
        match (Decoded(DictOf(d[f].val.fields)), Names(d[t].val.items))
        case (Some(files), Some(names)) => Some((files, names))
        case _ => None
      else None
    case _ => None
  }

  /** `_collect`: a collector that timed out, failed or printed something else
      (None) reads as no files and nothing dropped. */
  function HostCollect(reply: Option<Str>): (seq<Item>, seq<Str>) {
    if reply.None? then ([], [])
    else match ReadReport(reply.value)
      case None => ([], [])
      case Some(r) => r
  }

  lemma {:induction false} NamesBack(names: seq<Str>)
    ensures exists got ::
              && Names(CollapseItems(Strings(names))) == Some(got) && |got| == |names|
              && ((forall i | 0 <= i < |names| :: NoPair(names[i])) ==> got == names)
  {
    if names == [] {
      assert Names(CollapseItems(Strings(names))) == Some([]);
    } else {
      NamesBack(names[1..]);
      var got :| Names(CollapseItems(Strings(names[1..]))) == Some(got) && |got| == |names[1..]|
                 && ((forall i | 0 <= i < |names[1..]| :: NoPair(names[1..][i])) ==> got == names[1..]);
      var all := CollapseItems(Strings(names));
      assert Strings(names)[1..] == Strings(names[1..]) && Strings(names)[0] == JStr(names[0]);
      assert CollapseValue(JStr(names[0])) == JStr(Collapse(names[0]));
      assert all[1..] == CollapseItems(Strings(names[1..])) && all[0] == JStr(Collapse(names[0]));
      var got1 := [Collapse(names[0])] + got;
      assert Names(all) == Some(got1) && |got1| == |names|;
      if forall i | 0 <= i < |names| :: NoPair(names[i]) {
        CollapseKeeps(names[0]);
        assert forall i | 0 <= i < |names[1..]| :: names[1..][i] == names[i + 1];
        assert got1 == names;
      }
    }
  }

  // A report's two fields, as they are read back.
  lemma ReportFields(out: seq<Item>, trunc: seq<Str>)
    ensures Loads(Report(out, trunc))
            == Some(JObj([Field(FILES, JObj(CollapseFields(Fields(out)))),
                          Field(TRUNC, JArr(CollapseItems(Strings(trunc))))]))
  {
    var a, b := Field(FILES, JObj(Fields(out))), Field(TRUNC, JArr(Strings(trunc)));
    LoadsDumps(JObj([a, b]));
    FixedNames();
    CollapseTwo(a, b);
  }

  lemma ReadsTwo(a: Field, b: Field)
    requires a.key == FILES && b.key == TRUNC
    ensures DictOf([a, b]) == [a, b] && IndexOf([a, b], FILES) == 0 && IndexOf([a, b], TRUNC) == 1
  {
    FixedNames();
    DictOfDistinct([a, b]);
  }

  lemma FilesBack(out: seq<Item>)
    requires Distinct(out) && Sendable(out)
    ensures Decoded(DictOf(CollapseFields(Fields(out)))) == Some(out)
  {
    CollapsedFields(out);
    JoinedKeeps(out);
    FieldsAt(out);
    DictOfDistinct(Fields(out));
    DecodedFields(out);
  }

  /** The caller reads the report it was sent: the very files when no kept path has
      an adjacent surrogate pair, as many dropped names, and those very names when
      none of them has one either. */
  lemma ReportRoundTrip(out: seq<Item>, trunc: seq<Str>)
    requires Distinct(out) && Sendable(out)
    ensures exists names ::
              && ReadReport(Report(out, trunc)) == Some((out, names)) && |names| == |trunc|
              && ((forall i | 0 <= i < |trunc| :: NoPair(trunc[i])) ==> names == trunc)
  {
    ReportFields(out, trunc);
    ReadsTwo(Field(FILES, JObj(CollapseFields(Fields(out)))), Field(TRUNC, JArr(CollapseItems(Strings(trunc)))));
    FilesBack(out);
    NamesBack(trunc);
    var got :| Names(CollapseItems(Strings(trunc))) == Some(got) && |got| == |trunc|
               && ((forall i | 0 <= i < |trunc| :: NoPair(trunc[i])) ==> got == trunc);
    assert ReadReport(Report(out, trunc)) == Some((out, got));
  }

  lemma CollapseTwo(a: Field, b: Field)
    ensures CollapseFields([a, b])
            == [Field(Collapse(a.key), CollapseValue(a.val)), Field(Collapse(b.key), CollapseValue(b.val))]
  {
    assert [a, b][1..] == [b] && [b][1..] == [];
    assert CollapseFields([b]) == [Field(Collapse(b.key), CollapseValue(b.val))] + CollapseFields([b][1..]);
    assert CollapseFields([a, b]) == [Field(Collapse(a.key), CollapseValue(a.val))] + CollapseFields([b]);
  }

  lemma FixedNames()
    ensures Collapse(FILES) == FILES && Collapse(TRUNC) == TRUNC && FILES != TRUNC
  {
    CollapseKeeps(FILES);
    CollapseKeeps(TRUNC);
  }
}
