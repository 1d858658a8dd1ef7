/** Checkpoint and resume: collect everything, pack it, unpack it, wipe a worker
    and upload to it. */
module Checkpoint {
  import opened Common
  import opened Workspace
  import opened Json
  import opened Upload
  import opened Collector
  import opened Sorting
  import opened Paths
  import opened Disks
  import opened Snapshot

  datatype Refusal = Incomplete(dropped: nat) | UnsafeName(name: Str) | TooLarge(total: nat)

  // ---- the two calls --------------------------------------------------------

  /** The blob a checkpoint gives for the collector's reply. */
  function Checkpointed(reply: Option<Str>): Result<seq<Member>, Refusal> {
    var (files, trunc) := HostCollect(reply);
    if trunc != [] then Err(Incomplete(|trunc|)) else Ok(Members(Sort(files)))
  }

  method TakeCheckpoint(reply: Option<Str>) returns (r: Result<seq<Member>, Refusal>)
    ensures r == Checkpointed(reply)
  {
    var (files, trunc) := HostCollect(reply);
    HostCollectDistinct(reply);
    if trunc != [] {
      return Err(Incomplete(|trunc|));
    }
    var blob := Pack(files);
    r := Ok(blob);
  }

  /** The files a session resumed from a blob is to start with. */
  ghost function Resumed(blob: seq<Member>, uploadCap: nat): Result<Dir, Refusal> {
    match Unpacked(map[], blob)
    case Err(name) => Err(UnsafeName(name))
    case Ok(files) => if DirBytes(files) > uploadCap then Err(TooLarge(DirBytes(files))) else Ok(files)
  }

  /** The worker a session is restored on: `disk` has an empty workspace at `root`. */
  datatype Target = Target(disk: Disk, root: Str)

  ghost predicate Wiped(target: Target) { Empty(target.disk, target.root) }

  /** What the wiped worker holds after the restore; `order` lists the files in the
      order they are sent. An empty map is not sent at all. */
  function Seeded(files: Dir, target: Target, order: seq<Item>): Option<Dir> {
    if files == map[] then Some(View(target.disk, target.root))
    else
      match Uploaded(target.disk, target.root, Framed(order))
      case None => None
      case Some(d) => Some(View(d, target.root))
  }

  /** Checkpoint, resume and enter; None when any of them raises. */
  ghost function Restored(reply: Option<Str>, uploadCap: nat, target: Target, order: seq<Item>): Option<Dir> {
    match Checkpointed(reply)
    case Err(_) => None
    case Ok(blob) =>
      match Resumed(blob, uploadCap)
      case Err(_) => None
      case Ok(files) => Seeded(files, target, order)
  }

  // ---- dictionaries have each key once --------------------------------------

  lemma {:induction false} DictOfKeys(fields: seq<Field>)
    ensures DistinctKeys(DictOf(fields))
  {
    if fields != [] {
      DictOfKeys(fields[..|fields| - 1]);
    }
  }

  lemma HostCollectDistinct(reply: Option<Str>)
    ensures Distinct(HostCollect(reply).0)
  {
    if reply.Some? && ReadReport(reply.value).Some? {
      var v := Loads(reply.value).value;
      var d := DictOf(v.fields);
      var files := d[IndexOf(d, FILES)].val.fields;
      DictOfKeys(files);
      DecodedKeys(DictOf(files));
    }
  }

  // ---- collecting a whole workspace -----------------------------------------

  function Readable(ws: Dir, readable: set<Str>): Dir { ws - (ws.Keys - readable) }

  /** The collector's reply: it walks `listing` and reads what is readable, or it
      does not finish. */
  function Reply(ws: Dir, listing: seq<Str>, readable: set<Str>, finished: bool, cap: nat): Option<Str> {
    if !finished then None
    else
      var k := Collected(listing, Readable(ws, readable), cap);
      Some(Report(k.out, k.trunc))
  }

  ghost predicate NoRepeats(listing: seq<Str>) {
    forall i, j | 0 <= i < j < |listing| :: listing[i] != listing[j]
  }

  ghost predicate Covers(listing: seq<Str>, ws: Dir) { NoRepeats(listing) && forall p :: p in listing <==> p in ws }

  /** Paths as a walk of the workspace yields them. */
  ghost predicate Natural(ws: Dir) { PrefixFree(ws.Keys) && Normal(ws) }

  ghost predicate AllNoPair(ws: Dir) { forall p | p in ws :: NoPair(p) }

  // With nothing dropped the collector has every readable file.
  lemma CollectedAll(listing: seq<Str>, ws: Dir, readable: set<Str>, cap: nat)
    requires Covers(listing, ws)
    requires Collected(listing, Readable(ws, readable), cap).trunc == []
    ensures AsMap(Collected(listing, Readable(ws, readable), cap).out) == Readable(ws, readable)
  {
    var fs := Readable(ws, readable);
    var k := Collected(listing, fs, cap);
    KeptWithinCap(listing, fs, cap);
    CollectAll(listing, fs, cap);
    ListsAsMap(k.out);
    assert Lists(k.out, fs) by {
      forall p | p in fs ensures Item(p, fs[p]) in k.out {
        assert KeptPath(k, p);
        var i :| 0 <= i < |k.out| && k.out[i].path == p;
        assert k.out[i] == Item(p, fs[p]);
      }
    }
    ListsUnique(k.out, fs);
  }

  lemma AskedIsDirBytes(listing: seq<Str>, ws: Dir, readable: set<Str>)
    requires Covers(listing, ws)
    ensures Asked(listing, Readable(ws, readable)) == DirBytes(Readable(ws, readable))
  {
    var fs := Readable(ws, readable);
    var cap := Asked(listing, fs);
    DropsNothing(listing, fs, cap);
    CollectedAll(listing, ws, readable, cap);
    CollectAll(listing, fs, cap);
    KeptWithinCap(listing, fs, cap);
    SumIsDirBytes(Collected(listing, fs, cap).out);
  }

  lemma KeptSendable(listing: seq<Str>, ws: Dir, readable: set<Str>, cap: nat)
    requires Covers(listing, ws) && AllNoPair(ws)
    ensures Sendable(Collected(listing, Readable(ws, readable), cap).out)
  {
    KeptWithinCap(listing, Readable(ws, readable), cap);
  }

  lemma HostReads(k: Kept)
    requires Distinct(k.out) && Sendable(k.out)
    ensures HostCollect(Some(Report(k.out, k.trunc))).0 == k.out
    ensures |HostCollect(Some(Report(k.out, k.trunc))).1| == |k.trunc|
  {
    ReportRoundTrip(k.out, k.trunc);
    var names :| ReadReport(Report(k.out, k.trunc)) == Some((k.out, names)) && |names| == |k.trunc|;
    assert HostCollect(Some(Report(k.out, k.trunc))) == (k.out, names);
  }

  lemma DroppedExactly(ws: Dir, listing: seq<Str>, readable: set<Str>, cap: nat)
    requires Covers(listing, ws)
    ensures Collected(listing, Readable(ws, readable), cap).trunc == [] <==> DirBytes(Readable(ws, readable)) <= cap
  {
    DropsNothing(listing, Readable(ws, readable), cap);
    AskedIsDirBytes(listing, ws, readable);
  }

  lemma KeptKeys(listing: seq<Str>, ws: Dir, readable: set<Str>, cap: nat)
    requires Covers(listing, ws) && Natural(ws)
    ensures Keys(Collected(listing, Readable(ws, readable), cap).out)
  {
    KeptWithinCap(listing, Readable(ws, readable), cap);
  }

  /** A checkpoint of a workspace without paired surrogates: it raises exactly
      when the readable files exceed the cap, and a blob it gives holds all the
      readable files. */
  lemma CheckpointExact(ws: Dir, listing: seq<Str>, readable: set<Str>, cap: nat)
    requires Covers(listing, ws) && Natural(ws) && AllNoPair(ws)
    ensures var r := Checkpointed(Reply(ws, listing, readable, true, cap));
            && (r.Err? <==> DirBytes(Readable(ws, readable)) > cap)
            && (r.Err? ==> r.error == Incomplete(|Collected(listing, Readable(ws, readable), cap).trunc|))
            && (r.Ok? ==> Unpacked(map[], r.value) == Ok(Readable(ws, readable)))
  {
    var k := Collected(listing, Readable(ws, readable), cap);
    assert Distinct(k.out) by { KeptWithinCap(listing, Readable(ws, readable), cap); }
    KeptSendable(listing, ws, readable, cap);
    HostReads(k);
    DroppedExactly(ws, listing, readable, cap);
    if k.trunc == [] {
      assert AsMap(k.out) == Readable(ws, readable) by { CollectedAll(listing, ws, readable, cap); }
      KeptKeys(listing, ws, readable, cap);
      UnpackUndoesPack(k.out);
    }
  }

  /** A collector that does not finish is not noticed: the checkpoint succeeds and
      its blob restores nothing. */
  lemma UnfinishedCollectorLosesAll(ws: Dir, listing: seq<Str>, readable: set<Str>, cap: nat)
    ensures var r := Checkpointed(Reply(ws, listing, readable, false, cap));
            r.Ok? && Unpacked(map[], r.value) == Ok(map[])
  {
    assert Sort([]) == [];
  }

  // ---- the identity ---------------------------------------------------------

  // What an upload leaves has no paired surrogates in its names.
  lemma SeededPairFree(files: Dir, target: Target, order: seq<Item>)
    requires Wiped(target) && Seeded(files, target, order).Some?
    ensures AllNoPair(Seeded(files, target, order).value)
  {
    if files != map[] {
      if |Payload(order)| >= Pow10(16) {
        LongFrameFails(order);
      } else {
        ReceivedSendable(order);
        WritesGood(target.disk, target.root, Received(Framed(order)).value);
        var d := Uploaded(target.disk, target.root, Framed(order)).value;
        forall k | k in View(d, target.root) ensures NoPair(k) {
          ViewStorable(d, target.root, k);
        }
      }
    }
  }

  lemma SeededExactly(files: Dir, target: Target, order: seq<Item>)
    requires Wiped(target) && Lists(order, files) && AllNoPair(files) && Natural(files)
    ensures Seeded(files, target, order) == if files == map[] || |Payload(order)| < Pow10(16) then Some(files) else None
  {
    ListsUnique(order, files);
    assert Sendable(order) && AllStorable(order);
    UploadDelivers(target.disk, target.root, order);
    if |Payload(order)| >= Pow10(16) {
      LongFrameFails(order);
    }
  }

  ghost predicate FitsBoth(d: Dir, collectCap: nat, uploadCap: nat) {
    DirBytes(d) <= collectCap && DirBytes(d) <= uploadCap
  }

  lemma ReadableNatural(ws: Dir, readable: set<Str>)
    requires Natural(ws) && AllNoPair(ws)
    ensures Natural(Readable(ws, readable)) && AllNoPair(Readable(ws, readable))
  {
    assert Readable(ws, readable).Keys <= ws.Keys;
  }

  lemma RestoredFrom(reply: Option<Str>, uploadCap: nat, target: Target, order: seq<Item>, files: Dir)
    requires Checkpointed(reply).Ok? && Unpacked(map[], Checkpointed(reply).value) == Ok(files)
    ensures Restored(reply, uploadCap, target, order)
            == if DirBytes(files) <= uploadCap then Seeded(files, target, order) else None
  {}

  lemma RefusedNotRestored(reply: Option<Str>, uploadCap: nat, target: Target, order: seq<Item>)
    requires Checkpointed(reply).Err?
    ensures Restored(reply, uploadCap, target, order).None?
  {}

  // When the names survive, the restore is the upload of the readable files.
  lemma RestoredReadable(ws: Dir, listing: seq<Str>, readable: set<Str>, collectCap: nat, uploadCap: nat,
                         target: Target, order: seq<Item>)
    requires Covers(listing, ws) && Natural(ws) && AllNoPair(ws) && Wiped(target)
    requires Lists(order, Readable(ws, readable))
    ensures var fs := Readable(ws, readable);
            Restored(Reply(ws, listing, readable, true, collectCap), uploadCap, target, order)
            == if FitsBoth(fs, collectCap, uploadCap) && (fs == map[] || |Payload(order)| < Pow10(16))
               then Some(fs) else None
  {
    var fs, reply := Readable(ws, readable), Reply(ws, listing, readable, true, collectCap);
    CheckpointExact(ws, listing, readable, collectCap);
    if DirBytes(fs) > collectCap {
      RefusedNotRestored(reply, uploadCap, target, order);
    } else {
      RestoredFrom(reply, uploadCap, target, order, fs);
      ReadableNatural(ws, readable);
      SeededExactly(fs, target, order);
    }
  }

  // A name with a surrogate pair does not survive the upload.
  lemma PairedNameLost(ws: Dir, reply: Option<Str>, uploadCap: nat, target: Target, order: seq<Item>)
    requires !AllNoPair(ws) && Wiped(target)
    ensures Restored(reply, uploadCap, target, order) != Some(ws)
  {
    if Restored(reply, uploadCap, target, order).Some? {
      SeededPairFree(Resumed(Checkpointed(reply).value, uploadCap).value, target, order);
    }
  }

  /** Checkpoint then resume restores the workspace file map exactly, on any wiped
      worker, if and only if the workspace is empty, or the collector finishes,
      every file can be read, the total fits both byte caps, no path has a high
      surrogate before a low one, and the frame is shorter than 10^16 characters.
      `order` is the restored dictionary's own order. */
  lemma CheckpointThenResume(ws: Dir, listing: seq<Str>, readable: set<Str>, finished: bool,
                             collectCap: nat, uploadCap: nat, target: Target, order: seq<Item>)
    requires Covers(listing, ws) && Natural(ws) && Wiped(target)
    requires finished && AllNoPair(ws) ==> Lists(order, Readable(ws, readable))
    ensures Restored(Reply(ws, listing, readable, finished, collectCap), uploadCap, target, order) == Some(ws)
            <==> || ws == map[]
                 || (finished && ws.Keys <= readable && FitsBoth(ws, collectCap, uploadCap)
                     && AllNoPair(ws) && |Payload(order)| < Pow10(16))
  {
    NothingHasNoBytes();
    if !finished {
      UnfinishedCollectorLosesAll(ws, listing, readable, collectCap);
    } else if AllNoPair(ws) {
      RestoredReadable(ws, listing, readable, collectCap, uploadCap, target, order);
      AllReadable(ws, readable);
    } else {
      PairedNameLost(ws, Reply(ws, listing, readable, finished, collectCap), uploadCap, target, order);
    }
  }

  lemma AllReadable(ws: Dir, readable: set<Str>)
    ensures Readable(ws, readable) == ws <==> ws.Keys <= readable
  {
    if Readable(ws, readable) == ws {
      assert forall p | p in ws :: p in Readable(ws, readable);
    }
  }
}
