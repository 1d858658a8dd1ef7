/** Reading a project directory: a walk that prunes as it goes, against the set of
    files it is meant to select. */
module Project {
  import opened Common
  import opened Workspace
  import opened Paths

  // A link is shown with what it finally leads to; None when it is broken.
  datatype Node = File(data: Bytes) | Folder(entries: seq<Entry>) | Link(target: Option<Node>) | Special
  datatype Entry = Entry(name: Str, node: Node)

  type Route = seq<Str>   // the components of a relative path

  /** A directory still to be visited. */
  datatype Job = Job(route: Route, entries: seq<Entry>)

  datatype Found = Found(route: Route, data: Bytes)

  datatype Error = NotADirectory | TooLarge | NothingToUpload

  // ---- nodes ----------------------------------------------------------------

  function Resolve(n: Node): Node { if n.Link? && n.target.Some? then Resolve(n.target.value) else n }

  /** The contents a name stands for as a regular file; a link counts only when
      links are followed. */
  function FileData(n: Node, follow: bool): Option<Bytes> {
    if n.Link? && !follow then None
    else match Resolve(n)
      case File(d) => Some(d)
      case _ => None
  }

  /** The entries the walk descends into. */
  function SubFolder(n: Node, follow: bool): Option<seq<Entry>> {
    if n.Link? && !follow then None
    else match Resolve(n)
      case Folder(es) => Some(es)
      case _ => None
  }

  function Weight(n: Node): nat
    decreases n, 0
  {
    match n
    case Folder(es) => 1 + WeightAll(es)
    case Link(Some(t)) => 1 + Weight(t)
    case _ => 1
  }

  function WeightAll(es: seq<Entry>): nat
    decreases es, 0
  {
    if es == [] then 0 else 1 + Weight(es[0].node) + WeightAll(es[1..])
  }

  lemma {:induction false} ResolveLighter(n: Node)
    ensures Weight(Resolve(n)) <= Weight(n)
  {
    if n.Link? && n.target.Some? {
      ResolveLighter(n.target.value);
    }
  }

  // ---- one directory --------------------------------------------------------

  /** What one entry contributes. */
  function Pick(route: Route, e: Entry, exclude: Str -> bool, follow: bool): seq<Found> {
    if !exclude(e.name) && FileData(e.node, follow).Some?
    then [Found(route + [e.name], FileData(e.node, follow).value)] else []
  }

  function FilesOf(route: Route, es: seq<Entry>, exclude: Str -> bool, follow: bool): seq<Found> {
    if es == [] then []
    else Pick(route, es[0], exclude, follow) + FilesOf(route, es[1..], exclude, follow)
  }

  /** The directory one entry leads to. */
  function Descend(route: Route, e: Entry, exclude: Str -> bool, follow: bool): seq<Job> {
    if !exclude(e.name) && SubFolder(e.node, follow).Some?
    then [Job(route + [e.name], SubFolder(e.node, follow).value)] else []
  }

  function SubsOf(route: Route, es: seq<Entry>, exclude: Str -> bool, follow: bool): seq<Job> {
    if es == [] then []
    else Descend(route, es[0], exclude, follow) + SubsOf(route, es[1..], exclude, follow)
  }

  function JobsWeight(jobs: seq<Job>): nat {
    if jobs == [] then 0 else 1 + WeightAll(jobs[0].entries) + JobsWeight(jobs[1..])
  }

  lemma {:induction false} JobsWeightConcat(a: seq<Job>, b: seq<Job>)
    ensures JobsWeight(a + b) == JobsWeight(a) + JobsWeight(b)
  {
    if a == [] {
      assert a + b == b;
    } else {
      assert (a + b)[1..] == a[1..] + b;
      JobsWeightConcat(a[1..], b);
    }
  }

  lemma {:induction false} SubsLighter(route: Route, es: seq<Entry>, exclude: Str -> bool, follow: bool)
    ensures JobsWeight(SubsOf(route, es, exclude, follow)) <= WeightAll(es)
  {
    if es != [] {
      SubsLighter(route, es[1..], exclude, follow);
      ResolveLighter(es[0].node);
      var first := Descend(route, es[0], exclude, follow);
      JobsWeightConcat(first, SubsOf(route, es[1..], exclude, follow));
      assert |first| == 1 ==> first[1..] == [];
    }
  }

  /** Every file the pruned walk of `jobs` visits, in order. */
  function Visited(jobs: seq<Job>, exclude: Str -> bool, follow: bool): seq<Found>
    decreases JobsWeight(jobs)
  {
    if jobs == [] then []
    else
      var job := jobs[0];
      var subs := SubsOf(job.route, job.entries, exclude, follow);
      SubsLighter(job.route, job.entries, exclude, follow);
      JobsWeightConcat(subs, jobs[1..]);
      FilesOf(job.route, job.entries, exclude, follow) + Visited(subs + jobs[1..], exclude, follow)
  }

  function Size(found: seq<Found>): nat { if found == [] then 0 else |found[0].data| + Size(found[1..]) }

  lemma {:induction false} SizeConcat(a: seq<Found>, b: seq<Found>)
    ensures Size(a + b) == Size(a) + Size(b)
  {
    if a == [] {
      assert a + b == b;
    } else {
      assert (a + b)[1..] == a[1..] + b;
      SizeConcat(a[1..], b);
    }
  }

  // ---- the walk -------------------------------------------------------------

  lemma {:induction false} FilesOfConcat(route: Route, a: seq<Entry>, b: seq<Entry>, exclude: Str -> bool, follow: bool)
    ensures FilesOf(route, a + b, exclude, follow)
            == FilesOf(route, a, exclude, follow) + FilesOf(route, b, exclude, follow)
  {
    if a == [] {
      assert a + b == b;
    } else {
      assert (a + b)[1..] == a[1..] + b;
      FilesOfConcat(route, a[1..], b, exclude, follow);
    }
  }

  lemma FilesOfNext(route: Route, es: seq<Entry>, i: nat, exclude: Str -> bool, follow: bool)
    requires i < |es|
    ensures FilesOf(route, es[..i + 1], exclude, follow)
            == FilesOf(route, es[..i], exclude, follow) + Pick(route, es[i], exclude, follow)
    ensures Size(FilesOf(route, es[..i + 1], exclude, follow)) <= Size(FilesOf(route, es, exclude, follow))
    ensures Size(FilesOf(route, es[..i + 1], exclude, follow))
            == Size(FilesOf(route, es[..i], exclude, follow)) + Size(Pick(route, es[i], exclude, follow))
  {
    FilesOfConcat(route, es[..i], [es[i]], exclude, follow);
    assert es[..i] + [es[i]] == es[..i + 1] && [es[i]][1..] == [];
    FilesOfConcat(route, es[..i + 1], es[i + 1..], exclude, follow);
    assert es[..i + 1] + es[i + 1..] == es;
    SizeConcat(FilesOf(route, es[..i + 1], exclude, follow), FilesOf(route, es[i + 1..], exclude, follow));
    SizeConcat(FilesOf(route, es[..i], exclude, follow), Pick(route, es[i], exclude, follow));
  }

  /** The dictionary of files by relative path. */
  function ByPath(found: seq<Found>): Dir {
    if found == [] then map[]
    else ByPath(found[..|found| - 1])[JoinParts(found[|found| - 1].route) := found[|found| - 1].data]
  }

  lemma {:induction false} ByPathConcat(a: seq<Found>, b: seq<Found>)
    ensures ByPath(a + b) == ByPath(a) + ByPath(b)
  {
    if b == [] {
      assert a + b == a;
    } else {
      assert (a + b)[..|a + b| - 1] == a + b[..|b| - 1];
      ByPathConcat(a, b[..|b| - 1]);
    }
  }

  lemma ByPathPick(files: Dir, route: Route, e: Entry, exclude: Str -> bool, follow: bool)
    ensures files + ByPath(Pick(route, e, exclude, follow))
            == if exclude(e.name) || FileData(e.node, follow).None? then files
               else files[JoinParts(route + [e.name]) := FileData(e.node, follow).value]
  {
    var picked := Pick(route, e, exclude, follow);
    if picked != [] {
      assert picked[..|picked| - 1] == [];
    }
  }

  // The bytes and the dictionary after `i` entries of a directory.
  ghost function SizeTo(route: Route, es: seq<Entry>, i: nat, exclude: Str -> bool, follow: bool): nat
    requires i <= |es|
  {
    Size(FilesOf(route, es[..i], exclude, follow))
  }

  ghost function FilesTo(known: Dir, route: Route, es: seq<Entry>, i: nat, exclude: Str -> bool, follow: bool): Dir
    requires i <= |es|
  {
    known + ByPath(FilesOf(route, es[..i], exclude, follow))
  }

  predicate Picked(e: Entry, exclude: Str -> bool, follow: bool) {
    !exclude(e.name) && FileData(e.node, follow).Some?
  }

  lemma SizeStep(route: Route, es: seq<Entry>, i: nat, exclude: Str -> bool, follow: bool)
    requires i < |es|
    ensures SizeTo(route, es, i + 1, exclude, follow) <= Size(FilesOf(route, es, exclude, follow))
    ensures SizeTo(route, es, i + 1, exclude, follow)
            == SizeTo(route, es, i, exclude, follow)
               + if Picked(es[i], exclude, follow) then |FileData(es[i].node, follow).value| else 0
  {
    FilesOfNext(route, es, i, exclude, follow);
    PickSize(route, es[i], exclude, follow);
  }

  lemma Overlay(known: Dir, a: seq<Found>, b: seq<Found>)
    ensures known + ByPath(a + b) == known + ByPath(a) + ByPath(b)
  {
    ByPathConcat(a, b);
    assert known + (ByPath(a) + ByPath(b)) == known + ByPath(a) + ByPath(b);
  }

  lemma FilesStep(known: Dir, route: Route, es: seq<Entry>, i: nat, exclude: Str -> bool, follow: bool)
    requires i < |es|
    ensures var files := FilesTo(known, route, es, i, exclude, follow);
            FilesTo(known, route, es, i + 1, exclude, follow)
            == if Picked(es[i], exclude, follow)
               then files[JoinParts(route + [es[i].name]) := FileData(es[i].node, follow).value] else files
  {
    FilesOfNext(route, es, i, exclude, follow);
    Overlay(known, FilesOf(route, es[..i], exclude, follow), Pick(route, es[i], exclude, follow));
    ByPathPick(FilesTo(known, route, es, i, exclude, follow), route, es[i], exclude, follow);
  }

  // The files of one directory; stops at the first that takes the total past the cap.
  method ReadFolder(job: Job, exclude: Str -> bool, cap: nat, follow: bool, before: nat, known: Dir)
    returns (files: Dir, total: nat, tooLarge: bool)
    requires before <= cap
    ensures tooLarge <==> before + Size(FilesOf(job.route, job.entries, exclude, follow)) > cap
    ensures !tooLarge ==>
              && files == known + ByPath(FilesOf(job.route, job.entries, exclude, follow))
              && total == before + Size(FilesOf(job.route, job.entries, exclude, follow))
  {
    var es := job.entries;
    files, total, tooLarge := known, before, false;
    var i := 0;
    assert es[..0] == [];
    while i < |es|
      invariant 0 <= i <= |es| && total <= cap && !tooLarge
      invariant files == FilesTo(known, job.route, es, i, exclude, follow)
      invariant total == before + SizeTo(job.route, es, i, exclude, follow)
    {
      var e := es[i];
      SizeStep(job.route, es, i, exclude, follow);
      FilesStep(known, job.route, es, i, exclude, follow);
      i := i + 1;
      if exclude(e.name) || FileData(e.node, follow).None? {
        continue;
      }
      var data := FileData(e.node, follow).value;
      total := total + |data|;
      if total > cap {
        tooLarge := true;
        return;
      }
      files := files[JoinParts(job.route + [e.name]) := data];
    }
    assert es[..i] == es;
  }

  lemma PickSize(route: Route, e: Entry, exclude: Str -> bool, follow: bool)
    ensures Size(Pick(route, e, exclude, follow))
            == if exclude(e.name) || FileData(e.node, follow).None? then 0 else |FileData(e.node, follow).value|
  {
    var picked := Pick(route, e, exclude, follow);
    assert picked != [] ==> picked[1..] == [];
  }

  // One turn of the walk: the first directory's files, and then the rest.
  lemma VisitNext(jobs: seq<Job>, exclude: Str -> bool, follow: bool)
    requires jobs != []
    ensures var subs := SubsOf(jobs[0].route, jobs[0].entries, exclude, follow);
            && JobsWeight(subs + jobs[1..]) < JobsWeight(jobs)
            && Visited(jobs, exclude, follow)
               == FilesOf(jobs[0].route, jobs[0].entries, exclude, follow) + Visited(subs + jobs[1..], exclude, follow)
  {
    SubsLighter(jobs[0].route, jobs[0].entries, exclude, follow);
    JobsWeightConcat(SubsOf(jobs[0].route, jobs[0].entries, exclude, follow), jobs[1..]);
  }

  lemma SizeSplits(files: seq<Found>, here: seq<Found>, later: seq<Found>)
    ensures files + (here + later) == (files + here) + later
    ensures Size(files + here) == Size(files) + Size(here)
    ensures Size(files + (here + later)) >= Size(files) + Size(here)
  {
    SizeConcat(files, here);
    SizeConcat(files + here, later);
    assert files + (here + later) == (files + here) + later;
  }

  /** What reading a project gives: all the files of the full walk, or an error. */
  function Reading(root: Node, exclude: Str -> bool, cap: nat, follow: bool): Result<Dir, Error> {
    match Resolve(root)
    case Folder(es) =>
      var all := Visited([Job([], es)], exclude, follow);
      if Size(all) > cap then Err(TooLarge) else if all == [] then Err(NothingToUpload) else Ok(ByPath(all))
    case _ => Err(NotADirectory)
  }

  lemma NothingByPath(found: seq<Found>)
    ensures ByPath(found) == map[] <==> found == []
  {
    if found != [] {
      assert JoinParts(found[|found| - 1].route) in ByPath(found);
    }
  }

  // The walk from the root; stops where the total passes the cap.
  method Walk(es: seq<Entry>, exclude: Str -> bool, cap: nat, follow: bool) returns (files: Dir, tooLarge: bool)
    ensures tooLarge <==> Size(Visited([Job([], es)], exclude, follow)) > cap
    ensures !tooLarge ==> files == ByPath(Visited([Job([], es)], exclude, follow))
  {
    var jobs := [Job([], es)];
    var total := 0;
    files := map[];
    ghost var all := Visited(jobs, exclude, follow);
    ghost var found: seq<Found> := [];
    while jobs != []
      invariant all == found + Visited(jobs, exclude, follow)
      invariant files == ByPath(found) && total == Size(found) <= cap
      decreases JobsWeight(jobs)
    {
      var job := jobs[0];
      var subs := SubsOf(job.route, job.entries, exclude, follow);
      ghost var here := FilesOf(job.route, job.entries, exclude, follow);
      VisitNext(jobs, exclude, follow);
      SizeSplits(found, here, Visited(subs + jobs[1..], exclude, follow));
      ByPathConcat(found, here);
      files, total, tooLarge := ReadFolder(job, exclude, cap, follow, total, files);
      if tooLarge {
        return;
      }
      found := found + here;
      jobs := subs + jobs[1..];
    }
    assert found + [] == found;
    tooLarge := false;
  }

  /** `_read_project_tree`, up to the order in which a directory's entries come. */
  method ReadProjectTree(root: Node, exclude: Str -> bool, cap: nat, follow: bool)
    returns (r: Result<Dir, Error>)
    ensures r == Reading(root, exclude, cap, follow)
  {
    var top := Resolve(root);
    if !top.Folder? {
      return Err(NotADirectory);
    }
    var files, tooLarge := Walk(top.entries, exclude, cap, follow);
    if tooLarge {
      return Err(TooLarge);
    }
    NothingByPath(Visited([Job([], top.entries)], exclude, follow));
    r := if files == map[] then Err(NothingToUpload) else Ok(files);
  }

  // ---- what is selected -----------------------------------------------------

  /** The regular file at a route, if there is one. */
  function FileAt(es: seq<Entry>, route: Route, follow: bool): Option<Bytes>
    decreases |route|
  {
    if route == [] then None
    else
      var i := IndexOf(es, route[0]);
      if i == |es| then None
      else if |route| == 1 then FileData(es[i].node, follow)
      else match SubFolder(es[i].node, follow)
        case None => None
        case Some(sub) => FileAt(sub, route[1..], follow)
  }

  function IndexOf(es: seq<Entry>, name: Str): (i: nat)
    ensures i <= |es| && (i < |es| ==> es[i].name == name) && forall j | 0 <= j < i :: es[j].name != name
  {
    if es == [] || es[0].name == name then 0 else 1 + IndexOf(es[1..], name)
  }

  /** No two entries of one directory share a name, and no name has a slash. */
  predicate Named(es: seq<Entry>) {
    && (forall i, j | 0 <= i < j < |es| :: es[i].name != es[j].name)
    && (forall i | 0 <= i < |es| :: NoSlash(es[i].name))
  }

  /** The same in every directory below, through links too. */
  predicate WellNamed(n: Node)
    decreases n, 1
  {
    match n
    case Folder(es) => AllNamed(es)
    case Link(Some(t)) => WellNamed(t)
    case _ => true
  }

  predicate AllNamed(es: seq<Entry>)
    decreases es, 0
  {
    Named(es) && forall i | 0 <= i < |es| :: WellNamed(es[i].node)
  }

  predicate Clear(route: Route, exclude: Str -> bool) { forall i | 0 <= i < |route| :: !exclude(route[i]) }

  /** `f` lies below the job's directory, on a route without excluded names. */
  ghost predicate SelectedBy(job: Job, f: Found, exclude: Str -> bool, follow: bool) {
    && |f.route| > |job.route| && f.route[..|job.route|] == job.route
    && Clear(f.route[|job.route|..], exclude)
    && FileAt(job.entries, f.route[|job.route|..], follow) == Some(f.data)
  }

  ghost predicate Selected(jobs: seq<Job>, f: Found, exclude: Str -> bool, follow: bool) {
    exists k :: 0 <= k < |jobs| && SelectedBy(jobs[k], f, exclude, follow)
  }

  lemma {:induction false} FilesAre(route: Route, es: seq<Entry>, exclude: Str -> bool, follow: bool, f: Found)
    ensures f in FilesOf(route, es, exclude, follow) <==>
              exists i :: 0 <= i < |es| && !exclude(es[i].name) && f.route == route + [es[i].name]
                          && FileData(es[i].node, follow) == Some(f.data)
  {
    if es != [] {
      FilesAre(route, es[1..], exclude, follow, f);
      if i :| 0 <= i < |es[1..]| && !exclude(es[1..][i].name) && f.route == route + [es[1..][i].name]
              && FileData(es[1..][i].node, follow) == Some(f.data) {
        assert es[i + 1] == es[1..][i];
      }
      if i :| 0 <= i < |es| && !exclude(es[i].name) && f.route == route + [es[i].name]
              && FileData(es[i].node, follow) == Some(f.data) {
        if i > 0 {
          assert es[1..][i - 1] == es[i];
        } else {
          assert f == Found(route + [es[0].name], FileData(es[0].node, follow).value);
        }
      }
    }
  }

  lemma {:induction false} SubsAre(route: Route, es: seq<Entry>, exclude: Str -> bool, follow: bool, job: Job)
    ensures job in SubsOf(route, es, exclude, follow) <==>
              exists i :: 0 <= i < |es| && !exclude(es[i].name) && job.route == route + [es[i].name]
                          && SubFolder(es[i].node, follow) == Some(job.entries)
  {
    if es != [] {
      SubsAre(route, es[1..], exclude, follow, job);
      if i :| 0 <= i < |es[1..]| && !exclude(es[1..][i].name) && job.route == route + [es[1..][i].name]
              && SubFolder(es[1..][i].node, follow) == Some(job.entries) {
        assert es[i + 1] == es[1..][i];
      }
      if i :| 0 <= i < |es| && !exclude(es[i].name) && job.route == route + [es[i].name]
              && SubFolder(es[i].node, follow) == Some(job.entries) {
        if i > 0 {
          assert es[1..][i - 1] == es[i];
        } else {
          assert job == Job(route + [es[0].name], SubFolder(es[0].node, follow).value);
        }
      }
    }
  }

  // A selected route is one of the directory's files, or goes on in a subdirectory.
  lemma GoesOn(job: Job, exclude: Str -> bool, follow: bool, f: Found)
    requires SelectedBy(job, f, exclude, follow)
    ensures f in FilesOf(job.route, job.entries, exclude, follow)
            || Selected(SubsOf(job.route, job.entries, exclude, follow), f, exclude, follow)
  {
    var es, n := job.entries, |job.route|;
    var below := f.route[n..];
    var i := IndexOf(es, below[0]);
    assert f.route == job.route + below;
    if |below| == 1 {
      assert below == [es[i].name];
      FilesAre(job.route, es, exclude, follow, f);
    } else {
      var sub := Job(job.route + [es[i].name], SubFolder(es[i].node, follow).value);
      SubsAre(job.route, es, exclude, follow, sub);
      assert f.route[n + 1..] == below[1..] && f.route[..n + 1] == sub.route;
      assert SelectedBy(sub, f, exclude, follow);
    }
  }

  lemma FileIsSelected(job: Job, exclude: Str -> bool, follow: bool, f: Found)
    requires Named(job.entries) && f in FilesOf(job.route, job.entries, exclude, follow)
    ensures SelectedBy(job, f, exclude, follow)
  {
    var es, n := job.entries, |job.route|;
    FilesAre(job.route, es, exclude, follow, f);
    var i :| 0 <= i < |es| && !exclude(es[i].name) && f.route == job.route + [es[i].name]
             && FileData(es[i].node, follow) == Some(f.data);
    assert f.route[n..] == [es[i].name];
    assert IndexOf(es, es[i].name) == i;
  }

  // A route below a directory is one of its files, or goes on in a subdirectory.
  lemma OneLevel(job: Job, exclude: Str -> bool, follow: bool, f: Found)
    requires Named(job.entries)
    ensures SelectedBy(job, f, exclude, follow) <==>
              || f in FilesOf(job.route, job.entries, exclude, follow)
              || Selected(SubsOf(job.route, job.entries, exclude, follow), f, exclude, follow)
  {
    var subs := SubsOf(job.route, job.entries, exclude, follow);
    if SelectedBy(job, f, exclude, follow) {
      GoesOn(job, exclude, follow, f);
    }
    if f in FilesOf(job.route, job.entries, exclude, follow) {
      FileIsSelected(job, exclude, follow, f);
    }
    if k :| 0 <= k < |subs| && SelectedBy(subs[k], f, exclude, follow) {
      BelowSub(job, exclude, follow, f, subs[k]);
    }
  }

  lemma BelowSub(job: Job, exclude: Str -> bool, follow: bool, f: Found, sub: Job)
    requires Named(job.entries) && sub in SubsOf(job.route, job.entries, exclude, follow)
    requires SelectedBy(sub, f, exclude, follow)
    ensures SelectedBy(job, f, exclude, follow)
  {
    var es, n := job.entries, |job.route|;
    SubsAre(job.route, es, exclude, follow, sub);
    var i :| 0 <= i < |es| && !exclude(es[i].name) && sub.route == job.route + [es[i].name]
             && SubFolder(es[i].node, follow) == Some(sub.entries);
    assert f.route[..n] == sub.route[..n] == job.route;
    var below := f.route[n..];
    assert below[0] == f.route[..n + 1][n] == es[i].name;
    assert below[1..] == f.route[n + 1..];
    assert IndexOf(es, es[i].name) == i;
    forall j | 0 <= j < |below| ensures !exclude(below[j]) {
      if j > 0 {
        assert below[j] == f.route[n + 1..][j - 1];
      }
    }
  }

  lemma {:induction false} ResolveNamed(n: Node)
    requires WellNamed(n)
    ensures WellNamed(Resolve(n))
  {
    if n.Link? && n.target.Some? {
      ResolveNamed(n.target.value);
    }
  }

  lemma SubFolderNamed(n: Node, follow: bool)
    requires WellNamed(n) && SubFolder(n, follow).Some?
    ensures AllNamed(SubFolder(n, follow).value)
  {
    ResolveNamed(n);
    var r := Resolve(n);
    assert r.Folder?;
  }

  ghost predicate JobsNamed(jobs: seq<Job>) { forall k | 0 <= k < |jobs| :: AllNamed(jobs[k].entries) }

  lemma SubsNamed(job: Job, rest: seq<Job>, exclude: Str -> bool, follow: bool)
    requires AllNamed(job.entries) && JobsNamed(rest)
    ensures JobsNamed(SubsOf(job.route, job.entries, exclude, follow) + rest)
  {
    var subs := SubsOf(job.route, job.entries, exclude, follow);
    forall k | 0 <= k < |subs + rest| ensures AllNamed((subs + rest)[k].entries) {
      if k < |subs| {
        SubsAre(job.route, job.entries, exclude, follow, subs[k]);
        var i :| 0 <= i < |job.entries| && SubFolder(job.entries[i].node, follow) == Some(subs[k].entries);
        SubFolderNamed(job.entries[i].node, follow);
        assert (subs + rest)[k] == subs[k];
      } else {
        assert (subs + rest)[k] == rest[k - |subs|];
      }
    }
  }

  lemma SelectedSplit(a: seq<Job>, b: seq<Job>, f: Found, exclude: Str -> bool, follow: bool)
    ensures Selected(a + b, f, exclude, follow) <==> Selected(a, f, exclude, follow) || Selected(b, f, exclude, follow)
  {
    if k :| 0 <= k < |a| && SelectedBy(a[k], f, exclude, follow) {
      assert SelectedBy((a + b)[k], f, exclude, follow);
    }
    if k :| 0 <= k < |b| && SelectedBy(b[k], f, exclude, follow) {
      assert SelectedBy((a + b)[|a| + k], f, exclude, follow);
    }
  }

  /** The pruned walk visits a file if and only if its route from a job's directory
      leads to a regular file and has no excluded component. */
  lemma {:induction false} VisitsSelected(jobs: seq<Job>, exclude: Str -> bool, follow: bool, f: Found)
    requires JobsNamed(jobs)
    ensures f in Visited(jobs, exclude, follow) <==> Selected(jobs, f, exclude, follow)
    decreases JobsWeight(jobs)
  {
    if jobs != [] {
      var job := jobs[0];
      var subs := SubsOf(job.route, job.entries, exclude, follow);
      SubsLighter(job.route, job.entries, exclude, follow);
      JobsWeightConcat(subs, jobs[1..]);
      SubsNamed(job, jobs[1..], exclude, follow);
      VisitsSelected(subs + jobs[1..], exclude, follow, f);
      SelectedSplit(subs, jobs[1..], f, exclude, follow);
      SelectedSplit([job], jobs[1..], f, exclude, follow);
      assert [job] + jobs[1..] == jobs;
      OneLevel(job, exclude, follow, f);
      assert Selected([job], f, exclude, follow) <==> SelectedBy(job, f, exclude, follow) by {
        assert [job][0] == job;
      }
    }
  }

  // ---- each file once -------------------------------------------------------

  ghost predicate NoTwice(found: seq<Found>) {
    forall i, j | 0 <= i < j < |found| :: found[i].route != found[j].route
  }

  /** Neither route lies on the way to the other. */
  predicate Diverge(a: Route, b: Route) { !(a <= b) && !(b <= a) }

  ghost predicate Apart(jobs: seq<Job>) {
    forall i, j | 0 <= i < j < |jobs| :: Diverge(jobs[i].route, jobs[j].route)
  }

  lemma {:induction false} FilesOnce(route: Route, es: seq<Entry>, exclude: Str -> bool, follow: bool)
    requires Named(es)
    ensures NoTwice(FilesOf(route, es, exclude, follow))
  {
    if es != [] {
      var rest := FilesOf(route, es[1..], exclude, follow);
      assert forall i | 0 <= i < |es[1..]| :: es[1..][i] == es[i + 1];
      FilesOnce(route, es[1..], exclude, follow);
      forall j | 0 <= j < |rest| ensures rest[j].route != route + [es[0].name] {
        FilesAre(route, es[1..], exclude, follow, rest[j]);
        var i :| 0 <= i < |es[1..]| && rest[j].route == route + [es[1..][i].name];
        assert rest[j].route[|route|] == es[i + 1].name;
        assert (route + [es[0].name])[|route|] == es[0].name;
      }
    }
  }

  lemma {:induction false} SubsApart(route: Route, es: seq<Entry>, exclude: Str -> bool, follow: bool)
    requires Named(es)
    ensures Apart(SubsOf(route, es, exclude, follow))
  {
    if es != [] {
      var rest := SubsOf(route, es[1..], exclude, follow);
      assert forall i | 0 <= i < |es[1..]| :: es[1..][i] == es[i + 1];
      SubsApart(route, es[1..], exclude, follow);
      forall j | 0 <= j < |rest| ensures Diverge(route + [es[0].name], rest[j].route) {
        SubsAre(route, es[1..], exclude, follow, rest[j]);
        var i :| 0 <= i < |es[1..]| && rest[j].route == route + [es[1..][i].name];
        assert rest[j].route[|route|] == es[i + 1].name;
        assert (route + [es[0].name])[|route|] == es[0].name;
      }
    }
  }

  lemma StillApart(job: Job, rest: seq<Job>, exclude: Str -> bool, follow: bool)
    requires Named(job.entries) && Apart([job] + rest)
    ensures Apart(SubsOf(job.route, job.entries, exclude, follow) + rest)
  {
    var subs := SubsOf(job.route, job.entries, exclude, follow);
    SubsApart(job.route, job.entries, exclude, follow);
    assert Apart(rest) by {
      assert forall i | 0 <= i < |rest| :: ([job] + rest)[i + 1] == rest[i];
    }
    forall i, j | 0 <= i < |subs| && 0 <= j < |rest| ensures Diverge(subs[i].route, rest[j].route) {
      assert Diverge(([job] + rest)[0].route, ([job] + rest)[j + 1].route);
      SubsAre(job.route, job.entries, exclude, follow, subs[i]);
      var k :| 0 <= k < |job.entries| && subs[i].route == job.route + [job.entries[k].name];
      StepApart(job.route, job.entries[k].name, rest[j].route);
    }
  }

  lemma StepApart(a: Route, name: Str, b: Route)
    requires Diverge(a, b)
    ensures Diverge(a + [name], b)
  {}

  // A file of a directory is not met again below its subdirectories or elsewhere.
  lemma NotAgain(job: Job, rest: seq<Job>, exclude: Str -> bool, follow: bool, f: Found, g: Found)
    requires AllNamed(job.entries) && JobsNamed(rest) && Apart([job] + rest)
    requires f in FilesOf(job.route, job.entries, exclude, follow)
    requires Selected(SubsOf(job.route, job.entries, exclude, follow) + rest, g, exclude, follow)
    ensures f.route != g.route
  {
    var subs := SubsOf(job.route, job.entries, exclude, follow);
    FilesAre(job.route, job.entries, exclude, follow, f);
    SelectedSplit(subs, rest, g, exclude, follow);
    if k :| 0 <= k < |subs| && SelectedBy(subs[k], g, exclude, follow) {
      SubsAre(job.route, job.entries, exclude, follow, subs[k]);
      assert |g.route| > |subs[k].route| == |job.route| + 1;
    } else {
      var k :| 0 <= k < |rest| && SelectedBy(rest[k], g, exclude, follow);
      assert Diverge(([job] + rest)[0].route, ([job] + rest)[k + 1].route);
      var i :| 0 <= i < |job.entries| && f.route == job.route + [job.entries[i].name];
      StepApart(job.route, job.entries[i].name, rest[k].route);
    }
  }

  lemma {:induction false} VisitsOnce(jobs: seq<Job>, exclude: Str -> bool, follow: bool)
    requires JobsNamed(jobs) && Apart(jobs)
    ensures NoTwice(Visited(jobs, exclude, follow))
    decreases JobsWeight(jobs)
  {
    if jobs != [] {
      var job, rest := jobs[0], jobs[1..];
      var subs := SubsOf(job.route, job.entries, exclude, follow);
      assert [job] + rest == jobs;
      SubsLighter(job.route, job.entries, exclude, follow);
      JobsWeightConcat(subs, rest);
      SubsNamed(job, rest, exclude, follow);
      StillApart(job, rest, exclude, follow);
      VisitsOnce(subs + rest, exclude, follow);
      FilesOnce(job.route, job.entries, exclude, follow);
      var here, later := FilesOf(job.route, job.entries, exclude, follow), Visited(subs + rest, exclude, follow);
      forall i, j | 0 <= i < |here| && 0 <= j < |later| ensures here[i].route != later[j].route {
        VisitsSelected(subs + rest, exclude, follow, later[j]);
        NotAgain(job, rest, exclude, follow, here[i], later[j]);
      }
    }
  }

  /** The walk reads exactly the regular files none of whose components below the
      root is excluded, each once, whatever the order of the listings. */
  lemma ReadsExactlySelected(es: seq<Entry>, exclude: Str -> bool, follow: bool, f: Found)
    requires AllNamed(es)
    ensures var all := Visited([Job([], es)], exclude, follow);
            && NoTwice(all)
            && (f in all <==> Clear(f.route, exclude) && FileAt(es, f.route, follow) == Some(f.data))
  {
    var root := Job([], es);
    VisitsSelected([root], exclude, follow, f);
    VisitsOnce([root], exclude, follow);
    assert f.route[|root.route|..] == f.route;
    assert Selected([root], f, exclude, follow) <==> SelectedBy(root, f, exclude, follow) by {
      assert [root][0] == root;
    }
  }

  // ---- the dictionary -------------------------------------------------------

  predicate PathsApart(found: seq<Found>) {
    forall i, j | 0 <= i < j < |found| :: JoinParts(found[i].route) != JoinParts(found[j].route)
  }

  lemma {:induction false} ByPathAt(found: seq<Found>, p: Str)
    requires PathsApart(found)
    ensures p in ByPath(found) <==> exists i :: 0 <= i < |found| && JoinParts(found[i].route) == p
    ensures forall i | 0 <= i < |found| && JoinParts(found[i].route) == p ::
              p in ByPath(found) && ByPath(found)[p] == found[i].data
  {
    if found != [] {
      var front := found[..|found| - 1];
      assert forall i | 0 <= i < |front| :: front[i] == found[i];
      ByPathAt(front, p);
      if i :| 0 <= i < |front| && JoinParts(front[i].route) == p {
        assert JoinParts(found[i].route) == p;
      }
    }
  }

  /** Distinct routes of slash-free names are distinct relative paths. */
  lemma DistinctPaths(a: Route, b: Route)
    requires a != [] && b != [] && a != b
    requires (forall p | p in a :: NoSlash(p)) && forall p | p in b :: NoSlash(p)
    ensures JoinParts(a) != JoinParts(b)
  {
    SplitJoin(a);
    SplitJoin(b);
  }

  // A route to a file is made of names of the directories it leads through.
  lemma {:induction false} RouteNames(es: seq<Entry>, route: Route, follow: bool)
    requires AllNamed(es) && FileAt(es, route, follow).Some?
    ensures route != [] && forall p | p in route :: NoSlash(p)
    decreases |route|
  {
    var i := IndexOf(es, route[0]);
    assert route == [route[0]] + route[1..] && NoSlash(es[i].name);
    if |route| > 1 {
      SubFolderNamed(es[i].node, follow);
      RouteNames(SubFolder(es[i].node, follow).value, route[1..], follow);
    }
  }

  lemma AllApart(es: seq<Entry>, exclude: Str -> bool, follow: bool)
    requires AllNamed(es)
    ensures PathsApart(Visited([Job([], es)], exclude, follow))
  {
    var all := Visited([Job([], es)], exclude, follow);
    forall i, j | 0 <= i < j < |all| ensures JoinParts(all[i].route) != JoinParts(all[j].route) {
      ReadsExactlySelected(es, exclude, follow, all[i]);
      ReadsExactlySelected(es, exclude, follow, all[j]);
      RouteNames(es, all[i].route, follow);
      RouteNames(es, all[j].route, follow);
      DistinctPaths(all[i].route, all[j].route);
    }
  }

  /** The dictionary has a path if and only if the path leads from the root to a
      regular file and no component of it is excluded, and then it has the file's
      contents. */
  lemma DictionaryExact(es: seq<Entry>, exclude: Str -> bool, follow: bool, p: Str)
    requires AllNamed(es)
    ensures var m := ByPath(Visited([Job([], es)], exclude, follow));
            && (p in m <==> Clear(Split(p), exclude) && FileAt(es, Split(p), follow).Some?)
            && (p in m ==> FileAt(es, Split(p), follow) == Some(m[p]))
  {
    var all := Visited([Job([], es)], exclude, follow);
    AllApart(es, exclude, follow);
    ByPathAt(all, p);
    if p in ByPath(all) {
      var i :| 0 <= i < |all| && JoinParts(all[i].route) == p;
      ReadsExactlySelected(es, exclude, follow, all[i]);
      RouteNames(es, all[i].route, follow);
      SplitJoin(all[i].route);
    }
    if FileAt(es, Split(p), follow).Some? {
      var f := Found(Split(p), FileAt(es, Split(p), follow).value);
      ReadsExactlySelected(es, exclude, follow, f);
      JoinSplit(p);
    }
  }

  // ---- what links stand for -------------------------------------------------

  /** A node as it is seen: with links followed, a link is what it leads to; with
      links not followed, and where it leads nowhere, it is nothing. */
  function See(n: Node, follow: bool): Node
    decreases n, 1
  {
    match n
    case Link(target) => if follow && target.Some? then See(target.value, follow) else Special
    case Folder(es) => Folder(SeeAll(es, follow))
    case _ => n
  }

  function SeeAll(es: seq<Entry>, follow: bool): (r: seq<Entry>)
    ensures |r| == |es|
    decreases es, 0
  {
    if es == [] then [] else [Entry(es[0].name, See(es[0].node, follow))] + SeeAll(es[1..], follow)
  }

  /** The contents at a route of a tree without links. */
  function Lookup(es: seq<Entry>, route: Route): Option<Bytes>
    decreases |route|
  {
    if route == [] || IndexOf(es, route[0]) == |es| then None
    else
      match es[IndexOf(es, route[0])].node
      case File(data) => if |route| == 1 then Some(data) else None
      case Folder(sub) => if |route| == 1 then None else Lookup(sub, route[1..])
      case _ => None
  }

  lemma {:induction false} SeeAllAt(es: seq<Entry>, follow: bool, i: nat)
    requires i < |es|
    ensures SeeAll(es, follow)[i] == Entry(es[i].name, See(es[i].node, follow))
  {
    if i > 0 {
      SeeAllAt(es[1..], follow, i - 1);
    }
  }

  lemma {:induction false} SameIndex(es: seq<Entry>, follow: bool, name: Str)
    ensures IndexOf(SeeAll(es, follow), name) == IndexOf(es, name)
  {
    if es != [] {
      SameIndex(es[1..], follow, name);
      assert SeeAll(es, follow)[1..] == SeeAll(es[1..], follow);
    }
  }

  lemma {:induction false} SeeResolved(n: Node)
    ensures See(n, true) == match Resolve(n)
                            case Link(_) => Special
                            case Folder(es) => Folder(SeeAll(es, true))
                            case _ => Resolve(n)
  {
    if n.Link? && n.target.Some? {
      SeeResolved(n.target.value);
    }
  }

  // What the walk asks of a node, told from what is seen of it.
  lemma WalkSees(n: Node, follow: bool)
    ensures FileData(n, follow) == if See(n, follow).File? then Some(See(n, follow).data) else None
    ensures SubFolder(n, follow).Some? <==> See(n, follow).Folder?
    ensures See(n, follow).Folder? ==> See(n, follow).entries == SeeAll(SubFolder(n, follow).value, follow)
  {
    SeeResolved(n);
  }

  /** The file at a route is the one in the tree as it is seen. */
  lemma {:induction false} FileIsSeen(es: seq<Entry>, route: Route, follow: bool)
    ensures FileAt(es, route, follow) == Lookup(SeeAll(es, follow), route)
    decreases |route|
  {
    if route != [] {
      SameIndex(es, follow, route[0]);
      var i := IndexOf(es, route[0]);
      if i < |es| {
        SeeAllAt(es, follow, i);
        WalkSees(es[i].node, follow);
        if |route| > 1 && SubFolder(es[i].node, follow).Some? {
          FileIsSeen(SubFolder(es[i].node, follow).value, route[1..], follow);
        }
      }
    }
  }

  /** Some component of the route is a link. */
  ghost predicate MeetsLink(es: seq<Entry>, route: Route)
    decreases |route|
  {
    route != []
    && var i := IndexOf(es, route[0]);
       i < |es| && (es[i].node.Link? || (es[i].node.Folder? && MeetsLink(es[i].node.entries, route[1..])))
  }

  /** With links not followed, no route of a file meets one. */
  lemma {:induction false} NoLinkUnlessFollowed(es: seq<Entry>, route: Route)
    requires FileAt(es, route, false).Some?
    ensures !MeetsLink(es, route)
    decreases |route|
  {
    var i := IndexOf(es, route[0]);
    if |route| > 1 && es[i].node.Folder? {
      NoLinkUnlessFollowed(es[i].node.entries, route[1..]);
    }
  }

  function SeeJobs(jobs: seq<Job>, follow: bool): seq<Job> {
    if jobs == [] then [] else [Job(jobs[0].route, SeeAll(jobs[0].entries, follow))] + SeeJobs(jobs[1..], follow)
  }

  lemma {:induction false} SeeJobsConcat(a: seq<Job>, b: seq<Job>, follow: bool)
    ensures SeeJobs(a + b, follow) == SeeJobs(a, follow) + SeeJobs(b, follow)
  {
    if a == [] {
      assert a + b == b;
    } else {
      assert (a + b)[1..] == a[1..] + b;
      SeeJobsConcat(a[1..], b, follow);
    }
  }

  // Seeing again what is already without links changes nothing.
  lemma SeenTwice(n: Node, follow: bool)
    ensures See(See(n, follow), false) == See(n, follow)
    decreases n, 1
  {
    match n {
      case Link(target) =>
        if follow && target.Some? {
          SeenTwice(target.value, follow);
        }
      case Folder(es) => AllSeenTwice(es, follow);
      case _ =>
    }
  }

  lemma AllSeenTwice(es: seq<Entry>, follow: bool)
    ensures SeeAll(SeeAll(es, follow), false) == SeeAll(es, follow)
    decreases es, 0
  {
    if es != [] {
      SeenTwice(es[0].node, follow);
      AllSeenTwice(es[1..], follow);
      assert SeeAll(es, follow)[1..] == SeeAll(es[1..], follow);
    }
  }

  lemma PickSees(route: Route, e: Entry, exclude: Str -> bool, follow: bool)
    ensures Pick(route, Entry(e.name, See(e.node, follow)), exclude, false) == Pick(route, e, exclude, follow)
  {
    WalkSees(e.node, follow);
    WalkSees(See(e.node, follow), false);
    SeenTwice(e.node, follow);
  }

  lemma {:induction false} FilesSeen(route: Route, es: seq<Entry>, exclude: Str -> bool, follow: bool)
    ensures FilesOf(route, SeeAll(es, follow), exclude, false) == FilesOf(route, es, exclude, follow)
  {
    if es != [] {
      FilesSeen(route, es[1..], exclude, follow);
      PickSees(route, es[0], exclude, follow);
      assert SeeAll(es, follow)[1..] == SeeAll(es[1..], follow);
    }
  }

  lemma DescendSees(route: Route, e: Entry, exclude: Str -> bool, follow: bool)
    ensures Descend(route, Entry(e.name, See(e.node, follow)), exclude, false)
            == SeeJobs(Descend(route, e, exclude, follow), follow)
  {
    WalkSees(e.node, follow);
    var seen, jobs := See(e.node, follow), Descend(route, e, exclude, follow);
    if jobs != [] {
      assert jobs[1..] == [];
      assert SubFolder(seen, false) == Some(seen.entries);
      var first := Job(jobs[0].route, SeeAll(jobs[0].entries, follow));
      assert SeeJobs(jobs, follow) == [first] + SeeJobs(jobs[1..], follow);
    } else {
      WalkSees(seen, false);
      SeenTwice(e.node, follow);
    }
  }

  lemma {:induction false} SubsSeen(route: Route, es: seq<Entry>, exclude: Str -> bool, follow: bool)
    ensures SubsOf(route, SeeAll(es, follow), exclude, false) == SeeJobs(SubsOf(route, es, exclude, follow), follow)
  {
    if es != [] {
      var rest := SubsOf(route, es[1..], exclude, follow);
      SubsSeen(route, es[1..], exclude, follow);
      DescendSees(route, es[0], exclude, follow);
      SeeJobsConcat(Descend(route, es[0], exclude, follow), rest, follow);
      assert SeeAll(es, follow)[1..] == SeeAll(es[1..], follow);
    }
  }

  /** The walk is the walk of the tree as it is seen: with links followed, that of
      the tree with each link replaced by what it leads to; otherwise that of the
      tree without its links. */
  lemma {:induction false} WalkIsSeen(jobs: seq<Job>, exclude: Str -> bool, follow: bool)
    ensures Visited(jobs, exclude, follow) == Visited(SeeJobs(jobs, follow), exclude, false)
    decreases JobsWeight(jobs)
  {
    if jobs != [] {
      var job, seen := jobs[0], SeeJobs(jobs, follow);
      var subs := SubsOf(job.route, job.entries, exclude, follow);
      VisitNext(jobs, exclude, follow);
      VisitNext(seen, exclude, false);
      FilesSeen(job.route, job.entries, exclude, follow);
      SubsSeen(job.route, job.entries, exclude, follow);
      SeeJobsConcat(subs, jobs[1..], follow);
      assert seen[1..] == SeeJobs(jobs[1..], follow);
      WalkIsSeen(subs + jobs[1..], exclude, follow);
    }
  }

  // ---- the whole reading ----------------------------------------------------

  lemma {:induction false} SizeIsBytes(found: seq<Found>)
    requires PathsApart(found)
    ensures Size(found) == DirBytes(ByPath(found))
  {
    if found == [] {
      NothingHasNoBytes();
    } else {
      var front, last := found[..|found| - 1], found[|found| - 1];
      assert found == front + [last] && [last][1..] == [];
      assert forall i | 0 <= i < |front| :: front[i] == found[i];
      SizeIsBytes(front);
      SizeConcat(front, [last]);
      ByPathAt(front, JoinParts(last.route));
      DirBytesAdd(ByPath(front), JoinParts(last.route), last.data);
    }
  }

  /** Reading a project fails if it is no directory, if the bytes of the selected
      files exceed the cap, or if nothing is selected; otherwise it gives exactly
      the regular files, links as the flag says, none of whose components is
      excluded. */
  lemma ReadsProject(root: Node, exclude: Str -> bool, cap: nat, follow: bool) returns (m: Dir)
    requires WellNamed(root)
    ensures !Resolve(root).Folder? ==> Reading(root, exclude, cap, follow) == Err(NotADirectory)
    ensures Resolve(root).Folder? ==>
              && (forall p :: p in m
                              <==> (forall c | c in Split(p) :: !exclude(c))
                                   && Lookup(SeeAll(Resolve(root).entries, follow), Split(p)).Some?)
              && (forall p | p in m :: Lookup(SeeAll(Resolve(root).entries, follow), Split(p)) == Some(m[p]))
              && Reading(root, exclude, cap, follow) == if DirBytes(m) > cap then Err(TooLarge)
                                                        else if m == map[] then Err(NothingToUpload) else Ok(m)
  {
    m := map[];
    if Resolve(root).Folder? {
      ResolveNamed(root);
      m := SelectedFiles(Resolve(root).entries, exclude, follow);
      NothingByPath(Visited([Job([], Resolve(root).entries)], exclude, follow));
    }
  }

  lemma SelectedFiles(es: seq<Entry>, exclude: Str -> bool, follow: bool) returns (m: Dir)
    requires AllNamed(es)
    ensures m == ByPath(Visited([Job([], es)], exclude, follow))
    ensures DirBytes(m) == Size(Visited([Job([], es)], exclude, follow))
    ensures forall p :: p in m
                        <==> (forall c | c in Split(p) :: !exclude(c)) && Lookup(SeeAll(es, follow), Split(p)).Some?
    ensures forall p | p in m :: Lookup(SeeAll(es, follow), Split(p)) == Some(m[p])
  {
    var all := Visited([Job([], es)], exclude, follow);
    m := ByPath(all);
    AllApart(es, exclude, follow);
    SizeIsBytes(all);
    forall p
      ensures p in m <==> (forall c | c in Split(p) :: !exclude(c)) && Lookup(SeeAll(es, follow), Split(p)).Some?
      ensures p in m ==> Lookup(SeeAll(es, follow), Split(p)) == Some(m[p])
    {
      DictionaryExact(es, exclude, follow, p);
      FileIsSeen(es, Split(p), follow);
      ClearMeans(Split(p), exclude);
    }
  }

  lemma ClearMeans(route: Route, exclude: Str -> bool)
    ensures Clear(route, exclude) <==> forall c | c in route :: !exclude(c)
  {
    assert Clear(route, exclude) ==> forall c | c in route :: !exclude(c);
    if forall c | c in route :: !exclude(c) {
      forall i | 0 <= i < |route| ensures !exclude(route[i]) {
        assert route[i] in route;
      }
    }
  }
}
