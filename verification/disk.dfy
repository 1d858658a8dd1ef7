/** The pod's filesystem as far as an upload meets it: what a path opens, which
    directories it makes on the way, and the workspace seen below the root. */
module Disks {
  import opened Common
  import opened Workspace
  import opened Json
  import opened Paths

  type Route = seq<Str>   // the components of an absolute path

  datatype Disk = Disk(files: map<Route, Bytes>, dirs: set<Route>)

  const NUL: Code := 0

  // ---- opening a path -------------------------------------------------------

  /** Follow `parts` from the directory `at`, making the directories that are
      missing; None when a file is in the way. */
  function Enter(d: Disk, at: Route, parts: seq<Str>): Option<(Disk, Route)>
    decreases |parts|
  {
    if parts == [] then Some((d, at))
    else if parts[0] == [] || parts[0] == DOT then Enter(d, at, parts[1..])
    else if parts[0] == DOTDOT then Enter(d, if at == [] then [] else at[..|at| - 1], parts[1..])
    else
      var next := at + [parts[0]];
      if next in d.files then None else Enter(d.(dirs := d.dirs + {next}), next, parts[1..])
  }

  /** `os.path.join(root, rel)`. */
  function OpenPath(root: Str, rel: Str): Str {
    if Absolute(rel) then rel
    else if root == [] || root[|root| - 1] == SLASH then root + rel
    else root + [SLASH] + rel
  }

  function Front(parts: seq<Str>): seq<Str>
    requires parts != []
  {
    parts[..|parts| - 1]
  }

  function Last(parts: seq<Str>): Str
    requires parts != []
  {
    parts[|parts| - 1]
  }

  // Names that stand for a directory already there.
  predicate Special(part: Str) { part == [] || part == DOT || part == DOTDOT }

  /** Make the directories of `path` and write the file; None when that raises. */
  function Write(d: Disk, path: Str, data: Bytes): Option<Disk> {
    var parts := Split(path);
    if NUL in path then None
    else
      match Enter(d, [], Front(parts))
      case None => None
      case Some((d1, at)) =>
        if Special(Last(parts)) || at + [Last(parts)] in d1.dirs then None
        else Some(d1.(files := d1.files[at + [Last(parts)] := data]))
  }

  /** Write files one after the other below `root`. */
  function WriteItems(d: Disk, root: Str, items: seq<Item>): Option<Disk>
    decreases |items|
  {
    if items == [] then Some(d)
    else
      match Write(d, OpenPath(root, items[0].path), items[0].data)
      case None => None
      case Some(d1) => WriteItems(d1, root, items[1..])
  }

  // ---- the workspace below the root -----------------------------------------

  function Home(root: Str): Route { Stack(root) }

  /** The files below the root, by relative path. */
  function View(d: Disk, root: Str): Dir {
    var h := Home(root);
    map k | k in (set r | r in d.files && h < r :: JoinParts(r[|h|..])) && h + Split(k) in d.files ::
      if h + Split(k) in d.files then d.files[h + Split(k)] else []
  }

  /** A path that names one file below the root, in the form a walk yields. */
  predicate Storable(p: Str) { IsKey(p) && p != DOT && NUL !in p }

  predicate Normal(input: Dir) { forall p | p in input :: Storable(p) }

  predicate AllStorable(items: seq<Item>) { forall i | 0 <= i < |items| :: Storable(items[i].path) }

  predicate Sendable(items: seq<Item>) { forall i | 0 <= i < |items| :: NoPair(items[i].path) }

  /** The root is a directory of the disk. */
  ghost predicate Mounted(d: Disk, root: Str) {
    Absolute(root) && NUL !in root && Enter(d, [], Split(root)) == Some((d, Home(root)))
  }

  predicate Good(c: Str) { !Special(c) && NoSlash(c) && NUL !in c && NoPair(c) }

  ghost predicate GoodFrom(r: Route, h: nat) { forall i | h <= i < |r| :: Good(r[i]) }

  /** Names below `h` are ones a filesystem can hold and JSON can carry. */
  ghost predicate GoodBelow(d: Disk, h: Route) { forall r | r in d.files && h < r :: GoodFrom(r, |h|) }

  ghost predicate Disjoint(d: Disk) { forall r | r in d.files :: r !in d.dirs }

  /** No path is a file and a directory, and below the root the directories are
      exactly those with a file below them. */
  ghost predicate TidyBelow(d: Disk, h: Route) {
    && GoodBelow(d, h) && Disjoint(d)
    && (forall r, f | f in d.files && h < r && r < f :: r in d.dirs)
    && (forall r | r in d.dirs && h < r :: exists f :: f in d.files && r < f)
  }

  ghost predicate Tidy(d: Disk, root: Str) { Mounted(d, root) && TidyBelow(d, Home(root)) }

  /** `ws` is the files below `h`, by relative path. */
  ghost predicate Sees(d: Disk, h: Route, ws: Dir) {
    && (forall k :: k in ws <==> h + Split(k) in d.files)
    && (forall k | k in ws :: ws[k] == d.files[h + Split(k)])
  }

  ghost predicate Empty(d: Disk, root: Str) { Tidy(d, root) && View(d, root) == map[] }

  // ---- components -----------------------------------------------------------

  lemma {:induction false} JoinConcat(a: seq<Str>, b: seq<Str>)
    requires a != [] && b != []
    ensures JoinParts(a + b) == JoinParts(a) + [SLASH] + JoinParts(b)
  {
    assert (a + b)[1..] == a[1..] + b;
    if |a| > 1 {
      JoinConcat(a[1..], b);
    } else {
      assert a[1..] + b == b;
    }
  }

  lemma SplitThrough(a: Str, b: Str)
    requires Split(a) < Split(b)
    ensures Ancestor(a, b)
  {
    var rest := Split(b)[|Split(a)|..];
    assert Split(b) == Split(a) + rest;
    JoinConcat(Split(a), rest);
    JoinSplit(a);
    JoinSplit(b);
  }

  /** One path leads through another exactly when its components begin with the
      other's. */
  lemma AncestorSplit(a: Str, b: Str)
    ensures Ancestor(a, b) <==> Split(a) < Split(b)
  {
    if Ancestor(a, b) {
      assert b == a + [SLASH] + b[|a| + 1..];
      SplitConcat(a, b[|a| + 1..]);
    }
    if Split(a) < Split(b) {
      SplitThrough(a, b);
    }
  }

  lemma ViewAt(d: Disk, root: Str, k: Str)
    ensures k in View(d, root) <==> Home(root) + Split(k) in d.files
    ensures k in View(d, root) ==> View(d, root)[k] == d.files[Home(root) + Split(k)]
  {
    var h := Home(root);
    var r := h + Split(k);
    if r in d.files {
      JoinSplit(k);
      assert r[|h|..] == Split(k) && r[..|h|] == h;
    }
  }

  lemma ViewSees(d: Disk, root: Str)
    ensures Sees(d, Home(root), View(d, root))
  {
    forall k
      ensures k in View(d, root) <==> Home(root) + Split(k) in d.files
      ensures k in View(d, root) ==> View(d, root)[k] == d.files[Home(root) + Split(k)]
    {
      ViewAt(d, root, k);
    }
  }

  lemma SeesOne(d: Disk, h: Route, a: Dir, b: Dir)
    requires Sees(d, h, a) && Sees(d, h, b)
    ensures a == b
  {
    assert forall k :: k in a <==> k in b;
  }

  lemma {:induction false} PartsFrom(s: Str, c: Code)
    ensures c !in s ==> forall p | p in Split(s) :: c !in p
    ensures c != SLASH && (forall p | p in Split(s) :: c !in p) ==> c !in s
  {
    if s != [] {
      PartsFrom(s[1..], c);
      var rest := Split(s[1..]);
      assert s == [s[0]] + s[1..];
      if s[0] == SLASH {
        assert Split(s) == [[]] + rest;
        forall p | p in rest ensures p in Split(s) {}
      } else {
        assert Split(s) == [[s[0]] + rest[0]] + rest[1..];
        assert rest == [rest[0]] + rest[1..];
        assert [s[0]] + rest[0] in Split(s);
        forall p | p in rest[1..] ensures p in Split(s) {}
      }
    }
  }

  lemma {:induction false} NoPairParts(s: Str)
    ensures NoPair(s) <==> forall p | p in Split(s) :: NoPair(p)
  {
    if s != [] {
      NoPairParts(s[1..]);
      var rest := Split(s[1..]);
      NoPairCons(s[0], s[1..]);
      if s[0] == SLASH {
        assert Split(s) == [[]] + rest;
        assert forall p | p in rest :: p in Split(s);
      } else {
        NoPairCons(s[0], rest[0]);
        HeadPart(s[1..]);
        assert Split(s) == [[s[0]] + rest[0]] + rest[1..];
        assert rest == [rest[0]] + rest[1..];
        assert [s[0]] + rest[0] in Split(s);
        assert forall p | p in rest[1..] :: p in Split(s) && p in rest;
      }
      assert s == [s[0]] + s[1..];
    }
  }

  lemma NoPairCons(c: Code, s: Str)
    ensures NoPair([c] + s) <==> NoPair(s) && !(s != [] && High(c) && Low(s[0]))
  {
    var t := [c] + s;
    assert forall i | 0 <= i < |s| :: t[i + 1] == s[i];
    if NoPair(t) {
      assert s != [] ==> !(High(t[0]) && Low(t[0 + 1]));
      forall i | 0 <= i < |s| - 1 ensures !(High(s[i]) && Low(s[i + 1])) {
        assert !(High(t[i + 1]) && Low(t[i + 1 + 1]));
      }
    }
    if NoPair(s) && !(s != [] && High(c) && Low(s[0])) {
      forall i | 0 <= i < |t| - 1 ensures !(High(t[i]) && Low(t[i + 1])) {
        if i > 0 {
          assert !(High(s[i - 1]) && Low(s[i - 1 + 1]));
        }
      }
    }
  }

  lemma HeadPart(s: Str)
    ensures s != [] && s[0] != SLASH ==> Split(s)[0] != [] && Split(s)[0][0] == s[0]
    ensures s == [] || s[0] == SLASH ==> Split(s)[0] == []
  {}

  /** A storable path is one whose components all name something below the
      directory before them. */
  lemma StorableParts(p: Str)
    ensures Storable(p) <==> Proper(Split(p)) && Clean(Split(p)) && NUL !in p
  {
    var parts := Split(p);
    SplitNoSlash(p);
    JoinSplit(p);
    if Proper(parts) && Clean(parts) {
      assert !Absolute(p) by {
        HeadPart(p);
        assert parts[0] in parts;
      }
      WalkClean(parts, []);
      assert [] + parts == parts;
      SafeStack(parts);
      assert NormPath(p) == [] + p == p;
      SplitDot();
      assert p == DOT ==> DOT in parts;
    }
    if IsKey(p) && p != DOT {
      KeyIsStack(p);
    }
  }

  lemma KeyIsStack(p: Str)
    requires IsKey(p) && p != DOT
    ensures Split(p) == Stack(p) && Proper(Split(p)) && Clean(Split(p))
  {
    var stack := Stack(p);
    SplitNoSlash(p);
    WalkProper(Split(p), [], Absolute(p));
    assert !Absolute(p) && [] + JoinParts(stack) == JoinParts(stack);
    assert stack != [] && p == JoinParts(stack);
    SplitJoin(stack);
    SafeStack(stack);
  }

  lemma SpecialOrGood(p: Str)
    ensures (forall c | c in Split(p) :: Good(c)) <==> Proper(Split(p)) && Clean(Split(p)) && NUL !in p && NoPair(p)
  {
    SplitNoSlash(p);
    PartsFrom(p, NUL);
    NoPairParts(p);
    if forall c | c in Split(p) :: Good(c) {
      assert forall c | c in Split(p) :: !Special(c);
    }
    if Proper(Split(p)) && Clean(Split(p)) && NUL !in p && NoPair(p) {
      forall c | c in Split(p) ensures Good(c) {}
    }
  }

  lemma GoodParts(p: Str)
    ensures Storable(p) && NoPair(p) <==> forall c | c in Split(p) :: Good(c)
  {
    StorableParts(p);
    SpecialOrGood(p);
  }

  // ---- following a path -----------------------------------------------------

  lemma {:induction false} EnterConcat(d: Disk, at: Route, a: seq<Str>, b: seq<Str>)
    ensures Enter(d, at, a + b) == match Enter(d, at, a)
                                   case None => None
                                   case Some((d1, at1)) => Enter(d1, at1, b)
    decreases |a|
  {
    if a == [] {
      assert a + b == b;
    } else {
      assert (a + b)[1..] == a[1..] + b && (a + b)[0] == a[0];
      if a[0] == [] || a[0] == DOT {
        EnterConcat(d, at, a[1..], b);
      } else if a[0] == DOTDOT {
        EnterConcat(d, if at == [] then [] else at[..|at| - 1], a[1..], b);
      } else {
        EnterConcat(d.(dirs := d.dirs + {at + [a[0]]}), at + [a[0]], a[1..], b);
      }
    }
  }

  // Only directories are made, and the walk ends where `normpath` says.
  lemma {:induction false} EnterWalks(d: Disk, at: Route, parts: seq<Str>)
    requires Clean(at)
    ensures Enter(d, at, parts).Some? ==>
              var (d1, at1) := Enter(d, at, parts).value;
              d1.files == d.files && d.dirs <= d1.dirs && Clean(at1) && at1 == Walk(parts, at, true)
    decreases |parts|
  {
    if parts != [] {
      if parts[0] == [] || parts[0] == DOT {
        EnterWalks(d, at, parts[1..]);
      } else if parts[0] == DOTDOT {
        assert at != [] ==> at[|at| - 1] in at;
        EnterWalks(d, if at == [] then [] else at[..|at| - 1], parts[1..]);
      } else {
        EnterWalks(d.(dirs := d.dirs + {at + [parts[0]]}), at + [parts[0]], parts[1..]);
      }
    }
  }

  // What could be entered without making anything still can.
  lemma {:induction false} EnterAgain(d: Disk, at: Route, parts: seq<Str>, d': Disk)
    requires Enter(d, at, parts).Some? && Enter(d, at, parts).value.0 == d
    requires d.dirs <= d'.dirs && Disjoint(d')
    ensures Enter(d', at, parts) == Some((d', Enter(d, at, parts).value.1))
    decreases |parts|
  {
    if parts != [] {
      if parts[0] == [] || parts[0] == DOT {
        EnterAgain(d, at, parts[1..], d');
      } else if parts[0] == DOTDOT {
        EnterAgain(d, if at == [] then [] else at[..|at| - 1], parts[1..], d');
      } else {
        var next := at + [parts[0]];
        EnterOnlyMakes(d.(dirs := d.dirs + {next}), next, parts[1..]);
        assert next in d.dirs;
        assert d.(dirs := d.dirs + {next}) == d && d'.(dirs := d'.dirs + {next}) == d';
        EnterAgain(d, next, parts[1..], d');
      }
    }
  }

  lemma {:induction false} EnterOnlyMakes(d: Disk, at: Route, parts: seq<Str>)
    ensures Enter(d, at, parts).Some? ==>
              Enter(d, at, parts).value.0.files == d.files && d.dirs <= Enter(d, at, parts).value.0.dirs
    decreases |parts|
  {
    if parts != [] {
      if parts[0] == [] || parts[0] == DOT {
        EnterOnlyMakes(d, at, parts[1..]);
      } else if parts[0] == DOTDOT {
        EnterOnlyMakes(d, if at == [] then [] else at[..|at| - 1], parts[1..]);
      } else {
        EnterOnlyMakes(d.(dirs := d.dirs + {at + [parts[0]]}), at + [parts[0]], parts[1..]);
      }
    }
  }

  /** The directories on the way from `at` down `parts`. */
  function Steps(at: Route, parts: seq<Str>): set<Route> { set i | 1 <= i <= |parts| :: at + parts[..i] }

  lemma StepsNext(at: Route, parts: seq<Str>)
    requires parts != []
    ensures Steps(at, parts) == {at + [parts[0]]} + Steps(at + [parts[0]], parts[1..])
  {
    var rest := Steps(at + [parts[0]], parts[1..]);
    assert at + parts[..1] == at + [parts[0]];
    forall r | r in Steps(at, parts) ensures r == at + [parts[0]] || r in rest {
      var i :| 1 <= i <= |parts| && r == at + parts[..i];
      if i > 1 {
        StepBelow(at, parts, i - 1);
        assert 1 <= i - 1 <= |parts[1..]|;
      }
    }
    forall r | r in rest ensures r in Steps(at, parts) {
      var i :| 1 <= i <= |parts[1..]| && r == at + [parts[0]] + parts[1..][..i];
      StepBelow(at, parts, i);
    }
  }

  lemma StepBelow(at: Route, parts: seq<Str>, i: nat)
    requires parts != [] && i <= |parts[1..]|
    ensures at + [parts[0]] + parts[1..][..i] == at + parts[..i + 1]
  {
    assert [parts[0]] + parts[1..][..i] == parts[..i + 1];
  }

  // Plain components lead straight down unless a file is in the way.
  lemma {:induction false} EnterDown(d: Disk, at: Route, parts: seq<Str>)
    requires Proper(parts) && Clean(parts)
    ensures Enter(d, at, parts) == if Steps(at, parts) !! d.files.Keys
                                   then Some((d.(dirs := d.dirs + Steps(at, parts)), at + parts)) else None
    decreases |parts|
  {
    if parts == [] {
      assert at + parts == at && Steps(at, parts) == {};
      assert d.(dirs := d.dirs + {}) == d;
    } else {
      assert parts[0] in parts && forall p | p in parts[1..] :: p in parts;
      var next := at + [parts[0]];
      StepsNext(at, parts);
      if next !in d.files {
        EnterDown(d.(dirs := d.dirs + {next}), next, parts[1..]);
        assert next + parts[1..] == at + parts;
        assert d.dirs + {next} + Steps(next, parts[1..]) == d.dirs + Steps(at, parts);
      }
    }
  }

  // Names beyond the first `h` come from the path that was followed.
  lemma {:induction false} EnterGood(d: Disk, at: Route, parts: seq<Str>, h: nat)
    requires GoodFrom(at, h) && forall p | p in parts :: Special(p) || Good(p)
    ensures Enter(d, at, parts).Some? ==> GoodFrom(Enter(d, at, parts).value.1, h)
    decreases |parts|
  {
    if parts != [] {
      assert parts[0] in parts && forall p | p in parts[1..] :: p in parts;
      if parts[0] == [] || parts[0] == DOT {
        EnterGood(d, at, parts[1..], h);
      } else if parts[0] == DOTDOT {
        EnterGood(d, if at == [] then [] else at[..|at| - 1], parts[1..], h);
      } else {
        EnterGood(d.(dirs := d.dirs + {at + [parts[0]]}), at + [parts[0]], parts[1..], h);
      }
    }
  }

  // ---- one write ------------------------------------------------------------

  lemma SplitCut(path: Str)
    ensures Split(path) == Front(Split(path)) + [Last(Split(path))]
  {}

  /** A write changes the file its path normalises to, whatever way the path takes
      there, and no other. */
  lemma WriteLands(d: Disk, path: Str, data: Bytes)
    requires Absolute(path)
    ensures Write(d, path, data).Some? ==> Write(d, path, data).value.files == d.files[Stack(path) := data]
  {
    var parts := Split(path);
    SplitCut(path);
    EnterWalks(d, [], Front(parts));
    WalkConcat(Front(parts), [Last(parts)], [], true);
    var at := Walk(Front(parts), [], true);
    assert [Last(parts)][1..] == [];
    if !Special(Last(parts)) {
      assert Walk([Last(parts)], at, true) == at + [Last(parts)];
    }
  }

  lemma EnterSlashRoot(d: Disk, root: Str, rel: Str)
    requires Mounted(d, root) && root[|root| - 1] == SLASH
    ensures Split(root + rel) == Front(Split(root)) + Split(rel)
    ensures Enter(d, [], Front(Split(root))) == Enter(d, [], Split(root))
  {
    var r0 := root[..|root| - 1];
    assert root == r0 + [SLASH] + [] && root + rel == r0 + [SLASH] + rel;
    SplitConcat(r0, []);
    SplitConcat(r0, rel);
    EnterConcat(d, [], Split(r0), Split([]));
    var none: seq<Str> := [[]];
    assert Split([]) == none && none[1..] == [];
    assert Front(Split(root)) == Split(r0);
  }

  // Below the root a relative path is followed from the root.
  lemma EnterRoot(d: Disk, root: Str, rel: Str)
    requires Mounted(d, root) && !Absolute(rel)
    ensures var parts := Split(OpenPath(root, rel));
            && Enter(d, [], Front(parts)) == Enter(d, Home(root), Front(Split(rel)))
            && Last(parts) == Last(Split(rel))
  {
    var above := if root[|root| - 1] == SLASH then Front(Split(root)) else Split(root);
    if root[|root| - 1] == SLASH {
      EnterSlashRoot(d, root, rel);
    } else {
      SplitConcat(root, rel);
    }
    CutFront(above, Split(rel));
    EnterConcat(d, [], above, Front(Split(rel)));
  }

  lemma CutFront(a: seq<Str>, b: seq<Str>)
    requires b != []
    ensures Front(a + b) == a + Front(b) && Last(a + b) == Last(b)
  {}

  lemma NulInside(root: Str, rel: Str)
    requires NUL !in root && NUL !in rel
    ensures NUL !in OpenPath(root, rel)
  {}

  lemma NulOfRel(root: Str, rel: Str)
    requires NUL !in OpenPath(root, rel)
    ensures NUL !in rel
  {
    var path := OpenPath(root, rel);
    forall c | c in rel ensures c in path {
      assert path == rel || path == root + rel || path == root + [SLASH] + rel;
    }
  }

  /** Nothing is in the way of writing `p` below `h`. */
  ghost predicate Clear(d: Disk, h: Route, p: Str) {
    Steps(h, Front(Split(p))) !! d.files.Keys && h + Split(p) !in d.dirs
  }

  /** What writing to a storable path takes: no file on the way down, and no
      directory in its place. */
  lemma WriteStorable(d: Disk, root: Str, p: Str, data: Bytes)
    requires Mounted(d, root) && Storable(p)
    ensures var h, q := Home(root), Split(p);
            Write(d, OpenPath(root, p), data)
            == if Clear(d, h, p)
               then Some(Disk(d.files[h + q := data], d.dirs + Steps(h, Front(q)))) else None
  {
    var h, q := Home(root), Split(p);
    StorableParts(p);
    SplitCut(p);
    assert !Absolute(p);
    NulInside(root, p);
    EnterRoot(d, root, p);
    assert forall c | c in Front(q) :: c in q;
    EnterDown(d, h, Front(q));
    assert Last(q) in q;
    assert h + Front(q) + [Last(q)] == h + q;
    forall r | r in Steps(h, Front(q)) ensures r != h + q {
      assert |r| < |h + q|;
    }
  }

  /** A path that ends in a directory's own name is never written. */
  lemma SpecialRefused(d: Disk, root: Str, rel: Str, data: Bytes)
    requires Mounted(d, root) && Special(Last(Split(rel)))
    ensures Write(d, OpenPath(root, rel), data).None?
  {
    if !Absolute(rel) {
      EnterRoot(d, root, rel);
    }
  }

  /** An absolute key leaves the root behind; any other is taken from the root. */
  lemma KeyLands(d: Disk, root: Str, rel: Str, data: Bytes)
    requires Absolute(root)
    ensures var r := Write(d, OpenPath(root, rel), data);
            r.Some? ==> r.value.files == d.files[(if rel != [] && rel[0] == '/' as int then Stack(rel)
                                                  else Stack(root + [SLASH] + rel)) := data]
    ensures 0 in rel ==> Write(d, OpenPath(root, rel), data).None?
  {
    WriteLands(d, OpenPath(root, rel), data);
    if !Absolute(rel) && root[|root| - 1] == SLASH {
      SlashTwice(root, rel);
    }
    if 0 in rel {
      assert OpenPath(root, rel) in {rel, root + rel, root + [SLASH] + rel};
    }
  }

  lemma SlashTwice(root: Str, rel: Str)
    requires Absolute(root) && root[|root| - 1] == SLASH
    ensures Stack(root + rel) == Stack(root + [SLASH] + rel)
  {
    var r0 := root[..|root| - 1];
    var none: seq<Str> := [[]];
    assert root == r0 + [SLASH] + [] && root + rel == r0 + [SLASH] + rel;
    SplitConcat(r0, []);
    SplitConcat(r0, rel);
    SplitConcat(root, rel);
    assert Split([]) == none;
    assert Split(root + [SLASH] + rel) == Split(r0) + none + Split(rel);
    WalkThrough(Split(r0), none, Split(rel), true);
    WalkOne(Walk(Split(r0), [], true), [], true);
  }

  // Two paths that are followed alike are written alike.
  lemma WriteSame(d: Disk, a: Str, b: Str, data: Bytes)
    requires NUL !in a && NUL !in b && Last(Split(a)) == Last(Split(b))
    requires Enter(d, [], Front(Split(a))) == Enter(d, [], Front(Split(b)))
    ensures Write(d, a, data) == Write(d, b, data)
  {}

  lemma DotParts(p: Str)
    ensures var alias := DOT + [SLASH] + p;
            && !Absolute(alias) && Last(Split(alias)) == Last(Split(p))
            && Front(Split(alias)) == [DOT] + Front(Split(p))
  {
    var alias := DOT + [SLASH] + p;
    assert alias[0] == DOT[0];
    SplitConcat(DOT, p);
    SplitDot();
    assert Split(alias) == [DOT] + Split(p);
  }

  lemma EnterDot(d: Disk, at: Route, parts: seq<Str>)
    ensures Enter(d, at, [DOT] + parts) == Enter(d, at, parts)
  {
    assert ([DOT] + parts)[1..] == parts;
  }

  /** A path with `./` in front opens the same file. */
  lemma DotAlias(d: Disk, root: Str, p: Str, data: Bytes)
    requires Mounted(d, root) && Storable(p)
    ensures Write(d, OpenPath(root, DOT + [SLASH] + p), data) == Write(d, OpenPath(root, p), data)
  {
    var alias := DOT + [SLASH] + p;
    DotParts(p);
    EnterRoot(d, root, alias);
    EnterRoot(d, root, p);
    EnterDot(d, Home(root), Front(Split(p)));
    NulInside(root, alias);
    NulInside(root, p);
    WriteSame(d, OpenPath(root, alias), OpenPath(root, p), data);
  }

  // Every file that appears below the root gets names from its path.
  lemma WriteGood(d: Disk, root: Str, rel: Str, data: Bytes)
    requires Mounted(d, root) && GoodBelow(d, Home(root)) && NoPair(rel)
    ensures Write(d, OpenPath(root, rel), data).Some? ==>
              GoodBelow(Write(d, OpenPath(root, rel), data).value, Home(root))
  {
    var path := OpenPath(root, rel);
    var parts, h := Split(rel), |Home(root)|;
    if Write(d, path, data).Some? {
      NulOfRel(root, rel);
      PartsFrom(rel, NUL);
      NoPairParts(rel);
      SplitNoSlash(rel);
      assert forall c | c in parts :: Special(c) || Good(c);
      assert Last(parts) in parts && forall c | c in Front(parts) :: c in parts;
      if Absolute(rel) {
        EnterGood(d, [], Front(parts), h);
        EnterOnlyMakes(d, [], Front(parts));
      } else {
        EnterRoot(d, root, rel);
        EnterGood(d, Home(root), Front(parts), h);
        EnterOnlyMakes(d, Home(root), Front(parts));
      }
    }
  }

  // ---- a tidy disk is its workspace -----------------------------------------

  lemma StepOf(h: Route, q: seq<Str>, r: Route)
    requires q != []
    ensures r in Steps(h, Front(q)) <==> h < r && r < h + q
  {
    if r in Steps(h, Front(q)) {
      var i :| 1 <= i <= |Front(q)| && r == h + Front(q)[..i];
      assert Front(q)[..i] == q[..i];
      assert (h + q)[..|r|] == r;
    }
    if h < r && r < h + q {
      var i := |r| - |h|;
      assert r == h + Front(q)[..i];
    }
  }

  /** The relative path of a file below `h`. */
  lemma NamesFile(d: Disk, h: Route, ws: Dir, f: Route)
    requires GoodBelow(d, h) && Sees(d, h, ws) && f in d.files && h < f
    ensures var k := JoinParts(f[|h|..]); Split(k) == f[|h|..] && k in ws
  {
    var rest := f[|h|..];
    forall c | c in rest ensures NoSlash(c) {
      var i :| 0 <= i < |rest| && rest[i] == c;
      assert c == f[i + |h|] && GoodFrom(f, |h|);
    }
    SplitJoin(rest);
    assert f == h + rest;
  }

  lemma ViewStorable(d: Disk, root: Str, k: Str)
    requires GoodBelow(d, Home(root)) && k in View(d, root)
    ensures Storable(k) && NoPair(k)
  {
    var h := Home(root);
    var f := h + Split(k);
    ViewAt(d, root, k);
    forall c | c in Split(k) ensures Good(c) {
      var i :| 0 <= i < |Split(k)| && Split(k)[i] == c;
      assert f[i + |h|] == c;
    }
    GoodParts(k);
  }

  lemma BelowTail(h: Route, q: Route, f: Route)
    requires q != [] && h + q < f
    ensures h < f && q < f[|h|..]
  {
    assert f[..|h|] == (h + q)[..|h|] == h;
    assert f[|h|..][..|q|] == f[..|h + q|][|h|..] == q;
  }

  lemma FileBelowIsSeen(d: Disk, h: Route, ws: Dir, p: Str, f: Route)
    requires GoodBelow(d, h) && Sees(d, h, ws) && f in d.files && h + Split(p) < f
    ensures !CanWrite(ws, p)
  {
    BelowTail(h, Split(p), f);
    NamesFile(d, h, ws, f);
    AncestorSplit(p, JoinParts(f[|h|..]));
  }

  lemma DirIsSeen(d: Disk, h: Route, ws: Dir, p: Str)
    requires TidyBelow(d, h) && Sees(d, h, ws) && h + Split(p) in d.dirs
    ensures !CanWrite(ws, p)
  {
    assert h < h + Split(p);
    var f :| f in d.files && h + Split(p) < f;
    FileBelowIsSeen(d, h, ws, p, f);
  }

  lemma FileIsSeen(d: Disk, h: Route, ws: Dir, p: Str, r: Route)
    requires GoodBelow(d, h) && Sees(d, h, ws) && r in d.files && r in Steps(h, Front(Split(p)))
    ensures !CanWrite(ws, p)
  {
    var q := Split(p);
    StepOf(h, q, r);
    NamesFile(d, h, ws, r);
    assert q == (h + q)[|h|..] && q[..|r| - |h|] == (h + q)[..|r|][|h|..];
    AncestorSplit(JoinParts(r[|h|..]), p);
  }

  lemma BlockedIsSeen(d: Disk, h: Route, ws: Dir, p: Str)
    requires TidyBelow(d, h) && Sees(d, h, ws) && !Clear(d, h, p)
    ensures !CanWrite(ws, p)
  {
    if h + Split(p) in d.dirs {
      DirIsSeen(d, h, ws, p);
    } else {
      var r :| r in Steps(h, Front(Split(p))) && r in d.files;
      FileIsSeen(d, h, ws, p, r);
    }
  }

  lemma SeenBlocks(d: Disk, h: Route, ws: Dir, p: Str)
    requires TidyBelow(d, h) && Sees(d, h, ws) && !CanWrite(ws, p)
    ensures !Clear(d, h, p)
  {
    var k :| k in ws && (Ancestor(k, p) || Ancestor(p, k));
    if Ancestor(k, p) {
      FileBlocks(d, h, k, p);
    } else {
      DirBlocks(d, h, k, p);
    }
  }

  lemma FileBlocks(d: Disk, h: Route, k: Str, p: Str)
    requires h + Split(k) in d.files && Ancestor(k, p)
    ensures !Clear(d, h, p)
  {
    var f := h + Split(k);
    AncestorSplit(k, p);
    assert (h + Split(p))[..|f|] == f;
    StepOf(h, Split(p), f);
  }

  lemma DirBlocks(d: Disk, h: Route, k: Str, p: Str)
    requires TidyBelow(d, h) && h + Split(k) in d.files && Ancestor(p, k)
    ensures !Clear(d, h, p)
  {
    var f, r := h + Split(k), h + Split(p);
    AncestorSplit(p, k);
    assert f[..|r|] == r && h < r && r < f;
  }

  lemma WrittenMounted(d: Disk, root: Str, p: Str, data: Bytes)
    requires Mounted(d, root) && Disjoint(d) && Storable(p) && Clear(d, Home(root), p)
    ensures Write(d, OpenPath(root, p), data).Some?
    ensures var h, q, d' := Home(root), Split(p), Write(d, OpenPath(root, p), data).value;
            && d' == Disk(d.files[h + q := data], d.dirs + Steps(h, Front(q)))
            && Mounted(d', root) && Disjoint(d')
  {
    var h, q := Home(root), Split(p);
    WriteStorable(d, root, p, data);
    StepOf(h, q, h + q);
    EnterAgain(d, [], Split(root), Write(d, OpenPath(root, p), data).value);
  }

  lemma StillTidy(d: Disk, h: Route, q: seq<Str>, data: Bytes)
    requires TidyBelow(d, h) && q != []
    ensures var d' := Disk(d.files[h + q := data], d.dirs + Steps(h, Front(q)));
            && (forall r, f | f in d'.files && h < r && r < f :: r in d'.dirs)
            && (forall r | r in d'.dirs && h < r :: exists f :: f in d'.files && r < f)
  {
    var d' := Disk(d.files[h + q := data], d.dirs + Steps(h, Front(q)));
    forall r, f | f in d'.files && h < r && r < f ensures r in d'.dirs {
      StepOf(h, q, r);
    }
    forall r | r in d'.dirs && h < r ensures exists f :: f in d'.files && r < f {
      StepOf(h, q, r);
      assert h + q in d'.files;
      if r in d.dirs {
        var f :| f in d.files && r < f;
        assert f in d'.files;
      }
    }
  }

  lemma SameRoute(h: Route, k: Str, p: Str)
    ensures h + Split(k) == h + Split(p) <==> k == p
  {
    assert (h + Split(k))[|h|..] == Split(k) && (h + Split(p))[|h|..] == Split(p);
    JoinSplit(k);
    JoinSplit(p);
  }

  lemma SeesWritten(d: Disk, d': Disk, h: Route, ws: Dir, p: Str, data: Bytes)
    requires Sees(d, h, ws) && d'.files == d.files[h + Split(p) := data]
    ensures Sees(d', h, ws[p := data])
  {
    forall k
      ensures k in ws[p := data] <==> h + Split(k) in d'.files
      ensures k in ws[p := data] ==> ws[p := data][k] == d'.files[h + Split(k)]
    {
      SameRoute(h, k, p);
    }
  }

  /** Writing a storable path nothing is in the way of. */
  lemma Written(d: Disk, root: Str, p: Str, data: Bytes)
    requires Tidy(d, root) && Storable(p) && NoPair(p) && CanWrite(View(d, root), p)
    ensures Write(d, OpenPath(root, p), data).Some?
    ensures var d' := Write(d, OpenPath(root, p), data).value;
            Tidy(d', root) && View(d', root) == View(d, root)[p := data]
  {
    var h, ws := Home(root), View(d, root);
    ViewSees(d, root);
    if !Clear(d, h, p) {
      BlockedIsSeen(d, h, ws, p);
    }
    WrittenMounted(d, root, p, data);
    WriteGood(d, root, p, data);
    var d' := Write(d, OpenPath(root, p), data).value;
    StillTidy(d, h, Split(p), data);
    SeesWritten(d, d', h, ws, p, data);
    ViewSees(d', root);
    SeesOne(d', h, View(d', root), ws[p := data]);
  }

  lemma WriteBlocked(d: Disk, root: Str, p: Str, data: Bytes)
    requires Tidy(d, root) && Storable(p) && !CanWrite(View(d, root), p)
    ensures Write(d, OpenPath(root, p), data).None?
  {
    ViewSees(d, root);
    SeenBlocks(d, Home(root), View(d, root), p);
    WriteStorable(d, root, p, data);
  }

  /** On a tidy disk, opening and writing storable paths one by one is writing the
      workspace map. */
  lemma {:induction false} WritesAgree(d: Disk, root: Str, items: seq<Item>)
    requires Tidy(d, root) && AllStorable(items) && Sendable(items)
    ensures match WriteItems(d, root, items)
            case None => WriteAll(View(d, root), items).None?
            case Some(d') => Tidy(d', root) && WriteAll(View(d, root), items) == Some(View(d', root))
    decreases |items|
  {
    if items != [] {
      var p, data := items[0].path, items[0].data;
      if CanWrite(View(d, root), p) {
        Written(d, root, p, data);
        assert forall i | 0 <= i < |items[1..]| :: items[1..][i] == items[i + 1];
        WritesAgree(Write(d, OpenPath(root, p), data).value, root, items[1..]);
      } else {
        WriteBlocked(d, root, p, data);
      }
    }
  }

  /** Whatever the paths are, the files seen below the root afterwards have
      storable names. */
  lemma {:induction false} WritesGood(d: Disk, root: Str, items: seq<Item>)
    requires Mounted(d, root) && GoodBelow(d, Home(root)) && Sendable(items)
    requires Disjoint(d)
    ensures WriteItems(d, root, items).Some? ==> GoodBelow(WriteItems(d, root, items).value, Home(root))
    decreases |items|
  {
    if items != [] {
      var path := OpenPath(root, items[0].path);
      WriteGood(d, root, items[0].path, items[0].data);
      StillMounted(d, root, path, items[0].data);
      assert forall i | 0 <= i < |items[1..]| :: items[1..][i] == items[i + 1];
      if Write(d, path, items[0].data).Some? {
        WritesGood(Write(d, path, items[0].data).value, root, items[1..]);
      }
    }
  }

  lemma StillMounted(d: Disk, root: Str, path: Str, data: Bytes)
    requires Mounted(d, root) && Disjoint(d)
    ensures Write(d, path, data).Some? ==>
              var d' := Write(d, path, data).value;
              Mounted(d', root) && Disjoint(d')
  {
    var parts := Split(path);
    EnterOnlyMakes(d, [], Front(parts));
    EnterDisjoint(d, [], Front(parts));
    if Write(d, path, data).Some? {
      EnterAgain(d, [], Split(root), Write(d, path, data).value);
    }
  }

  lemma {:induction false} EnterDisjoint(d: Disk, at: Route, parts: seq<Str>)
    requires Disjoint(d)
    ensures Enter(d, at, parts).Some? ==>
              var d1 := Enter(d, at, parts).value.0; Disjoint(d1)
    decreases |parts|
  {
    if parts != [] {
      if parts[0] == [] || parts[0] == DOT {
        EnterDisjoint(d, at, parts[1..]);
      } else if parts[0] == DOTDOT {
        EnterDisjoint(d, if at == [] then [] else at[..|at| - 1], parts[1..]);
      } else if at + [parts[0]] !in d.files {
        EnterDisjoint(d.(dirs := d.dirs + {at + [parts[0]]}), at + [parts[0]], parts[1..]);
      }
    }
  }

  lemma Prefixed(h: Route, x: Route, y: Route)
    requires x < y
    ensures h + x < h + y && (x != [] ==> h < h + x)
  {
    assert (h + y)[..|h + x|] == h + x;
  }

  /** No file of a tidy disk lies on the way to another. */
  lemma ViewPrefixFree(d: Disk, root: Str)
    requires Tidy(d, root)
    ensures PrefixFree(View(d, root).Keys)
  {
    var h, ws := Home(root), View(d, root);
    ViewSees(d, root);
    forall a, b | a in ws.Keys && b in ws.Keys ensures !Ancestor(a, b) {
      AncestorSplit(a, b);
      if Split(a) < Split(b) {
        Prefixed(h, Split(a), Split(b));
      }
    }
  }
}
