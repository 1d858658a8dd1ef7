/** Slash-separated names: `posixpath.normpath` as a stack of components, and the
    check a snapshot's member names must pass. */
module Paths {
  import opened Common
  import opened Workspace

  const DOT: Str := [46]
  const DOTDOT: Str := [46, 46]

  // ---- components -----------------------------------------------------------

  function Split(s: Str): (r: seq<Str>)
    ensures |r| >= 1
  {
    if s == [] then [[]]
    else
      var rest := Split(s[1..]);
      if s[0] == SLASH then [[]] + rest else [[s[0]] + rest[0]] + rest[1..]
  }

  function JoinParts(parts: seq<Str>): Str {
    if parts == [] then [] else if |parts| == 1 then parts[0] else parts[0] + [SLASH] + JoinParts(parts[1..])
  }

  predicate Absolute(s: Str) { s != [] && s[0] == SLASH }

  // ---- normpath -------------------------------------------------------------

  function PushPart(stack: seq<Str>, part: Str, absolute: bool): seq<Str> {
    if part == [] || part == DOT then stack
    else if part != DOTDOT || (!absolute && stack == []) || (stack != [] && stack[|stack| - 1] == DOTDOT)
    then stack + [part]
    else if stack != [] then stack[..|stack| - 1]
    else stack
  }

  function Walk(parts: seq<Str>, stack: seq<Str>, absolute: bool): seq<Str> {
    if parts == [] then stack else Walk(parts[1..], PushPart(stack, parts[0], absolute), absolute)
  }

  /** The stack of components `normpath` ends with. */
  function Stack(name: Str): seq<Str> { Walk(Split(name), [], Absolute(name)) }

  function Slashes(name: Str): Str {
    if !Absolute(name) then []
    else if |name| >= 2 && name[1] == SLASH && !(|name| >= 3 && name[2] == SLASH) then [SLASH, SLASH]
    else [SLASH]
  }

  function NormPath(name: Str): Str {
    var path := Slashes(name) + JoinParts(Stack(name));
    if path == [] then DOT else path
  }

  /** `_safe_member_name`. */
  predicate SafeName(name: Str) {
    !Absolute(name) && forall part | part in Split(name) && part != DOT :: part != DOTDOT && part != []
  }

  predicate Accepted(name: Str) { SafeName(NormPath(name)) }

  // ---- what is accepted -----------------------------------------------------

  /** Following the components from `depth` levels below the root never goes
      above the root. */
  predicate StaysInside(parts: seq<Str>, depth: nat) {
    if parts == [] then true
    else if parts[0] == [] || parts[0] == DOT then StaysInside(parts[1..], depth)
    else if parts[0] == DOTDOT then depth > 0 && StaysInside(parts[1..], depth - 1)
    else StaysInside(parts[1..], depth + 1)
  }

  predicate NoSlash(s: Str) { forall i | 0 <= i < |s| :: s[i] != SLASH }

  /** Components as they can be on the stack. */
  ghost predicate Proper(parts: seq<Str>) { forall p | p in parts :: p != [] && p != DOT && NoSlash(p) }

  ghost predicate Clean(parts: seq<Str>) { DOTDOT !in parts }

  lemma {:induction false} SplitNoSlash(s: Str)
    ensures forall p | p in Split(s) :: NoSlash(p)
  {
    if s != [] {
      SplitNoSlash(s[1..]);
      var rest := Split(s[1..]);
      forall p | p in Split(s) ensures NoSlash(p) {
        assert p in rest || p == [] || (s[0] != SLASH && p == [s[0]] + rest[0] && rest[0] in rest);
      }
    }
  }

  lemma {:induction false} SplitJoin(parts: seq<Str>)
    requires parts != [] && forall p | p in parts :: NoSlash(p)
    ensures Split(JoinParts(parts)) == parts
    decreases |parts|, |parts[0]|
  {
    var s := JoinParts(parts);
    if parts[0] == [] {
      if |parts| > 1 {
        assert s == [SLASH] + JoinParts(parts[1..]);
        assert s[1..] == JoinParts(parts[1..]);
        SplitJoin(parts[1..]);
        assert parts == [[]] + parts[1..];
      } else {
        assert parts == [[]];
      }
    } else {
      var shorter := [parts[0][1..]] + parts[1..];
      assert NoSlash(parts[0]);
      assert s[0] == parts[0][0];
      assert s[1..] == JoinParts(shorter) by {
        if |parts| > 1 {
          assert s == parts[0] + ([SLASH] + JoinParts(parts[1..]));
          assert shorter[1..] == parts[1..];
          assert s[1..] == parts[0][1..] + ([SLASH] + JoinParts(parts[1..]));
        }
      }
      SplitJoin(shorter);
      assert [parts[0][0]] + parts[0][1..] == parts[0];
      assert parts == [parts[0]] + parts[1..];
    }
  }

  lemma {:induction false} JoinSplit(s: Str)
    ensures JoinParts(Split(s)) == s
  {
    if s != [] {
      JoinSplit(s[1..]);
      var rest := Split(s[1..]);
      if s[0] == SLASH {
        assert ([[]] + rest)[1..] == rest;
        assert s == [SLASH] + s[1..];
      } else {
        assert ([[s[0]] + rest[0]] + rest[1..])[1..] == rest[1..];
        assert s == [s[0]] + s[1..];
      }
    }
  }

  lemma {:induction false} WalkProper(parts: seq<Str>, stack: seq<Str>, absolute: bool)
    requires (forall p | p in parts :: NoSlash(p)) && Proper(stack)
    ensures Proper(Walk(parts, stack, absolute))
    decreases |parts|
  {
    if parts != [] {
      WalkProper(parts[1..], PushPart(stack, parts[0], absolute), absolute);
    }
  }

  // A leading `..` is never popped.
  lemma {:induction false} Escaped(parts: seq<Str>, stack: seq<Str>)
    requires stack != [] && stack[0] == DOTDOT
    ensures !Clean(Walk(parts, stack, false))
    decreases |parts|
  {
    if parts != [] {
      Escaped(parts[1..], PushPart(stack, parts[0], false));
    }
  }

  lemma {:induction false} WalkInside(parts: seq<Str>, stack: seq<Str>)
    requires Clean(stack)
    ensures Clean(Walk(parts, stack, false)) <==> StaysInside(parts, |stack|)
    decreases |parts|
  {
    if parts != [] {
      var next := PushPart(stack, parts[0], false);
      if parts[0] == DOTDOT && stack == [] {
        Escaped(parts[1..], next);
      } else {
        WalkInside(parts[1..], next);
      }
    }
  }

  lemma SplitDot()
    ensures Split(DOT) == [DOT]
  {
    assert DOT[1..] == [] && [DOT[0]] + [] == DOT;
  }

  // A joined stack is safe exactly when nothing on it is `..`.
  lemma SafeStack(stack: seq<Str>)
    requires Proper(stack)
    ensures SafeName(if stack == [] then DOT else JoinParts(stack)) <==> Clean(stack)
    ensures stack != [] ==> JoinParts(stack) != [] && !Absolute(JoinParts(stack))
  {
    if stack == [] {
      SplitDot();
    } else {
      SplitJoin(stack);
      assert stack[0] in stack;
      assert JoinParts(stack)[0] == stack[0][0];
    }
  }

  /** A member name is accepted if and only if it is relative and following its
      components from the root never goes above the root. */
  lemma AcceptedExactly(name: Str)
    ensures Accepted(name) <==> !Absolute(name) && StaysInside(Split(name), 0)
  {
    SplitNoSlash(name);
    WalkProper(Split(name), [], Absolute(name));
    if !Absolute(name) {
      WalkInside(Split(name), []);
      SafeStack(Stack(name));
      assert [] + JoinParts(Stack(name)) == JoinParts(Stack(name));
    } else {
      assert NormPath(name)[0] == SLASH;
    }
  }

  // ---- keys -----------------------------------------------------------------

  /** A name that is already normal and safe. */
  predicate IsKey(name: Str) { NormPath(name) == name && SafeName(name) }

  lemma {:induction false} WalkClean(parts: seq<Str>, stack: seq<Str>)
    requires Proper(parts) && Clean(parts)
    ensures Walk(parts, stack, false) == stack + parts
    decreases |parts|
  {
    if parts != [] {
      assert parts[0] in parts && forall p | p in parts[1..] :: p in parts;
      WalkClean(parts[1..], stack + [parts[0]]);
      assert stack + [parts[0]] + parts[1..] == stack + parts;
    } else {
      assert stack + parts == stack;
    }
  }

  /** Normalising an accepted name gives a key: normalising again changes nothing. */
  lemma NormalisesToKey(name: Str)
    requires Accepted(name)
    ensures IsKey(NormPath(name))
    ensures Stack(NormPath(name)) == Stack(name)
  {
    var stack := Stack(name);
    AcceptedExactly(name);
    SplitNoSlash(name);
    WalkProper(Split(name), [], false);
    WalkInside(Split(name), []);
    SafeStack(stack);
    var key := NormPath(name);
    if stack == [] {
      SplitDot();
      assert Walk([DOT], [], false) == Walk([], [], false) by { assert [DOT][1..] == []; }
    } else {
      assert key == JoinParts(stack);
      SplitJoin(stack);
      WalkClean(stack, []);
      assert [] + stack == stack;
    }
  }

  /** The directory itself passes for a file name. */
  lemma DotAccepted()
    ensures Accepted(DOT) && IsKey(DOT)
  {
    SplitDot();
    assert Walk([DOT], [], false) == Walk([], [], false) by { assert [DOT][1..] == []; }
  }

  lemma {:induction false} WalkConcat(a: seq<Str>, b: seq<Str>, stack: seq<Str>, absolute: bool)
    ensures Walk(a + b, stack, absolute) == Walk(b, Walk(a, stack, absolute), absolute)
    decreases |a|
  {
    if a == [] {
      assert a + b == b;
    } else {
      assert (a + b)[1..] == a[1..] + b;
      WalkConcat(a[1..], b, PushPart(stack, a[0], absolute), absolute);
    }
  }

  lemma {:induction false} SplitConcat(a: Str, b: Str)
    ensures Split(a + [SLASH] + b) == Split(a) + Split(b)
  {
    var s := a + [SLASH] + b;
    if a == [] {
      assert s[1..] == b;
    } else {
      assert s[1..] == a[1..] + [SLASH] + b;
      SplitConcat(a[1..], b);
    }
  }

  lemma {:induction false} WalkCleanAbsolute(parts: seq<Str>, stack: seq<Str>)
    requires Proper(parts) && Clean(parts)
    ensures Walk(parts, stack, true) == stack + parts
    decreases |parts|
  {
    if parts != [] {
      assert parts[0] in parts && forall p | p in parts[1..] :: p in parts;
      WalkCleanAbsolute(parts[1..], stack + [parts[0]]);
      assert stack + [parts[0]] + parts[1..] == stack + parts;
    } else {
      assert stack + parts == stack;
    }
  }

  /** Joined to an absolute root, the key of an accepted name resolves to a place
      below the root: the root's components, then the key's own. */
  lemma KeyStaysUnderRoot(root: Str, name: Str)
    requires Absolute(root) && Accepted(name)
    ensures Stack(root + [SLASH] + NormPath(name)) == Stack(root) + Stack(name)
  {
    var key := NormPath(name);
    var full := root + [SLASH] + key;
    NormalisesToKey(name);
    AcceptedExactly(name);
    SplitNoSlash(name);
    WalkProper(Split(name), [], false);
    WalkInside(Split(name), []);
    SafeStack(Stack(name));
    SplitConcat(root, key);
    WalkConcat(Split(root), Split(key), [], true);
    if Stack(name) == [] {
      SplitDot();
      assert Walk([DOT], Stack(root), true) == Stack(root) by { assert [DOT][1..] == []; }
    } else {
      assert key == JoinParts(Stack(name));
      SplitJoin(Stack(name));
      WalkCleanAbsolute(Stack(name), Stack(root));
    }
  }

  // ---- what normalising means -----------------------------------------------

  /** The stack is what the components say, taken one after the other: empty ones
      and `.` change nothing, a name goes one directory down, and `..` after a name
      takes that name back, wherever in the path they are. */
  lemma StackMeans(before: seq<Str>, name: Str, after: seq<Str>, absolute: bool)
    requires name != [] && name != [46] && name != [46, 46]
    ensures Walk([], [], absolute) == []
    ensures Walk(before + [name], [], absolute) == Walk(before, [], absolute) + [name]
    ensures Walk(before + [[]] + after, [], absolute) == Walk(before + after, [], absolute)
    ensures Walk(before + [[46]] + after, [], absolute) == Walk(before + after, [], absolute)
    ensures Walk(before + [name, [46, 46]] + after, [], absolute) == Walk(before + after, [], absolute)
    ensures Walk([[46, 46]], [], true) == [] && Walk([[46, 46]], [], false) == [[46, 46]]
  {
    var none: Str := [];
    WalkConcat(before, [name], [], absolute);
    WalkThrough(before, [none], after, absolute);
    WalkThrough(before, [DOT], after, absolute);
    WalkThrough(before, [name, DOTDOT], after, absolute);
    var stack := Walk(before, [], absolute);
    WalkOne(stack, name, absolute);
    WalkOne(stack, none, absolute);
    WalkOne(stack, DOT, absolute);
    WalkOne(stack + [name], DOTDOT, absolute);
    WalkConcat([name], [DOTDOT], stack, absolute);
    assert [name] + [DOTDOT] == [name, DOTDOT] && (stack + [name])[..|stack|] == stack;
    WalkOne([], DOTDOT, true);
    WalkOne([], DOTDOT, false);
  }

  lemma WalkOne(stack: seq<Str>, part: Str, absolute: bool)
    ensures Walk([part], stack, absolute) == PushPart(stack, part, absolute)
  {
    assert [part][1..] == [];
  }

  lemma WalkThrough(before: seq<Str>, middle: seq<Str>, after: seq<Str>, absolute: bool)
    ensures Walk(before + middle + after, [], absolute)
            == Walk(after, Walk(middle, Walk(before, [], absolute), absolute), absolute)
    ensures Walk(before + after, [], absolute) == Walk(after, Walk(before, [], absolute), absolute)
  {
    WalkConcat(before + middle, after, [], absolute);
    WalkConcat(before, middle, [], absolute);
    WalkConcat(before, after, [], absolute);
  }

  // Below a clean stack an accepted name goes where it goes alone.
  lemma {:induction false} WalkBelow(parts: seq<Str>, base: seq<Str>, stack: seq<Str>)
    requires Clean(stack) && StaysInside(parts, |stack|)
    requires base == [] || base[|base| - 1] != DOTDOT
    ensures Walk(parts, base + stack, true) == base + Walk(parts, stack, false)
    decreases |parts|
  {
    if parts != [] {
      var next := PushPart(stack, parts[0], false);
      assert stack != [] ==> stack[|stack| - 1] in stack;
      if parts[0] == DOTDOT {
        assert (base + stack)[..|base + stack| - 1] == base + stack[..|stack| - 1];
      } else if parts[0] != [] && parts[0] != DOT {
        assert base + stack + [parts[0]] == base + (stack + [parts[0]]);
      }
      assert PushPart(base + stack, parts[0], true) == base + next;
      WalkBelow(parts[1..], base, next);
    }
  }

  /** An accepted name and its key lead to the same place below any root. */
  lemma KeyKeepsMeaning(root: Str, name: Str)
    requires Absolute(root) && Accepted(name)
    ensures Stack(root + [SLASH] + name) == Stack(root + [SLASH] + NormPath(name)) == Stack(root) + Stack(name)
  {
    KeyStaysUnderRoot(root, name);
    AcceptedExactly(name);
    SplitConcat(root, name);
    WalkConcat(Split(root), Split(name), [], true);
    CleanStack(Split(root), []);
    assert Stack(root) != [] ==> Stack(root)[|Stack(root)| - 1] in Stack(root);
    WalkBelow(Split(name), Stack(root), []);
    assert Stack(root) + [] == Stack(root);
  }

  lemma {:induction false} CleanStack(parts: seq<Str>, stack: seq<Str>)
    requires Clean(stack)
    ensures Clean(Walk(parts, stack, true))
    decreases |parts|
  {
    if parts != [] {
      assert stack != [] ==> stack[|stack| - 1] in stack;
      CleanStack(parts[1..], PushPart(stack, parts[0], true));
    }
  }
}
