/** Pumping one exec channel: output as it arrives, a deadline, and an exit code
    only once the channel is seen closed. */
module Exec {
  import opened Common

  /** One turn of the pump: whether the channel was open, the clock, and what an
      update then made available on each stream. */
  datatype Tick = Tick(open: bool, now: real, out: Option<Str>, err: Option<Str>)

  datatype Chunk = Stdout(data: Str) | Stderr(data: Str)

  datatype Ended = Closed | TimedOut | StillOpen

  /** The channel is open and the deadline not passed at each of the first `n` turns. */
  predicate Live(ticks: seq<Tick>, deadline: real, n: nat) {
    n <= |ticks| && forall j | 0 <= j < n :: ticks[j].open && ticks[j].now <= deadline
  }

  function ChunksOf(t: Tick): seq<Chunk> {
    (if t.out.Some? then [Stdout(t.out.value)] else []) + (if t.err.Some? then [Stderr(t.err.value)] else [])
  }

  function Chunks(ticks: seq<Tick>): seq<Chunk> {
    if ticks == [] then [] else Chunks(ticks[..|ticks| - 1]) + ChunksOf(ticks[|ticks| - 1])
  }

  function JoinOut(chunks: seq<Chunk>): Str {
    if chunks == [] then []
    else
      var last := chunks[|chunks| - 1];
      JoinOut(chunks[..|chunks| - 1]) + if last.Stdout? then last.data else []
  }

  function JoinErr(chunks: seq<Chunk>): Str {
    if chunks == [] then []
    else
      var last := chunks[|chunks| - 1];
      JoinErr(chunks[..|chunks| - 1]) + if last.Stderr? then last.data else []
  }

  /** Where the pump stops: the first turn that finds the channel closed or the
      deadline passed. */
  predicate StopsAt(ticks: seq<Tick>, deadline: real, n: nat, end: Ended) {
    && Live(ticks, deadline, n)
    && match end
       case Closed => n < |ticks| && !ticks[n].open
       case TimedOut => n < |ticks| && ticks[n].open && ticks[n].now > deadline
       case StillOpen => n == |ticks|
  }

  /** `exec_stream`: the chunks it yields and how it ends after `n` full turns. */
  method ExecStream(ticks: seq<Tick>, deadline: real) returns (chunks: seq<Chunk>, end: Ended, n: nat)
    ensures StopsAt(ticks, deadline, n, end)
    ensures n <= |ticks| && forall j | 0 <= j < n :: ticks[j].open && ticks[j].now <= deadline
    ensures end.Closed? <==> n < |ticks| && !ticks[n].open
    ensures end.TimedOut? <==> n < |ticks| && ticks[n].open && ticks[n].now > deadline
    ensures chunks == Chunks(ticks[..n])
  {
    chunks, n := [], 0;
    while n < |ticks|
      invariant Live(ticks, deadline, n)
      invariant chunks == Chunks(ticks[..n])
    {
      if !ticks[n].open {
        end := Closed;
        return;
      }
      if ticks[n].now > deadline {
        end := TimedOut;
        return;
      }
      ghost var before := chunks;
      if ticks[n].out.Some? {
        chunks := chunks + [Stdout(ticks[n].out.value)];
      }
      if ticks[n].err.Some? {
        chunks := chunks + [Stderr(ticks[n].err.value)];
      }
      assert chunks == before + ChunksOf(ticks[n]);
      ghost var next := ticks[..n + 1];
      assert next[..|next| - 1] == ticks[..n] && next[|next| - 1] == ticks[n];
      n := n + 1;
    }
    end := StillOpen;
  }

  /** A pump stops in one place and one way. */
  lemma StopsOnce(ticks: seq<Tick>, deadline: real, n: nat, end: Ended, m: nat, end': Ended)
    requires StopsAt(ticks, deadline, n, end) && StopsAt(ticks, deadline, m, end')
    ensures n == m && end == end'
  {}

  /** `exec_capture`: the same channel with each stream joined. Success means the
      channel was seen closed before the deadline was seen to pass. */
  method ExecCapture(ticks: seq<Tick>, deadline: real) returns (out: Str, err: Str, end: Ended)
    ensures exists n: nat ::
              && StopsAt(ticks, deadline, n, end) && (end.Closed? <==> n < |ticks| && !ticks[n].open)
              && out == OutSoFar(ticks, n) && err == ErrSoFar(ticks, n)
  {
    var chunks, stop, n := ExecStream(ticks, deadline);
    out, err, end := [], [], stop;
    for i := 0 to |chunks|
      invariant out == JoinOut(chunks[..i]) && err == JoinErr(chunks[..i])
    {
      ghost var next := chunks[..i + 1];
      assert next[..|next| - 1] == chunks[..i] && next[|next| - 1] == chunks[i];
      match chunks[i] {
        case Stdout(data) =>
          out := out + data;
          assert err + [] == err;
        case Stderr(data) =>
          err := err + data;
          assert out + [] == out;
      }
    }
    assert chunks[..|chunks|] == chunks;
    OutIsJoined(ticks, n);
    ErrIsJoined(ticks, n);
  }

  /** One turn yields its standard output, then its standard error, and nothing
      else. */
  lemma TurnInOrder(ticks: seq<Tick>, n: nat)
    requires n < |ticks|
    ensures Chunks(ticks[..0]) == []
    ensures var t, before := ticks[n], Chunks(ticks[..n]);
            && (t.out.Some? && t.err.Some? ==>
                  Chunks(ticks[..n + 1]) == before + [Stdout(t.out.value), Stderr(t.err.value)])
            && (t.out.Some? && t.err.None? ==> Chunks(ticks[..n + 1]) == before + [Stdout(t.out.value)])
            && (t.out.None? && t.err.Some? ==> Chunks(ticks[..n + 1]) == before + [Stderr(t.err.value)])
            && (t.out.None? && t.err.None? ==> Chunks(ticks[..n + 1]) == before)
  {
    var next := ticks[..n + 1];
    assert next[..|next| - 1] == ticks[..n] && next[|next| - 1] == ticks[n];
  }

  /** Joining keeps each stream's chunks in order and apart from the other's. */
  lemma JoinsApart(chunks: seq<Chunk>, data: Str)
    ensures JoinOut([]) == [] && JoinErr([]) == []
    ensures JoinOut(chunks + [Stdout(data)]) == JoinOut(chunks) + data
    ensures JoinOut(chunks + [Stderr(data)]) == JoinOut(chunks)
    ensures JoinErr(chunks + [Stderr(data)]) == JoinErr(chunks) + data
    ensures JoinErr(chunks + [Stdout(data)]) == JoinErr(chunks)
  {
    assert (chunks + [Stdout(data)])[..|chunks|] == chunks && (chunks + [Stderr(data)])[..|chunks|] == chunks;
  }

  // ---- confirming an upload -------------------------------------------------

  const MARK: Str := Lit("UPLOAD_OK")

  predicate Contains(s: Str, part: Str) {
    |part| <= |s| && (s[..|part|] == part || Contains(s[1..], part))
  }

  /** The standard output of the first `n` turns. */
  function OutSoFar(ticks: seq<Tick>, n: nat): Str
    requires n <= |ticks|
  {
    if n == 0 then []
    else OutSoFar(ticks, n - 1) + if ticks[n - 1].out.Some? then ticks[n - 1].out.value else []
  }

  /** The standard error of the first `n` turns. */
  function ErrSoFar(ticks: seq<Tick>, n: nat): Str
    requires n <= |ticks|
  {
    if n == 0 then []
    else ErrSoFar(ticks, n - 1) + if ticks[n - 1].err.Some? then ticks[n - 1].err.value else []
  }

  lemma StartsWith(part: Str, after: Str)
    ensures (part + after)[..|part|] == part
  {}

  /** `part` is a piece of `s`. */
  lemma {:induction false} ContainsExactly(s: Str, part: Str)
    ensures Contains(s, part) <==> exists before: Str, after: Str :: s == before + part + after
  {
    if |part| <= |s| && s[..|part|] == part {
      assert s == [] + part + s[|part|..];
    } else {
      if |part| <= |s| {
        ContainsExactly(s[1..], part);
        if before: Str, after: Str :| s[1..] == before + part + after {
          assert s == ([s[0]] + before) + part + after;
        }
      }
      if before: Str, after: Str :| s == before + part + after {
        StartsWith(part, after);
        assert before == [] ==> before + part + after == part + after;
        assert s[1..] == before[1..] + part + after;
      }
    }
  }

  predicate Shows(ticks: seq<Tick>, deadline: real, mark: Str, n: nat) {
    Live(ticks, deadline, n) && Contains(OutSoFar(ticks, n), mark)
  }

  lemma NotPast(ticks: seq<Tick>, deadline: real, n: nat, m: nat)
    requires n < |ticks| && n < m && (!ticks[n].open || ticks[n].now > deadline)
    ensures !Live(ticks, deadline, m)
  {}

  // Wait until the output comes to contain `mark`.
  method AwaitText(ticks: seq<Tick>, deadline: real, mark: Str) returns (seen: bool)
    requires mark != []
    ensures seen <==> exists n: nat :: Shows(ticks, deadline, mark, n)
  {
    var out: Str := [];
    var n := 0;
    while n < |ticks|
      invariant Live(ticks, deadline, n)
      invariant out == OutSoFar(ticks, n)
      invariant forall m: nat | m <= n :: !Shows(ticks, deadline, mark, m)
    {
      if !ticks[n].open || ticks[n].now > deadline {
        forall m: nat | m > n ensures !Shows(ticks, deadline, mark, m) {
          NotPast(ticks, deadline, n, m);
        }
        return false;
      }
      assert out + [] == out;
      if ticks[n].out.Some? {
        out := out + ticks[n].out.value;
      }
      n := n + 1;
      if Contains(out, mark) {
        assert Shows(ticks, deadline, mark, n);
        return true;
      }
    }
    seen := false;
  }

  /** The host's half of an upload: it is confirmed exactly when, while the channel
      is open and on time, the output so far comes to contain the mark, however it
      is cut into chunks. */
  method AwaitUpload(ticks: seq<Tick>, deadline: real) returns (confirmed: bool)
    ensures confirmed <==> exists n: nat :: Shows(ticks, deadline, MARK, n)
    ensures confirmed ==>
              exists n: nat, before: Str, after: Str ::
                && n <= |ticks| && (forall j | 0 <= j < n :: ticks[j].open && ticks[j].now <= deadline)
                && OutSoFar(ticks, n) == before + Lit("UPLOAD_OK") + after
  {
    confirmed := AwaitText(ticks, deadline, MARK);
    if confirmed {
      ghost var n: nat :| Shows(ticks, deadline, MARK, n);
      ContainsExactly(OutSoFar(ticks, n), MARK);
    }
  }

  lemma JoinOutOf(chunks: seq<Chunk>, t: Tick)
    ensures JoinOut(chunks + ChunksOf(t)) == JoinOut(chunks) + if t.out.Some? then t.out.value else []
    ensures JoinErr(chunks + ChunksOf(t)) == JoinErr(chunks) + if t.err.Some? then t.err.value else []
  {
    var first := if t.out.Some? then chunks + [Stdout(t.out.value)] else chunks;
    if t.out.Some? {
      JoinsApart(chunks, t.out.value);
    }
    if t.err.Some? {
      JoinsApart(first, t.err.value);
      assert chunks + ChunksOf(t) == first + [Stderr(t.err.value)];
    } else {
      assert chunks + ChunksOf(t) == first;
    }
  }

  /** What is heard on standard output is what the pump's chunks of it come to. */
  lemma {:induction false} OutIsJoined(ticks: seq<Tick>, n: nat)
    requires n <= |ticks|
    ensures OutSoFar(ticks, n) == JoinOut(Chunks(ticks[..n]))
  {
    if n > 0 {
      OutIsJoined(ticks, n - 1);
      var now := ticks[..n];
      assert now[..|now| - 1] == ticks[..n - 1] && now[|now| - 1] == ticks[n - 1];
      JoinOutOf(Chunks(ticks[..n - 1]), ticks[n - 1]);
    }
  }

  /** The same for standard error. */
  lemma {:induction false} ErrIsJoined(ticks: seq<Tick>, n: nat)
    requires n <= |ticks|
    ensures ErrSoFar(ticks, n) == JoinErr(Chunks(ticks[..n]))
  {
    if n > 0 {
      ErrIsJoined(ticks, n - 1);
      var now := ticks[..n];
      assert now[..|now| - 1] == ticks[..n - 1] && now[|now| - 1] == ticks[n - 1];
      JoinOutOf(Chunks(ticks[..n - 1]), ticks[n - 1]);
    }
  }

  // ---- the exit code --------------------------------------------------------

  /** A cause in the status: whether its reason is ExitCode, and its message as a
      number, if it is one; a missing message counts as 1. */
  datatype Cause = Cause(exitCode: bool, message: Option<int>)

  /** The error channel's text: nothing, not JSON, JSON that is not an object, or a
      status. `causes` is None where the status has null, or something else that
      has no causes to go through. */
  datatype Status = Empty | NotJson | NotObject | Status(success: bool, causes: Option<seq<Cause>>)

  /** `_exit_code`: zero unless a status reports a failure; then the first ExitCode
      cause decides, and one stands in for what cannot be read. None when it
      raises, on JSON that is not a status. */
  method ExitCode(status: Status) returns (code: Option<int>)
    ensures code.None? <==> status.NotObject? || (status.Status? && !status.success && status.causes.None?)
    ensures status.Empty? || status.NotJson? || (status.Status? && status.success) ==> code == Some(0)
    ensures status.Status? && !status.success && status.causes.Some? ==>
              && ((forall c | c in status.causes.value :: !c.exitCode) ==> code == Some(1))
              && (forall i | 0 <= i < |status.causes.value| && status.causes.value[i].exitCode
                             && (forall j | 0 <= j < i :: !status.causes.value[j].exitCode) ::
                    var m := status.causes.value[i].message;
                    code == Some(if m.Some? then m.value else 1))
  {
    if status.Empty? || status.NotJson? {
      return Some(0);
    }
    if status.NotObject? {
      return None;
    }
    if status.success {
      return Some(0);
    }
    if status.causes.None? {
      return None;
    }
    var causes := status.causes.value;
    for i := 0 to |causes|
      invariant forall j | 0 <= j < i :: !causes[j].exitCode
    {
      if causes[i].exitCode {
        return Some(if causes[i].message.Some? then causes[i].message.value else 1);
      }
    }
    code := Some(1);
  }
}
