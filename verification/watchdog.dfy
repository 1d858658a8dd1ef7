/** The idle watchdog that keeps a worker's pod alive, over real time. */
module Watchdog {
  import opened Common

  /** One look at the process table: what was listed and when, and the clock
      reading that followed. */
  datatype Sample = Sample(entries: seq<Str>, listed: real, read: real)

  // ---- the poll interval ----------------------------------------------------

  function Poll(ttl: real): real {
    var quarter := if ttl / 4.0 < 30.0 then ttl / 4.0 else 30.0;
    if quarter > 1.0 then quarter else 1.0
  }

  /** The interval is the longest between one and thirty seconds that fits four
      times into the idle limit; only a limit under four seconds does not hold four. */
  lemma PollBounds(ttl: real, p: real)
    requires ttl > 0.0
    ensures 1.0 <= Poll(ttl) <= 30.0
    ensures 4.0 * Poll(ttl) <= ttl <==> ttl >= 4.0
    ensures ttl < 4.0 ==> Poll(ttl) == 1.0
    ensures 1.0 <= p <= 30.0 && 4.0 * p <= ttl ==> p <= Poll(ttl)
  {
    if ttl >= 120.0 {
      assert ttl / 4.0 >= 30.0;
    }
  }

  // ---- the loop -------------------------------------------------------------

  predicate IsDigits(e: Str) { e != [] && forall i | 0 <= i < |e| :: 48 <= e[i] <= 57 }

  /** A process other than the watchdog, which is process 1. */
  predicate OtherProcess(e: Str) { IsDigits(e) && e != [49] }

  predicate Active(s: Sample) { exists i :: 0 <= i < |s.entries| && OtherProcess(s.entries[i]) }

  /** The clock reading of the last active sample among the first `k`, or `start`. */
  function LastActive(start: real, samples: seq<Sample>, k: nat): real
    requires k <= |samples|
  {
    if k == 0 then start
    else if Active(samples[k - 1]) then samples[k - 1].read
    else LastActive(start, samples, k - 1)
  }

  predicate ExpiresAt(start: real, ttl: real, samples: seq<Sample>, k: nat)
    requires k < |samples|
  {
    !Active(samples[k]) && samples[k].read - LastActive(start, samples, k) >= ttl
  }

  /** The watchdog stops at sample `k`. */
  predicate StopsAt(start: real, ttl: real, samples: seq<Sample>, k: nat) {
    && k < |samples| && ExpiresAt(start, ttl, samples, k)
    && forall j | 0 <= j < k :: !ExpiresAt(start, ttl, samples, j)
  }

  /** A listing that shows the watchdog alone, or names that are not numbers, is idle;
      any other number in it is a process. */
  lemma ProcessesMean(s: Sample)
    ensures Active(s) <==>
              exists i :: 0 <= i < |s.entries| && s.entries[i] != [] && s.entries[i] != Lit("1")
                          && forall k | 0 <= k < |s.entries[i]| :: '0' as int <= s.entries[i][k] <= '9' as int
  {
    assert Lit("1") == [49];
  }

  method AnyActive(entries: seq<Str>) returns (b: bool)
    ensures b <==> exists i :: 0 <= i < |entries| && OtherProcess(entries[i])
    ensures b <==> exists i :: 0 <= i < |entries| && entries[i] != [] && entries[i] != Lit("1")
                               && forall k | 0 <= k < |entries[i]| :: '0' as int <= entries[i][k] <= '9' as int
  {
    assert Lit("1") == [49];
    for i := 0 to |entries|
      invariant forall j | 0 <= j < i :: !OtherProcess(entries[j])
    {
      if OtherProcess(entries[i]) {
        return true;
      }
    }
    b := false;
  }

  /** The script, run over the samples it takes; None if it is still running. */
  method Watch(start: real, ttl: real, samples: seq<Sample>) returns (stop: Option<nat>)
    ensures stop.Some? ==> StopsAt(start, ttl, samples, stop.value)
    ensures stop.None? ==> forall k | 0 <= k < |samples| :: !ExpiresAt(start, ttl, samples, k)
  {
    var last := start;
    for k := 0 to |samples|
      invariant last == LastActive(start, samples, k)
      invariant forall j | 0 <= j < k :: !ExpiresAt(start, ttl, samples, j)
    {
      var active := AnyActive(samples[k].entries);
      var now := samples[k].read;
      if active {
        last := now;
      } else if now - last >= ttl {
        return Some(k);
      }
    }
    stop := None;
  }

  // ---- timing ---------------------------------------------------------------

  /** The clock is read after each listing, the next listing comes after a sleep,
      no two readings are more than `gap` apart, and a reading follows its listing
      within `lag`. */
  ghost predicate Timed(start: real, samples: seq<Sample>, poll: real, gap: real, lag: real) {
    && poll > 0.0
    && (forall k | 0 <= k < |samples| :: samples[k].listed <= samples[k].read <= samples[k].listed + lag)
    && (|samples| > 0 ==> start <= samples[0].listed && samples[0].read <= start + gap)
    && (forall k | 0 <= k < |samples| - 1 ::
          samples[k].read + poll <= samples[k + 1].listed && samples[k + 1].read <= samples[k].read + gap)
  }

  lemma {:induction false} ReadsGrow(start: real, samples: seq<Sample>,
                                     poll: real, gap: real, lag: real, i: nat, j: nat)
    requires Timed(start, samples, poll, gap, lag) && i <= j < |samples|
    ensures start <= samples[i].listed && samples[i].read <= samples[j].read
    ensures i < j ==> samples[i].read < samples[j].listed
    decreases i + j
  {
    if i < j {
      ReadsGrow(start, samples, poll, gap, lag, i, j - 1);
      assert samples[j - 1].read + poll <= samples[j - 1 + 1].listed;
    } else if i > 0 {
      ReadsGrow(start, samples, poll, gap, lag, i - 1, i - 1);
      assert samples[i - 1].read + poll <= samples[i - 1 + 1].listed;
    }
  }

  lemma {:induction false} LastActiveIsLatest(start: real, samples: seq<Sample>,
                                              poll: real, gap: real, lag: real, k: nat)
    requires Timed(start, samples, poll, gap, lag) && k <= |samples|
    ensures LastActive(start, samples, k) >= start
    ensures forall j | 0 <= j < k && Active(samples[j]) :: samples[j].read <= LastActive(start, samples, k)
  {
    if k > 0 {
      LastActiveIsLatest(start, samples, poll, gap, lag, k - 1);
      ReadsGrow(start, samples, poll, gap, lag, k - 1, k - 1);
      forall j | 0 <= j < k && Active(samples[j])
        ensures samples[j].read <= LastActive(start, samples, k)
      {
        ReadsGrow(start, samples, poll, gap, lag, j, k - 1);
      }
    }
  }

  /** The watchdog never stops before `ttl` has passed, and when it stops every
      sample of the last `ttl` seconds was idle. */
  lemma StopsOnlyWhenIdle(start: real, ttl: real, samples: seq<Sample>, poll: real, gap: real, lag: real, k: nat)
    requires Timed(start, samples, poll, gap, lag) && ttl > 0.0 && StopsAt(start, ttl, samples, k)
    ensures samples[k].read >= start + ttl
    ensures forall j | 0 <= j <= k && samples[j].read > samples[k].read - ttl :: !Active(samples[j])
  {
    LastActiveIsLatest(start, samples, poll, gap, lag, k);
  }

  /** A sample falls in every interval one listing gap long that starts between
      the watchdog's start and its last listing. */
  lemma {:induction false} SampledWithin(start: real, samples: seq<Sample>,
                                         poll: real, gap: real, lag: real, a: real, n: nat)
    requires Timed(start, samples, poll, gap, lag) && start <= a
    requires n < |samples| && a <= samples[n].listed
    ensures exists k: nat :: k <= n && a <= samples[k].listed <= a + gap + lag
    decreases n
  {
    if n > 0 && a <= samples[n - 1].listed {
      SampledWithin(start, samples, poll, gap, lag, a, n - 1);
    } else if n > 0 {
      assert samples[n - 1 + 1].read <= samples[n - 1].read + gap;
      assert a <= samples[n].listed <= a + gap + lag;
    } else {
      assert a <= samples[0].listed <= a + gap + lag;
    }
  }

  /** `running` holds from `a` to `b`: every listing in between shows it. */
  ghost predicate RunsFromTo(samples: seq<Sample>, a: real, b: real) {
    forall k | 0 <= k < |samples| && a <= samples[k].listed <= b :: Active(samples[k])
  }

  /** Activity that lasts a sampling gap is always seen: the watchdog does not
      stop within `ttl` after it. */
  lemma ActivityIsSeen(start: real, ttl: real, samples: seq<Sample>, poll: real, gap: real, lag: real,
                       a: real, b: real, stop: nat)
    requires Timed(start, samples, poll, gap, lag) && ttl > 0.0 && start <= a && a + gap + lag <= b
    requires RunsFromTo(samples, a, b) && StopsAt(start, ttl, samples, stop) && a <= samples[stop].listed
    ensures samples[stop].read >= a + ttl
  {
    SampledWithin(start, samples, poll, gap, lag, a, stop);
    var k: nat :| k <= stop && a <= samples[k].listed <= a + gap + lag;
    assert Active(samples[k]);
    LastActiveIsLatest(start, samples, poll, gap, lag, stop);
  }

  /** Idle after `t0`: no later listing shows another process. */
  ghost predicate IdleAfter(samples: seq<Sample>, t0: real) {
    forall k | 0 <= k < |samples| && samples[k].listed > t0 :: !Active(samples[k])
  }

  lemma {:induction false} LastActiveBound(start: real, samples: seq<Sample>,
                                           poll: real, gap: real, lag: real, t0: real, k: nat)
    requires Timed(start, samples, poll, gap, lag) && start <= t0 && lag >= 0.0
    requires IdleAfter(samples, t0) && k <= |samples|
    ensures LastActive(start, samples, k) <= t0 + lag
  {
    if k > 0 {
      LastActiveBound(start, samples, poll, gap, lag, t0, k - 1);
    }
  }

  /** A worker idle from `t0` on stops by `t0 + ttl` and one sampling gap, plus the
      time a clock reading may lag its listing, once sampling has gone on so long. */
  lemma {:induction false} IdleWorkerStops(start: real, ttl: real, samples: seq<Sample>,
                                           poll: real, gap: real, lag: real,
                                           t0: real, n: nat)
    requires Timed(start, samples, poll, gap, lag) && start <= t0 && lag >= 0.0 && ttl > 0.0 && IdleAfter(samples, t0)
    requires n < |samples| && samples[n].read >= t0 + lag + ttl
    ensures exists k: nat :: StopsAt(start, ttl, samples, k) && samples[k].read <= t0 + ttl + gap + lag
    decreases n
  {
    if n > 0 && samples[n - 1].read >= t0 + lag + ttl {
      IdleWorkerStops(start, ttl, samples, poll, gap, lag, t0, n - 1);
    } else {
      LastActiveBound(start, samples, poll, gap, lag, t0, n);
      assert samples[n].listed > t0 && ExpiresAt(start, ttl, samples, n);
      var k := FirstExpiry(start, ttl, samples, n);
      ReadsGrow(start, samples, poll, gap, lag, k, n);
      if n > 0 {
        assert samples[n - 1 + 1].read <= samples[n - 1].read + gap;
      }
    }
  }

  lemma {:induction false} FirstExpiry(start: real, ttl: real, samples: seq<Sample>, n: nat) returns (k: nat)
    requires n < |samples| && ExpiresAt(start, ttl, samples, n)
    ensures k <= n && StopsAt(start, ttl, samples, k)
  {
    k := 0;
    while !ExpiresAt(start, ttl, samples, k)
      invariant k <= n && forall j | 0 <= j < k :: !ExpiresAt(start, ttl, samples, j)
      decreases n - k
    {
      k := k + 1;
    }
  }
}
