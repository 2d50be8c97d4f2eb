/**
 * The per-device nursery pass, in its sequential view.  The object stream is
 * a finite sequence; the device's cancel signal is a flag that another
 * goroutine may set while one object is being processed; statistics go to an
 * append-only event log; the process-wide concurrency semaphore is a counter;
 * every call of Stabilize on an object is recorded in a log.
 */
module NurseryStabilizer {
  import opened Wrappers
  import opened Consistency

  /** The statistics a pass reports (each with amount 1). */
  datatype Metric = StartRun | Checkin | PassComplete

  /** The two results of the mount check of the device's path. */
  datatype MountCheck = MountCheck(mounted: bool, failed: bool)

  /** An object handle from the nursery; only its metadata is read. */
  datatype Object = Object(metadata: Metadata)

  /**
   * One pass of the scheduler's loop, as the environment delivers it: the
   * objects the engine streams, the mount check result, the peers' answers,
   * and the object (if any) during whose processing the cancel signal is
   * closed.  A close index past the last object processed means the signal
   * is closed after the walk, during the rest between passes.
   */
  datatype Round = Round(objects: seq<Object>, mount: MountCheck, probe: Probe, closeAt: Option<nat>)

  // ---------------------------------------------------------------------
  // What one pass does, as functions of its inputs

  /** The pass stops before touching any object. */
  predicate MountAborts(checkMounts: bool, mount: MountCheck)
  {
    checkMounts && (mount.failed || !mount.mounted)
  }

  /** The cancel signal is seen in the select after object k. */
  predicate StopsAfter(canceled: bool, closeAt: Option<nat>, n: nat, k: nat)
  {
    k < n && (if canceled then k == 0 else closeAt == Some(k))
  }

  /** The number of objects checked in: all of them, or up to the one after which cancellation is seen. */
  function Visited(aborted: bool, canceled: bool, closeAt: Option<nat>, n: nat): nat
  {
    if aborted || n == 0 then 0
    else if canceled then 1
    else if closeAt.Some? && closeAt.value < n then closeAt.value + 1
    else n
  }

  /** The cancel signal is seen in the select after some object of the walk. */
  predicate CancelSeen(canceled: bool, closeAt: Option<nat>, n: nat)
  {
    n > 0 && (canceled || (closeAt.Some? && closeAt.value < n))
  }

  /** The walk ends by exhausting the stream, not by a mount failure or cancellation. */
  predicate Completes(aborted: bool, canceled: bool, closeAt: Option<nat>, n: nat)
  {
    !aborted && !CancelSeen(canceled, closeAt, n)
  }

  function Repeat(m: Metric, k: nat): seq<Metric>
  {
    if k == 0 then [] else Repeat(m, k - 1) + [m]
  }

  /** The statistics one pass emits, in order. */
  function PassStats(aborted: bool, canceled: bool, closeAt: Option<nat>, n: nat): seq<Metric>
  {
    [StartRun] + Repeat(Checkin, Visited(aborted, canceled, closeAt, n))
    + (if Completes(aborted, canceled, closeAt, n) then [PassComplete] else [])
  }

  /** The verdict on each object, for a given device, ring and peer answers. */
  function Verdicts(dev: Device, ring: Ring, probe: Probe): Object -> bool
  {
    (o: Object) => Verdict(dev, ring, probe, o.metadata)
  }

  /** The objects of `objs` that pass `verdict`, in stream order. */
  function Accepted(verdict: Object -> bool, objs: seq<Object>): seq<Object>
  {
    if |objs| == 0 then []
    else Accepted(verdict, objs[..|objs| - 1])
         + (if verdict(objs[|objs| - 1]) then [objs[|objs| - 1]] else [])
  }

  /** The statistics of the scheduler's rounds, which stop at the first round that closes the cancel signal. */
  function LoopStats(checkMounts: bool, canceled: bool, rounds: seq<Round>): seq<Metric>
    decreases |rounds|
  {
    if canceled || |rounds| == 0 then []
    else
      var r := rounds[0];
      PassStats(MountAborts(checkMounts, r.mount), false, r.closeAt, |r.objects|)
      + LoopStats(checkMounts, r.closeAt.Some?, rounds[1..])
  }

  /** The objects one round, started with the cancel signal open, stabilizes. */
  function RoundStabilized(dev: Device, ring: Ring, checkMounts: bool, r: Round): seq<Object>
  {
    Accepted(Verdicts(dev, ring, r.probe), r.objects[..Visited(MountAborts(checkMounts, r.mount), false, r.closeAt, |r.objects|)])
  }

  /** The objects the scheduler's rounds stabilize. */
  function LoopStabilized(dev: Device, ring: Ring, checkMounts: bool, canceled: bool, rounds: seq<Round>): seq<Object>
    decreases |rounds|
  {
    if canceled || |rounds| == 0 then []
    else RoundStabilized(dev, ring, checkMounts, rounds[0])
         + LoopStabilized(dev, ring, checkMounts, rounds[0].closeAt.Some?, rounds[1..])
  }

  /** Some round closes the cancel signal. */
  predicate AnyClose(rounds: seq<Round>)
    decreases |rounds|
  {
    |rounds| > 0 && (rounds[0].closeAt.Some? || AnyClose(rounds[1..]))
  }

  // ---------------------------------------------------------------------
  // Properties of a pass

  lemma Append3<T>(a: seq<T>, b: seq<T>, c: seq<T>)
    ensures a + b + c == a + (b + c)
  {
  }

  /** The statistics of a pass that gets past the mount check: startRun, then what the walk emits. */
  lemma PassStatsAfterStart(before: seq<Metric>, canceled: bool, closeAt: Option<nat>, n: nat)
    ensures before + [StartRun] + (Repeat(Checkin, Visited(false, canceled, closeAt, n))
              + (if CancelSeen(canceled, closeAt, n) then [] else [PassComplete]))
            == before + PassStats(false, canceled, closeAt, n)
  {
    Append3(before, [StartRun], Repeat(Checkin, Visited(false, canceled, closeAt, n))
              + (if CancelSeen(canceled, closeAt, n) then [] else [PassComplete]));
  }

  /** One round of the scheduler's loop, taken from the rounds still to run. */
  lemma LoopStep(dev: Device, ring: Ring, checkMounts: bool, rounds: seq<Round>, j: nat)
    requires j < |rounds|
    ensures var r := rounds[j];
      LoopStats(checkMounts, false, rounds[j..])
        == PassStats(MountAborts(checkMounts, r.mount), false, r.closeAt, |r.objects|)
           + LoopStats(checkMounts, r.closeAt.Some?, rounds[j + 1..]) &&
      LoopStabilized(dev, ring, checkMounts, false, rounds[j..])
        == RoundStabilized(dev, ring, checkMounts, r)
           + LoopStabilized(dev, ring, checkMounts, r.closeAt.Some?, rounds[j + 1..]) &&
      AnyClose(rounds[j..]) == (r.closeAt.Some? || AnyClose(rounds[j + 1..]))
  {
    assert rounds[j..][0] == rounds[j] && rounds[j..][1..] == rounds[j + 1..];
  }

  /** Accepting one more object of the stream, after what was accepted before. */
  lemma AcceptedStep(before: seq<Object>, verdict: Object -> bool, objs: seq<Object>, i: nat)
    requires i < |objs|
    ensures before + Accepted(verdict, objs[..i]) + Accepted(verdict, [objs[i]])
            == before + Accepted(verdict, objs[..i + 1])
  {
    assert objs[..i + 1][..i] == objs[..i];
    assert [objs[i]][..0] == [];
    Append3(before, Accepted(verdict, objs[..i]), Accepted(verdict, [objs[i]]));
  }

  lemma {:induction false} RepeatCount(m: Metric, k: nat, x: Metric)
    ensures multiset(Repeat(m, k))[x] == if x == m then k else 0
  {
    if k > 0 {
      RepeatCount(m, k - 1, x);
    }
  }

  /**
   * startRun comes first and once; there is one checkin per object checked
   * in; PassComplete comes last, once, exactly when the walk completes.
   */
  lemma PassStatsShape(aborted: bool, canceled: bool, closeAt: Option<nat>, n: nat)
    ensures var s := PassStats(aborted, canceled, closeAt, n);
      s[0] == StartRun &&
      multiset(s)[StartRun] == 1 &&
      multiset(s)[Checkin] == Visited(aborted, canceled, closeAt, n) &&
      multiset(s)[PassComplete] == (if Completes(aborted, canceled, closeAt, n) then 1 else 0) &&
      (Completes(aborted, canceled, closeAt, n) ==> s[|s| - 1] == PassComplete)
  {
    var v := Visited(aborted, canceled, closeAt, n);
    RepeatCount(Checkin, v, StartRun);
    RepeatCount(Checkin, v, Checkin);
    RepeatCount(Checkin, v, PassComplete);
  }

  /** A failed mount check ends the pass after startRun: nothing is checked in or completed. */
  lemma MountFailureTouchesNothing(canceled: bool, closeAt: Option<nat>, n: nat)
    ensures PassStats(true, canceled, closeAt, n) == [StartRun]
    ensures Visited(true, canceled, closeAt, n) == 0
  {
  }

  /**
   * Cancellation seen after object k stops the walk there: k + 1 objects are
   * checked in, the rest are not, and PassComplete is not emitted.
   */
  lemma CancelStopsWalk(canceled: bool, closeAt: Option<nat>, n: nat, k: nat)
    requires StopsAfter(canceled, closeAt, n, k)
    ensures Visited(false, canceled, closeAt, n) == k + 1
    ensures !Completes(false, canceled, closeAt, n)
  {
  }

  /** Cancellation is seen exactly when there is an object after which it is seen. */
  lemma CancelSeenAt(canceled: bool, closeAt: Option<nat>, n: nat)
    ensures CancelSeen(canceled, closeAt, n) <==> exists k :: StopsAfter(canceled, closeAt, n, k)
  {
    if CancelSeen(canceled, closeAt, n) {
      assert StopsAfter(canceled, closeAt, n, if canceled then 0 else closeAt.value);
    }
  }

  /** Without a mount failure or cancellation every object is checked in and the pass completes. */
  lemma UncanceledPassCompletes(closeAt: Option<nat>, n: nat)
    requires closeAt.None? || closeAt.value >= n
    ensures Visited(false, false, closeAt, n) == n
    ensures Completes(false, false, closeAt, n)
  {
  }

  /**
   * Stabilize is called on an object exactly when its verdict is true, once
   * for each time it is delivered, and on nothing that was not delivered.
   */
  lemma {:induction false} AcceptedExactly(verdict: Object -> bool, objs: seq<Object>, o: Object)
    ensures multiset(Accepted(verdict, objs))[o] == if verdict(o) then multiset(objs)[o] else 0
  {
    if |objs| > 0 {
      var init := objs[..|objs| - 1];
      AcceptedExactly(verdict, init, o);
      assert objs == init + [objs[|objs| - 1]];
    }
  }

  /** Once the cancel signal is closed the scheduler runs no further pass. */
  lemma {:induction false} StoppedIsTerminal(dev: Device, ring: Ring, checkMounts: bool, rounds: seq<Round>, k: nat)
    requires k < |rounds| && rounds[k].closeAt.Some?
    ensures LoopStats(checkMounts, false, rounds) == LoopStats(checkMounts, false, rounds[..k + 1])
    ensures LoopStabilized(dev, ring, checkMounts, false, rounds) == LoopStabilized(dev, ring, checkMounts, false, rounds[..k + 1])
  {
    if k > 0 && rounds[0].closeAt.None? {
      StoppedIsTerminal(dev, ring, checkMounts, rounds[1..], k - 1);
      assert rounds[..k + 1][1..] == rounds[1..][..k];
    }
  }

  // ---------------------------------------------------------------------
  // The device scanner

  class NurseryDevice {
    const dev: Device
    const ring: Ring
    const checkMounts: bool
    /** The device's cancel signal has been closed. */
    var canceled: bool
    /** The statistics emitted so far. */
    var stats: seq<Metric>
    /** The objects Stabilize was called on, in call order. */
    var stabilized: seq<Object>
    /** Slots of the concurrency semaphore currently held. */
    var sem: nat

    constructor (dev: Device, ring: Ring, checkMounts: bool)
      ensures this.dev == dev && this.ring == ring && this.checkMounts == checkMounts
      ensures !canceled && stats == [] && stabilized == [] && sem == 0
    {
      this.dev := dev;
      this.ring := ring;
      this.checkMounts := checkMounts;
      canceled := false;
      stats := [];
      stabilized := [];
      sem := 0;
    }

    /** Closes the cancel signal; closing it twice would panic. */
    method Cancel()
      requires !canceled
      modifies this
      ensures canceled
      ensures stats == old(stats) && stabilized == old(stabilized) && sem == old(sem)
    {
      canceled := true;
    }

    method UpdateStat(m: Metric)
      modifies this
      ensures stats == old(stats) + [m]
      ensures canceled == old(canceled) && stabilized == old(stabilized) && sem == old(sem)
    {
      stats := stats + [m];
    }

    /** The object engine's promotion; only the call is recorded. */
    method Stabilize(o: Object)
      modifies this
      ensures stabilized == old(stabilized) + [o]
      ensures canceled == old(canceled) && stats == old(stats) && sem == old(sem)
    {
      stabilized := stabilized + [o];
    }

    /** Decides whether object `o` is fully replicated, asking the peers through `probe`. */
    method ValidateObj(o: Object, probe: Probe) returns (ok: bool)
      ensures ok == Verdict(dev, ring, probe, o.metadata)
    {
      var md := o.metadata;
      var name := Meta(md, NameKey);
      var ns := GoStrings.SplitN(name, '/', 4);
      if |ns| != 4 {
        return false;
      }
      var partition := ring.partition(ns[1], ns[2], ns[3]);
      assert Locate(ring, name) == Some(partition);
      if ring.isHandoff(partition, dev.id) {
        return false;
      }
      var nodes := ring.nodes(partition);
      var goodNodes := 0;
      for i := 0 to |nodes|
        invariant goodNodes == GoodCount(dev, probe, partition, md, nodes[..i])
      {
        assert nodes[..i + 1][..i] == nodes[..i];
        var node := nodes[i];
        if IsSelf(dev, node) {
          continue;
        }
        var resp := probe(node, partition, name);
        if IsGood(resp, md) {
          goodNodes := goodNodes + 1;
        }
      }
      assert nodes[..|nodes|] == nodes;
      return goodNodes + 1 == ring.replicaCount;
    }

    /** Checks one object while holding a semaphore slot, and promotes it when its verdict is true. */
    method CheckObject(o: Object, probe: Probe)
      modifies this
      ensures sem == old(sem)
      ensures stabilized == old(stabilized) + Accepted(Verdicts(dev, ring, probe), [o])
      ensures canceled == old(canceled) && stats == old(stats)
    {
      sem := sem + 1;
      var ok := ValidateObj(o, probe);
      if ok {
        Stabilize(o);
      }
      sem := sem - 1;
    }

    /**
     * The walk over the streamed objects: check each in, check it, and stop
     * at the select after an object once the cancel signal is closed.
     * `closeAt` names the object during whose processing the signal is
     * closed, if that happens in this walk.
     */
    method WalkObjects(objs: seq<Object>, probe: Probe, closeAt: Option<nat>)
      requires closeAt.Some? ==> !canceled
      modifies this
      ensures sem == old(sem)
      ensures stats == old(stats) + Repeat(Checkin, Visited(false, old(canceled), closeAt, |objs|))
        + (if CancelSeen(old(canceled), closeAt, |objs|) then [] else [PassComplete])
      ensures stabilized == old(stabilized) + Accepted(Verdicts(dev, ring, probe), objs[..Visited(false, old(canceled), closeAt, |objs|)])
      ensures canceled == (old(canceled) || (closeAt.Some? && closeAt.value < |objs|))
    {
      var n := |objs|;
      ghost var verdict := Verdicts(dev, ring, probe);
      var i := 0;
      while i < n
        invariant 0 <= i <= n
        invariant sem == old(sem)
        invariant canceled == old(canceled)
        invariant old(canceled) ==> i == 0
        invariant closeAt.Some? ==> closeAt.value >= i
        invariant stats == old(stats) + Repeat(Checkin, i)
        invariant stabilized == old(stabilized) + Accepted(verdict, objs[..i])
      {
        UpdateStat(Checkin);
        Append3(old(stats), Repeat(Checkin, i), [Checkin]);
        CheckObject(objs[i], probe);
        AcceptedStep(old(stabilized), verdict, objs, i);
        assert stabilized == old(stabilized) + Accepted(verdict, objs[..i + 1]);
        if closeAt == Some(i) {
          canceled := true;
        }
        if canceled {
          assert Visited(false, old(canceled), closeAt, n) == i + 1;
          return;
        }
        assert closeAt.Some? ==> closeAt.value > i;
        i := i + 1;
      }
      assert objs[..n] == objs;
      UpdateStat(PassComplete);
    }

    /**
     * One pass over the device's nursery: startRun, then the mount check,
     * then the walk.
     */
    method StabilizeDevice(objs: seq<Object>, mount: MountCheck, probe: Probe, closeAt: Option<nat>)
      requires closeAt.Some? ==> !canceled
      modifies this
      ensures sem == old(sem)
      ensures stats == old(stats) + PassStats(MountAborts(checkMounts, mount), old(canceled), closeAt, |objs|)
      ensures stabilized == old(stabilized)
        + Accepted(Verdicts(dev, ring, probe), objs[..Visited(MountAborts(checkMounts, mount), old(canceled), closeAt, |objs|)])
      ensures canceled == (old(canceled) || (closeAt.Some? && !MountAborts(checkMounts, mount) && closeAt.value < |objs|))
    {
      UpdateStat(StartRun);
      if checkMounts && (mount.failed || !mount.mounted) {
        assert objs[..0] == [];
        return;
      }
      WalkObjects(objs, probe, closeAt);
      PassStatsAfterStart(old(stats), old(canceled), closeAt, |objs|);
    }

    /**
     * The scheduler: checks the cancel signal before every pass and stops for
     * good once it is closed; otherwise runs the next round's pass.
     */
    method StabilizeLoop(rounds: seq<Round>)
      modifies this
      ensures sem == old(sem)
      ensures stats == old(stats) + LoopStats(checkMounts, old(canceled), rounds)
      ensures stabilized == old(stabilized) + LoopStabilized(dev, ring, checkMounts, old(canceled), rounds)
      ensures canceled == (old(canceled) || AnyClose(rounds))
    {
      var j := 0;
      while j < |rounds|
        invariant 0 <= j <= |rounds|
        invariant sem == old(sem)
        invariant (old(canceled) || AnyClose(rounds)) == (canceled || AnyClose(rounds[j..]))
        invariant old(stats) + LoopStats(checkMounts, old(canceled), rounds)
                  == stats + LoopStats(checkMounts, canceled, rounds[j..])
        invariant old(stabilized) + LoopStabilized(dev, ring, checkMounts, old(canceled), rounds)
                  == stabilized + LoopStabilized(dev, ring, checkMounts, canceled, rounds[j..])
      {
        if canceled {
          return;
        }
        var r := rounds[j];
        LoopStep(dev, ring, checkMounts, rounds, j);
        ghost var stats0, stabilized0 := stats, stabilized;
        StabilizeDevice(r.objects, r.mount, r.probe, r.closeAt);
        Append3(stats0, PassStats(MountAborts(checkMounts, r.mount), false, r.closeAt, |r.objects|),
                LoopStats(checkMounts, r.closeAt.Some?, rounds[j + 1..]));
        Append3(stabilized0, RoundStabilized(dev, ring, checkMounts, r),
                LoopStabilized(dev, ring, checkMounts, r.closeAt.Some?, rounds[j + 1..]));
        if r.closeAt.Some? && !canceled {
          Cancel();
        }
        j := j + 1;
      }
    }
  }

  // ---------------------------------------------------------------------
  // The scenarios of Consistency, run through a whole pass of a new scanner

  /** A pass over one object, with the mount check passed and no cancellation. */
  lemma SinglePass(verdict: Object -> bool, o: Object)
    ensures [o][..Visited(false, false, None, 1)] == [o]
    ensures Accepted(verdict, [o]) == if verdict(o) then [o] else []
    ensures PassStats(false, false, None, 1) == [StartRun, Checkin, PassComplete]
  {
    assert [o][..0] == [];
  }

  /**
   * Both peers agree on the single object /A/C/O: the pass calls Stabilize
   * on it once and logs startRun, one checkin and PassComplete.
   */
  method ScenarioPassPromotes(dev: Device, p1: Device, p2: Device, ring: Ring, probe: Probe, md: Metadata)
      returns (d: NurseryDevice)
    requires Scenario(dev, p1, p2, ring, md)
    requires probe(p1, ring.partition("A", "C", "O"), "/A/C/O") == Some(Response(200, "100", "100"))
    requires probe(p2, ring.partition("A", "C", "O"), "/A/C/O") == Some(Response(404, "100", "100"))
    ensures d.stabilized == [Object(md)]
    ensures d.stats == [StartRun, Checkin, PassComplete]
    ensures !d.canceled && d.sem == 0
  {
    d := new NurseryDevice(dev, ring, true);
    d.StabilizeDevice([Object(md)], MountCheck(true, false), probe, None);
    assert Verdicts(dev, ring, probe)(Object(md)) by {
      ScenarioBothAgree(dev, p1, p2, ring, probe, md);
    }
    SinglePass(Verdicts(dev, ring, probe), Object(md));
  }

  /**
   * One peer reports another meta timestamp: the pass still checks the
   * object in and completes, but never calls Stabilize.
   */
  method ScenarioPassMetaMismatch(dev: Device, p1: Device, p2: Device, ring: Ring, probe: Probe, md: Metadata)
      returns (d: NurseryDevice)
    requires Scenario(dev, p1, p2, ring, md)
    requires probe(p1, ring.partition("A", "C", "O"), "/A/C/O") == Some(Response(200, "100", "100"))
    requires probe(p2, ring.partition("A", "C", "O"), "/A/C/O") == Some(Response(404, "100", "99"))
    ensures d.stabilized == []
    ensures d.stats == [StartRun, Checkin, PassComplete]
    ensures !d.canceled && d.sem == 0
  {
    d := new NurseryDevice(dev, ring, true);
    d.StabilizeDevice([Object(md)], MountCheck(true, false), probe, None);
    assert !Verdicts(dev, ring, probe)(Object(md)) by {
      ScenarioMetaMismatch(dev, p1, p2, ring, probe, md);
    }
    SinglePass(Verdicts(dev, ring, probe), Object(md));
  }
}
