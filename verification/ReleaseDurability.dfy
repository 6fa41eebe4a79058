/** `runWorkerReleaseDurability` and `validateDurableReleaseStatus`
    (`internal/refsworkspace/unity_phase2_release.go`) over a volume with volatile and durable contents.
    A release may leave anything behind, a flush may keep nothing, and a detach may drop or keep any
    change: the proof rests on what the reattached volume shows. */
module ReleaseDurability {
  import opened Leases
  import opened MountedResidual

  datatype Evidence = Evidence(
    releaseAttempted: bool, releaseSucceeded: bool, flushAttempted: bool, flushSucceeded: bool,
    detachAttempted: bool, detachSucceeded: bool, reattachAttempted: bool, reattachSucceeded: bool,
    removeAttempted: bool, removeSucceeded: bool)

  const NO_EVIDENCE := Evidence(false, false, false, false, false, false, false, false, false, false)

  /** Each link of the chain was tried only after the links before it had succeeded; the flush is always
      tried. */
  ghost predicate PrefixClosed(e: Evidence) {
    && e.releaseAttempted && e.flushAttempted
    && (e.detachAttempted ==> e.releaseSucceeded && e.flushSucceeded)
    && (e.detachSucceeded ==> e.detachAttempted)
    && (e.reattachAttempted ==> e.detachSucceeded)
    && (e.reattachSucceeded ==> e.reattachAttempted)
    && (e.removeAttempted ==> e.reattachSucceeded)
    && (e.removeSucceeded ==> e.removeAttempted)
  }

  /** What `Status` reports: its verdict, the status of the whole residual, the mounted metrics, those taken
      after the detach (reparse points, mount entries, attached disks), and the count of owned VHDX files. */
  datatype StatusResult = StatusResult(
    ready: bool, status: FinalStatus, mounted: Residual, detached: seq<Metric>, ownedVHDX: Metric)

  /** Positions, in the mounted metrics, of active uses, journals, workers, worker staging, quarantine,
      reservations, coordination artifacts, junctions, unknown lease and unknown worker entries. */
  const CHECKED: seq<nat> := [0, 1, 2, 5, 9, 10, 13, 15, 6, 8]

  /** One operation on the site, with its outcome. */
  datatype SiteOp = LeaseReleased(ok: bool) | Flushed(ok: bool) | Detached(ok: bool) | Reported(ok: bool) | Removed(ok: bool)

  /** The operations that some evidence stands for. */
  ghost function OpsOf(e: Evidence): seq<SiteOp> {
    [LeaseReleased(e.releaseSucceeded), Flushed(e.flushSucceeded)] + DetachedOps(e)
  }

  ghost function DetachedOps(e: Evidence): seq<SiteOp> {
    (if e.detachAttempted then [Detached(e.detachSucceeded)] else [])
    + (if e.reattachAttempted then [Reported(e.reattachSucceeded)] else [])
    + if e.removeAttempted then [Removed(e.removeSucceeded)] else []
  }

  /** What the final status depends on besides the pool: whether it can be attached, whether a status comes
      with it and says ready, the metrics taken after the detach, and the owned VHDX files. */
  datatype Report = Report(attaches: bool, present: bool, ready: bool, detached: seq<Metric>, ownedVHDX: Metric)

  class Site {
    var mounted: Option<Pool>
    var durable: Pool
    var poolRemoved: bool
    const inspect: DirEntry -> JunctionEvidence
    const report: Report
    var ops: seq<SiteOp>

    constructor (pool: Pool, durable: Pool, inspect: DirEntry -> JunctionEvidence, report: Report)
      ensures mounted == Some(pool) && this.durable == durable && !poolRemoved && ops == []
      ensures this.inspect == inspect && this.report == report
    {
      mounted, this.durable, poolRemoved, this.inspect, this.report, ops := Some(pool), durable, false, inspect, report, [];
    }

    /** A release or a flush: the environment may do anything to the volume. */
    method Operate(flush: bool) returns (ok: bool)
      requires mounted.Some?
      modifies this`mounted, this`durable, this`ops
      ensures mounted.Some? && ops == old(ops) + [if flush then Flushed(ok) else LeaseReleased(ok)]
    {
      var kept: Pool, change: Pool := *, *;
      ok := *;
      durable, mounted, ops := kept, Some(change), ops + [if flush then Flushed(ok) else LeaseReleased(ok)];
    }

    /** The detach may drop or keep any change. */
    method Detach() returns (ok: bool)
      requires mounted.Some?
      modifies this`mounted, this`durable, this`ops
      ensures (ok ==> mounted == None) && ops == old(ops) + [Detached(ok)]
    {
      var kept: Pool, change: Pool := *, *;
      ok := *;
      durable, mounted, ops := kept, if ok then None else Some(change), ops + [Detached(ok)];
    }

    /** `Status` on the detached pool: it attaches it, so it sees the durable contents. */
    method ReportStatus() returns (ok: bool, status: Option<StatusResult>)
      requires mounted == None
      modifies this`ops
      ensures ops == old(ops) + [Reported(ok)]
      ensures ok <==> report.attaches && !UnreadableJournal(durable.leases, inspect)
      ensures status.Some? <==> ok && report.present
      ensures status.Some? ==> status.value.ready == report.ready && status.value.detached == report.detached
                               && status.value.ownedVHDX == report.ownedVHDX && status.value.mounted.metrics == Measured(durable, inspect)
      ensures status.Some? ==> (AllZero(status.value.mounted.metrics) <==> OnlyCanonicalBaselines(durable))
      ensures status.Some? ==>
                (status.value.status == FinalZero <==>
                  OnlyCanonicalBaselines(durable) && AllZero(report.detached) && report.ownedVHDX.measured)
    {
      var residual, failed := MeasureMountedResidual(durable, inspect);
      if failed || !report.attaches {
        ops := ops + [Reported(false)];
        return false, None;
      }
      ops := ops + [Reported(true)];
      var final := ResidualStatus(residual.metrics + report.detached, report.ownedVHDX);
      AllZeroConcat(residual.metrics, report.detached);
      return true, if report.present then Some(StatusResult(report.ready, final, residual, report.detached, report.ownedVHDX)) else None;
    }

    method RemovePool() returns (ok: bool)
      requires mounted == None
      modifies this`poolRemoved, this`ops
      ensures (old(poolRemoved) || ok ==> poolRemoved) && ops == old(ops) + [Removed(ok)]
    {
      ok := *;
      var effect: bool := *;
      ops := ops + [Removed(ok)];
      poolRemoved := poolRemoved || ok || effect;
    }
  }

  lemma AllZeroConcat(a: seq<Metric>, b: seq<Metric>)
    ensures AllZero(a + b) <==> AllZero(a) && AllZero(b)
  {
    assert forall i :: 0 <= i < |a| ==> a[i] == (a + b)[i];
    assert forall i :: 0 <= i < |b| ==> b[i] == (a + b)[|a| + i];
  }

  /** The reported status says zero, the metrics that are looked at once more are zero, and there is exactly
      one owned VHDX. */
  ghost predicate DurablyClean(status: Option<StatusResult>) {
    && status.Some? && |status.value.mounted.metrics| == 16
    && status.value.ready && status.value.status == FinalZero
    && (forall i :: 0 <= i < |CHECKED| ==> status.value.mounted.metrics[CHECKED[i]] == Metric(true, 0))
    && status.value.ownedVHDX == Metric(true, 1)
  }

  method ValidateDurableReleaseStatus(status: Option<StatusResult>) returns (ok: bool)
    requires status.Some? ==> |status.value.mounted.metrics| == 16
    ensures ok <==> DurablyClean(status)
  {
    if status == None || !status.value.ready || status.value.status != FinalZero {
      return false;
    }
    var metrics := status.value.mounted.metrics;
    for i := 0 to |CHECKED|
      invariant forall j :: 0 <= j < i ==> metrics[CHECKED[j]] == Metric(true, 0)
    {
      if metrics[CHECKED[i]] != Metric(true, 0) {
        return false;
      }
    }
    return status.value.ownedVHDX == Metric(true, 1);
  }

  /** A status that reports what it measured passes exactly when everything was measured zero: the second
      look at ten metrics never changes the verdict. */
  lemma SecondLookAgrees(status: StatusResult)
    requires |status.mounted.metrics| == 16
    requires status.status == FinalZero ==> AllZero(status.mounted.metrics)
    ensures DurablyClean(Some(status)) <==> status.ready && status.status == FinalZero && status.ownedVHDX == Metric(true, 1)
  {
    if status.status == FinalZero {
      forall i | 0 <= i < |CHECKED|
        ensures status.mounted.metrics[CHECKED[i]] == Metric(true, 0)
      {
        assert CHECKED[i] < 16;
      }
    }
  }

  /** Which of the evidence writes succeed, in their order, and whether the hook before the detach does. */
  datatype Writes = Writes(first: bool, second: bool, beforeDetach: bool, detach: bool, status: bool, remove: bool)

  /** Each link is tried if and only if all before it held: release, a measurable and clean mounted volume,
      flush, detach, reattach, a clean durable volume. `measured` is the volume right after the release. */
  ghost predicate ExactChain(e: Evidence, w: Writes, measured: Pool, unmeasured: bool, status: Option<StatusResult>) {
    && e.releaseAttempted && e.flushAttempted
    && (e.detachAttempted <==>
          e.releaseSucceeded && e.flushSucceeded && !unmeasured && OnlyCanonicalBaselines(measured)
          && w.first && w.second && w.beforeDetach)
    && (e.reattachAttempted <==> e.detachAttempted && e.detachSucceeded && w.detach)
    && (e.removeAttempted <==> e.reattachAttempted && e.reattachSucceeded && w.status && DurablyClean(status))
    && (e.detachSucceeded ==> e.detachAttempted) && (e.reattachSucceeded ==> e.reattachAttempted)
    && (e.removeSucceeded ==> e.removeAttempted)
  }

  const MOUNTED_DONE := NO_EVIDENCE.(releaseAttempted := true, releaseSucceeded := true, flushAttempted := true, flushSucceeded := true)

  /** The chain from the detach on. */
  method ProveDurability(site: Site, writes: Writes) returns (e: Evidence, ok: bool, ghost status: Option<StatusResult>)
    requires site.mounted.Some? && !site.poolRemoved
    modifies site
    ensures e == MOUNTED_DONE.(detachAttempted := true, detachSucceeded := e.detachSucceeded, reattachAttempted := e.reattachAttempted,
                               reattachSucceeded := e.reattachSucceeded, removeAttempted := e.removeAttempted, removeSucceeded := e.removeSucceeded)
    ensures e.reattachAttempted <==> e.detachSucceeded && writes.detach
    ensures e.removeAttempted <==> e.reattachAttempted && e.reattachSucceeded && writes.status && DurablyClean(status)
    ensures (e.reattachSucceeded ==> e.reattachAttempted) && (e.removeSucceeded ==> e.removeAttempted)
    ensures site.ops == old(site.ops) + DetachedOps(e)
    ensures ok <==> e.removeSucceeded && writes.remove
    ensures e.removeSucceeded ==> site.poolRemoved
    ensures site.poolRemoved ==> e.removeAttempted && OnlyCanonicalBaselines(site.durable)
  {
    e, ok, status := MOUNTED_DONE.(detachAttempted := true), false, None;
    var detached := site.Detach();
    e := e.(detachSucceeded := detached);
    if !detached || !writes.detach {
      return;
    }
    e := e.(reattachAttempted := true);
    var reported, reportedStatus := site.ReportStatus();
    status := reportedStatus;
    e := e.(reattachSucceeded := reported);
    if !reported || !writes.status {
      return;
    }
    var valid := ValidateDurableReleaseStatus(reportedStatus);
    if !valid {
      return;
    }
    e := e.(removeAttempted := true);
    var removed := site.RemovePool();
    e := e.(removeSucceeded := removed);
    ok := removed && writes.remove;
  }

  /** The chain on the mounted volume: release, measurement, and the flush, which is always tried. */
  method ReleaseAndFlush(site: Site) returns (e: Evidence, clean: bool, ghost measured: Pool)
    requires site.mounted.Some?
    modifies site`mounted, site`durable, site`ops
    ensures site.mounted.Some?
    ensures e == MOUNTED_DONE.(releaseSucceeded := e.releaseSucceeded, flushSucceeded := e.flushSucceeded)
    ensures clean <==> !UnreadableJournal(measured.leases, site.inspect) && OnlyCanonicalBaselines(measured)
    ensures site.ops == old(site.ops) + [LeaseReleased(e.releaseSucceeded), Flushed(e.flushSucceeded)]
  {
    var released := site.Operate(false);
    measured := site.mounted.value;
    var residual, unmeasured := MeasureMountedResidual(site.mounted.value, site.inspect);
    var flushed := site.Operate(true);
    e := MOUNTED_DONE.(releaseSucceeded := released, flushSucceeded := flushed);
    clean := !unmeasured && residual.status == MountedZero;
  }

  /** For every outcome of its operations: the flush is tried, the evidence chain is exact and reports what
      the operations said, and the pool is taken down only when the durable contents hold nothing but
      canonical baselines. */
  method RunWorkerReleaseDurability(site: Site, writes: Writes)
    returns (e: Evidence, ok: bool, ghost measured: Pool, ghost status: Option<StatusResult>)
    requires site.mounted.Some? && !site.poolRemoved
    modifies site
    ensures PrefixClosed(e)
    ensures ExactChain(e, writes, measured, UnreadableJournal(measured.leases, site.inspect), status)
    ensures site.ops == old(site.ops) + OpsOf(e)
    ensures ok <==> e.removeSucceeded && writes.remove
    ensures e.removeSucceeded ==> site.poolRemoved
    ensures site.poolRemoved ==> e.removeAttempted && OnlyCanonicalBaselines(site.durable)
  {
    status := None;
    var clean;
    ghost var before := site.ops;
    e, clean, measured := ReleaseAndFlush(site);
    if !e.releaseSucceeded || !clean || !writes.first || !e.flushSucceeded || !writes.second || !writes.beforeDetach {
      assert DetachedOps(e) == [];
      return e, false, measured, status;
    }
    e, ok, status := ProveDurability(site, writes);
    assert before + [LeaseReleased(true), Flushed(true)] + DetachedOps(e) == before + OpsOf(e);
  }
}
