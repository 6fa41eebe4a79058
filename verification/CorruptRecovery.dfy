/** `RecoverCorruptReleasedWorkerResidual` (`internal/refsworkspace/corrupt_release_recovery.go`): a
    resumable recovery that deletes one corrupt worker journal and one stale marker. The receipt and the
    backups lie on the host and are durable; the journal and the marker lie on the volume, where a crash
    or an unflushed detach may bring a deleted file back, and a flush that succeeds promises nothing unless
    it is honest. `faults` bounds the failures still injected. */
module CorruptRecovery {
  import opened Leases
  import opened ByteStrings

  type Digest = Bytes -> int

  datatype Phase = Captured | JournalRemoved | MarkerRemoved | VolumeFlushed | AbsenceVerified | PoolRemoved

  /** The two files on the volume, whether the other entries the phase test looks at are absent, and whether
      those it does not look at are: creation locks, staging and unknown entries of the baselines, and
      probe directories. */
  datatype Volume = Volume(journal: Option<Bytes>, marker: Option<Bytes>, watchedClean: bool, otherClean: bool)

  const ZERO := Volume(None, None, true, true)

  datatype World = World(
    durable: Volume, mounted: Option<Volume>, artifactRoot: bool, receipt: Option<Phase>,
    journalBackup: Option<Bytes>, markerBackup: Option<Bytes>, poolRemoved: bool)

  /** The hashes pinned by the diagnosis. */
  datatype Diagnosis = Diagnosis(journal: int, marker: int)

  ghost predicate Backed(w: World, d: Diagnosis, digest: Digest) {
    && w.receipt.Some?
    && w.journalBackup.Some? && digest(w.journalBackup.value) == d.journal
    && w.markerBackup.Some? && digest(w.markerBackup.value) == d.marker
  }

  /** A file may be missing, durably or not, only once both backups with the pinned hashes and a receipt
      exist; the pool is gone only after both files are durably gone and the receipt says so; and the artifacts lie in their directory. */
  ghost predicate Safe(w: World, d: Diagnosis, digest: Digest) {
    && (w.durable.journal == None || w.durable.marker == None ==> Backed(w, d, digest))
    && (w.mounted.Some? && (w.mounted.value.journal == None || w.mounted.value.marker == None) ==> Backed(w, d, digest))
    && (w.poolRemoved ==> w.durable == ZERO && w.receipt in {Some(AbsenceVerified), Some(PoolRemoved)})
    && (w.receipt.Some? || w.journalBackup.Some? || w.markerBackup.Some? ==> w.artifactRoot)
  }

  ghost predicate AllSafe(history: seq<World>, d: Diagnosis, digest: Digest) {
    forall i :: 0 <= i < |history| ==> Safe(history[i], d, digest)
  }

  function ExpectedMarkers(phase: Option<Phase>): nat {
    match phase
    case None | Some(Captured) | Some(JournalRemoved) => 1
    case _ => 0
  }

  function ExpectedJournals(phase: Option<Phase>): nat {
    match phase
    case None | Some(Captured) => 1
    case _ => 0
  }

  predicate Supported(phase: Option<Phase>) { phase != Some(PoolRemoved) }

  /** The shape test of `validateCorruptRecoveryPhase`: the volume is in the state the receipt describes. */
  predicate Agrees(v: Volume, phase: Option<Phase>, d: Diagnosis, digest: Digest) {
    && Supported(phase) && v.watchedClean
    && (v.journal.Some? <==> ExpectedJournals(phase) == 1) && (v.marker.Some? <==> ExpectedMarkers(phase) == 1)
    && (v.journal.Some? ==> digest(v.journal.value) == d.journal)
    && (v.marker.Some? ==> digest(v.marker.value) == d.marker)
  }

  /** Phase by phase: which of the two pinned files has to be there, and that the other is not. */
  lemma AgreesByPhase(v: Volume, phase: Option<Phase>, d: Diagnosis, digest: Digest)
    ensures var journal := v.journal.Some? && digest(v.journal.value) == d.journal;
            var marker := v.marker.Some? && digest(v.marker.value) == d.marker;
            Agrees(v, phase, d, digest) <==>
              && v.watchedClean
              && match phase
                 case None | Some(Captured) => journal && marker
                 case Some(JournalRemoved) => v.journal == None && marker
                 case Some(PoolRemoved) => false
                 case _ => v.journal == None && v.marker == None
  {
  }

  ghost predicate Mixture(x: Volume, durable: Volume, volatile: Volume) {
    && (x.journal == durable.journal || x.journal == volatile.journal)
    && (x.marker == durable.marker || x.marker == volatile.marker)
    && (x.watchedClean == durable.watchedClean || x.watchedClean == volatile.watchedClean)
    && (x.otherClean == durable.otherClean || x.otherClean == volatile.otherClean)
  }

  lemma MixtureTwice(y: Volume, x: Volume, durable: Volume, volatile: Volume)
    requires Mixture(x, durable, volatile) && (y == x || Mixture(y, x, volatile))
    ensures Mixture(y, durable, volatile)
  {
  }

  method AnyMixture(a: Volume, b: Volume) returns (x: Volume)
    ensures Mixture(x, a, b)
  {
    var j: bool, m: bool, w: bool, o: bool := *, *, *, *;
    x := Volume(if j then a.journal else b.journal, if m then a.marker else b.marker,
                if w then a.watchedClean else b.watchedClean, if o then a.otherClean else b.otherClean);
  }

  /** The backups a receipt promises, or none where there is none. */
  ghost predicate BackupsFit(w: World, d: Diagnosis, digest: Digest) {
    if w.receipt.Some? then Backed(w, d, digest) else w.journalBackup == None && w.markerBackup == None
  }

  /** A call that meets no failure gets as far as the deletions exactly when the receipt, the backups and the
      durable volume tell the same story. An artifact directory without a receipt is refused for good. */
  ghost predicate Startable(w: World, d: Diagnosis, digest: Digest) {
    && w.mounted == None && !w.poolRemoved
    && (w.artifactRoot <==> w.receipt.Some?)
    && Agrees(w.durable, w.receipt, d, digest)
    && BackupsFit(w, d, digest)
  }

  /** And it gets through when the entries the phase test does not look at are absent as well. */
  ghost predicate Resumable(w: World, d: Diagnosis, digest: Digest) {
    Startable(w, d, digest) && w.durable.otherClean
  }

  /** One operation of a call, whatever became of it. */
  datatype Op =
    | ReadReceipt | MakeRoot | MountPool | CheckIdentities | WriteJournalBackup | WriteMarkerBackup | ReadBackups
    | UnlinkJournal | UnlinkMarker | FlushVolume | DetachPool | ReportStatus | RemoveWholePool | WriteReceipt(phase: Phase)

  // What a successful call does, as the receipt it finds demands.

  function OpenOps(root: bool): seq<Op> { if root then [ReadReceipt] else [MakeRoot] }

  function BackupOps(receipt: Option<Phase>): seq<Op> {
    if receipt == None then [WriteJournalBackup, WriteMarkerBackup, WriteReceipt(Captured)] else [ReadBackups]
  }

  function DeleteOps(phase: Phase): seq<Op> {
    match phase
    case Captured => [UnlinkJournal, WriteReceipt(JournalRemoved)] + [UnlinkMarker, WriteReceipt(MarkerRemoved)]
    case JournalRemoved => [UnlinkMarker, WriteReceipt(MarkerRemoved)]
    case _ => []
  }

  const FLUSH_OPS := [FlushVolume, WriteReceipt(VolumeFlushed), DetachPool]
  const VERIFY_OPS := [ReportStatus, WriteReceipt(AbsenceVerified), RemoveWholePool, WriteReceipt(PoolRemoved)]

  function WorkOps(receipt: Option<Phase>): seq<Op> {
    BackupOps(receipt) + DeleteOps(if receipt == None then Captured else receipt.value)
  }

  function RecoverOps(root: bool, receipt: Option<Phase>): seq<Op> {
    OpenOps(root) + ([MountPool, CheckIdentities] + (WorkOps(receipt) + (FLUSH_OPS + VERIFY_OPS)))
  }

  lemma Associative(a: seq<Op>, b: seq<Op>, c: seq<Op>)
    ensures a + b + c == a + (b + c)
  {
  }

  class Recovery {
    const diagnosis: Diagnosis
    const digest: Digest
    var world: World
    var faults: nat
    const honestFlush: bool
    var history: seq<World>
    ghost var trace: seq<Op>
    /** How many calls were begun. */
    ghost var begun: nat

    constructor (world: World, diagnosis: Diagnosis, digest: Digest, faults: nat, honestFlush: bool)
      requires Safe(world, diagnosis, digest)
      ensures Recorded() && this.world == world && this.diagnosis == diagnosis && this.digest == digest
      ensures this.faults == faults && this.honestFlush == honestFlush && trace == [] && begun == 0
    {
      this.world, this.diagnosis, this.digest, this.faults, this.honestFlush := world, diagnosis, digest, faults, honestFlush;
      history, trace, begun := [world], [], 0;
    }

    ghost predicate Recorded()
      reads this
    {
      history != [] && history[|history| - 1] == world && AllSafe(history, diagnosis, digest)
    }

    twostate predicate Extended()
      reads this
    {
      Recorded() && old(history) <= history && faults <= old(faults)
    }

    /** A part of a call that succeeds has done all of this, and nothing failed. */
    twostate predicate Did(ok: bool, ops: seq<Op>)
      reads this
    {
      ok ==> faults == old(faults) && trace == old(trace) + ops
    }

    method Become(w: World)
      requires Recorded() && Safe(w, diagnosis, digest)
      modifies this`world, this`history
      ensures Extended() && world == w
    {
      world := w;
      history := history + [w];
    }

    method Fails(op: Op) returns (failed: bool)
      modifies this`faults, this`trace
      ensures faults <= old(faults) && (failed <==> faults < old(faults)) && trace == old(trace) + [op]
    {
      trace := trace + [op];
      failed := *;
      failed := failed && faults > 0;
      if failed {
        faults := faults - 1;
      }
    }

    /** An operation that succeeds, or fails with or without its effect. */
    method Attempt(w: World, op: Op) returns (ok: bool)
      requires Recorded() && Safe(w, diagnosis, digest)
      modifies this`world, this`history, this`faults, this`trace
      ensures trace == old(trace) + [op]
      ensures Extended() && (!ok <==> faults < old(faults))
      ensures (ok ==> world == w) && (world == w || world == old(world))
    {
      var failed := Fails(op);
      var effect: bool := *;
      if !failed || effect {
        Become(w);
      }
      ok := !failed;
    }

    /** A crash, or a detach that was not preceded by a flush: any mixture may have become durable. */
    method Crash()
      requires Recorded()
      modifies this`world, this`history
      ensures Extended() && world == old(world).(durable := world.durable, mounted := None)
      ensures if old(world.mounted) == None then world.durable == old(world.durable)
              else Mixture(world.durable, old(world.durable), old(world.mounted.value))
    {
      if world.mounted.Some? {
        var v := AnyMixture(world.durable, world.mounted.value);
        if world.poolRemoved {
          v := world.durable;
        }
        Become(world.(durable := v, mounted := None));
      }
    }

    /** The first run takes the backups, then writes the receipt that makes the run resumable. */
    method Capture() returns (ok: bool)
      requires Recorded() && world.mounted.Some? && !world.poolRemoved && world.receipt == None && world.artifactRoot
      requires Agrees(world.mounted.value, None, diagnosis, digest) && world.durable == world.mounted.value
      modifies this`world, this`history, this`faults, this`trace
      ensures Extended() && world.mounted == old(world.mounted) && world.durable == old(world.durable) && !world.poolRemoved
      ensures ok ==> world.receipt == Some(Captured) && Backed(world, diagnosis, digest)
      ensures ok ==> old(world.journalBackup) == None && old(world.markerBackup) == None
      ensures !ok ==> faults < old(faults) || old(world.journalBackup.Some? || world.markerBackup.Some?)
      ensures Did(ok, BackupOps(None))
    {
      if world.journalBackup.Some? || world.markerBackup.Some? {
        return false;  // exclusive creation
      }
      ok := Attempt(world.(journalBackup := world.mounted.value.journal), WriteJournalBackup);
      if !ok { return; }
      ok := Attempt(world.(markerBackup := world.mounted.value.marker), WriteMarkerBackup);
      if !ok { return; }
      ok := Attempt(world.(receipt := Some(Captured)), WriteReceipt(Captured));
    }

    /** `removeExactHashedFile` on the journal, then the receipt; nothing is removed before the backups and
        the receipt exist. */
    method RemoveJournal() returns (ok: bool)
      requires Recorded() && Working() && world.receipt == Some(Captured)
      modifies this`world, this`history, this`faults, this`trace
      ensures Extended() && Working() && world.durable == old(world.durable) && world.receipt.Some?
      ensures ok ==> world.receipt == Some(JournalRemoved) && world.mounted == Some(old(world.mounted.value).(journal := None))
      ensures !ok ==> faults < old(faults) || old(world.mounted.value.journal) == None
                      || digest(old(world.mounted.value.journal).value) != diagnosis.journal
      ensures Did(ok, [UnlinkJournal, WriteReceipt(JournalRemoved)])
      ensures world.mounted.value.journal != old(world.mounted.value.journal) ==>
                old(world.mounted.value.journal).Some? && digest(old(world.mounted.value.journal).value) == diagnosis.journal
      ensures world.mounted == Some(old(world.mounted.value).(journal := world.mounted.value.journal))
    {
      var v := world.mounted.value;
      if v.journal == None || digest(v.journal.value) != diagnosis.journal {
        return false;
      }
      ok := Attempt(world.(mounted := Some(v.(journal := None))), UnlinkJournal);
      if !ok { return; }
      ok := Attempt(world.(receipt := Some(JournalRemoved)), WriteReceipt(JournalRemoved));
    }

    method RemoveMarker() returns (ok: bool)
      requires Recorded() && Working() && world.receipt == Some(JournalRemoved)
      modifies this`world, this`history, this`faults, this`trace
      ensures Extended() && Working() && world.durable == old(world.durable) && world.receipt.Some?
      ensures ok ==> world.receipt == Some(MarkerRemoved) && world.mounted == Some(old(world.mounted.value).(marker := None))
      ensures !ok ==> faults < old(faults) || old(world.mounted.value.marker) == None
                      || digest(old(world.mounted.value.marker).value) != diagnosis.marker
      ensures Did(ok, [UnlinkMarker, WriteReceipt(MarkerRemoved)])
      ensures world.mounted.value.marker != old(world.mounted.value.marker) ==>
                old(world.mounted.value.marker).Some? && digest(old(world.mounted.value.marker).value) == diagnosis.marker
      ensures world.mounted == Some(old(world.mounted.value).(marker := world.mounted.value.marker))
    {
      var v := world.mounted.value;
      if v.marker == None || digest(v.marker.value) != diagnosis.marker {
        return false;
      }
      ok := Attempt(world.(mounted := Some(v.(marker := None))), UnlinkMarker);
      if !ok { return; }
      ok := Attempt(world.(receipt := Some(MarkerRemoved)), WriteReceipt(MarkerRemoved));
    }

    /** Mounted, backed up, pool still there. */
    ghost predicate Working()
      reads this
    {
      world.mounted.Some? && !world.poolRemoved && Backed(world, diagnosis, digest)
    }

    /** The deletions, each guarded by the phase the receipt records. */
    method DeleteArtifacts() returns (ok: bool)
      requires Recorded() && Working() && Agrees(world.mounted.value, world.receipt, diagnosis, digest)
      modifies this`world, this`history, this`faults, this`trace
      ensures Extended() && Working() && world.durable == old(world.durable) && world.receipt.Some?
      ensures ok ==> world.mounted == Some(ZERO.(otherClean := old(world.mounted.value.otherClean)))
      ensures !ok ==> faults < old(faults)
      ensures Did(ok, DeleteOps(old(world.receipt).value))
    {
      if world.receipt == Some(Captured) {
        ok := RemoveJournal();
        if !ok { return; }
      }
      if world.receipt == Some(JournalRemoved) {
        ok := RemoveMarker();
        if !ok { return; }
      }
      ok := true;
    }

    /** A flush that fails keeps any part, one that succeeds keeps all if it is honest. */
    method Flush() returns (ok: bool)
      requires Recorded() && Working()
      modifies this`world, this`history, this`faults, this`trace
      ensures Extended() && Working() && world == old(world).(durable := world.durable)
      ensures Mixture(world.durable, old(world.durable), old(world.mounted.value))
      ensures ok && honestFlush ==> world.durable == world.mounted.value
      ensures ok <==> faults == old(faults)
      ensures Did(ok, [FlushVolume])
    {
      var failed := Fails(FlushVolume);
      var v := AnyMixture(world.durable, world.mounted.value);
      if !failed && honestFlush {
        v := world.mounted.value;
      }
      Become(world.(durable := v));
      ok := !failed;
    }

    /** Flush, note it in the receipt, detach: with an honest flush what is durable now is what was mounted. */
    method FlushAndDetach() returns (ok: bool)
      requires Recorded() && Working()
      modifies this`world, this`history, this`faults, this`trace
      ensures Extended() && !world.poolRemoved && Backed(world, diagnosis, digest)
      ensures Mixture(world.durable, old(world.durable), old(world.mounted.value))
      ensures ok ==> world == old(world).(durable := world.durable, mounted := None, receipt := Some(VolumeFlushed))
      ensures ok && honestFlush ==> world.durable == old(world.mounted.value)
      ensures ok <==> faults == old(faults)
      ensures Did(ok, FLUSH_OPS)
    {
      ok := Flush();
      if !ok { return; }
      ok := Attempt(world.(receipt := Some(VolumeFlushed)), WriteReceipt(VolumeFlushed));
      if !ok { return; }
      ghost var flushed := world.durable;
      ok := Detach();
      MixtureTwice(world.durable, flushed, old(world.durable), old(world.mounted.value));
    }

    /** A detach that fails leaves the volume attached. */
    method Detach() returns (ok: bool)
      requires Recorded() && Working()
      modifies this`world, this`history, this`faults, this`trace
      ensures Extended() && (ok <==> faults == old(faults))
      ensures world == old(world).(durable := world.durable, mounted := if ok then None else old(world.mounted))
      ensures if ok then Mixture(world.durable, old(world.durable), old(world.mounted.value)) else world.durable == old(world.durable)
      ensures Did(ok, [DetachPool])
    {
      var stayed := Fails(DetachPool);
      if !stayed {
        Crash();
      }
      ok := !stayed;
    }

    /** Look at the reattached volume, and only then remove the pool. */
    method VerifyAndRemove() returns (ok: bool)
      requires Recorded() && !world.poolRemoved && world.mounted == None && Backed(world, diagnosis, digest)
      modifies this`world, this`history, this`faults, this`trace
      ensures Extended() && world.durable == old(world.durable)
      ensures ok ==> world.poolRemoved && world.receipt == Some(PoolRemoved)
      ensures world.poolRemoved ==> world.durable == ZERO
      ensures ok <==> faults == old(faults) && old(world.durable) == ZERO
      ensures old(world.durable) != ZERO ==> world == old(world)
      ensures Did(ok, VERIFY_OPS)
    {
      var unmeasured := Fails(ReportStatus);
      if unmeasured || world.durable != ZERO {
        return false;
      }
      ok := Attempt(world.(receipt := Some(AbsenceVerified)), WriteReceipt(AbsenceVerified));
      if !ok { return; }
      ok := Attempt(world.(poolRemoved := true), RemoveWholePool);
      if !ok { return; }
      ok := Attempt(world.(receipt := Some(PoolRemoved)), WriteReceipt(PoolRemoved));
    }

    /** `openRecoveryArtifactRoot`: an existing directory must hold a readable receipt, a new one is made. */
    method OpenArtifacts() returns (ok: bool)
      requires Recorded() && world.mounted == None
      modifies this`world, this`history, this`faults, this`trace
      ensures Extended() && world == old(world).(artifactRoot := world.artifactRoot)
      ensures ok ==> world.artifactRoot && (old(world.artifactRoot) <==> world.receipt.Some?)
      ensures !ok ==> faults < old(faults) || (old(world.artifactRoot) && world.receipt == None)
      ensures Did(ok, OpenOps(old(world.artifactRoot)))
    {
      if world.artifactRoot {
        var unreadable := Fails(ReadReceipt);
        return !unreadable && world.receipt.Some?;
      }
      ok := Attempt(world.(artifactRoot := true), MakeRoot);
    }

    /** The pool is mounted and must be in the state the receipt describes; otherwise it is detached again. */
    method MountAndValidate() returns (ok: bool)
      requires Recorded() && world.mounted == None && !world.poolRemoved
      modifies this`world, this`history, this`faults, this`trace
      ensures Extended() && world.(mounted := None) == old(world)
      ensures if ok then world.mounted == Some(world.durable) else world.mounted == None
      ensures ok ==> Agrees(world.durable, world.receipt, diagnosis, digest)
      ensures !ok ==> faults < old(faults) || !Agrees(world.durable, world.receipt, diagnosis, digest)
      ensures Did(ok, [MountPool, CheckIdentities])
    {
      var unmounted := Fails(MountPool);
      if unmounted { return false; }
      var invalid := Fails(CheckIdentities);  // pool, volume, baseline and receipt identities
      if invalid || !Agrees(world.durable, world.receipt, diagnosis, digest) {
        return false;
      }
      Become(world.(mounted := Some(world.durable)));
      ok := true;
    }

    /** First run: take the backups. Resumed run: the backups on the host must still be the pinned ones. */
    method EnsureBackups() returns (ok: bool)
      requires Recorded() && world.mounted == Some(world.durable) && !world.poolRemoved && world.artifactRoot
      requires Agrees(world.durable, world.receipt, diagnosis, digest)
      modifies this`world, this`history, this`faults, this`trace
      ensures Extended() && world.mounted == old(world.mounted) && world.durable == old(world.durable) && !world.poolRemoved
      ensures ok ==> Backed(world, diagnosis, digest) && Agrees(world.durable, world.receipt, diagnosis, digest)
      ensures ok ==> old(BackupsFit(world, diagnosis, digest))
      ensures !ok ==> faults < old(faults) || !old(BackupsFit(world, diagnosis, digest))
      ensures Did(ok, BackupOps(old(world.receipt)))
    {
      if world.receipt == None {
        ok := Capture();
      } else {
        ok := BackupsMatch();
      }
    }

    /** One call, first or resumed. Disagreement between receipt, backups and volume ends it before any
        deletion; it succeeds only on a resumable world and, with an honest flush and no failure, on every
        one. An entry the phase test does not look at stops it too late: both files are deleted, the pool
        stays, and the call is resumable once the entry is gone. */
    method Recover() returns (ok: bool)
      requires Recorded() && world.mounted == None
      modifies this`world, this`history, this`faults, this`trace, this`begun
      ensures begun == old(begun) + 1
      ensures Extended()
      ensures ok ==> world.poolRemoved && old(Resumable(world, diagnosis, digest))
      ensures world.poolRemoved && !old(world.poolRemoved) ==> world.durable == ZERO && old(world.durable.otherClean)
      ensures !old(Agrees(world.durable, world.receipt, diagnosis, digest)) ==>
                !ok && world == old(world).(artifactRoot := world.artifactRoot)
      ensures old(faults) == 0 && honestFlush && old(Resumable(world, diagnosis, digest)) ==> ok
      ensures old(faults) == 0 && honestFlush && old(Startable(world, diagnosis, digest)) && !old(world.durable.otherClean) ==>
                !ok && world.durable == ZERO.(otherClean := false) && Backed(world, diagnosis, digest)
                && Resumable(world.(durable := ZERO), diagnosis, digest)
      ensures Did(ok, RecoverOps(old(world.artifactRoot), old(world.receipt)))
    {
      begun := begun + 1;
      if world.poolRemoved {
        return false;
      }
      ghost var t, root, receipt := trace, world.artifactRoot, world.receipt;
      ok := OpenArtifacts();
      if !ok { return; }
      ok := MountAndValidate();
      if !ok { return; }
      ok := BackUpAndDelete();
      if !ok { return; }
      ok := PersistAndRemove();
      InOrder(t, root, receipt);
    }

    lemma InOrder(t: seq<Op>, root: bool, receipt: Option<Phase>)
      ensures t + OpenOps(root) + [MountPool, CheckIdentities] + WorkOps(receipt) + (FLUSH_OPS + VERIFY_OPS) == t + RecoverOps(root, receipt)
    {
      var rest := FLUSH_OPS + VERIFY_OPS;
      Associative(t, OpenOps(root), [MountPool, CheckIdentities] + (WorkOps(receipt) + rest));
      Associative(t + OpenOps(root), [MountPool, CheckIdentities], WorkOps(receipt) + rest);
      Associative(t + OpenOps(root) + [MountPool, CheckIdentities], WorkOps(receipt), rest);
    }

    /** The backups, and the deletions that the receipt still asks for. */
    method BackUpAndDelete() returns (ok: bool)
      requires Recorded() && world.mounted == Some(world.durable) && !world.poolRemoved && world.artifactRoot
      requires Agrees(world.durable, world.receipt, diagnosis, digest)
      modifies this`world, this`history, this`faults, this`trace
      ensures Extended() && world.durable == old(world.durable) && !world.poolRemoved && world.mounted.Some?
      ensures ok ==> Backed(world, diagnosis, digest) && world.mounted == Some(ZERO.(otherClean := old(world.durable.otherClean)))
      ensures ok ==> old(BackupsFit(world, diagnosis, digest))
      ensures !ok ==> faults < old(faults) || !old(BackupsFit(world, diagnosis, digest))
      ensures Did(ok, WorkOps(old(world.receipt)))
    {
      ghost var t, receipt := trace, world.receipt;
      ok := EnsureBackups();
      if !ok { return; }
      ok := DeleteArtifacts();
      Associative(t, BackupOps(receipt), DeleteOps(if receipt == None then Captured else receipt.value));
    }

    /** Flush, detach, and the removal of the pool. */
    method PersistAndRemove() returns (ok: bool)
      requires Recorded() && Working()
      modifies this`world, this`history, this`faults, this`trace
      ensures Extended()
      ensures ok ==> world.poolRemoved && world.receipt == Some(PoolRemoved)
      ensures world.poolRemoved ==> world.durable == ZERO
      ensures Mixture(world.durable, old(world.durable), old(world.mounted.value))
      ensures faults == old(faults) && honestFlush ==>
                world.durable == old(world.mounted.value) && (ok <==> old(world.mounted.value) == ZERO)
      ensures old(world.mounted.value) != ZERO && faults == old(faults) && honestFlush ==>
                world == old(world).(durable := old(world.mounted.value), mounted := None, receipt := Some(VolumeFlushed))
      ensures Did(ok, FLUSH_OPS + VERIFY_OPS)
    {
      ghost var t := trace;
      ok := FlushAndDetach();
      if !ok { return; }
      ok := VerifyAndRemove();
      Associative(t, FLUSH_OPS, VERIFY_OPS);
    }

    method BackupsMatch() returns (ok: bool)
      modifies this`faults, this`trace
      ensures faults <= old(faults)
      ensures ok ==> world.journalBackup.Some? && digest(world.journalBackup.value) == diagnosis.journal
                     && world.markerBackup.Some? && digest(world.markerBackup.value) == diagnosis.marker
      ensures !ok ==> faults < old(faults) || world.journalBackup == None || world.markerBackup == None
                      || digest(world.journalBackup.value) != diagnosis.journal || digest(world.markerBackup.value) != diagnosis.marker
      ensures Did(ok, [ReadBackups])
    {
      var unreadable := Fails(ReadBackups);
      ok := !unreadable
            && world.journalBackup.Some? && digest(world.journalBackup.value) == diagnosis.journal
            && world.markerBackup.Some? && digest(world.markerBackup.value) == diagnosis.marker;
    }

    /** Power loss inside a call that began when the history had `from` worlds: some recorded world since then
        is the last one reached. */
    method PowerLoss(from: nat)
      requires Recorded() && 0 < from <= |history|
      modifies this`world, this`history
      ensures Recorded() && old(history)[..from] <= history && world.mounted == None
    {
      var k: nat := *;
      if k < from - 1 || k >= |history| {
        k := |history| - 1;
      }
      world, history := history[k], history[..k + 1];
      Crash();
    }

    /** Any number of calls, each failing anywhere and each possibly cut by a power loss at any world it
        reached, after which the next call finds what survived: the history stays safe. */
    method RecoverRepeatedly(calls: nat) returns (done: bool)
      requires Recorded() && world.mounted == None
      modifies this
      ensures Recorded() && old(history) <= history && (done ==> world.poolRemoved)
      ensures !done ==> begun == old(begun) + calls
    {
      done := false;
      for i := 0 to calls
        invariant Recorded() && old(history) <= history && world.mounted == None && (done ==> world.poolRemoved)
        invariant !done ==> begun == old(begun) + i
      {
        if !done {
          ghost var before := history;
          var from := |history|;
          done := Recover();
          var powerLoss: bool := *;
          if powerLoss {
            PowerLoss(from);
            done := false;
          } else {
            Crash();  // the deferred detach
          }
          assert old(history) <= before;
        }
      }
    }

    /** Receipt and volume that disagree are refused for ever: no number of calls changes anything. A crash
        that brings a file back after the receipt recorded its removal makes such a world. */
    method RefusedForEver(calls: nat) returns (done: bool)
      requires Recorded() && world.mounted == None && !world.poolRemoved
      requires !Agrees(world.durable, world.receipt, diagnosis, digest)
      modifies this
      ensures Recorded() && !done && world == old(world).(artifactRoot := world.artifactRoot) && begun == old(begun) + calls
    {
      done := false;
      for i := 0 to calls
        invariant Recorded() && !done && world == old(world).(artifactRoot := world.artifactRoot) && begun == old(begun) + i
      {
        done := Recover();
        Crash();
      }
    }
  }

  /** Captured is the phase whose repetition is harmless: from it, and from the later phases once the
      deletions are durable, the very worlds a clean interruption leaves are resumable. */
  lemma DurableInterruptionIsResumable(w: World, d: Diagnosis, digest: Digest)
    requires Resumable(w, d, digest) && w.receipt.Some?
    ensures w.receipt == Some(Captured) ==>
              Resumable(w.(durable := w.durable.(journal := None), receipt := Some(JournalRemoved)), d, digest)
    ensures w.receipt == Some(JournalRemoved) ==>
              Resumable(w.(durable := w.durable.(marker := None), receipt := Some(MarkerRemoved)), d, digest)
  {
  }
}
