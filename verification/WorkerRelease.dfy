/** `WorkerLease.MarkRunning` and `WorkerLease.Release` (`internal/refsworkspace/worker.go`): a release
    that may fail at any operation and be called again on the same object.

    `Volume` is the part of the disk one lease owns, with a ghost history of every state it went
    through. `faults` counts the failures the environment will still inject; each failing operation
    uses one up. A failing journal write, junction removal or journal removal may or may not have taken
    effect. The other failures leave the disk alone, unless the volume `tears`: then a failed rename or
    marker removal may have happened, and a failed deletion may have taken the owner file with it.
    `recheckFails` lets the owner check right after the rename fail; `loseNext` loses the next journal
    write, which then fails without effect. `sight` says whether the existence tests can be trusted:
    `pathExists` reports every error of `Lstat` as absence. */
module WorkerRelease {
  import opened Leases

  /** The journal's milestones: `WorkerMetadata` without its identity fields. */
  datatype Journal = Journal(
    state: LeaseState, junctionRemoved: bool, ownerVerified: bool, quarantined: bool, deleted: bool, useReleased: bool)

  datatype Directory = Gone | There(ownerFile: bool)

  datatype Disk = Disk(journal: Option<Journal>, marker: bool, worker: Directory, quarantine: Directory, junction: bool)

  const ALL_GONE := Disk(None, false, Gone, Gone, false)

  /** `earlier` promises nothing that `later` does not. */
  ghost predicate Behind(earlier: Journal, later: Journal) {
    && Rank(earlier.state) <= Rank(later.state)
    && (earlier.junctionRemoved ==> later.junctionRemoved) && (earlier.ownerVerified ==> later.ownerVerified)
    && (earlier.quarantined ==> later.quarantined) && (earlier.deleted ==> later.deleted)
    && (earlier.useReleased ==> later.useReleased)
  }

  /** Every milestone the durable journal claims has happened. */
  ghost predicate Truthful(d: Disk) {
    d.journal.Some? ==>
      var j := d.journal.value;
      && (j.junctionRemoved ==> !d.junction)
      && (j.quarantined ==> d.worker == Gone)
      && (j.deleted ==> d.worker == Gone && d.quarantine == Gone)
      && (j.useReleased ==> !d.marker)
      && (j.state == Released ==> d.(journal := None) == ALL_GONE)
  }

  /** While a worker tree exists under either name, its baseline marker exists and its journal exists
      and does not say `released`. */
  ghost predicate Safe(d: Disk) {
    && (d.worker.There? || d.quarantine.There? ==> d.marker && d.journal.Some? && d.journal.value.state != Released)
    && Truthful(d)
  }

  /** What a journal can say. */
  ghost predicate WellFormed(j: Journal) {
    && j.state in {Ready, Running, Releasing, Quarantined, Released}
    && (j.state in {Ready, Running} ==> !j.junctionRemoved)
    && (j.quarantined ==> j.junctionRemoved) && (j.quarantined <==> j.ownerVerified)
    && (j.quarantined <==> j.state in {Quarantined, Released})
    && (j.deleted ==> j.quarantined) && (j.useReleased ==> j.deleted) && (j.state == Released ==> j.useReleased)
  }

  /** The journal is ahead of the disk: nothing has gone before the milestone in front of it was durable. */
  ghost predicate Ahead(d: Disk) {
    d.journal.Some? ==>
      var j := d.journal.value;
      && (!d.junction ==> Rank(j.state) >= Rank(Releasing))
      && (d.worker == Gone ==> j.junctionRemoved)
      && (d.worker == Gone && d.quarantine == Gone ==> j.quarantined)
      && (!d.marker ==> j.deleted)
  }

  /** No tree, marker or junction that is gone comes back; a surviving journal never takes a claim back,
      and a journal that was gone comes back only to say `released`. It goes only from there. */
  ghost predicate Forward(a: Disk, b: Disk) {
    && (a.worker == Gone ==> b.worker == Gone)
    && (a.worker == Gone && a.quarantine == Gone ==> b.quarantine == Gone)
    && (!a.marker ==> !b.marker) && (!a.junction ==> !b.junction)
    && (a.journal.Some? && b.journal.Some? ==> Behind(a.journal.value, b.journal.value))
    && (a.journal == None && b.journal.Some? ==> b.journal.value.state == Released)
    && (a.journal.Some? && b.journal == None ==> a.journal.value.state == Released)
  }

  ghost predicate AllSafe(history: seq<Disk>) {
    forall i :: 0 <= i < |history| ==> Safe(history[i])
  }

  ghost predicate AllAhead(history: seq<Disk>) {
    forall i :: 0 <= i < |history| ==> Ahead(history[i])
  }

  ghost predicate AllForward(history: seq<Disk>) {
    forall i :: 0 <= i < |history| - 1 ==> Forward(history[i], history[i + 1])
  }

  /** Whether existence tests can be trusted: always; never quite, each wrong answer being one of the
      injected failures; or never for the quarantine entry, whose directory denies the query. */
  datatype Sight = Clear | Unreliable | QuarantineHidden

  datatype Stage =
    AtReleasing | AtJunctionRemoved | AtQuarantined | AtDeleted | AtUseReleased | AtReleased | BeforeLeaseDelete | AtLeaseDeleted

  /** One operation of a release, whatever became of it. `quarantined` says at which of the two names. */
  datatype Op =
    | Cancellation | WriteJournal(journal: Journal) | RunHook(stage: Stage) | UnlinkJunction | Measure
    | TestPath(quarantined: bool) | CheckOwner(quarantined: bool) | MakeQuarantine | Rename | DeleteTree
    | ReadMarker | UnlinkMarker | UnlinkJournal

  class Volume {
    var disk: Disk
    var faults: nat
    const tears: bool
    /** The owner check right after the move may fail. */
    const recheckFails: bool
    const sight: Sight
    var loseNext: bool
    ghost var history: seq<Disk>
    ghost var trace: seq<Op>
    /** How many recorded disks their journal was behind. */
    ghost var unlogged: nat
    /** How long the history was when a release took an existing quarantine copy for absent. */
    ghost var misledAt: Option<nat>

    /** Every recorded disk is safe if and only if no release was misled, or none has done anything since. */
    ghost predicate Recorded()
      reads this
    {
      && history != [] && history[|history| - 1] == disk && AllForward(history)
      && (AllSafe(history) <==> misledAt == None || misledAt == Some(|history|))
      && (misledAt.Some? ==> misledAt.value <= |history|) && (AllAhead(history) <==> unlogged == 0)
    }

    constructor (disk: Disk, faults: nat, tears: bool, recheckFails: bool, loseNext: bool, sight: Sight)
      requires Safe(disk) && Ahead(disk)
      ensures Recorded() && unlogged == 0 && this.disk == disk && this.faults == faults && this.tears == tears
      ensures this.recheckFails == recheckFails && this.sight == sight
      ensures history == [disk] && misledAt == None && this.loseNext == loseNext
    {
      this.disk, this.faults, this.tears, this.recheckFails, this.sight := disk, faults, tears, recheckFails, sight;
      this.loseNext, trace, unlogged, history, misledAt := loseNext, [], 0, [disk], None;
    }

    /** What an operation has to lead to: a safe disk, unless the release was misled; then every further
        effect breaks safety. */
    ghost predicate Admissible(d: Disk)
      reads this
    {
      Forward(disk, d) && (Safe(d) <==> misledAt == None)
    }

    /** One atomic operation: the new state joins the history. */
    method Become(d: Disk)
      modifies this`disk, this`history, this`unlogged
      ensures disk == d && history == old(history) + [d]
      ensures unlogged == old(unlogged) + if Ahead(d) then 0 else 1
      ensures old(Recorded() && Admissible(d)) ==> Recorded()
    {
      disk := d;
      history := history + [d];
      if !Ahead(d) {
        unlogged := unlogged + 1;
      }
      assert forall i :: 0 <= i < |old(history)| ==> history[i] == old(history)[i];
      assert history[|history| - 1] == d;
    }

    /** The existence test; `quarantined` says which of the two names it looks at. */
    method PathExists(directory: Directory, quarantined: bool) returns (seen: bool)
      modifies this`faults, this`trace
      ensures faults <= old(faults) && (seen ==> directory.There?) && trace == old(trace) + [TestPath(quarantined)]
      ensures sight == Clear || directory == Gone || seen ==> faults == old(faults)
      ensures directory.There? && !seen ==>
                (sight != Clear && faults < old(faults)) || (sight == QuarantineHidden && quarantined)
      ensures sight == QuarantineHidden && quarantined ==> !seen
    {
      trace := trace + [TestPath(quarantined)];
      if directory == Gone || (sight == QuarantineHidden && quarantined) {
        return false;
      }
      var wrong := false;
      if sight != Clear {
        wrong := Strikes();
      }
      seen := !wrong;
    }

    /** Records that a release goes on past an existing copy. */
    ghost method Mislead()
      requires Recorded() && misledAt == None
      modifies this`misledAt
      ensures Recorded() && misledAt == Some(|history|)
    {
      misledAt := Some(|history|);
    }

    /** An operation that changes nothing: a hook, a read, a cancellation test. */
    method Fails(op: Op) returns (failed: bool)
      modifies this`faults, this`trace
      ensures (if failed then faults + 1 else faults) == old(faults) && trace == old(trace) + [op]
    {
      trace := trace + [op];
      failed := Strikes();
    }

    /** The environment uses up one of its failures, or not. */
    method Strikes() returns (failed: bool)
      modifies this`faults
      ensures (if failed then faults + 1 else faults) == old(faults)
    {
      failed := *;
      failed := failed && faults > 0;
      if failed {
        faults := faults - 1;
      }
    }

    /** An operation that leads to `done`; if it fails it may nevertheless have led to `torn`. */
    method Attempt(done: Disk, torn: Disk, op: Op) returns (ok: bool)
      modifies this`disk, this`faults, this`history, this`trace, this`unlogged
      ensures (if ok then faults else faults + 1) == old(faults) && trace == old(trace) + [op]
      ensures ok ==> disk == done && history == old(history) + [done]
      ensures !ok ==> disk == torn || disk == old(disk)
      ensures !ok && history != old(history) ==> disk == torn
      ensures history == old(history) || history == old(history) + [disk]
      ensures if history == old(history) then disk == old(disk) && unlogged == old(unlogged)
              else unlogged == old(unlogged) + if Ahead(disk) then 0 else 1
      ensures old(Recorded() && Admissible(done) && Admissible(torn)) ==> Recorded()
    {
      var failed := Fails(op);
      var effect: bool := *;
      if !failed {
        Become(done);
      } else if effect {
        Become(torn);
      }
      ok := !failed;
    }

    /** A write or deletion that may have happened although it reported a failure. */
    method Ambiguous(done: Disk, op: Op) returns (ok: bool)
      modifies this`disk, this`faults, this`history, this`trace, this`unlogged
      ensures (if ok then faults else faults + 1) == old(faults) && trace == old(trace) + [op]
      ensures ok ==> disk == done && history == old(history) + [done]
      ensures disk == done || disk == old(disk)
      ensures history != old(history) ==> disk == done
      ensures history == old(history) || history == old(history) + [disk]
      ensures if history == old(history) then disk == old(disk) && unlogged == old(unlogged)
              else unlogged == old(unlogged) + if Ahead(disk) then 0 else 1
      ensures old(Recorded() && Admissible(done)) ==> Recorded()
    {
      ok := Attempt(done, done, op);
    }

    /** A namespace operation: clean failures unless the volume tears. */
    method Namespace(done: Disk, torn: Disk, op: Op) returns (ok: bool)
      modifies this`disk, this`faults, this`history, this`trace, this`unlogged
      ensures (if ok then faults else faults + 1) == old(faults) && trace == old(trace) + [op]
      ensures ok ==> disk == done && history == old(history) + [done]
      ensures !ok ==> disk == old(disk) || (tears && disk == torn)
      ensures !ok && history != old(history) ==> tears && disk == torn
      ensures history == old(history) || history == old(history) + [disk]
      ensures if history == old(history) then disk == old(disk) && unlogged == old(unlogged)
              else unlogged == old(unlogged) + if Ahead(disk) then 0 else 1
      ensures old(Recorded() && Admissible(done) && Admissible(torn)) ==> Recorded()
    {
      if tears {
        ok := Attempt(done, torn, op);
      } else {
        var failed := Fails(op);
        if !failed {
          Become(done);
        }
        ok := !failed;
      }
    }
  }

  class WorkerLease {
    const volume: Volume
    var metadata: Journal
    var markerReleased: bool  // the `released` flag of the closure AcquireUse returned
    var released: bool

    /** The lease `Acquire` returns: journal `ready` on disk, worker, marker and junction in place. */
    constructor (volume: Volume)
      requires volume.Recorded() && volume.misledAt == None
      requires volume.disk == Disk(Some(READY), true, There(true), Gone, true)
      ensures Valid() && this.volume == volume && !Stuck() && !released && metadata == READY
    {
      this.volume := volume;
      metadata := READY;
      markerReleased, released := false, false;
    }

    ghost predicate MemoryShape()
      reads this
    {
      WellFormed(metadata) && (markerReleased <==> metadata.useReleased) && (released ==> metadata.state == Released)
    }

    ghost predicate DiskShape()
      reads this, volume
    {
      var m, d := metadata, volume.disk;
      && (if m.quarantined then d.worker == Gone && (m.deleted ==> (d.quarantine.There? <==> volume.misledAt.Some?))
          else (d.worker == There(true) && d.quarantine == Gone)
               || (m.junctionRemoved && d.worker == Gone && d.quarantine == There(true)))
      && (m.junctionRemoved ==> !d.junction) && (m.state in {Ready, Running} ==> d.junction)
      && (!m.deleted ==> d.marker) && (m.useReleased ==> !d.marker)
      && (m.state != Released ==> d.journal.Some?)
      && (d.journal.Some? ==> Behind(d.journal.value, m) && WellFormed(d.journal.value))
      && (released ==> d == ALL_GONE.(quarantine := d.quarantine) && volume.misledAt != Some(|volume.history|))
      && (volume.misledAt.Some? ==> m.deleted)
    }

    ghost predicate Valid()
      reads this, volume
    {
      volume.Recorded() && MemoryShape() && DiskShape()
    }

    /** No later call can finish: the worker was moved but the move never became a milestone, so the next
        call measures the vanished path; or a torn deletion took the owner file the next call checks; or
        the marker went although its removal reported a failure. */
    ghost predicate Stuck()
      reads this, volume
    {
      var m, d := metadata, volume.disk;
      || (!m.quarantined && d.worker == Gone)
      || (m.quarantined && !m.deleted && d.quarantine == There(false))
      || (m.deleted && !markerReleased && !d.marker)
    }

    /** The durable journal says what the lease remembers. */
    ghost predicate UpToDate()
      reads this, volume
    {
      volume.disk.journal == Some(metadata)
    }

    /** The next thing to go is announced by the durable journal, or the next step writes it. Otherwise a
        write has failed, and the release, which set its memory before it wrote, does not repeat it. */
    ghost predicate Logged()
      reads this, volume
    {
      UpToDate() || metadata.state in {Ready, Running} || metadata.useReleased
    }

    /** What a successful part of a release has done where existence tests can be trusted: these operations,
        none of which failed. */
    twostate predicate Did(ok: bool, ops: seq<Op>)
      reads this, volume
    {
      ok && volume.sight == Clear ==> volume.faults == old(volume.faults) && volume.trace == old(volume.trace) + ops
    }

    /** The same where the removal of the junction may have failed and was tolerated. */
    twostate predicate DidBut(ok: bool, tolerated: bool, ops: seq<Op>)
      reads this, volume
    {
      ok && volume.sight == Clear ==>
        volume.faults + (if tolerated then 1 else 0) == old(volume.faults) && volume.trace == old(volume.trace) + ops
    }

    /** What every part of a release keeps, whether it succeeds or not. Only a wrong existence test leads
        out of a stuck state. */
    twostate predicate Progress(ok: bool)
      reads this, volume
    {
      && Valid() && Behind(old(metadata), metadata) && old(volume.history) <= volume.history
      && volume.faults <= old(volume.faults)
      && (!ok ==> volume.faults < old(volume.faults) || old(Stuck()) || (old(volume.loseNext) && !volume.loseNext))
      && (volume.loseNext ==> old(volume.loseNext))
      && (old(Logged()) ==> volume.unlogged == old(volume.unlogged) && (ok ==> Logged()))
      && volume.unlogged >= old(volume.unlogged)
      && (old(Stuck()) && volume.misledAt == old(volume.misledAt) ==> Stuck() && volume.disk == old(volume.disk))
      && (!old(Stuck()) && Stuck() ==> !ok && (volume.tears || volume.recheckFails))
      && (volume.misledAt != old(volume.misledAt) ==> old(volume.misledAt) == None && volume.sight != Clear)
    }

    /** `updateLease`: the durable file becomes the current metadata, or the write fails and either the
        old or the new contents survive. */
    method UpdateLease() returns (ok: bool)
      requires volume.Recorded()
      requires volume.Admissible(volume.disk.(journal := Some(metadata)))
      modifies volume`disk, volume`faults, volume`history, volume`trace, volume`loseNext, volume`unlogged
      ensures volume.Recorded() && old(volume.history) <= volume.history
      ensures volume.faults <= old(volume.faults) && (volume.loseNext ==> old(volume.loseNext))
      ensures !ok ==> volume.faults < old(volume.faults) || (old(volume.loseNext) && !volume.loseNext)
      ensures ok ==> volume.faults == old(volume.faults)
      ensures volume.disk == old(volume.disk) || volume.disk == old(volume.disk).(journal := Some(metadata))
      ensures volume.history == old(volume.history) || volume.history == old(volume.history) + [volume.disk]
      ensures volume.history == old(volume.history) ==> volume.disk == old(volume.disk)
      ensures ok ==> volume.disk == old(volume.disk).(journal := Some(metadata)) && volume.history != old(volume.history)
      ensures volume.history != old(volume.history) ==> volume.disk.journal == Some(metadata)
      ensures volume.trace == old(volume.trace) + [WriteJournal(metadata)]
      ensures if volume.history == old(volume.history) then volume.unlogged == old(volume.unlogged)
              else volume.unlogged == old(volume.unlogged) + if Ahead(volume.disk) then 0 else 1
      ensures old(volume.loseNext) ==> !ok && volume.history == old(volume.history) && volume.faults == old(volume.faults)
    {
      if volume.loseNext {
        volume.loseNext, volume.trace := false, volume.trace + [WriteJournal(metadata)];
        return false;
      }
      ok := volume.Ambiguous(volume.disk.(journal := Some(metadata)), WriteJournal(metadata));
    }

    /** The common end of every stage: persist the milestone, then run the stage's hook. */
    method Milestone(stage: Stage) returns (ok: bool)
      requires Valid() && !Stuck() && metadata.state != Released
      requires Ahead(volume.disk.(journal := Some(metadata)))
      modifies volume`disk, volume`faults, volume`history, volume`trace, volume`loseNext, volume`unlogged
      ensures Progress(ok) && !Stuck() && Did(ok, [WriteJournal(metadata), RunHook(stage)])
      ensures ok ==> UpToDate() && volume.faults == old(volume.faults) && |volume.history| == |old(volume.history)| + 1
      ensures volume.unlogged == old(volume.unlogged) && (old(volume.loseNext) ==> !ok && volume.history == old(volume.history) && volume.faults == old(volume.faults))
      ensures volume.disk == old(volume.disk).(journal := volume.disk.journal)
    {
      ok := UpdateLease();
      if ok {
        var failed := volume.Fails(RunHook(stage));
        ok := !failed;
      }
    }

    method MarkRunning() returns (ok: bool)
      requires Valid()
      modifies this`metadata, volume`disk, volume`faults, volume`history, volume`trace, volume`loseNext, volume`unlogged
      ensures Progress(ok || old(released || metadata.state != Ready)) && (Stuck() <==> old(Stuck()))
      ensures old(!released && metadata.state == Ready) ==>
                && metadata == old(metadata).(state := Running)
                && (ok ==> UpToDate() && volume.faults == old(volume.faults)) && Did(ok, [WriteJournal(metadata)])
      ensures old(released || metadata.state != Ready) ==>
                !ok && metadata == old(metadata) && volume.disk == old(volume.disk)
    {
      if released || metadata.state != Ready {
        return false;
      }
      metadata := metadata.(state := Running);
      ok := UpdateLease();
    }

    method BeginRelease() returns (ok: bool)
      requires Valid() && !released
      modifies this`metadata, volume`disk, volume`faults, volume`history, volume`trace, volume`loseNext, volume`unlogged
      ensures Progress(ok) && metadata.state in {Releasing, Quarantined, Released}
      ensures metadata.quarantined == old(metadata.quarantined) && metadata.junctionRemoved == old(metadata.junctionRemoved)
      ensures ok ==> volume.faults == old(volume.faults)
      ensures metadata == AfterBegin(old(metadata)) && Did(ok, BeginOps(old(metadata)))
      ensures old(metadata.state) in {Releasing, Quarantined, Released} ==> ok && volume.history == old(volume.history)
      ensures old(volume.loseNext) && old(metadata.state) in {Ready, Running} ==>
                !ok && volume.history == old(volume.history) && volume.faults == old(volume.faults)
      ensures volume.disk == old(volume.disk).(journal := volume.disk.journal)
    {
      if metadata.state in {Releasing, Quarantined, Released} {
        return true;
      }
      metadata := metadata.(state := Releasing);
      ok := Milestone(AtReleasing);
    }

    /** `verifyWorkerOwner`: fails when the owner file is missing or cannot be read. */
    method VerifyOwner(directory: Directory, quarantined: bool) returns (ok: bool)
      modifies volume`faults, volume`trace
      ensures volume.faults <= old(volume.faults) <= volume.faults + 1
      ensures !ok <==> directory != There(true) || volume.faults < old(volume.faults)
      ensures volume.trace == old(volume.trace) + [CheckOwner(quarantined)]
    {
      var failed := volume.Fails(CheckOwner(quarantined));
      ok := directory == There(true) && !failed;
    }

    /** A removal error is tolerated when the junction is gone and the worker is still owned. */
    method TakeJunctionAway() returns (ok: bool, ghost tolerated: bool)
      requires Valid() && !released && metadata.state == Releasing && !metadata.junctionRemoved
      modifies volume`disk, volume`faults, volume`history, volume`trace, volume`loseNext, volume`unlogged
      ensures Progress(ok) && (ok ==> !volume.disk.junction)
      ensures DidBut(ok, tolerated, if old(volume.disk.junction) && !tolerated then [UnlinkJunction] else [UnlinkJunction, CheckOwner(false)])
      ensures tolerated ==> old(volume.disk.junction)
      ensures volume.disk == old(volume.disk).(junction := volume.disk.junction)
      ensures volume.unlogged == old(volume.unlogged) + if volume.disk != old(volume.disk) && !old(Logged()) then 1 else 0
    {
      ok, tolerated := false, false;
      if volume.disk.junction {
        ok := volume.Ambiguous(volume.disk.(junction := false), UnlinkJunction);
      } else {
        volume.trace := volume.trace + [UnlinkJunction];  // fails, because it is gone
      }
      if !ok && !volume.disk.junction {
        tolerated := old(volume.disk.junction);
        ok := VerifyOwner(volume.disk.worker, false);
      }
    }

    method RemoveJunction() returns (ok: bool, ghost tolerated: bool)
      requires Valid() && !released && metadata.state in {Releasing, Quarantined, Released}
      modifies this`metadata, volume`disk, volume`faults, volume`history, volume`trace, volume`loseNext, volume`unlogged
      ensures Progress(ok) && metadata.state == old(metadata.state) && metadata.quarantined == old(metadata.quarantined)
      ensures ok ==> metadata.junctionRemoved
      ensures ok ==> metadata == old(metadata).(junctionRemoved := true)
      ensures old(metadata.junctionRemoved) ==> ok && volume.history == old(volume.history)
      ensures DidBut(ok, tolerated, JunctionOps(old(metadata), old(volume.disk.junction) && !tolerated))
      ensures tolerated ==> old(volume.disk.junction && !metadata.junctionRemoved)
      ensures ok && !old(Logged()) && !old(metadata.junctionRemoved) && old(volume.disk.junction) ==> volume.unlogged > old(volume.unlogged)
    {
      tolerated := false;
      if metadata.junctionRemoved {
        return true, false;
      }
      ok, tolerated := TakeJunctionAway();
      if !ok { return; }
      metadata := metadata.(junctionRemoved := true);
      ok := Milestone(AtJunctionRemoved);
    }

    /** Measures the worker tree under its original path, until the move is a milestone. */
    method MeasureWorker() returns (ok: bool)
      requires Valid() && !released && metadata.junctionRemoved
      modifies volume`faults, volume`trace
      ensures Progress(ok) && (ok ==> metadata.quarantined || volume.disk.worker.There?)
      ensures Did(ok, if metadata.quarantined then [] else [Measure])
    {
      if !metadata.quarantined && !metadata.deleted {
        var failed := volume.Fails(Measure);
        return volume.disk.worker.There? && !failed;
      }
      return true;
    }

    /** Between the move and its milestone. */
    twostate predicate Moved()
      reads this, volume
    {
      && volume.Recorded() && old(volume.history) <= volume.history && volume.faults <= old(volume.faults)
      && old(volume.disk.worker) == There(true)
      && volume.disk == old(volume.disk).(worker := Gone, quarantine := There(true))
      && |volume.history| == |old(volume.history)| + 1
    }

    /** The move itself, up to the owner check on the far side. */
    method MoveWorker() returns (ok: bool)
      requires Valid() && !released && metadata.junctionRemoved && !metadata.quarantined && volume.disk.worker.There?
      modifies volume`disk, volume`faults, volume`history, volume`trace, volume`unlogged
      ensures !ok ==> Progress(ok)
      ensures ok ==> Moved() && Did(ok, [CheckOwner(false), MakeQuarantine, Rename, CheckOwner(true)])
      ensures volume.unlogged == old(volume.unlogged) + if volume.disk != old(volume.disk) && !old(Logged()) then 1 else 0
      ensures ok ==> volume.faults == old(volume.faults)
    {
      ok := MayMove();
      if !ok { return; }
      var moved := volume.disk.(worker := Gone, quarantine := volume.disk.worker);
      ok := volume.Namespace(moved, moved, Rename);
      if ok {
        ok := VerifyMoved();
      }
    }

    /** The owner check in front of the move, and the quarantine directory. */
    method MayMove() returns (ok: bool)
      modifies volume`faults, volume`trace
      ensures volume.faults <= old(volume.faults)
      ensures ok <==> volume.disk.worker == There(true) && volume.faults == old(volume.faults)
      ensures ok ==> volume.trace == old(volume.trace) + [CheckOwner(false), MakeQuarantine]
    {
      ok := VerifyOwner(volume.disk.worker, false);
      if ok {
        var noParent := volume.Fails(MakeQuarantine);
        ok := !noParent;
      }
    }

    /** The owner check right after the move, which fails only where it can. */
    method VerifyMoved() returns (ok: bool)
      requires volume.disk.quarantine == There(true)
      modifies volume`faults, volume`trace
      ensures (if ok then volume.faults else volume.faults + 1) == old(volume.faults) && (!ok ==> volume.recheckFails)
      ensures volume.trace == old(volume.trace) + [CheckOwner(true)]
    {
      if volume.recheckFails {
        ok := VerifyOwner(volume.disk.quarantine, true);
      } else {
        volume.trace := volume.trace + [CheckOwner(true)];
        ok := true;
      }
    }

    method QuarantineWorker() returns (ok: bool)
      requires Valid() && !released && metadata.junctionRemoved && metadata.state in {Releasing, Quarantined, Released}
      requires metadata.quarantined || volume.disk.worker.There?
      modifies this`metadata, volume`disk, volume`faults, volume`history, volume`trace, volume`loseNext, volume`unlogged
      ensures Progress(ok) && (ok ==> metadata.quarantined)
      ensures ok && !old(metadata.quarantined) ==> volume.disk.quarantine == There(true) && !metadata.deleted
      ensures old(metadata.quarantined) ==> ok && volume.disk == old(volume.disk) && volume.history == old(volume.history)
      ensures ok ==> metadata == AfterMove(old(metadata))
      ensures Did(ok, MoveOps(old(metadata)))
      ensures ok ==> volume.faults == old(volume.faults)
    {
      if metadata.quarantined {
        return true;
      }
      ghost var t := volume.trace;
      var workerSeen := volume.PathExists(volume.disk.worker, false);
      var quarantineSeen := volume.PathExists(volume.disk.quarantine, true);
      if workerSeen == quarantineSeen {
        // Both never exist here, so this is the refusal for "both absent": the worker was not seen.
        return false;
      }
      MoveOpsInOrder(t, metadata);
      ok := MoveAndRecord();
    }

    method MoveAndRecord() returns (ok: bool)
      requires Valid() && !released && metadata.junctionRemoved && metadata.state == Releasing && volume.disk.worker.There?
      modifies this`metadata, volume`disk, volume`faults, volume`history, volume`trace, volume`loseNext, volume`unlogged
      ensures Progress(ok) && (ok ==> volume.disk.quarantine == There(true) && metadata == AfterMove(old(metadata)))
      ensures Did(ok, [CheckOwner(false), MakeQuarantine, Rename, CheckOwner(true)] + [WriteJournal(metadata), RunHook(AtQuarantined)])
      ensures ok ==> volume.faults == old(volume.faults)
    {
      ghost var t := volume.trace;
      ok := MoveWorker();
      if ok {
        ok := RecordMove();
        Associative(t, [CheckOwner(false), MakeQuarantine, Rename, CheckOwner(true)], [WriteJournal(metadata), RunHook(AtQuarantined)]);
      }
    }

    /** The milestone behind the move. */
    method RecordMove() returns (ok: bool)
      requires volume.Recorded() && MemoryShape() && !released && metadata.state == Releasing && metadata.junctionRemoved
      requires var d := volume.disk;
               d.worker == Gone && d.quarantine == There(true) && !d.junction && d.marker && volume.misledAt == None
               && d.journal.Some? && Behind(d.journal.value, metadata) && WellFormed(d.journal.value)
      modifies this`metadata, volume`disk, volume`faults, volume`history, volume`trace, volume`loseNext, volume`unlogged
      ensures Valid() && !Stuck() && metadata == AfterMove(old(metadata))
      ensures old(volume.history) <= volume.history && volume.faults <= old(volume.faults)
      ensures !ok ==> volume.faults < old(volume.faults) || (old(volume.loseNext) && !volume.loseNext)
      ensures volume.loseNext ==> old(volume.loseNext)
      ensures volume.disk == old(volume.disk).(journal := volume.disk.journal)
      ensures Did(ok, [WriteJournal(metadata), RunHook(AtQuarantined)]) && volume.unlogged == old(volume.unlogged)
      ensures ok ==> UpToDate()
      ensures ok ==> volume.faults == old(volume.faults)
    {
      metadata := metadata.(ownerVerified := true, quarantined := true, state := Quarantined);
      ok := Milestone(AtQuarantined);
    }

    /** Removes the quarantine entry that was seen, after its owner check. */
    method RemoveQuarantine() returns (ok: bool)
      requires Valid() && !released && metadata.quarantined && !metadata.deleted && volume.disk.quarantine.There?
      modifies volume`disk, volume`faults, volume`history, volume`trace, volume`unlogged
      ensures Progress(ok) && (ok ==> volume.disk.quarantine == Gone) && Did(ok, [CheckOwner(true), DeleteTree])
      ensures volume.disk.quarantine == Gone && !old(Logged()) ==> volume.unlogged > old(volume.unlogged)
    {
      ok := VerifyOwner(volume.disk.quarantine, true);
      if !ok {
        return;
      }
      var ownerLost: bool := *;
      ok := volume.Namespace(volume.disk.(quarantine := Gone),
                             volume.disk.(quarantine := if ownerLost then There(false) else Gone), DeleteTree);
    }

    /** Decides on what the existence test reports: an entry it does not see counts as deleted. */
    method DeleteWorker() returns (ok: bool)
      requires Valid() && !released && metadata.quarantined
      modifies this`metadata, volume
      ensures Progress(ok) && (ok ==> metadata.deleted)
      ensures ok ==> metadata == old(metadata).(deleted := true)
      ensures old(metadata.deleted) ==> ok && volume.disk == old(volume.disk) && volume.history == old(volume.history)
      ensures Did(ok, DeleteOps(old(metadata), old(volume.disk.quarantine.There?)))
      ensures volume.sight == QuarantineHidden && !old(metadata.deleted) && old(volume.disk.quarantine.There?) ==>
                volume.misledAt.Some? && volume.disk.quarantine == old(volume.disk.quarantine)
    {
      if metadata.deleted {
        return true;
      }
      DeleteOpsInOrder(volume.trace, metadata, volume.disk.quarantine.There?);
      var seen := volume.PathExists(volume.disk.quarantine, true);
      ok := DeleteIfSeen(seen);
    }

    method DeleteIfSeen(seen: bool) returns (ok: bool)
      requires Valid() && !released && metadata.quarantined && !metadata.deleted
      requires seen ==> volume.disk.quarantine.There?
      requires volume.sight == Clear && volume.disk.quarantine.There? ==> seen
      modifies this`metadata, volume
      ensures Progress(ok) && (ok ==> metadata == old(metadata).(deleted := true))
      ensures Did(ok, (if seen then [CheckOwner(true), DeleteTree] else []) + [WriteJournal(metadata), RunHook(AtDeleted)])
      ensures !seen && old(volume.disk.quarantine.There?) ==> volume.misledAt.Some? && volume.disk.quarantine == old(volume.disk.quarantine)
    {
      ghost var t := volume.trace;
      var decision := DeleteDecision(seen, metadata);
      assert decision != Refuse;
      if decision == Remove {
        ok := RemoveQuarantine();
        if !ok { return; }
      } else if volume.disk.quarantine.There? {
        volume.Mislead();
      }
      ok := RecordDeletion();
      Associative(t, if seen then [CheckOwner(true), DeleteTree] else [], [WriteJournal(metadata), RunHook(AtDeleted)]);
    }

    /** The milestone behind the deletion, or behind the belief that there was nothing to delete. */
    method RecordDeletion() returns (ok: bool)
      requires volume.Recorded() && MemoryShape() && !released && metadata.quarantined && !metadata.deleted
      requires var d := volume.disk;
               d.worker == Gone && (d.quarantine.There? <==> volume.misledAt.Some?) && !d.junction && d.marker
               && d.journal.Some? && Behind(d.journal.value, metadata) && WellFormed(d.journal.value)
      modifies this`metadata, volume`disk, volume`faults, volume`history, volume`trace, volume`loseNext, volume`unlogged
      ensures Valid() && !Stuck() && metadata == old(metadata).(deleted := true)
      ensures old(volume.history) <= volume.history && volume.faults <= old(volume.faults)
      ensures !ok ==> volume.faults < old(volume.faults) || (old(volume.loseNext) && !volume.loseNext)
      ensures volume.loseNext ==> old(volume.loseNext)
      ensures volume.disk.quarantine == old(volume.disk.quarantine)
      ensures Did(ok, [WriteJournal(metadata), RunHook(AtDeleted)]) && volume.unlogged == old(volume.unlogged)
      ensures ok ==> UpToDate() && volume.history != old(volume.history)
    {
      metadata := metadata.(deleted := true);
      ok := Milestone(AtDeleted);
    }

    /** The closure `AcquireUse` returned: reads the marker, then removes it. */
    method RemoveMarker() returns (ok: bool)
      requires Valid() && !released && metadata.deleted && !metadata.useReleased
      modifies volume`disk, volume`faults, volume`history, volume`trace, volume`unlogged
      ensures !ok ==> Progress(ok)
      ensures ok ==> volume.Recorded() && old(volume.history) <= volume.history && volume.faults <= old(volume.faults)
                     && old(volume.disk.marker) && volume.disk == old(volume.disk).(marker := false)
                     && |volume.history| == |old(volume.history)| + 1
      ensures volume.disk.quarantine == old(volume.disk.quarantine) && Did(ok, [ReadMarker, UnlinkMarker])
      ensures volume.unlogged == old(volume.unlogged) + if volume.disk != old(volume.disk) && !old(Logged()) then 1 else 0
    {
      var unreadable := volume.Fails(ReadMarker);
      if unreadable || !volume.disk.marker {
        return false;
      }
      var removed := volume.disk.(marker := false);
      ok := volume.Namespace(removed, removed, UnlinkMarker);
    }

    method ReleaseActiveUse() returns (ok: bool)
      requires Valid() && !released && metadata.deleted
      modifies this`metadata, this`markerReleased, volume`disk, volume`faults, volume`history, volume`trace, volume`loseNext, volume`unlogged
      ensures Progress(ok) && (ok ==> metadata.useReleased) && volume.disk.quarantine == old(volume.disk.quarantine)
      ensures ok ==> metadata == old(metadata).(useReleased := true)
      ensures old(metadata.useReleased) ==> ok && volume.history == old(volume.history)
      ensures Did(ok, UseOps(old(metadata)))
    {
      if metadata.useReleased {
        return true;
      }
      ok := RemoveMarker();
      if !ok { return; }
      markerReleased := true;
      metadata := metadata.(useReleased := true);
      ok := Milestone(AtUseReleased);
    }

    /** The journal file goes, and with it the lease. */
    method RemoveJournal() returns (ok: bool)
      requires Valid() && !released && metadata.state == Released && UpToDate()
      modifies this`released, volume`disk, volume`faults, volume`history, volume`trace, volume`unlogged
      ensures Progress(ok) && (released <==> ok) && volume.disk.quarantine == old(volume.disk.quarantine)
      ensures ok ==> volume.disk == old(volume.disk).(journal := None)
      ensures Did(ok, [UnlinkJournal])
    {
      ok := volume.Ambiguous(volume.disk.(journal := None), UnlinkJournal);
      if ok {
        released := true;
      }
    }

    /** The last state may be written: everything it claims has happened, or the release was misled. */
    lemma ReleasedMayBeWritten()
      requires Valid() && !released && metadata.useReleased
      ensures volume.Admissible(volume.disk.(journal := Some(metadata.(state := Released))))
    {
    }

    /** The journal says `released`, then the two hooks run. */
    method RecordRelease() returns (ok: bool)
      requires Valid() && !released && metadata.useReleased
      modifies this`metadata, volume`disk, volume`faults, volume`history, volume`trace, volume`loseNext, volume`unlogged
      ensures Progress(ok) && metadata.state == Released && volume.disk.quarantine == old(volume.disk.quarantine)
      ensures metadata == old(metadata).(state := Released) && (ok ==> UpToDate())
      ensures Did(ok, [WriteJournal(metadata), RunHook(AtReleased), RunHook(BeforeLeaseDelete)])
    {
      ReleasedMayBeWritten();
      metadata := metadata.(state := Released);
      ok := UpdateLease();
      if !ok { return; }
      ok := LastHooks();
    }

    method LastHooks() returns (ok: bool)
      modifies volume`faults, volume`trace
      ensures volume.faults <= old(volume.faults) && (ok <==> volume.faults == old(volume.faults))
      ensures ok ==> volume.trace == old(volume.trace) + [RunHook(AtReleased), RunHook(BeforeLeaseDelete)]
    {
      var hook := volume.Fails(RunHook(AtReleased));
      if hook { return false; }
      hook := volume.Fails(RunHook(BeforeLeaseDelete));
      return !hook;
    }

    method Finish() returns (ok: bool)
      requires Valid() && !released && metadata.useReleased
      modifies this`metadata, this`released, volume`disk, volume`faults, volume`history, volume`trace, volume`loseNext, volume`unlogged
      ensures Progress(ok) && (ok ==> released) && volume.disk.quarantine == old(volume.disk.quarantine)
      ensures metadata == old(metadata).(state := Released)
      ensures Did(ok, FinishOps(old(metadata)))
    {
      Associative(volume.trace, [WriteJournal(metadata.(state := Released)), RunHook(AtReleased), RunHook(BeforeLeaseDelete)],
                  [UnlinkJournal, RunHook(AtLeaseDeleted)]);
      ok := RecordRelease();
      if !ok { return; }
      ok := EndLease();
    }

    method EndLease() returns (ok: bool)
      requires Valid() && !released && metadata.state == Released && UpToDate()
      modifies this`released, volume`disk, volume`faults, volume`history, volume`trace, volume`unlogged
      ensures Progress(ok) && (ok ==> released) && volume.disk.quarantine == old(volume.disk.quarantine)
      ensures Did(ok, [UnlinkJournal, RunHook(AtLeaseDeleted)])
    {
      ok := RemoveJournal();
      if !ok { return; }
      var hook := volume.Fails(RunHook(AtLeaseDeleted));
      return !hook;
    }

    method NotCancelled() returns (ok: bool)
      requires Valid() && !released
      modifies volume`faults, volume`trace
      ensures Progress(ok) && Did(ok, [Cancellation]) && (Stuck() <==> old(Stuck())) && (Logged() <==> old(Logged()))
      ensures old(volume.faults) == 0 ==> ok
    {
      var cancelled := volume.Fails(Cancellation);
      ok := !cancelled;
    }

    /** State and junction. */
    method DetachJunction() returns (ok: bool, ghost tolerated: bool)
      requires Valid() && !released
      modifies this`metadata, volume`disk, volume`faults, volume`history, volume`trace, volume`loseNext, volume`unlogged
      ensures Progress(ok) && metadata.quarantined == old(metadata.quarantined)
      ensures ok ==> metadata == AfterJunction(old(metadata)) && volume.disk.quarantine == old(volume.disk.quarantine)
      ensures DidBut(ok, tolerated, BeginOps(old(metadata)) + JunctionOps(AfterBegin(old(metadata)), old(volume.disk.junction) && !tolerated))
      ensures tolerated ==> old(volume.disk.junction && !metadata.junctionRemoved)
      ensures ok && !old(Logged()) && !old(metadata.junctionRemoved) && old(volume.disk.junction) ==> volume.unlogged > old(volume.unlogged)
      ensures old(volume.loseNext) && old(metadata.state) in {Ready, Running} ==>
                !ok && volume.disk == old(volume.disk) && metadata == AfterBegin(old(metadata))
    {
      ghost var m, t, there := metadata, volume.trace, volume.disk.junction;
      tolerated := false;
      ok := BeginRelease();
      if !ok { return; }
      assert metadata == AfterBegin(m) && (volume.sight == Clear ==> volume.trace == t + BeginOps(m));
      ok, tolerated := RemoveJunction();
      Associative(t, BeginOps(m), JunctionOps(AfterBegin(m), there && !tolerated));
    }

    /** Cancellation test, state and junction. */
    method EnterRelease() returns (ok: bool, ghost tolerated: bool)
      requires Valid() && !released
      modifies this`metadata, volume`disk, volume`faults, volume`history, volume`trace, volume`loseNext, volume`unlogged
      ensures Progress(ok) && metadata.quarantined == old(metadata.quarantined)
      ensures ok ==> metadata == AfterJunction(old(metadata)) && volume.disk.quarantine == old(volume.disk.quarantine)
      ensures DidBut(ok, tolerated, EnterOps(old(metadata), old(volume.disk.junction) && !tolerated))
      ensures tolerated ==> old(volume.disk.junction && !metadata.junctionRemoved)
      ensures ok && !old(Logged()) && !old(metadata.junctionRemoved) && old(volume.disk.junction) ==> volume.unlogged > old(volume.unlogged)
      ensures old(volume.loseNext) && old(metadata.state) in {Ready, Running} && old(volume.faults) == 0 ==>
                !ok && volume.disk == old(volume.disk) && metadata == AfterBegin(old(metadata))
    {
      ghost var m, t, there := metadata, volume.trace, volume.disk.junction;
      tolerated := false;
      ok := NotCancelled();
      if !ok { return; }
      ok, tolerated := DetachJunction();
      Associative(t, [Cancellation], BeginOps(m) + JunctionOps(AfterBegin(m), there && !tolerated));
    }

    /** The release up to the move: cancellation test, state, junction, measurement. */
    method DetachWorker() returns (ok: bool, ghost tolerated: bool)
      requires Valid() && !released
      modifies this`metadata, volume`disk, volume`faults, volume`history, volume`trace, volume`loseNext, volume`unlogged
      ensures Progress(ok) && metadata.quarantined == old(metadata.quarantined)
      ensures ok ==> metadata.junctionRemoved && metadata.state in {Releasing, Quarantined, Released}
                     && (metadata.quarantined || volume.disk.worker.There?)
      ensures ok ==> metadata == AfterJunction(old(metadata)) && volume.disk.quarantine == old(volume.disk.quarantine)
      ensures DidBut(ok, tolerated, DetachOps(old(metadata), old(volume.disk.junction) && !tolerated))
      ensures tolerated ==> old(volume.disk.junction && !metadata.junctionRemoved)
      ensures ok && !old(Logged()) && !old(metadata.junctionRemoved) && old(volume.disk.junction) ==> volume.unlogged > old(volume.unlogged)
      ensures old(volume.loseNext) && old(metadata.state) in {Ready, Running} && old(volume.faults) == 0 ==>
                !ok && volume.disk == old(volume.disk) && metadata == AfterBegin(old(metadata))
    {
      ghost var m, t, there := metadata, volume.trace, volume.disk.junction;
      ok, tolerated := EnterRelease();
      if !ok { return; }
      ok := MeasureWorker();
      Associative(t, EnterOps(m, there && !tolerated), if m.quarantined then [] else [Measure]);
    }

    method DiscardWorker() returns (ok: bool)
      requires Valid() && !released && metadata.junctionRemoved && metadata.state in {Releasing, Quarantined, Released}
      requires metadata.quarantined || volume.disk.worker.There?
      modifies this`metadata, volume
      ensures Progress(ok) && (ok ==> metadata.deleted)
      ensures ok ==> metadata == AfterMove(old(metadata)).(deleted := true)
      ensures Did(ok, DiscardOps(old(metadata), old(volume.disk.quarantine.There?)))
      ensures ok && volume.sight == QuarantineHidden && !old(metadata.quarantined) ==>
                volume.misledAt.Some? && volume.disk.quarantine == There(true)
    {
      Associative(volume.trace, MoveOps(metadata), DeleteOps(AfterMove(metadata), volume.disk.quarantine.There? || !metadata.quarantined));
      ok := QuarantineWorker();
      if !ok { return; }
      ok := DeleteWorker();
    }

    method CloseLease() returns (ok: bool)
      requires Valid() && !released && metadata.deleted
      modifies this`metadata, this`markerReleased, this`released, volume`disk, volume`faults, volume`history, volume`trace, volume`loseNext, volume`unlogged
      ensures Progress(ok) && (ok ==> released) && volume.disk.quarantine == old(volume.disk.quarantine)
      ensures Did(ok, CloseOps(old(metadata)))
    {
      Associative(volume.trace, UseOps(metadata), FinishOps(metadata.(useReleased := true)));
      ok := ReleaseActiveUse();
      if !ok { return; }
      ok := Finish();
    }

    /** The release from the move on. */
    method DiscardAndClose() returns (ok: bool)
      requires Valid() && !released && metadata.junctionRemoved && metadata.state in {Releasing, Quarantined, Released}
      requires metadata.quarantined || volume.disk.worker.There?
      modifies this`metadata, this`markerReleased, this`released, volume
      ensures Progress(ok) && (ok ==> released)
      ensures Did(ok, DiscardOps(old(metadata), old(volume.disk.quarantine.There?)) + CloseOps(AfterMove(old(metadata)).(deleted := true)))
      ensures ok && volume.sight == QuarantineHidden && !old(metadata.quarantined) ==>
                volume.misledAt.Some? && volume.disk.quarantine == There(true)
    {
      Associative(volume.trace, DiscardOps(metadata, volume.disk.quarantine.There?), CloseOps(AfterMove(metadata).(deleted := true)));
      ok := DiscardWorker();
      if !ok { return; }
      ok := CloseLease();
    }

    /** Every intermediate disk is in the history, and `Valid` says which histories are safe: all of them,
        unless a release took an existing quarantine copy for absent and did anything afterwards. The call
        is write-ahead unless it starts behind a lost write. With no failure left to inject, a call on
        trustworthy existence tests succeeds exactly when the lease is not stuck, and a call that succeeds
        there has done what was left to do, in order; only a failed removal of the junction is `tolerated`. */
    method Release() returns (ok: bool, ghost tolerated: bool)
      requires Valid()
      modifies this`metadata, this`markerReleased, this`released, volume
      ensures Progress(ok)
      ensures AllSafe(volume.history) <==> volume.misledAt == None || volume.misledAt == Some(|volume.history|)
      ensures old(Logged()) ==> volume.unlogged == old(volume.unlogged)
      ensures AllAhead(volume.history) <==> volume.unlogged == 0
      ensures ok ==> released && volume.disk == ALL_GONE.(quarantine := volume.disk.quarantine)
      ensures ok ==> (volume.disk == ALL_GONE <==> volume.misledAt == None)
      ensures ok ==> (AllSafe(volume.history) <==> volume.misledAt == None)
      ensures old(released) ==> ok && volume.disk == old(volume.disk) && volume.history == old(volume.history)
      ensures volume.sight == Clear ==> volume.misledAt == old(volume.misledAt) && (old(Stuck()) ==> !ok)
      ensures old(volume.faults) == 0 && !old(Stuck()) && !old(volume.loseNext) ==> ok
      ensures !old(released) ==>
                DidBut(ok, tolerated, ReleaseOps(old(metadata), old(volume.disk.junction) && !tolerated, old(volume.disk.quarantine.There?)))
      ensures tolerated ==> old(volume.disk.junction && !metadata.junctionRemoved)
      ensures ok && volume.sight == QuarantineHidden && !old(metadata.quarantined) ==>
                volume.misledAt.Some? && volume.disk.quarantine == There(true)
      ensures ok && !old(released) && !old(Logged()) && !old(metadata.junctionRemoved) && old(volume.disk.junction) ==> volume.unlogged > old(volume.unlogged)
      ensures old(volume.loseNext && !released && metadata.state in {Ready, Running} && volume.faults == 0) ==>
                !ok && !released && volume.disk == old(volume.disk) && metadata == old(metadata).(state := Releasing)
    {
      tolerated := false;
      if released {
        return true, false;
      }
      ghost var m, t, junction, there := metadata, volume.trace, volume.disk.junction, volume.disk.quarantine.There?;
      ok, tolerated := DetachWorker();
      ReleaseOpsInOrder(t, m, junction && !tolerated, there);
      if !ok { return; }
      ok := DiscardAndClose();
    }

    /** Retrying converges: on a volume that does not tear, any finite number of failures delays the
        release but never prevents it. Every disk on the way was safe, and the tree is gone, if and only if
        no existence test of the existing quarantine copy answered wrongly. */
    method ReleaseUntilDone()
      requires Valid() && !Stuck() && !volume.tears && !volume.recheckFails && !released
      modifies this`metadata, this`markerReleased, this`released, volume
      ensures released && volume.disk == ALL_GONE.(quarantine := volume.disk.quarantine)
      ensures volume.disk == ALL_GONE <==> volume.misledAt == None
      ensures AllSafe(volume.history) <==> volume.misledAt == None
      ensures volume.sight == Clear ==> volume.misledAt == old(volume.misledAt)
      ensures Valid() && old(volume.history) <= volume.history
    {
      ghost var tolerated;
      var ok;
      ok, tolerated := Release();
      while !ok
        invariant Valid() && !Stuck() && old(volume.history) <= volume.history
        invariant volume.sight == Clear ==> volume.misledAt == old(volume.misledAt)
        invariant ok ==> released && volume.disk == ALL_GONE.(quarantine := volume.disk.quarantine)
        invariant ok ==> (volume.disk == ALL_GONE <==> volume.misledAt == None)
        invariant ok ==> (AllSafe(volume.history) <==> volume.misledAt == None)
        decreases volume.faults + (if volume.loseNext then 1 else 0), !ok
      {
        ok, tolerated := Release();
      }
    }
  }

  // ---------------------------------------------------------------- what is left to do

  function AfterBegin(m: Journal): Journal { if m.state in {Ready, Running} then m.(state := Releasing) else m }

  function AfterJunction(m: Journal): Journal { AfterBegin(m).(junctionRemoved := true) }

  function AfterMove(m: Journal): Journal {
    if m.quarantined then m else m.(ownerVerified := true, quarantined := true, state := Quarantined)
  }

  /** `junction` says whether the junction is still there: a removal that finds none has to look further. */
  function JunctionOps(m: Journal, junction: bool): seq<Op> {
    if m.junctionRemoved then [] else
      [UnlinkJunction] + (if junction then [] else [CheckOwner(false)])
      + [WriteJournal(m.(junctionRemoved := true)), RunHook(AtJunctionRemoved)]
  }

  function BeginOps(m: Journal): seq<Op> {
    if m.state in {Ready, Running} then [WriteJournal(AfterBegin(m)), RunHook(AtReleasing)] else []
  }

  function EnterOps(m: Journal, junction: bool): seq<Op> {
    [Cancellation] + (BeginOps(m) + JunctionOps(AfterBegin(m), junction))
  }

  function DetachOps(m: Journal, junction: bool): seq<Op> {
    EnterOps(m, junction) + if m.quarantined then [] else [Measure]
  }

  function MoveOps(m: Journal): seq<Op> {
    if m.quarantined then [] else
      [TestPath(false)] + [TestPath(true)] + [CheckOwner(false), MakeQuarantine, Rename, CheckOwner(true)]
      + [WriteJournal(AfterMove(m)), RunHook(AtQuarantined)]
  }

  function DeleteOps(m: Journal, there: bool): seq<Op> {
    if m.deleted then [] else
      [TestPath(true)] + (if there then [CheckOwner(true), DeleteTree] else [])
      + [WriteJournal(m.(deleted := true)), RunHook(AtDeleted)]
  }

  function DiscardOps(m: Journal, there: bool): seq<Op> { MoveOps(m) + DeleteOps(AfterMove(m), there || !m.quarantined) }

  function UseOps(m: Journal): seq<Op> {
    if m.useReleased then [] else
      [ReadMarker, UnlinkMarker, WriteJournal(m.(useReleased := true)), RunHook(AtUseReleased)]
  }

  function FinishOps(m: Journal): seq<Op> {
    [WriteJournal(m.(state := Released)), RunHook(AtReleased), RunHook(BeforeLeaseDelete)]
    + [UnlinkJournal, RunHook(AtLeaseDeleted)]
  }

  function CloseOps(m: Journal): seq<Op> { UseOps(m) + FinishOps(m.(useReleased := true)) }

  /** Everything a release of a lease with this memory still has to do. */
  function ReleaseOps(m: Journal, junction: bool, quarantine: bool): seq<Op> {
    var moved := AfterJunction(m);
    DetachOps(m, junction) + (DiscardOps(moved, quarantine) + CloseOps(AfterMove(moved).(deleted := true)))
  }

  lemma Associative(a: seq<Op>, b: seq<Op>, c: seq<Op>)
    ensures a + b + c == a + (b + c)
  {
  }

  lemma MoveOpsInOrder(t: seq<Op>, m: Journal)
    requires !m.quarantined
    ensures t + MoveOps(m)
         == t + [TestPath(false)] + [TestPath(true)]
            + ([CheckOwner(false), MakeQuarantine, Rename, CheckOwner(true)] + [WriteJournal(AfterMove(m)), RunHook(AtQuarantined)])
  {
  }

  lemma DeleteOpsInOrder(t: seq<Op>, m: Journal, there: bool)
    requires !m.deleted
    ensures t + DeleteOps(m, there)
         == t + [TestPath(true)]
            + ((if there then [CheckOwner(true), DeleteTree] else []) + [WriteJournal(m.(deleted := true)), RunHook(AtDeleted)])
  {
  }

  lemma ReleaseOpsInOrder(t: seq<Op>, m: Journal, junction: bool, quarantine: bool)
    ensures var moved := AfterJunction(m);
            t + ReleaseOps(m, junction, quarantine)
            == t + DetachOps(m, junction) + (DiscardOps(moved, quarantine) + CloseOps(AfterMove(moved).(deleted := true)))
  {
    var moved := AfterJunction(m);
    Associative(t, DetachOps(m, junction), DiscardOps(moved, quarantine) + CloseOps(AfterMove(moved).(deleted := true)));
  }

  const READY := Journal(Ready, false, false, false, false, false)

  /** The failing case, run: a fresh lease, no failure at all, but the existence test of the quarantine
      entry is denied. The call reports success and leaves the tree without marker and journal. */
  method UnreadableQuarantineLosesMarker() returns (lease: WorkerLease)
    ensures fresh(lease) && lease.released
    ensures lease.volume.disk == Disk(None, false, Gone, There(true), false)
    ensures !AllSafe(lease.volume.history)
  {
    var volume := new Volume(Disk(Some(READY), true, There(true), Gone, true), 0, false, false, false, QuarantineHidden);
    lease := new WorkerLease(volume);
    var ok, tolerated := lease.Release();
    assert !Safe(volume.disk);
  }

  /** The other failing case, run: the first write of a release is lost. The second call does not repeat it
      and removes the junction while the durable journal still says `ready`. */
  method LostWriteIsNotRepeated() returns (lease: WorkerLease)
    ensures fresh(lease) && lease.released && lease.volume.disk == ALL_GONE && AllSafe(lease.volume.history)
    ensures !AllAhead(lease.volume.history)
  {
    var volume := new Volume(Disk(Some(READY), true, There(true), Gone, true), 0, false, false, true, Clear);
    lease := new WorkerLease(volume);
    var first, t := lease.Release();
    var second, u := lease.Release();
  }

  datatype Decision = Remove | Refuse | Skip

  /** The test in front of the deletion; `seen` is what `pathExists` reported. */
  function DeleteDecision(seen: bool, m: Journal): Decision {
    if seen then Remove else if !m.ownerVerified || !m.quarantined then Refuse else Skip
  }

  /** Over a whole history: trees, marker and junction that are gone stay gone; a journal that was gone
      can come back, but only to say `released`, and the states of existing journals never go down. */
  lemma {:induction false} HistoryForward(history: seq<Disk>, i: nat, j: nat)
    requires AllForward(history) && i <= j < |history|
    ensures var a, b := history[i], history[j];
            && (a.worker == Gone ==> b.worker == Gone) && (!a.marker ==> !b.marker) && (!a.junction ==> !b.junction)
            && (a.worker == Gone && a.quarantine == Gone ==> b.quarantine == Gone)
            && (b.journal.Some? && a.journal == None ==> i < j && b.journal.value.state == Released)
            && (b.journal.Some? && a.journal.Some? ==> Rank(a.journal.value.state) <= Rank(b.journal.value.state))
    decreases j - i
  {
    if i < j {
      assert Forward(history[j - 1], history[j]);
      HistoryForward(history, i, j - 1);
    }
  }

  /** A tree that exists in a safe history was protected in every earlier state as well. */
  lemma TreeWasProtected(history: seq<Disk>, i: nat, j: nat)
    requires AllForward(history) && AllSafe(history) && i <= j < |history|
    requires history[j].worker.There? || history[j].quarantine.There?
    ensures history[i].marker && history[i].journal.Some? && history[i].journal.value.state != Released
  {
    HistoryForward(history, i, j);
  }

}
