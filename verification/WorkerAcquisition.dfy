/** `WorkerManager.Acquire` (`internal/refsworkspace/worker.go`) as a transaction over the names one lease
    owns. Each deferred cleanup of the source is the end of the method that runs the steps registered
    after it, so cleanups run in last-in first-out order and never abort the ones behind them. */
module WorkerAcquisition {
  import opened Leases
  import WorkerRelease

  /** The names derived from the lease id, its token, its key and its junction path. */
  datatype Slots = Slots(
    journal: Option<LeaseState>, marker: bool, staging: bool, worker: bool, junction: bool,
    reservationLock: bool, useLock: bool)

  datatype Name = Journal | Marker | Staging | Worker | Junction | ReservationLock | UseLock

  /** How an operation ended: it succeeded, failed without effect, or failed although it took effect. */
  datatype Outcome = NotRun | Done | Failed | Torn

  /** The operation that creates a name and the one that takes it away again. The rename of the staging
      directory creates the worker. */
  datatype Life = Life(made: Outcome, unmade: Outcome)

  const UNUSED := Life(NotRun, NotRun)

  /** What the environment did, operation by operation. */
  datatype Log = Log(
    journal: Life, marker: Life, staging: Life, worker: Life, junction: Life, reservationLock: Life, useLock: Life)

  const FRESH := Log(UNUSED, UNUSED, UNUSED, UNUSED, UNUSED, UNUSED, UNUSED)

  ghost function Making(log: Log, name: Name, o: Outcome): Log {
    match name
    case Journal => log.(journal := log.journal.(made := o))
    case Marker => log.(marker := log.marker.(made := o))
    case Staging => log.(staging := log.staging.(made := o))
    case Worker => log.(worker := log.worker.(made := o))
    case Junction => log.(junction := log.junction.(made := o))
    case ReservationLock => log.(reservationLock := log.reservationLock.(made := o))
    case UseLock => log.(useLock := log.useLock.(made := o))
  }

  ghost function Unmaking(log: Log, name: Name, o: Outcome): Log {
    match name
    case Journal => log.(journal := log.journal.(unmade := o))
    case Marker => log.(marker := log.marker.(unmade := o))
    case Staging => log.(staging := log.staging.(unmade := o))
    case Worker => log.(worker := log.worker.(unmade := o))
    case Junction => log.(junction := log.junction.(unmade := o))
    case ReservationLock => log.(reservationLock := log.reservationLock.(unmade := o))
    case UseLock => log.(useLock := log.useLock.(unmade := o))
  }

  /** A name after a failed call: untouched unless its creation took effect; left behind if that creation
      reported a failure, taken away if it did not, unless that failed in turn. */
  ghost predicate Left(was: bool, there: bool, life: Life) {
    match life.made
    case NotRun | Failed => life.unmade == NotRun && there == was
    case Torn => life.unmade == NotRun && !was && there
    case Done => !was && life.unmade != NotRun && (there <==> life.unmade == Failed)
  }

  /** A name created under a lock: when the unlock fails, the call returns before it registers the cleanup. */
  ghost predicate LockedLeft(was: bool, there: bool, life: Life, unlock: Outcome) {
    if life.made == Done && unlock != Done then life.unmade == NotRun && !was && there else Left(was, there, life)
  }

  ghost predicate JournalLeft(was: Option<LeaseState>, there: Option<LeaseState>, life: Life, unlock: Outcome) {
    LockedLeft(was.Some?, there.Some?, life, unlock) && (was.Some? ==> there == was)
  }

  /** The staging directory goes with the rename that commits it, or is removed. */
  ghost predicate StagingLeft(was: bool, there: bool, life: Life, commit: Outcome) {
    if life.made == Done then
      && !was && (life.unmade == NotRun <==> commit == Done)
      && (there <==> commit !in {Done, Torn} && life.unmade == Failed)
    else
      commit == NotRun && Left(was, there, life)
  }

  /** The names created while the use of the baseline is held. */
  ghost predicate TreesLeft(before: Slots, after: Slots, log: Log) {
    && StagingLeft(before.staging, after.staging, log.staging, log.worker.made)
    && Left(before.worker, after.worker, log.worker) && Left(before.junction, after.junction, log.junction)
  }

  /** The names behind the reservation. */
  ghost predicate InnerLeft(before: Slots, after: Slots, log: Log) {
    && LockedLeft(before.marker, after.marker, log.marker, log.useLock.unmade)
    && Left(before.useLock, after.useLock, log.useLock) && TreesLeft(before, after, log)
    && (log.marker.made != NotRun ==> log.useLock.made == Done) && (log.staging.made != NotRun ==> log.marker.made == Done)
    && (log.staging.made != NotRun ==> log.useLock.unmade == Done)
  }

  /** What a failed call leaves, as its operations decide it. */
  ghost predicate LeftBehind(before: Slots, after: Slots, log: Log) {
    && JournalLeft(before.journal, after.journal, log.journal, log.reservationLock.unmade)
    && Left(before.reservationLock, after.reservationLock, log.reservationLock) && InnerLeft(before, after, log)
    && (log.journal.made != NotRun ==> log.reservationLock.made == Done) && (log.marker.made != NotRun ==> log.journal.made == Done)
    && (log.marker.made != NotRun ==> log.reservationLock.unmade == Done)
  }

  /** No creation took effect although it failed. */
  ghost predicate NothingTorn(log: Log) {
    && log.journal.made != Torn && log.marker.made != Torn && log.staging.made != Torn && log.worker.made != Torn
    && log.junction.made != Torn && log.reservationLock.made != Torn && log.useLock.made != Torn
  }

  /** No cleanup left its name. */
  ghost predicate CleanupsTookEffect(log: Log) {
    && log.journal.unmade != Failed && log.marker.unmade != Failed && log.staging.unmade != Failed
    && log.worker.unmade != Failed && log.junction.unmade != Failed
  }

  /** No unlock left its lock, and none reported a failure behind a name that had just been created. */
  ghost predicate UnlocksTookEffect(log: Log) {
    && log.reservationLock.unmade != Failed && log.useLock.unmade != Failed
    && (log.journal.made == Done ==> log.reservationLock.unmade == Done)
    && (log.marker.made == Done ==> log.useLock.unmade == Done)
  }

  ghost predicate Succeeds(o: Outcome) { o == NotRun || o == Done }

  ghost predicate CleanupsSucceed(log: Log) {
    && Succeeds(log.journal.unmade) && Succeeds(log.marker.unmade) && Succeeds(log.staging.unmade)
    && Succeeds(log.worker.unmade) && Succeeds(log.junction.unmade)
  }

  ghost predicate UnlocksSucceed(log: Log) { Succeeds(log.reservationLock.unmade) && Succeeds(log.useLock.unmade) }

  lemma MakingIsPossible(log: Log, name: Name, o: Outcome)
    ensures o != Torn && NothingTorn(log) ==> NothingTorn(Making(log, name, o))
    ensures CleanupsSucceed(Making(log, name, o)) <==> CleanupsSucceed(log)
    ensures UnlocksSucceed(Making(log, name, o)) <==> UnlocksSucceed(log)
  {
  }

  lemma UnmakingIsPossible(log: Log, name: Name, o: Outcome)
    ensures NothingTorn(Unmaking(log, name, o)) <==> NothingTorn(log)
    ensures CleanupsSucceed(log) && (Succeeds(o) || name in {ReservationLock, UseLock}) ==> CleanupsSucceed(Unmaking(log, name, o))
    ensures UnlocksSucceed(log) && (Succeeds(o) || name !in {ReservationLock, UseLock}) ==> UnlocksSucceed(Unmaking(log, name, o))
  {
  }

  /** A failed call restores the namespace if and only if none of its creations tore, its cleanups took
      effect, and so did its unlocks, which moreover did not report a failure after a creation. */
  lemma RestoredIff(before: Slots, after: Slots, log: Log)
    requires LeftBehind(before, after, log)
    ensures after == before <==> NothingTorn(log) && CleanupsTookEffect(log) && UnlocksTookEffect(log)
  {
    if after == before {
      TreesRestored(before, after, log);
    }
  }

  lemma TreesRestored(before: Slots, after: Slots, log: Log)
    requires TreesLeft(before, after, log)
    requires after.staging == before.staging && after.worker == before.worker && after.junction == before.junction
    ensures log.staging.made != Torn && log.worker.made != Torn && log.junction.made != Torn
    ensures log.staging.unmade != Failed && log.worker.unmade != Failed && log.junction.unmade != Failed
  {
  }

  /** A tree without both its marker and its journal. */
  ghost predicate Unprotected(s: Slots) {
    (s.staging || s.worker) && !(s.marker && s.journal.Some?)
  }

  /** A tree that a failed call created stays. */
  ghost predicate TreeStays(log: Log) {
    log.staging.made == Torn || log.staging.unmade == Failed || log.worker.made == Torn || log.worker.unmade == Failed
  }

  lemma ExposedIff(before: Slots, after: Slots, log: Log)
    requires LeftBehind(before, after, log) && !before.staging && !before.worker
    ensures Unprotected(after) <==> TreeStays(log) && !(log.marker.unmade == Failed && log.journal.unmade == Failed)
  {
    TreesThere(before, after, log);
  }

  lemma TreesThere(before: Slots, after: Slots, log: Log)
    requires TreesLeft(before, after, log) && !before.staging && !before.worker
    ensures after.staging || after.worker <==> TreeStays(log)
  {
  }

  /** The tests between the changes: the request, policy and layout; usage, host floor and journals; the
      resolved baseline; no mutation of it and still valid; the staging path; the clone with its metrics,
      owner file and access rights; the committed worker, its owner, contents, baseline and size. */
  datatype Check = Request | Admission | Baseline | Unmutated | StagingPath | Clone | CommittedWorker

  /** One attempt of the call, whatever became of it. */
  datatype Event = Checked(check: Check) | Created(name: Name) | Wrote(state: LeaseState) | Removed(name: Name)

  /** What a successful call does, in order. */
  const MARKED := [Created(ReservationLock), Checked(Admission), Created(Journal), Removed(ReservationLock)]
  const USED := [Created(UseLock), Checked(Unmutated), Created(Marker), Removed(UseLock)]
  const PUBLISHED := [Checked(CommittedWorker), Created(Junction), Wrote(Ready)]
  const COMMITTED := [Checked(Clone), Created(Worker)] + PUBLISHED
  const STAGED := [Checked(StagingPath), Wrote(Cloning), Created(Staging)] + COMMITTED
  const ACQUIRED := [Checked(Request)] + (MARKED + ([Checked(Baseline)] + (USED + STAGED)))

  class LeaseSpace {
    var slots: Slots
    /** Creations may take effect although they fail. */
    const tears: bool
    const unlocksFail: bool
    const cleanupsFail: bool
    ghost var log: Log
    /** Some state showed a staging or worker tree without both its marker and its journal. */
    ghost var exposed: bool
    /** Some operation reported a failure. */
    ghost var failed: bool
    ghost var trace: seq<Event>

    constructor (slots: Slots, tears: bool, unlocksFail: bool, cleanupsFail: bool)
      ensures this.slots == slots && log == FRESH && !exposed && !failed && trace == []
      ensures this.tears == tears && this.unlocksFail == unlocksFail && this.cleanupsFail == cleanupsFail
    {
      this.slots, this.tears, this.unlocksFail, this.cleanupsFail := slots, tears, unlocksFail, cleanupsFail;
      log, exposed, failed, trace := FRESH, false, false, [];
    }

    /** Why a call may refuse although nothing failed: a name it needs is taken. */
    ghost predicate Occupied(s: Slots) {
      s.journal.Some? || s.marker || s.staging || s.worker || s.junction || s.reservationLock || s.useLock
    }

    /** The log holds only what this environment does. */
    ghost predicate Possible()
      reads this
    {
      (!tears ==> NothingTorn(log)) && (!cleanupsFail ==> CleanupsSucceed(log)) && (!unlocksFail ==> UnlocksSucceed(log))
    }

    /** What every part of the call keeps: the log stays possible, a failure is remembered, and no state was
        exposed unless the first or the last one is. */
    twostate predicate Kept()
      reads this
    {
      && (old(Possible()) ==> Possible()) && (old(failed) ==> failed)
      && (exposed ==> old(exposed) || Unprotected(old(slots)) || Unprotected(slots))
      && (old(Unprotected(slots) ==> exposed) ==> (Unprotected(slots) ==> exposed))
    }

    /** One atomic change of the namespace. */
    method Become(s: Slots)
      modifies this`slots, this`exposed
      ensures slots == s && (exposed <==> old(exposed) || Unprotected(s))
    {
      slots := s;
      exposed := exposed || Unprotected(s);
    }

    /** What a part of the call that succeeds has done: all of it, without a failure. */
    twostate predicate Did(ok: bool, events: seq<Event>)
      reads this
    {
      ok ==> trace == old(trace) + events && failed == old(failed)
    }

    /** The creation of a name. */
    method Try(s: Slots, name: Name) returns (ok: bool, ghost o: Outcome)
      modifies this
      ensures o in {Done, Failed, Torn} && (ok <==> o == Done) && (o == Torn ==> tears)
      ensures log == Making(old(log), name, o)
      ensures slots == if o == Failed then old(slots) else s
      ensures Kept() && (failed <==> old(failed) || !ok) && trace == old(trace) + [Created(name)]
    {
      ok := *;
      var effect: bool := *;
      effect := ok || (tears && effect);
      if effect {
        Become(s);
      }
      o := if ok then Done else if effect then Torn else Failed;
      MakingIsPossible(log, name, o);
      log, trace := Making(log, name, o), trace + [Created(name)];
      failed := failed || !ok;
    }

    /** A cleanup or an unlock. */
    method Undo(s: Slots, name: Name) returns (ok: bool, ghost o: Outcome)
      modifies this
      ensures o in {Done, Failed, Torn} && (ok <==> o == Done)
      ensures !ok ==> if name in {ReservationLock, UseLock} then unlocksFail else cleanupsFail
      ensures log == Unmaking(old(log), name, o)
      ensures slots == if o == Failed then old(slots) else s
      ensures Kept() && (failed <==> old(failed) || !ok) && trace == old(trace) + [Removed(name)]
    {
      ok := *;
      var effect: bool := *;
      if if name in {ReservationLock, UseLock} then !unlocksFail else !cleanupsFail {
        ok := true;
      }
      effect := ok || effect;
      if effect {
        Become(s);
      }
      o := if ok then Done else if effect then Torn else Failed;
      UnmakingIsPossible(log, name, o);
      log, trace := Unmaking(log, name, o), trace + [Removed(name)];
      failed := failed || !ok;
    }

    /** A step without effect on the namespace: a measurement, a verification, the clone itself. */
    method Step(check: Check) returns (ok: bool)
      modifies this`failed, this`trace
      ensures (failed <==> old(failed) || !ok) && trace == old(trace) + [Checked(check)]
    {
      ok := *;
      failed, trace := failed || !ok, trace + [Checked(check)];
    }

    /** The admission test and the exclusive journal. */
    method CreateJournal() returns (created: bool)
      requires log.journal == UNUSED
      modifies this
      ensures Did(created, [Checked(Admission), Created(Journal)])
      ensures Kept() && slots == old(slots).(journal := slots.journal) && log == old(log).(journal := log.journal)
      ensures log.journal.unmade == NotRun && (created <==> log.journal.made == Done)
      ensures created ==> old(slots).journal == None && slots.journal == Some(Requested)
      ensures !created ==> JournalLeft(old(slots).journal, slots.journal, log.journal, Done)
      ensures !created && !failed ==> old(slots).journal.Some?
    {
      created := Step(Admission);
      if created && slots.journal == None {
        ghost var o;
        created, o := Try(slots.(journal := Some(Requested)), Journal);
      } else {
        created := false;
      }
    }

    /** The tests for a mutation marker and a valid baseline, and the exclusive marker. */
    method CreateMarker() returns (created: bool)
      requires log.marker == UNUSED
      modifies this
      ensures Did(created, [Checked(Unmutated), Created(Marker)])
      ensures Kept() && slots == old(slots).(marker := slots.marker) && log == old(log).(marker := log.marker)
      ensures log.marker.unmade == NotRun && (created <==> log.marker.made == Done)
      ensures created ==> !old(slots).marker && slots.marker
      ensures !created ==> Left(old(slots).marker, slots.marker, log.marker)
      ensures !created && !failed ==> old(slots).marker
    {
      created := Step(Unmutated);
      if created && !slots.marker {
        ghost var o;
        created, o := Try(slots.(marker := true), Marker);
      } else {
        created := false;
      }
    }

    /** `reserveWorker`: the lock, the admission test, the exclusive journal. When the unlock fails after the
        journal was written, the caller returns before any cleanup is registered. */
    method Reserve() returns (ok: bool)
      requires log.journal == UNUSED && log.reservationLock == UNUSED
      modifies this
      ensures Did(ok, MARKED)
      ensures Kept()
      ensures slots == old(slots).(journal := slots.journal, reservationLock := slots.reservationLock)
      ensures log == old(log).(journal := log.journal, reservationLock := log.reservationLock)
      ensures ok ==> old(slots.journal == None && !slots.reservationLock)
                     && slots == old(slots).(journal := Some(Requested))
                     && log.journal == Life(Done, NotRun) && log.reservationLock == Life(Done, Done)
      ensures !ok ==> JournalLeft(old(slots).journal, slots.journal, log.journal, log.reservationLock.unmade)
                      && Left(old(slots).reservationLock, slots.reservationLock, log.reservationLock)
      ensures log.journal.made != NotRun ==> log.reservationLock.made == Done
      ensures !ok && !failed ==> old(slots.reservationLock || slots.journal.Some?)
    {
      if slots.reservationLock {
        return false;  // waits until it is cancelled
      }
      ghost var o;
      ok, o := Try(slots.(reservationLock := true), ReservationLock);
      if ok {
        ok := ReserveLocked();
      }
    }

    /** The part under the lock, and the unlock. */
    method ReserveLocked() returns (ok: bool)
      requires slots.reservationLock && log.journal == UNUSED && log.reservationLock == Life(Done, NotRun)
      modifies this
      ensures Did(ok, [Checked(Admission), Created(Journal), Removed(ReservationLock)])
      ensures Kept()
      ensures slots == old(slots).(journal := slots.journal, reservationLock := slots.reservationLock)
      ensures log == old(log).(journal := log.journal, reservationLock := log.reservationLock)
      ensures ok ==> old(slots).journal == None && slots == old(slots).(journal := Some(Requested), reservationLock := false)
                     && log.journal == Life(Done, NotRun) && log.reservationLock == Life(Done, Done)
      ensures !ok ==> JournalLeft(old(slots).journal, slots.journal, log.journal, log.reservationLock.unmade)
                      && Left(false, slots.reservationLock, log.reservationLock)
      ensures log.reservationLock.made == Done
      ensures !ok && !failed ==> old(slots).journal.Some?
    {
      var created := CreateJournal();
      var unlocked, o := Undo(slots.(reservationLock := false), ReservationLock);
      ok := created && unlocked;
    }

    /** `AcquireUse`, under the baseline's coordination lock. */
    method AcquireUse() returns (ok: bool)
      requires log.marker == UNUSED && log.useLock == UNUSED
      modifies this
      ensures Did(ok, USED)
      ensures Kept()
      ensures slots == old(slots).(marker := slots.marker, useLock := slots.useLock)
      ensures log == old(log).(marker := log.marker, useLock := log.useLock)
      ensures ok ==> old(!slots.marker && !slots.useLock) && slots == old(slots).(marker := true)
                     && log.marker == Life(Done, NotRun) && log.useLock == Life(Done, Done)
      ensures !ok ==> LockedLeft(old(slots).marker, slots.marker, log.marker, log.useLock.unmade)
                      && Left(old(slots).useLock, slots.useLock, log.useLock)
      ensures log.marker.made != NotRun ==> log.useLock.made == Done
      ensures !ok && !failed ==> old(slots.useLock || slots.marker)
    {
      if slots.useLock {
        return false;
      }
      ghost var o;
      ok, o := Try(slots.(useLock := true), UseLock);
      if ok {
        ok := UseLocked();
      }
    }

    method UseLocked() returns (ok: bool)
      requires slots.useLock && log.marker == UNUSED && log.useLock == Life(Done, NotRun)
      modifies this
      ensures Did(ok, [Checked(Unmutated), Created(Marker), Removed(UseLock)])
      ensures Kept()
      ensures slots == old(slots).(marker := slots.marker, useLock := slots.useLock)
      ensures log == old(log).(marker := log.marker, useLock := log.useLock)
      ensures ok ==> !old(slots).marker && slots == old(slots).(marker := true, useLock := false)
                     && log.marker == Life(Done, NotRun) && log.useLock == Life(Done, Done)
      ensures !ok ==> LockedLeft(old(slots).marker, slots.marker, log.marker, log.useLock.unmade)
                      && Left(false, slots.useLock, log.useLock)
      ensures log.useLock.made == Done
      ensures !ok && !failed ==> old(slots).marker
    {
      var created := CreateMarker();
      var unlocked, o := Undo(slots.(useLock := false), UseLock);
      ok := created && unlocked;
    }

    /** `updateLease`: a failing write may have replaced the journal. */
    method UpdateLease(state: LeaseState) returns (ok: bool)
      requires slots.journal.Some?
      modifies this`slots, this`exposed, this`failed, this`trace
      ensures Kept() && (failed <==> old(failed) || !ok) && trace == old(trace) + [Wrote(state)]
      ensures slots == old(slots).(journal := slots.journal) && slots.journal.Some?
      ensures ok ==> slots.journal == Some(state)
    {
      ok := *;
      var effect: bool := *;
      if ok || effect {
        Become(slots.(journal := Some(state)));
      }
      failed, trace := failed || !ok, trace + [Wrote(state)];
    }

    /** Journal and marker are there, and what follows has not begun. */
    ghost predicate Holding()
      reads this
    {
      slots.journal.Some? && slots.marker && log.junction == UNUSED
    }

    /** Checks on the committed worker, the junction, the `ready` journal. */
    method PublishWorker() returns (ok: bool)
      requires Holding()
      modifies this
      ensures Did(ok, PUBLISHED)
      ensures Kept() && slots == old(slots).(journal := slots.journal, junction := slots.junction)
      ensures slots.journal.Some? && log == old(log).(junction := log.junction)
      ensures ok ==> slots.journal == Some(Ready) && slots.junction && !old(slots).junction && log.junction == Life(Done, NotRun)
      ensures !ok ==> Left(old(slots).junction, slots.junction, log.junction)
      ensures !ok && !failed ==> old(slots).junction
    {
      var verified := Step(CommittedWorker);
      if !verified || slots.junction {
        return false;
      }
      ghost var o;
      ok, o := Try(slots.(junction := true), Junction);
      if !ok { return; }
      ok := UpdateLease(Ready);
      if !ok {
        var removed, u := Undo(slots.(junction := false), Junction);
      }
    }

    /** The committed worker, which the deferred cleanup removes when publishing it fails. */
    method KeepWorker() returns (ok: bool)
      requires Holding() && slots.worker && log.worker == Life(Done, NotRun)
      modifies this
      ensures Did(ok, PUBLISHED)
      ensures Kept() && slots == old(slots).(journal := slots.journal, worker := slots.worker, junction := slots.junction)
      ensures slots.journal.Some? && log == old(log).(worker := log.worker, junction := log.junction)
      ensures ok ==> slots.journal == Some(Ready) && slots.worker && slots.junction && !old(slots).junction
                     && log.worker == Life(Done, NotRun) && log.junction == Life(Done, NotRun)
      ensures log.worker.made == Done
      ensures !ok ==> Left(old(slots).junction, slots.junction, log.junction) && Left(false, slots.worker, log.worker)
      ensures !ok && !failed ==> old(slots).junction
    {
      ok := PublishWorker();
      if !ok {
        var removed, o := Undo(slots.(worker := false), Worker);
      }
    }

    /** Fills the staging directory and renames it to the worker path; from there on the deferred cleanup
        removes the worker instead. */
    method CommitStaging() returns (ok: bool, committed: bool)
      requires Holding() && slots.staging && !slots.worker && log.worker == UNUSED
      modifies this
      ensures Did(ok, COMMITTED)
      ensures Kept() && slots.journal.Some?
      ensures slots == old(slots).(journal := slots.journal, staging := slots.staging, worker := slots.worker, junction := slots.junction)
      ensures log == old(log).(worker := log.worker, junction := log.junction)
      ensures committed <==> log.worker.made == Done
      ensures slots.staging <==> log.worker.made !in {Done, Torn}
      ensures ok ==> committed && slots.journal == Some(Ready) && slots.worker && slots.junction && !old(slots).junction
                     && log.worker == Life(Done, NotRun) && log.junction == Life(Done, NotRun)
      ensures !ok ==> Left(old(slots).junction, slots.junction, log.junction) && Left(false, slots.worker, log.worker)
      ensures !ok && !failed ==> old(slots).junction
    {
      var cloned := Step(Clone);  // staging check, clone, metrics, owner file, access
      if !cloned {
        return false, false;
      }
      ghost var o;
      ok, o := Try(slots.(staging := false, worker := true), Worker);
      committed := ok;
      if ok {
        ok := KeepWorker();
      }
    }

    /** The deferred removal of a staging directory that this call created and did not commit. */
    method FillStaging() returns (ok: bool)
      requires Holding() && slots.staging && !slots.worker && log.worker == UNUSED && log.staging == Life(Done, NotRun)
      modifies this
      ensures Did(ok, COMMITTED)
      ensures Kept() && slots.journal.Some?
      ensures slots == old(slots).(journal := slots.journal, staging := slots.staging, worker := slots.worker, junction := slots.junction)
      ensures log == old(log).(staging := log.staging, worker := log.worker, junction := log.junction)
      ensures ok ==> slots.journal == Some(Ready) && !slots.staging && slots.worker && slots.junction && !old(slots).junction
                     && log.staging == Life(Done, NotRun) && log.worker == Life(Done, NotRun) && log.junction == Life(Done, NotRun)
      ensures !ok ==> TreesLeft(old(slots).(staging := false), slots, log)
      ensures !ok && !failed ==> old(slots).junction
    {
      var committed;
      ok, committed := CommitStaging();
      if !ok && !committed {
        var removed, o := Undo(slots.(staging := false), Staging);
      }
    }

    /** Existing staging and worker paths are refused, never adopted or removed. */
    method StageWorker() returns (ok: bool)
      requires Holding() && log.staging == UNUSED && log.worker == UNUSED
      modifies this
      ensures Did(ok, STAGED)
      ensures Kept() && slots.journal.Some?
      ensures slots == old(slots).(journal := slots.journal, staging := slots.staging, worker := slots.worker, junction := slots.junction)
      ensures log == old(log).(staging := log.staging, worker := log.worker, junction := log.junction)
      ensures ok ==> slots.journal == Some(Ready) && !slots.staging && slots.worker && slots.junction
                     && !old(slots).staging && !old(slots).worker && !old(slots).junction
                     && log.staging == Life(Done, NotRun) && log.worker == Life(Done, NotRun) && log.junction == Life(Done, NotRun)
      ensures !ok ==> TreesLeft(old(slots), slots, log)
      ensures !ok && !failed ==> old(slots).staging || old(slots).worker || old(slots).junction
    {
      var valid := Step(StagingPath);
      if !valid || slots.staging || slots.worker {
        return false;
      }
      ok := UpdateLease(Cloning);
      if !ok { return; }
      ghost var o;
      ok, o := Try(slots.(staging := true), Staging);
      if !ok { return; }
      ok := FillStaging();
    }

    /** Everything under the active use, with its deferred release. */
    method UseMarker() returns (ok: bool)
      requires Holding() && log.staging == UNUSED && log.worker == UNUSED && log.marker == Life(Done, NotRun)
      modifies this
      ensures Did(ok, STAGED)
      ensures Kept() && slots.journal.Some?
      ensures slots == old(slots).(journal := slots.journal, marker := slots.marker, staging := slots.staging,
                                   worker := slots.worker, junction := slots.junction)
      ensures log == old(log).(marker := log.marker, staging := log.staging, worker := log.worker, junction := log.junction)
      ensures ok ==> slots.journal == Some(Ready) && slots.marker && !slots.staging && slots.worker && slots.junction
                     && !old(slots).staging && !old(slots).worker && !old(slots).junction
                     && log.marker == Life(Done, NotRun)
                     && log.staging == Life(Done, NotRun) && log.worker == Life(Done, NotRun) && log.junction == Life(Done, NotRun)
      ensures !ok ==> Left(false, slots.marker, log.marker) && log.marker.made == Done && TreesLeft(old(slots), slots, log)
      ensures !ok && !failed ==> old(slots).staging || old(slots).worker || old(slots).junction
    {
      ok := StageWorker();
      if !ok {
        var released, o := Undo(slots.(marker := false), Marker);
      }
    }

    ghost predicate InnerUnused()
      reads this
    {
      log.marker == UNUSED && log.useLock == UNUSED && log.staging == UNUSED && log.worker == UNUSED && log.junction == UNUSED
    }

    /** The use of a baseline that was resolved. */
    method UseResolved() returns (ok: bool)
      requires slots.journal.Some? && InnerUnused()
      modifies this
      ensures Did(ok, USED + STAGED)
      ensures Kept() && slots.journal.Some? && log.journal == old(log).journal && log.reservationLock == old(log).reservationLock
      ensures slots.reservationLock == old(slots).reservationLock
      ensures ok ==> slots == old(slots).(journal := Some(Ready), marker := true, worker := true, junction := true)
                     && !Taken(old(slots)) && log == SUCCESS.(journal := log.journal, reservationLock := log.reservationLock)
      ensures !ok ==> InnerLeft(old(slots), slots, log)
      ensures !ok && !failed ==> Taken(old(slots))
    {
      ok := AcquireUse();
      if ok {
        ok := UseMarker();
      }
    }

    /** Everything behind the reservation. */
    method UseBaseline() returns (ok: bool)
      requires slots.journal.Some? && InnerUnused()
      modifies this
      ensures Did(ok, [Checked(Baseline)] + (USED + STAGED))
      ensures Kept() && slots.journal.Some? && log.journal == old(log).journal && log.reservationLock == old(log).reservationLock
      ensures slots.reservationLock == old(slots).reservationLock
      ensures ok ==> slots == old(slots).(journal := Some(Ready), marker := true, worker := true, junction := true)
                     && !Taken(old(slots)) && log == SUCCESS.(journal := log.journal, reservationLock := log.reservationLock)
      ensures !ok ==> InnerLeft(old(slots), slots, log)
      ensures !ok && !failed ==> Taken(old(slots))
    {
      var resolved := Step(Baseline);
      if !resolved {
        return false;
      }
      ok := UseResolved();
    }

    ghost predicate Taken(s: Slots) { s.useLock || s.marker || s.staging || s.worker || s.junction }

    /** On success the namespace is what `WorkerRelease` starts from. On failure the operations decide what is
        left (`RestoredIff`): where nothing tears and cleanups and unlocks succeed, that is nothing. A tree
        that was not there before was exposed exactly when it stayed while its marker or its journal went.
        On free names the call fails only when one of its operations does. */
    method Acquire() returns (ok: bool)
      requires log == FRESH && !exposed && !failed
      modifies this
      ensures Did(ok, ACQUIRED)
      ensures Possible()
      ensures ok ==> log == SUCCESS && !failed && !exposed && old(slots) == Slots(None, false, false, false, false, false, false)
                     && ReleaseView(slots) == Some(WorkerRelease.Disk(
                          Some(WorkerRelease.Journal(Ready, false, false, false, false, false)),
                          true, WorkerRelease.There(true), WorkerRelease.Gone, true))
      ensures !ok ==> LeftBehind(old(slots), slots, log)
      ensures !ok ==> (slots == old(slots) <==> NothingTorn(log) && CleanupsTookEffect(log) && UnlocksTookEffect(log))
      ensures !ok && !tears && !unlocksFail && !cleanupsFail ==> slots == old(slots)
      ensures !ok && !old(slots.staging || slots.worker) ==>
                (exposed <==> TreeStays(log) && !(log.marker.unmade == Failed && log.journal.unmade == Failed))
      ensures !ok && !failed ==> Occupied(old(slots))
    {
      var admissible := Step(Request);  // dependencies, request, policy, layout, token
      if !admissible {
        return false;
      }
      ok := Reserve();
      if ok {
        ok := UseReservation(old(slots));
      }
      if !ok {
        Consequences(old(slots), slots);
      }
    }

    /** Everything under the reservation, with the deferred removal of its journal; `before` is the namespace
        the call found. */
    method UseReservation(ghost before: Slots) returns (ok: bool)
      requires before.journal == None && !before.reservationLock && slots == before.(journal := Some(Requested))
      requires InnerUnused() && log.journal == Life(Done, NotRun) && log.reservationLock == Life(Done, Done)
      modifies this
      ensures Did(ok, [Checked(Baseline)] + (USED + STAGED))
      ensures Kept()
      ensures ok ==> slots == before.(journal := Some(Ready), marker := true, worker := true, junction := true)
                     && !Taken(before) && log == SUCCESS
      ensures !ok ==> LeftBehind(before, slots, log)
      ensures !ok && !failed ==> Taken(before)
    {
      ok := UseBaseline();
      if !ok {
        OutermostCleanup(before, slots, log);
        var removed, o := Undo(slots.(journal := None), Journal);
      }
    }

    lemma Consequences(before: Slots, after: Slots)
      requires LeftBehind(before, after, log) && Possible()
      ensures after == before <==> NothingTorn(log) && CleanupsTookEffect(log) && UnlocksTookEffect(log)
      ensures !tears && !unlocksFail && !cleanupsFail ==> after == before
      ensures !before.staging && !before.worker ==>
                (Unprotected(after) <==> TreeStays(log) && !(log.marker.unmade == Failed && log.journal.unmade == Failed))
    {
      RestoredIff(before, after, log);
      if !before.staging && !before.worker {
        ExposedIff(before, after, log);
      }
    }
  }

  /** The operations of a call that succeeds. */
  const SUCCESS := Log(
    Life(Done, NotRun), Life(Done, NotRun), Life(Done, NotRun), Life(Done, NotRun), Life(Done, NotRun), Life(Done, Done), Life(Done, Done))

  /** The outermost cleanup takes the journal away, or leaves it. */
  lemma OutermostCleanup(before: Slots, after: Slots, log: Log)
    requires before.journal == None && after.journal.Some? && log.journal == Life(Done, NotRun)
    requires log.reservationLock == Life(Done, Done) && !before.reservationLock
    requires InnerLeft(before, after, log) && after.reservationLock == before.reservationLock
    ensures LeftBehind(before, after, log.(journal := Life(Done, Failed)))
    ensures forall o :: o in {Done, Torn} ==> LeftBehind(before, after.(journal := None), log.(journal := Life(Done, o)))
  {
  }

  /** The slots of a fresh lease as the release protocol sees them; its quarantine name is still unused. */
  function ReleaseView(s: Slots): (view: Option<WorkerRelease.Disk>)
    ensures view.Some? <==> s.journal.Some? && !s.staging && !s.reservationLock && !s.useLock
    ensures view.Some? ==> view.value.marker == s.marker && (view.value.worker.There? <==> s.worker) && view.value.junction == s.junction
  {
    if s.staging || s.reservationLock || s.useLock || s.journal == None then None
    else Some(WorkerRelease.Disk(
      Some(WorkerRelease.Journal(s.journal.value, false, false, false, false, false)), s.marker,
      if s.worker then WorkerRelease.There(true) else WorkerRelease.Gone, WorkerRelease.Gone, s.junction))
  }
}
