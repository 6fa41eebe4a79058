/** `internal/refsworkspace/baseline.go` with `coordination.go`, for the names of one baseline key: any
    number of processes acquire and release uses, ensure, quarantine and clear the baseline. Every file
    operation is one step, any step may fail, and a process may crash anywhere. */
module BaselineCoordination {
  import opened Leases

  /** The directory at the baseline's path. `generation` tells one built directory from the next. */
  datatype Directory = Absent | Present(valid: bool, generation: nat)

  /** Who called `quarantineCoordinated`. */
  datatype Caller = Clear | Ensure

  datatype Phase =
    | Idle
    | UseLocked(lease: LeaseId, token: nat)
    | UseUnmutated(lease: LeaseId, token: nat)
    | UseResolved(lease: LeaseId, token: nat)
    | UseUnlock
    | MutationLocked(caller: Caller)
    | MutationMarked(caller: Caller)
    | MutationListing(caller: Caller, start: set<LeaseId>)
    | MutationUnused(caller: Caller)
    | MutationUnmark(caller: Caller, moved: bool)
    | MutationUnlock(caller: Caller, moved: bool)
    | EnsureLocked
    | EnsureCorrupt
    | EnsureBuilding
    | EnsureCommit
    | EnsureUnlock
    | Crashed

  datatype State = State(
    baseline: Directory, built: nat,
    coordination: Option<nat>, creation: Option<nat>, mutation: Option<nat>,
    uses: map<LeaseId, nat>, cleanupFailed: bool,
    phases: map<nat, Phase>)

  datatype Action =
    | BeginUse(p: nat, lease: LeaseId, token: nat)
    | SeeNoMutation(p: nat)
    | Resolve(p: nat)
    | WriteUse(p: nat)
    | ReleaseUse(lease: LeaseId, token: nat)
    | BeginClear(p: nat)
    | BeginEnsure(p: nat)
    | EnsureResolve(p: nat)
    | LockMutation(p: nat)
    | MarkMutation(p: nat)
    | BeginListing(p: nat)
    | EndListing(p: nat, seen: set<LeaseId>)
    | MoveBaseline(p: nat)
    | Unmark(p: nat, removed: bool)
    | UnlockCoordination(p: nat, removed: bool)
    | FinishBuild(p: nat)
    | CommitBuild(p: nat)
    | UnlockCreation(p: nat, removed: bool)
    | Fail(p: nat)
    | Crash(p: nat)
    | TornMark(p: nat)
    | Damage

  function PhaseOf(s: State, p: nat): Phase {
    if p in s.phases then s.phases[p] else Crashed
  }

  predicate Enabled(s: State, a: Action) {
    match a
    case BeginUse(p, _, _) => PhaseOf(s, p).Idle? && s.coordination == None
    case SeeNoMutation(p) => PhaseOf(s, p).UseLocked?
    case Resolve(p) => PhaseOf(s, p).UseUnmutated?
    case WriteUse(p) => PhaseOf(s, p).UseResolved?
    case ReleaseUse(lease, token) => lease in s.uses && s.uses[lease] == token
    case BeginClear(p) => PhaseOf(s, p).Idle? && s.coordination == None
    case BeginEnsure(p) => PhaseOf(s, p).Idle? && s.creation == None
    case EnsureResolve(p) => PhaseOf(s, p).EnsureLocked?
    case LockMutation(p) => PhaseOf(s, p).EnsureCorrupt? && s.coordination == None
    case MarkMutation(p) => PhaseOf(s, p).MutationLocked?
    // The write of the marker fails and its removal as well; the caller has no cleanup for it.
    case TornMark(p) => PhaseOf(s, p).MutationLocked? && s.mutation == None
    case BeginListing(p) => PhaseOf(s, p).MutationMarked?
    // A directory listing returns at least the entries that exist from its start to its end.
    case EndListing(p, seen) => PhaseOf(s, p).MutationListing? && PhaseOf(s, p).start * s.uses.Keys <= seen
    case MoveBaseline(p) => PhaseOf(s, p).MutationUnused?
    case Unmark(p, _) => PhaseOf(s, p).MutationUnmark?
    case UnlockCoordination(p, _) => PhaseOf(s, p).MutationUnlock? || PhaseOf(s, p).UseUnlock?
    case FinishBuild(p) => PhaseOf(s, p).EnsureBuilding?
    case CommitBuild(p) => PhaseOf(s, p).EnsureCommit?
    case UnlockCreation(p, _) => PhaseOf(s, p).EnsureUnlock?
    case Fail(p) => p in s.phases && s.phases[p] != Crashed
    case Crash(p) => p in s.phases
    case Damage => s.baseline.Present?
  }

  /** Where a process continues when the step it is about to take fails: behind its deferred cleanups. */
  function AfterFailure(phase: Phase): Phase {
    match phase
    case UseLocked(_, _) | UseUnmutated(_, _) | UseResolved(_, _) => UseUnlock
    case MutationLocked(caller) => MutationUnlock(caller, false)
    case MutationMarked(caller) => MutationUnmark(caller, false)
    case MutationListing(caller, _) => MutationUnmark(caller, false)
    case MutationUnused(caller) => MutationUnmark(caller, false)
    case EnsureLocked | EnsureCorrupt | EnsureBuilding | EnsureCommit => EnsureUnlock
    case _ => phase
  }

  function Go(s: State, p: nat, phase: Phase): State { s.(phases := s.phases[p := phase]) }

  function Apply(s: State, a: Action): State
    requires Enabled(s, a)
  {
    match a
    case BeginUse(p, lease, token) => Go(s.(coordination := Some(p)), p, UseLocked(lease, token))
    case SeeNoMutation(p) =>
      var f := s.phases[p];
      Go(s, p, if s.mutation.Some? then UseUnlock else UseUnmutated(f.lease, f.token))
    case Resolve(p) =>
      var f := s.phases[p];
      Go(s, p, if s.baseline.Present? && s.baseline.valid then UseResolved(f.lease, f.token) else UseUnlock)
    case WriteUse(p) =>
      var f := s.phases[p];
      Go(if f.lease in s.uses then s else s.(uses := s.uses[f.lease := f.token]), p, UseUnlock)
    case ReleaseUse(lease, _) => s.(uses := s.uses - {lease})
    case BeginClear(p) => Go(s.(coordination := Some(p)), p, MutationLocked(Clear))
    case BeginEnsure(p) => Go(s.(creation := Some(p)), p, EnsureLocked)
    case EnsureResolve(p) =>
      Go(s, p, if s.baseline == Absent then EnsureBuilding else if s.baseline.valid then EnsureUnlock else EnsureCorrupt)
    case LockMutation(p) => Go(s.(coordination := Some(p)), p, MutationLocked(Ensure))
    case MarkMutation(p) =>
      var c := s.phases[p].caller;
      if s.mutation.Some? then Go(s, p, MutationUnlock(c, false)) else Go(s.(mutation := Some(p)), p, MutationMarked(c))
    case TornMark(p) => Go(s.(mutation := Some(p), cleanupFailed := true), p, MutationUnlock(s.phases[p].caller, false))
    case BeginListing(p) => Go(s, p, MutationListing(s.phases[p].caller, s.uses.Keys))
    case EndListing(p, seen) =>
      var c := s.phases[p].caller;
      Go(s, p, if seen == {} then MutationUnused(c) else MutationUnmark(c, false))
    case MoveBaseline(p) =>
      Go(s.(baseline := Absent), p, MutationUnmark(s.phases[p].caller, s.baseline.Present?))
    case Unmark(p, removed) =>
      var f := s.phases[p];
      Go(if removed then s.(mutation := None) else s.(cleanupFailed := true), p, MutationUnlock(f.caller, f.moved && removed))
    case UnlockCoordination(p, removed) =>
      var f := s.phases[p];
      var next := if f.MutationUnlock? && f.caller == Ensure then (if f.moved && removed then EnsureBuilding else EnsureUnlock) else Idle;
      Go(if removed then s.(coordination := None) else s, p, next)
    case FinishBuild(p) => Go(s, p, if s.baseline == Absent then EnsureCommit else EnsureUnlock)
    case CommitBuild(p) =>
      // A rename onto an existing directory fails.
      Go(if s.baseline == Absent then s.(baseline := Present(true, s.built), built := s.built + 1) else s, p, EnsureUnlock)
    case UnlockCreation(p, removed) => Go(if removed then s.(creation := None) else s, p, Idle)
    case Fail(p) => Go(s, p, AfterFailure(s.phases[p]))
    case Crash(p) => Go(s, p, Crashed)
    case Damage => s.(baseline := s.baseline.(valid := false))
  }

  ghost predicate HoldsCoordination(f: Phase) {
    f.UseLocked? || f.UseUnmutated? || f.UseResolved? || f.UseUnlock? || f.MutationLocked? || f.MutationMarked?
    || f.MutationListing? || f.MutationUnused? || f.MutationUnmark? || f.MutationUnlock?
  }

  ghost predicate OwnsMarker(f: Phase) {
    f.MutationMarked? || f.MutationListing? || f.MutationUnused? || f.MutationUnmark?
  }

  ghost predicate HoldsCreation(f: Phase) {
    || f.EnsureLocked? || f.EnsureCorrupt? || f.EnsureBuilding? || f.EnsureCommit? || f.EnsureUnlock?
    || (HoldsCoordination(f) && !f.UseLocked? && !f.UseUnmutated? && !f.UseResolved? && !f.UseUnlock? && f.caller == Ensure)
  }

  ghost predicate PhaseInv(s: State, p: nat, f: Phase) {
    && (HoldsCoordination(f) ==> s.coordination == Some(p))
    && (HoldsCreation(f) ==> s.creation == Some(p))
    && (OwnsMarker(f) ==> s.mutation == Some(p))
    && (f.UseResolved? ==> s.baseline.Present?)
    && (f.MutationListing? ==> s.uses.Keys <= f.start)
    && (f.MutationUnused? ==> s.uses == map[])
  }

  ghost predicate Inv(s: State) {
    && (forall p :: p in s.phases ==> PhaseInv(s, p, s.phases[p]))
    && (s.uses != map[] ==> s.baseline.Present?)
    && MarkerInv(s)
  }

  ghost predicate Init(s: State) {
    && s.coordination == None && s.creation == None && s.mutation == None && s.uses == map[] && !s.cleanupFailed
    && forall p :: p in s.phases ==> s.phases[p] == Idle
  }

  /** The steps on the coordination lock's side of the protocol; the others build, fail or crash. */
  ghost predicate UseStep(a: Action) {
    a.BeginUse? || a.SeeNoMutation? || a.Resolve? || a.WriteUse? || a.ReleaseUse? || a.UnlockCoordination? || a.BeginClear?
  }

  ghost predicate MutationStep(a: Action) {
    a.LockMutation? || a.MarkMutation? || a.TornMark? || a.BeginListing? || a.EndListing? || a.MoveBaseline? || a.Unmark?
  }

  /** Each step keeps the invariant of the process that takes it, of every other process, and of the
      shared names. */
  lemma OwnUsePhase(s: State, a: Action, p: nat)
    requires Inv(s) && Enabled(s, a) && p in s.phases && PhaseOf(Apply(s, a), p) != s.phases[p] && UseStep(a)
    ensures PhaseInv(Apply(s, a), p, PhaseOf(Apply(s, a), p))
  {
    assert PhaseInv(s, p, s.phases[p]);
  }

  lemma OwnListingPhase(s: State, a: Action, p: nat)
    requires Inv(s) && Enabled(s, a) && p in s.phases && PhaseOf(Apply(s, a), p) != s.phases[p]
    requires a.BeginListing? || a.EndListing?
    ensures PhaseInv(Apply(s, a), p, PhaseOf(Apply(s, a), p))
  {
    assert PhaseInv(s, p, s.phases[p]);
    if a.EndListing? && a.seen == {} {
      assert s.uses.Keys == s.phases[p].start * s.uses.Keys;
    }
  }

  lemma OwnMovePhase(s: State, a: Action, p: nat)
    requires Inv(s) && Enabled(s, a) && p in s.phases && PhaseOf(Apply(s, a), p) != s.phases[p]
    requires a.MoveBaseline? || a.Unmark?
    ensures PhaseInv(Apply(s, a), p, PhaseOf(Apply(s, a), p))
  {
    assert PhaseInv(s, p, s.phases[p]);
  }

  lemma OwnMutationPhase(s: State, a: Action, p: nat)
    requires Inv(s) && Enabled(s, a) && p in s.phases && PhaseOf(Apply(s, a), p) != s.phases[p] && MutationStep(a)
    ensures PhaseInv(Apply(s, a), p, PhaseOf(Apply(s, a), p))
  {
    if a.BeginListing? || a.EndListing? {
      OwnListingPhase(s, a, p);
    } else if a.MoveBaseline? || a.Unmark? {
      OwnMovePhase(s, a, p);
    } else {
      assert PhaseInv(s, p, s.phases[p]);
    }
  }

  lemma OwnOtherPhase(s: State, a: Action, p: nat)
    requires Inv(s) && Enabled(s, a) && p in s.phases && PhaseOf(Apply(s, a), p) != s.phases[p]
    requires !UseStep(a) && !MutationStep(a)
    ensures PhaseInv(Apply(s, a), p, PhaseOf(Apply(s, a), p))
  {
    assert PhaseInv(s, p, s.phases[p]);
  }

  lemma OtherPhases(s: State, a: Action, p: nat)
    requires Inv(s) && Enabled(s, a) && p in s.phases && PhaseOf(Apply(s, a), p) == s.phases[p]
    ensures PhaseInv(Apply(s, a), p, s.phases[p])
  {
    assert PhaseInv(s, p, s.phases[p]);
  }

  ghost predicate MarkerInv(s: State) {
    s.mutation.Some? && !s.cleanupFailed ==>
      && s.mutation.value in s.phases && s.coordination == s.mutation
      && (OwnsMarker(s.phases[s.mutation.value]) || s.phases[s.mutation.value] == Crashed)
  }

  lemma StepKeepsMarkerInv(s: State, a: Action)
    requires Inv(s) && Enabled(s, a)
    ensures MarkerInv(Apply(s, a))
  {
    if s.mutation.Some? && s.mutation.value in s.phases {
      assert PhaseInv(s, s.mutation.value, s.phases[s.mutation.value]);
    }
  }

  /** What one step may do to the directory at the baseline's path. */
  ghost predicate DirectoryKept(s: State, t: State) {
    && (s.uses != map[] ==> s.baseline.Present? && t.baseline.Present? && t.baseline.generation == s.baseline.generation)
    && (t.uses != map[] ==> t.baseline.Present?)
    && (s.baseline.Present? && t.baseline.Present? ==> t.baseline.generation == s.baseline.generation)
  }

  lemma StepKeepsDirectory(s: State, a: Action)
    requires Inv(s) && Enabled(s, a)
    ensures DirectoryKept(s, Apply(s, a))
  {
    match a
    case MoveBaseline(p) => assert PhaseInv(s, p, s.phases[p]);
    case WriteUse(p) => assert PhaseInv(s, p, s.phases[p]);
    case _ =>
  }

  lemma SameProcesses(s: State, a: Action, p: nat)
    requires Enabled(s, a)
    ensures p in Apply(s, a).phases <==> p in s.phases
  {
  }

  lemma StepKeepsInv(s: State, a: Action)
    requires Inv(s) && Enabled(s, a)
    ensures Inv(Apply(s, a))
  {
    var t := Apply(s, a);
    StepKeepsMarkerInv(s, a);
    StepKeepsDirectory(s, a);
    forall p | p in t.phases
      ensures PhaseInv(t, p, t.phases[p])
    {
      SameProcesses(s, a, p);
      if t.phases[p] == s.phases[p] { OtherPhases(s, a, p); }
      else if UseStep(a) { OwnUsePhase(s, a, p); }
      else if MutationStep(a) { OwnMutationPhase(s, a, p); }
      else { OwnOtherPhase(s, a, p); }
    }
  }

  lemma InitialInv(s: State)
    requires Init(s)
    ensures Inv(s)
  {
  }

  /** What a run left behind, uses, abandoned locks and markers included, starts the next one: the old
      processes have crashed, new ones are idle. */
  lemma RestartInv(s: State, phases: map<nat, Phase>)
    requires Inv(s)
    requires forall p :: p in s.phases ==> p in phases && phases[p] == Crashed
    requires forall p :: p in phases && p !in s.phases ==> phases[p] == Idle
    ensures Inv(s.(phases := phases))
  {
  }

  /** A run, from any state that satisfies the invariant. */
  ghost predicate Run(states: seq<State>, actions: seq<Action>) {
    && |states| == |actions| + 1 && Inv(states[0])
    && forall i :: 0 <= i < |actions| ==> Enabled(states[i], actions[i]) && states[i + 1] == Apply(states[i], actions[i])
  }

  lemma {:induction false} RunKeepsInv(states: seq<State>, actions: seq<Action>, i: nat)
    requires Run(states, actions) && i < |states|
    ensures Inv(states[i])
  {
    if i > 0 {
      RunKeepsInv(states, actions, i - 1);
      StepKeepsInv(states[i - 1], actions[i - 1]);
    }
  }

  lemma RunKeepsDirectory(states: seq<State>, actions: seq<Action>, i: nat)
    requires Run(states, actions) && i < |actions|
    ensures DirectoryKept(states[i], states[i + 1])
  {
    RunKeepsInv(states, actions, i);
    StepKeepsDirectory(states[i], actions[i]);
  }

  /** What the steps of a run say about the directory, without the steps. */
  ghost predicate Continuous(states: seq<State>) {
    && (forall i :: 0 <= i < |states| ==> UsedIsPresent(states[i]))
    && forall i :: 0 <= i < |states| - 1 ==> DirectoryKept(states[i], states[i + 1])
  }

  ghost predicate UsedIsPresent(s: State) { s.uses != map[] ==> s.baseline.Present? }

  lemma RunIsContinuous(states: seq<State>, actions: seq<Action>)
    requires Run(states, actions)
    ensures Continuous(states)
  {
    forall i | 0 <= i < |states|
      ensures UsedIsPresent(states[i])
    {
      RunKeepsInv(states, actions, i);
    }
    forall i | 0 <= i < |states| - 1
      ensures DirectoryKept(states[i], states[i + 1])
    {
      RunKeepsDirectory(states, actions, i);
    }
  }

  ghost predicate UsedThroughout(states: seq<State>, i: nat, j: nat)
    requires j < |states|
  {
    forall k :: i <= k <= j ==> states[k].uses != map[]
  }

  lemma {:induction false} UsedStays(states: seq<State>, i: nat, j: nat)
    requires Continuous(states) && i <= j < |states| && UsedThroughout(states, i, j)
    ensures states[i].baseline.Present? && states[j].baseline.Present?
    ensures states[i].baseline.generation == states[j].baseline.generation
    decreases j - i
  {
    assert UsedIsPresent(states[i]);
    if i < j {
      UsedStays(states, i, j - 1);
      assert DirectoryKept(states[j - 1], states[j - 1 + 1]);
    }
  }

  /** While an active-use marker exists in every state of an interval, the directory at the baseline's
      path is one and the same: no interleaving of clear, quarantine or rebuild moves or replaces it. */
  lemma InUseBaselineStays(states: seq<State>, actions: seq<Action>, i: nat, j: nat)
    requires Run(states, actions) && i <= j < |states| && UsedThroughout(states, i, j)
    ensures states[i].baseline.Present? && states[j].baseline.Present?
    ensures states[i].baseline.generation == states[j].baseline.generation
  {
    RunIsContinuous(states, actions);
    UsedStays(states, i, j);
  }

  /** A use is granted only on a valid or since damaged, but never moved, baseline, and never while a
      mutation marker stands: the rename and a new use cannot both win. */
  lemma GrantedUseHasBaseline(states: seq<State>, actions: seq<Action>, i: nat, p: nat)
    requires Run(states, actions) && i < |actions| && actions[i] == WriteUse(p)
    requires states[i + 1].uses != states[i].uses
    ensures states[i].baseline.Present? && states[i].phases[p].lease !in states[i].uses
    ensures forall q :: q in states[i].phases && q != p ==> !HoldsCoordination(states[i].phases[q])
    ensures !states[i].cleanupFailed ==> states[i].mutation == None
  {
    RunKeepsInv(states, actions, i);
    var s := states[i];
    assert PhaseInv(s, p, s.phases[p]);
    forall q | q in s.phases && q != p
      ensures !HoldsCoordination(s.phases[q])
    {
      assert PhaseInv(s, q, s.phases[q]);
    }
  }

  /** Unless a marker removal failed, the mutation marker stands only while its creator's coordination
      lock stands; a crash leaves both behind together. */
  lemma MutationMarkerUnderLock(states: seq<State>, actions: seq<Action>, i: nat)
    requires Run(states, actions) && i < |states|
    ensures states[i].mutation.Some? && !states[i].cleanupFailed ==> states[i].coordination == states[i].mutation
  {
    RunKeepsInv(states, actions, i);
  }

  /** At most one process builds, and a commit never replaces an existing baseline. */
  lemma CommitNeverReplaces(states: seq<State>, actions: seq<Action>, i: nat, p: nat, q: nat)
    requires Run(states, actions) && i < |actions|
    ensures p in states[i].phases && q in states[i].phases && HoldsCreation(states[i].phases[p]) && HoldsCreation(states[i].phases[q])
            ==> p == q
    ensures states[i].baseline.Present? && states[i + 1].baseline.Present?
            ==> states[i + 1].baseline.generation == states[i].baseline.generation
  {
    RunKeepsInv(states, actions, i);
    RunKeepsDirectory(states, actions, i);
    if p in states[i].phases && q in states[i].phases {
      assert PhaseInv(states[i], p, states[i].phases[p]) && PhaseInv(states[i], q, states[i].phases[q]);
    }
  }

  // ---------------------------------------------------------------- calls that nothing disturbs

  /** A step is taken if the call has got that far. */
  function Step(s: State, a: Action): State { if Enabled(s, a) then Apply(s, a) else s }

  function CheckUseAlone(s: State, p: nat, lease: LeaseId, token: nat): State {
    Step(Step(Step(s, BeginUse(p, lease, token)), SeeNoMutation(p)), Resolve(p))
  }

  function AcquireUseAlone(s: State, p: nat, lease: LeaseId, token: nat): State {
    var checked := CheckUseAlone(s, p, lease, token);
    Step(Step(checked, WriteUse(p)), UnlockCoordination(p, true))
  }

  /** The marked part of a quarantine: under the coordination lock, from the mutation marker on. */
  function ListAlone(s: State, p: nat, seen: set<LeaseId>): State {
    Step(Step(Step(s, MarkMutation(p)), BeginListing(p)), EndListing(p, seen))
  }

  function MoveAlone(s: State, p: nat): State {
    Step(Step(Step(s, MoveBaseline(p)), Unmark(p, true)), UnlockCoordination(p, true))
  }

  function MutateAlone(s: State, p: nat, seen: set<LeaseId>): State { MoveAlone(ListAlone(s, p, seen), p) }

  function ClearAlone(s: State, p: nat, seen: set<LeaseId>): State { MutateAlone(Step(s, BeginClear(p)), p, seen) }

  function EnsureAlone(s: State, p: nat, seen: set<LeaseId>): State {
    var resolved := Step(Step(s, BeginEnsure(p)), EnsureResolve(p));
    var cleared := MutateAlone(Step(resolved, LockMutation(p)), p, seen);
    Step(Step(Step(cleared, FinishBuild(p)), CommitBuild(p)), UnlockCreation(p, true))
  }

  predicate Corrupt(d: Directory) { d.Present? && !d.valid }

  ghost predicate Quiet(s: State, p: nat) {
    p in s.phases && s.phases[p] == Idle && s.coordination == None && s.creation == None
  }

  lemma CheckUseAloneIff(s: State, p: nat, lease: LeaseId, token: nat)
    requires Quiet(s, p)
    ensures var usable := s.mutation == None && s.baseline.Present? && s.baseline.valid;
            CheckUseAlone(s, p, lease, token)
            == Go(s.(coordination := Some(p)), p, if usable then UseResolved(lease, token) else UseUnlock)
  {
  }

  /** An undisturbed `AcquireUse` grants the use exactly on a valid, unmutated baseline and a fresh lease id,
      and changes nothing else. */
  lemma AcquireUseAloneIff(s: State, p: nat, lease: LeaseId, token: nat)
    requires Quiet(s, p)
    ensures var granted := s.mutation == None && s.baseline.Present? && s.baseline.valid && lease !in s.uses;
            AcquireUseAlone(s, p, lease, token) == s.(uses := if granted then s.uses[lease := token] else s.uses)
  {
    CheckUseAloneIff(s, p, lease, token);
    assert s.phases[p := Idle] == s.phases;
  }

  /** From the lock on, an undisturbed quarantine moves the baseline exactly when it is unused and no other
      mutation is marked; marker and lock are gone afterwards. */
  function Quarantined(s: State, p: nat, caller: Caller): State {
    var clear := s.mutation == None && s.uses == map[];
    s.(baseline := if clear then Absent else s.baseline, coordination := None,
       phases := s.phases[p := if caller == Clear then Idle
                               else if clear && s.baseline.Present? then EnsureBuilding else EnsureUnlock])
  }

  ghost predicate InsideLock(s: State, p: nat, caller: Caller) {
    PhaseOf(s, p) == MutationLocked(caller) && s.coordination == Some(p)
  }

  lemma ListAloneIff(s: State, p: nat, caller: Caller, seen: set<LeaseId>)
    requires InsideLock(s, p, caller) && seen == s.uses.Keys
    ensures ListAlone(s, p, seen)
         == if s.mutation.Some? then Go(s, p, MutationUnlock(caller, false))
            else Go(s.(mutation := Some(p)), p, if s.uses == map[] then MutationUnused(caller) else MutationUnmark(caller, false))
  {
    assert s.uses.Keys == {} <==> s.uses == map[];
  }

  lemma UnlockAfterRefusal(s: State, p: nat, caller: Caller)
    requires PhaseOf(s, p) == MutationUnlock(caller, false) || (PhaseOf(s, p) == MutationUnmark(caller, false) && s.mutation == Some(p))
    ensures MoveAlone(s, p) == s.(mutation := if PhaseOf(s, p).MutationUnmark? then None else s.mutation, coordination := None,
                                  phases := s.phases[p := if caller == Clear then Idle else EnsureUnlock])
  {
  }

  lemma UnlockAfterMove(s: State, p: nat, caller: Caller)
    requires PhaseOf(s, p) == MutationUnused(caller) && s.mutation == Some(p)
    ensures MoveAlone(s, p) == s.(baseline := Absent, mutation := None, coordination := None,
                                  phases := s.phases[p := if caller == Clear then Idle
                                                          else if s.baseline.Present? then EnsureBuilding else EnsureUnlock])
  {
  }

  lemma MutateAloneIff(s: State, p: nat, caller: Caller, seen: set<LeaseId>)
    requires InsideLock(s, p, caller) && seen == s.uses.Keys
    ensures MutateAlone(s, p, seen) == Quarantined(s, p, caller)
  {
    ListAloneIff(s, p, caller, seen);
    var listed := ListAlone(s, p, seen);
    if s.mutation == None && s.uses == map[] {
      UnlockAfterMove(listed, p, caller);
    } else {
      UnlockAfterRefusal(listed, p, caller);
    }
  }

  /** An undisturbed `Clear` leaves no baseline, or changes nothing because a use or a mutation forbids it. */
  lemma ClearAloneIff(s: State, p: nat, seen: set<LeaseId>)
    requires Quiet(s, p) && seen == s.uses.Keys
    ensures ClearAlone(s, p, seen) == s.(baseline := if s.mutation == None && s.uses == map[] then Absent else s.baseline)
  {
    var locked := Step(s, BeginClear(p));
    MutateAloneIff(locked, p, Clear, seen);
    assert locked.phases[p := Idle] == s.phases;
  }

  /** An undisturbed `Ensure` keeps a valid baseline, builds a missing one, and replaces a corrupt one
      exactly when no use and no mutation forbids its quarantine. */
  lemma EnsureAloneIff(s: State, p: nat, seen: set<LeaseId>)
    requires Quiet(s, p) && seen == s.uses.Keys
    ensures var builds := s.baseline == Absent || (Corrupt(s.baseline) && s.mutation == None && s.uses == map[]);
            EnsureAlone(s, p, seen) == if builds then s.(baseline := Present(true, s.built), built := s.built + 1) else s
  {
    CheckAlone(s, p);
    var locked := Step(Step(Step(s, BeginEnsure(p)), EnsureResolve(p)), LockMutation(p));
    if Corrupt(s.baseline) {
      MutateAloneIff(locked, p, Ensure, seen);
      FinishAlone(s, Quarantined(locked, p, Ensure), p);
    } else {
      NoMutation(locked, p, seen);
      FinishAlone(s, locked, p);
    }
  }

  lemma CheckAlone(s: State, p: nat)
    requires Quiet(s, p)
    ensures Step(Step(Step(s, BeginEnsure(p)), EnsureResolve(p)), LockMutation(p))
         == s.(creation := Some(p), coordination := if Corrupt(s.baseline) then Some(p) else None,
               phases := s.phases[p := if Corrupt(s.baseline) then MutationLocked(Ensure)
                                       else if s.baseline == Absent then EnsureBuilding else EnsureUnlock])
  {
  }

  lemma NoMutation(s: State, p: nat, seen: set<LeaseId>)
    requires PhaseOf(s, p) == EnsureBuilding || PhaseOf(s, p) == EnsureUnlock
    ensures MutateAlone(s, p, seen) == s
  {
  }

  /** The build, the commit and the creation lock, from whatever the check of the old baseline led to. */
  lemma FinishAlone(s: State, t: State, p: nat)
    requires Quiet(s, p) && (PhaseOf(t, p) == EnsureBuilding || PhaseOf(t, p) == EnsureUnlock)
    requires t == s.(baseline := t.baseline, creation := Some(p), phases := s.phases[p := PhaseOf(t, p)])
    requires PhaseOf(t, p) == EnsureBuilding ==> t.baseline == Absent
    ensures Step(Step(Step(t, FinishBuild(p)), CommitBuild(p)), UnlockCreation(p, true))
         == if PhaseOf(t, p) == EnsureBuilding then s.(baseline := Present(true, s.built), built := s.built + 1)
            else s.(baseline := t.baseline)
  {
    assert s.phases[p := Idle] == s.phases;
  }

  // ---------------------------------------------------------------- calls that fail

  /** A step of `p` fails under the coordination lock, and the deferred cleanups run: marker, then lock. */
  function AbortInside(s: State, p: nat): State {
    Step(Step(Step(s, Fail(p)), Unmark(p, true)), UnlockCoordination(p, true))
  }

  /** A step of `p` fails under the creation lock. */
  function AbortBuild(s: State, p: nat): State { Step(Step(s, Fail(p)), UnlockCreation(p, true)) }

  lemma GoTwice(s: State, p: nat, f: Phase, g: Phase)
    ensures Go(Go(s, p, f), p, g) == Go(s, p, g)
  {
    assert s.phases[p := f][p := g] == s.phases[p := g];
  }

  /** Where a call continues behind the coordination lock; a failed one never builds, unless the directory
      had been moved already. */
  function Behind(f: Phase): Phase {
    if f.UseLocked? || f.UseUnmutated? || f.UseResolved? || f.UseUnlock? then Idle
    else if (f.MutationUnmark? || f.MutationUnlock?) && f.caller == Ensure && f.moved then EnsureBuilding
    else if f.EnsureLocked? || f.Idle? || f.Crashed? || f.EnsureCorrupt? || f.EnsureBuilding? || f.EnsureCommit? || f.EnsureUnlock? then f
    else if f.caller == Ensure then EnsureUnlock else Idle
  }

  /** Wherever a call fails under the coordination lock, an undisturbed failure gives back the lock and the
      marker, and leaves uses and baseline as they were. */
  lemma FailedInsideLeavesNothing(s: State, p: nat)
    requires p in s.phases && HoldsCoordination(s.phases[p])
    ensures AbortInside(s, p)
         == Go(s.(coordination := None, mutation := if OwnsMarker(s.phases[p]) then None else s.mutation), p, Behind(s.phases[p]))
  {
    var f := s.phases[p];
    if OwnsMarker(f) {
      FailedUnderMarker(s, p);
    } else if f.MutationLocked? || f.MutationUnlock? {
      FailedUnderLock(s, p);
    } else {
      FailedUse(s, p);
    }
  }

  lemma FailedUse(s: State, p: nat)
    requires p in s.phases && (s.phases[p].UseLocked? || s.phases[p].UseUnmutated? || s.phases[p].UseResolved? || s.phases[p].UseUnlock?)
    ensures AbortInside(s, p) == Go(s.(coordination := None), p, Idle)
  {
    var failed := Go(s, p, UseUnlock);
    assert s.phases[p] == UseUnlock ==> s.phases[p := UseUnlock] == s.phases;
    assert Step(s, Fail(p)) == failed;
    assert Step(failed, Unmark(p, true)) == failed;
    GoTwice(s.(coordination := None), p, UseUnlock, Idle);
  }

  lemma FailedUnderLock(s: State, p: nat)
    requires p in s.phases && (s.phases[p].MutationLocked? || s.phases[p].MutationUnlock?)
    ensures AbortInside(s, p) == Go(s.(coordination := None), p, Behind(s.phases[p]))
  {
    var f := AfterFailure(s.phases[p]);
    var failed := Go(s, p, f);
    assert s.phases[p] == f ==> s.phases[p := f] == s.phases;
    assert Step(s, Fail(p)) == failed;
    assert Step(failed, Unmark(p, true)) == failed;
    GoTwice(s.(coordination := None), p, f, Behind(s.phases[p]));
  }

  lemma FailedUnderMarker(s: State, p: nat)
    requires p in s.phases && OwnsMarker(s.phases[p])
    ensures AbortInside(s, p) == Go(s.(coordination := None, mutation := None), p, Behind(s.phases[p]))
  {
    var f := AfterFailure(s.phases[p]);
    var failed := Go(s, p, f);
    assert s.phases[p] == f ==> s.phases[p := f] == s.phases;
    assert Step(s, Fail(p)) == failed;
    var unmarked := Go(s.(mutation := None), p, MutationUnlock(f.caller, f.moved));
    GoTwice(s.(mutation := None), p, f, MutationUnlock(f.caller, f.moved));
    assert Step(failed, Unmark(p, true)) == unmarked;
    GoTwice(s.(mutation := None, coordination := None), p, MutationUnlock(f.caller, f.moved), Behind(s.phases[p]));
  }

  /** The same for a failure under the creation lock alone. */
  lemma FailedBuildLeavesNothing(s: State, p: nat)
    requires p in s.phases && HoldsCreation(s.phases[p]) && !HoldsCoordination(s.phases[p])
    ensures AbortBuild(s, p) == Go(s.(creation := None), p, Idle)
  {
    assert s.phases[p] == EnsureUnlock ==> s.phases[p := EnsureUnlock] == s.phases;
    assert Step(s, Fail(p)) == Go(s, p, EnsureUnlock);
    GoTwice(s.(creation := None), p, EnsureUnlock, Idle);
  }

  /** Giving a use back undoes what granting it did, and only the token that was granted can. */
  lemma UseRoundTrip(s: State, p: nat, lease: LeaseId, token: nat, other: nat)
    requires Quiet(s, p) && s.mutation == None && s.baseline.Present? && s.baseline.valid && lease !in s.uses && other != token
    ensures var granted := AcquireUseAlone(s, p, lease, token);
            && Enabled(granted, ReleaseUse(lease, token)) && Apply(granted, ReleaseUse(lease, token)) == s
            && !Enabled(granted, ReleaseUse(lease, other))
  {
    AcquireUseAloneIff(s, p, lease, token);
    assert s.uses[lease := token] - {lease} == s.uses;
  }

  /** What a failing cleanup leaves: the lock, or the marker, which is then on record as such. */
  lemma FailedCleanupLeaves(s: State, p: nat)
    ensures Enabled(s, UnlockCoordination(p, false)) ==> Apply(s, UnlockCoordination(p, false)).coordination == s.coordination
    ensures Enabled(s, UnlockCreation(p, false)) ==> Apply(s, UnlockCreation(p, false)).creation == s.creation
    ensures Enabled(s, Unmark(p, false)) ==>
              Apply(s, Unmark(p, false)).mutation == s.mutation && Apply(s, Unmark(p, false)).cleanupFailed
    ensures Enabled(s, TornMark(p)) ==>
              var t := Apply(s, TornMark(p));
              s.mutation == None && t.mutation == Some(p) && t.cleanupFailed && PhaseOf(t, p) == MutationUnlock(s.phases[p].caller, false)
  {
  }

  /** A lock is there because its holder works or crashed under it, or could not remove it. */
  lemma {:induction false} LocksHeldBecause(states: seq<State>, actions: seq<Action>, i: nat, p: nat)
    requires Run(states, actions) && i < |states| && states[0].coordination == None && states[0].creation == None
    ensures states[i].coordination == Some(p) ==>
              HoldsCoordination(PhaseOf(states[i], p)) || PhaseOf(states[i], p) == Crashed
              || exists j :: 0 <= j < i && actions[j] == UnlockCoordination(p, false)
    ensures states[i].creation == Some(p) ==>
              HoldsCreation(PhaseOf(states[i], p)) || PhaseOf(states[i], p) == Crashed
              || exists j :: 0 <= j < i && actions[j] == UnlockCreation(p, false)
  {
    if i > 0 {
      LocksHeldBecause(states, actions, i - 1, p);
      if states[i].coordination == Some(p) {
        CoordinationStays(states[i - 1], actions[i - 1], p);
      }
      if states[i].creation == Some(p) {
        CreationStays(states[i - 1], actions[i - 1], p);
      }
    }
  }

  lemma CoordinationStays(s: State, a: Action, p: nat)
    requires Enabled(s, a) && Apply(s, a).coordination == Some(p)
    ensures || HoldsCoordination(PhaseOf(Apply(s, a), p)) || PhaseOf(Apply(s, a), p) == Crashed || a == UnlockCoordination(p, false)
            || (s.coordination == Some(p) && !HoldsCoordination(PhaseOf(s, p)) && PhaseOf(s, p) != Crashed)
  {
  }

  lemma CreationStays(s: State, a: Action, p: nat)
    requires Enabled(s, a) && Apply(s, a).creation == Some(p)
    ensures || HoldsCreation(PhaseOf(Apply(s, a), p)) || PhaseOf(Apply(s, a), p) == Crashed || a == UnlockCreation(p, false)
            || (s.creation == Some(p) && !HoldsCreation(PhaseOf(s, p)) && PhaseOf(s, p) != Crashed)
  {
  }
}
