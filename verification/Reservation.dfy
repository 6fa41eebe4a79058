/** Worker reservation (`reserveWorker` and `checkLeases` in `internal/refsworkspace/worker.go`, with
    `coordination.go`): processes take the directory lock, measure, scan the journals file by file while
    the holders of other leases rewrite and remove theirs, and create their own journal. */
module Reservation {
  import opened Int64
  import opened Leases

  datatype Policy = Policy(softBudget: int64, workerReserve: int64, minimumHostFree: int64)

  ghost predicate ValidPolicy(p: Policy) {
    p.softBudget > 0 && p.workerReserve > 0 && p.minimumHostFree > 0
  }

  // ---------------------------------------------------------------- admission arithmetic

  /** The two tests of `reserveWorker`, in the source's order and without overflow. */
  predicate Admits(policy: Policy, used: int64, active: int64, hostFree: int64)
    ensures ValidPolicy(policy) && used >= 0 && active >= 0 ==>
              (Admits(policy, used, active, hostFree) <==>
                && used as int + active as int + policy.workerReserve as int <= policy.softBudget as int
                && policy.minimumHostFree as int + policy.workerReserve as int <= hostFree as int)
  {
    var required := CheckedAdd(policy.minimumHostFree, policy.workerReserve);
    if used < 0 || required.Overflow? || hostFree < required.value then false
    else
      var available := CheckedAdd(policy.softBudget, -used);
      !available.Overflow? && available.value >= 0 && active >= 0 && active <= available.value
      && policy.workerReserve <= available.value - active
  }

  // ---------------------------------------------------------------- one scan, sequentially

  datatype File = Unreadable | Undecodable | Decoded(id: LeaseId, state: LeaseState, pid: int, reserved: int64)

  datatype ScanError = OrphanFound | DuplicateLease

  type ByteCount = x: int64 | 0 <= x witness 0

  datatype Scan = Total(bytes: ByteCount) | Refused(error: ScanError)

  /** What one journal file adds to the running total, or why it ends the scan. */
  function Account(total: ByteCount, requested: LeaseId, file: File, alive: int -> bool): (r: Scan)
    ensures r.Total? ==> r.bytes >= total
  {
    if !file.Decoded? then Refused(OrphanFound)
    else if file.id == requested then Refused(DuplicateLease)
    else if file.state == Released then Total(total)
    else if file.pid <= 0 || file.reserved <= 0 || !alive(file.pid) then Refused(OrphanFound)
    else if file.reserved > 0x7fff_ffff_ffff_ffff - total then Refused(OrphanFound)
    else Total(total + file.reserved)
  }

  predicate Sound(requested: LeaseId, file: File, alive: int -> bool) {
    && file.Decoded? && file.id != requested
    && (file.state != Released ==> file.pid > 0 && file.reserved > 0 && alive(file.pid))
  }

  ghost function FileSum(files: seq<File>): int {
    if files == [] then 0 else
      var f := files[|files| - 1];
      FileSum(files[..|files| - 1]) + if f.Decoded? && f.state != Released then f.reserved as int else 0
  }

  lemma {:induction false} FileSumGrows(requested: LeaseId, files: seq<File>, alive: int -> bool, k: nat)
    requires k <= |files| && forall i :: 0 <= i < |files| ==> Sound(requested, files[i], alive)
    ensures 0 <= FileSum(files[..k]) <= FileSum(files)
    decreases |files|
  {
    if k < |files| {
      assert files[..|files| - 1][..k] == files[..k];
      FileSumGrows(requested, files[..|files| - 1], alive, k);
    } else {
      assert files[..k] == files;
      if files != [] {
        FileSumGrows(requested, files[..|files| - 1], alive, |files| - 1);
        assert files[..|files| - 1][..|files| - 1] == files[..|files| - 1];
      }
    }
  }

  /** Sums the reservations of all journals that are not released. The scan refuses exactly when some file
      is unsound or the sum does not fit, whatever the order of the files. */
  method CheckLeases(requested: LeaseId, files: seq<File>, alive: int -> bool) returns (r: Scan)
    ensures r.Total? <==> (forall i :: 0 <= i < |files| ==> Sound(requested, files[i], alive)) && FileSum(files) <= MAX
    ensures r.Total? ==> r.bytes as int == FileSum(files)
    ensures r == Refused(DuplicateLease) ==> exists i :: 0 <= i < |files| && files[i].Decoded? && files[i].id == requested
  {
    var total: ByteCount := 0;
    for i := 0 to |files|
      invariant total as int == FileSum(files[..i])
      invariant forall j :: 0 <= j < i ==> Sound(requested, files[j], alive)
    {
      assert files[..i + 1][..i] == files[..i];
      var step := Account(total, requested, files[i], alive);
      if step.Refused? {
        if Sound(requested, files[i], alive) && forall j :: 0 <= j < |files| ==> Sound(requested, files[j], alive) {
          FileSumGrows(requested, files, alive, i + 1);
        }
        return step;
      }
      total := step.bytes;
    }
    assert files[..|files|] == files;
    return Total(total);
  }

  /** `activeReservationBytes`: the experiment's own sum of the same files, unchecked. It is the total of
      `CheckLeases` modulo 2^64, hence the same number wherever that scan succeeds. */
  method ActiveReservationBytes(files: seq<File>) returns (r: Option<int64>)
    ensures r.Some? <==> forall i :: 0 <= i < |files| ==> files[i].Decoded?
    ensures r.Some? ==> SameWord(r.value as int, FileSum(files))
    ensures r.Some? && 0 <= FileSum(files) <= MAX ==> r.value as int == FileSum(files)
  {
    var total: int64 := 0;
    for i := 0 to |files|
      invariant SameWord(total as int, FileSum(files[..i]))
      invariant forall j :: 0 <= j < i ==> files[j].Decoded?
    {
      assert files[..i + 1][..i] == files[..i];
      if !files[i].Decoded? {
        return None;
      }
      if files[i].state != Released {
        var next := WrapAdd(total, files[i].reserved);
        SameWordStep(next as int, total as int, FileSum(files[..i]), files[i].reserved as int);
        total := next;
      }
    }
    assert files[..|files|] == files;
    if 0 <= FileSum(files) <= MAX {
      SameWordUnique(total, FileSum(files));
    }
    return Some(total);
  }

  datatype Refusal = ReserveMismatch | NegativeUsage | HostFloor | Leases(error: ScanError) | Budget

  datatype Admission = Admitted | Declined(reason: Refusal)

  /** The tests of `reserveWorker` between lock and journal, on journals that stand still: admitted exactly
      when usage, all live reservations and the new one fit the budget and the host keeps its floor. */
  method ReserveWorker(policy: Policy, journalReserve: int64, used: int64, hostFree: int64,
                       requested: LeaseId, files: seq<File>, alive: int -> bool) returns (r: Admission)
    requires ValidPolicy(policy)
    ensures r == Admitted <==>
            && journalReserve == policy.workerReserve && used >= 0
            && policy.minimumHostFree as int + policy.workerReserve as int <= hostFree as int
            && (forall i :: 0 <= i < |files| ==> Sound(requested, files[i], alive))
            && used as int + FileSum(files) + policy.workerReserve as int <= policy.softBudget as int
    ensures r == Declined(ReserveMismatch) <==> journalReserve != policy.workerReserve
    ensures r == Declined(NegativeUsage) <==> journalReserve == policy.workerReserve && used < 0
    ensures var floor := policy.minimumHostFree as int + policy.workerReserve as int;
            r == Declined(HostFloor) <==> journalReserve == policy.workerReserve && used >= 0 && hostFree as int < floor
    ensures r == Declined(Budget) ==> (forall i :: 0 <= i < |files| ==> Sound(requested, files[i], alive)) && FileSum(files) <= MAX
  {
    if journalReserve != policy.workerReserve {
      return Declined(ReserveMismatch);
    }
    if used < 0 {
      return Declined(NegativeUsage);
    }
    var required := CheckedAdd(policy.minimumHostFree, policy.workerReserve);
    if required.Overflow? || hostFree < required.value {
      return Declined(HostFloor);
    }
    var scan := CheckLeases(requested, files, alive);
    if scan.Refused? {
      return Declined(Leases(scan.error));
    }
    return if Admits(policy, used, scan.bytes, hostFree) then Admitted else Declined(Budget);
  }

  // ---------------------------------------------------------------- the concurrent protocol

  /** A journal file; `token` is the ownership token of the lease that wrote it. */
  datatype Journal = Journal(state: LeaseState, reserved: int64, token: nat)

  /** A lease as its holder remembers it. A finished lease is never used again. */
  datatype Lease = Lease(id: LeaseId, bytes: int64, state: LeaseState, finished: bool)

  datatype Phase =
    | Idle
    | Locked(id: LeaseId)
    | Scanning(id: LeaseId, used: int64, hostFree: int64, unread: set<LeaseId>, total: ByteCount)
    | Creating(id: LeaseId, used: int64)
    | Unlocking
    | Crashed

  datatype State = State(
    policy: Policy, journals: map<LeaseId, Journal>, leases: map<nat, Lease>, lock: Option<nat>, phases: map<nat, Phase>)

  /** The atomic steps. The first group is taken by a reserving process; a lease's holder takes the second
      group without any lock, at any time, and by file name: it replaces or removes whatever file has its
      id. Those steps may fail, with or without effect. */
  datatype Action =
    | TakeLock(p: nat, id: LeaseId)
    | Measure(p: nat, measuredUsed: int64, measuredHostFree: int64, listing: set<LeaseId>)
    | Read(p: nat, name: LeaseId)
    | Decide(p: nat)
    | Create(p: nat, token: nat, torn: bool)
    | GiveUp(p: nat)
    | Unlock(p: nat, removed: bool)
    | Crash(p: nat)
    | Write(token: nat, to: LeaseState, effect: bool)
    | Erase(token: nat, effect: bool, ok: bool)
    | Rollback(token: nat, effect: bool)

  function Entry(s: State, name: LeaseId): File {
    if name in s.journals then Decoded(name, s.journals[name].state, 1, s.journals[name].reserved) else Unreadable
  }

  ghost predicate Enabled(s: State, a: Action) {
    match a
    case TakeLock(p, _) => p in s.phases && s.phases[p] == Idle && s.lock == None
    case Measure(p, used, _, listing) =>
      p in s.phases && s.phases[p].Locked? && used >= 0 && s.journals.Keys <= listing
    case Read(p, name) => p in s.phases && s.phases[p].Scanning? && name in s.phases[p].unread
    case Decide(p) => p in s.phases && s.phases[p].Scanning? && s.phases[p].unread == {}
    case Create(p, token, _) => p in s.phases && s.phases[p].Creating? && Fresh(s, token)
    case GiveUp(p) => p in s.phases && (s.phases[p].Locked? || s.phases[p].Scanning? || s.phases[p].Creating?)
    case Unlock(p, _) => p in s.phases && s.phases[p].Unlocking?
    case Crash(p) => p in s.phases
    case Write(t, to, _) => Open(s.leases, t) && Rank(s.leases[t].state) <= Rank(to)
    case Erase(t, effect, ok) => Open(s.leases, t) && s.leases[t].state == Released && (ok ==> effect)
    case Rollback(t, _) => Open(s.leases, t) && Rank(s.leases[t].state) <= Rank(Ready)
  }

  /** Its holder may still act on it. */
  predicate Open(leases: map<nat, Lease>, t: nat) { t in leases && !leases[t].finished }

  /** Admitted and not released. */
  predicate Active(leases: map<nat, Lease>, t: nat) { Open(leases, t) && leases[t].state != Released }

  /** Tokens are random: nobody has used a new one. */
  ghost predicate Fresh(s: State, t: nat) {
    t !in s.leases && forall n :: n in s.journals ==> s.journals[n].token != t
  }

  ghost function Apply(s: State, a: Action): State
    requires Enabled(s, a)
  {
    match a
    case TakeLock(p, id) => s.(lock := Some(p), phases := s.phases[p := Locked(id)])
    case Measure(p, used, hostFree, listing) =>
      s.(phases := s.phases[p := Scanning(s.phases[p].id, used, hostFree, listing, 0)])
    case Read(p, name) =>
      var phase := s.phases[p];
      var step := Account(phase.total, phase.id, Entry(s, name), _ => true);
      s.(phases := s.phases[p := if step.Refused? then Unlocking else phase.(unread := phase.unread - {name}, total := step.bytes)])
    case Decide(p) =>
      var phase := s.phases[p];
      s.(phases := s.phases[p := if Admits(s.policy, phase.used, phase.total, phase.hostFree)
                                 then Creating(phase.id, phase.used) else Unlocking])
    case Create(p, token, torn) =>
      var id, bytes := s.phases[p].id, s.policy.workerReserve;
      if id in s.journals then s.(phases := s.phases[p := Unlocking])
      else s.(journals := s.journals[id := Journal(Requested, bytes, token)], phases := s.phases[p := Unlocking],
              leases := if torn then s.leases else s.leases[token := Lease(id, bytes, Requested, false)])
    case GiveUp(p) => s.(phases := s.phases[p := Unlocking])
    case Unlock(p, removed) => s.(lock := if removed then None else s.lock, phases := s.phases[p := Idle])
    case Crash(p) => s.(phases := s.phases[p := Crashed])
    case Write(t, to, effect) =>
      var l := s.leases[t];
      s.(journals := if effect then s.journals[l.id := Journal(to, l.bytes, t)] else s.journals,
         leases := s.leases[t := l.(state := to)])
    case Erase(t, effect, ok) =>
      var l := s.leases[t];
      s.(journals := if effect then s.journals - {l.id} else s.journals, leases := s.leases[t := l.(finished := ok)])
    case Rollback(t, effect) =>
      var l := s.leases[t];
      s.(journals := if effect then s.journals - {l.id} else s.journals, leases := s.leases[t := l.(finished := true)])
  }

  // ---------------------------------------------------------------- sums of live reservations

  ghost function Live(journals: map<LeaseId, Journal>, name: LeaseId): int {
    if name in journals && journals[name].state != Released then journals[name].reserved as int else 0
  }

  ghost function LiveSum(journals: map<LeaseId, Journal>, names: set<LeaseId>): int {
    if names == {} then 0 else
      var n :| n in names;
      Live(journals, n) + LiveSum(journals, names - {n})
  }

  ghost function Reserved(s: State): int { LiveSum(s.journals, s.journals.Keys) }

  lemma {:induction false} LiveSumRemove(journals: map<LeaseId, Journal>, names: set<LeaseId>, name: LeaseId)
    requires name in names
    ensures LiveSum(journals, names) == Live(journals, name) + LiveSum(journals, names - {name})
    decreases |names|
  {
    var n :| n in names && LiveSum(journals, names) == Live(journals, n) + LiveSum(journals, names - {n});
    if n != name {
      LiveSumRemove(journals, names - {n}, name);
      LiveSumRemove(journals, names - {name}, n);
      assert names - {n} - {name} == names - {name} - {n};
    }
  }

  lemma {:induction false} LiveSumMonotone(a: map<LeaseId, Journal>, b: map<LeaseId, Journal>, names: set<LeaseId>)
    requires forall n :: n in names ==> 0 <= Live(b, n) <= Live(a, n)
    ensures 0 <= LiveSum(b, names) <= LiveSum(a, names)
    decreases |names|
  {
    if names != {} {
      var n :| n in names;
      LiveSumRemove(a, names, n);
      LiveSumRemove(b, names, n);
      LiveSumMonotone(a, b, names - {n});
    }
  }

  /** Names that carry no live journal add nothing. */
  lemma {:induction false} LiveSumSupport(journals: map<LeaseId, Journal>, support: set<LeaseId>, names: set<LeaseId>)
    requires support <= names && forall n :: n in names - support ==> Live(journals, n) == 0
    ensures LiveSum(journals, names) == LiveSum(journals, support)
    decreases |names|
  {
    if names - support != {} {
      var n :| n in names - support;
      LiveSumRemove(journals, names, n);
      LiveSumSupport(journals, support, names - {n});
    } else {
      assert names == support;
    }
  }

  // ---------------------------------------------------------------- safety over all interleavings

  ghost predicate Critical(phase: Phase) { !phase.Idle? && !phase.Crashed? }

  ghost predicate PhaseInv(s: State, phase: Phase) {
    match phase
    case Scanning(_, used, _, unread, total) =>
      && 0 <= used
      && LiveSum(s.journals, s.journals.Keys - unread) <= total as int
      && total as int + LiveSum(s.journals, unread) <= s.policy.softBudget as int
    case Creating(_, used) =>
      0 <= used && used as int + Reserved(s) + s.policy.workerReserve as int <= s.policy.softBudget as int
    case _ => true
  }

  ghost predicate Owns(journals: map<LeaseId, Journal>, leases: map<nat, Lease>, t: nat)
    requires t in leases
  {
    leases[t].id in journals && journals[leases[t].id].token == t
  }

  /** Every admitted, unreleased lease still has its own journal. */
  ghost predicate Holding(s: State) {
    forall t :: Active(s.leases, t) ==> Owns(s.journals, s.leases, t)
  }

  /** A step that takes the journal of an active lease away from it: another lease with the same id, whose
      removal of its own journal took effect although it failed, goes on with its release. */
  ghost predicate Clobbers(s: State, a: Action)
    requires Enabled(s, a)
  {
    && (a.Write? || a.Erase? || a.Rollback?) && a.effect
    && var id := s.leases[a.token].id;
       id in s.journals && s.journals[id].token != a.token && Active(s.leases, s.journals[id].token)
       && s.leases[s.journals[id].token].id == id
  }

  /** A journal is never ahead of the lease that wrote it, and both name the same id and bytes. */
  ghost predicate Matched(s: State) {
    && (forall t :: t in s.leases ==> s.leases[t].bytes > 0)
    && (forall n :: n in s.journals && s.journals[n].token in s.leases ==>
          var l := s.leases[s.journals[n].token];
          l.id == n && l.bytes == s.journals[n].reserved && Rank(s.journals[n].state) <= Rank(l.state))
  }

  ghost predicate Inv(s: State) {
    && ValidPolicy(s.policy) && Matched(s) && Holding(s)
    && (forall n :: n in s.journals ==> s.journals[n].reserved > 0)
    && Reserved(s) <= s.policy.softBudget as int
    && LockInv(s) && (forall p :: p in s.phases ==> PhaseInv(s, s.phases[p]))
  }

  ghost predicate LockInv(s: State) {
    forall p :: p in s.phases && Critical(s.phases[p]) ==> s.lock == Some(p)
  }

  ghost predicate Init(s: State) {
    ValidPolicy(s.policy) && s.journals == map[] && s.leases == map[] && s.lock == None && forall p :: p in s.phases ==> s.phases[p] == Idle
  }

  lemma LiveSumShrinks(a: map<LeaseId, Journal>, b: map<LeaseId, Journal>, without: set<LeaseId>)
    requires forall n :: 0 <= Live(b, n) <= Live(a, n)
    ensures 0 <= LiveSum(b, b.Keys - without) <= LiveSum(a, a.Keys - without)
  {
    var all := (a.Keys + b.Keys) - without;
    LiveSumSupport(a, a.Keys - without, all);
    LiveSumSupport(b, b.Keys - without, all);
    LiveSumMonotone(a, b, all);
  }

  /** Journals whose live bytes only shrink disturb no scan and no admission. */
  lemma ShrinkKeepsInv(s: State, t: State)
    requires Inv(s) && t == s.(journals := t.journals, leases := t.leases) && Matched(t) && Holding(t)
    requires forall n :: n in t.journals ==> t.journals[n].reserved > 0
    requires forall n :: Live(t.journals, n) <= Live(s.journals, n)
    ensures Inv(t)
  {
    var journals := t.journals;
    LiveSumShrinks(s.journals, journals, {});
    assert s.journals.Keys - {} == s.journals.Keys && journals.Keys - {} == journals.Keys;
    forall p | p in t.phases
      ensures PhaseInv(t, t.phases[p])
    {
      assert PhaseInv(s, s.phases[p]);
      if t.phases[p].Scanning? {
        LiveSumShrinks(s.journals, journals, t.phases[p].unread);
        LiveSumMonotone(s.journals, journals, t.phases[p].unread);
      }
    }
  }

  lemma ReadJournal(s: State, p: nat, name: LeaseId)
    requires Inv(s) && Enabled(s, Read(p, name))
    ensures Inv(Apply(s, Read(p, name)))
    ensures name in s.journals && name != s.phases[p].id ==>
              Account(s.phases[p].total, s.phases[p].id, Entry(s, name), _ => true).Total?
  {
    var phase := s.phases[p];
    var t := Apply(s, Read(p, name));
    assert PhaseInv(s, phase);
    LiveSumRemove(s.journals, phase.unread, name);
    LiveSumMonotone(s.journals, s.journals, phase.unread - {name});
    if name in s.journals && t.phases[p].Scanning? {
      var before, after := s.journals.Keys - phase.unread, s.journals.Keys - t.phases[p].unread;
      assert after == before + {name} && after - {name} == before;
      LiveSumRemove(s.journals, after, name);
    }
  }

  lemma MeasureBegins(s: State, p: nat, used: int64, hostFree: int64, listing: set<LeaseId>)
    requires Inv(s) && Enabled(s, Measure(p, used, hostFree, listing))
    ensures Inv(Apply(s, Measure(p, used, hostFree, listing)))
  {
    LiveSumSupport(s.journals, s.journals.Keys, listing);
    assert s.journals.Keys - listing == {};
  }

  lemma DecideAdmits(s: State, p: nat)
    requires Inv(s) && Enabled(s, Decide(p))
    ensures Inv(Apply(s, Decide(p)))
  {
    assert PhaseInv(s, s.phases[p]);
    assert s.journals.Keys - {} == s.journals.Keys;
  }

  lemma CreateAdds(s: State, p: nat, token: nat, torn: bool)
    requires Inv(s) && Enabled(s, Create(p, token, torn))
    ensures Inv(Apply(s, Create(p, token, torn)))
    ensures var id := s.phases[p].id;
            id !in s.journals ==> Reserved(Apply(s, Create(p, token, torn))) == Reserved(s) + s.policy.workerReserve as int
  {
    assert PhaseInv(s, s.phases[p]);
    if s.phases[p].id !in s.journals {
      CreateReserves(s, p, token, torn);
      CreateMatches(s, p, token, torn);
    }
  }

  lemma CreateReserves(s: State, p: nat, token: nat, torn: bool)
    requires ValidPolicy(s.policy) && Enabled(s, Create(p, token, torn)) && s.phases[p].id !in s.journals
    requires forall n :: n in s.journals ==> s.journals[n].reserved > 0
    ensures Reserved(Apply(s, Create(p, token, torn))) == Reserved(s) + s.policy.workerReserve as int
  {
    var t, id := Apply(s, Create(p, token, torn)), s.phases[p].id;
    LiveSumRemove(t.journals, t.journals.Keys, id);
    assert t.journals.Keys - {id} == s.journals.Keys;
    LiveSumCongruence(s.journals, t.journals, s.journals.Keys);
  }

  lemma CreateMatches(s: State, p: nat, token: nat, torn: bool)
    requires Matched(s) && Holding(s) && ValidPolicy(s.policy) && Enabled(s, Create(p, token, torn)) && s.phases[p].id !in s.journals
    ensures var t := Apply(s, Create(p, token, torn)); Matched(t) && Holding(t)
  {
    var t := Apply(s, Create(p, token, torn));
    forall u | Active(t.leases, u)
      ensures Owns(t.journals, t.leases, u)
    {
      assert u == token || (Active(s.leases, u) && Owns(s.journals, s.leases, u));
    }
  }

  /** What a holder does leaves every other journal alone and raises no live bytes, as long as it clobbers
      nothing. */
  lemma HolderKeepsInv(s: State, a: Action)
    requires Inv(s) && Enabled(s, a) && !Clobbers(s, a) && (a.Write? || a.Erase? || a.Rollback?)
    ensures Inv(Apply(s, a))
  {
    var t := Apply(s, a);
    HolderKeepsJournals(s, a);
    forall n
      ensures Live(t.journals, n) <= Live(s.journals, n)
    {
      HolderRaisesNoJournal(s, a, n);
    }
    ShrinkKeepsInv(s, t);
  }

  lemma HolderRaisesNoJournal(s: State, a: Action, n: LeaseId)
    requires Inv(s) && Enabled(s, a) && (a.Write? || a.Erase? || a.Rollback?)
    ensures 0 <= Live(Apply(s, a).journals, n) <= Live(s.journals, n)
  {
    if a.Write? && a.to != Released && n == s.leases[a.token].id {
      assert Active(s.leases, a.token) && Owns(s.journals, s.leases, a.token);
    }
  }

  lemma HolderRaisesNothing(s: State, a: Action)
    requires Inv(s) && Enabled(s, a) && (a.Write? || a.Erase? || a.Rollback?)
    ensures Reserved(Apply(s, a)) <= Reserved(s)
  {
    var t := Apply(s, a);
    forall n
      ensures 0 <= Live(t.journals, n) <= Live(s.journals, n)
    {
      HolderRaisesNoJournal(s, a, n);
    }
    LiveSumShrinks(s.journals, t.journals, {});
    assert s.journals.Keys - {} == s.journals.Keys && t.journals.Keys - {} == t.journals.Keys;
  }

  lemma HolderKeepsJournals(s: State, a: Action)
    requires Matched(s) && Holding(s) && Enabled(s, a) && !Clobbers(s, a) && (a.Write? || a.Erase? || a.Rollback?)
    ensures Matched(Apply(s, a)) && Holding(Apply(s, a))
  {
    HolderKeepsMatch(s, a);
    HolderKeepsHolding(s, a);
  }

  lemma HolderKeepsMatch(s: State, a: Action)
    requires Matched(s) && Enabled(s, a) && (a.Write? || a.Erase? || a.Rollback?)
    ensures Matched(Apply(s, a))
  {
  }

  lemma HolderKeepsHolding(s: State, a: Action)
    requires Matched(s) && Holding(s) && Enabled(s, a) && !Clobbers(s, a) && (a.Write? || a.Erase? || a.Rollback?)
    ensures Holding(Apply(s, a))
  {
    var t := Apply(s, a);
    forall u | Active(t.leases, u)
      ensures Owns(t.journals, t.leases, u)
    {
      assert Active(s.leases, u) && Owns(s.journals, s.leases, u);
    }
  }

  lemma LiveSumCongruence(a: map<LeaseId, Journal>, b: map<LeaseId, Journal>, names: set<LeaseId>)
    requires forall n :: n in names ==> 0 <= Live(a, n) == Live(b, n)
    ensures LiveSum(a, names) == LiveSum(b, names)
  {
    LiveSumMonotone(a, b, names);
    LiveSumMonotone(b, a, names);
  }

  /** Every step of every process that clobbers no journal keeps the invariant. */
  lemma StepKeepsInv(s: State, a: Action)
    requires Inv(s) && Enabled(s, a) && !Clobbers(s, a)
    ensures Inv(Apply(s, a))
  {
    match a
    case Measure(p, used, hostFree, listing) => MeasureBegins(s, p, used, hostFree, listing);
    case Read(p, name) => ReadJournal(s, p, name);
    case Decide(p) => DecideAdmits(s, p);
    case Create(p, token, torn) => CreateAdds(s, p, token, torn);
    case Write(_, _, _) => HolderKeepsInv(s, a);
    case Erase(_, _, _) => HolderKeepsInv(s, a);
    case Rollback(_, _) => HolderKeepsInv(s, a);
    case _ => SameJournals(s, a);
  }

  /** And a step that does clobber one breaks it. */
  lemma ClobberBreaksHolding(s: State, a: Action)
    requires Enabled(s, a) && Clobbers(s, a)
    ensures !Holding(Apply(s, a))
  {
    var u := s.journals[s.leases[a.token].id].token;
    assert Active(Apply(s, a).leases, u) && !Owns(Apply(s, a).journals, Apply(s, a).leases, u);
  }

  lemma SameJournals(s: State, a: Action)
    requires Inv(s) && Enabled(s, a) && (a.TakeLock? || a.GiveUp? || a.Unlock? || a.Crash?)
    ensures Inv(Apply(s, a))
  {
    var t := Apply(s, a);
    forall p | p in t.phases
      ensures PhaseInv(t, t.phases[p])
    {
      assert PhaseInv(s, s.phases[p]);
    }
  }

  /** An empty directory with no lock may start a run. */
  lemma EmptyDirectoryStarts(s: State)
    requires Init(s)
    ensures Inv(s)
  {
    assert s.journals.Keys == {};
  }

  /** So may whatever a run left behind, journals and an abandoned lock included, under new processes. */
  lemma RestartStarts(s: State, phases: map<nat, Phase>)
    requires Inv(s) && forall p :: p in phases ==> phases[p] == Idle
    ensures Inv(s.(phases := phases))
  {
  }

  /** The states a run of the system goes through, from any state that satisfies the invariant. */
  ghost predicate Run(states: seq<State>, actions: seq<Action>) {
    && |states| == |actions| + 1 && Inv(states[0])
    && forall i :: 0 <= i < |actions| ==> Enabled(states[i], actions[i]) && states[i + 1] == Apply(states[i], actions[i])
  }

  /** No step before the i-th took a journal from an active lease. */
  ghost predicate Undisturbed(states: seq<State>, actions: seq<Action>, i: nat)
    requires Run(states, actions) && i <= |actions|
  {
    forall j :: 0 <= j < i ==> !Clobbers(states[j], actions[j])
  }

  lemma {:induction false} RunKeepsInv(states: seq<State>, actions: seq<Action>, i: nat)
    requires Run(states, actions) && i < |states| && Undisturbed(states, actions, i)
    ensures Inv(states[i])
  {
    if i > 0 {
      RunKeepsInv(states, actions, i - 1);
      StepKeepsInv(states[i - 1], actions[i - 1]);
    }
  }

  /** In every interleaving: every admitted, unreleased lease has its own journal in every state if and
      only if no step was taken by a release that had lost its file name to another lease. */
  lemma LeasesHoldTheirJournalsIff(states: seq<State>, actions: seq<Action>, n: nat)
    requires Run(states, actions) && n <= |actions|
    ensures (forall i :: 0 <= i <= n ==> Holding(states[i])) <==> Undisturbed(states, actions, n)
  {
    if Undisturbed(states, actions, n) {
      forall i | 0 <= i <= n
        ensures Holding(states[i])
      {
        RunKeepsInv(states, actions, i);
      }
    } else {
      var j :| 0 <= j < n && Clobbers(states[j], actions[j]);
      ClobberBreaksHolding(states[j], actions[j]);
      assert !Holding(states[j + 1]);
    }
  }

  /** Every lease that may still act, released or not, has its own journal. */
  ghost predicate AllOwn(s: State) {
    forall t :: Open(s.leases, t) ==> Owns(s.journals, s.leases, t)
  }

  /** A removal that took effect although it failed. */
  predicate TornRemoval(a: Action) { a.Erase? && a.effect && !a.ok }

  lemma StepKeepsOwners(s: State, a: Action)
    requires AllOwn(s) && Enabled(s, a) && !TornRemoval(a)
    ensures AllOwn(Apply(s, a)) && !Clobbers(s, a)
  {
    var t := Apply(s, a);
    forall u | Open(t.leases, u)
      ensures Owns(t.journals, t.leases, u)
    {
      if u in s.leases {
        assert Open(s.leases, u) && Owns(s.journals, s.leases, u);
      }
      if (a.Write? || a.Erase? || a.Rollback?) && u != a.token {
        assert Owns(s.journals, s.leases, a.token);
      }
    }
    if a.Write? || a.Erase? || a.Rollback? {
      assert Owns(s.journals, s.leases, a.token);
    }
  }

  /** The cause: where every removal that fails leaves the file, no run is disturbed. */
  lemma {:induction false} OnlyTornRemovalsDisturb(states: seq<State>, actions: seq<Action>, n: nat)
    requires Run(states, actions) && n <= |actions| && AllOwn(states[0])
    requires forall i :: 0 <= i < n ==> !TornRemoval(actions[i])
    ensures Undisturbed(states, actions, n) && AllOwn(states[n])
  {
    if n > 0 {
      OnlyTornRemovalsDisturb(states, actions, n - 1);
      StepKeepsOwners(states[n - 1], actions[n - 1]);
    }
  }

  ghost function LeaseSum(s: State, tokens: set<nat>): int
    requires tokens <= s.leases.Keys
  {
    if tokens == {} then 0 else
      var t :| t in tokens;
      s.leases[t].bytes as int + LeaseSum(s, tokens - {t})
  }

  ghost function Ids(s: State, tokens: set<nat>): set<LeaseId>
    requires tokens <= s.leases.Keys
  {
    set t | t in tokens :: s.leases[t].id
  }

  ghost function ActiveTokens(s: State): set<nat> {
    set t | t in s.leases && Active(s.leases, t)
  }

  /** An active lease is counted in full by whoever reads its journal. */
  lemma ActiveIsCounted(s: State, t: nat)
    requires Inv(s) && Active(s.leases, t)
    ensures s.leases[t].id in s.journals && Live(s.journals, s.leases[t].id) == s.leases[t].bytes as int
  {
    assert Owns(s.journals, s.leases, t);
  }

  lemma {:induction false} LeasesAreCounted(s: State, tokens: set<nat>)
    requires Inv(s) && tokens <= s.leases.Keys && forall t :: t in tokens ==> Active(s.leases, t)
    ensures LeaseSum(s, tokens) == LiveSum(s.journals, Ids(s, tokens)) && Ids(s, tokens) <= s.journals.Keys
    decreases |tokens|
  {
    if tokens != {} {
      var t :| t in tokens && LeaseSum(s, tokens) == s.leases[t].bytes as int + LeaseSum(s, tokens - {t});
      LeasesAreCounted(s, tokens - {t});
      ActiveIsCounted(s, t);
      OtherIds(s, tokens, t);
      LiveSumRemove(s.journals, Ids(s, tokens), s.leases[t].id);
    }
  }

  /** Two active leases never share an id. */
  lemma OtherIds(s: State, tokens: set<nat>, t: nat)
    requires Inv(s) && t in tokens && tokens <= s.leases.Keys && forall u :: u in tokens ==> Active(s.leases, u)
    ensures Ids(s, tokens - {t}) == Ids(s, tokens) - {s.leases[t].id} && s.leases[t].id in Ids(s, tokens)
  {
    forall u | u in tokens - {t}
      ensures s.leases[u].id != s.leases[t].id
    {
      assert Owns(s.journals, s.leases, u) && Owns(s.journals, s.leases, t);
    }
  }

  /** The promise itself: in an undisturbed run the admitted, unreleased leases together never exceed the
      budget. */
  lemma LeasesNeverExceedBudget(states: seq<State>, actions: seq<Action>, i: nat)
    requires Run(states, actions) && i < |states| && Undisturbed(states, actions, i)
    ensures LeaseSum(states[i], ActiveTokens(states[i])) <= Reserved(states[i]) <= states[i].policy.softBudget as int
  {
    RunKeepsInv(states, actions, i);
    var s := states[i];
    var tokens := ActiveTokens(s);
    LeasesAreCounted(s, tokens);
    var rest := s.journals.Keys - Ids(s, tokens);
    SumOfParts(s.journals, Ids(s, tokens), s.journals.Keys);
  }

  lemma {:induction false} SumOfParts(journals: map<LeaseId, Journal>, part: set<LeaseId>, names: set<LeaseId>)
    requires part <= names && forall n :: n in journals ==> journals[n].reserved > 0
    ensures LiveSum(journals, part) <= LiveSum(journals, names)
    decreases |names|
  {
    if names - part == {} {
      assert part == names;
    } else {
      var n :| n in names - part;
      LiveSumRemove(journals, names, n);
      SumOfParts(journals, part, names - {n});
    }
  }

  /** In every interleaving, a reservation that is admitted fits: the measured bytes and all live
      reservations, its own included, stay within the soft budget. Its id was free, so ids are unique. */
  lemma AdmissionsFitTheBudget(states: seq<State>, actions: seq<Action>, i: nat, p: nat, token: nat, torn: bool)
    requires Run(states, actions) && i < |actions| && actions[i] == Create(p, token, torn) && Undisturbed(states, actions, i)
    ensures var s, t := states[i], states[i + 1];
            var id := s.phases[p].id;
            t.journals != s.journals ==>
              && id !in s.journals && t.journals == s.journals[id := Journal(Requested, s.policy.workerReserve, token)]
              && s.phases[p].used as int + Reserved(t) <= s.policy.softBudget as int
  {
    RunKeepsInv(states, actions, i);
    assert PhaseInv(states[i], states[i].phases[p]);
    CreateAdds(states[i], p, token, torn);
  }

  /** At no time do the live reservations exceed the budget, and at most one process is inside the lock. */
  lemma ReservationsNeverExceedBudget(states: seq<State>, actions: seq<Action>, i: nat, p: nat, q: nat)
    requires Run(states, actions) && i < |states| && Undisturbed(states, actions, i)
    requires p in states[i].phases && q in states[i].phases
    ensures Reserved(states[i]) <= states[i].policy.softBudget as int
    ensures Critical(states[i].phases[p]) && Critical(states[i].phases[q]) ==> p == q
  {
    RunKeepsInv(states, actions, i);
  }

  /** Whatever the leases do, at most one process is inside the lock. */
  lemma {:induction false} LockIsExclusive(states: seq<State>, actions: seq<Action>, i: nat)
    requires Run(states, actions) && i < |states|
    ensures LockInv(states[i])
  {
    if i > 0 {
      LockIsExclusive(states, actions, i - 1);
      LockStep(states[i - 1], actions[i - 1]);
    }
  }

  lemma LockStep(s: State, a: Action)
    requires LockInv(s) && Enabled(s, a)
    ensures LockInv(Apply(s, a))
  {
  }

  /** The overflow test of the scan never fires in a run: a journal of another lease that is still there
      when its turn comes is always accounted for. */
  lemma ScanNeverOverflows(states: seq<State>, actions: seq<Action>, i: nat, p: nat, name: LeaseId)
    requires Run(states, actions) && i < |actions| && actions[i] == Read(p, name) && Undisturbed(states, actions, i)
    ensures var phase := states[i].phases[p];
            name in states[i].journals && name != phase.id ==>
              states[i + 1].phases[p].Scanning?
              && states[i + 1].phases[p].total as int == phase.total as int + Live(states[i].journals, name)
  {
    RunKeepsInv(states, actions, i);
    ReadJournal(states[i], p, name);
  }

  /** Only the lock holder adds a live reservation; every other step leaves the live bytes as they are or
      lowers them. */
  lemma OnlyCreateRaisesReservations(states: seq<State>, actions: seq<Action>, i: nat)
    requires Run(states, actions) && i < |actions| && Undisturbed(states, actions, i + 1)
    ensures Reserved(states[i + 1]) > Reserved(states[i]) ==>
              actions[i].Create? && states[i].lock == Some(actions[i].p)
  {
    RunKeepsInv(states, actions, i);
    var s, a := states[i], actions[i];
    if a.Write? || a.Erase? || a.Rollback? {
      HolderRaisesNothing(s, a);
    }
  }

  /** The lock is there because somebody works under it or crashed under it, or could not remove it. */
  ghost predicate LockAccounted(s: State) {
    s.lock.Some? ==> s.lock.value in s.phases && s.phases[s.lock.value] != Idle
  }

  lemma {:induction false} LockHeldBecause(states: seq<State>, actions: seq<Action>, i: nat, p: nat)
    requires Run(states, actions) && i < |states| && LockAccounted(states[0]) && states[i].lock == Some(p)
    ensures || (p in states[i].phases && (Critical(states[i].phases[p]) || states[i].phases[p] == Crashed))
            || exists j :: 0 <= j < i && actions[j] == Unlock(p, false)
  {
    if i > 0 {
      LockStaysBecause(states[i - 1], actions[i - 1], p);
      if states[i - 1].lock == Some(p) {
        LockHeldBecause(states, actions, i - 1, p);
      }
    }
  }

  lemma LockStaysBecause(s: State, a: Action, p: nat)
    requires Enabled(s, a) && Apply(s, a).lock == Some(p)
    ensures || (p in Apply(s, a).phases && (Critical(Apply(s, a).phases[p]) || Apply(s, a).phases[p] == Crashed))
            || a == Unlock(p, false)
            || (s.lock == Some(p) && !(p in s.phases && (Critical(s.phases[p]) || s.phases[p] == Crashed)))
  {
  }

  // ---------------------------------------------------------------- a reservation that nothing disturbs

  /** A step is taken if the call has got that far. */
  ghost function Take(s: State, a: Action): State { if Enabled(s, a) then Apply(s, a) else s }

  ghost function ReadAlone(s: State, p: nat, names: seq<LeaseId>): State
    decreases |names|
  {
    if names == [] then s else ReadAlone(Take(s, Read(p, names[0])), p, names[1..])
  }

  ghost function NameSet(names: seq<LeaseId>): set<LeaseId> { set n | n in names }

  /** `reserveWorker` from the lock to the unlock; `names` is the listing, in its order. */
  ghost function ReserveAlone(s: State, p: nat, id: LeaseId, used: int64, hostFree: int64, names: seq<LeaseId>, token: nat): State {
    var measured := Take(Take(s, TakeLock(p, id)), Measure(p, used, hostFree, NameSet(names)));
    Take(Take(Take(ReadAlone(measured, p, names), Decide(p)), Create(p, token, false)), Unlock(p, true))
  }

  ghost predicate Distinct(names: seq<LeaseId>) {
    forall i, j :: 0 <= i < j < |names| ==> names[i] != names[j]
  }

  ghost predicate Positive(journals: map<LeaseId, Journal>) {
    forall n :: n in journals ==> journals[n].reserved > 0
  }

  /** The state of `p` alone has changed, and it holds the lock. */
  ghost function Inside(s: State, p: nat, phase: Phase): State {
    s.(lock := Some(p), phases := s.phases[p := phase])
  }

  lemma {:induction false} NoStep(s: State, p: nat, names: seq<LeaseId>)
    requires p in s.phases && s.phases[p] == Unlocking
    ensures ReadAlone(s, p, names) == s
    decreases |names|
  {
    if names != [] {
      NoStep(s, p, names[1..]);
    }
  }

  /** The scan reads on to the end, or to the journal with the requested id. */
  lemma {:induction false} ReadAloneIs(
      s: State, p: nat, id: LeaseId, used: int64, hostFree: int64, names: seq<LeaseId>, total: ByteCount)
    requires Positive(s.journals) && 0 <= Reserved(s) <= MAX && Distinct(names) && NameSet(names) <= s.journals.Keys
    requires total as int == LiveSum(s.journals, s.journals.Keys - NameSet(names))
    ensures id in names ==>
              ReadAlone(Inside(s, p, Scanning(id, used, hostFree, NameSet(names), total)), p, names) == Inside(s, p, Unlocking)
    ensures id !in names ==>
              ReadAlone(Inside(s, p, Scanning(id, used, hostFree, NameSet(names), total)), p, names)
              == Inside(s, p, Scanning(id, used, hostFree, {}, Reserved(s) as int64))
    decreases |names|
  {
    if names == [] {
      assert NameSet(names) == {} && s.journals.Keys - {} == s.journals.Keys;
    } else {
      ReadOne(s, p, id, used, hostFree, names, total);
      var n, rest := names[0], names[1..];
      if n == id {
        NoStep(Inside(s, p, Unlocking), p, rest);
      } else {
        var added := (total as int + Live(s.journals, n)) as int64;
        assert NameSet(rest) == NameSet(names) - {n};
        ReadAloneIs(s, p, id, used, hostFree, rest, added);
        assert id in names <==> id in rest;
      }
    }
  }

  lemma ReadOne(s: State, p: nat, id: LeaseId, used: int64, hostFree: int64, names: seq<LeaseId>, total: ByteCount)
    requires Positive(s.journals) && Reserved(s) <= MAX && Distinct(names) && NameSet(names) <= s.journals.Keys && names != []
    requires total as int == LiveSum(s.journals, s.journals.Keys - NameSet(names))
    ensures var n, before := names[0], Inside(s, p, Scanning(id, used, hostFree, NameSet(names), total));
            && 0 <= total as int + Live(s.journals, n) <= MAX
            && total as int + Live(s.journals, n) == LiveSum(s.journals, s.journals.Keys - NameSet(names[1..]))
            && Take(before, Read(p, n))
               == Inside(s, p, if n == id then Unlocking
                               else Scanning(id, used, hostFree, NameSet(names) - {n}, (total as int + Live(s.journals, n)) as int64))
  {
    var n := names[0];
    assert n in NameSet(names);
    var read, next := s.journals.Keys - NameSet(names), s.journals.Keys - NameSet(names[1..]);
    assert NameSet(names[1..]) == NameSet(names) - {n};
    assert next == read + {n} && next - {n} == read;
    LiveSumRemove(s.journals, next, n);
    SumOfParts(s.journals, next, s.journals.Keys);
  }

  /** When a reservation is granted. */
  ghost predicate Granted(s: State, id: LeaseId, used: int64, hostFree: int64) {
    && id !in s.journals
    && used as int + Reserved(s) + s.policy.workerReserve as int <= s.policy.softBudget as int
    && s.policy.minimumHostFree as int + s.policy.workerReserve as int <= hostFree as int
  }

  /** An undisturbed reservation adds exactly its journal and its lease if it is granted, and changes nothing
      otherwise, whatever refused it; either way the lock is free again. */
  lemma ReserveAloneIff(s: State, p: nat, id: LeaseId, used: int64, hostFree: int64, names: seq<LeaseId>, token: nat)
    requires ValidPolicy(s.policy) && Positive(s.journals) && Reserved(s) <= MAX && s.lock == None
    requires p in s.phases && s.phases[p] == Idle && used >= 0 && Fresh(s, token)
    requires Distinct(names) && NameSet(names) == s.journals.Keys
    ensures ReserveAlone(s, p, id, used, hostFree, names, token)
         == if Granted(s, id, used, hostFree)
            then s.(journals := s.journals[id := Journal(Requested, s.policy.workerReserve, token)],
                    leases := s.leases[token := Lease(id, s.policy.workerReserve, Requested, false)])
            else s
  {
    var measured := Take(Take(s, TakeLock(p, id)), Measure(p, used, hostFree, NameSet(names)));
    LiveSumMonotone(s.journals, s.journals, s.journals.Keys);
    MeasuredAlone(s, p, id, used, hostFree, names);
    assert s.journals.Keys - NameSet(names) == {};
    ReadAloneIs(s, p, id, used, hostFree, names, 0);
    assert id in names <==> id in NameSet(names);
    if id in names {
      RefusedAlone(s, p, token);
    } else {
      DecidedAlone(s, p, id, used, hostFree, token);
    }
  }

  lemma MeasuredAlone(s: State, p: nat, id: LeaseId, used: int64, hostFree: int64, names: seq<LeaseId>)
    requires s.lock == None && p in s.phases && s.phases[p] == Idle && used >= 0 && NameSet(names) == s.journals.Keys
    ensures Take(Take(s, TakeLock(p, id)), Measure(p, used, hostFree, NameSet(names)))
         == Inside(s, p, Scanning(id, used, hostFree, NameSet(names), 0))
  {
    assert s.phases[p := Locked(id)][p := Scanning(id, used, hostFree, NameSet(names), 0)]
        == s.phases[p := Scanning(id, used, hostFree, NameSet(names), 0)];
  }

  lemma RefusedAlone(s: State, p: nat, token: nat)
    requires s.lock == None && p in s.phases && s.phases[p] == Idle
    ensures Take(Take(Take(Inside(s, p, Unlocking), Decide(p)), Create(p, token, false)), Unlock(p, true)) == s
  {
    assert s.phases[p := Unlocking][p := Idle] == s.phases;
  }

  lemma DecidedAlone(s: State, p: nat, id: LeaseId, used: int64, hostFree: int64, token: nat)
    requires ValidPolicy(s.policy) && s.lock == None && p in s.phases && s.phases[p] == Idle && used >= 0 && Fresh(s, token)
    requires id !in s.journals && 0 <= Reserved(s) <= MAX
    ensures var scanned := Inside(s, p, Scanning(id, used, hostFree, {}, Reserved(s) as int64));
            Take(Take(Take(scanned, Decide(p)), Create(p, token, false)), Unlock(p, true))
            == if Granted(s, id, used, hostFree)
               then s.(journals := s.journals[id := Journal(Requested, s.policy.workerReserve, token)],
                       leases := s.leases[token := Lease(id, s.policy.workerReserve, Requested, false)])
               else s
  {
    var scanned := Inside(s, p, Scanning(id, used, hostFree, {}, Reserved(s) as int64));
    var decided := Inside(s, p, if Granted(s, id, used, hostFree) then Creating(id, used) else Unlocking);
    assert Take(scanned, Decide(p)).phases == decided.phases;
    CreatedAlone(s, p, id, used, hostFree, token);
  }

  lemma CreatedAlone(s: State, p: nat, id: LeaseId, used: int64, hostFree: int64, token: nat)
    requires s.lock == None && p in s.phases && s.phases[p] == Idle && Fresh(s, token) && id !in s.journals
    ensures var granted := Granted(s, id, used, hostFree);
            var decided := Inside(s, p, if granted then Creating(id, used) else Unlocking);
            Take(Take(decided, Create(p, token, false)), Unlock(p, true))
            == if granted
               then s.(journals := s.journals[id := Journal(Requested, s.policy.workerReserve, token)],
                       leases := s.leases[token := Lease(id, s.policy.workerReserve, Requested, false)])
               else s
  {
    assert s.phases[p := Unlocking][p := Idle] == s.phases;
    assert s.phases[p := Creating(id, used)][p := Unlocking][p := Idle] == s.phases;
  }

  /** A reservation that gives up anywhere leaves nothing behind either. */
  lemma GiveUpAloneLeavesNothing(s: State, p: nat, phase: Phase)
    requires s.lock == None && p in s.phases && s.phases[p] == Idle
    requires phase.Locked? || phase.Scanning? || phase.Creating?
    ensures Take(Take(Inside(s, p, phase), GiveUp(p)), Unlock(p, true)) == s
  {
    assert s.phases[p := phase][p := Unlocking][p := Idle] == s.phases;
  }

  /** The undisturbed end of a lease that still has its journal: released, or rolled back, it leaves neither
      journal nor reservation, and is never used again. */
  lemma EndOfLease(s: State, t: nat)
    requires Open(s.leases, t) && Owns(s.journals, s.leases, t)
    ensures var l := s.leases[t];
            Take(Take(s, Write(t, Released, true)), Erase(t, true, true))
            == s.(journals := s.journals - {l.id}, leases := s.leases[t := l.(state := Released, finished := true)])
    ensures var l := s.leases[t];
            Rank(l.state) <= Rank(Ready) ==>
              Take(s, Rollback(t, true)) == s.(journals := s.journals - {l.id}, leases := s.leases[t := l.(finished := true)])
  {
    var l := s.leases[t];
    assert s.journals[l.id := Journal(Released, l.bytes, t)] - {l.id} == s.journals - {l.id};
    assert s.leases[t := l.(state := Released)][t := l.(state := Released, finished := true)]
        == s.leases[t := l.(state := Released, finished := true)];
  }

  // ---------------------------------------------------------------- the failing case

  const SMALL := Policy(100, 60, 1)

  /** A run that starts in an empty directory and ends in `s`. */
  ghost predicate LeadsTo(states: seq<State>, actions: seq<Action>, s: State) {
    Run(states, actions) && Init(states[0]) && states[|actions|] == s
  }

  lemma Extend(states: seq<State>, actions: seq<Action>, s: State, a: Action, t: State) returns (ss: seq<State>, aa: seq<Action>)
    requires LeadsTo(states, actions, s) && Enabled(s, a) && t == Apply(s, a)
    ensures LeadsTo(ss, aa, t)
  {
    ss, aa := states + [t], actions + [a];
  }

  function At(s: State, phase: Phase): State {
    s.(lock := Some(0), phases := map[0 := phase])
  }

  /** Reads the released journals that are still to be read. */
  lemma ReadAll(states: seq<State>, actions: seq<Action>, s: State, id: LeaseId, unread: set<LeaseId>)
    returns (ss: seq<State>, aa: seq<Action>)
    requires LeadsTo(states, actions, At(s, Scanning(id, 0, 100, unread, 0)))
    requires unread <= s.journals.Keys && id !in unread && forall n :: n in unread ==> s.journals[n].state == Released
    ensures LeadsTo(ss, aa, At(s, Scanning(id, 0, 100, {}, 0)))
    decreases |unread|
  {
    ss, aa := states, actions;
    if unread != {} {
      var n :| n in unread;
      var before, after := At(s, Scanning(id, 0, 100, unread, 0)), At(s, Scanning(id, 0, 100, unread - {n}, 0));
      assert Apply(before, Read(0, n)) == after;
      ss, aa := Extend(states, actions, before, Read(0, n), after);
      ss, aa := ReadAll(ss, aa, s, id, unread - {n});
    }
  }

  lemma FirstSteps(s: State, id: LeaseId)
    requires s.lock == None && s.phases == map[0 := Idle]
    ensures Enabled(s, TakeLock(0, id)) && Apply(s, TakeLock(0, id)) == At(s, Locked(id))
    ensures var m := Measure(0, 0, 100, s.journals.Keys);
            Enabled(At(s, Locked(id)), m) && Apply(At(s, Locked(id)), m) == At(s, Scanning(id, 0, 100, s.journals.Keys, 0))
  {
  }

  lemma LastSteps(s: State, id: LeaseId, token: nat)
    requires s.policy == SMALL && s.lock == None && s.phases == map[0 := Idle] && id !in s.journals && Fresh(s, token)
    ensures var scanned, creating := At(s, Scanning(id, 0, 100, {}, 0)), At(s, Creating(id, 0));
            Enabled(scanned, Decide(0)) && Apply(scanned, Decide(0)) == creating
    ensures var creating, created := At(s, Creating(id, 0)), At(WithLease(s, id, token), Unlocking);
            Enabled(creating, Create(0, token, false)) && Apply(creating, Create(0, token, false)) == created
    ensures var created := At(WithLease(s, id, token), Unlocking);
            Enabled(created, Unlock(0, true)) && Apply(created, Unlock(0, true)) == WithLease(s, id, token)
  {
  }

  function WithLease(s: State, id: LeaseId, token: nat): State {
    s.(journals := s.journals[id := Journal(Requested, 60, token)], leases := s.leases[token := Leased(id, Requested)])
  }

  function Leased(id: LeaseId, state: LeaseState): Lease { Lease(id, 60, state, false) }

  /** One admission from lock to unlock, past released journals only. */
  lemma Admit(states: seq<State>, actions: seq<Action>, s: State, id: LeaseId, token: nat) returns (ss: seq<State>, aa: seq<Action>)
    requires LeadsTo(states, actions, s)
    requires s.policy == SMALL && s.lock == None && s.phases == map[0 := Idle] && id !in s.journals && Fresh(s, token)
    requires forall n :: n in s.journals ==> s.journals[n].state == Released
    ensures LeadsTo(ss, aa, WithLease(s, id, token))
  {
    FirstSteps(s, id);
    LastSteps(s, id, token);
    ss, aa := Extend(states, actions, s, TakeLock(0, id), At(s, Locked(id)));
    ss, aa := Extend(ss, aa, At(s, Locked(id)), Measure(0, 0, 100, s.journals.Keys), At(s, Scanning(id, 0, 100, s.journals.Keys, 0)));
    ss, aa := ReadAll(ss, aa, s, id, s.journals.Keys);
    ss, aa := Extend(ss, aa, At(s, Scanning(id, 0, 100, {}, 0)), Decide(0), At(s, Creating(id, 0)));
    var t := WithLease(s, id, token);
    ss, aa := Extend(ss, aa, At(s, Creating(id, 0)), Create(0, token, false), At(t, Unlocking));
    ss, aa := Extend(ss, aa, At(t, Unlocking), Unlock(0, true), t);
  }

  function Quiet(journals: map<LeaseId, Journal>, leases: map<nat, Lease>): State {
    State(SMALL, journals, leases, None, map[0 := Idle])
  }

  lemma Begin() returns (states: seq<State>, actions: seq<Action>)
    ensures LeadsTo(states, actions, Quiet(map[], map[]))
  {
    states, actions := [Quiet(map[], map[])], [];
    EmptyDirectoryStarts(states[0]);
  }

  const ADMITTED := Quiet(map["a" := Journal(Requested, 60, 1)], map[1 := Leased("a", Requested)])
  const RELEASED := Quiet(map["a" := Journal(Released, 60, 1)], map[1 := Leased("a", Released)])
  const TORN := Quiet(map[], map[1 := Leased("a", Released)])

  lemma FirstAdmission()
    ensures WithLease(Quiet(map[], map[]), "a", 1) == ADMITTED
  {
  }

  lemma ReleaseSteps()
    ensures Enabled(ADMITTED, Write(1, Released, true)) && Apply(ADMITTED, Write(1, Released, true)) == RELEASED
    ensures Enabled(RELEASED, Erase(1, true, false)) && Apply(RELEASED, Erase(1, true, false)) == TORN
  {
  }

  /** Lease 1 has released everything, but its removal was torn: it does not know that its file is gone. */
  lemma TornRelease() returns (states: seq<State>, actions: seq<Action>)
    ensures LeadsTo(states, actions, TORN)
  {
    states, actions := Begin();
    states, actions := Admit(states, actions, Quiet(map[], map[]), "a", 1);
    FirstAdmission();
    ReleaseSteps();
    states, actions := Extend(states, actions, ADMITTED, Write(1, Released, true), RELEASED);
    states, actions := Extend(states, actions, RELEASED, Erase(1, true, false), TORN);
  }

  const TWO_LEASES := map[1 := Leased("a", Released), 2 := Leased("a", Requested)]
  const CLOBBERED := Quiet(map["a" := Journal(Released, 60, 1)], TWO_LEASES)

  /** Lease 2 is admitted under the same id, and the repeated release writes "released" over its journal. */
  lemma ClobberedJournal() returns (states: seq<State>, actions: seq<Action>)
    ensures LeadsTo(states, actions, CLOBBERED)
  {
    states, actions := TornRelease();
    states, actions := Admit(states, actions, TORN, "a", 2);
    var admitted := Quiet(map["a" := Journal(Requested, 60, 2)], TWO_LEASES);
    assert WithLease(TORN, "a", 2) == admitted;
    assert Apply(admitted, Write(1, Released, true)) == CLOBBERED;
    states, actions := Extend(states, actions, admitted, Write(1, Released, true), CLOBBERED);
  }

  const THREE_LEASES := map[1 := Leased("a", Released), 2 := Leased("a", Requested), 3 := Leased("b", Requested)]
  const OVERBOOKED := Quiet(map["a" := Journal(Released, 60, 1), "b" := Journal(Requested, 60, 3)], THREE_LEASES)
  const DOUBLED := Quiet(map["a" := Journal(Running, 60, 2), "b" := Journal(Requested, 60, 3)],
                         THREE_LEASES[2 := Leased("a", Running)])

  lemma ThirdAdmission()
    ensures WithLease(CLOBBERED, "b", 3) == OVERBOOKED
    ensures Enabled(OVERBOOKED, Write(2, Running, true)) && Apply(OVERBOOKED, Write(2, Running, true)) == DOUBLED
  {
  }

  lemma TwoJournals(s: State)
    requires s.journals == map["a" := Journal(Running, 60, 2), "b" := Journal(Requested, 60, 3)]
    ensures Reserved(s) == 120
  {
    LiveSumRemove(s.journals, {"a", "b"}, "a");
    LiveSumRemove(s.journals, {"b"}, "b");
    assert {"a", "b"} - {"a"} == {"b"} && {"b"} - {"b"} == {} && s.journals.Keys == {"a", "b"};
  }

  /** What a disturbed run can come to, from an empty directory: lease 3 is admitted into bytes that lease 2
      still holds, and the next journal lease 2 writes makes 120 reserved bytes of a budget of 100. */
  lemma StaleReleaseBreaksBudget() returns (states: seq<State>, actions: seq<Action>)
    ensures Run(states, actions) && Init(states[0]) && !Undisturbed(states, actions, |actions|)
    ensures Reserved(states[|actions|]) > states[|actions|].policy.softBudget as int
  {
    states, actions := ClobberedJournal();
    states, actions := Admit(states, actions, CLOBBERED, "b", 3);
    ThirdAdmission();
    states, actions := Extend(states, actions, OVERBOOKED, Write(2, Running, true), DOUBLED);
    TwoJournals(DOUBLED);
    DisturbedIfOverBudget(states, actions);
  }

  lemma DisturbedIfOverBudget(states: seq<State>, actions: seq<Action>)
    requires Run(states, actions) && Reserved(states[|actions|]) > states[|actions|].policy.softBudget as int
    ensures !Undisturbed(states, actions, |actions|)
  {
    if Undisturbed(states, actions, |actions|) {
      RunKeepsInv(states, actions, |actions|);
      assert false;
    }
  }
}
