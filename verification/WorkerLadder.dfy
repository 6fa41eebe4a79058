/** `CalculateWorkerLadderSizing` (`internal/refsworkspace/worker_ladder.go`): the soft budget and the host
    floor for N workers, and their agreement with the admission test that every worker meets later. */
module WorkerLadder {
  import opened Int64
  import opened Reservation

  const SAFETY: int := 0x1_0000_0000
  const MAX_SOFT_BUDGET: int := 0xF_8000_0000

  predicate ValidWorkerCount(count: int) { count == 2 || count == 4 || count == 8 }

  datatype Sizing = Sizing(totalReserve: int64, softBudget: int64, requiredHostFree: int64)

  datatype SizingError = InvalidInput | ReserveOverflow | SoftBudgetOverflow | RoundOverflow | HostFreeOverflow | AboveMaximum

  datatype Outcome = Sized(sizing: Sizing) | Rejected(error: SizingError)

  datatype Request = Request(used: int64, workers: int, reserve: int64, minimumHostFree: int64, overhead: int64) {
    predicate Valid() {
      ValidWorkerCount(workers) && used >= 0 && reserve > 0 && minimumHostFree > 0 && overhead >= 0
    }

    /** The bytes N workers may reserve. */
    ghost function Reserved(): int { workers * reserve as int }

    ghost function Needed(): int { used as int + Reserved() + SAFETY }

    ghost function HostFloor(): int { minimumHostFree as int + overhead as int + Reserved() }
  }

  /** Succeeds exactly when the need fits the 62 GiB limit and the host floor is an int64; the first failing
      step decides the error, and a host-floor overflow is reported before an excessive budget. */
  method CalculateWorkerLadderSizing(q: Request) returns (r: Outcome)
    ensures r.Sized? <==> q.Valid() && q.Needed() <= MAX_SOFT_BUDGET && q.HostFloor() <= MAX
    ensures r.Sized? ==>
              && r.sizing.totalReserve as int == q.Reserved()
              && LeastGiBMultiple(q.Needed(), r.sizing.softBudget as int)
              && r.sizing.requiredHostFree as int == q.HostFloor()
    ensures r == Rejected(InvalidInput) <==> !q.Valid()
    ensures r == Rejected(ReserveOverflow) <==> q.Valid() && q.Reserved() > MAX
    ensures r == Rejected(SoftBudgetOverflow) <==> q.Valid() && q.Reserved() <= MAX < q.Needed()
    ensures r == Rejected(RoundOverflow) <==> q.Valid() && MAX - (GIB - 1) < q.Needed() <= MAX
    ensures r == Rejected(HostFreeOverflow) <==> q.Valid() && q.Needed() <= MAX - (GIB - 1) && q.HostFloor() > MAX
  {
    if !q.Valid() {
      return Rejected(InvalidInput);
    }
    var reserve := CheckedMultiply(q.workers as int64, q.reserve);
    if reserve.Overflow? {
      return Rejected(ReserveOverflow);
    }
    var required := CheckedAdd(q.used, reserve.value);
    if required.Fits? {
      required := CheckedAdd(required.value, SAFETY as int64);
    }
    if required.Overflow? {
      return Rejected(SoftBudgetOverflow);
    }
    var budget := RoundUpGiB(required.value);
    if budget.Overflow? {
      return Rejected(RoundOverflow);
    }
    var host := CheckedAdd(q.minimumHostFree, q.overhead);
    if host.Fits? {
      host := CheckedAdd(host.value, reserve.value);
    }
    if host.Overflow? {
      return Rejected(HostFreeOverflow);
    }
    if budget.value as int > MAX_SOFT_BUDGET {
      return Rejected(AboveMaximum);
    }
    LeastGiBMultipleIsLeast(q.Needed(), budget.value as int, budget.value as int);
    return Sized(Sizing(reserve.value, budget.value, host.value));
  }

  // ---------------------------------------------------------------- the admissions that follow

  /** A reservation attempt with what it measured, or the release of one earlier worker. */
  datatype Event = Reserve(used: int64, hostFree: int64) | ReleaseOne

  datatype Ledger = Ledger(live: nat, attempts: nat, refused: nat)

  function Active(live: nat, reserve: int64): int { live * reserve as int }

  /** One event, judged by `Reservation.Admits` against the reservations still live. */
  function Step(policy: Policy, l: Ledger, e: Event): Ledger {
    match e
    case ReleaseOne => if l.live == 0 then l else l.(live := l.live - 1)
    case Reserve(used, hostFree) =>
      var active := Active(l.live, policy.workerReserve);
      if 0 <= active <= MAX && Admits(policy, used, active as int64, hostFree)
      then l.(live := l.live + 1, attempts := l.attempts + 1)
      else l.(attempts := l.attempts + 1, refused := l.refused + 1)
  }

  function Replay(policy: Policy, events: seq<Event>): Ledger {
    if events == [] then Ledger(0, 0, 0) else Step(policy, Replay(policy, events[..|events| - 1]), events[|events| - 1])
  }

  /** Used space stays below the baseline plus the safety margin, and before the k-th attempt the host has
      lost no more than the overhead and k - 1 reserves. */
  ghost predicate WithinForecast(q: Request, attempts: nat, e: Event) {
    e.Reserve? ==>
      && 0 <= e.used as int <= q.used as int + SAFETY
      && e.hostFree as int >= q.HostFloor() - q.overhead as int - Active(attempts, q.reserve)
  }

  ghost predicate AllWithinForecast(q: Request, policy: Policy, events: seq<Event>) {
    forall i :: 0 <= i < |events| ==> WithinForecast(q, Replay(policy, events[..i]).attempts, events[i])
  }

  function PolicyOf(q: Request, softBudget: int64): Policy { Policy(softBudget, q.reserve, q.minimumHostFree) }

  lemma ActiveBounds(a: nat, b: nat, reserve: int64)
    requires a <= b && reserve > 0
    ensures 0 <= Active(a, reserve) <= Active(b, reserve)
    ensures Active(a + 1, reserve) == Active(a, reserve) + reserve as int
  {
    MulMonotone(reserve as int, a, b);
  }

  lemma NextIsAdmitted(q: Request, softBudget: int64, l: Ledger, e: Event)
    requires q.Valid() && q.Needed() <= softBudget as int && q.HostFloor() <= MAX
    requires e.Reserve? && l.live <= l.attempts < q.workers && WithinForecast(q, l.attempts, e)
    ensures Step(PolicyOf(q, softBudget), l, e) == l.(live := l.live + 1, attempts := l.attempts + 1)
  {
    ActiveBounds(l.live, q.workers - 1, q.reserve);
    ActiveBounds(l.attempts, q.workers - 1, q.reserve);
    ActiveBounds(q.workers - 1, q.workers, q.reserve);
    assert Active(q.workers, q.reserve) == q.Reserved();
  }

  /** With the calculated budget, N attempts in any order, with releases anywhere between them, are all
      admitted. */
  lemma {:induction false} SizedLadderAdmitsEveryWorker(q: Request, softBudget: int64, events: seq<Event>)
    requires q.Valid() && q.Needed() <= softBudget as int && q.HostFloor() <= MAX
    requires Replay(PolicyOf(q, softBudget), events).attempts <= q.workers
    requires AllWithinForecast(q, PolicyOf(q, softBudget), events)
    ensures Replay(PolicyOf(q, softBudget), events).refused == 0
    ensures Replay(PolicyOf(q, softBudget), events).live <= Replay(PolicyOf(q, softBudget), events).attempts
  {
    if events != [] {
      var n := |events| - 1;
      var policy := PolicyOf(q, softBudget);
      var before := Replay(policy, events[..n]);
      forall i | 0 <= i < n
        ensures WithinForecast(q, Replay(policy, events[..n][..i]).attempts, events[..n][i])
      {
        assert events[..n][..i] == events[..i];
      }
      SizedLadderAdmitsEveryWorker(q, softBudget, events[..n]);
      if events[n].Reserve? {
        NextIsAdmitted(q, softBudget, before, events[n]);
      }
    }
  }

  ghost function Reserves(events: seq<Event>): nat {
    if events == [] then 0 else Reserves(events[..|events| - 1]) + if events[|events| - 1].Reserve? then 1 else 0
  }

  /** Every release ends a worker that is live. */
  ghost predicate Matched(policy: Policy, events: seq<Event>) {
    forall i :: 0 <= i < |events| && events[i].ReleaseOne? ==> Replay(policy, events[..i]).live > 0
  }

  /** The ledger's balance: every event is one attempt or one release, and what was neither refused nor
      released is live. */
  lemma {:induction false} LedgerBalances(policy: Policy, events: seq<Event>)
    requires Matched(policy, events)
    ensures var l := Replay(policy, events);
            l.attempts == Reserves(events) && l.attempts == l.refused + l.live + (|events| - Reserves(events))
  {
    if events != [] {
      var front, last := events[..|events| - 1], |events| - 1;
      forall i | 0 <= i < |front| && front[i].ReleaseOne?
        ensures Replay(policy, front[..i]).live > 0
      {
        assert front[..i] == events[..i] && front[i] == events[i];
      }
      LedgerBalances(policy, front);
    }
  }

  /** An attempt at the edge of the forecast, with an untouched host. */
  ghost function EdgeOfForecast(q: Request): Event
    requires q.Valid() && q.used as int + SAFETY <= MAX && q.HostFloor() <= MAX
  {
    ActiveBounds(0, q.workers, q.reserve);
    Reserve((q.used as int + SAFETY) as int64, q.HostFloor() as int64)
  }

  ghost function WorstCase(q: Request, n: nat): (events: seq<Event>)
    requires q.Valid() && q.used as int + SAFETY <= MAX && q.HostFloor() <= MAX
    ensures |events| == n
  {
    if n == 0 then [] else WorstCase(q, n - 1) + [EdgeOfForecast(q)]
  }

  lemma WorstCaseSnoc(q: Request, n: nat)
    requires q.Valid() && q.used as int + SAFETY <= MAX && q.HostFloor() <= MAX && n > 0
    ensures WorstCase(q, n)[..n - 1] == WorstCase(q, n - 1) && WorstCase(q, n)[n - 1] == EdgeOfForecast(q)
  {
  }

  lemma {:induction false} WorstCaseLedger(q: Request, policy: Policy, n: nat)
    requires q.Valid() && q.Needed() <= MAX && q.HostFloor() <= MAX
    requires q.used as int + SAFETY <= MAX
    ensures Replay(policy, WorstCase(q, n)).attempts == n
    ensures Replay(policy, WorstCase(q, n)).live + Replay(policy, WorstCase(q, n)).refused == n
  {
    if n > 0 {
      WorstCaseLedger(q, policy, n - 1);
      WorstCaseSnoc(q, n);
    }
  }

  /** Below the need, the last worker is refused when all others are live and the forecast is used up. */
  lemma LastWorkerRefused(q: Request, smaller: int64, l: Ledger)
    requires q.Valid() && q.HostFloor() <= MAX && q.used as int + SAFETY <= MAX && 0 < smaller as int < q.Needed()
    requires l.live == q.workers - 1
    ensures Step(PolicyOf(q, smaller), l, EdgeOfForecast(q)).refused == l.refused + 1
  {
    ActiveBounds(l.live, q.workers, q.reserve);
    assert Active(q.workers, q.reserve) == q.Reserved();
  }

  /** The budget is as small as it can be: any smaller number of GiB refuses a worker in the worst case the
      sizing allows for. */
  lemma SmallerBudgetRefusesAWorker(q: Request, softBudget: int64, smaller: int64)
    requires q.Valid() && q.HostFloor() <= MAX && LeastGiBMultiple(q.Needed(), softBudget as int)
    requires q.used as int + SAFETY <= MAX
    requires 0 < smaller < softBudget && smaller as int % GIB == 0
    ensures Replay(PolicyOf(q, smaller), WorstCase(q, q.workers)).refused > 0
  {
    var policy, n := PolicyOf(q, smaller), q.workers;
    WorstCaseLedger(q, policy, n - 1);
    WorstCaseSnoc(q, n);
    var before := Replay(policy, WorstCase(q, n - 1));
    if smaller as int >= q.Needed() {
      LeastGiBMultipleIsLeast(q.Needed(), softBudget as int, smaller as int);
    }
    if before.refused == 0 {
      LastWorkerRefused(q, smaller, before);
    }
  }
}
