/** `internal/refsworkspace/residual.go`: every entry of the managed directories is put into one class, and
    the mounted residual is zero exactly when only canonical baselines are left. */
module MountedResidual {
  datatype Kind = Regular | Dir | Other

  datatype DirEntry = DirEntry(name: string, kind: Kind)

  // ---------------------------------------------------------------- name patterns

  predicate HexDigit(c: char) { '0' <= c <= '9' || 'a' <= c <= 'f' }

  predicate LowerAlnum(c: char) { '0' <= c <= '9' || 'a' <= c <= 'z' }

  predicate Digest(s: string) { |s| == 64 && forall i :: 0 <= i < |s| ==> HexDigit(s[i]) }

  predicate LeaseId(s: string) {
    8 <= |s| <= 64 && LowerAlnum(s[0]) && forall i :: 0 <= i < |s| ==> LowerAlnum(s[i]) || s[i] == '-'
  }

  predicate StagingSuffix(s: string) {
    |s| > 9 && s[..9] == ".staging-"
    && forall i :: 9 <= i < |s| ==> '0' <= s[i] <= '9' || 'a' <= s[i] <= 'z' || 'A' <= s[i] <= 'Z' || s[i] in "._-"
  }

  predicate EndsWith(s: string, suffix: string) { |suffix| <= |s| && s[|s| - |suffix|..] == suffix }

  predicate WorkerJournalName(s: string) {
    |s| >= 12 && s[..7] == "worker-" && EndsWith(s, ".json") && LeaseId(s[7..|s| - 5])
  }

  predicate ActiveUseName(s: string) {
    |s| >= 77 && s[..7] == "active-" && Digest(s[7..71]) && s[71] == '-' && EndsWith(s, ".json") && LeaseId(s[72..|s| - 5])
  }

  predicate BaselineName(s: string, suffix: string) {
    |s| == 73 + |suffix| && s[..9] == "baseline-" && Digest(s[9..73]) && s[73..] == suffix
  }

  predicate BaselineStagingName(s: string) { |s| > 65 && s[0] == '.' && Digest(s[1..65]) && StagingSuffix(s[65..]) }

  predicate WorkerStagingName(s: string) {
    |s| > 9 && s[0] == '.' && exists k :: 9 <= k < |s| && LeaseId(s[1..k]) && StagingSuffix(s[k..])
  }

  // The same patterns put together from their parts.

  ghost predicate Hexadecimal(s: string) { forall i :: 0 <= i < |s| ==> s[i] in "0123456789abcdef" }

  ghost predicate Dashed(s: string) { forall i :: 0 <= i < |s| ==> s[i] == '-' || 'a' <= s[i] <= 'z' || '0' <= s[i] <= '9' }

  ghost predicate Marked(s: string) {
    forall i :: 0 <= i < |s| ==> s[i] in "._-" || 'a' <= s[i] <= 'z' || 'A' <= s[i] <= 'Z' || '0' <= s[i] <= '9'
  }

  lemma DigestIff(s: string)
    ensures Digest(s) <==> |s| == 64 && Hexadecimal(s)
  {
    assert forall c :: HexDigit(c) <==> c in "0123456789abcdef";
  }

  lemma LeaseIdIff(s: string)
    ensures LeaseId(s) <==> 8 <= |s| <= 64 && s[0] != '-' && Dashed(s)
  {
  }

  lemma StagingSuffixIff(s: string)
    ensures StagingSuffix(s) <==> exists t :: t != "" && Marked(t) && s == ".staging-" + t
  {
    if StagingSuffix(s) {
      var t := s[9..];
      assert s == ".staging-" + t && forall i :: 0 <= i < |t| ==> t[i] == s[i + 9];
    }
    if t :| t != "" && Marked(t) && s == ".staging-" + t {
      assert forall i :: 9 <= i < |s| ==> s[i] == t[i - 9];
    }
  }

  lemma WorkerJournalNameIff(s: string)
    ensures WorkerJournalName(s) <==> exists id :: LeaseId(id) && s == "worker-" + id + ".json"
  {
    if WorkerJournalName(s) {
      assert s == "worker-" + s[7..|s| - 5] + ".json";
    }
    if id :| LeaseId(id) && s == "worker-" + id + ".json" {
      assert s[7..|s| - 5] == id && s[|s| - 5..] == ".json" && s[..7] == "worker-";
    }
  }

  lemma ActiveUseNameIff(s: string)
    ensures ActiveUseName(s) <==> exists d, id :: Digest(d) && LeaseId(id) && s == "active-" + d + "-" + id + ".json"
  {
    if ActiveUseName(s) {
      assert s == "active-" + s[7..71] + "-" + s[72..|s| - 5] + ".json";
    }
    if d, id :| Digest(d) && LeaseId(id) && s == "active-" + d + "-" + id + ".json" {
      assert s[7..71] == d && s[72..|s| - 5] == id && s[|s| - 5..] == ".json" && s[..7] == "active-";
    }
  }

  lemma BaselineNameIff(s: string, suffix: string)
    ensures BaselineName(s, suffix) <==> exists d :: Digest(d) && s == "baseline-" + d + suffix
  {
    if BaselineName(s, suffix) {
      assert s == "baseline-" + s[9..73] + suffix;
    }
    if d :| Digest(d) && s == "baseline-" + d + suffix {
      assert s[9..73] == d && s[73..] == suffix && s[..9] == "baseline-";
    }
  }

  lemma BaselineStagingNameIff(s: string)
    ensures BaselineStagingName(s) <==> exists d, t :: Digest(d) && StagingSuffix(t) && s == "." + d + t
  {
    if BaselineStagingName(s) {
      assert s == "." + s[1..65] + s[65..];
    }
    if d, t :| Digest(d) && StagingSuffix(t) && s == "." + d + t {
      assert s[1..65] == d && s[65..] == t;
    }
  }

  lemma WorkerStagingNameIff(s: string)
    ensures WorkerStagingName(s) <==> exists id, t :: LeaseId(id) && StagingSuffix(t) && s == "." + id + t
  {
    if WorkerStagingName(s) {
      var k :| 9 <= k < |s| && LeaseId(s[1..k]) && StagingSuffix(s[k..]);
      assert s == "." + s[1..k] + s[k..];
    }
    if id, t :| LeaseId(id) && StagingSuffix(t) && s == "." + id + t {
      var k := 1 + |id|;
      assert s[1..k] == id && s[k..] == t;
    }
  }

  // ---------------------------------------------------------------- classes

  datatype LeaseClass = Journal | ActiveUse | CreationLock | Coordination | Mutation | Reservation | UnknownLease

  function ClassOfLease(e: DirEntry): LeaseClass {
    if e.kind == Regular && WorkerJournalName(e.name) then Journal
    else if e.kind == Regular && ActiveUseName(e.name) then ActiveUse
    else if e.kind == Dir && BaselineName(e.name, ".lock") then CreationLock
    else if e.kind == Dir && BaselineName(e.name, ".coord") then Coordination
    else if e.kind == Regular && BaselineName(e.name, ".mutation.json") then Mutation
    else if e.kind == Dir && e.name == ".reservation.lock" then Reservation
    else UnknownLease
  }

  /** The class test of one switch case, taken on its own. */
  predicate Matches(e: DirEntry, c: LeaseClass) {
    match c
    case Journal => e.kind == Regular && WorkerJournalName(e.name)
    case ActiveUse => e.kind == Regular && ActiveUseName(e.name)
    case CreationLock => e.kind == Dir && BaselineName(e.name, ".lock")
    case Coordination => e.kind == Dir && BaselineName(e.name, ".coord")
    case Mutation => e.kind == Regular && BaselineName(e.name, ".mutation.json")
    case Reservation => e.kind == Dir && e.name == ".reservation.lock"
    case UnknownLease => false
  }

  /** The patterns exclude each other, so the order of the cases does not matter: an entry's class is the
      one pattern it matches, and it is unknown exactly when it matches none. */
  lemma ClassesExclusive(e: DirEntry, c: LeaseClass)
    ensures c != UnknownLease ==> (ClassOfLease(e) == c <==> Matches(e, c))
    ensures ClassOfLease(e) == UnknownLease <==> forall d :: !Matches(e, d)
  {
    var s := e.name;
    if |s| >= 9 {
      assert s[..7] == "worker-" ==> s[0] == 'w';
      assert s[..7] == "active-" ==> s[0] == 'a';
      assert s[..9] == "baseline-" ==> s[0] == 'b';
    }
    var own := ClassOfLease(e);
    assert own != UnknownLease ==> Matches(e, own);
    assert forall d :: Matches(e, d) ==> d == own;
  }

  datatype TreeClass = Canonical | Staging | UnknownEntry

  function ClassOfBaseline(e: DirEntry): TreeClass {
    if e.kind == Dir && Digest(e.name) then Canonical
    else if e.kind == Dir && BaselineStagingName(e.name) then Staging
    else UnknownEntry
  }

  function ClassOfWorker(e: DirEntry): TreeClass {
    if e.kind == Dir && LeaseId(e.name) then Canonical
    else if e.kind == Dir && WorkerStagingName(e.name) then Staging
    else UnknownEntry
  }

  ghost function Number<C>(entries: seq<DirEntry>, classify: DirEntry -> C, c: C): nat {
    if entries == [] then 0 else
      Number(entries[..|entries| - 1], classify, c) + if classify(entries[|entries| - 1]) == c then 1 else 0
  }

  lemma {:induction false} NumberZero<C>(entries: seq<DirEntry>, classify: DirEntry -> C, c: C)
    ensures Number(entries, classify, c) == 0 <==> forall i :: 0 <= i < |entries| ==> classify(entries[i]) != c
  {
    if entries != [] {
      NumberZero(entries[..|entries| - 1], classify, c);
      assert entries == entries[..|entries| - 1] + [entries[|entries| - 1]];
    }
  }

  /** The places of the entries that satisfy `p`. */
  ghost function Places(entries: seq<DirEntry>, p: DirEntry -> bool): set<nat> {
    set i: nat | i < |entries| && p(entries[i])
  }

  /** How many entries satisfy `p`. */
  ghost function Count(entries: seq<DirEntry>, p: DirEntry -> bool): nat { |Places(entries, p)| }

  lemma {:induction false} NumberCounts<C>(entries: seq<DirEntry>, classify: DirEntry -> C, c: C, p: DirEntry -> bool)
    requires forall i :: 0 <= i < |entries| ==> (classify(entries[i]) == c <==> p(entries[i]))
    ensures Number(entries, classify, c) == Count(entries, p)
  {
    if entries != [] {
      var front, last := entries[..|entries| - 1], |entries| - 1;
      NumberCounts(front, classify, c, p);
      assert Places(entries, p) == Places(front, p) + if p(entries[last]) then {last} else {};
    }
  }

  datatype LeaseCounts = LeaseCounts(
    journals: nat, active: nat, creation: nat, coordination: nat, mutation: nat, reservation: nat, unknown: nat)

  method ClassifyLeases(entries: seq<DirEntry>, classify: DirEntry -> LeaseClass) returns (n: LeaseCounts)
    ensures n == LeaseCounts(
                   Number(entries, classify, Journal), Number(entries, classify, ActiveUse),
                   Number(entries, classify, CreationLock), Number(entries, classify, Coordination),
                   Number(entries, classify, Mutation), Number(entries, classify, Reservation),
                   Number(entries, classify, UnknownLease))
    ensures n.journals + n.active + n.creation + n.coordination + n.mutation + n.reservation + n.unknown == |entries|
  {
    n := LeaseCounts(0, 0, 0, 0, 0, 0, 0);
    for i := 0 to |entries|
      invariant n == LeaseCounts(
                       Number(entries[..i], classify, Journal), Number(entries[..i], classify, ActiveUse),
                       Number(entries[..i], classify, CreationLock), Number(entries[..i], classify, Coordination),
                       Number(entries[..i], classify, Mutation), Number(entries[..i], classify, Reservation),
                       Number(entries[..i], classify, UnknownLease))
      invariant n.journals + n.active + n.creation + n.coordination + n.mutation + n.reservation + n.unknown == i
    {
      assert entries[..i + 1][..i] == entries[..i];
      match classify(entries[i])
      case Journal => n := n.(journals := n.journals + 1);
      case ActiveUse => n := n.(active := n.active + 1);
      case CreationLock => n := n.(creation := n.creation + 1);
      case Coordination => n := n.(coordination := n.coordination + 1);
      case Mutation => n := n.(mutation := n.mutation + 1);
      case Reservation => n := n.(reservation := n.reservation + 1);
      case UnknownLease => n := n.(unknown := n.unknown + 1);
    }
    assert entries[..|entries|] == entries;
  }

  method ClassifyLeaseArtifacts(entries: seq<DirEntry>) returns (n: LeaseCounts)
    ensures n == LeaseCounts(
                   Number(entries, ClassOfLease, Journal), Number(entries, ClassOfLease, ActiveUse),
                   Number(entries, ClassOfLease, CreationLock), Number(entries, ClassOfLease, Coordination),
                   Number(entries, ClassOfLease, Mutation), Number(entries, ClassOfLease, Reservation),
                   Number(entries, ClassOfLease, UnknownLease))
    ensures n.journals + n.active + n.creation + n.coordination + n.mutation + n.reservation + n.unknown == |entries|
  {
    n := ClassifyLeases(entries, ClassOfLease);
  }

  method ClassifyTree(entries: seq<DirEntry>, classify: DirEntry -> TreeClass)
    returns (canonical: nat, staging: nat, unknown: nat)
    ensures canonical == Number(entries, classify, Canonical) && staging == Number(entries, classify, Staging)
    ensures unknown == Number(entries, classify, UnknownEntry) && canonical + staging + unknown == |entries|
  {
    canonical, staging, unknown := 0, 0, 0;
    for i := 0 to |entries|
      invariant canonical == Number(entries[..i], classify, Canonical) && staging == Number(entries[..i], classify, Staging)
      invariant unknown == Number(entries[..i], classify, UnknownEntry) && canonical + staging + unknown == i
    {
      assert entries[..i + 1][..i] == entries[..i];
      match classify(entries[i])
      case Canonical => canonical := canonical + 1;
      case Staging => staging := staging + 1;
      case UnknownEntry => unknown := unknown + 1;
    }
    assert entries[..|entries|] == entries;
  }

  // ---------------------------------------------------------------- measurement

  /** The listings of the managed directories; a missing directory lists as empty. */
  datatype Pool = Pool(
    leases: seq<DirEntry>, baselines: seq<DirEntry>, workers: seq<DirEntry>, quarantine: seq<DirEntry>, root: seq<DirEntry>)

  /** What reading one journal and looking for its junction gives. */
  datatype JunctionEvidence = NoJunction | JunctionThere | Unreadable

  datatype Metric = Metric(measured: bool, count: nat)

  datatype Status = NotMeasured | MountedNonzero | MountedZero

  datatype Residual = Residual(metrics: seq<Metric>, status: Status)

  predicate ProbeName(s: string) { |s| >= 19 && s[..19] == ".block-clone-probe-" }

  lemma ProbeNameIff(s: string)
    ensures ProbeName(s) <==> exists t :: s == ".block-clone-probe-" + t
  {
    if ProbeName(s) {
      assert s == ".block-clone-probe-" + s[19..];
    }
    if t :| s == ".block-clone-probe-" + t {
      assert s[..19] == ".block-clone-probe-";
    }
  }

  function IsProbe(e: DirEntry): bool { ProbeName(e.name) }

  method CountProbes(root: seq<DirEntry>) returns (n: nat)
    ensures n == Number(root, IsProbe, true)
    ensures n == 0 <==> forall i :: 0 <= i < |root| ==> !ProbeName(root[i].name)
  {
    n := 0;
    for i := 0 to |root|
      invariant n == Number(root[..i], IsProbe, true)
    {
      assert root[..i + 1][..i] == root[..i];
      if ProbeName(root[i].name) {
        n := n + 1;
      }
    }
    assert root[..|root|] == root;
    NumberZero(root, IsProbe, true);
  }

  ghost predicate UnreadableJournal(leases: seq<DirEntry>, inspect: DirEntry -> JunctionEvidence) {
    exists i :: 0 <= i < |leases| && WorkerJournalName(leases[i].name) && inspect(leases[i]) == Unreadable
  }

  /** A readable journal whose junction is still there. */
  function HasJunction(inspect: DirEntry -> JunctionEvidence): DirEntry -> bool {
    (e: DirEntry) => WorkerJournalName(e.name) && inspect(e) == JunctionThere
  }

  /** `inspectWorkerJunctions`: it looks at every entry with a journal's name, whatever its kind. */
  method InspectWorkerJunctions(leases: seq<DirEntry>, inspect: DirEntry -> JunctionEvidence) returns (n: nat, failed: bool)
    ensures failed <==> UnreadableJournal(leases, inspect)
    ensures n == Number(leases, HasJunction(inspect), true)
  {
    n, failed := 0, false;
    for i := 0 to |leases|
      invariant failed <==> exists j :: 0 <= j < i && WorkerJournalName(leases[j].name) && inspect(leases[j]) == Unreadable
      invariant n == Number(leases[..i], HasJunction(inspect), true)
    {
      assert leases[..i + 1][..i] == leases[..i];
      if WorkerJournalName(leases[i].name) {
        match inspect(leases[i])
        case NoJunction =>
        case JunctionThere => n := n + 1;
        case Unreadable => failed := true;
      }
    }
    assert leases[..|leases|] == leases;
  }

  ghost predicate AllZero(metrics: seq<Metric>) {
    forall i :: 0 <= i < |metrics| ==> metrics[i] == Metric(true, 0)
  }

  method MountedResidualStatus(metrics: seq<Metric>) returns (status: Status)
    ensures status == NotMeasured <==> exists i :: 0 <= i < |metrics| && !metrics[i].measured
    ensures status == MountedZero <==> AllZero(metrics)
  {
    for i := 0 to |metrics|
      invariant forall j :: 0 <= j < i ==> metrics[j].measured
    {
      if !metrics[i].measured {
        return NotMeasured;
      }
    }
    for i := 0 to |metrics|
      invariant forall j :: 0 <= j < i ==> metrics[j].count == 0
    {
      if metrics[i].count != 0 {
        return MountedNonzero;
      }
    }
    return MountedZero;
  }

  function Matching(c: LeaseClass): DirEntry -> bool {
    (e: DirEntry) => Matches(e, c)
  }

  predicate UnknownLeaseEntry(e: DirEntry) { forall c :: !Matches(e, c) }

  predicate StagedBaseline(e: DirEntry) { e.kind == Dir && BaselineStagingName(e.name) }

  predicate StagedWorker(e: DirEntry) { e.kind == Dir && WorkerStagingName(e.name) }

  predicate CanonicalBaseline(e: DirEntry) { e.kind == Dir && Digest(e.name) }

  predicate WorkerDirectory(e: DirEntry) { e.kind == Dir && LeaseId(e.name) }

  predicate UnknownBaseline(e: DirEntry) { !CanonicalBaseline(e) && !StagedBaseline(e) }

  predicate UnknownWorker(e: DirEntry) { !WorkerDirectory(e) && !StagedWorker(e) }

  /** Locks and markers by which processes coordinate. */
  predicate CoordinationArtifact(e: DirEntry) {
    Matches(e, Reservation) || Matches(e, Coordination) || Matches(e, Mutation)
  }

  /** A name is not both of a tree's own pattern and of its staging pattern. */
  lemma StagingIsNotCanonical(e: DirEntry)
    ensures !(CanonicalBaseline(e) && StagedBaseline(e)) && !(WorkerDirectory(e) && StagedWorker(e))
  {
  }

  lemma LeaseCountsMeasured(leases: seq<DirEntry>)
    ensures LeaseCounts(
              Number(leases, ClassOfLease, Journal), Number(leases, ClassOfLease, ActiveUse),
              Number(leases, ClassOfLease, CreationLock), Number(leases, ClassOfLease, Coordination),
              Number(leases, ClassOfLease, Mutation), Number(leases, ClassOfLease, Reservation),
              Number(leases, ClassOfLease, UnknownLease)) == LeasesMeasured(leases)
  {
    ClassCounted(leases, Journal);
    ClassCounted(leases, ActiveUse);
    ClassCounted(leases, CreationLock);
    ClassCounted(leases, Coordination);
    ClassCounted(leases, Mutation);
    ClassCounted(leases, Reservation);
    UnknownCounted(leases);
  }

  lemma ClassCounted(leases: seq<DirEntry>, c: LeaseClass)
    requires c != UnknownLease
    ensures Number(leases, ClassOfLease, c) == Count(leases, Matching(c))
  {
    forall i | 0 <= i < |leases|
      ensures ClassOfLease(leases[i]) == c <==> Matches(leases[i], c)
    {
      ClassesExclusive(leases[i], c);
    }
    NumberCounts(leases, ClassOfLease, c, Matching(c));
  }

  lemma UnknownCounted(leases: seq<DirEntry>)
    ensures Number(leases, ClassOfLease, UnknownLease) == Count(leases, UnknownLeaseEntry)
  {
    forall i | 0 <= i < |leases|
      ensures ClassOfLease(leases[i]) == UnknownLease <==> forall c :: !Matches(leases[i], c)
    {
      ClassesExclusive(leases[i], Journal);
    }
    NumberCounts(leases, ClassOfLease, UnknownLease, UnknownLeaseEntry);
  }

  lemma TreeCountsMeasured(pool: Pool)
    ensures Number(pool.baselines, ClassOfBaseline, Staging) == Count(pool.baselines, StagedBaseline)
    ensures Number(pool.baselines, ClassOfBaseline, UnknownEntry)
         == Count(pool.baselines, UnknownBaseline)
    ensures Number(pool.workers, ClassOfWorker, Canonical) == Count(pool.workers, WorkerDirectory)
    ensures Number(pool.workers, ClassOfWorker, Staging) == Count(pool.workers, StagedWorker)
    ensures Number(pool.workers, ClassOfWorker, UnknownEntry)
         == Count(pool.workers, UnknownWorker)
  {
    forall e: DirEntry {
      StagingIsNotCanonical(e);
    }
    NumberCounts(pool.baselines, ClassOfBaseline, Staging, StagedBaseline);
    NumberCounts(pool.baselines, ClassOfBaseline, UnknownEntry, UnknownBaseline);
    NumberCounts(pool.workers, ClassOfWorker, Canonical, WorkerDirectory);
    NumberCounts(pool.workers, ClassOfWorker, Staging, StagedWorker);
    NumberCounts(pool.workers, ClassOfWorker, UnknownEntry, UnknownWorker);
  }

  lemma CountsAdd(entries: seq<DirEntry>, p: DirEntry -> bool, q: DirEntry -> bool, either: DirEntry -> bool)
    requires forall i :: 0 <= i < |entries| ==> (either(entries[i]) <==> p(entries[i]) || q(entries[i]))
    requires forall i :: 0 <= i < |entries| ==> !(p(entries[i]) && q(entries[i]))
    ensures Count(entries, either) == Count(entries, p) + Count(entries, q)
  {
    assert Places(entries, either) == Places(entries, p) + Places(entries, q);
    assert Places(entries, p) * Places(entries, q) == {};
  }

  predicate LockEntry(e: DirEntry) { Matches(e, Reservation) || Matches(e, Coordination) }

  lemma OneClass(e: DirEntry)
    ensures !(Matches(e, Reservation) && Matches(e, Coordination)) && !(LockEntry(e) && Matches(e, Mutation))
  {
    ClassesExclusive(e, Reservation);
    ClassesExclusive(e, Coordination);
    ClassesExclusive(e, Mutation);
  }

  lemma ArtifactsMeasured(leases: seq<DirEntry>)
    ensures Count(leases, CoordinationArtifact)
         == Count(leases, Matching(Reservation)) + Count(leases, Matching(Coordination)) + Count(leases, Matching(Mutation))
  {
    forall i | 0 <= i < |leases|
      ensures !(Matching(Reservation)(leases[i]) && Matching(Coordination)(leases[i]))
      ensures !(LockEntry(leases[i]) && Matching(Mutation)(leases[i]))
    {
      OneClass(leases[i]);
    }
    CountsAdd(leases, Matching(Reservation), Matching(Coordination), LockEntry);
    CountsAdd(leases, LockEntry, Matching(Mutation), CoordinationArtifact);
  }

  /** What is measured, entry by entry. The junctions are measured unless some journal is unreadable. */
  ghost function Measured(pool: Pool, inspect: DirEntry -> JunctionEvidence): (metrics: seq<Metric>)
    ensures |metrics| == 16
  {
    [ Metric(true, Count(pool.leases, Matching(ActiveUse))),
      Metric(true, Count(pool.leases, Matching(Journal))),
      Metric(true, Count(pool.workers, WorkerDirectory)),
      Metric(true, Count(pool.leases, Matching(CreationLock))),
      Metric(true, Count(pool.baselines, StagedBaseline)),
      Metric(true, Count(pool.workers, StagedWorker)),
      Metric(true, Count(pool.leases, UnknownLeaseEntry)),
      Metric(true, Count(pool.baselines, UnknownBaseline)),
      Metric(true, Count(pool.workers, UnknownWorker)),
      Metric(true, |pool.quarantine|),
      Metric(true, Count(pool.leases, Matching(Reservation))),
      Metric(true, Count(pool.leases, Matching(Coordination))),
      Metric(true, Count(pool.leases, Matching(Mutation))),
      Metric(true, Count(pool.leases, CoordinationArtifact)),
      Metric(true, Count(pool.root, IsProbe)),
      Metric(!UnreadableJournal(pool.leases, inspect),
             Count(pool.leases, HasJunction(inspect))) ]
  }

  /** The counts of the lease directory, by the patterns. */
  ghost function LeasesMeasured(leases: seq<DirEntry>): LeaseCounts {
    LeaseCounts(Count(leases, Matching(Journal)), Count(leases, Matching(ActiveUse)), Count(leases, Matching(CreationLock)),
                Count(leases, Matching(Coordination)), Count(leases, Matching(Mutation)), Count(leases, Matching(Reservation)),
                Count(leases, UnknownLeaseEntry))
  }

  ghost predicate OnlyCanonicalBaselines(pool: Pool) {
    && pool.leases == [] && pool.workers == [] && pool.quarantine == []
    && (forall i :: 0 <= i < |pool.baselines| ==> pool.baselines[i].kind == Dir && Digest(pool.baselines[i].name))
    && (forall i :: 0 <= i < |pool.root| ==> !ProbeName(pool.root[i].name))
  }

  method MeasureMountedResidual(pool: Pool, inspect: DirEntry -> JunctionEvidence) returns (r: Residual, failed: bool)
    ensures r.status == MountedZero <==> OnlyCanonicalBaselines(pool)
    ensures r.status == MountedZero <==> AllZero(r.metrics)
    ensures r.metrics == Measured(pool, inspect)
    ensures r.status == NotMeasured <==> failed
    ensures failed <==> UnreadableJournal(pool.leases, inspect)
  {
    var n := ClassifyLeaseArtifacts(pool.leases);
    var canonical, staging, unknown := ClassifyTree(pool.baselines, ClassOfBaseline);
    var workers, workerStaging, unknownWorkers := ClassifyTree(pool.workers, ClassOfWorker);
    var probes := CountProbes(pool.root);
    var junctions;
    junctions, failed := InspectWorkerJunctions(pool.leases, inspect);
    var metrics := [
      Metric(true, n.active), Metric(true, n.journals), Metric(true, workers), Metric(true, n.creation),
      Metric(true, staging), Metric(true, workerStaging), Metric(true, n.unknown), Metric(true, unknown),
      Metric(true, unknownWorkers), Metric(true, |pool.quarantine|), Metric(true, n.reservation),
      Metric(true, n.coordination), Metric(true, n.mutation), Metric(true, n.reservation + n.coordination + n.mutation),
      Metric(true, probes), Metric(!failed, junctions)];
    var status := MountedResidualStatus(metrics);
    r := Residual(metrics, status);
    AsMeasured(pool, inspect, n, staging, unknown, workers, workerStaging, unknownWorkers, probes, junctions, failed, metrics);
    ZeroIsClean(pool, inspect, metrics, n, staging, unknown, workers, workerStaging, unknownWorkers, probes, junctions, failed);
  }

  lemma AsMeasured(pool: Pool, inspect: DirEntry -> JunctionEvidence, n: LeaseCounts, staging: nat, unknown: nat, workers: nat,
                   workerStaging: nat, unknownWorkers: nat, probes: nat, junctions: nat, failed: bool, metrics: seq<Metric>)
    requires Counted(pool, inspect, n, staging, unknown, workers, workerStaging, unknownWorkers, probes, junctions, failed)
    requires metrics == [
      Metric(true, n.active), Metric(true, n.journals), Metric(true, workers), Metric(true, n.creation),
      Metric(true, staging), Metric(true, workerStaging), Metric(true, n.unknown), Metric(true, unknown),
      Metric(true, unknownWorkers), Metric(true, |pool.quarantine|), Metric(true, n.reservation),
      Metric(true, n.coordination), Metric(true, n.mutation), Metric(true, n.reservation + n.coordination + n.mutation),
      Metric(true, probes), Metric(!failed, junctions)]
    ensures metrics == Measured(pool, inspect)
  {
    LoopsCount(pool, inspect, n, staging, unknown, workers, workerStaging, unknownWorkers, probes, junctions, failed);
    ArtifactsMeasured(pool.leases);
    Listed(pool, inspect, n, n.reservation + n.coordination + n.mutation, metrics);
  }

  lemma LoopsCount(pool: Pool, inspect: DirEntry -> JunctionEvidence, n: LeaseCounts, staging: nat, unknown: nat, workers: nat,
                   workerStaging: nat, unknownWorkers: nat, probes: nat, junctions: nat, failed: bool)
    requires Counted(pool, inspect, n, staging, unknown, workers, workerStaging, unknownWorkers, probes, junctions, failed)
    ensures n == LeasesMeasured(pool.leases)
    ensures staging == Count(pool.baselines, StagedBaseline) && unknown == Count(pool.baselines, UnknownBaseline)
    ensures workers == Count(pool.workers, WorkerDirectory) && workerStaging == Count(pool.workers, StagedWorker)
    ensures unknownWorkers == Count(pool.workers, UnknownWorker)
    ensures probes == Count(pool.root, IsProbe) && junctions == Count(pool.leases, HasJunction(inspect))
  {
    LeaseCountsMeasured(pool.leases);
    TreeCountsMeasured(pool);
    NumberCounts(pool.root, IsProbe, true, IsProbe);
    NumberCounts(pool.leases, HasJunction(inspect), true, HasJunction(inspect));
  }

  lemma Listed(pool: Pool, inspect: DirEntry -> JunctionEvidence, n: LeaseCounts, artifacts: nat, metrics: seq<Metric>)
    requires n == LeasesMeasured(pool.leases) && artifacts == Count(pool.leases, CoordinationArtifact)
    requires metrics == [
      Metric(true, n.active), Metric(true, n.journals), Metric(true, Count(pool.workers, WorkerDirectory)),
      Metric(true, n.creation), Metric(true, Count(pool.baselines, StagedBaseline)),
      Metric(true, Count(pool.workers, StagedWorker)), Metric(true, n.unknown),
      Metric(true, Count(pool.baselines, UnknownBaseline)), Metric(true, Count(pool.workers, UnknownWorker)),
      Metric(true, |pool.quarantine|), Metric(true, n.reservation), Metric(true, n.coordination), Metric(true, n.mutation),
      Metric(true, artifacts), Metric(true, Count(pool.root, IsProbe)),
      Metric(!UnreadableJournal(pool.leases, inspect), Count(pool.leases, HasJunction(inspect)))]
    ensures metrics == Measured(pool, inspect)
  {
  }

  /** What the counting loops have found. */
  ghost predicate Counted(pool: Pool, inspect: DirEntry -> JunctionEvidence, n: LeaseCounts, staging: nat, unknown: nat, workers: nat,
                          workerStaging: nat, unknownWorkers: nat, probes: nat, junctions: nat, failed: bool) {
    && n == LeaseCounts(
              Number(pool.leases, ClassOfLease, Journal), Number(pool.leases, ClassOfLease, ActiveUse),
              Number(pool.leases, ClassOfLease, CreationLock), Number(pool.leases, ClassOfLease, Coordination),
              Number(pool.leases, ClassOfLease, Mutation), Number(pool.leases, ClassOfLease, Reservation),
              Number(pool.leases, ClassOfLease, UnknownLease))
    && n.journals + n.active + n.creation + n.coordination + n.mutation + n.reservation + n.unknown == |pool.leases|
    && staging == Number(pool.baselines, ClassOfBaseline, Staging) && unknown == Number(pool.baselines, ClassOfBaseline, UnknownEntry)
    && workers == Number(pool.workers, ClassOfWorker, Canonical) && workerStaging == Number(pool.workers, ClassOfWorker, Staging)
    && unknownWorkers == Number(pool.workers, ClassOfWorker, UnknownEntry)
    && workers + workerStaging + unknownWorkers == |pool.workers|
    && probes == Number(pool.root, IsProbe, true) && junctions == Number(pool.leases, HasJunction(inspect), true)
    && (failed <==> UnreadableJournal(pool.leases, inspect))
  }

  lemma ZeroIsClean(pool: Pool, inspect: DirEntry -> JunctionEvidence, metrics: seq<Metric>, n: LeaseCounts, staging: nat, unknown: nat,
                    workers: nat, workerStaging: nat, unknownWorkers: nat, probes: nat, junctions: nat, failed: bool)
    requires Counted(pool, inspect, n, staging, unknown, workers, workerStaging, unknownWorkers, probes, junctions, failed)
    requires metrics == [
      Metric(true, n.active), Metric(true, n.journals), Metric(true, workers), Metric(true, n.creation),
      Metric(true, staging), Metric(true, workerStaging), Metric(true, n.unknown), Metric(true, unknown),
      Metric(true, unknownWorkers), Metric(true, |pool.quarantine|), Metric(true, n.reservation),
      Metric(true, n.coordination), Metric(true, n.mutation), Metric(true, n.reservation + n.coordination + n.mutation),
      Metric(true, probes), Metric(!failed, junctions)]
    ensures AllZero(metrics) <==> OnlyCanonicalBaselines(pool)
    ensures (exists i :: 0 <= i < |metrics| && !metrics[i].measured) <==> failed
  {
    AllZeroIff(metrics, n, staging, unknown, workers, workerStaging, unknownWorkers, |pool.quarantine|, probes, junctions, failed);
    NumberZero(pool.baselines, ClassOfBaseline, Staging);
    NumberZero(pool.baselines, ClassOfBaseline, UnknownEntry);
    NumberZero(pool.root, IsProbe, true);
  }

  lemma AllZeroIff(metrics: seq<Metric>, n: LeaseCounts, staging: nat, unknown: nat, workers: nat, workerStaging: nat,
                   unknownWorkers: nat, quarantine: nat, probes: nat, junctions: nat, failed: bool)
    requires metrics == [
      Metric(true, n.active), Metric(true, n.journals), Metric(true, workers), Metric(true, n.creation),
      Metric(true, staging), Metric(true, workerStaging), Metric(true, n.unknown), Metric(true, unknown),
      Metric(true, unknownWorkers), Metric(true, quarantine), Metric(true, n.reservation),
      Metric(true, n.coordination), Metric(true, n.mutation), Metric(true, n.reservation + n.coordination + n.mutation),
      Metric(true, probes), Metric(!failed, junctions)]
    ensures AllZero(metrics) <==>
              n == LeaseCounts(0, 0, 0, 0, 0, 0, 0) && staging == unknown == workers == workerStaging == unknownWorkers == 0
              && quarantine == probes == junctions == 0 && !failed
    ensures (exists i :: 0 <= i < |metrics| && !metrics[i].measured) <==> failed
  {
    assert metrics[0].count == n.active && metrics[1].count == n.journals && metrics[2].count == workers;
    assert metrics[3].count == n.creation && metrics[4].count == staging && metrics[5].count == workerStaging;
    assert metrics[6].count == n.unknown && metrics[7].count == unknown && metrics[8].count == unknownWorkers;
    assert metrics[9].count == quarantine && metrics[10].count == n.reservation && metrics[11].count == n.coordination;
    assert metrics[12].count == n.mutation && metrics[14].count == probes && metrics[15] == Metric(!failed, junctions);
  }

  datatype FinalStatus = FinalUnmeasured | FinalNonzero | FinalZero

  /** `residualStatus`, after the volume was detached: a nonzero count wins over a missing measurement. */
  method ResidualStatus(metrics: seq<Metric>, ownedVHDX: Metric) returns (status: FinalStatus)
    ensures status == FinalZero <==> ownedVHDX.measured && AllZero(metrics)
    ensures status == FinalNonzero <==> exists i :: 0 <= i < |metrics| && metrics[i].count != 0
  {
    for i := 0 to |metrics|
      invariant forall j :: 0 <= j < i ==> metrics[j].count == 0
    {
      if metrics[i].count != 0 {
        return FinalNonzero;
      }
    }
    if !ownedVHDX.measured {
      return FinalUnmeasured;
    }
    for i := 0 to |metrics|
      invariant forall j :: 0 <= j < i ==> metrics[j].measured
    {
      if !metrics[i].measured {
        return FinalUnmeasured;
      }
    }
    return FinalZero;
  }
}
