/** `internal/refsworkspace/clone_windows.go`: executing a clone plan on one file, and the metrics of a
    tree. A file is a sequence of bytes, the destination an array; a system call either copies its
    whole range or fails without effect, and cancellation may strike before any step. */
module CloneExecution {
  import opened Int64
  import opened AllocatedRanges
  import opened ClonePlans
  import opened ByteStrings

  const COPY_BUFFER: int64 := 0x10_0000

  // ---------------------------------------------------------------- one range

  /** The destination is as before outside the marked bytes, and each byte is either still the old one
      or already that of the source. */
  twostate predicate OnlyCopied(source: Bytes, destination: array<byte>, marked: iset<int>)
    reads destination
  {
    && destination.Length == |source|
    && forall p :: 0 <= p < destination.Length ==>
         destination[p] == old(destination[p]) || (p in marked && destination[p] == source[p])
  }

  ghost function Points(e: Extent): iset<int> { iset p | e.Has(p) }

  ghost predicate InFile(e: Extent, size: int) { 0 <= e.offset && 0 <= e.length && e.End() <= size }

  /** A system call, or a group of them between which nothing is decided, whatever became of it: everything
      in front of the plan, one clone request, one turn of the copy loop, everything behind the copies. */
  datatype Call = Prepare | Request(extent: Extent) | CopyChunk(extent: Extent) | Finish

  /** The system below; `faults` bounds the failures it still injects. */
  class System {
    var faults: nat
    ghost var calls: seq<Call>

    constructor (faults: nat)
      ensures this.faults == faults && calls == []
    {
      this.faults, calls := faults, [];
    }

    method Succeeds(call: Call) returns (ok: bool)
      modifies this
      ensures faults <= old(faults) && (ok <==> faults == old(faults)) && calls == old(calls) + [call]
    {
      calls := calls + [call];
      var fails: bool := *;
      ok := !fails || faults == 0;
      if !ok {
        faults := faults - 1;
      }
    }

    /** A part that succeeds met no failure and made exactly these calls; a part that fails met one. */
    twostate predicate Made(ok: bool, made: seq<Call>)
      reads this
    {
      faults <= old(faults) && (ok <==> faults == old(faults)) && (ok ==> calls == old(calls) + made)
    }
  }

  ghost function ChunkCalls(e: Extent): seq<Call>
    requires e.offset as int + e.length as int <= MAX && e.offset >= 0
    decreases e.length as int
  {
    if e.length <= 0 then [] else
      var chunk := if e.length < COPY_BUFFER then e.length else COPY_BUFFER;
      [CopyChunk(Extent(e.offset, chunk))] + ChunkCalls(Extent(e.offset + chunk, e.length - chunk))
  }

  function RequestCalls(rs: seq<Extent>): seq<Call> {
    seq(|rs|, i requires 0 <= i < |rs| => Request(rs[i]))
  }

  ghost function CopyCalls(rs: seq<Extent>, size: int): seq<Call>
    requires AllInFile(rs, size) && size <= MAX
  {
    if rs == [] then [] else CopyCalls(rs[..|rs| - 1], size) + ChunkCalls(rs[|rs| - 1])
  }

  method Transfer(source: Bytes, destination: array<byte>, e: Extent)
    requires destination.Length == |source| && InFile(e, |source|)
    modifies destination
    ensures forall p :: 0 <= p < destination.Length ==>
              destination[p] == if e.Has(p) then source[p] else old(destination[p])
  {
    forall p | e.offset as int <= p < e.offset as int + e.length as int {
      destination[p] := source[p];
    }
  }

  /** Copies a range through a 1 MiB buffer. */
  method CopyFileRange(system: System, source: Bytes, destination: array<byte>, e: Extent) returns (ok: bool)
    requires destination.Length == |source| <= MAX && InFile(e, |source|)
    modifies destination, system
    ensures OnlyCopied(source, destination, Points(e))
    ensures ok ==> forall p :: e.Has(p) ==> destination[p] == source[p]
    ensures system.Made(ok, ChunkCalls(e))
  {
    var offset, remaining := e.offset, e.length;
    ghost var before, faults := system.calls, system.faults;
    while remaining > 0
      invariant 0 <= remaining <= e.length && offset as int + remaining as int == e.End() && offset >= e.offset
      invariant OnlyCopied(source, destination, Points(e))
      invariant forall p :: e.offset as int <= p < offset as int ==> destination[p] == source[p]
      invariant system.faults == faults
      invariant system.calls + ChunkCalls(Extent(offset, remaining)) == before + ChunkCalls(e)
      decreases remaining
    {
      var chunk := COPY_BUFFER;
      if chunk > remaining {
        chunk := remaining;
      }
      NextChunk(system.calls, offset, remaining);
      var proceed := system.Succeeds(CopyChunk(Extent(offset, chunk)));  // cancellation, read, write
      if !proceed {
        return false;
      }
      Transfer(source, destination, Extent(offset, chunk));
      offset := offset + chunk;
      remaining := remaining - chunk;
    }
    return true;
  }

  lemma NextChunk(calls: seq<Call>, offset: int64, remaining: int64)
    requires 0 <= offset && 0 < remaining && offset as int + remaining as int <= MAX
    ensures var chunk := if remaining < COPY_BUFFER then remaining else COPY_BUFFER;
            calls + ChunkCalls(Extent(offset, remaining))
            == calls + [CopyChunk(Extent(offset, chunk))] + ChunkCalls(Extent(offset + chunk, remaining - chunk))
  {
  }

  // ---------------------------------------------------------------- one file

  datatype CloneMetrics = CloneMetrics(
    clonedFileCount: int64, clonedBytes: int64,
    physicalCopiedFileCount: int64, physicalCopiedBytes: int64, tailCopiedBytes: int64,
    metadataOnlyFileCount: int64, failedFileCount: int64, fallbackUsed: bool,
    sparseFileCount: int64, sparseLogicalBytes: int64, sparseAllocatedSourceBytes: int64,
    sparseClonedBytes: int64, sparseHoleBytes: int64,
    regularAttempted: bool, sparseAttempted: bool)

  const NO_METRICS := CloneMetrics(0, 0, 0, 0, 0, 0, 0, false, 0, 0, 0, 0, 0, false, false)

  ghost predicate AllInFile(rs: seq<Extent>, size: int) {
    forall i :: 0 <= i < |rs| ==> InFile(rs[i], size)
  }

  ghost function Covered(rs: seq<Extent>): iset<int> { iset p | Covers(rs, p) }

  lemma PrefixStep(rs: seq<Extent>, i: nat)
    requires i < |rs|
    ensures forall p :: Covers(rs[..i + 1], p) <==> Covers(rs[..i], p) || rs[i].Has(p)
    ensures TotalLength(rs[..i + 1]) == TotalLength(rs[..i]) + rs[i].length as int
  {
    assert rs[..i + 1][..i] == rs[..i];
    assert rs[..i + 1] == rs[..i] + [rs[i]];
    forall p
      ensures Covers(rs[..i + 1], p) <==> Covers(rs[..i], p) || rs[i].Has(p)
    {
      CoversAppend(rs[..i], rs[i], p);
    }
  }

  lemma {:induction false} TotalMonotone(rs: seq<Extent>, size: int, k: nat)
    requires AllInFile(rs, size) && k <= |rs|
    ensures 0 <= TotalLength(rs[..k]) <= TotalLength(rs)
    decreases |rs|
  {
    if k < |rs| {
      assert rs[..|rs| - 1][..k] == rs[..k];
      TotalMonotone(rs[..|rs| - 1], size, k);
    } else {
      assert rs[..k] == rs;
      if rs != [] {
        TotalMonotone(rs[..|rs| - 1], size, |rs| - 1);
        assert rs[..|rs| - 1][..|rs| - 1] == rs[..|rs| - 1];
      }
    }
  }

  /** Sends one clone request per range, in order; the bytes are counted only after the request succeeded. */
  method CloneRanges(system: System, source: Bytes, destination: array<byte>, rs: seq<Extent>)
    returns (ok: bool, cloned: int64, attempted: bool)
    requires destination.Length == |source| <= MAX && AllInFile(rs, |source|) && TotalLength(rs) <= MAX
    modifies destination, system
    ensures OnlyCopied(source, destination, Covered(rs))
    ensures ok ==> forall p :: Covers(rs, p) ==> 0 <= p < |source| && destination[p] == source[p]
    ensures exists k :: 0 <= k <= |rs| && cloned as int == TotalLength(rs[..k]) && (ok ==> k == |rs|)
    ensures attempted <==> rs != []
    ensures system.Made(ok, RequestCalls(rs))
  {
    cloned, attempted := 0, false;
    ghost var before, faults := system.calls, system.faults;
    for i := 0 to |rs|
      invariant OnlyCopied(source, destination, Covered(rs[..i]))
      invariant forall p :: Covers(rs[..i], p) ==> 0 <= p < |source| && destination[p] == source[p]
      invariant cloned as int == TotalLength(rs[..i]) && (attempted <==> i > 0)
      invariant system.faults == faults && system.calls == before + RequestCalls(rs[..i])
    {
      PrefixStep(rs, i);
      TotalMonotone(rs, |source|, i + 1);
      assert forall p :: Covers(rs[..i], p) ==> Covers(rs, p);
      assert RequestCalls(rs[..i + 1]) == RequestCalls(rs[..i]) + [Request(rs[i])];
      CallsAssociative(before, RequestCalls(rs[..i]), [Request(rs[i])]);
      attempted := true;
      var accepted := system.Succeeds(Request(rs[i]));  // cancellation, FSCTL_DUPLICATE_EXTENTS_TO_FILE
      if !accepted {
        return false, cloned, attempted;
      }
      Transfer(source, destination, rs[i]);
      cloned := cloned + rs[i].length;
    }
    assert rs[..|rs|] == rs;
    return true, cloned, attempted;
  }

  lemma CallsAssociative(a: seq<Call>, b: seq<Call>, c: seq<Call>)
    ensures a + b + c == a + (b + c)
  {
  }

  lemma CopyCallsStep(rs: seq<Extent>, size: int, i: nat)
    requires AllInFile(rs, size) && size <= MAX && i < |rs|
    ensures CopyCalls(rs[..i + 1], size) == CopyCalls(rs[..i], size) + ChunkCalls(rs[i])
  {
    assert rs[..i + 1][..i] == rs[..i];
  }

  method CopyRanges(system: System, source: Bytes, destination: array<byte>, rs: seq<Extent>)
    returns (ok: bool, copied: int64)
    requires destination.Length == |source| <= MAX && AllInFile(rs, |source|) && TotalLength(rs) <= MAX
    modifies destination, system
    ensures OnlyCopied(source, destination, Covered(rs))
    ensures ok ==> forall p :: Covers(rs, p) ==> 0 <= p < |source| && destination[p] == source[p]
    ensures exists k :: 0 <= k <= |rs| && copied as int == TotalLength(rs[..k]) && (ok ==> k == |rs|)
    ensures system.Made(ok, CopyCalls(rs, |source|))
  {
    copied := 0;
    ghost var before, faults := system.calls, system.faults;
    for i := 0 to |rs|
      invariant OnlyCopied(source, destination, Covered(rs[..i]))
      invariant forall p :: Covers(rs[..i], p) ==> 0 <= p < |source| && destination[p] == source[p]
      invariant copied as int == TotalLength(rs[..i])
      invariant system.faults == faults && system.calls == before + CopyCalls(rs[..i], |source|)
    {
      PrefixStep(rs, i);
      TotalMonotone(rs, |source|, i + 1);
      assert forall p :: Covers(rs[..i], p) ==> Covers(rs, p);
      CopyCallsStep(rs, |source|, i);
      CallsAssociative(before, CopyCalls(rs[..i], |source|), ChunkCalls(rs[i]));
      var done := CopyFileRange(system, source, destination, rs[i]);
      if !done {
        return false, copied;
      }
      copied := copied + rs[i].length;
    }
    assert rs[..|rs|] == rs;
    return true, copied;
  }

  datatype FilePlan = FilePlan(
    cloneRanges: seq<Extent>, physicalRanges: seq<Extent>, allocatedBytes: int64, holeBytes: int64)

  /** A plan inside the file that holds every byte of `needed` exactly once, and no other byte. */
  ghost predicate PlanFor(plan: FilePlan, size: int, needed: iset<int>) {
    && AllInFile(plan.cloneRanges, size) && AllInFile(plan.physicalRanges, size)
    && (forall p :: Count(plan.cloneRanges, p) + Count(plan.physicalRanges, p) == if p in needed then 1 else 0)
    && (forall p :: p in needed <==> Covers(plan.cloneRanges, p) || Covers(plan.physicalRanges, p))
    && TotalLength(plan.cloneRanges) >= 0 && TotalLength(plan.physicalRanges) >= 0
    && TotalLength(plan.cloneRanges) + TotalLength(plan.physicalRanges) == plan.allocatedBytes as int
    && plan.allocatedBytes as int + plan.holeBytes as int == size
  }

  ghost predicate InSize(p: int, size: int) { 0 <= p < size }

  ghost function WholeFile(size: int): iset<int> { iset p | InSize(p, size) }

  ghost function AllocatedBytes(extents: seq<Extent>, size: int): iset<int> {
    iset p | InSize(p, size) && Covers(extents, p)
  }

  lemma RangesInFile(rs: seq<Extent>, size: int, needed: iset<int>)
    requires forall e :: e in rs ==> e.length > 0 && 0 <= e.offset
    requires forall p :: Covers(rs, p) ==> p in needed
    requires forall p :: p in needed ==> p < size
    ensures AllInFile(rs, size) && TotalLength(rs) >= 0
  {
    forall i | 0 <= i < |rs|
      ensures InFile(rs[i], size)
    {
      assert rs[i] in rs;
      assert rs[i].Has(rs[i].End() - 1);
      assert Covers(rs, rs[i].End() - 1);
    }
    TotalMonotone(rs, size, 0);
  }

  lemma {:induction false} PartOffsets(es: seq<Extent>, c: int64)
    requires 0 < c < FOUR_GIB && AllNonempty(es)
    ensures forall e :: e in ClonePart(es, c) || e in PhysicalPart(es, c) ==> 0 <= e.offset
  {
    if es != [] {
      PartOffsets(es[..|es| - 1], c);
      SparsePlanStep(es, c);
      var last := es[|es| - 1];
      ChunkOffsets(HeadEnd(last, c), BodyEnd(last, c), MaxChunk(c));
    }
  }

  lemma {:induction false} ChunkOffsets(lo: int64, hi: int64, maxChunk: int64)
    requires 0 <= lo <= hi && 0 < maxChunk
    ensures forall e :: e in Chunks(lo, hi, maxChunk) ==> 0 <= e.offset && 0 < e.length
    decreases hi - lo
  {
    if lo < hi {
      ChunkOffsets(lo + Min(hi - lo, maxChunk), hi, maxChunk);
    }
  }

  lemma SparsePlanFits(size: int64, c: int64, es: seq<Extent>, plan: SparseClonePlan)
    requires SparsePlanOf(size, c, es, plan)
    ensures PlanFor(FilePlan(plan.cloneRanges, plan.physicalRanges, plan.allocatedBytes, plan.holeBytes), size as int, Covered(es))
  {
    forall p
      ensures p in Covered(es) <==> Covers(plan.cloneRanges, p) || Covers(plan.physicalRanges, p)
      ensures Count(plan.cloneRanges, p) + Count(plan.physicalRanges, p) == if p in Covered(es) then 1 else 0
    {
      SparsePlanPartition(size, c, es, plan, p);
      CountCovers(plan.cloneRanges, p);
      CountCovers(plan.physicalRanges, p);
    }
    SparsePlanPartition(size, c, es, plan, 0);
    SparsePlanAligned(es, c);
    PartOffsets(es, c);
    RangesInFile(plan.cloneRanges, size as int, Covered(es));
    RangesInFile(plan.physicalRanges, size as int, Covered(es));
  }

  lemma DensePlanFits(size: int64, c: int64, plan: ClonePlan)
    requires DensePlanOf(size, c, plan)
    ensures PlanFor(FilePlan(plan.ranges, TailRanges(plan), size, 0), size as int, WholeFile(size as int))
  {
    var needed := WholeFile(size as int);
    forall p
      ensures p in needed <==> Covers(plan.ranges, p) || Covers(TailRanges(plan), p)
      ensures Count(plan.ranges, p) + Count(TailRanges(plan), p) == if p in needed then 1 else 0
    {
      DensePlanExact(size, c, plan, p);
      CountCovers(plan.ranges, p);
      CountCovers(TailRanges(plan), p);
    }
    DensePlanExact(size, c, plan, 0);
    ChunkOffsets(0, plan.tailOffset, MaxChunk(c));
    RangesInFile(plan.ranges, size as int, needed);
    RangesInFile(TailRanges(plan), size as int, needed);
  }

  /** Chooses the plan: dense for an ordinary file, from the queried ranges for a sparse one. `extents`
      is the file's true allocation map, `needed` the bytes the plan moves. */
  method PlanFile(size: int64, clusterSize: int64, isSparse: bool, query: Query, ghost extents: seq<Extent>)
    returns (r: Result<FilePlan>, ghost needed: iset<int>)
    requires 0 <= size
    ensures r.Ok? ==> PlanFor(r.value, size as int, needed)
    ensures r.Ok? && !isSparse ==> needed == WholeFile(size as int) && r.value.allocatedBytes == size
    ensures r.Ok? && isSparse && Honest(query, size, extents) ==>
              needed == AllocatedBytes(extents, size as int)
    ensures !isSparse ==> (r.Ok? <==> ValidGeometry(size, clusterSize))
    ensures isSparse && Honest(query, size, extents) ==> (r.Ok? <==> ValidGeometry(size, clusterSize))
  {
    needed := iset{};
    if isSparse {
      var ranges := CollectAllocatedRangesPaged(size, query, extents);
      if ranges.Err? {
        return Err(ranges.error), needed;
      }
      ghost var es;
      var plan;
      plan, es := PlanCanonical(size, clusterSize, ranges.value);
      if plan.Err? {
        return Err(plan.error), needed;
      }
      var sparse := plan.value;
      SparsePlanFits(size, clusterSize, es, sparse);
      needed := Covered(es);
      return Ok(FilePlan(sparse.cloneRanges, sparse.physicalRanges, sparse.allocatedBytes, sparse.holeBytes)), needed;
    } else {
      var plan := PlanClone(size, clusterSize);
      if plan.Err? {
        return Err(plan.error), needed;
      }
      DensePlanFits(size, clusterSize, plan.value);
      needed := WholeFile(size as int);
      return Ok(FilePlan(plan.value.ranges, TailRanges(plan.value), size, 0)), needed;
    }
  }

  /** `PlanSparseClone` on ranges that are already canonical keeps them. */
  method PlanCanonical(size: int64, clusterSize: int64, ranges: seq<Extent>)
    returns (r: Result<SparseClonePlan>, ghost es: seq<Extent>)
    requires 0 <= size && Canonical(ranges, 0, size as int)
    ensures r.Ok? <==> ValidGeometry(size, clusterSize)
    ensures r.Ok? ==> es == ranges && SparsePlanOf(size, clusterSize, es, r.value)
  {
    BatchWellFormed(ranges, 0, size as int);
    r, es := PlanSparseClone(size, clusterSize, ranges);
    if r.Ok? {
      forall p | Covers(ranges, p)
        ensures 0 <= p < size as int
      {
      }
      CanonicalUnique(es, ranges, 0, size as int);
    }
  }

  /** `cloneFile`: a fresh zero-filled destination of the source's size, the plan, the clone requests and
      the physical copies. On success the destination equals the source, for a sparse source provided its
      bytes outside the allocated ranges are zero and the queries are honest; with honest queries it
      succeeds exactly on a valid cluster size when no system call fails. */
  method CloneFile(system: System, source: Bytes, clusterSize: int64, isSparse: bool, query: Query, ghost extents: seq<Extent>)
    returns (ok: bool, destination: array<byte>, metrics: CloneMetrics, ghost plan: Result<FilePlan>)
    requires |source| <= MAX
    modifies system
    ensures fresh(destination) && destination.Length == |source|
    ensures ok && !isSparse ==> destination[..] == source
    ensures ok && isSparse && Honest(query, |source| as int64, extents)
            && (forall p :: 0 <= p < |source| && !Covers(extents, p) ==> source[p] == 0)
            ==> destination[..] == source
    ensures metrics.physicalCopiedBytes == metrics.tailCopiedBytes
    ensures metrics.failedFileCount == 0 && !metrics.fallbackUsed
    ensures ok && !isSparse ==> metrics.clonedBytes as int + metrics.physicalCopiedBytes as int == |source|
    ensures ok && isSparse ==>
              && metrics.clonedBytes as int + metrics.physicalCopiedBytes as int == metrics.sparseAllocatedSourceBytes as int
              && metrics.sparseAllocatedSourceBytes as int + metrics.sparseHoleBytes as int == |source|
    ensures !isSparse || Honest(query, |source| as int64, extents) ==>
              (ok <==> ValidGeometry(|source| as int64, clusterSize) && system.faults == old(system.faults))
    ensures ok ==> plan.Ok? && Runnable(plan.value, |source|) && metrics == MetricsOf(plan.value, |source|, isSparse)
    ensures ok ==> system.faults == old(system.faults) && system.calls == old(system.calls) + FileCalls(plan.value, |source|)
  {
    var size := |source| as int64;
    destination := new byte[|source|](_ => 0);
    metrics, plan := NO_METRICS, Err(QueryFailed);
    var prepared := system.Succeeds(Prepare);  // open, sparse flag, size, same ReFS volume, integrity, cluster size
    if !prepared {
      return false, destination, metrics, plan;
    }
    var chosen;
    ghost var needed;
    chosen, needed := PlanFile(size, clusterSize, isSparse, query, extents);
    plan := chosen;
    if chosen.Err? {
      return false, destination, metrics, plan;
    }
    ok, metrics := ExecutePlan(system, source, destination, isSparse, chosen.value, needed);
    if ok {
      forall p | 0 <= p < |source| && (!isSparse || (Honest(query, size, extents) && (Covers(extents, p) || source[p] == 0)))
        ensures destination[p] == source[p]
      {
      }
      CallsAssociative(old(system.calls), [Prepare], PlanCalls(chosen.value, |source|));
    }
  }

  ghost predicate PlanInFile(plan: FilePlan, size: int) {
    AllInFile(plan.cloneRanges, size) && AllInFile(plan.physicalRanges, size) && size <= MAX
  }

  /** And its sums are 64-bit numbers. */
  ghost predicate Runnable(plan: FilePlan, size: int) {
    PlanInFile(plan, size) && InRange(TotalLength(plan.cloneRanges)) && InRange(TotalLength(plan.physicalRanges))
  }

  ghost function PlanCalls(plan: FilePlan, size: int): seq<Call>
    requires PlanInFile(plan, size)
  {
    RequestCalls(plan.cloneRanges) + (CopyCalls(plan.physicalRanges, size) + [Finish])
  }

  /** One request per clone range, one chunk after the other per physical range, nothing else in between. */
  ghost function FileCalls(plan: FilePlan, size: int): seq<Call>
    requires PlanInFile(plan, size)
  {
    [Prepare] + PlanCalls(plan, size)
  }

  /** Every counter of a file that was cloned. */
  ghost function MetricsOf(plan: FilePlan, size: int, isSparse: bool): CloneMetrics
    requires Runnable(plan, size) && 0 <= size
  {
    var cloned, copied := TotalLength(plan.cloneRanges) as int64, TotalLength(plan.physicalRanges) as int64;
    var requested := plan.cloneRanges != [];
    CloneMetrics(if requested then 1 else 0, cloned, if plan.physicalRanges != [] then 1 else 0, copied, copied,
                 if size == 0 then 1 else 0, 0, false,
                 if isSparse then 1 else 0, if isSparse then size as int64 else 0,
                 if isSparse then plan.allocatedBytes else 0, if isSparse then cloned else 0, if isSparse then plan.holeBytes else 0,
                 !isSparse && requested, isSparse && requested)
  }

  lemma PlanTotals(plan: FilePlan, size: int, needed: iset<int>)
    requires PlanFor(plan, size, needed) && 0 <= size <= MAX
    ensures Runnable(plan, size)
  {
  }

  lemma InPlanOrder(calls: seq<Call>, plan: FilePlan, size: int)
    requires PlanInFile(plan, size)
    ensures calls + RequestCalls(plan.cloneRanges) + CopyCalls(plan.physicalRanges, size) + [Finish] == calls + PlanCalls(plan, size)
  {
    CallsAssociative(calls + RequestCalls(plan.cloneRanges), CopyCalls(plan.physicalRanges, size), [Finish]);
    CallsAssociative(calls, RequestCalls(plan.cloneRanges), CopyCalls(plan.physicalRanges, size) + [Finish]);
  }

  method ExecutePlan(system: System, source: Bytes, destination: array<byte>, isSparse: bool, plan: FilePlan, ghost needed: iset<int>)
    returns (ok: bool, metrics: CloneMetrics)
    requires destination.Length == |source| <= MAX && PlanFor(plan, |source|, needed)
    modifies destination, system
    ensures OnlyCopied(source, destination, needed)
    ensures ok ==> forall p :: p in needed ==> 0 <= p < |source| && destination[p] == source[p]
    ensures metrics.physicalCopiedBytes == metrics.tailCopiedBytes
    ensures metrics.failedFileCount == 0 && !metrics.fallbackUsed
    ensures Runnable(plan, |source|)
    ensures ok ==> metrics == MetricsOf(plan, |source|, isSparse)
    ensures system.Made(ok, PlanCalls(plan, |source|))
  {
    PlanTotals(plan, |source|, needed);
    ghost var calls := system.calls;
    metrics := NO_METRICS;
    if isSparse {
      metrics := metrics.(sparseFileCount := 1, sparseLogicalBytes := |source| as int64,
                          sparseAllocatedSourceBytes := plan.allocatedBytes, sparseHoleBytes := plan.holeBytes);
    }
    var cloned, attempted, copied;
    ok, cloned, attempted := CloneRanges(system, source, destination, plan.cloneRanges);
    metrics := metrics.(clonedBytes := cloned);
    if isSparse {
      metrics := metrics.(sparseAttempted := attempted, sparseClonedBytes := cloned);
    } else {
      metrics := metrics.(regularAttempted := attempted);
    }
    if !ok {
      return;
    }
    assert plan.cloneRanges[..|plan.cloneRanges|] == plan.cloneRanges;
    assert plan.physicalRanges[..|plan.physicalRanges|] == plan.physicalRanges;
    if plan.cloneRanges != [] {
      metrics := metrics.(clonedFileCount := 1);
    }
    ok, copied := CopyRanges(system, source, destination, plan.physicalRanges);
    metrics := metrics.(physicalCopiedBytes := copied, tailCopiedBytes := copied);
    if !ok {
      return;
    }
    if plan.physicalRanges != [] {
      metrics := metrics.(physicalCopiedFileCount := 1);
    }
    if |source| == 0 {
      metrics := metrics.(metadataOnlyFileCount := 1);
    }
    InPlanOrder(calls, plan, |source|);
    ok := system.Succeeds(Finish);  // timestamps, sync, close, size check, attributes
  }

  // ---------------------------------------------------------------- a tree

  /** Counters are added unchecked. */
  function Aggregate(m: CloneMetrics, f: CloneMetrics): CloneMetrics {
    CloneMetrics(
      WrapAdd(m.clonedFileCount, f.clonedFileCount), WrapAdd(m.clonedBytes, f.clonedBytes),
      WrapAdd(m.physicalCopiedFileCount, f.physicalCopiedFileCount),
      WrapAdd(m.physicalCopiedBytes, f.physicalCopiedBytes), WrapAdd(m.tailCopiedBytes, f.tailCopiedBytes),
      WrapAdd(m.metadataOnlyFileCount, f.metadataOnlyFileCount), m.failedFileCount, m.fallbackUsed,
      WrapAdd(m.sparseFileCount, f.sparseFileCount), WrapAdd(m.sparseLogicalBytes, f.sparseLogicalBytes),
      WrapAdd(m.sparseAllocatedSourceBytes, f.sparseAllocatedSourceBytes),
      WrapAdd(m.sparseClonedBytes, f.sparseClonedBytes), WrapAdd(m.sparseHoleBytes, f.sparseHoleBytes),
      m.regularAttempted || f.regularAttempted, m.sparseAttempted || f.sparseAttempted)
  }

  /** What `cloneFile` hands back for one regular file of the tree. */
  datatype FileOutcome = FileOutcome(metrics: CloneMetrics, succeeded: bool)

  ghost predicate FromCloneFile(o: FileOutcome) {
    o.metrics.physicalCopiedBytes == o.metrics.tailCopiedBytes && o.metrics.failedFileCount == 0 && !o.metrics.fallbackUsed
  }

  /** What the walk meets: a directory that is made and whose metadata are read, or not; a regular file; or
      anything that ends the walk by itself: an error of the walk, a reparse point, an unsupported type. */
  datatype TreeEntry = Directory(made: bool) | File(outcome: FileOutcome) | Refused {
    predicate Fine() { (Directory? && made) || (File? && outcome.succeeded) }

    /** Whether its work is counted: a file's always, a directory's when it was made. */
    function Share(): CloneMetrics {
      match this
      case Directory(made) => if made then NO_METRICS.(metadataOnlyFileCount := 1) else NO_METRICS
      case File(outcome) => outcome.metrics
      case Refused => NO_METRICS
    }
  }

  ghost predicate FromTree(entries: seq<TreeEntry>) {
    forall i :: 0 <= i < |entries| && entries[i].File? ==> FromCloneFile(entries[i].outcome)
  }

  /** How many entries the walk takes in without an error. */
  ghost function Walked(entries: seq<TreeEntry>): (n: nat)
    ensures n <= |entries| && (forall i :: 0 <= i < n ==> entries[i].Fine()) && (n < |entries| ==> !entries[n].Fine())
  {
    if entries == [] then 0 else
      var n := Walked(entries[..|entries| - 1]);
      if n == |entries| - 1 && entries[n].Fine() then n + 1 else n
  }

  /** The entries whose work is counted: those, and the one that failed. */
  ghost function Counted(entries: seq<TreeEntry>): seq<TreeEntry> {
    if Walked(entries) < |entries| then entries[..Walked(entries) + 1] else entries
  }

  /** The eleven counters. */
  ghost function Counter(m: CloneMetrics, k: nat): int64
    requires k < 11
  {
    [m.clonedFileCount, m.clonedBytes, m.physicalCopiedFileCount, m.physicalCopiedBytes, m.tailCopiedBytes, m.metadataOnlyFileCount,
     m.sparseFileCount, m.sparseLogicalBytes, m.sparseAllocatedSourceBytes, m.sparseClonedBytes, m.sparseHoleBytes][k]
  }

  ghost function Total(entries: seq<TreeEntry>, k: nat): int
    requires k < 11
  {
    if entries == [] then 0 else Total(entries[..|entries| - 1], k) + Counter(entries[|entries| - 1].Share(), k) as int
  }

  /** Every counter is the sum of what was counted, modulo 2^64, and a flag is set if one of them sets it. */
  ghost predicate SumOf(m: CloneMetrics, entries: seq<TreeEntry>) {
    && (forall k: nat :: k < 11 ==> SameWord(Counter(m, k) as int, Total(entries, k)))
    && (m.regularAttempted <==> exists i :: 0 <= i < |entries| && entries[i].Share().regularAttempted)
    && (m.sparseAttempted <==> exists i :: 0 <= i < |entries| && entries[i].Share().sparseAttempted)
  }

  lemma SumStep(m: CloneMetrics, entries: seq<TreeEntry>, i: nat)
    requires i < |entries| && SumOf(m, entries[..i])
    ensures SumOf(Aggregate(m, entries[i].Share()), entries[..i + 1])
  {
    var next, share := Aggregate(m, entries[i].Share()), entries[i].Share();
    assert entries[..i + 1][..i] == entries[..i];
    forall k: nat | k < 11
      ensures SameWord(Counter(next, k) as int, Total(entries[..i + 1], k))
    {
      assert Counter(next, k) == WrapAdd(Counter(m, k), Counter(share, k));
      SameWordStep(Counter(next, k) as int, Counter(m, k) as int, Total(entries[..i], k), Counter(share, k) as int);
    }
    assert forall j :: 0 <= j < i ==> entries[..i + 1][j] == entries[..i][j];
    assert entries[..i + 1][i] == entries[i];
  }

  lemma FailedCountIsNoSum(m: CloneMetrics, entries: seq<TreeEntry>)
    requires SumOf(m, entries)
    ensures SumOf(m.(failedFileCount := 1), entries)
  {
    assert forall k: nat :: k < 11 ==> Counter(m.(failedFileCount := 1), k) == Counter(m, k);
  }

  lemma WalkedIs(entries: seq<TreeEntry>, n: nat)
    requires n < |entries| && !entries[n].Fine() && forall i :: 0 <= i < n ==> entries[i].Fine()
    ensures Walked(entries) == n
  {
  }

  /** The walk over a tree and the restoration of the directories' metadata behind it. The walk stops at the
      first entry that fails; only a file counts as failed, and its partial work is counted. Physical bytes
      and tail bytes agree at every point, even where a counter wrapped. */
  method AggregateTree(entries: seq<TreeEntry>, restored: bool) returns (ok: bool, metrics: CloneMetrics)
    requires FromTree(entries)
    ensures ok <==> Walked(entries) == |entries| && restored
    ensures metrics.physicalCopiedBytes == metrics.tailCopiedBytes && !metrics.fallbackUsed
    ensures metrics.failedFileCount == if Walked(entries) < |entries| && entries[Walked(entries)].File? then 1 else 0
    ensures SumOf(metrics, Counted(entries))
  {
    metrics := NO_METRICS;
    for i := 0 to |entries|
      invariant forall j :: 0 <= j < i ==> entries[j].Fine()
      invariant metrics.physicalCopiedBytes == metrics.tailCopiedBytes && !metrics.fallbackUsed && metrics.failedFileCount == 0
      invariant SumOf(metrics, entries[..i])
    {
      SumStep(metrics, entries, i);
      metrics := Aggregate(metrics, entries[i].Share());
      if !entries[i].Fine() {
        WalkedIs(entries, i);
        assert Counted(entries) == entries[..i + 1];
        if entries[i].File? {
          FailedCountIsNoSum(metrics, Counted(entries));
          metrics := metrics.(failedFileCount := 1);
        }
        return false, metrics;
      }
    }
    assert entries[..|entries|] == entries && Walked(entries) == |entries|;
    return restored, metrics;
  }

  /** A tree of directories alone is walked to its end and counts them and nothing else; an entry that is
      refused ends every walk. */
  lemma {:induction false} DirectoriesCount(entries: seq<TreeEntry>, k: nat)
    requires k < 11 && forall i :: 0 <= i < |entries| ==> entries[i] == Directory(true)
    ensures Walked(entries) == |entries| && Total(entries, k) == if k == 5 then |entries| else 0
    ensures Walked(entries + [Refused]) == |entries| && Walked(entries + [Directory(false)]) == |entries|
  {
    assert (entries + [Refused])[..|entries|] == entries && (entries + [Directory(false)])[..|entries|] == entries;
    if entries != [] {
      DirectoriesCount(entries[..|entries| - 1], k);
    }
  }

  datatype Verdict = Accepted | SilentFallback | FilesFailed | NothingCloned | PhysicalNotTail

  function ValidateCloneMetrics(m: CloneMetrics): Verdict {
    if m.fallbackUsed then SilentFallback
    else if m.failedFileCount != 0 then FilesFailed
    else if m.clonedBytes == 0 then NothingCloned
    else if m.physicalCopiedBytes != m.tailCopiedBytes then PhysicalNotTail
    else Accepted
  }

  /** The physical-bytes gate never fires on the metrics of a walked tree: they are accepted exactly when
      no file failed and the cloned-bytes counter is not zero. */
  method ValidateTree(entries: seq<TreeEntry>, restored: bool) returns (ok: bool, verdict: Verdict)
    requires FromTree(entries) && InRange(Total(Counted(entries), 1))
    ensures ok <==> Walked(entries) == |entries| && restored
    ensures verdict == if Walked(entries) < |entries| && entries[Walked(entries)].File? then FilesFailed
                       else if Total(Counted(entries), 1) == 0 then NothingCloned else Accepted
  {
    var metrics;
    ok, metrics := AggregateTree(entries, restored);
    assert metrics.clonedBytes == Counter(metrics, 1);
    SameWordUnique(metrics.clonedBytes, Total(Counted(entries), 1));
    verdict := ValidateCloneMetrics(metrics);
  }

  lemma WholeCluster(size: int, c: int)
    requires 0 <= size && 0 < c
    ensures size / c * c > 0 <==> size >= c
  {
    AlignedBelow(0, size, c);
    if size >= c {
      MultipleIsAligned(1, c);
      AlignedBelow(c, size, c);
    }
  }

  /** A dense file contributes cloned bytes exactly when it holds a whole cluster, so a tree of files that
      are all shorter than a cluster is copied correctly and yet refused. */
  lemma DenseFileClonesWholeClusters(size: int64, c: int64, plan: ClonePlan)
    requires DensePlanOf(size, c, plan)
    ensures TotalLength(plan.ranges) > 0 <==> size >= c
  {
    ChunksTile(0, AlignedBytes(size, c), MaxChunk(c), 0);
    WholeCluster(size as int, c as int);
  }
}
