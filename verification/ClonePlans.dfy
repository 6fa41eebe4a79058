/** `internal/refsworkspace/clone.go`: the dense and the sparse clone plan of one file. The planning
    loops are proved against `Chunks`, `CloneOf` and `PhysicalOf`; the lemmas say what those mean. */
module ClonePlans {
  import opened Int64
  import opened AllocatedRanges

  datatype ClonePlan = ClonePlan(ranges: seq<Extent>, tailOffset: int64, tailBytes: int64)

  datatype SparseClonePlan = SparseClonePlan(
    cloneRanges: seq<Extent>, physicalRanges: seq<Extent>, allocatedBytes: int64, holeBytes: int64)

  // ---------------------------------------------------------------- counting and clusters

  /** How many ranges of the list hold byte `p`. */
  ghost function Count(rs: seq<Extent>, p: int): nat {
    if rs == [] then 0 else Count(rs[..|rs| - 1], p) + if rs[|rs| - 1].Has(p) then 1 else 0
  }

  ghost function TotalLength(rs: seq<Extent>): int {
    if rs == [] then 0 else TotalLength(rs[..|rs| - 1]) + rs[|rs| - 1].length as int
  }

  lemma {:induction false} CountConcat(a: seq<Extent>, b: seq<Extent>, p: int)
    ensures Count(a + b, p) == Count(a, p) + Count(b, p)
    ensures TotalLength(a + b) == TotalLength(a) + TotalLength(b)
  {
    if b == [] {
      assert a + b == a;
    } else {
      assert (a + b)[..|a + b| - 1] == a + b[..|b| - 1];
      CountConcat(a, b[..|b| - 1], p);
    }
  }

  lemma CountOne(e: Extent, p: int)
    ensures Count([e], p) == if e.Has(p) then 1 else 0
    ensures TotalLength([e]) == e.length as int
  {
    assert [e][..0] == [];
  }

  lemma {:induction false} CountCovers(rs: seq<Extent>, p: int)
    ensures Count(rs, p) > 0 <==> Covers(rs, p)
  {
    if rs != [] {
      assert rs == rs[..|rs| - 1] + [rs[|rs| - 1]];
      CountCovers(rs[..|rs| - 1], p);
      CoversAppend(rs[..|rs| - 1], rs[|rs| - 1], p);
    }
  }

  /** Canonical ranges never overlap and never exceed the window they lie in. */
  lemma {:induction false} CanonicalCount(rs: seq<Extent>, lo: int, hi: int, p: int)
    requires Canonical(rs, lo, hi) && lo <= hi
    ensures Count(rs, p) <= 1
    ensures TotalLength(rs) <= (if rs == [] then 0 else rs[|rs| - 1].End() - lo)
  {
    if rs != [] {
      var front, last := rs[..|rs| - 1], rs[|rs| - 1];
      CanonicalCount(front, lo, hi, p);
      CountCovers(front, p);
      EmptyCoversNothing(front, lo, hi, p);
    }
  }

  lemma OnlyRemainder(k: int, q: int, r: int, c: int)
    requires 0 <= r < c && k * c == q * c + r
    ensures r == 0
  {
    var d := k - q;
    assert d * c == r;
    if d >= 1 {
      MulMonotone(c, 1, d);
    } else if d <= -1 {
      MulMonotone(c, d, -1);
    }
  }

  lemma MultipleIsAligned(k: int, c: int)
    requires 0 < c
    ensures (k * c) % c == 0
  {
    var m := k * c;
    assert m == m / c * c + m % c;
    OnlyRemainder(k, m / c, m % c, c);
  }

  lemma AlignedSum(a: int, b: int, c: int)
    requires 0 < c && a % c == 0 && b % c == 0
    ensures (a + b) % c == 0 && (a - b) % c == 0
  {
    var x, y := a / c, b / c;
    assert a == x * c && b == y * c;
    assert a + b == (x + y) * c && a - b == (x - y) * c;
    MultipleIsAligned(x + y, c);
    MultipleIsAligned(x - y, c);
  }

  /** An aligned position at or below `end` is at or below the last cluster boundary. */
  lemma AlignedBelow(a: int, end: int, c: int)
    requires 0 < c && 0 <= a <= end && a % c == 0
    ensures a <= end / c * c <= end < end / c * c + c && end / c * c % c == 0
  {
    QuotientBounds(end, c);
    MultipleIsAligned(end / c, c);
    if end / c * c < a {
      var gap := a - end / c * c;
      AlignedSum(a, end / c * c, c);
    }
  }

  lemma NextBoundary(x: int, c: int)
    requires 0 < c && 0 <= x
    ensures (x + (c - x % c)) % c == 0
  {
    QuotientBounds(x, c);
    assert x + (c - x % c) == (x / c + 1) * c;
    MultipleIsAligned(x / c + 1, c);
  }

  predicate PowerOfTwo(c: int64)
    requires c > 0
  {
    (c as bv64 & (c - 1) as bv64) == 0
  }

  lemma LargestMultipleBelow(limit: int, c: int)
    requires 0 < c && 0 < limit
    ensures var m := (limit - 1) / c * c; 0 <= m < limit && m % c == 0 && (m > 0 <==> c < limit)
  {
    AlignedBelow(0, limit - 1, c);
    if c < limit {
      MultipleIsAligned(1, c);
      AlignedBelow(c, limit - 1, c);
    } else {
      assert (limit - 1) / c == 0;
    }
  }

  function MaxChunk(c: int64): (m: int64)
    requires c > 0
    ensures 0 <= m < FOUR_GIB && m as int % c as int == 0
    ensures m > 0 <==> c < FOUR_GIB
  {
    LargestMultipleBelow(FOUR_GIB as int, c as int);
    (FOUR_GIB - 1) / c * c
  }

  // ---------------------------------------------------------------- chunking

  ghost function Chunks(lo: int64, hi: int64, maxChunk: int64): seq<Extent>
    requires 0 <= lo <= hi && 0 < maxChunk
    decreases hi - lo
  {
    if lo == hi then [] else
      var length := Min(hi - lo, maxChunk);
      [Extent(lo, length)] + Chunks(lo + length, hi, maxChunk)
  }

  /** The chunking loop both plans run. */
  method AppendChunks(lo: int64, hi: int64, maxChunk: int64) returns (rs: seq<Extent>)
    requires 0 <= lo <= hi && 0 < maxChunk
    ensures rs == Chunks(lo, hi, maxChunk)
  {
    rs := [];
    var offset := lo;
    while offset < hi
      invariant lo <= offset <= hi
      invariant rs + Chunks(offset, hi, maxChunk) == Chunks(lo, hi, maxChunk)
      decreases hi - offset
    {
      var length := hi - offset;
      if length > maxChunk {
        length := maxChunk;
      }
      rs := rs + [Extent(offset, length)];
      offset := offset + length;
    }
  }

  /** Whole clusters, below the 4 GiB limit of one clone request. */
  ghost predicate ClusterChunk(e: Extent, c: int64)
    requires c > 0
  {
    0 < e.length < FOUR_GIB && e.offset as int % c as int == 0 && e.length as int % c as int == 0
  }

  lemma {:induction false} ChunksTile(lo: int64, hi: int64, maxChunk: int64, p: int)
    requires 0 <= lo <= hi && 0 < maxChunk
    ensures Count(Chunks(lo, hi, maxChunk), p) == if lo as int <= p < hi as int then 1 else 0
    ensures TotalLength(Chunks(lo, hi, maxChunk)) == hi as int - lo as int
    decreases hi - lo
  {
    if lo < hi {
      var length := Min(hi - lo, maxChunk);
      ChunksTile(lo + length, hi, maxChunk, p);
      CountOne(Extent(lo, length), p);
      CountConcat([Extent(lo, length)], Chunks(lo + length, hi, maxChunk), p);
    }
  }

  lemma {:induction false} ChunksAligned(lo: int64, hi: int64, c: int64)
    requires 0 <= lo <= hi && 0 < c < FOUR_GIB
    requires lo < hi ==> lo as int % c as int == 0 && hi as int % c as int == 0
    ensures forall e :: e in Chunks(lo, hi, MaxChunk(c)) ==> ClusterChunk(e, c)
    decreases hi - lo
  {
    if lo < hi {
      var length := Min(hi - lo, MaxChunk(c));
      AlignedSum(hi as int, lo as int, c as int);
      AlignedSum(lo as int, length as int, c as int);
      ChunksAligned(lo + length, hi, c);
    }
  }

  // ---------------------------------------------------------------- dense plan

  predicate ValidGeometry(fileSize: int64, c: int64) {
    fileSize >= 0 && c > 0 && PowerOfTwo(c) && c < FOUR_GIB
  }

  function GeometryError(fileSize: int64, c: int64): Error
    requires !ValidGeometry(fileSize, c)
  {
    if fileSize < 0 then NegativeArgument else if c <= 0 || !PowerOfTwo(c) then BadClusterSize else ClusterTooLarge
  }

  function AlignedBytes(fileSize: int64, c: int64): (a: int64)
    requires fileSize >= 0 && c > 0
    ensures 0 <= a <= fileSize && fileSize as int < a as int + c as int
    ensures a as int == fileSize as int / c as int * c as int && a as int % c as int == 0
  {
    AlignedBelow(0, fileSize as int, c as int);
    fileSize / c * c
  }

  ghost predicate DensePlanOf(fileSize: int64, c: int64, plan: ClonePlan) {
    && 0 <= fileSize && 0 < c < FOUR_GIB
    && var aligned := AlignedBytes(fileSize, c);
       plan == ClonePlan(Chunks(0, aligned, MaxChunk(c)), aligned, fileSize - aligned)
  }

  method PlanClone(fileSize: int64, clusterSize: int64) returns (r: Result<ClonePlan>)
    ensures r.Ok? <==> ValidGeometry(fileSize, clusterSize)
    ensures r.Err? ==> r.error == GeometryError(fileSize, clusterSize)
    ensures r.Ok? ==> DensePlanOf(fileSize, clusterSize, r.value)
  {
    if fileSize < 0 {
      return Err(NegativeArgument);
    }
    if clusterSize <= 0 || !PowerOfTwo(clusterSize) {
      return Err(BadClusterSize);
    }
    var maxChunk := MaxChunk(clusterSize);
    if maxChunk <= 0 {
      return Err(ClusterTooLarge);
    }
    var alignedBytes := AlignedBytes(fileSize, clusterSize);
    var ranges := AppendChunks(0, alignedBytes, maxChunk);
    return Ok(ClonePlan(ranges, alignedBytes, fileSize - alignedBytes));
  }

  /** The physical copies `cloneFile` makes for a dense plan: the tail, when there is one. */
  function TailRanges(plan: ClonePlan): seq<Extent> {
    if plan.tailBytes > 0 then [Extent(plan.tailOffset, plan.tailBytes)] else []
  }

  /** A dense plan holds every byte of the file exactly once, in whole clusters below 4 GiB and a tail
      shorter than one cluster. */
  lemma DensePlanExact(fileSize: int64, c: int64, plan: ClonePlan, p: int)
    requires DensePlanOf(fileSize, c, plan)
    ensures Count(plan.ranges, p) + Count(TailRanges(plan), p) == if 0 <= p < fileSize as int then 1 else 0
    ensures TotalLength(plan.ranges) + TotalLength(TailRanges(plan)) == fileSize as int
    ensures forall e :: e in plan.ranges ==> ClusterChunk(e, c)
    ensures 0 <= plan.tailBytes < c
  {
    ChunksTile(0, plan.tailOffset, MaxChunk(c), p);
    ChunksAligned(0, plan.tailOffset, c);
    CountOne(Extent(plan.tailOffset, plan.tailBytes), p);
  }

  // ---------------------------------------------------------------- sparse plan

  /** First cluster boundary inside the extent, or its end. */
  function HeadEnd(e: Extent, c: int64): (h: int64)
    requires c > 0 && e.WellFormed() && e.length > 0
    ensures e.offset <= h && h as int <= e.End() && h as int - e.offset as int < c as int
    ensures h as int < e.End() ==> h as int % c as int == 0
  {
    var remainder := e.offset % c;
    if remainder == 0 then e.offset
    else
      NextBoundary(e.offset as int, c as int);
      if c - remainder > e.length then EndOf(e) else e.offset + (c - remainder)
  }

  /** Last cluster boundary inside the extent, or the end of its head. */
  function BodyEnd(e: Extent, c: int64): (b: int64)
    requires c > 0 && e.WellFormed() && e.length > 0
    ensures HeadEnd(e, c) <= b && b as int <= e.End() && e.End() - b as int < c as int
    ensures HeadEnd(e, c) < b ==> HeadEnd(e, c) as int % c as int == 0 && b as int % c as int == 0
  {
    AlignedBelow(0, e.End(), c as int);
    var boundary := EndOf(e) / c * c;
    var head := HeadEnd(e, c);
    if head < EndOf(e) then AlignedBelow(head as int, e.End(), c as int); boundary
    else if boundary < head then head else boundary
  }

  function HeadOf(e: Extent, c: int64): seq<Extent>
    requires c > 0 && e.WellFormed() && e.length > 0
  {
    if e.offset < HeadEnd(e, c) then [Extent(e.offset, HeadEnd(e, c) - e.offset)] else []
  }

  function TailOf(e: Extent, c: int64): seq<Extent>
    requires c > 0 && e.WellFormed() && e.length > 0
  {
    if BodyEnd(e, c) < EndOf(e) then [Extent(BodyEnd(e, c), EndOf(e) - BodyEnd(e, c))] else []
  }

  ghost function CloneOf(e: Extent, c: int64): seq<Extent>
    requires 0 < c < FOUR_GIB && e.WellFormed() && e.length > 0
  {
    Chunks(HeadEnd(e, c), BodyEnd(e, c), MaxChunk(c))
  }

  ghost predicate AllNonempty(es: seq<Extent>) {
    forall i :: 0 <= i < |es| ==> es[i].WellFormed() && es[i].length > 0
  }

  ghost function ClonePart(es: seq<Extent>, c: int64): seq<Extent>
    requires 0 < c < FOUR_GIB && AllNonempty(es)
  {
    if es == [] then [] else ClonePart(es[..|es| - 1], c) + CloneOf(es[|es| - 1], c)
  }

  ghost function PhysicalPart(es: seq<Extent>, c: int64): seq<Extent>
    requires 0 < c && AllNonempty(es)
  {
    if es == [] then [] else
      PhysicalPart(es[..|es| - 1], c) + HeadOf(es[|es| - 1], c) + TailOf(es[|es| - 1], c)
  }

  /** One turn of the planning loop, with the source's order of clamping. */
  method PlanExtent(fileSize: int64, clusterSize: int64, e: Extent) returns (clones: seq<Extent>, physical: seq<Extent>)
    requires 0 < clusterSize < FOUR_GIB && e.WellFormed() && e.length > 0 && e.End() <= fileSize as int
    ensures clones == CloneOf(e, clusterSize)
    ensures physical == HeadOf(e, clusterSize) + TailOf(e, clusterSize)
  {
    var end := EndOf(e);
    var alignedStart := e.offset;
    var remainder := e.offset % clusterSize;
    if remainder != 0 {
      var increment := clusterSize - remainder;
      if increment > fileSize - e.offset {
        alignedStart := end;
      } else {
        alignedStart := alignedStart + increment;
      }
    }
    if alignedStart > end {
      alignedStart := end;
    }
    assert alignedStart == HeadEnd(e, clusterSize);
    AlignedBelow(0, end as int, clusterSize as int);
    var alignedEnd := end / clusterSize * clusterSize;
    if alignedEnd < alignedStart {
      alignedEnd := alignedStart;
    }
    assert alignedEnd == BodyEnd(e, clusterSize);
    physical := [];
    if e.offset < alignedStart {
      physical := physical + [Extent(e.offset, alignedStart - e.offset)];
    }
    clones := AppendChunks(alignedStart, alignedEnd, MaxChunk(clusterSize));
    if alignedEnd < end {
      physical := physical + [Extent(alignedEnd, end - alignedEnd)];
    }
  }

  lemma CanonicalNonempty(es: seq<Extent>, fileSize: int64, k: int)
    requires Canonical(es, 0, fileSize as int) && 0 <= k < |es|
    ensures AllNonempty(es) && es[k].End() <= fileSize as int && 0 <= fileSize
    ensures 0 <= TotalLength(es[..k]) && TotalLength(es[..k + 1]) <= fileSize as int
    ensures TotalLength(es[..k + 1]) == TotalLength(es[..k]) + es[k].length as int
  {
    assert es[..k + 1][..k] == es[..k];
    assert es[0].End() > 0;
    CanonicalCount(es[..k + 1], 0, fileSize as int, 0);
    TotalNonnegative(es[..k], fileSize);
  }

  lemma {:induction false} TotalNonnegative(es: seq<Extent>, fileSize: int64)
    requires Canonical(es, 0, fileSize as int)
    ensures 0 <= TotalLength(es)
  {
    if es != [] {
      TotalNonnegative(es[..|es| - 1], fileSize);
    }
  }

  /** The loop over the normalised extents. */
  method PlanExtents(fileSize: int64, clusterSize: int64, es: seq<Extent>) returns (plan: SparseClonePlan)
    requires 0 < clusterSize < FOUR_GIB && 0 <= fileSize && Canonical(es, 0, fileSize as int)
    ensures AllNonempty(es)
    ensures plan.cloneRanges == ClonePart(es, clusterSize) && plan.physicalRanges == PhysicalPart(es, clusterSize)
    ensures plan.allocatedBytes as int == TotalLength(es)
    ensures plan.holeBytes as int == fileSize as int - TotalLength(es) && 0 <= plan.holeBytes
  {
    var clones, physical: seq<Extent> := [], [];
    var total: int64 := 0;
    for i := 0 to |es|
      invariant AllNonempty(es)
      invariant clones == ClonePart(es[..i], clusterSize)
      invariant physical == PhysicalPart(es[..i], clusterSize)
      invariant total as int == TotalLength(es[..i]) && 0 <= total <= fileSize
    {
      CanonicalNonempty(es, fileSize, i);
      assert es[..i + 1][..i] == es[..i];
      total := total + es[i].length;
      var c, p := PlanExtent(fileSize, clusterSize, es[i]);
      assert physical + p == physical + HeadOf(es[i], clusterSize) + TailOf(es[i], clusterSize);
      clones, physical := clones + c, physical + p;
    }
    assert es[..|es|] == es;
    return SparseClonePlan(clones, physical, total, fileSize - total);
  }

  /** `out` is the plan of the normalised extents `es`. */
  ghost predicate SparsePlanOf(fileSize: int64, c: int64, es: seq<Extent>, out: SparseClonePlan) {
    && 0 <= fileSize && 0 < c < FOUR_GIB && Canonical(es, 0, fileSize as int) && AllNonempty(es)
    && out.cloneRanges == ClonePart(es, c) && out.physicalRanges == PhysicalPart(es, c)
    && out.allocatedBytes as int == TotalLength(es) && out.holeBytes as int == fileSize as int - TotalLength(es)
  }

  method PlanSparseClone(fileSize: int64, clusterSize: int64, ranges: seq<Extent>)
    returns (r: Result<SparseClonePlan>, ghost es: seq<Extent>)
    ensures !ValidGeometry(fileSize, clusterSize) ==> r == Err(GeometryError(fileSize, clusterSize))
    ensures ValidGeometry(fileSize, clusterSize) ==>
              (r.Ok? <==> fileSize == 0 || forall i :: 0 <= i < |ranges| ==> ranges[i].WellFormed())
    ensures r.Ok? ==> NormalForm(ranges, 0, fileSize as int, es) && SparsePlanOf(fileSize, clusterSize, es, r.value)
  {
    es := [];
    var dense := PlanClone(fileSize, clusterSize);
    if dense.Err? {
      return Err(dense.error), es;
    }
    var normalized := NormalizeAllocatedRanges(fileSize, 0, fileSize, ranges);
    if normalized.Err? {
      return Err(normalized.error), es;
    }
    es := normalized.value;
    var plan := PlanExtents(fileSize, clusterSize, normalized.value);
    return Ok(plan), es;
  }

  lemma ExtentTiled(e: Extent, c: int64, p: int)
    requires 0 < c < FOUR_GIB && e.WellFormed() && e.length > 0
    ensures Count(CloneOf(e, c), p) + Count(HeadOf(e, c) + TailOf(e, c), p) == if e.Has(p) then 1 else 0
    ensures TotalLength(CloneOf(e, c)) + TotalLength(HeadOf(e, c) + TailOf(e, c)) == e.length as int
  {
    var h, b := HeadEnd(e, c), BodyEnd(e, c);
    ChunksTile(h, b, MaxChunk(c), p);
    CountConcat(HeadOf(e, c), TailOf(e, c), p);
    CountOne(Extent(e.offset, h - e.offset), p);
    CountOne(Extent(b, EndOf(e) - b), p);
  }

  lemma SparsePlanStep(es: seq<Extent>, c: int64)
    requires 0 < c < FOUR_GIB && AllNonempty(es) && es != []
    ensures var front, last := es[..|es| - 1], es[|es| - 1];
            && ClonePart(es, c) == ClonePart(front, c) + CloneOf(last, c)
            && PhysicalPart(es, c) == PhysicalPart(front, c) + (HeadOf(last, c) + TailOf(last, c))
            && (|es| == 1 ==> ClonePart(es, c) == CloneOf(last, c) && PhysicalPart(es, c) == HeadOf(last, c) + TailOf(last, c))
  {
    var front := es[..|es| - 1];
    if |es| == 1 {
      assert front == [];
      assert ClonePart(front, c) == [] && PhysicalPart(front, c) == [];
    }
  }

  /** Every byte is cloned or copied exactly as often as it is allocated: the clone ranges and the
      physical ranges are disjoint and together are the allocated set. */
  lemma {:induction false} SparsePlanExact(es: seq<Extent>, c: int64, p: int)
    requires 0 < c < FOUR_GIB && AllNonempty(es)
    ensures Count(ClonePart(es, c), p) + Count(PhysicalPart(es, c), p) == Count(es, p)
    ensures TotalLength(ClonePart(es, c)) + TotalLength(PhysicalPart(es, c)) == TotalLength(es)
  {
    if es != [] {
      var front, last := es[..|es| - 1], es[|es| - 1];
      SparsePlanExact(front, c, p);
      ExtentTiled(last, c, p);
      SparsePlanStep(es, c);
      var clones, physical := CloneOf(last, c), HeadOf(last, c) + TailOf(last, c);
      CountConcat(ClonePart(front, c), clones, p);
      CountConcat(PhysicalPart(front, c), physical, p);
    }
  }

  /** Clone requests are whole clusters below 4 GiB; a physical copy is shorter than one cluster. */
  lemma {:induction false} SparsePlanAligned(es: seq<Extent>, c: int64)
    requires 0 < c < FOUR_GIB && AllNonempty(es)
    ensures forall e :: e in ClonePart(es, c) ==> ClusterChunk(e, c)
    ensures forall e :: e in PhysicalPart(es, c) ==> 0 < e.length < c
  {
    if es != [] {
      SparsePlanAligned(es[..|es| - 1], c);
      var last := es[|es| - 1];
      ChunksAligned(HeadEnd(last, c), BodyEnd(last, c), c);
      assert forall e :: e in HeadOf(last, c) + TailOf(last, c) ==> 0 < e.length < c;
    }
  }

  /** The plan of canonical extents holds each allocated byte once and no other byte. */
  lemma SparsePlanPartition(fileSize: int64, c: int64, es: seq<Extent>, plan: SparseClonePlan, p: int)
    requires SparsePlanOf(fileSize, c, es, plan)
    ensures Count(plan.cloneRanges, p) + Count(plan.physicalRanges, p) == if Covers(es, p) then 1 else 0
    ensures TotalLength(plan.cloneRanges) + TotalLength(plan.physicalRanges) == plan.allocatedBytes as int
    ensures plan.allocatedBytes as int + plan.holeBytes as int == fileSize as int
  {
    SparsePlanExact(es, c, p);
    CanonicalCount(es, 0, fileSize as int, p);
    CountCovers(es, p);
  }

  lemma FullyAllocatedIsOneExtent(fileSize: int64, es: seq<Extent>)
    requires 0 < fileSize && Canonical(es, 0, fileSize as int)
    requires forall p :: 0 <= p < fileSize as int ==> Covers(es, p)
    ensures es == [Extent(0, fileSize)]
  {
    var whole := [Extent(0, fileSize)];
    forall p
      ensures Covers(whole, p) <==> Covers(es, p)
    {
      if 0 <= p < fileSize as int { assert whole[0].Has(p); }
    }
    CanonicalUnique(es, whole, 0, fileSize as int);
  }

  lemma WholeFileExtent(fileSize: int64, c: int64)
    requires 0 < c && 0 < fileSize
    ensures HeadEnd(Extent(0, fileSize), c) == 0
    ensures BodyEnd(Extent(0, fileSize), c) == AlignedBytes(fileSize, c)
  {
    assert 0 % c == 0;
  }

  lemma OneExtentPlan(fileSize: int64, c: int64)
    requires 0 < c < FOUR_GIB && 0 < fileSize
    ensures var es, aligned := [Extent(0, fileSize)], AlignedBytes(fileSize, c);
            && ClonePart(es, c) == Chunks(0, aligned, MaxChunk(c))
            && PhysicalPart(es, c) == (if aligned < fileSize then [Extent(aligned, fileSize - aligned)] else [])
            && TotalLength(es) == fileSize as int
  {
    var only := Extent(0, fileSize);
    WholeFileExtent(fileSize, c);
    SparsePlanStep([only], c);
    CountOne(only, 0);
    assert HeadOf(only, c) == [];
  }

  /** On a fully allocated file the sparse plan is the dense one. */
  lemma FullyAllocatedIsDense(fileSize: int64, c: int64, es: seq<Extent>, sparse: SparseClonePlan, dense: ClonePlan)
    requires SparsePlanOf(fileSize, c, es, sparse) && DensePlanOf(fileSize, c, dense)
    requires forall p :: 0 <= p < fileSize as int ==> Covers(es, p)
    ensures sparse.cloneRanges == dense.ranges && sparse.physicalRanges == TailRanges(dense)
    ensures sparse.holeBytes == 0
  {
    if fileSize == 0 {
      EmptyCoversNothing(es, 0, 0, 0);
    } else {
      FullyAllocatedIsOneExtent(fileSize, es);
      OneExtentPlan(fileSize, c);
    }
  }
}
