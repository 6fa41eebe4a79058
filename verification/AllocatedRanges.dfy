/** `internal/refsworkspace/clone.go`: normalisation and paged collection of a file's allocated ranges.
    Offsets and lengths are `int64`, so verification also shows that no sum overflows. */
module AllocatedRanges {
  import opened Int64

  const FOUR_GIB: int64 := 0x1_0000_0000

  datatype Error =
    | NegativeArgument
    | QueryOverflow
    | NegativeRange(index: nat)
    | RangeOverflow(index: nat)
    | QueryFailed
    | NoProgress
    | BadClusterSize
    | ClusterTooLarge

  datatype Result<T> = Ok(value: T) | Err(error: Error)

  /** A half-open byte range: the source's `AllocatedRange` and `CloneRange`. */
  datatype Extent = Extent(offset: int64, length: int64) {
    ghost function End(): int { offset as int + length as int }
    ghost predicate Has(p: int) { offset as int <= p < End() }
    ghost predicate WellFormed() { 0 <= offset && 0 <= length && (length > 0 ==> End() <= MAX) }
  }

  ghost predicate Covers(rs: seq<Extent>, p: int) {
    exists i :: 0 <= i < |rs| && rs[i].Has(p)
  }

  // ---------------------------------------------------------------- normal form

  /** Nonempty ranges inside `[lo, hi)`, in order, no two of them touching. */
  ghost predicate Canonical(rs: seq<Extent>, lo: int, hi: int) {
    && (forall i :: 0 <= i < |rs| ==> rs[i].length > 0 && lo <= rs[i].offset as int && rs[i].End() <= hi)
    && (forall i, j :: 0 <= i < j < |rs| ==> rs[i].End() < rs[j].offset as int)
  }

  /** `out` is the canonical form of the part of `rs` inside `[lo, hi)`. */
  ghost predicate NormalForm(rs: seq<Extent>, lo: int, hi: int, out: seq<Extent>) {
    && Canonical(out, lo, hi)
    && forall p :: Covers(out, p) <==> lo <= p < hi && Covers(rs, p)
  }

  lemma CoversAppend(rs: seq<Extent>, e: Extent, p: int)
    ensures Covers(rs + [e], p) <==> Covers(rs, p) || e.Has(p)
  {
    var all := rs + [e];
    if Covers(rs, p) {
      var i :| 0 <= i < |rs| && rs[i].Has(p);
      assert all[i].Has(p);
    }
    assert all[|rs|] == e;
    if Covers(all, p) {
      var i :| 0 <= i < |all| && all[i].Has(p);
      assert i < |rs| ==> rs[i].Has(p);
    }
  }

  lemma CoversConcat(a: seq<Extent>, b: seq<Extent>, p: int)
    ensures Covers(a + b, p) <==> Covers(a, p) || Covers(b, p)
  {
    var all := a + b;
    if Covers(a, p) {
      var i :| 0 <= i < |a| && a[i].Has(p);
      assert all[i].Has(p);
    }
    if Covers(b, p) {
      var i :| 0 <= i < |b| && b[i].Has(p);
      assert all[|a| + i].Has(p);
    }
    if Covers(all, p) {
      var i :| 0 <= i < |all| && all[i].Has(p);
      assert if i < |a| then a[i].Has(p) else b[i - |a|].Has(p);
    }
  }

  /** The covered points fix the start and the end of the first range. */
  lemma FirstRangeDetermined(a: seq<Extent>, b: seq<Extent>, lo: int, hi: int)
    requires Canonical(a, lo, hi) && Canonical(b, lo, hi) && a != [] && b != []
    requires forall p :: Covers(a, p) <==> Covers(b, p)
    ensures a[0].offset as int <= b[0].offset as int && a[0].End() <= b[0].End()
  {
    assert b[0].Has(b[0].offset as int);
    assert Covers(b, b[0].offset as int);
    assert Covers(a, b[0].offset as int);
    assert a[0].Has(a[0].offset as int);
    assert Covers(b, a[0].offset as int);
    assert a[0].offset as int <= b[0].offset as int;
    if b[0].End() < a[0].End() {
      assert a[0].Has(b[0].End());
      assert Covers(a, b[0].End());
      assert false;
    }
  }

  lemma TailCovers(a: seq<Extent>, lo: int, hi: int, p: int)
    requires Canonical(a, lo, hi) && a != []
    ensures Covers(a[1..], p) <==> Covers(a, p) && p >= a[0].End()
  {
    if Covers(a[1..], p) {
      var i :| 0 <= i < |a[1..]| && a[1..][i].Has(p);
      assert a[i + 1].Has(p);
    }
    if Covers(a, p) && p >= a[0].End() {
      var i :| 0 <= i < |a| && a[i].Has(p);
      assert a[1..][i - 1].Has(p);
    }
  }

  lemma FirstPointCovered(a: seq<Extent>, lo: int, hi: int)
    requires Canonical(a, lo, hi) && a != []
    ensures Covers(a, a[0].offset as int)
  {
    assert a[0].Has(a[0].offset as int);
  }

  lemma TailsCoverTheSame(a: seq<Extent>, b: seq<Extent>, lo: int, hi: int)
    requires Canonical(a, lo, hi) && Canonical(b, lo, hi) && a != [] && b != [] && a[0] == b[0]
    requires forall p :: Covers(a, p) <==> Covers(b, p)
    ensures Canonical(a[1..], lo, hi) && Canonical(b[1..], lo, hi)
    ensures forall p :: Covers(a[1..], p) <==> Covers(b[1..], p)
  {
    forall p
      ensures Covers(a[1..], p) <==> Covers(b[1..], p)
    {
      TailCovers(a, lo, hi, p);
      TailCovers(b, lo, hi, p);
    }
  }

  /** A canonical list is determined by the points it covers. */
  lemma {:induction false} CanonicalUnique(a: seq<Extent>, b: seq<Extent>, lo: int, hi: int)
    requires Canonical(a, lo, hi) && Canonical(b, lo, hi)
    requires forall p :: Covers(a, p) <==> Covers(b, p)
    ensures a == b
    decreases |a|
  {
    if a == [] || b == [] {
      if a != [] { FirstPointCovered(a, lo, hi); }
      if b != [] { FirstPointCovered(b, lo, hi); }
    } else {
      FirstRangeDetermined(a, b, lo, hi);
      FirstRangeDetermined(b, a, lo, hi);
      TailsCoverTheSame(a, b, lo, hi);
      CanonicalUnique(a[1..], b[1..], lo, hi);
      assert a == [a[0]] + a[1..] && b == [b[0]] + b[1..];
    }
  }

  /** Inputs that cover the same points of the query have one and the same normal form, whatever their
      order, duplication or fragmentation. */
  lemma NormalFormUnique(r1: seq<Extent>, r2: seq<Extent>, lo: int, hi: int, o1: seq<Extent>, o2: seq<Extent>)
    requires NormalForm(r1, lo, hi, o1) && NormalForm(r2, lo, hi, o2)
    requires forall p :: lo <= p < hi ==> (Covers(r1, p) <==> Covers(r2, p))
    ensures o1 == o2
  {
    CanonicalUnique(o1, o2, lo, hi);
  }

  /** Normalising a normal form again gives it back. */
  lemma NormalFormIdempotent(rs: seq<Extent>, lo: int, hi: int, once: seq<Extent>, twice: seq<Extent>)
    requires NormalForm(rs, lo, hi, once) && NormalForm(once, lo, hi, twice)
    ensures twice == once
  {
    NormalFormUnique(rs, once, lo, hi, once, twice);
  }

  // ---------------------------------------------------------------- sorting (sort.Slice)

  predicate Before(a: Extent, b: Extent) {
    a.offset < b.offset || (a.offset == b.offset && a.length <= b.length)
  }

  ghost predicate Sorted(s: seq<Extent>) {
    forall i :: 0 <= i < |s| - 1 ==> Before(s[i], s[i + 1])
  }

  /** Stands for the library sort: an ordered permutation of its argument. */
  function Insert(s: seq<Extent>, e: Extent): (r: seq<Extent>)
    requires Sorted(s)
    ensures Sorted(r) && multiset(r) == multiset(s) + multiset{e}
    ensures r != [] && (r[0] == e || (s != [] && r[0] == s[0]))
  {
    if s == [] || Before(e, s[0]) then
      [e] + s
    else
      assert s == [s[0]] + s[1..];
      [s[0]] + Insert(s[1..], e)
  }

  function Sort(s: seq<Extent>): (r: seq<Extent>)
    ensures Sorted(r) && multiset(r) == multiset(s)
  {
    if s == [] then [] else
      assert s == s[..|s| - 1] + [s[|s| - 1]];
      Insert(Sort(s[..|s| - 1]), s[|s| - 1])
  }

  lemma PermutationCovers(a: seq<Extent>, b: seq<Extent>)
    requires multiset(a) == multiset(b)
    ensures forall p :: Covers(a, p) ==> Covers(b, p)
    ensures forall e :: e in b ==> e in a
  {
    forall e | e in b
      ensures e in a
    {
      assert e in multiset(b);
    }
    forall p | Covers(a, p)
      ensures Covers(b, p)
    {
      var i :| 0 <= i < |a| && a[i].Has(p);
      assert a[i] in multiset(a);
      assert a[i] in b;
      var j :| 0 <= j < |b| && b[j] == a[i];
      assert b[j].Has(p);
    }
  }

  // ---------------------------------------------------------------- in-place compaction

  ghost predicate Within(s: seq<Extent>, lo: int, hi: int) {
    forall i :: 0 <= i < |s| ==> s[i].length > 0 && lo <= s[i].offset as int && s[i].End() <= hi
  }

  function EndOf(e: Extent): (end: int64)
    requires e.WellFormed() && e.length > 0
    ensures end as int == e.End()
  {
    e.offset + e.length
  }

  /** One turn of the merging loop on the list built so far. */
  ghost function Merge(merged: seq<Extent>, current: Extent): seq<Extent> {
    if merged == [] then [current] else
      var last := merged[|merged| - 1];
      if current.offset as int > last.End() then merged + [current]
      else if current.End() <= last.End() then merged
      else if current.End() - last.offset as int > MAX then merged
      else merged[..|merged| - 1] + [Extent(last.offset, (current.End() - last.offset as int) as int64)]
  }

  ghost function Compact(s: seq<Extent>): seq<Extent> {
    if s == [] then [] else Merge(Compact(s[..|s| - 1]), s[|s| - 1])
  }

  lemma MergeCanonical(merged: seq<Extent>, current: Extent, lo: int, hi: int)
    requires 0 <= lo && hi <= MAX && Canonical(merged, lo, hi)
    requires current.length > 0 && lo <= current.offset as int && current.End() <= hi
    requires merged != [] ==> merged[|merged| - 1].offset <= current.offset
    ensures Canonical(Merge(merged, current), lo, hi)
    ensures var r := Merge(merged, current); r != [] && r[|r| - 1].offset <= current.offset
  {
    var r := Merge(merged, current);
    if merged != [] && r != merged {
      var last := merged[|merged| - 1];
      if current.offset as int > last.End() {
        assert forall i :: 0 <= i < |merged| ==> merged[i].End() <= last.End();
      } else {
        assert forall i :: 0 <= i < |merged| - 1 ==> merged[i].End() < last.offset as int;
      }
    }
  }

  lemma MergeCovers(merged: seq<Extent>, current: Extent, p: int)
    requires current.WellFormed() && current.length > 0
    requires merged != [] ==> 0 <= merged[|merged| - 1].offset <= current.offset
    ensures Covers(Merge(merged, current), p) <==> Covers(merged, p) || current.Has(p)
  {
    CoversAppend(merged, current, p);
    if merged == [] {
      assert Merge(merged, current) == merged + [current];
    } else {
      var front, last := merged[..|merged| - 1], merged[|merged| - 1];
      assert merged == front + [last];
      CoversAppend(front, last, p);
      if last.End() < current.End() && current.offset as int <= last.End() {
        CoversAppend(front, Extent(last.offset, (current.End() - last.offset as int) as int64), p);
      }
    }
  }

  lemma {:induction false} CompactCanonical(s: seq<Extent>, lo: int, hi: int)
    requires 0 <= lo && hi <= MAX && Sorted(s) && Within(s, lo, hi)
    ensures Canonical(Compact(s), lo, hi)
    ensures var r := Compact(s); s != [] ==> r != [] && r[|r| - 1].offset <= s[|s| - 1].offset
  {
    if s != [] {
      var front := s[..|s| - 1];
      CompactCanonical(front, lo, hi);
      if front != [] {
        assert Before(s[|s| - 2], s[|s| - 1]);
      }
      MergeCanonical(Compact(front), s[|s| - 1], lo, hi);
    }
  }

  /** What the merging loop needs to know of the range its `last` pointer refers to. */
  ghost predicate LastPrecedes(merged: seq<Extent>, current: Extent) {
    && merged != []
    && var last := merged[|merged| - 1]; last.WellFormed() && last.length > 0 && last.offset <= current.offset
  }

  lemma CompactLast(s: seq<Extent>, lo: int, hi: int)
    requires 0 <= lo && hi <= MAX && Sorted(s) && Within(s, lo, hi) && s != []
    ensures LastPrecedes(Compact(s), s[|s| - 1])
  {
    CompactCanonical(s, lo, hi);
  }

  lemma LastInOrder(s: seq<Extent>, lo: int, hi: int)
    requires 0 <= lo && hi <= MAX && Sorted(s) && Within(s, lo, hi) && s != []
    ensures Sorted(s[..|s| - 1]) && Within(s[..|s| - 1], lo, hi) && s[|s| - 1].WellFormed() && s[|s| - 1].length > 0
    ensures var merged := Compact(s[..|s| - 1]); merged != [] ==> 0 <= merged[|merged| - 1].offset <= s[|s| - 1].offset
  {
    var front := s[..|s| - 1];
    CompactCanonical(front, lo, hi);
    if front != [] {
      assert Before(s[|s| - 2], s[|s| - 1]);
    }
  }

  lemma {:induction false} CompactCovers(s: seq<Extent>, lo: int, hi: int, p: int)
    requires 0 <= lo && hi <= MAX && Sorted(s) && Within(s, lo, hi)
    ensures Covers(Compact(s), p) <==> Covers(s, p)
  {
    if s != [] {
      var front, current := s[..|s| - 1], s[|s| - 1];
      assert s == front + [current];
      CompactCovers(front, lo, hi, p);
      LastInOrder(s, lo, hi);
      MergeCovers(Compact(front), current, p);
      CoversAppend(front, current, p);
    }
  }

  /** Compacting a sorted list inside the query gives its normal form. */
  lemma CompactNormalForm(s: seq<Extent>, lo: int, hi: int)
    requires 0 <= lo && hi <= MAX && Sorted(s) && Within(s, lo, hi)
    ensures NormalForm(s, lo, hi, Compact(s))
  {
    CompactCanonical(s, lo, hi);
    forall p
      ensures Covers(Compact(s), p) <==> lo <= p < hi && Covers(s, p)
    {
      CompactCovers(s, lo, hi, p);
    }
  }

  lemma NextRange(before: seq<Extent>, i: nat, lo: int, hi: int)
    requires 0 <= lo && hi <= MAX && Sorted(before) && Within(before, lo, hi) && i < |before|
    ensures before[i].WellFormed() && before[i].length > 0
    ensures Compact(before[..i + 1]) == Merge(Compact(before[..i]), before[i])
    ensures i > 0 ==> LastPrecedes(Compact(before[..i]), before[i])
  {
    assert before[..i + 1][..i] == before[..i];
    if i > 0 {
      assert Before(before[i - 1], before[i]);
      CompactLast(before[..i], lo, hi);
    }
  }

  /** The body of the merging loop: `buffer[..m]` is the list built so far and `buffer[i]` the range
      just read. Nothing behind the read index is touched. */
  method MergeInto(buffer: array<Extent>, m: nat, i: nat) returns (m': nat)
    requires m <= i < buffer.Length
    requires buffer[i].WellFormed() && buffer[i].length > 0
    requires m > 0 ==> LastPrecedes(buffer[..m], buffer[i])
    modifies buffer
    ensures 0 < m' <= i + 1
    ensures buffer[..m'] == Merge(old(buffer[..m]), old(buffer[i]))
    ensures forall k :: i < k < buffer.Length ==> buffer[k] == old(buffer[k])
  {
    var current := buffer[i];
    if m == 0 {
      buffer[m] := current;
      m' := m + 1;
      assert buffer[..m'] == [current];
    } else {
      var last := buffer[m - 1];
      assert last == buffer[..m][m - 1];
      var lastEnd, currentEnd := EndOf(last), EndOf(current);
      m' := m;
      if current.offset <= lastEnd {
        if currentEnd > lastEnd {
          buffer[m - 1] := Extent(last.offset, currentEnd - last.offset);
          assert buffer[..m'] == old(buffer[..m])[..m - 1] + [buffer[m - 1]];
        }
      } else {
        buffer[m] := current;
        m' := m + 1;
        assert buffer[..m'] == old(buffer[..m]) + [current];
      }
    }
  }

  /** Merges touching neighbours, writing the result over the front of the buffer it is still reading:
      `m` never passes the read index, so no unread range is overwritten. */
  method CompactInPlace(buffer: array<Extent>, ghost lo: int, ghost hi: int) returns (m: nat)
    requires 0 <= lo && hi <= MAX && Sorted(buffer[..]) && Within(buffer[..], lo, hi)
    modifies buffer
    ensures m <= buffer.Length
    ensures buffer[..m] == Compact(old(buffer[..]))
  {
    ghost var before := buffer[..];
    m := 0;
    for i := 0 to buffer.Length
      invariant m <= i
      invariant forall k :: i <= k < buffer.Length ==> buffer[k] == before[k]
      invariant buffer[..m] == Compact(before[..i])
    {
      NextRange(before, i, lo, hi);
      m := MergeInto(buffer, m, i);
    }
    assert before[..buffer.Length] == before;
  }

  // ---------------------------------------------------------------- NormalizeAllocatedRanges

  function Min(a: int64, b: int64): int64 { if a < b then a else b }

  ghost predicate ValidQuery(fileSize: int64, queryOffset: int64, queryLength: int64) {
    0 <= fileSize && 0 <= queryOffset && 0 <= queryLength && queryOffset as int + queryLength as int <= MAX
  }

  /** End of the query, cut at the end of the file. */
  ghost function QueryEnd(fileSize: int64, queryOffset: int64, queryLength: int64): int {
    var end := queryOffset as int + queryLength as int;
    if end <= fileSize as int then end else fileSize as int
  }

  ghost predicate BadRange(e: Extent, index: nat, error: Error) {
    && !e.WellFormed()
    && error == if e.offset < 0 || e.length < 0 then NegativeRange(index) else RangeOverflow(index)
  }

  /** The clipping loop: keeps the nonempty part of each range inside `[lo, hi)`. */
  method ClipRanges(lo: int64, hi: int64, ranges: seq<Extent>) returns (r: Result<seq<Extent>>)
    requires 0 <= lo <= hi
    ensures r.Ok? <==> forall i :: 0 <= i < |ranges| ==> ranges[i].WellFormed()
    ensures r.Err? ==> exists i: nat :: i < |ranges| && BadRange(ranges[i], i, r.error)
                                        && forall j :: 0 <= j < i ==> ranges[j].WellFormed()
    ensures r.Ok? ==> Within(r.value, lo as int, hi as int)
    ensures r.Ok? ==> forall p :: Covers(r.value, p) <==> lo as int <= p < hi as int && Covers(ranges, p)
  {
    var normalized: seq<Extent> := [];
    for i := 0 to |ranges|
      invariant forall j :: 0 <= j < i ==> ranges[j].WellFormed()
      invariant Within(normalized, lo as int, hi as int)
      invariant forall p :: Covers(normalized, p) <==> lo as int <= p < hi as int && Covers(ranges[..i], p)
    {
      var current := ranges[i];
      assert ranges[..i + 1] == ranges[..i] + [current];
      forall p
        ensures Covers(ranges[..i + 1], p) <==> Covers(ranges[..i], p) || current.Has(p)
      {
        CoversAppend(ranges[..i], current, p);
      }
      if current.offset < 0 || current.length < 0 {
        assert BadRange(ranges[i], i, NegativeRange(i));
        return Err(NegativeRange(i));
      }
      if current.length != 0 {
        var sum := CheckedAdd(current.offset, current.length);
        if sum.Overflow? {
          assert BadRange(ranges[i], i, RangeOverflow(i));
          return Err(RangeOverflow(i));
        }
        var start, end := current.offset, sum.value;
        if start < lo { start := lo; }
        if end > hi { end := hi; }
        if start < end {
          var clipped := Extent(start, end - start);
          forall p
            ensures Covers(normalized + [clipped], p) <==> Covers(normalized, p) || clipped.Has(p)
          {
            CoversAppend(normalized, clipped, p);
          }
          normalized := normalized + [clipped];
        }
      }
    }
    assert ranges[..|ranges|] == ranges;
    return Ok(normalized);
  }

  lemma SortKeepsWithin(ranges: seq<Extent>, lo: int, hi: int)
    requires Within(ranges, lo, hi)
    ensures Within(Sort(ranges), lo, hi)
  {
    var sorted := Sort(ranges);
    PermutationCovers(ranges, sorted);
    forall i | 0 <= i < |sorted|
      ensures sorted[i].length > 0 && lo <= sorted[i].offset as int && sorted[i].End() <= hi
    {
      assert sorted[i] in ranges;
    }
  }

  /** The sorting and merging half of normalisation, on ranges already clipped to the query. */
  method SortAndMerge(ranges: seq<Extent>, ghost lo: int, ghost hi: int) returns (merged: seq<Extent>)
    requires 0 <= lo && hi <= MAX && Within(ranges, lo, hi)
    ensures NormalForm(ranges, lo, hi, merged)
  {
    var sorted := Sort(ranges);
    SortKeepsWithin(ranges, lo, hi);
    PermutationCovers(ranges, sorted);
    PermutationCovers(sorted, ranges);
    CompactNormalForm(sorted, lo, hi);
    var buffer := new Extent[|sorted|](i requires 0 <= i < |sorted| => sorted[i]);
    assert buffer[..] == sorted;
    var m := CompactInPlace(buffer, lo, hi);
    merged := buffer[..m];
  }

  /** Early exits come before any range is looked at, so a query outside the file accepts even
      malformed ranges. */
  method NormalizeAllocatedRanges(fileSize: int64, queryOffset: int64, queryLength: int64, ranges: seq<Extent>)
    returns (r: Result<seq<Extent>>)
    ensures fileSize < 0 || queryOffset < 0 || queryLength < 0 ==> r == Err(NegativeArgument)
    ensures fileSize >= 0 && queryOffset >= 0 && queryLength >= 0 && queryOffset as int + queryLength as int > MAX
            ==> r == Err(QueryOverflow)
    ensures ValidQuery(fileSize, queryOffset, queryLength) ==>
              var empty := queryOffset >= fileSize || queryLength == 0;
              && (r.Ok? <==> empty || forall i :: 0 <= i < |ranges| ==> ranges[i].WellFormed())
              && (r.Err? ==> exists i: nat :: i < |ranges| && BadRange(ranges[i], i, r.error)
                                              && forall j :: 0 <= j < i ==> ranges[j].WellFormed())
    ensures r.Ok? ==> ValidQuery(fileSize, queryOffset, queryLength)
                      && NormalForm(ranges, queryOffset as int, QueryEnd(fileSize, queryOffset, queryLength), r.value)
  {
    if fileSize < 0 || queryOffset < 0 || queryLength < 0 {
      return Err(NegativeArgument);
    }
    var sum := CheckedAdd(queryOffset, queryLength);
    if sum.Overflow? {
      return Err(QueryOverflow);
    }
    if queryOffset >= fileSize || queryLength == 0 {
      return Ok([]);
    }
    var queryEnd := Min(sum.value, fileSize);
    var clipped := ClipRanges(queryOffset, queryEnd, ranges);
    if clipped.Err? {
      return clipped;
    }
    var merged := SortAndMerge(clipped.value, queryOffset as int, queryEnd as int);
    return Ok(merged);
  }

  // ---------------------------------------------------------------- collectAllocatedRangesPaged

  datatype Page = Page(ranges: seq<Extent>, more: bool) | Failed

  /** A range query on a file that does not change: a function of offset and length. */
  type Query = (int64, int64) -> Page

  function PageAt(query: Query, fileSize: int64, offset: int64): Page
    requires 0 <= offset < fileSize
  {
    query(offset, fileSize - offset)
  }

  /** The page is exact from `offset` up to the end of its last range, or up to the end of the file
      when it announces no more data. */
  ghost predicate HonestPage(page: Page, offset: int64, fileSize: int64, extents: seq<Extent>) {
    && page.Page?
    && (forall i :: 0 <= i < |page.ranges| ==> page.ranges[i].WellFormed())
    && (page.more ==> exists q :: offset as int <= q < fileSize as int && Covers(page.ranges, q))
    && (forall p :: offset as int <= p < fileSize as int && (page.more ==> ReachedBy(page.ranges, p, fileSize as int))
                    ==> (Covers(page.ranges, p) <==> Covers(extents, p)))
  }

  ghost predicate ReachedBy(rs: seq<Extent>, p: int, hi: int) {
    exists q :: p <= q < hi && Covers(rs, q)
  }

  ghost predicate Honest(query: Query, fileSize: int64, extents: seq<Extent>) {
    forall offset: int64 :: 0 <= offset < fileSize ==> HonestPage(PageAt(query, fileSize, offset), offset, fileSize, extents)
  }

  /** A page that promises more data but holds no byte of the query. */
  ghost predicate StalledPage(page: Page, offset: int64, fileSize: int64) {
    && page.Page? && page.more
    && forall q :: offset as int <= q < fileSize as int ==> !Covers(page.ranges, q)
  }

  lemma EmptyCoversNothing(rs: seq<Extent>, lo: int, hi: int, p: int)
    requires Canonical(rs, lo, hi)
    ensures rs == [] ==> !Covers(rs, p)
    ensures rs != [] ==> Covers(rs, rs[|rs| - 1].End() - 1) && lo < rs[|rs| - 1].End() <= hi
    ensures rs != [] && Covers(rs, p) ==> p < rs[|rs| - 1].End()
  {
    if rs != [] {
      assert rs[|rs| - 1].Has(rs[|rs| - 1].End() - 1);
    }
  }

  /** What one honest page settles: every byte before the next query. */
  lemma PageSettles(page: Page, offset: int64, fileSize: int64, extents: seq<Extent>, batch: seq<Extent>, p: int)
    requires 0 <= offset < fileSize && HonestPage(page, offset, fileSize, extents)
    requires NormalForm(page.ranges, offset as int, fileSize as int, batch)
    ensures page.more ==> batch != []
    ensures var settled := if page.more then batch[|batch| - 1].End() else fileSize as int;
            Covers(batch, p) <==> offset as int <= p < settled && Covers(extents, p)
  {
    if page.more {
      var q :| offset as int <= q < fileSize as int && Covers(page.ranges, q);
      assert Covers(batch, q);
      EmptyCoversNothing(batch, offset as int, fileSize as int, q);
      var end := batch[|batch| - 1].End();
      assert Covers(page.ranges, end - 1);
      EmptyCoversNothing(batch, offset as int, fileSize as int, p);
      if offset as int <= p < end {
        assert ReachedBy(page.ranges, p, fileSize as int);
      }
    }
  }

  lemma BatchWellFormed(batch: seq<Extent>, lo: int, hi: int)
    requires 0 <= lo && hi <= MAX && Canonical(batch, lo, hi)
    ensures forall i :: 0 <= i < |batch| ==> batch[i].WellFormed()
  {
  }

  /** What the pages read so far must have collected when they are honest about `extents`. */
  ghost predicate CollectedUpTo(collected: seq<Extent>, extents: seq<Extent>, settled: int) {
    forall p :: Covers(collected, p) <==> 0 <= p < settled && Covers(extents, p)
  }

  lemma CollectPage(collected: seq<Extent>, page: Page, offset: int64, fileSize: int64, extents: seq<Extent>, batch: seq<Extent>)
    requires 0 <= offset < fileSize && HonestPage(page, offset, fileSize, extents)
    requires NormalForm(page.ranges, offset as int, fileSize as int, batch)
    requires CollectedUpTo(collected, extents, offset as int)
    ensures page.more ==> batch != []
    ensures CollectedUpTo(collected + batch, extents, if page.more then batch[|batch| - 1].End() else fileSize as int)
  {
    PageSettles(page, offset, fileSize, extents, batch, 0);
    var settled := if page.more then batch[|batch| - 1].End() else fileSize as int;
    EmptyCoversNothing(batch, offset as int, fileSize as int, 0);
    forall p
      ensures Covers(collected + batch, p) <==> 0 <= p < settled && Covers(extents, p)
    {
      CoversConcat(collected, batch, p);
      PageSettles(page, offset, fileSize, extents, batch, p);
    }
  }

  /** One page of the query loop: its normal form, or the error that ends the collection. */
  method ReadPage(fileSize: int64, offset: int64, query: Query) returns (page: Page, r: Result<seq<Extent>>)
    requires 0 <= offset < fileSize
    ensures page == PageAt(query, fileSize, offset)
    ensures r.Ok? ==> page.Page? && NormalForm(page.ranges, offset as int, fileSize as int, r.value)
                      && (forall i :: 0 <= i < |r.value| ==> r.value[i].WellFormed())
                      && (page.more ==> r.value != [])
    ensures r == Err(NoProgress) ==> StalledPage(page, offset, fileSize)
    ensures forall extents :: HonestPage(page, offset, fileSize, extents) ==> r.Ok?
  {
    page := PageAt(query, fileSize, offset);
    if page.Failed? {
      return page, Err(QueryFailed);
    }
    r := NormalizeAllocatedRanges(fileSize, offset, fileSize - offset, page.ranges);
    if r.Ok? {
      EmptyCoversNothing(r.value, offset as int, fileSize as int, 0);
      BatchWellFormed(r.value, offset as int, fileSize as int);
      if page.more && r.value == [] {
        forall q | offset as int <= q < fileSize as int
          ensures !Covers(page.ranges, q)
        {
          EmptyCoversNothing(r.value, offset as int, fileSize as int, q);
        }
        return page, Err(NoProgress);
      }
    }
  }

  /** Terminates because every further query starts strictly later: the source's second no-progress
      test can never fire, which the assertion in the loop records. On honest pages the result is the
      normal form of the whole allocation map, as a one-shot query would have given. */
  method CollectAllocatedRangesPaged(fileSize: int64, query: Query, ghost extents: seq<Extent>) returns (r: Result<seq<Extent>>)
    ensures fileSize < 0 ==> r == Err(NegativeArgument)
    ensures r.Ok? ==> Canonical(r.value, 0, fileSize as int)
    ensures r == Err(NoProgress) ==>
              exists offset: int64 :: 0 <= offset < fileSize && StalledPage(PageAt(query, fileSize, offset), offset, fileSize)
    ensures fileSize >= 0 && Honest(query, fileSize, extents) ==>
              r.Ok? && NormalForm(extents, 0, fileSize as int, r.value)
  {
    if fileSize < 0 {
      return Err(NegativeArgument);
    }
    if fileSize == 0 {
      return Ok([]);
    }
    var collected: seq<Extent> := [];
    var offset: int64 := 0;
    ghost var honest := Honest(query, fileSize, extents);
    ghost var settled := 0;
    while offset < fileSize
      invariant 0 <= offset < fileSize && settled == offset as int
      invariant forall i :: 0 <= i < |collected| ==> collected[i].WellFormed()
      invariant honest ==> CollectedUpTo(collected, extents, settled)
      decreases fileSize - offset
    {
      var page, batch := ReadPage(fileSize, offset, query);
      assert honest ==> HonestPage(page, offset, fileSize, extents);
      if batch.Err? {
        assert !honest;
        return batch;
      }
      if honest {
        CollectPage(collected, page, offset, fileSize, extents, batch.value);
      }
      collected := collected + batch.value;
      if !page.more {
        settled := fileSize as int;
        break;
      }
      EmptyCoversNothing(batch.value, offset as int, fileSize as int, 0);
      var next := EndOf(batch.value[|batch.value| - 1]);
      assert offset < next;
      settled := next as int;
      if next >= fileSize {
        break;
      }
      offset := next;
    }
    r := FinishCollection(fileSize, collected);
    if honest {
      CollectedIsNormalForm(collected, extents, fileSize as int, r.value);
    }
  }

  method FinishCollection(fileSize: int64, collected: seq<Extent>) returns (r: Result<seq<Extent>>)
    requires 0 < fileSize && forall i :: 0 <= i < |collected| ==> collected[i].WellFormed()
    ensures r.Ok? && NormalForm(collected, 0, fileSize as int, r.value)
  {
    r := NormalizeAllocatedRanges(fileSize, 0, fileSize, collected);
  }

  lemma CollectedIsNormalForm(collected: seq<Extent>, extents: seq<Extent>, fileSize: int, out: seq<Extent>)
    requires CollectedUpTo(collected, extents, fileSize) && NormalForm(collected, 0, fileSize, out)
    ensures NormalForm(extents, 0, fileSize, out)
  {
  }

  /** The paged and the one-shot result are the same list. */
  lemma PagedEqualsOneShot(extents: seq<Extent>, fileSize: int64, paged: seq<Extent>, oneShot: seq<Extent>)
    requires NormalForm(extents, 0, fileSize as int, paged)
    requires NormalForm(extents, 0, fileSize as int, oneShot)
    ensures paged == oneShot
  {
    NormalFormUnique(extents, extents, 0, fileSize as int, paged, oneShot);
  }
}
