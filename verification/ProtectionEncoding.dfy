/** The byte string under the digest of `protectionRecordsSHA256` (`internal/refsworkspace/protection.go`):
    the records sorted, each behind its length in eight little-endian bytes. */
module ProtectionEncoding {
  import opened ByteStrings

  // ---------------------------------------------------------------- order

  /** Go's `<=` on strings. */
  predicate Leq(a: Bytes, b: Bytes) {
    a == [] || (b != [] && (a[0] < b[0] || (a[0] == b[0] && Leq(a[1..], b[1..]))))
  }

  lemma {:induction false} LeqTotal(a: Bytes, b: Bytes)
    ensures Leq(a, b) || Leq(b, a)
    ensures Leq(a, b) && Leq(b, a) ==> a == b
  {
    if a != [] && b != [] && a[0] == b[0] {
      LeqTotal(a[1..], b[1..]);
      assert a == [a[0]] + a[1..] && b == [b[0]] + b[1..];
    }
  }

  lemma {:induction false} LeqTransitive(a: Bytes, b: Bytes, c: Bytes)
    requires Leq(a, b) && Leq(b, c)
    ensures Leq(a, c)
  {
    if a != [] && a[0] == b[0] && b[0] == c[0] {
      LeqTransitive(a[1..], b[1..], c[1..]);
    }
  }

  /** It is the ascending order of the bytes: a prefix comes first, and otherwise the first byte that differs
      decides. */
  lemma {:induction false} LeqIsBytewise(a: Bytes, b: Bytes)
    ensures Leq(a, b) <==> a <= b || exists k :: 0 <= k < |a| && SmallerAt(a, b, k)
  {
    if a != [] && b != [] && a[0] == b[0] {
      var x, y := a[1..], b[1..];
      LeqIsBytewise(x, y);
      assert a == [a[0]] + x && b == [b[0]] + y;
      if k :| 0 <= k < |x| && SmallerAt(x, y, k) {
        assert SmallerAt(a, b, k + 1);
      }
      if k :| 0 <= k < |a| && SmallerAt(a, b, k) {
        assert SmallerAt(x, y, k - 1);
      }
    } else if a != [] && b != [] && a[0] < b[0] {
      assert SmallerAt(a, b, 0);
    }
  }

  ghost predicate SmallerAt(a: Bytes, b: Bytes, k: int) {
    0 <= k < |a| && k < |b| && a[k] < b[k] && forall i :: 0 <= i < k ==> a[i] == b[i]
  }

  ghost predicate Sorted(records: seq<Bytes>) {
    forall i, j :: 0 <= i <= j < |records| ==> Leq(records[i], records[j])
  }

  // ---------------------------------------------------------------- sorting

  function Insert(x: Bytes, records: seq<Bytes>): seq<Bytes> {
    if records == [] || Leq(x, records[0]) then [x] + records else [records[0]] + Insert(x, records[1..])
  }

  function SortStrings(records: seq<Bytes>): seq<Bytes> {
    if records == [] then [] else Insert(records[0], SortStrings(records[1..]))
  }

  lemma {:induction false} InsertElements(x: Bytes, records: seq<Bytes>)
    ensures multiset(Insert(x, records)) == multiset(records) + multiset{x}
  {
    if records != [] && !Leq(x, records[0]) {
      InsertElements(x, records[1..]);
      assert records == [records[0]] + records[1..];
    }
  }

  ghost predicate AllAbove(x: Bytes, records: seq<Bytes>) {
    forall r :: r in multiset(records) ==> Leq(x, r)
  }

  lemma SortedCons(x: Bytes, records: seq<Bytes>)
    requires Sorted(records) && AllAbove(x, records)
    ensures Sorted([x] + records)
  {
    LeqTotal(x, x);
    forall i | 0 <= i < |records|
      ensures Leq(x, records[i])
    {
      assert records[i] in multiset(records);
    }
  }

  lemma SortedTail(records: seq<Bytes>)
    requires Sorted(records) && records != []
    ensures Sorted(records[1..]) && AllAbove(records[0], records)
  {
  }

  lemma {:induction false} InsertSorted(x: Bytes, records: seq<Bytes>)
    requires Sorted(records)
    ensures Sorted(Insert(x, records))
  {
    if records == [] {
      SortedCons(x, records);
      return;
    }
    var first, rest := records[0], records[1..];
    SortedTail(records);
    if Leq(x, first) {
      forall r | r in multiset(records)
        ensures Leq(x, r)
      {
        LeqTransitive(x, first, r);
      }
      SortedCons(x, records);
    } else {
      LeqTotal(x, first);
      InsertSorted(x, rest);
      InsertElements(x, rest);
      assert records == [first] + rest;
      assert AllAbove(first, Insert(x, rest));
      SortedCons(first, Insert(x, rest));
    }
  }

  lemma {:induction false} SortStringsSorts(records: seq<Bytes>)
    ensures Sorted(SortStrings(records)) && multiset(SortStrings(records)) == multiset(records)
  {
    if records != [] {
      SortStringsSorts(records[1..]);
      InsertSorted(records[0], SortStrings(records[1..]));
      InsertElements(records[0], SortStrings(records[1..]));
      assert records == [records[0]] + records[1..];
    }
  }

  lemma TailElements(records: seq<Bytes>)
    requires records != []
    ensures multiset(records[1..]) == multiset(records) - multiset{records[0]}
    ensures records == [records[0]] + records[1..]
  {
    assert records == [records[0]] + records[1..];
  }

  /** A multiset has one sorted listing. */
  lemma {:induction false} SortedUnique(a: seq<Bytes>, b: seq<Bytes>)
    requires Sorted(a) && Sorted(b) && multiset(a) == multiset(b)
    ensures a == b
  {
    if a == [] {
      assert |multiset(b)| == 0;
    } else {
      assert a[0] in multiset(b);
      SortedTail(a);
      SortedTail(b);
      assert b[0] in multiset(a);
      LeqTotal(a[0], b[0]);
      TailElements(a);
      TailElements(b);
      SortedUnique(a[1..], b[1..]);
    }
  }

  // ---------------------------------------------------------------- encoding

  /** The low `width` bytes of `n`, least significant first; higher ones are lost. */
  function LittleEndian(n: nat, width: nat): (r: Bytes)
    ensures |r| == width
  {
    if width == 0 then [] else [(n % 256) as byte] + LittleEndian(n / 256, width - 1)
  }

  function FromLittleEndian(bytes: Bytes): nat {
    if bytes == [] then 0 else bytes[0] as nat + 256 * FromLittleEndian(bytes[1..])
  }

  function Power256(width: nat): (p: nat)
    ensures p > 0
  {
    if width == 0 then 1 else 256 * Power256(width - 1)
  }

  lemma {:induction false} LittleEndianRoundTrip(n: nat, width: nat)
    requires n < Power256(width)
    ensures FromLittleEndian(LittleEndian(n, width)) == n
  {
    if width > 0 {
      LittleEndianRoundTrip(n / 256, width - 1);
      assert LittleEndian(n, width)[1..] == LittleEndian(n / 256, width - 1);
    }
  }

  /** Go's `int` bounds every string length. */
  ghost predicate Encodable(records: seq<Bytes>) {
    forall i :: 0 <= i < |records| ==> |records[i]| < 0x8000_0000_0000_0000
  }

  function Frame(record: Bytes): Bytes { LittleEndian(|record|, 8) + record }

  function Encode(records: seq<Bytes>): Bytes {
    if records == [] then [] else Frame(records[0]) + Encode(records[1..])
  }

  lemma EightBytesSuffice(record: Bytes)
    requires |record| < 0x8000_0000_0000_0000
    ensures FromLittleEndian(LittleEndian(|record|, 8)) == |record|
  {
    assert Power256(4) == 0x1_0000_0000;
    assert Power256(8) == 0x1_0000_0000_0000_0000;
    LittleEndianRoundTrip(|record|, 8);
  }

  /** A frame shows where it ends. */
  lemma FrameSplits(a: Bytes, b: Bytes, restA: Bytes, restB: Bytes)
    requires |a| < 0x8000_0000_0000_0000 && |b| < 0x8000_0000_0000_0000
    requires Frame(a) + restA == Frame(b) + restB
    ensures a == b && restA == restB
  {
    EightBytesSuffice(a);
    EightBytesSuffice(b);
    var whole := Frame(a) + restA;
    assert whole[..8] == LittleEndian(|a|, 8);
    assert (Frame(b) + restB)[..8] == LittleEndian(|b|, 8);
    assert whole[8..8 + |a|] == a && (Frame(b) + restB)[8..8 + |b|] == b;
    assert whole[8 + |a|..] == restA && (Frame(b) + restB)[8 + |b|..] == restB;
  }

  lemma {:induction false} EncodeInjective(a: seq<Bytes>, b: seq<Bytes>)
    requires Encodable(a) && Encodable(b) && Encode(a) == Encode(b)
    ensures a == b
  {
    if a != [] && b != [] {
      FrameSplits(a[0], b[0], Encode(a[1..]), Encode(b[1..]));
      EncodeInjective(a[1..], b[1..]);
      assert a == [a[0]] + a[1..] && b == [b[0]] + b[1..];
    }
  }

  function CanonicalBytes(records: seq<Bytes>): Bytes { Encode(SortStrings(records)) }

  lemma SortedEncodable(records: seq<Bytes>)
    requires Encodable(records)
    ensures Encodable(SortStrings(records))
  {
    SortStringsSorts(records);
    forall i | 0 <= i < |SortStrings(records)|
      ensures |SortStrings(records)[i]| < 0x8000_0000_0000_0000
    {
      assert SortStrings(records)[i] in multiset(records);
    }
  }

  /** The digest input identifies the records up to their order, duplicates counted. */
  lemma CanonicalBytesIff(a: seq<Bytes>, b: seq<Bytes>)
    requires Encodable(a) && Encodable(b)
    ensures CanonicalBytes(a) == CanonicalBytes(b) <==> multiset(a) == multiset(b)
  {
    SortStringsSorts(a);
    SortStringsSorts(b);
    if multiset(a) == multiset(b) {
      SortedUnique(SortStrings(a), SortStrings(b));
    }
    if CanonicalBytes(a) == CanonicalBytes(b) {
      SortedEncodable(a);
      SortedEncodable(b);
      EncodeInjective(SortStrings(a), SortStrings(b));
    }
  }

  lemma {:induction false} EncodeSnoc(records: seq<Bytes>, record: Bytes)
    ensures Encode(records + [record]) == Encode(records) + Frame(record)
  {
    if records == [] {
      assert [record][1..] == [];
    } else {
      assert (records + [record])[1..] == records[1..] + [record];
      EncodeSnoc(records[1..], record);
    }
  }

  /** Sorts the caller's slice in place, then writes one frame per record. */
  method WriteCanonical(records: array<Bytes>) returns (canonical: Bytes)
    modifies records
    ensures records[..] == SortStrings(old(records[..]))
    ensures canonical == CanonicalBytes(old(records[..]))
  {
    ghost var before := records[..];
    SortInPlace(records);
    canonical := [];
    for i := 0 to records.Length
      invariant records[..] == SortStrings(before)
      invariant canonical == Encode(records[..i])
    {
      EncodeSnoc(records[..i], records[i]);
      assert records[..i + 1] == records[..i] + [records[i]];
      canonical := canonical + LittleEndian(|records[i]|, 8) + records[i];
      assert canonical == Encode(records[..i]) + Frame(records[i]);
    }
    assert records[..records.Length] == records[..];
  }

  /** `sort.Strings`. */
  method SortInPlace(records: array<Bytes>)
    modifies records
    ensures records[..] == SortStrings(old(records[..]))
  {
    var sorted := SortStrings(records[..]);
    SortKeepsLength(records[..]);
    forall i | 0 <= i < records.Length {
      records[i] := sorted[i];
    }
  }

  lemma SortKeepsLength(records: seq<Bytes>)
    ensures |SortStrings(records)| == |records|
  {
    SortStringsSorts(records);
    assert |multiset(SortStrings(records))| == |multiset(records)|;
  }
}
