/** The polling tails of append-only NDJSON files (`internal/ipc/reader.go`, `internal/bridge/client.go`):
    each poll re-opens the file at a byte offset that is advanced by `len(line) + 1` per scanned line. */
module BusTail {
  import opened Leases
  import opened ByteStrings

  const LF: byte := 10
  const CR: byte := 13

  /** The scanner's buffer: a line needs room for itself and one more byte. */
  const LINE_LIMIT: int := 0x10_0000

  // ---------------------------------------------------------------- line feeds

  ghost predicate NoFeed(f: Bytes, a: nat, k: nat)
    requires k <= |f|
  {
    forall i :: a <= i < k ==> f[i] != LF
  }

  ghost predicate IsNextFeed(f: Bytes, a: nat, c: nat, k: nat)
    requires c <= |f|
  {
    a <= k <= c && (k < c ==> f[k] == LF) && NoFeed(f, a, k)
  }

  method FindFeed(f: Bytes, a: nat, c: nat) returns (k: nat)
    requires a <= c <= |f|
    ensures IsNextFeed(f, a, c, k)
  {
    k := a;
    while k < c && f[k] != LF
      invariant a <= k <= c && NoFeed(f, a, k)
    {
      k := k + 1;
    }
  }

  lemma {:induction false} SomeNextFeed(f: Bytes, a: nat, c: nat)
    requires a <= c <= |f|
    ensures exists k: nat :: IsNextFeed(f, a, c, k)
    decreases c - a
  {
    if a == c || f[a] == LF {
      assert IsNextFeed(f, a, c, a);
    } else {
      SomeNextFeed(f, a + 1, c);
      var k: nat :| IsNextFeed(f, a + 1, c, k);
      assert IsNextFeed(f, a, c, k);
    }
  }

  /** The next line feed in `f[a..c]`, or the end. */
  ghost function NextFeed(f: Bytes, a: nat, c: nat): (k: nat)
    requires a <= c <= |f|
    ensures IsNextFeed(f, a, c, k)
  {
    SomeNextFeed(f, a, c);
    var k: nat :| IsNextFeed(f, a, c, k);
    k
  }

  lemma OneNextFeed(f: Bytes, a: nat, c: nat, k: nat)
    requires a <= c <= |f| && IsNextFeed(f, a, c, k)
    ensures NextFeed(f, a, c) == k
  {
  }

  lemma NextFeedShort(f: Bytes, a: nat, b: nat, c: nat)
    requires a <= b <= c <= |f|
    ensures NextFeed(f, a, b) == if NextFeed(f, a, c) < b then NextFeed(f, a, c) else b
  {
    var k := NextFeed(f, a, c);
    assert NoFeed(f, a, k);
    OneNextFeed(f, a, b, if k < b then k else b);
  }

  lemma NextFeedFrom(f: Bytes, a: nat, b: nat, c: nat)
    requires a <= b <= c <= |f| && b <= NextFeed(f, a, c)
    ensures NextFeed(f, b, c) == NextFeed(f, a, c)
  {
    assert NoFeed(f, a, NextFeed(f, a, c));
    OneNextFeed(f, b, c, NextFeed(f, a, c));
  }

  /** A last line without its line feed. */
  predicate Open(f: Bytes, a: nat, c: nat)
    requires a <= c <= |f|
  {
    a < c && f[c - 1] != LF
  }

  lemma NoFeedIsOpen(f: Bytes, a: nat, c: nat)
    requires a < c <= |f| && NextFeed(f, a, c) == c
    ensures Open(f, a, c)
  {
    assert NoFeed(f, a, c);
  }

  // ---------------------------------------------------------------- lines

  function DropCR(line: Bytes): Bytes {
    if line != [] && line[|line| - 1] == CR then line[..|line| - 1] else line
  }

  /** The bytes `f[a..k]`. */
  ghost function Text(f: Bytes, a: nat, k: nat): (t: Bytes)
    requires a <= k <= |f|
    ensures |t| == k - a
    decreases k - a
  {
    if a == k then [] else Text(f, a, k - 1) + [f[k - 1]]
  }

  lemma {:induction false} TextIsSlice(f: Bytes, a: nat, k: nat)
    requires a <= k <= |f|
    ensures Text(f, a, k) == f[a..k]
    decreases k - a
  {
    if a < k {
      TextIsSlice(f, a, k - 1);
      assert f[a..k] == f[a..k - 1] + [f[k - 1]];
    }
  }

  /** Where a line that ends at `k` ends without its carriage return. */
  function Trim(f: Bytes, a: nat, k: nat): (e: nat)
    requires a <= k <= |f|
    ensures a <= e <= k <= e + 1
  {
    if a < k && f[k - 1] == CR then k - 1 else k
  }

  lemma LastOf(init: Bytes, x: byte)
    ensures DropCR(init + [x]) == if x == CR then init else init + [x]
  {
    assert (init + [x])[..|init|] == init;
  }

  lemma DropCRTrims(f: Bytes, a: nat, k: nat)
    requires a <= k <= |f|
    ensures DropCR(f[a..k]) == Text(f, a, Trim(f, a, k))
  {
    TextIsSlice(f, a, Trim(f, a, k));
    if a < k {
      LastOf(f[a..k - 1], f[k - 1]);
      assert f[a..k] == f[a..k - 1] + [f[k - 1]];
    }
  }

  function Past(k: nat, c: nat): nat { if k < c then k + 1 else c }

  /** Where the line behind the first one starts. */
  ghost function Second(f: Bytes, a: nat, c: nat): (b: nat)
    requires a < c <= |f|
    ensures a < b <= c
  {
    Past(NextFeed(f, a, c), c)
  }

  ghost function FirstEnd(f: Bytes, a: nat, c: nat): (e: nat)
    requires a < c <= |f|
    ensures a <= e <= c
  {
    Trim(f, a, NextFeed(f, a, c))
  }

  /** The lines of `f[a..c]`, without line feeds and the carriage returns before them. */
  ghost function LinesIn(f: Bytes, a: nat, c: nat): seq<Bytes>
    requires a <= c <= |f|
    decreases c - a
  {
    if a == c then [] else [Text(f, a, FirstEnd(f, a, c))] + LinesIn(f, Second(f, a, c), c)
  }

  /** What these lines add to the offset: the length of each, and one. */
  ghost function Advance(f: Bytes, a: nat, c: nat): nat
    requires a <= c <= |f|
    decreases c - a
  {
    if a == c then 0 else FirstEnd(f, a, c) - a + 1 + Advance(f, Second(f, a, c), c)
  }

  /** How many of them lost a carriage return. */
  ghost function CRLines(f: Bytes, a: nat, c: nat): nat
    requires a <= c <= |f|
    decreases c - a
  {
    if a == c then 0 else NextFeed(f, a, c) - FirstEnd(f, a, c) + CRLines(f, Second(f, a, c), c)
  }

  /** Where a scan of `f[a..c]` ends: at the end, or in front of a line too long for the buffer. */
  ghost function Reach(f: Bytes, a: nat, c: nat): (p: nat)
    requires a <= c <= |f|
    ensures a <= p <= c
    decreases c - a
  {
    if a == c then a else if NextFeed(f, a, c) - a >= LINE_LIMIT then a else Reach(f, Second(f, a, c), c)
  }

  /** The lines of a file as one scan yields them. */
  ghost function Lines(f: Bytes): seq<Bytes> { LinesIn(f, 0, Reach(f, 0, |f|)) }

  lemma SecondShort(f: Bytes, a: nat, b: nat, c: nat)
    requires a < b <= c <= |f| && NextFeed(f, a, b) < b
    ensures NextFeed(f, a, c) == NextFeed(f, a, b) && Second(f, a, c) == Second(f, a, b) && FirstEnd(f, a, c) == FirstEnd(f, a, b)
  {
    NextFeedShort(f, a, b, c);
  }

  lemma OnlyLine(f: Bytes, a: nat, c: nat)
    requires a < c <= |f| && NextFeed(f, a, c) == c
    ensures Open(f, a, c) && Second(f, a, c) == c && FirstEnd(f, a, c) == Trim(f, a, c)
    ensures LinesIn(f, a, c) == [Text(f, a, Trim(f, a, c))] && CRLines(f, a, c) == c - Trim(f, a, c)
    ensures Advance(f, a, c) == Trim(f, a, c) - a + 1
    ensures c - a < LINE_LIMIT ==> Reach(f, a, c) == c
  {
    NoFeedIsOpen(f, a, c);
  }

  /** Cutting behind a line feed cuts the lines in two. */
  lemma {:induction false} LinesSplit(f: Bytes, a: nat, b: nat, c: nat)
    requires a <= b <= c <= |f| && !Open(f, a, b)
    ensures LinesIn(f, a, c) == LinesIn(f, a, b) + LinesIn(f, b, c)
    decreases b - a
  {
    if a < b {
      LastFed(f, a, b);
      SecondShort(f, a, b, c);
      LinesSplit(f, Second(f, a, b), b, c);
    }
  }

  lemma LastFed(f: Bytes, a: nat, b: nat)
    requires a < b <= |f| && !Open(f, a, b)
    ensures NextFeed(f, a, b) < b && !Open(f, Second(f, a, b), b)
  {
    if NextFeed(f, a, b) == b {
      NoFeedIsOpen(f, a, b);
    }
  }

  lemma {:induction false} NumbersSplit(f: Bytes, a: nat, b: nat, c: nat)
    requires a <= b <= c <= |f| && !Open(f, a, b)
    ensures CRLines(f, a, c) == CRLines(f, a, b) + CRLines(f, b, c)
    ensures Advance(f, a, c) == Advance(f, a, b) + Advance(f, b, c)
    decreases b - a
  {
    if a < b {
      LastFed(f, a, b);
      SecondShort(f, a, b, c);
      NumbersSplit(f, Second(f, a, b), b, c);
    }
  }

  /** How far the offset is off: one byte short for every line with a carriage return, one byte past the
      end for an unterminated last line. */
  lemma {:induction false} OffsetError(f: Bytes, a: nat, c: nat)
    requires a <= c <= |f|
    ensures Advance(f, a, c) + CRLines(f, a, c) == c - a + if Open(f, a, c) then 1 else 0
    decreases c - a
  {
    if a < c {
      if NextFeed(f, a, c) == c {
        OnlyLine(f, a, c);
      } else {
        OffsetError(f, Second(f, a, c), c);
      }
    }
  }

  // ---------------------------------------------------------------- where a scan ends

  lemma {:induction false} StopsInFront(f: Bytes, a: nat, c: nat)
    requires a <= c <= |f| && Reach(f, a, c) < c
    ensures !Open(f, a, Reach(f, a, c)) && Reach(f, Reach(f, a, c), c) == Reach(f, a, c)
    decreases c - a
  {
    if NextFeed(f, a, c) - a < LINE_LIMIT {
      StopsInFront(f, Second(f, a, c), c);
    }
  }

  lemma {:induction false} ReachOn(f: Bytes, a: nat, b: nat, c: nat)
    requires a <= b <= c <= |f| && !Open(f, a, b) && Reach(f, a, b) == b
    ensures Reach(f, a, c) == Reach(f, b, c)
    decreases b - a
  {
    if a < b {
      LastFed(f, a, b);
      SecondShort(f, a, b, c);
      ReachOn(f, Second(f, a, b), b, c);
    }
  }

  lemma {:induction false} ReachStays(f: Bytes, a: nat, b: nat, c: nat)
    requires a <= b <= c <= |f| && Reach(f, a, b) < b
    ensures Reach(f, a, c) == Reach(f, a, b)
    decreases b - a
  {
    NextFeedShort(f, a, b, c);
    if NextFeed(f, a, b) - a < LINE_LIMIT {
      if NextFeed(f, a, b) == b {
        OnlyLine(f, a, b);
      }
      SecondShort(f, a, b, c);
      ReachStays(f, Second(f, a, b), b, c);
    }
  }

  /** A scan that starts later ends no earlier. */
  lemma {:induction false} ReachGrows(f: Bytes, a: nat, b: nat, c: nat)
    requires a <= b <= c <= |f|
    ensures Reach(f, a, c) <= Reach(f, b, c)
    decreases b - a
  {
    if a < b && NextFeed(f, a, c) - a < LINE_LIMIT {
      if NextFeed(f, a, c) < b {
        ReachGrows(f, Second(f, a, c), b, c);
      } else {
        NextFeedFrom(f, a, b, c);
      }
    }
  }

  // ---------------------------------------------------------------- one more byte

  /** An unterminated last line is already yielded; its line feed adds nothing. */
  lemma {:induction false} ClosingFeed(f: Bytes, a: nat, b: nat)
    requires a <= b < |f| && Open(f, a, b) && f[b] == LF
    ensures LinesIn(f, a, b + 1) == LinesIn(f, a, b)
    decreases b - a
  {
    NextFeedShort(f, a, b, b + 1);
    if NextFeed(f, a, b) < b {
      SecondShort(f, a, b, b + 1);
      ClosingFeed(f, Second(f, a, b), b);
    } else {
      FedLine(f, a, b);
      OnlyLine(f, a, b);
    }
  }

  lemma {:induction false} ClosingFeedNumbers(f: Bytes, a: nat, b: nat)
    requires a <= b < |f| && Open(f, a, b) && f[b] == LF
    ensures CRLines(f, a, b + 1) == CRLines(f, a, b) && (Reach(f, a, b) == b ==> Reach(f, a, b + 1) == b + 1)
    decreases b - a
  {
    NextFeedShort(f, a, b, b + 1);
    if NextFeed(f, a, b) < b {
      SecondShort(f, a, b, b + 1);
      ClosingFeedNumbers(f, Second(f, a, b), b);
    } else {
      FedLine(f, a, b);
      OnlyLine(f, a, b);
    }
  }

  lemma FedLine(f: Bytes, a: nat, b: nat)
    requires a <= b < |f| && NextFeed(f, a, b + 1) == b
    ensures Second(f, a, b + 1) == b + 1 && FirstEnd(f, a, b + 1) == Trim(f, a, b)
    ensures LinesIn(f, a, b + 1) == [Text(f, a, Trim(f, a, b))] && CRLines(f, a, b + 1) == b - Trim(f, a, b)
  {
  }

  /** A last carriage return is dropped from the line. */
  lemma {:induction false} ClosingReturn(f: Bytes, a: nat, b: nat)
    requires a <= b < |f| && Open(f, a, b) && f[b] == CR && CRLines(f, a, b) == 0
    ensures LinesIn(f, a, b + 1) == LinesIn(f, a, b) && CRLines(f, a, b + 1) == 1
    decreases b - a
  {
    NextFeedShort(f, a, b, b + 1);
    if NextFeed(f, a, b) < b {
      SecondShort(f, a, b, b + 1);
      FirstAndRest(f, a, b);
      ClosingReturn(f, Second(f, a, b), b);
      ReturnLater(f, a, b);
    } else {
      ReturnInLine(f, a, b);
    }
  }

  lemma ReturnLater(f: Bytes, a: nat, b: nat)
    requires a < b < |f| && Second(f, a, b) <= b && NextFeed(f, a, b + 1) == NextFeed(f, a, b)
    requires Second(f, a, b + 1) == Second(f, a, b) && FirstEnd(f, a, b + 1) == FirstEnd(f, a, b) && CRLines(f, a, b) == 0
    requires LinesIn(f, Second(f, a, b), b + 1) == LinesIn(f, Second(f, a, b), b) && CRLines(f, Second(f, a, b), b + 1) == 1
    ensures LinesIn(f, a, b + 1) == LinesIn(f, a, b) && CRLines(f, a, b + 1) == 1
  {
    FirstAndRest(f, a, b);
    FirstAndRest(f, a, b + 1);
  }

  lemma FirstAndRest(f: Bytes, a: nat, c: nat)
    requires a < c <= |f|
    ensures LinesIn(f, a, c) == [Text(f, a, FirstEnd(f, a, c))] + LinesIn(f, Second(f, a, c), c)
    ensures CRLines(f, a, c) == NextFeed(f, a, c) - FirstEnd(f, a, c) + CRLines(f, Second(f, a, c), c)
  {
  }

  lemma ReturnInLine(f: Bytes, a: nat, b: nat)
    requires a < b < |f| && f[b] == CR && NextFeed(f, a, b) == b && NextFeed(f, a, b + 1) == b + 1 && CRLines(f, a, b) == 0
    ensures LinesIn(f, a, b + 1) == LinesIn(f, a, b) && CRLines(f, a, b + 1) == 1
  {
    OnlyLine(f, a, b);
    OnlyLine(f, a, b + 1);
    assert Trim(f, a, b) == b && Trim(f, a, b + 1) == b;
  }

  /** Any other byte makes the last line longer. */
  lemma {:induction false} OtherByte(f: Bytes, a: nat, b: nat)
    requires a <= b < |f| && Open(f, a, b) && f[b] != LF && f[b] != CR && CRLines(f, a, b) == 0
    ensures LinesIn(f, a, b + 1) != LinesIn(f, a, b)
    decreases b - a
  {
    NextFeedShort(f, a, b, b + 1);
    if NextFeed(f, a, b) < b {
      SecondShort(f, a, b, b + 1);
      FirstAndRest(f, a, b);
      OtherByte(f, Second(f, a, b), b);
      OtherByteLater(f, a, b);
    } else {
      OtherByteInLine(f, a, b);
    }
  }

  lemma OtherByteInLine(f: Bytes, a: nat, b: nat)
    requires a < b < |f| && f[b] != CR && NextFeed(f, a, b) == b && NextFeed(f, a, b + 1) == b + 1 && CRLines(f, a, b) == 0
    ensures LinesIn(f, a, b + 1) != LinesIn(f, a, b)
  {
    OnlyLine(f, a, b);
    OnlyLine(f, a, b + 1);
    assert Trim(f, a, b) == b && Trim(f, a, b + 1) == b + 1;
    DifferentLengths(Text(f, a, b + 1), Text(f, a, b));
  }

  lemma DifferentLengths(x: Bytes, y: Bytes)
    requires |x| != |y|
    ensures [x] != [y]
  {
    assert [x][0] == x && [y][0] == y;
  }

  lemma OtherByteLater(f: Bytes, a: nat, b: nat)
    requires a < b < |f| && Second(f, a, b) <= b && Second(f, a, b + 1) == Second(f, a, b) && FirstEnd(f, a, b + 1) == FirstEnd(f, a, b)
    requires LinesIn(f, Second(f, a, b), b + 1) != LinesIn(f, Second(f, a, b), b)
    ensures LinesIn(f, a, b + 1) != LinesIn(f, a, b)
  {
    FirstAndRest(f, a, b);
    FirstAndRest(f, a, b + 1);
    DifferBehind(Text(f, a, FirstEnd(f, a, b)), LinesIn(f, Second(f, a, b), b + 1), LinesIn(f, Second(f, a, b), b));
  }

  lemma DifferBehind(line: Bytes, x: seq<Bytes>, y: seq<Bytes>)
    requires x != y
    ensures [line] + x != [line] + y
  {
    assert ([line] + x)[1..] == x && ([line] + y)[1..] == y;
  }

  // ---------------------------------------------------------------- counting lines

  ghost function Count(f: Bytes, a: nat, c: nat): nat
    requires a <= c <= |f|
  {
    |LinesIn(f, a, c)|
  }

  lemma SomeLine(f: Bytes, a: nat, c: nat)
    requires a < c <= |f|
    ensures Count(f, a, c) == 1 + Count(f, Second(f, a, c), c)
  {
  }

  /** A cut gains one line when it falls inside a line, and costs none. */
  lemma {:induction false} CutCount(f: Bytes, a: nat, b: nat, c: nat)
    requires a <= b <= c <= |f|
    ensures Count(f, a, c) + (if Open(f, a, b) && b < c then 1 else 0) == Count(f, a, b) + Count(f, b, c)
    decreases b - a
  {
    if a < b {
      NextFeedShort(f, a, b, c);
      if NextFeed(f, a, c) < b {
        SomeLine(f, a, b);
        SomeLine(f, a, c);
        CutCount(f, Second(f, a, c), b, c);
      } else {
        CutInFirst(f, a, b, c);
      }
    }
  }

  lemma CutInFirst(f: Bytes, a: nat, b: nat, c: nat)
    requires a < b <= c <= |f| && b <= NextFeed(f, a, c)
    ensures Open(f, a, b) && Count(f, a, b) == 1 && (b < c ==> Count(f, a, c) == Count(f, b, c))
  {
    NextFeedShort(f, a, b, c);
    OnlyLine(f, a, b);
    NextFeedFrom(f, a, b, c);
    if b < c {
      SomeLine(f, a, c);
      SomeLine(f, b, c);
    }
  }

  lemma CountGrows(f: Bytes, a: nat, b: nat, c: nat)
    requires a <= b <= c <= |f|
    ensures Count(f, a, b) <= Count(f, a, c)
    ensures b < c && !Open(f, a, b) ==> Count(f, a, b) < Count(f, a, c)
  {
    CutCount(f, a, b, c);
    if b < c {
      SomeLine(f, b, c);
    }
  }

  /** An open line with one more byte is still one line. */
  lemma StillOneLine(f: Bytes, a: nat, b: nat)
    requires a <= b < |f| && Open(f, a, b)
    ensures Count(f, a, b + 1) == Count(f, a, b)
  {
    CutCount(f, a, b, b + 1);
    OneByte(f, b);
  }

  lemma OneByte(f: Bytes, b: nat)
    requires b < |f|
    ensures Count(f, b, b + 1) == 1
  {
    SomeLine(f, b, b + 1);
    assert Second(f, b, b + 1) == b + 1;
  }

  // ---------------------------------------------------------------- polls

  /** The offset, the lines handed on so far, and whether the scan gave up on a line. */
  datatype Tail = Tail(offset: nat, lines: seq<Bytes>, failed: bool)

  /** One scan of a file's first `m` bytes. On a line that is too long the strict reader keeps its old offset
      and stops; the progress reader goes on behind the lines it got. */
  ghost function Scan(t: Tail, f: Bytes, m: nat, strict: bool): Tail
    requires m <= |f|
  {
    if t.offset > m then t
    else
      var p := Reach(f, t.offset, m);
      if strict && p < m then Tail(t.offset, t.lines + LinesIn(f, t.offset, p), true)
      else Tail(t.offset + Advance(f, t.offset, p), t.lines + LinesIn(f, t.offset, p), false)
  }

  /** One poll. A missing file changes nothing. */
  ghost function Drain(t: Tail, poll: Option<Bytes>, strict: bool): Tail {
    if t.failed || poll == None then t else Scan(t, poll.value, |poll.value|, strict)
  }

  ghost function DrainAll(polls: seq<Option<Bytes>>, strict: bool): Tail {
    if polls == [] then Tail(0, [], false)
    else Drain(DrainAll(polls[..|polls| - 1], strict), polls[|polls| - 1], strict)
  }

  /** The size of the file at its last sighting. */
  function LastSize(polls: seq<Option<Bytes>>): nat {
    if polls == [] then 0 else
      match polls[|polls| - 1]
      case None => LastSize(polls[..|polls| - 1])
      case Some(s) => |s|
  }

  /** Every poll sees a prefix of `file`, and the file never shrinks. */
  ghost predicate AppendOnly(polls: seq<Option<Bytes>>, file: Bytes) {
    polls == [] ||
    (var init, last := polls[..|polls| - 1], polls[|polls| - 1];
     AppendOnly(init, file) && (last.Some? ==> last.value <= file && LastSize(init) <= |last.value|))
  }

  lemma NextFeedAgrees(d: Bytes, f: Bytes, a: nat, c: nat)
    requires a <= c <= |d| && d <= f
    ensures NextFeed(d, a, c) == NextFeed(f, a, c)
  {
    var k := NextFeed(d, a, c);
    assert NoFeed(d, a, k);
    assert NoFeed(f, a, k);
    OneNextFeed(f, a, c, k);
  }

  lemma FirstAgrees(d: Bytes, f: Bytes, a: nat, c: nat)
    requires a < c <= |d| && d <= f
    ensures NextFeed(d, a, c) == NextFeed(f, a, c) && Second(d, a, c) == Second(f, a, c) && FirstEnd(d, a, c) == FirstEnd(f, a, c)
  {
    NextFeedAgrees(d, f, a, c);
  }

  lemma {:induction false} TextAgrees(d: Bytes, f: Bytes, a: nat, k: nat)
    requires a <= k <= |d| && d <= f
    ensures Text(d, a, k) == Text(f, a, k)
    decreases k - a
  {
    if a < k {
      TextAgrees(d, f, a, k - 1);
    }
  }

  /** A snapshot reads like that part of the file. */
  lemma {:induction false} LinesAgree(d: Bytes, f: Bytes, a: nat, c: nat)
    requires a <= c <= |d| && d <= f
    ensures LinesIn(d, a, c) == LinesIn(f, a, c) && Advance(d, a, c) == Advance(f, a, c)
    decreases c - a
  {
    if a < c {
      FirstAgrees(d, f, a, c);
      TextAgrees(d, f, a, FirstEnd(d, a, c));
      LinesAgree(d, f, Second(d, a, c), c);
    }
  }

  lemma {:induction false} ReachAgrees(d: Bytes, f: Bytes, a: nat, c: nat)
    requires a <= c <= |d| && d <= f
    ensures Reach(d, a, c) == Reach(f, a, c)
    decreases c - a
  {
    if a < c {
      FirstAgrees(d, f, a, c);
      ReachAgrees(d, f, Second(d, a, c), c);
    }
  }

  lemma DrainIsScan(t: Tail, f: Bytes, d: Bytes, strict: bool)
    requires d <= f && !t.failed
    ensures Drain(t, Some(d), strict) == Scan(t, f, |d|, strict)
  {
    if t.offset <= |d| {
      ReachAgrees(d, f, t.offset, |d|);
      LinesAgree(d, f, t.offset, Reach(d, t.offset, |d|));
    }
  }

  // ---------------------------------------------------------------- harmless polls

  /** What a poll that saw `n` bytes must be like, if another poll follows. Scanned lines must not have lost
      a carriage return, for each makes the offset fall short; and a poll may end behind a line feed,
      directly before one, before a last carriage return, or at the very end. There the byte an
      unterminated line counts too much even makes up for one carriage return. A line that is too long ends
      the strict reader, and stops the other one where it is. */
  ghost predicate HarmlessCut(f: Bytes, n: nat, strict: bool)
    requires n <= |f|
  {
    var p := Reach(f, 0, n);
    if p < n then strict || CRLines(f, 0, p) == 0
    else if !Open(f, 0, n) then CRLines(f, 0, n) == 0
    else if n == |f| then CRLines(f, 0, n) <= 1
    else CRLines(f, 0, n) == 0 && (f[n] == LF || (n + 1 == |f| && f[n] == CR && Reach(f, 0, |f|) == |f|))
  }

  /** The tail has yielded the lines of the first `n` bytes, and its offset is what these lines add up to. */
  ghost predicate CaughtUp(t: Tail, f: Bytes, n: nat, strict: bool) {
    n <= |f| &&
    (var p := Reach(f, 0, n);
     && t.lines == LinesIn(f, 0, p) && (t.failed <==> strict && p < n)
     && (!t.failed ==> t.offset == Advance(f, 0, p)))
  }

  lemma FromBoundary(t: Tail, f: Bytes, n: nat, m: nat, strict: bool)
    requires n <= m <= |f| && !Open(f, 0, n) && Reach(f, 0, n) == n && CRLines(f, 0, n) == 0
    requires t == Tail(n, LinesIn(f, 0, n), false)
    ensures CaughtUp(Scan(t, f, m, strict), f, m, strict)
  {
    OffsetError(f, 0, n);
    ReachOn(f, 0, n, m);
    LinesSplit(f, 0, n, Reach(f, n, m));
    NumbersSplit(f, 0, n, Reach(f, n, m));
  }

  /** Behind an unterminated line the offset already counts the line feed to come. */
  lemma FromFeed(t: Tail, f: Bytes, n: nat, m: nat, strict: bool)
    requires n < m <= |f| && Open(f, 0, n) && f[n] == LF && Reach(f, 0, n) == n && CRLines(f, 0, n) == 0
    requires t == Tail(n + 1, LinesIn(f, 0, n), false)
    ensures CaughtUp(Scan(t, f, m, strict), f, m, strict)
  {
    ClosingFeed(f, 0, n);
    ClosingFeedNumbers(f, 0, n);
    FromBoundary(t, f, n + 1, m, strict);
  }

  lemma FromReturn(t: Tail, f: Bytes, n: nat, strict: bool)
    requires n + 1 == |f| && Open(f, 0, n) && f[n] == CR && Reach(f, 0, n + 1) == n + 1 && CRLines(f, 0, n) == 0
    requires t == Tail(n + 1, LinesIn(f, 0, n), false)
    ensures CaughtUp(Scan(t, f, n + 1, strict), f, n + 1, strict)
  {
    ClosingReturn(f, 0, n);
    OffsetError(f, 0, n + 1);
    assert t.lines + [] == t.lines;
  }

  lemma NothingNew(t: Tail, f: Bytes, m: nat, strict: bool)
    requires m <= |f| && !t.failed && (t.offset >= m || (!strict && Reach(f, t.offset, m) == t.offset))
    ensures Scan(t, f, m, strict) == t
  {
    assert t.lines + [] == t.lines;
  }

  /** In front of a long line nothing moves any more. */
  lemma FromLongLine(t: Tail, f: Bytes, n: nat, m: nat)
    requires n <= m <= |f| && Reach(f, 0, n) < n && CRLines(f, 0, Reach(f, 0, n)) == 0 && CaughtUp(t, f, n, false)
    ensures CaughtUp(Scan(t, f, m, false), f, m, false)
  {
    StopsInFront(f, 0, n);
    OffsetError(f, 0, Reach(f, 0, n));
    ReachStays(f, 0, n, m);
    StopsInFront(f, 0, m);
    NothingNew(t, f, m, false);
  }

  lemma OpenOffset(t: Tail, f: Bytes, n: nat, strict: bool)
    requires CaughtUp(t, f, n, strict) && Open(f, 0, n) && Reach(f, 0, n) == n
    ensures !t.failed && t.lines == LinesIn(f, 0, n) && t.offset + CRLines(f, 0, n) == n + 1
  {
    OffsetError(f, 0, n);
  }

  lemma FromOpenLine(t: Tail, f: Bytes, n: nat, m: nat, strict: bool)
    requires n < m <= |f| && Open(f, 0, n) && Reach(f, 0, n) == n && CRLines(f, 0, n) == 0
    requires t == Tail(n + 1, LinesIn(f, 0, n), false)
    requires f[n] == LF || (n + 1 == |f| && f[n] == CR && Reach(f, 0, |f|) == |f|)
    ensures CaughtUp(Scan(t, f, m, strict), f, m, strict)
  {
    if f[n] == LF {
      FromFeed(t, f, n, m, strict);
    } else {
      FromReturn(t, f, n, strict);
    }
  }

  lemma ScanCatchesUp(t: Tail, f: Bytes, n: nat, m: nat, strict: bool)
    requires n <= m <= |f| && !t.failed && CaughtUp(t, f, n, strict) && HarmlessCut(f, n, strict)
    ensures CaughtUp(Scan(t, f, m, strict), f, m, strict)
  {
    if Reach(f, 0, n) < n {
      FromLongLine(t, f, n, m);
    } else if Open(f, 0, n) {
      OpenOffset(t, f, n, strict);
      if n == m {
        NothingNew(t, f, m, strict);
      } else {
        FromOpenLine(t, f, n, m, strict);
      }
    } else {
      OffsetError(f, 0, n);
      FromBoundary(t, f, n, m, strict);
    }
  }

  lemma DrainCatchesUp(t: Tail, f: Bytes, n: nat, d: Bytes, strict: bool)
    requires d <= f && n <= |d| && CaughtUp(t, f, n, strict) && HarmlessCut(f, n, strict)
    ensures CaughtUp(Drain(t, Some(d), strict), f, |d|, strict)
  {
    if t.failed {
      ReachStays(f, 0, n, |d|);
    } else {
      DrainIsScan(t, f, d, strict);
      ScanCatchesUp(t, f, n, |d|, strict);
    }
  }

  ghost predicate Followed(polls: seq<Option<Bytes>>, i: nat) {
    exists j :: i < j < |polls| && polls[j].Some?
  }

  ghost predicate HarmlessPoll(poll: Option<Bytes>, file: Bytes, strict: bool) {
    poll.Some? ==> |poll.value| <= |file| && HarmlessCut(file, |poll.value|, strict)
  }

  ghost predicate Harmless(polls: seq<Option<Bytes>>, file: Bytes, strict: bool) {
    forall i: nat :: i < |polls| && Followed(polls, i) ==> HarmlessPoll(polls[i], file, strict)
  }

  ghost predicate AllHarmless(polls: seq<Option<Bytes>>, file: Bytes, strict: bool) {
    forall i :: 0 <= i < |polls| ==> HarmlessPoll(polls[i], file, strict)
  }

  lemma HarmlessInit(polls: seq<Option<Bytes>>, file: Bytes, strict: bool)
    requires polls != [] && Harmless(polls, file, strict)
    ensures Harmless(polls[..|polls| - 1], file, strict)
    ensures polls[|polls| - 1].Some? ==> AllHarmless(polls[..|polls| - 1], file, strict)
  {
    var init := polls[..|polls| - 1];
    forall i: nat | i < |init| && (Followed(init, i) || polls[|polls| - 1].Some?)
      ensures HarmlessPoll(init[i], file, strict)
    {
      if Followed(init, i) {
        var j :| i < j < |init| && init[j].Some?;
        assert polls[j].Some?;
      }
      assert Followed(polls, i);
      assert init[i] == polls[i];
    }
  }

  lemma {:induction false} LastCutHarmless(polls: seq<Option<Bytes>>, file: Bytes, strict: bool)
    requires AllHarmless(polls, file, strict)
    ensures LastSize(polls) <= |file| && HarmlessCut(file, LastSize(polls), strict)
  {
    if polls != [] {
      var init := polls[..|polls| - 1];
      assert forall i :: 0 <= i < |init| ==> init[i] == polls[i];
      LastCutHarmless(init, file, strict);
      assert HarmlessPoll(polls[|polls| - 1], file, strict);
    }
  }

  lemma {:induction false} DrainAllCatchesUp(polls: seq<Option<Bytes>>, file: Bytes, strict: bool)
    requires AppendOnly(polls, file) && Harmless(polls, file, strict)
    ensures CaughtUp(DrainAll(polls, strict), file, LastSize(polls), strict)
  {
    if polls != [] {
      var init, last := polls[..|polls| - 1], polls[|polls| - 1];
      HarmlessInit(polls, file, strict);
      DrainAllCatchesUp(init, file, strict);
      if last.Some? {
        LastCutHarmless(init, file, strict);
        DrainCatchesUp(DrainAll(init, strict), file, LastSize(init), last.value, strict);
      }
    }
  }

  // ---------------------------------------------------------------- harmful polls

  /** What the first scan from `offset` to the end of the file would yield. */
  ghost function Pending(f: Bytes, offset: nat): nat {
    if offset <= |f| then Count(f, offset, Reach(f, offset, |f|)) else 0
  }

  /** What will have been yielded at least once the whole file has been seen. */
  ghost function Promise(t: Tail, f: Bytes): nat {
    PromiseOf(t, Pending(f, t.offset))
  }

  /** Going on from `x` yields the rest of the first `q` bytes, if it is in front of their end. */
  lemma PendingCovers(f: Bytes, a: nat, x: nat)
    requires a <= x <= |f| && x < Reach(f, a, |f|)
    ensures Count(f, x, Reach(f, a, |f|)) <= Pending(f, x)
  {
    ReachGrows(f, a, x, |f|);
    CountGrows(f, x, Reach(f, a, |f|), Reach(f, x, |f|));
  }

  /** Going on from `x` loses no line that the first part did not yield. */
  lemma PendingFrom(f: Bytes, a: nat, m: nat, x: nat)
    requires a <= m <= |f| && a <= x && (x <= m || (x == m + 1 && Open(f, a, m))) && Reach(f, a, m) == m
    ensures Pending(f, a) <= Count(f, a, m) + Pending(f, x)
  {
    var q := Reach(f, a, |f|);
    if q <= m {
      CountGrows(f, a, q, m);
    } else if x < q {
      CountTo(f, a, m, x);
      CutAt(f, a, x);
    } else {
      CountTo(f, a, m, q);
    }
  }

  lemma CountTo(f: Bytes, a: nat, m: nat, x: nat)
    requires a <= m <= |f| && a <= x <= |f| && (x <= m || (x == m + 1 && Open(f, a, m)))
    ensures Count(f, a, x) <= Count(f, a, m)
  {
    if x <= m {
      CountGrows(f, a, x, m);
    } else {
      StillOneLine(f, a, m);
    }
  }

  lemma CutAt(f: Bytes, a: nat, x: nat)
    requires a <= x <= |f| && x < Reach(f, a, |f|)
    ensures Pending(f, a) + (if Open(f, a, x) then 1 else 0) <= Count(f, a, x) + Pending(f, x)
  {
    CutCount(f, a, x, Reach(f, a, |f|));
    PendingCovers(f, a, x);
  }

  /** A scan moves on by what its lines take, and no line that it did not yield is lost. */
  lemma PendingAfter(f: Bytes, a: nat, m: nat)
    requires a <= m <= |f|
    ensures var p := Reach(f, a, m);
            Pending(f, a) <= Count(f, a, p) + if p < m then 0 else Pending(f, a + Advance(f, a, p))
  {
    if Reach(f, a, m) < m {
      ReachStays(f, a, m, |f|);
    } else {
      PendingOn(f, a, m);
    }
  }

  lemma PendingOn(f: Bytes, a: nat, m: nat)
    requires a <= m <= |f| && Reach(f, a, m) == m
    ensures Pending(f, a) <= Count(f, a, m) + Pending(f, a + Advance(f, a, m))
  {
    OffsetError(f, a, m);
    PendingFrom(f, a, m, a + Advance(f, a, m));
  }

  lemma ScanNumbers(t: Tail, f: Bytes, m: nat, strict: bool)
    requires !t.failed && t.offset <= m <= |f|
    ensures var p, u := Reach(f, t.offset, m), Scan(t, f, m, strict);
            && |u.lines| == |t.lines| + Count(f, t.offset, p) && (u.failed <==> strict && p < m)
            && (!u.failed ==> u.offset == t.offset + Advance(f, t.offset, p))
  {
  }

  ghost function PromiseOf(t: Tail, pending: nat): nat { |t.lines| + if t.failed then 0 else pending }

  lemma PromiseKept(t: Tail, f: Bytes, d: Bytes, strict: bool)
    requires d <= f
    ensures Promise(Drain(t, Some(d), strict), f) >= Promise(t, f)
  {
    if !t.failed {
      DrainIsScan(t, f, d, strict);
      if t.offset <= |d| {
        ScanPromise(t, f, |d|, strict);
      }
    }
  }

  lemma ScanPromise(t: Tail, f: Bytes, m: nat, strict: bool)
    requires !t.failed && t.offset <= m <= |f|
    ensures Promise(Scan(t, f, m, strict), f) >= Promise(t, f)
  {
    var after := t.offset + Advance(f, t.offset, Reach(f, t.offset, m));
    assert Scan(t, f, m, strict).failed || Scan(t, f, m, strict).offset == after by {
      ScanNumbers(t, f, m, strict);
    }
    assert PromiseOf(Scan(t, f, m, strict), Pending(f, after)) >= PromiseOf(t, Pending(f, t.offset)) by {
      PendingAfter(f, t.offset, m);
      ScanKeepsPromise(t, f, m, strict, Pending(f, t.offset), Pending(f, after));
    }
    SamePromise(Scan(t, f, m, strict), f, after);
    SamePromise(t, f, t.offset);
  }

  lemma SamePromise(u: Tail, f: Bytes, after: nat)
    requires u.failed || u.offset == after
    ensures Promise(u, f) == PromiseOf(u, Pending(f, after))
  {
  }

  lemma ScanKeepsPromise(t: Tail, f: Bytes, m: nat, strict: bool, before: nat, after: nat)
    requires !t.failed && t.offset <= m <= |f|
    requires var p := Reach(f, t.offset, m); before <= Count(f, t.offset, p) + if p < m then 0 else after
    ensures PromiseOf(Scan(t, f, m, strict), after) >= PromiseOf(t, before)
  {
    ScanNumbers(t, f, m, strict);
    var p := Reach(f, t.offset, m);
    Arithmetic(t, Scan(t, f, m, strict), before, after, Count(f, t.offset, p), p < m);
  }

  lemma Arithmetic(t: Tail, u: Tail, before: nat, after: nat, count: nat, long: bool)
    requires !t.failed && |u.lines| == |t.lines| + count && (u.failed ==> long) && before <= count + if long then 0 else after
    ensures PromiseOf(u, after) >= PromiseOf(t, before)
  {
  }

  lemma {:induction false} PromiseOnlyGrows(polls: seq<Option<Bytes>>, file: Bytes, k: nat, strict: bool)
    requires AppendOnly(polls, file) && k <= |polls|
    ensures Promise(DrainAll(polls, strict), file) >= Promise(DrainAll(polls[..k], strict), file)
    decreases |polls|
  {
    if k == |polls| {
      assert polls[..k] == polls;
    } else {
      var init, last := polls[..|polls| - 1], polls[|polls| - 1];
      assert init[..k] == polls[..k];
      PromiseOnlyGrows(init, file, k, strict);
      if last.Some? {
        PromiseKept(DrainAll(init, strict), file, last.value, strict);
      }
    }
  }

  /** The last sighting redeems the promise. */
  lemma {:induction false} PromiseRedeemed(polls: seq<Option<Bytes>>, file: Bytes, k: nat, strict: bool)
    requires AppendOnly(polls, file) && LastSize(polls) == |file| && 0 < k <= |polls| && Followed(polls, k - 1)
    ensures |DrainAll(polls, strict).lines| >= Promise(DrainAll(polls[..k], strict), file)
    decreases |polls|
  {
    var init, last := polls[..|polls| - 1], polls[|polls| - 1];
    assert k < |polls| && init[..k] == polls[..k];
    if last.Some? {
      assert last.value == file;
      PromiseOnlyGrows(init, file, k, strict);
    } else {
      var j :| k - 1 < j < |polls| && polls[j].Some?;
      assert init[j] == polls[j];
      assert Followed(init, k - 1);
      PromiseRedeemed(init, file, k, strict);
    }
  }

  lemma {:induction false} LinesOnlyGrow(polls: seq<Option<Bytes>>, k: nat, strict: bool)
    requires k <= |polls|
    ensures DrainAll(polls[..k], strict).lines <= DrainAll(polls, strict).lines
    decreases |polls|
  {
    if k == |polls| {
      assert polls[..k] == polls;
    } else {
      assert polls[..|polls| - 1][..k] == polls[..k];
      LinesOnlyGrow(polls[..|polls| - 1], k, strict);
    }
  }

  lemma {:induction false} AppendOnlyPrefix(polls: seq<Option<Bytes>>, file: Bytes, k: nat)
    requires AppendOnly(polls, file) && k <= |polls|
    ensures AppendOnly(polls[..k], file)
    decreases |polls|
  {
    if k < |polls| {
      assert polls[..|polls| - 1][..k] == polls[..k];
      AppendOnlyPrefix(polls[..|polls| - 1], file, k);
    } else {
      assert polls[..k] == polls;
    }
  }

  /** More lines are promised than the file has, or a wrong one was yielded. */
  ghost predicate Spoilt(t: Tail, f: Bytes) {
    Promise(t, f) > |Lines(f)| || (|t.lines| >= |Lines(f)| && t.lines != Lines(f))
  }

  lemma HarmfulCut(t: Tail, f: Bytes, n: nat, strict: bool)
    requires CaughtUp(t, f, n, strict) && !HarmlessCut(f, n, strict)
    ensures Spoilt(t, f)
  {
    if Reach(f, 0, n) < n {
      LongLineReread(t, f, n, strict);
    } else {
      OffsetError(f, 0, n);
      if Reach(f, 0, |f|) < n {
        SeenTooMuch(t, f, n, strict);
      } else if t.offset <= n {
        Reread(t, f, n, strict);
      } else {
        SkippedByte(t, f, n, strict);
      }
    }
  }

  /** In front of a long line, an offset that fell short yields lines again. */
  lemma LongLineReread(t: Tail, f: Bytes, n: nat, strict: bool)
    requires CaughtUp(t, f, n, strict) && !HarmlessCut(f, n, strict) && Reach(f, 0, n) < n
    ensures Spoilt(t, f)
  {
    var p := Reach(f, 0, n);
    StopsInFront(f, 0, n);
    ReachStays(f, 0, n, |f|);
    OffsetError(f, 0, p);
    PendingCovers(f, 0, t.offset);
    SomeLine(f, t.offset, p);
  }

  /** The poll yielded the beginning of a line that turned out too long. */
  lemma SeenTooMuch(t: Tail, f: Bytes, n: nat, strict: bool)
    requires CaughtUp(t, f, n, strict) && Reach(f, 0, n) == n && Reach(f, 0, |f|) < n
    ensures Spoilt(t, f)
  {
    StopsInFront(f, 0, |f|);
    CountGrows(f, 0, Reach(f, 0, |f|), n);
  }

  /** Bytes read twice, or a line cut, yield a line too many. */
  lemma Reread(t: Tail, f: Bytes, n: nat, strict: bool)
    requires CaughtUp(t, f, n, strict) && !HarmlessCut(f, n, strict) && Reach(f, 0, n) == n <= Reach(f, 0, |f|)
    requires !t.failed && t.offset <= n
    ensures Spoilt(t, f)
  {
    OffsetError(f, 0, n);
    InFrontOfEnd(f, n, t.offset);
    CutAt(f, 0, t.offset);
    CountGrows(f, 0, t.offset, n);
  }

  lemma InFrontOfEnd(f: Bytes, n: nat, x: nat)
    requires x <= n <= Reach(f, 0, |f|) && n <= |f| && (x < n || (Open(f, 0, n) && n < |f|))
    ensures x < Reach(f, 0, |f|)
  {
    if Reach(f, 0, |f|) < |f| {
      StopsInFront(f, 0, |f|);
    }
  }

  /** The byte behind an unterminated snapshot is skipped, whatever it is. */
  lemma SkippedFacts(t: Tail, f: Bytes, n: nat, strict: bool)
    requires CaughtUp(t, f, n, strict) && !HarmlessCut(f, n, strict) && Reach(f, 0, n) == n && !t.failed && t.offset > n
    ensures n < |f| && Open(f, 0, n) && CRLines(f, 0, n) == 0 && t.offset == n + 1 && t.lines == LinesIn(f, 0, n)
    ensures f[n] != LF && (n + 1 == |f| && Reach(f, 0, |f|) == |f| ==> f[n] != CR)
  {
    OffsetError(f, 0, n);
  }

  lemma SkippedByte(t: Tail, f: Bytes, n: nat, strict: bool)
    requires CaughtUp(t, f, n, strict) && !HarmlessCut(f, n, strict) && Reach(f, 0, n) == n <= Reach(f, 0, |f|)
    requires !t.failed && t.offset > n
    ensures Spoilt(t, f)
  {
    SkippedFacts(t, f, n, strict);
    InFrontOfEnd(f, n, n);
    if n + 1 < Reach(f, 0, |f|) {
      LineTooMany(f, n);
    } else {
      LastByteSkipped(f, n);
    }
  }

  lemma LineTooMany(f: Bytes, n: nat)
    requires n + 1 < Reach(f, 0, |f|) && n < |f| && Open(f, 0, n) && f[n] != LF
    ensures |Lines(f)| < Count(f, 0, n) + Pending(f, n + 1)
  {
    StillOneLine(f, 0, n);
    CutAt(f, 0, n + 1);
  }

  lemma LastByteSkipped(f: Bytes, n: nat)
    requires Reach(f, 0, |f|) <= n + 1 && n < Reach(f, 0, |f|) && Open(f, 0, n) && CRLines(f, 0, n) == 0
    requires f[n] != LF && (n + 1 == |f| && Reach(f, 0, |f|) == |f| ==> f[n] != CR)
    ensures Lines(f) != LinesIn(f, 0, n) && |Lines(f)| == Count(f, 0, n)
  {
    if Reach(f, 0, |f|) < |f| {
      StopsInFront(f, 0, |f|);
    }
    StillOneLine(f, 0, n);
    OtherByte(f, 0, n);
  }

  lemma HarmfulPollSpoilsLines(polls: seq<Option<Bytes>>, file: Bytes, i: nat, strict: bool)
    requires AppendOnly(polls, file) && LastSize(polls) == |file|
    requires i < |polls| && Followed(polls, i) && !HarmlessPoll(polls[i], file, strict) && Harmless(polls[..i + 1], file, strict)
    ensures DrainAll(polls, strict).lines != Lines(file)
  {
    var seen := polls[..i + 1];
    AppendOnlyPrefix(polls, file, i + 1);
    assert seen[..i] == polls[..i] && seen[i] == polls[i];
    DrainAllCatchesUp(seen, file, strict);
    HarmfulCut(DrainAll(seen, strict), file, LastSize(seen), strict);
    PromiseRedeemed(polls, file, i + 1, strict);
    LinesOnlyGrow(polls, i + 1, strict);
  }

  /** The first harmful poll that is followed by another. */
  lemma {:induction false} FirstHarmful(polls: seq<Option<Bytes>>, file: Bytes, strict: bool, k: nat) returns (i: nat)
    requires k < |polls| && Followed(polls, k) && !HarmlessPoll(polls[k], file, strict)
    ensures i < |polls| && Followed(polls, i) && !HarmlessPoll(polls[i], file, strict) && Harmless(polls[..i + 1], file, strict)
    decreases k
  {
    var seen := polls[..k + 1];
    if Harmless(seen, file, strict) {
      return k;
    }
    var j: nat :| j < |seen| && Followed(seen, j) && !HarmlessPoll(seen[j], file, strict);
    assert j < k;
    var m :| j < m < |seen| && seen[m].Some?;
    assert polls[m].Some? && polls[j] == seen[j];
    assert Followed(polls, j);
    i := FirstHarmful(polls, file, strict, j);
  }

  /** For every schedule of polls over a growing file, whatever its bytes: once the whole file has been
      seen, its lines were handed on, each once and in order, if and only if every poll that was followed
      by another was harmless. */
  lemma PollsDeliverFileIff(polls: seq<Option<Bytes>>, file: Bytes, strict: bool)
    requires AppendOnly(polls, file) && LastSize(polls) == |file|
    ensures DrainAll(polls, strict).lines == Lines(file) <==> Harmless(polls, file, strict)
  {
    if Harmless(polls, file, strict) {
      DrainAllCatchesUp(polls, file, strict);
    } else {
      var k: nat :| k < |polls| && Followed(polls, k) && !HarmlessPoll(polls[k], file, strict);
      var i := FirstHarmful(polls, file, strict, k);
      HarmfulPollSpoilsLines(polls, file, i, strict);
    }
  }

  ghost predicate WholeLines(polls: seq<Option<Bytes>>) {
    forall i :: 0 <= i < |polls| && polls[i].Some? ==> !Open(polls[i].value, 0, |polls[i].value|)
  }

  ghost predicate CleanLines(f: Bytes) { CRLines(f, 0, |f|) == 0 && Reach(f, 0, |f|) == |f| }

  lemma CleanPrefix(f: Bytes, n: nat)
    requires n <= |f| && !Open(f, 0, n) && CleanLines(f)
    ensures CRLines(f, 0, n) == 0 && Reach(f, 0, n) == n
  {
    NumbersSplit(f, 0, n, |f|);
    if Reach(f, 0, n) < n {
      ReachStays(f, 0, n, |f|);
    }
  }

  lemma CleanPollsHarmless(polls: seq<Option<Bytes>>, file: Bytes, strict: bool)
    requires AppendOnly(polls, file) && WholeLines(polls) && CleanLines(file)
    ensures Harmless(polls, file, strict)
  {
    forall i: nat | i < |polls| && Followed(polls, i)
      ensures HarmlessPoll(polls[i], file, strict)
    {
      AppendOnlyPrefix(polls, file, i + 1);
      assert polls[..i + 1][i] == polls[i];
      if polls[i].Some? {
        CleanPrefix(file, |polls[i].value|);
      }
    }
  }

  /** A whole file's lines add up to its size exactly when they are clean. */
  lemma OffsetShort(f: Bytes)
    requires !Open(f, 0, |f|)
    ensures Reach(f, 0, |f|) == |f| && Advance(f, 0, |f|) == |f| <==> CleanLines(f)
    ensures Reach(f, 0, |f|) < |f| ==> Advance(f, 0, Reach(f, 0, |f|)) < |f|
  {
    OffsetError(f, 0, |f|);
    OffsetError(f, 0, Reach(f, 0, |f|));
    if Reach(f, 0, |f|) < |f| {
      StopsInFront(f, 0, |f|);
    }
  }

  /** The promised case: every snapshot ends with a line feed. Then the lines are those of the file and the
      offset is its size if and only if no line ends with a carriage return or is too long. */
  lemma WholeLinesAreTailedExactly(polls: seq<Option<Bytes>>, file: Bytes, strict: bool)
    requires AppendOnly(polls, file) && LastSize(polls) == |file| && WholeLines(polls) && !Open(file, 0, |file|)
    ensures DrainAll(polls, strict) == Tail(|file|, Lines(file), false) <==> CleanLines(file)
  {
    PollsDeliverFileIff(polls, file, strict);
    if CleanLines(file) {
      CleanPollsHarmless(polls, file, strict);
    }
    if Harmless(polls, file, strict) {
      DrainAllCatchesUp(polls, file, strict);
    }
    OffsetShort(file);
  }

  /** The progress reader never gets past a line that does not fit its buffer. */
  lemma LongLineStallsProgress(t: Tail, snapshot: Bytes)
    requires !t.failed && t.offset <= |snapshot| && NextFeed(snapshot, t.offset, |snapshot|) - t.offset >= LINE_LIMIT
    ensures Drain(t, Some(snapshot), false) == t
  {
    NothingNew(t, snapshot, |snapshot|, false);
  }

  // ---------------------------------------------------------------- the readers

  datatype Message = Message(sender: string, recipient: string, body: Bytes)

  datatype Direction = Send | Recv

  datatype ReadEvent = ReadEvent(message: Message, direction: Direction)

  function Classify(role: string, m: Message): (r: Option<ReadEvent>)
    ensures r.Some? <==> m.sender == role || m.recipient == role || m.recipient == "*"
    ensures r.Some? ==> r.value.message == m && (r.value.direction == Send <==> m.sender == role)
  {
    if m.sender == role then Some(ReadEvent(m, Send))
    else if m.recipient == role || m.recipient == "*" then Some(ReadEvent(m, Recv))
    else None
  }

  /** What a reader makes of one line; malformed lines and foreign messages are nothing to it. */
  function ReaderSees(parse: Bytes -> Option<Message>, role: string): Bytes -> Option<ReadEvent> {
    line => match parse(line)
            case None => None
            case Some(m) => Classify(role, m)
  }

  datatype Progress = Progress(phase: string, total: int, passed: int, failed: int, currentTest: string)

  datatype StatusPhase = PhaseCompiling | PhaseRunning

  datatype Status = Status(phase: StatusPhase, total: int, passed: int, failed: int, currentTest: string)

  /** `progressToStatus`: a "done" phase is never passed on. */
  function ProgressToStatus(p: Progress): (r: Option<Status>)
    ensures r.Some? <==> p.phase == "compiling" || p.phase == "running"
    ensures r.Some? ==> (r.value.phase == PhaseCompiling <==> p.phase == "compiling")
    ensures r.Some? ==> r.value.currentTest == p.currentTest && r.value.total == p.total
                        && r.value.passed == p.passed && r.value.failed == p.failed
  {
    if p.phase == "compiling" then Some(Status(PhaseCompiling, p.total, p.passed, p.failed, p.currentTest))
    else if p.phase == "running" then Some(Status(PhaseRunning, p.total, p.passed, p.failed, p.currentTest))
    else None
  }

  function ClientSees(parse: Bytes -> Option<Progress>): Bytes -> Option<Status> {
    line => match parse(line)
            case None => None
            case Some(p) => ProgressToStatus(p)
  }

  /** Event k comes from line `from[k]`: one event per nonempty line that is seen, in the order of the lines. */
  ghost predicate Selected<T>(lines: seq<Bytes>, out: seq<T>, from: seq<nat>, sees: Bytes -> Option<T>) {
    && |from| == |out| && (forall j, k :: 0 <= j < k < |from| ==> from[j] < from[k])
    && (forall k :: 0 <= k < |from| ==> from[k] < |lines| && lines[from[k]] != [] && sees(lines[from[k]]) == Some(out[k]))
    && (forall i :: 0 <= i < |lines| && lines[i] != [] && sees(lines[i]).Some? ==> Hit(from, i))
  }

  ghost predicate Hit(from: seq<nat>, i: int) { exists k :: 0 <= k < |from| && from[k] == i }

  lemma {:induction false} EventsAreSelected<T>(lines: seq<Bytes>, sees: Bytes -> Option<T>) returns (from: seq<nat>)
    ensures Selected(lines, Events(lines, sees), from, sees)
  {
    if lines == [] {
      from := [];
    } else {
      var init, last := lines[..|lines| - 1], |lines| - 1;
      var before := EventsAreSelected(init, sees);
      from := before + if lines[last] != [] && sees(lines[last]).Some? then [last] else [];
      forall i | 0 <= i < |lines| && lines[i] != [] && sees(lines[i]).Some?
        ensures Hit(from, i)
      {
        if i < last {
          assert init[i] == lines[i] && Hit(before, i);
          var k :| 0 <= k < |before| && before[k] == i;
          assert from[k] == i;
        } else {
          assert from[|before|] == i;
        }
      }
    }
  }

  /** What a role is sent: each line's own message, once and in order, marked by whether the role sent it;
      and every nonempty line that parses to a message from it, to it or to everybody. */
  ghost predicate SentFrom(lines: seq<Bytes>, out: seq<ReadEvent>, from: seq<nat>, parse: Bytes -> Option<Message>, role: string) {
    && |from| == |out| && (forall j, k :: 0 <= j < k < |from| ==> from[j] < from[k])
    && (forall k :: 0 <= k < |from| ==>
          && from[k] < |lines| && lines[from[k]] != [] && parse(lines[from[k]]) == Some(out[k].message)
          && (out[k].direction == Send <==> out[k].message.sender == role))
    && (forall i :: 0 <= i < |lines| && lines[i] != [] && parse(lines[i]).Some? ==>
          var m := parse(lines[i]).value;
          (Hit(from, i) <==> m.sender == role || m.recipient == role || m.recipient == "*"))
  }

  lemma SelectedIsSent(lines: seq<Bytes>, out: seq<ReadEvent>, from: seq<nat>, parse: Bytes -> Option<Message>, role: string)
    requires Selected(lines, out, from, ReaderSees(parse, role))
    ensures SentFrom(lines, out, from, parse, role)
  {
    forall i | 0 <= i < |lines| && lines[i] != [] && parse(lines[i]).Some?
      ensures var m := parse(lines[i]).value;
              Hit(from, i) <==> m.sender == role || m.recipient == role || m.recipient == "*"
    {
      if Hit(from, i) {
        var k :| 0 <= k < |from| && from[k] == i;
        assert ReaderSees(parse, role)(lines[from[k]]).Some?;
      }
    }
  }

  /** What is written for the progress lines: those of the two running phases, unchanged. */
  ghost predicate WrittenFrom(lines: seq<Bytes>, out: seq<Status>, from: seq<nat>, parse: Bytes -> Option<Progress>) {
    && |from| == |out| && (forall j, k :: 0 <= j < k < |from| ==> from[j] < from[k])
    && (forall k :: 0 <= k < |from| ==>
          && from[k] < |lines| && lines[from[k]] != [] && parse(lines[from[k]]).Some?
          && var p := parse(lines[from[k]]).value;
             && p.phase == (if out[k].phase == PhaseCompiling then "compiling" else "running")
             && out[k] == Status(out[k].phase, p.total, p.passed, p.failed, p.currentTest))
    && (forall i :: 0 <= i < |lines| && lines[i] != [] && parse(lines[i]).Some? ==>
          (Hit(from, i) <==> parse(lines[i]).value.phase == "compiling" || parse(lines[i]).value.phase == "running"))
  }

  lemma SelectedIsWritten(lines: seq<Bytes>, out: seq<Status>, from: seq<nat>, parse: Bytes -> Option<Progress>)
    requires Selected(lines, out, from, ClientSees(parse))
    ensures WrittenFrom(lines, out, from, parse)
  {
    forall i | 0 <= i < |lines| && lines[i] != [] && parse(lines[i]).Some?
      ensures Hit(from, i) <==> parse(lines[i]).value.phase == "compiling" || parse(lines[i]).value.phase == "running"
    {
      if Hit(from, i) {
        var k :| 0 <= k < |from| && from[k] == i;
        assert ClientSees(parse)(lines[from[k]]).Some?;
      }
    }
  }

  /** The events of a sequence of lines; empty lines are skipped unparsed. */
  function Events<T>(lines: seq<Bytes>, sees: Bytes -> Option<T>): seq<T> {
    if lines == [] then [] else Events(lines[..|lines| - 1], sees) + EventOf(lines[|lines| - 1], sees)
  }

  function EventOf<T>(line: Bytes, sees: Bytes -> Option<T>): seq<T> {
    if line == [] then [] else
      match sees(line)
      case None => []
      case Some(e) => [e]
  }

  lemma {:induction false} EventsConcat<T>(a: seq<Bytes>, b: seq<Bytes>, sees: Bytes -> Option<T>)
    ensures Events(a + b, sees) == Events(a, sees) + Events(b, sees)
    decreases |b|
  {
    if b == [] {
      assert a + b == a;
    } else {
      assert (a + b)[..|a + b| - 1] == a + b[..|b| - 1];
      EventsConcat(a, b[..|b| - 1], sees);
    }
  }

  lemma EventsSnoc<T>(lines: seq<Bytes>, line: Bytes, sees: Bytes -> Option<T>)
    ensures Events(lines + [line], sees) == Events(lines, sees) + EventOf(line, sees)
  {
    assert (lines + [line])[..|lines|] == lines;
  }

  /** What a scan of a snapshot from an offset yields. */
  ghost function Yield(snapshot: Bytes, offset: nat): seq<Bytes> {
    if offset <= |snapshot| then LinesIn(snapshot, offset, Reach(snapshot, offset, |snapshot|)) else []
  }

  /** What a loop that has got to `at` has read so far, and what it will have read in the end. */
  ghost predicate HasRead(f: Bytes, from: nat, at: nat, lines: seq<Bytes>, bytesRead: nat)
    requires from <= at <= |f|
  {
    var p := Reach(f, at, |f|);
    && Reach(f, from, |f|) == p
    && lines + LinesIn(f, at, p) == LinesIn(f, from, p) && bytesRead + Advance(f, at, p) == Advance(f, from, p)
  }

  lemma FirstShort(f: Bytes, a: nat, c: nat)
    requires a < c <= |f| && NextFeed(f, a, c) - a < LINE_LIMIT
    ensures var p := Reach(f, a, c);
            && a < p && Second(f, a, c) <= p && FirstEnd(f, a, p) == FirstEnd(f, a, c) && Second(f, a, p) == Second(f, a, c)
            && Reach(f, Second(f, a, c), c) == p
  {
    NextFeedShort(f, a, Reach(f, a, c), c);
  }

  lemma ReadStep(f: Bytes, from: nat, at: nat, lines: seq<Bytes>, bytesRead: nat)
    requires from <= at < |f| && HasRead(f, from, at, lines, bytesRead) && NextFeed(f, at, |f|) - at < LINE_LIMIT
    ensures var line := Text(f, at, FirstEnd(f, at, |f|));
            HasRead(f, from, Second(f, at, |f|), lines + [line], bytesRead + |line| + 1)
  {
    FirstShort(f, at, |f|);
    FirstOfLines(lines, f, at, Reach(f, at, |f|));
  }

  lemma FirstOfLines(lines: seq<Bytes>, f: Bytes, a: nat, p: nat)
    requires a < p <= |f|
    ensures lines + LinesIn(f, a, p) == lines + [Text(f, a, FirstEnd(f, a, p))] + LinesIn(f, Second(f, a, p), p)
    ensures Advance(f, a, p) == FirstEnd(f, a, p) - a + 1 + Advance(f, Second(f, a, p), p)
  {
    var line, more := Text(f, a, FirstEnd(f, a, p)), LinesIn(f, Second(f, a, p), p);
    assert lines + ([line] + more) == lines + [line] + more;
  }

  /** The loop of `PollingReader.readSince`, from the offset on. */
  method ScanLines<T>(data: Bytes, offset: nat, sees: Bytes -> Option<T>)
    returns (out: seq<T>, bytesRead: nat, tooLong: bool)
    ensures out == Events(Yield(data, offset), sees)
    ensures offset <= |data| ==>
              var p := Reach(data, offset, |data|); bytesRead == Advance(data, offset, p) && (tooLong <==> p < |data|)
    ensures offset > |data| ==> bytesRead == 0 && !tooLong
  {
    out, bytesRead, tooLong := [], 0, false;
    if offset > |data| {
      return;
    }
    var at, end := offset, |data|;
    ghost var done: seq<Bytes> := [];
    assert done + LinesIn(data, at, Reach(data, at, end)) == LinesIn(data, at, Reach(data, at, end));
    while at < end && !tooLong
      invariant offset <= at <= end && HasRead(data, offset, at, done, bytesRead) && out == Events(done, sees)
      invariant tooLong ==> at < end && NextFeed(data, at, end) - at >= LINE_LIMIT
      decreases end - at, !tooLong
    {
      var k := FindFeed(data, at, end);
      OneNextFeed(data, at, end, k);
      if k - at >= LINE_LIMIT {
        tooLong := true;
      } else {
        var line := DropCR(data[at..k]);
        DropCRTrims(data, at, k);
        ReadStep(data, offset, at, done, bytesRead);
        EventsSnoc(done, line, sees);
        bytesRead := bytesRead + |line| + 1;
        out := out + EventOf(line, sees);
        done := done + [line];
        at := Past(k, end);
      }
    }
    assert done + [] == done;
  }

  /** `PollingReader.readSince` on an existing file: an overlong line leaves the offset where it was. */
  method ReadSince<T>(snapshot: Bytes, offset: nat, sees: Bytes -> Option<T>)
    returns (out: seq<T>, newOffset: nat, failed: bool)
    ensures out == Events(Yield(snapshot, offset), sees)
    ensures forall lines :: Drain(Tail(offset, lines, false), Some(snapshot), true)
                         == Tail(newOffset, lines + Yield(snapshot, offset), failed)
  {
    var bytesRead;
    out, bytesRead, failed := ScanLines(snapshot, offset, sees);
    newOffset := if failed then offset else offset + bytesRead;
    assert forall lines: seq<Bytes> :: lines + [] == lines;
  }

  /** `drainProgress`: the error of the scan is ignored, the offset moves behind the lines before it. */
  method DrainProgress(poll: Option<Bytes>, offset: nat, parse: Bytes -> Option<Progress>)
    returns (written: seq<Status>, newOffset: nat, ghost from: seq<nat>)
    ensures WrittenFrom(if poll == None then [] else Yield(poll.value, offset), written, from, parse)
    ensures written == if poll == None then [] else Events(Yield(poll.value, offset), ClientSees(parse))
    ensures newOffset == Drain(Tail(offset, [], false), poll, false).offset
  {
    if poll == None {
      return [], offset, [];
    }
    var bytesRead, tooLong;
    written, bytesRead, tooLong := ScanLines(poll.value, offset, ClientSees(parse));
    newOffset := offset + bytesRead;
    from := EventsAreSelected(Yield(poll.value, offset), ClientSees(parse));
    SelectedIsWritten(Yield(poll.value, offset), written, from, parse);
  }

  lemma PollEvents<T>(polls: seq<Option<Bytes>>, i: nat, sees: Bytes -> Option<T>)
    requires i < |polls| && !DrainAll(polls[..i], true).failed
    ensures DrainAll(polls[..i + 1], true) == Drain(DrainAll(polls[..i], true), polls[i], true)
    ensures polls[i].Some? ==>
              Events(DrainAll(polls[..i + 1], true).lines, sees)
              == Events(DrainAll(polls[..i], true).lines, sees)
                 + Events(Yield(polls[i].value, DrainAll(polls[..i], true).offset), sees)
  {
    assert polls[..i + 1][..i] == polls[..i];
    if polls[i].Some? {
      EventsConcat(DrainAll(polls[..i], true).lines, Yield(polls[i].value, DrainAll(polls[..i], true).offset), sees);
    }
  }

  /** How one attempt to open the bus file and seek in it ends. `NoFile` is retried at the next tick. */
  datatype Attempt = NoFile | Opened(snapshot: Bytes) | OpenFailed

  function Polled(attempt: Attempt): Option<Bytes>
    requires !attempt.OpenFailed?
  {
    if attempt.NoFile? then None else Some(attempt.snapshot)
  }

  /** How many attempts come before the first one that fails for another reason. */
  ghost function Readable(attempts: seq<Attempt>, n: nat): (k: nat)
    requires n <= |attempts|
    ensures k <= n && (forall i :: 0 <= i < k ==> !attempts[i].OpenFailed?) && (k < n ==> attempts[k].OpenFailed?)
  {
    if n == 0 then 0 else
      var k := Readable(attempts, n - 1);
      if k == n - 1 && !attempts[k].OpenFailed? then n else k
  }

  lemma ReadableIs(attempts: seq<Attempt>, n: nat, k: nat)
    requires k <= n <= |attempts| && (forall i :: 0 <= i < k ==> !attempts[i].OpenFailed?) && (k < n ==> attempts[k].OpenFailed?)
    ensures Readable(attempts, n) == k
  {
  }

  ghost function Polls(attempts: seq<Attempt>, k: nat): seq<Option<Bytes>>
    requires k <= |attempts| && forall i :: 0 <= i < k ==> !attempts[i].OpenFailed?
  {
    seq(k, i requires 0 <= i < k => Polled(attempts[i]))
  }

  /** What the reader gets to see in the first `n` attempts. */
  ghost function Seen(attempts: seq<Attempt>, n: nat): seq<Option<Bytes>>
    requires n <= |attempts|
  {
    Polls(attempts, Readable(attempts, n))
  }

  lemma DrainStep<T>(polls: seq<Option<Bytes>>, poll: Option<Bytes>, sees: Bytes -> Option<T>)
    requires !DrainAll(polls, true).failed
    ensures DrainAll(polls + [poll], true) == Drain(DrainAll(polls, true), poll, true)
    ensures poll.Some? ==>
              Events(DrainAll(polls + [poll], true).lines, sees)
              == Events(DrainAll(polls, true).lines, sees) + Events(Yield(poll.value, DrainAll(polls, true).offset), sees)
  {
    var all := polls + [poll];
    assert all[..|polls|] == polls && all[..|all|] == all && all[|polls|] == poll;
    PollEvents(all, |polls|, sees);
  }

  /** Attempt `k`: the file is opened, if there is one, and drained. */
  method ReadAttempt<T>(attempts: seq<Attempt>, k: nat, offset: nat, sees: Bytes -> Option<T>)
    returns (batch: seq<T>, newOffset: nat, failed: bool)
    requires k < |attempts| && forall i :: 0 <= i <= k ==> !attempts[i].OpenFailed?
    requires var was := DrainAll(Polls(attempts, k), true); !was.failed && was.offset == offset
    ensures var was, now := DrainAll(Polls(attempts, k), true), DrainAll(Polls(attempts, k + 1), true);
            && Events(now.lines, sees) == Events(was.lines, sees) + batch
            && now.failed == failed && now.offset == newOffset
  {
    ghost var seen := Polls(attempts, k);
    assert Polls(attempts, k + 1) == seen + [Polled(attempts[k])];
    DrainStep(seen, Polled(attempts[k]), sees);
    if attempts[k].NoFile? {
      return [], offset, false;
    }
    batch, newOffset, failed := ReadSince(attempts[k].snapshot, offset, sees);
    assert DrainAll(seen, true) == Tail(offset, DrainAll(seen, true).lines, false);
  }

  /** Nothing that follows a failed drain is looked at. */
  lemma StoppedForGood(attempts: seq<Attempt>, k: nat, n: nat)
    requires k <= n <= |attempts| && (forall i :: 0 <= i < k ==> !attempts[i].OpenFailed?)
    requires DrainAll(Polls(attempts, k), true).failed
    ensures DrainAll(Seen(attempts, n), true) == DrainAll(Polls(attempts, k), true)
  {
    FailedPrefix(Polls(attempts, k), Seen(attempts, n));
  }

  lemma FailedPrefix(part: seq<Option<Bytes>>, polls: seq<Option<Bytes>>)
    requires part <= polls && DrainAll(part, true).failed
    ensures DrainAll(polls, true) == DrainAll(part, true)
  {
    assert polls[..|part|] == part;
    FailureIsFinal(polls, |part|);
  }

  /** What the loop has handed on after the first `n` attempts. */
  ghost predicate HandedOn<T>(attempts: seq<Attempt>, n: nat, out: seq<T>, sees: Bytes -> Option<T>, failed: bool)
    requires n <= |attempts|
  {
    && out == Events(DrainAll(Seen(attempts, n), true).lines, sees)
    && (failed <==> Readable(attempts, n) < n || DrainAll(Seen(attempts, n), true).failed)
  }

  /** The loop up to the cancellation: one drain per tick. A missing file is no error; any other one ends
      the loop, be it of the scan, or of opening the file. */
  method RunTicks<T>(attempts: seq<Attempt>, n: nat, sees: Bytes -> Option<T>) returns (out: seq<T>, offset: nat, failed: bool)
    requires n <= |attempts|
    ensures HandedOn(attempts, n, out, sees, failed)
    ensures !failed ==> offset == DrainAll(Seen(attempts, n), true).offset
  {
    out, offset, failed := [], 0, false;
    for i := 0 to n
      invariant !failed && forall j :: 0 <= j < i ==> !attempts[j].OpenFailed?
      invariant var was := DrainAll(Polls(attempts, i), true); !was.failed && was.offset == offset && out == Events(was.lines, sees)
    {
      if attempts[i].OpenFailed? {
        ReadableIs(attempts, n, i);
        return out, offset, true;
      }
      var batch;
      batch, offset, failed := ReadAttempt(attempts, i, offset, sees);
      out := out + batch;
      if failed {
        StoppedForGood(attempts, i + 1, n);
        return;
      }
    }
    ReadableIs(attempts, n, n);
  }

  /** `PollingReader.Run`: the last drain follows the cancellation, and its error is ignored. */
  method Run(attempts: seq<Attempt>, parse: Bytes -> Option<Message>, role: string)
    returns (out: seq<ReadEvent>, failed: bool, ghost from: seq<nat>)
    requires attempts != []
    ensures SentFrom(DrainAll(Seen(attempts, |attempts|), true).lines, out, from, parse, role)
    ensures out == Events(DrainAll(Seen(attempts, |attempts|), true).lines, ReaderSees(parse, role))
    ensures failed <==> Readable(attempts, |attempts| - 1) < |attempts| - 1 || DrainAll(Seen(attempts, |attempts| - 1), true).failed
  {
    var last, sees, offset := |attempts| - 1, ReaderSees(parse, role), 0;
    out, offset, failed := RunTicks(attempts, last, sees);
    if failed {
      NothingMore(attempts, last);
    } else if attempts[last].OpenFailed? {
      ReadableIs(attempts, last + 1, last);
    } else {
      var batch, ignored;
      batch, offset, ignored := ReadAttempt(attempts, last, offset, sees);
      ReadableIs(attempts, last + 1, last + 1);
      out := out + batch;
    }
    ghost var lines := DrainAll(Seen(attempts, |attempts|), true).lines;
    from := EventsAreSelected(lines, sees);
    SelectedIsSent(lines, out, from, parse, role);
  }

  lemma NothingMore(attempts: seq<Attempt>, n: nat)
    requires n < |attempts| && (Readable(attempts, n) < n || DrainAll(Seen(attempts, n), true).failed)
    ensures DrainAll(Seen(attempts, n + 1), true) == DrainAll(Seen(attempts, n), true)
  {
    var k := Readable(attempts, n);
    if k < n {
      ReadableIs(attempts, n + 1, k);
    } else {
      StoppedForGood(attempts, n, n + 1);
    }
  }

  lemma {:induction false} FailureIsFinal(polls: seq<Option<Bytes>>, k: nat)
    requires k <= |polls| && DrainAll(polls[..k], true).failed
    ensures DrainAll(polls, true) == DrainAll(polls[..k], true)
    decreases |polls|
  {
    if k == |polls| {
      assert polls[..k] == polls;
    } else {
      assert polls[..|polls| - 1][..k] == polls[..k];
      FailureIsFinal(polls[..|polls| - 1], k);
    }
  }
}
