/** The clone barrier of the parallel experiment (`internal/refsworkspace/unity_parallel.go`): N workers
    record stages, wait at a gate before cloning, and the recorded intervals decide afterwards whether the
    clones really ran at the same time. */
module AcquireBarrier {
  import opened Leases

  /** An instant; `NEVER` is the zero `time.Time` of an event that was not recorded. */
  type Time = int
  const NEVER: Time := 0

  datatype Interval = Interval(start: Time, end: Time) {
    predicate Recorded() { start != NEVER && end != NEVER }
  }

  predicate TimeIntervalsOverlap(a: Interval, b: Interval) {
    a.Recorded() && b.Recorded() && a.start < b.end && b.start < a.end
  }

  ghost predicate PairwiseOverlap(intervals: seq<Interval>) {
    forall i, j :: 0 <= i < |intervals| && 0 <= j < |intervals| ==> TimeIntervalsOverlap(intervals[i], intervals[j])
  }

  predicate Running(interval: Interval, t: Time) { interval.Recorded() && interval.start <= t < interval.end }

  /** One instant at which every interval is running. */
  ghost predicate CommonMoment(intervals: seq<Interval>) {
    exists t :: AllRunning(intervals, t)
  }

  ghost predicate AllRunning(intervals: seq<Interval>, t: Time) {
    forall i :: 0 <= i < |intervals| ==> Running(intervals[i], t)
  }

  /** Only the latest start and the earliest end are kept, which is enough: the result is the pairwise
      test over all pairs, each interval with itself included. */
  method IntervalsHaveCommonOverlap(intervals: seq<Interval>) returns (r: bool)
    ensures r <==> |intervals| >= 2 && PairwiseOverlap(intervals)
  {
    if |intervals| < 2 {
      return false;
    }
    var latestStart, earliestEnd := intervals[0].start, intervals[0].end;
    ghost var s, e := 0, 0;
    if latestStart == NEVER || earliestEnd == NEVER {
      assert !TimeIntervalsOverlap(intervals[0], intervals[0]);
      return false;
    }
    for i := 1 to |intervals|
      invariant 0 <= s < i && 0 <= e < i && latestStart == intervals[s].start && earliestEnd == intervals[e].end
      invariant forall j :: 0 <= j < i ==> Within(intervals[j], latestStart, earliestEnd)
    {
      if !intervals[i].Recorded() {
        assert !TimeIntervalsOverlap(intervals[i], intervals[i]);
        return false;
      }
      if intervals[i].start > latestStart {
        latestStart, s := intervals[i].start, i;
      }
      if intervals[i].end < earliestEnd {
        earliestEnd, e := intervals[i].end, i;
      }
    }
    r := latestStart < earliestEnd;
    if PairwiseOverlap(intervals) {
      assert TimeIntervalsOverlap(intervals[s], intervals[e]);
    }
  }

  predicate Within(interval: Interval, latestStart: Time, earliestEnd: Time) {
    interval.Recorded() && interval.start <= latestStart && earliestEnd <= interval.end
  }

  function LatestStart(intervals: seq<Interval>): (k: nat)
    requires intervals != []
    ensures k < |intervals| && forall i :: 0 <= i < |intervals| ==> intervals[i].start <= intervals[k].start
  {
    var n := |intervals| - 1;
    if n == 0 then 0 else
      var k := LatestStart(intervals[..n]);
      if intervals[n].start > intervals[k].start then n else k
  }

  /** Intervals that overlap in pairs overlap all at once: some instant lies in every one of them. */
  lemma PairsMeetAtOneMoment(intervals: seq<Interval>)
    requires intervals != []
    ensures PairwiseOverlap(intervals) <==> CommonMoment(intervals)
  {
    if PairwiseOverlap(intervals) {
      var k := LatestStart(intervals);
      forall i | 0 <= i < |intervals|
        ensures Running(intervals[i], intervals[k].start)
      {
        assert TimeIntervalsOverlap(intervals[i], intervals[k]);
      }
      assert AllRunning(intervals, intervals[k].start);
    }
    if CommonMoment(intervals) {
      var t :| AllRunning(intervals, t);
      forall i, j | 0 <= i < |intervals| && 0 <= j < |intervals|
        ensures TimeIntervalsOverlap(intervals[i], intervals[j])
      {
        assert Running(intervals[i], t) && Running(intervals[j], t);
      }
    }
  }

  // ---------------------------------------------------------------- recorded events

  datatype Stage = CloneStart | CloneEnd | Other(name: string)

  datatype Event = Event(stage: Stage, at: Time)

  /** The last event of a stage counts; none at all is `NEVER`. */
  function LastAt(events: seq<Event>, stage: Stage): Time {
    if events == [] then NEVER else
      var e := events[|events| - 1];
      if e.stage == stage then e.at else LastAt(events[..|events| - 1], stage)
  }

  function IntervalOf(events: seq<Event>, start: Stage, end: Stage): Interval {
    Interval(LastAt(events, start), LastAt(events, end))
  }

  lemma LastAtAppend(events: seq<Event>, e: Event, stage: Stage)
    ensures LastAt(events + [e], stage) == if e.stage == stage then e.at else LastAt(events, stage)
  {
    assert (events + [e])[..|events|] == events;
  }

  ghost predicate OverlapInPairs(workers: seq<Option<seq<Event>>>, start: Stage, end: Stage) {
    && (forall i :: 0 <= i < |workers| ==> workers[i].Some?)
    && forall i, j :: 0 <= i < |workers| && 0 <= j < |workers| ==>
         TimeIntervalsOverlap(IntervalOf(workers[i].value, start, end), IntervalOf(workers[j].value, start, end))
  }

  /** A worker without evidence, or without one of the two events, refutes the overlap. */
  method AcquireGroupIntervalsOverlap(workers: seq<Option<seq<Event>>>, start: Stage, end: Stage) returns (r: bool)
    ensures r <==> |workers| >= 2 && OverlapInPairs(workers, start, end)
  {
    var intervals: seq<Interval> := [];
    for i := 0 to |workers|
      invariant |intervals| == i
      invariant forall j :: 0 <= j < i ==> workers[j].Some? && intervals[j] == IntervalOf(workers[j].value, start, end)
    {
      if workers[i] == None {
        return false;
      }
      var interval := ReadInterval(workers[i].value, start, end);
      intervals := intervals + [interval];
    }
    r := IntervalsHaveCommonOverlap(intervals);
    if OverlapInPairs(workers, start, end) {
      assert PairwiseOverlap(intervals);
    }
    if PairwiseOverlap(intervals) {
      forall i, j | 0 <= i < |workers| && 0 <= j < |workers|
        ensures TimeIntervalsOverlap(IntervalOf(workers[i].value, start, end), IntervalOf(workers[j].value, start, end))
      {
        assert TimeIntervalsOverlap(intervals[i], intervals[j]);
      }
    }
  }

  method ReadInterval(events: seq<Event>, start: Stage, end: Stage) returns (r: Interval)
    ensures r == IntervalOf(events, start, end)
  {
    r := Interval(NEVER, NEVER);
    for i := 0 to |events|
      invariant r == IntervalOf(events[..i], start, end)
    {
      assert events[..i + 1] == events[..i] + [events[i]];
      LastAtAppend(events[..i], events[i], start);
      LastAtAppend(events[..i], events[i], end);
      if events[i].stage == start {
        r := r.(start := events[i].at);
      }
      if events[i].stage == end {
        r := r.(end := events[i].at);
      }
    }
    assert events[..|events|] == events;
  }

  // ---------------------------------------------------------------- the recorder

  datatype View = View(events: map<LeaseId, seq<Event>>, gate: bool, cloneCount: nat, workerCount: nat)

  function EventsOf(v: View, lease: LeaseId): seq<Event> {
    if lease in v.events then v.events[lease] else []
  }

  function Observed(v: View, lease: LeaseId, stage: Stage, now: Time): View {
    var count := v.cloneCount + if stage == CloneStart then 1 else 0;
    View(v.events[lease := EventsOf(v, lease) + [Event(stage, now)]],
         v.gate || (stage == CloneStart && count == v.workerCount), count, v.workerCount)
  }

  /** `parallelAcquireRecorder`; the gate is a channel that is closed once. */
  class Recorder {
    var events: map<LeaseId, seq<Event>>
    var gateClosed: bool
    var cloneCount: nat
    const workerCount: nat

    constructor (workerCount: nat)
      ensures Contents() == View(map[], false, 0, workerCount)
    {
      this.workerCount, events, gateClosed, cloneCount := workerCount, map[], false, 0;
    }

    function Contents(): View
      reads this
    {
      View(events, gateClosed, cloneCount, workerCount)
    }

    /** The part under the mutex; a clone-start then blocks until the gate is open. */
    method Observe(lease: LeaseId, stage: Stage, now: Time) returns (wait: bool)
      modifies this
      ensures Contents() == Observed(old(Contents()), lease, stage, now)
      ensures wait <==> stage == CloneStart && !gateClosed
    {
      var previous := if lease in events then events[lease] else [];
      events := events[lease := previous + [Event(stage, now)]];
      if stage == CloneStart {
        cloneCount := cloneCount + 1;
        if cloneCount == workerCount {
          gateClosed := true;
        }
      }
      wait := stage == CloneStart && !gateClosed;
    }

    method Timeout()
      modifies this
      ensures Contents() == old(Contents()).(gate := true)
    {
      gateClosed := true;
    }
  }

  // ---------------------------------------------------------------- every schedule of N workers

  datatype Phase = Before | Waiting | InClone | Done

  datatype State = State(view: View, clock: Time, timerOpened: bool, phases: map<LeaseId, Phase>)

  datatype Action =
    | Start(lease: LeaseId, now: Time)
    | PassGate(lease: LeaseId)
    | End(lease: LeaseId, now: Time)
    | Note(lease: LeaseId, name: string, now: Time)
    | Timer

  function PhaseOf(s: State, lease: LeaseId): Phase { if lease in s.phases then s.phases[lease] else Before }

  /** Each clock read is later than all earlier ones. */
  predicate Enabled(s: State, a: Action) {
    match a
    case Start(w, now) => w in s.phases && s.phases[w] == Before && now > s.clock
    case PassGate(w) => w in s.phases && s.phases[w] == Waiting && s.view.gate
    case End(w, now) => w in s.phases && s.phases[w] == InClone && now > s.clock
    case Note(w, _, now) => w in s.phases && now > s.clock
    case Timer => true
  }

  function Apply(s: State, a: Action): State {
    match a
    case Start(w, now) => s.(view := Observed(s.view, w, CloneStart, now), clock := now, phases := s.phases[w := Waiting])
    case PassGate(w) => s.(phases := s.phases[w := InClone])
    case End(w, now) => s.(view := Observed(s.view, w, CloneEnd, now), clock := now, phases := s.phases[w := Done])
    case Note(w, name, now) => s.(view := Observed(s.view, w, Other(name), now), clock := now)
    case Timer => if s.view.gate then s else s.(view := s.view.(gate := true), timerOpened := true)
  }

  ghost predicate Initial(s: State) {
    && s.view == View(map[], false, 0, |s.phases|) && s.clock > NEVER && !s.timerOpened
    && forall w :: w in s.phases ==> s.phases[w] == Before
  }

  ghost predicate Run(s: State, actions: seq<Action>, t: State)
    decreases |actions|
  {
    if actions == [] then s == t
    else Enabled(s, actions[0]) && Run(Apply(s, actions[0]), actions[1..], t)
  }

  function Started(s: State): set<LeaseId> { set w | w in s.phases && s.phases[w] != Before }

  function StartOf(s: State, w: LeaseId): Time { LastAt(EventsOf(s.view, w), CloneStart) }

  function EndOf(s: State, w: LeaseId): Time { LastAt(EventsOf(s.view, w), CloneEnd) }

  ghost predicate WorkerInv(s: State, w: LeaseId) {
    match PhaseOf(s, w)
    case Before => StartOf(s, w) == NEVER && EndOf(s, w) == NEVER
    case Waiting => NEVER < StartOf(s, w) <= s.clock && EndOf(s, w) == NEVER
    case InClone => NEVER < StartOf(s, w) <= s.clock && EndOf(s, w) == NEVER && s.view.gate
    case Done => NEVER < StartOf(s, w) <= s.clock && StartOf(s, w) < EndOf(s, w) <= s.clock && s.view.gate
  }

  /** A gate that the arrivals opened: everybody has started, and nobody ended before everybody started. */
  ghost predicate OpenedByArrivals(s: State) {
    s.view.gate && !s.timerOpened
  }

  ghost predicate StartsBeforeEnds(s: State, v: LeaseId, w: LeaseId) {
    PhaseOf(s, v) != Before && (PhaseOf(s, w) == Done ==> StartOf(s, v) < EndOf(s, w))
  }

  ghost predicate WorkersInv(s: State) {
    forall w :: w in s.phases ==> WorkerInv(s, w)
  }

  ghost predicate Ordered(s: State) {
    forall v, w :: v in s.phases && w in s.phases ==> StartsBeforeEnds(s, v, w)
  }

  ghost predicate Counted(s: State) {
    && s.view.workerCount == |s.phases| && s.view.cloneCount == |Started(s)| && s.clock > NEVER
    && (s.phases != map[] && s.view.cloneCount == s.view.workerCount ==> s.view.gate)
  }

  ghost predicate Inv(s: State) {
    Counted(s) && WorkersInv(s) && (OpenedByArrivals(s) ==> Ordered(s))
  }

  lemma ObservedTimes(v: View, lease: LeaseId, stage: Stage, now: Time, other: LeaseId, wanted: Stage)
    ensures LastAt(EventsOf(Observed(v, lease, stage, now), other), wanted)
         == if other == lease && wanted == stage then now else LastAt(EventsOf(v, other), wanted)
  {
    LastAtAppend(EventsOf(v, lease), Event(stage, now), wanted);
  }

  lemma InitialInv(s: State)
    requires Initial(s)
    ensures Inv(s)
  {
    assert Started(s) == {};
  }

  lemma StartKeepsWorker(s: State, w: LeaseId, now: Time, u: LeaseId)
    requires Inv(s) && Enabled(s, Start(w, now)) && u in s.phases
    ensures WorkerInv(Apply(s, Start(w, now)), u)
    ensures u != w ==> StartOf(Apply(s, Start(w, now)), u) == StartOf(s, u)
    ensures EndOf(Apply(s, Start(w, now)), u) == EndOf(s, u)
  {
    assert WorkerInv(s, u);
    ObservedTimes(s.view, w, CloneStart, now, u, CloneStart);
    ObservedTimes(s.view, w, CloneStart, now, u, CloneEnd);
  }

  /** With a starter left, the arrivals cannot have opened the gate yet. */
  lemma GateStillShut(s: State, w: LeaseId)
    requires Inv(s) && w in s.phases && s.phases[w] == Before && !s.timerOpened
    ensures !s.view.gate
  {
    assert OpenedByArrivals(s) ==> StartsBeforeEnds(s, w, w);
  }

  lemma StartCounts(s: State, w: LeaseId, now: Time)
    requires Enabled(s, Start(w, now))
    ensures |Started(Apply(s, Start(w, now)))| == |Started(s)| + 1
    ensures Apply(s, Start(w, now)).phases.Keys == s.phases.Keys
  {
    assert Started(Apply(s, Start(w, now))) == Started(s) + {w};
  }

  /** The last arrival finds everybody started and nobody past the gate. */
  lemma LastArrival(s: State, w: LeaseId, now: Time, u: LeaseId)
    requires Inv(s) && Enabled(s, Start(w, now)) && u in s.phases
    requires OpenedByArrivals(Apply(s, Start(w, now)))
    ensures PhaseOf(Apply(s, Start(w, now)), u) != Before && PhaseOf(Apply(s, Start(w, now)), u) != Done
  {
    var t := Apply(s, Start(w, now));
    GateStillShut(s, w);
    StartCounts(s, w, now);
    FullSubset(Started(t), t.phases.Keys);
    assert u in Started(t);
    assert WorkerInv(s, u);
  }

  lemma FullSubset(a: set<LeaseId>, b: set<LeaseId>)
    requires a <= b && |a| == |b|
    ensures a == b
  {
    assert b == a + (b - a);
  }

  lemma StartKeepsInv(s: State, w: LeaseId, now: Time)
    requires Inv(s) && Enabled(s, Start(w, now))
    ensures Inv(Apply(s, Start(w, now)))
  {
    var t := Apply(s, Start(w, now));
    StartCounts(s, w, now);
    forall u | u in t.phases
      ensures WorkerInv(t, u)
    {
      StartKeepsWorker(s, w, now, u);
    }
    if OpenedByArrivals(t) {
      forall u, v | u in t.phases && v in t.phases
        ensures StartsBeforeEnds(t, u, v)
      {
        LastArrival(s, w, now, u);
        LastArrival(s, w, now, v);
      }
    }
  }

  lemma EndKeepsPair(s: State, w: LeaseId, now: Time, u: LeaseId, v: LeaseId)
    requires Inv(s) && Enabled(s, End(w, now)) && u in s.phases && v in s.phases
    ensures WorkerInv(Apply(s, End(w, now)), u)
    ensures OpenedByArrivals(Apply(s, End(w, now))) ==> StartsBeforeEnds(Apply(s, End(w, now)), u, v)
  {
    assert WorkerInv(s, u) && WorkerInv(s, v) && WorkerInv(s, w);
    ObservedTimes(s.view, w, CloneEnd, now, u, CloneStart);
    ObservedTimes(s.view, w, CloneEnd, now, u, CloneEnd);
    ObservedTimes(s.view, w, CloneEnd, now, v, CloneEnd);
    if OpenedByArrivals(s) {
      assert StartsBeforeEnds(s, u, v);
    }
  }

  lemma NoteKeepsPair(s: State, w: LeaseId, name: string, now: Time, u: LeaseId, v: LeaseId)
    requires Inv(s) && Enabled(s, Note(w, name, now)) && u in s.phases && v in s.phases
    ensures WorkerInv(Apply(s, Note(w, name, now)), u)
    ensures OpenedByArrivals(Apply(s, Note(w, name, now))) ==> StartsBeforeEnds(Apply(s, Note(w, name, now)), u, v)
  {
    assert WorkerInv(s, u) && WorkerInv(s, v);
    ObservedTimes(s.view, w, Other(name), now, u, CloneStart);
    ObservedTimes(s.view, w, Other(name), now, u, CloneEnd);
    ObservedTimes(s.view, w, Other(name), now, v, CloneEnd);
    if OpenedByArrivals(s) {
      assert StartsBeforeEnds(s, u, v);
    }
  }

  lemma PassKeepsPair(s: State, w: LeaseId, u: LeaseId, v: LeaseId)
    requires Inv(s) && Enabled(s, PassGate(w)) && u in s.phases && v in s.phases
    ensures WorkerInv(Apply(s, PassGate(w)), u)
    ensures OpenedByArrivals(s) ==> StartsBeforeEnds(Apply(s, PassGate(w)), u, v)
  {
    assert WorkerInv(s, u) && WorkerInv(s, v);
    if OpenedByArrivals(s) {
      assert StartsBeforeEnds(s, u, v);
    }
  }

  lemma TimerKeepsInv(s: State)
    requires Inv(s)
    ensures Inv(Apply(s, Timer))
  {
    var t := Apply(s, Timer);
    assert Started(t) == Started(s);
    forall u | u in t.phases
      ensures WorkerInv(t, u)
    {
      assert WorkerInv(s, u);
    }
  }

  lemma PairKept(s: State, a: Action, u: LeaseId, v: LeaseId)
    requires Inv(s) && Enabled(s, a) && !a.Start? && !a.Timer? && u in s.phases && v in s.phases
    ensures WorkerInv(Apply(s, a), u)
    ensures OpenedByArrivals(Apply(s, a)) ==> StartsBeforeEnds(Apply(s, a), u, v)
  {
    match a
    case PassGate(w) => PassKeepsPair(s, w, u, v);
    case End(w, now) => EndKeepsPair(s, w, now, u, v);
    case Note(w, name, now) => NoteKeepsPair(s, w, name, now, u, v);
  }

  lemma CountKept(s: State, a: Action)
    requires Enabled(s, a) && !a.Start? && !a.Timer?
    ensures Started(Apply(s, a)) == Started(s) && Apply(s, a).phases.Keys == s.phases.Keys
    ensures |Apply(s, a).phases| == |s.phases|
    ensures Apply(s, a).view.cloneCount == s.view.cloneCount && Apply(s, a).view.workerCount == s.view.workerCount
  {
    assert Apply(s, a).phases.Keys == s.phases.Keys;
    assert |Apply(s, a).phases| == |Apply(s, a).phases.Keys|;
  }

  lemma OthersKeepWorkers(s: State, a: Action)
    requires Inv(s) && Enabled(s, a) && !a.Start? && !a.Timer?
    ensures WorkersInv(Apply(s, a))
  {
    var t := Apply(s, a);
    CountKept(s, a);
    forall u | u in t.phases
      ensures WorkerInv(t, u)
    {
      PairKept(s, a, u, u);
    }
  }

  lemma OthersKeepOrder(s: State, a: Action)
    requires Inv(s) && Enabled(s, a) && !a.Start? && !a.Timer? && OpenedByArrivals(Apply(s, a))
    ensures Ordered(Apply(s, a))
  {
    var t := Apply(s, a);
    CountKept(s, a);
    forall u, v | u in t.phases && v in t.phases
      ensures StartsBeforeEnds(t, u, v)
    {
      PairKept(s, a, u, v);
    }
  }

  lemma OthersKeepInv(s: State, a: Action)
    requires Inv(s) && Enabled(s, a) && !a.Start? && !a.Timer?
    ensures Inv(Apply(s, a))
  {
    CountKept(s, a);
    OthersKeepWorkers(s, a);
    if OpenedByArrivals(Apply(s, a)) {
      OthersKeepOrder(s, a);
    }
  }

  lemma StepKeepsInv(s: State, a: Action)
    requires Inv(s) && Enabled(s, a)
    ensures Inv(Apply(s, a))
  {
    match a
    case Timer => TimerKeepsInv(s);
    case Start(w, now) => StartKeepsInv(s, w, now);
    case _ => OthersKeepInv(s, a);
  }

  lemma {:induction false} RunKeepsInv(s: State, actions: seq<Action>, t: State)
    requires Inv(s) && Run(s, actions, t)
    ensures Inv(t)
    decreases |actions|
  {
    if actions != [] {
      StepKeepsInv(s, actions[0]);
      RunKeepsInv(Apply(s, actions[0]), actions[1..], t);
    }
  }

  /** The barrier never deadlocks: once everybody has arrived, everybody may pass. */
  lemma EverybodyMayPass(s: State, actions: seq<Action>, t: State, w: LeaseId)
    requires Initial(s) && Run(s, actions, t) && w in t.phases && t.phases[w] == Waiting
    requires forall v :: v in t.phases ==> t.phases[v] != Before
    ensures Enabled(t, PassGate(w))
  {
    InitialInv(s);
    RunKeepsInv(s, actions, t);
    assert Started(t) == t.phases.Keys;
    assert |t.phases| == |t.phases.Keys|;
  }

  /** The evidence the workers hand in, in some order. */
  ghost predicate Evidence(s: State, leases: seq<LeaseId>, workers: seq<Option<seq<Event>>>) {
    && |workers| == |leases| >= 2
    && (forall i :: 0 <= i < |leases| ==> leases[i] in s.phases && s.phases[leases[i]] == Done)
    && forall i :: 0 <= i < |leases| ==> workers[i] == Some(EventsOf(s.view, leases[i]))
  }

  /** In every schedule whose gate was opened by the N-th arrival, the workers that finished their clones
      pass the overlap test. */
  lemma ArrivalsProveOverlap(s: State, actions: seq<Action>, t: State, leases: seq<LeaseId>, workers: seq<Option<seq<Event>>>)
    requires Initial(s) && Run(s, actions, t) && !t.timerOpened && Evidence(t, leases, workers)
    ensures OverlapInPairs(workers, CloneStart, CloneEnd)
  {
    InitialInv(s);
    RunKeepsInv(s, actions, t);
    forall i, j | 0 <= i < |workers| && 0 <= j < |workers|
      ensures TimeIntervalsOverlap(IntervalOf(workers[i].value, CloneStart, CloneEnd), IntervalOf(workers[j].value, CloneStart, CloneEnd))
    {
      var a, b := leases[i], leases[j];
      assert WorkerInv(t, a) && WorkerInv(t, b);
      assert StartsBeforeEnds(t, a, b) && StartsBeforeEnds(t, b, a);
    }
  }

  /** A complete run of N workers whose evidence fails the overlap test. */
  ghost predicate Defeated(s: State, actions: seq<Action>, t: State, leases: seq<LeaseId>, workers: seq<Option<seq<Event>>>) {
    Initial(s) && Run(s, actions, t) && Evidence(t, leases, workers) && !OverlapInPairs(workers, CloneStart, CloneEnd)
  }

  function TwoWorkers(a: LeaseId, b: LeaseId): State {
    State(View(map[], false, 0, 2), 1, false, map[a := Before, b := Before])
  }

  /** `w` records its start, passes the open gate and ends. */
  function CloneAlone(s: State, w: LeaseId, start: Time): State {
    Apply(Apply(Apply(s, Start(w, start)), PassGate(w)), End(w, start + 1))
  }

  lemma AloneTimes(s: State, w: LeaseId, start: Time, other: LeaseId)
    requires w in s.phases && other in s.phases && other != w
    ensures StartOf(CloneAlone(s, w, start), w) == start && EndOf(CloneAlone(s, w, start), w) == start + 1
    ensures EndOf(CloneAlone(s, w, start), other) == EndOf(s, other)
    ensures CloneAlone(s, w, start).phases == s.phases[w := Done] && CloneAlone(s, w, start).clock == start + 1
    ensures CloneAlone(s, w, start).view.gate == Apply(s, Start(w, start)).view.gate
  {
    var s1 := Apply(s, Start(w, start));
    ObservedTimes(s.view, w, CloneStart, start, w, CloneStart);
    ObservedTimes(s.view, w, CloneStart, start, other, CloneEnd);
    ObservedTimes(s1.view, w, CloneEnd, start + 1, w, CloneStart);
    ObservedTimes(s1.view, w, CloneEnd, start + 1, w, CloneEnd);
    ObservedTimes(s1.view, w, CloneEnd, start + 1, other, CloneEnd);
    assert s.phases[w := Waiting][w := InClone][w := Done] == s.phases[w := Done];
  }

  lemma AloneRuns(s: State, w: LeaseId, start: Time, rest: seq<Action>, t: State)
    requires w in s.phases && s.phases[w] == Before && s.clock < start && s.view.gate
    requires Run(CloneAlone(s, w, start), rest, t)
    ensures Run(s, [Start(w, start)] + ([PassGate(w)] + ([End(w, start + 1)] + rest)), t)
  {
    var s1 := Apply(s, Start(w, start));
    var s2 := Apply(s1, PassGate(w));
    RunCons(s2, End(w, start + 1), rest, t);
    RunCons(s1, PassGate(w), [End(w, start + 1)] + rest, t);
    RunCons(s, Start(w, start), [PassGate(w)] + ([End(w, start + 1)] + rest), t);
  }

  lemma RunCons(s: State, a: Action, rest: seq<Action>, t: State)
    requires Enabled(s, a) && Run(Apply(s, a), rest, t)
    ensures Run(s, [a] + rest, t)
  {
    assert ([a] + rest)[0] == a && ([a] + rest)[1..] == rest;
  }

  /** One worker is done before the other starts. */
  function OneAfterTheOther(a: LeaseId, b: LeaseId): State {
    CloneAlone(CloneAlone(Apply(TwoWorkers(a, b), Timer), a, 2), b, 4)
  }

  lemma OneAfterTheOtherRuns(a: LeaseId, b: LeaseId) returns (actions: seq<Action>)
    requires a != b
    ensures Run(TwoWorkers(a, b), actions, OneAfterTheOther(a, b))
  {
    var s1 := Apply(TwoWorkers(a, b), Timer);
    var s2, s3 := CloneAlone(s1, a, 2), OneAfterTheOther(a, b);
    AloneTimes(s1, a, 2, b);
    assert Run(s3, [], s3);
    AloneRuns(s2, b, 4, [], s3);
    var tail := [Start(b, 4)] + ([PassGate(b)] + ([End(b, 5)] + []));
    AloneRuns(s1, a, 2, tail, s3);
    var rest := [Start(a, 2)] + ([PassGate(a)] + ([End(a, 3)] + tail));
    RunCons(TwoWorkers(a, b), Timer, rest, s3);
    actions := [Timer] + rest;
  }

  lemma OneAfterTheOtherTimes(a: LeaseId, b: LeaseId)
    requires a != b
    ensures EndOf(OneAfterTheOther(a, b), a) == 3 && StartOf(OneAfterTheOther(a, b), b) == 4
    ensures OneAfterTheOther(a, b).phases == map[a := Done, b := Done]
  {
    var s1 := Apply(TwoWorkers(a, b), Timer);
    AloneTimes(s1, a, 2, b);
    AloneTimes(CloneAlone(s1, a, 2), b, 4, a);
  }

  lemma TwoWorkersStart(a: LeaseId, b: LeaseId)
    requires a != b
    ensures Initial(TwoWorkers(a, b))
  {
    var s := TwoWorkers(a, b);
    assert s.phases.Keys == {a, b} && |s.phases| == |s.phases.Keys|;
  }

  /** When the timer opened the gate the test may fail, for any two workers. */
  lemma TimerMayDefeatOverlap(a: LeaseId, b: LeaseId)
    requires a != b
    ensures exists actions, t, workers :: Defeated(TwoWorkers(a, b), actions, t, [a, b], workers)
  {
    var s, t := TwoWorkers(a, b), OneAfterTheOther(a, b);
    TwoWorkersStart(a, b);
    var actions := OneAfterTheOtherRuns(a, b);
    OneAfterTheOtherTimes(a, b);
    var workers := [Some(EventsOf(t.view, a)), Some(EventsOf(t.view, b))];
    assert !TimeIntervalsOverlap(IntervalOf(workers[0].value, CloneStart, CloneEnd), IntervalOf(workers[1].value, CloneStart, CloneEnd));
    assert Defeated(s, actions, t, [a, b], workers);
  }
}
