// Capture threads that wait for a bucket (indexer/bucketize.c, queue.c). A pop on the empty ready
// queue waits to be signalled and then tries once more; if the queue is empty again it returns
// nothing, and the capture thread goes on with that.

module BucketWaits {
  import opened Queues
  import opened Pipeline

  // The pipeline, and of its waiting capture threads: those that are asleep in the pop, those that
  // were woken and have not tried again yet, those of them for which another capture thread has
  // taken a bucket since they were woken, and those that were given nothing.
  datatype Waits = Waits(s: State, asleep: set<nat>, woken: set<nat>, robbed: set<nat>, given: set<nat>)

  // A step of the pipeline, with the threads that its push wakes; or an attempt that finds nothing,
  // the first or the second one.
  datatype Move = Act(a: Action, wakes: set<nat>) | Sleep(i: nat) | GiveNothing(i: nat)

  // A push on the ready queue.
  predicate Pushes(s: State, a: Action)
    requires Enabled(s, a)
  {
    a.Allocate? || (a.ReturnBucket? && s.outputs[a.i].bkt.To?)
  }

  // The capture thread that takes a bucket.
  function Takers(a: Action): set<nat> {
    match a
    case StartChain(i) => {i}
    case GrowChain(i) => {i}
    case _ => {}
  }

  predicate Possible(w: Waits, m: Move) {
    match m
    case Act(a, wakes) =>
      && Enabled(w.s, a) && (a.GrowChain? ==> a.i !in w.asleep && a.i !in w.given)
      && wakes <= w.asleep
      && if Pushes(w.s, a) then w.asleep != {} ==> wakes != {} else wakes == {}
    case Sleep(i) =>
      && i < |w.s.captures| && w.s.captures[i].waiting && i !in w.asleep + w.woken + w.given
      && w.s.ready.items == []
    case GiveNothing(i) => i in w.woken && w.s.ready.items == []
  }

  function After(w: Waits, m: Move): Waits
    requires Possible(w, m)
  {
    match m
    case Act(a, wakes) =>
      var robbed := if Takers(a) == {} then w.robbed else w.robbed + w.woken;
      Waits(Apply(w.s, a), w.asleep - wakes, w.woken - Takers(a) + wakes, robbed - Takers(a), w.given)
    case Sleep(i) => w.(asleep := w.asleep + {i})
    case GiveNothing(i) => w.(woken := w.woken - {i}, robbed := w.robbed - {i}, given := w.given + {i})
  }

  ghost predicate AtStart(w: Waits) { Initial(w.s) && w.asleep == w.woken == w.robbed == w.given == {} }

  ghost predicate Moves(w: Waits, t: Waits) { exists m :: Possible(w, m) && t == After(w, m) }

  ghost predicate WaitRun(trace: seq<Waits>) {
    trace != [] && AtStart(trace[0]) && forall k :: 0 < k < |trace| ==> MoveAt(trace, k)
  }

  ghost predicate MoveAt(trace: seq<Waits>, k: int)
    requires 0 < k < |trace|
  {
    Moves(trace[k - 1], trace[k])
  }

  // ---- What every step keeps ----

  ghost predicate AllWaiting(s: State, threads: set<nat>) {
    forall i <- threads :: i < |s.captures| && s.captures[i].waiting
  }

  // Who was woken and not robbed finds a bucket; and while threads are asleep there is not more
  // than one bucket for each that was woken.
  ghost predicate Counts(w: Waits) {
    && w.asleep !! w.woken && w.robbed <= w.woken
    && (w.robbed != w.woken ==> w.s.ready.items != [])
    && (w.asleep != {} ==> |w.s.ready.items| <= |w.woken|)
  }

  ghost predicate Sane(w: Waits) {
    Sound(w.s) && AllWaiting(w.s, w.asleep) && AllWaiting(w.s, w.woken) && Counts(w)
  }

  // What steps do to the ready queue.
  lemma ReadyAfter(s: State, a: Action)
    requires Enabled(s, a) && Orderly(s) && !(a == MainStep && s.main == Freeing)
    ensures var q := Apply(s, a).ready.items;
      if Pushes(s, a) then |q| == |s.ready.items| + 1
      else if Takers(a) != {} then |q| == |s.ready.items| - 1
      else q == s.ready.items
  {
  }

  lemma StillWaiting(s: State, a: Action, threads: set<nat>)
    requires Enabled(s, a) && AllWaiting(s, threads) && (a.GrowChain? ==> a.i !in threads)
    ensures AllWaiting(Apply(s, a), threads)
  {
  }

  // Nobody waits once the ready queue is freed.
  lemma NobodyWaits(s: State, threads: set<nat>)
    requires Orderly(s) && s.main == Freeing && AllWaiting(s, threads)
    ensures threads == {}
  {
    assert forall i :: 0 <= i < |s.captures| ==> GoodCapture(s.captures[i]) && s.captures[i].done;
  }

  lemma StartsNotWaiting(s: State, a: Action, threads: set<nat>)
    requires Enabled(s, a) && AllWaiting(s, threads) && a.StartChain?
    ensures a.i !in threads
  {
  }

  lemma CountsAfter(w: Waits, a: Action, wakes: set<nat>)
    requires Possible(w, Act(a, wakes)) && Orderly(w.s) && Counts(w)
    requires AllWaiting(w.s, w.asleep) && AllWaiting(w.s, w.woken)
    ensures Counts(After(w, Act(a, wakes)))
  {
    if a == MainStep && w.s.main == Freeing {
      NobodyWaits(w.s, w.asleep);
      NobodyWaits(w.s, w.woken);
    } else {
      ReadyAfter(w.s, a);
      if Pushes(w.s, a) {
        PushCounts(w, a, wakes);
      } else if Takers(a) != {} {
        TakeCounts(w, a, wakes);
      }
    }
  }

  lemma TakeCounts(w: Waits, a: Action, wakes: set<nat>)
    requires Possible(w, Act(a, wakes)) && Takers(a) != {} && Counts(w) && AllWaiting(w.s, w.woken)
    requires |Apply(w.s, a).ready.items| == |w.s.ready.items| - 1
    ensures Counts(After(w, Act(a, wakes)))
  {
    assert Takers(a) == {a.i} && wakes == {};
    OneTakes(w, After(w, Act(a, wakes)), a.i);
  }

  // A thread that takes a bucket robs all the others that were woken.
  lemma OneTakes(w: Waits, t: Waits, i: nat)
    requires Counts(w) && |t.s.ready.items| == |w.s.ready.items| - 1 && t.asleep == w.asleep - {}
    requires t.woken == w.woken - {i} + {} && t.robbed == w.robbed + w.woken - {i}
    ensures Counts(t)
  {
    OneLess(w.woken, w.robbed, i);
  }

  lemma OneLess(woken: set<nat>, robbed: set<nat>, i: nat)
    requires robbed <= woken
    ensures woken - {i} + {} == robbed + woken - {i} && |woken - {i} + {}| >= |woken| - 1
  {
    var others := woken - {i} + {};
    assert others == robbed + woken - {i};
    assert woken == if i in woken then others + {i} else others;
  }

  lemma PushCounts(w: Waits, a: Action, wakes: set<nat>)
    requires Possible(w, Act(a, wakes)) && Pushes(w.s, a) && Counts(w)
    requires |Apply(w.s, a).ready.items| == |w.s.ready.items| + 1
    ensures Counts(After(w, Act(a, wakes)))
  {
    assert w.woken !! wakes;
    assert |w.woken + wakes| == |w.woken| + |wakes|;
  }

  lemma StaysSane(w: Waits, t: Waits)
    requires Sane(w) && Moves(w, t)
    ensures Sane(t) && |t.s.captures| == |w.s.captures|
  {
    var m :| Possible(w, m) && t == After(w, m);
    if m.Act? {
      SaneAfter(w, m.a, m.wakes);
    }
  }

  lemma SaneAfter(w: Waits, a: Action, wakes: set<nat>)
    requires Sane(w) && Possible(w, Act(a, wakes))
    ensures var t := After(w, Act(a, wakes)); Sane(t) && |t.s.captures| == |w.s.captures|
  {
    IsOrderly(w.s);
    CountsAfter(w, a, wakes);
    SoundAfter(w.s, a);
    WaitingAfter(w, a, wakes);
  }

  lemma IsOrderly(s: State)
    requires Sound(s)
    ensures Orderly(s)
  {
    assert Good(s);
  }

  lemma WaitingAfter(w: Waits, a: Action, wakes: set<nat>)
    requires AllWaiting(w.s, w.asleep) && AllWaiting(w.s, w.woken) && Possible(w, Act(a, wakes))
    ensures var t := After(w, Act(a, wakes)); AllWaiting(t.s, t.asleep) && AllWaiting(t.s, t.woken)
  {
    StillWaiting(w.s, a, w.asleep - wakes);
    StillWaiting(w.s, a, w.woken - Takers(a) + wakes);
  }

  lemma SoundAfter(s: State, a: Action)
    requires Sound(s) && Enabled(s, a)
    ensures Sound(Apply(s, a)) && |Apply(s, a).captures| == |s.captures|
  {
    SameCaptures(s, a);
    assert Next(s, Apply(s, a));
    StaysSound(s, Apply(s, a));
  }

  lemma SameCaptures(s: State, a: Action)
    requires Enabled(s, a)
    ensures |Apply(s, a).captures| == |s.captures|
  {
  }

  lemma {:induction false} AlwaysSane(trace: seq<Waits>, k: nat)
    requires WaitRun(trace) && k < |trace|
    ensures Sane(trace[k]) && |trace[k].s.captures| == |trace[0].s.captures|
  {
    if k == 0 {
      SoundAtFirst(trace[0].s);
    } else {
      AlwaysSane(trace, k - 1);
      assert MoveAt(trace, k);
      StaysSane(trace[k - 1], trace[k]);
    }
  }

  // ---- When a thread is given nothing ----

  // In every run a capture thread is given nothing only if another one has taken a bucket since it
  // was woken. It is never because the queue was closed.
  lemma NothingOnlyIfRobbed(trace: seq<Waits>, k: nat, i: nat)
    requires WaitRun(trace) && k < |trace| && Possible(trace[k], GiveNothing(i))
    ensures i in trace[k].robbed && !trace[k].s.ready.closed
  {
    AlwaysSane(trace, k);
    assert Good(trace[k].s);
  }

  // With one capture thread it never happens.
  lemma {:induction false} NeverAlone(trace: seq<Waits>, k: nat)
    requires WaitRun(trace) && k < |trace| && |trace[0].s.captures| == 1
    ensures trace[k].robbed == trace[k].given == {}
  {
    if k > 0 {
      NeverAlone(trace, k - 1);
      AlwaysSane(trace, k - 1);
      assert MoveAt(trace, k);
      AloneStep(trace[k - 1], trace[k]);
    }
  }

  lemma AloneStep(w: Waits, t: Waits)
    requires Sane(w) && Moves(w, t) && |w.s.captures| == 1 && w.robbed == w.given == {}
    ensures t.robbed == t.given == {}
  {
    var m :| Possible(w, m) && t == After(w, m);
    if m.Act? && Takers(m.a) != {} {
      assert Takers(m.a) == {0} && forall i <- w.woken :: i == 0;
    }
  }

  // No wake-up is lost: while threads are asleep and there is a bucket, some thread has been woken
  // for it.
  lemma SomeoneIsWoken(trace: seq<Waits>, k: nat)
    requires WaitRun(trace) && k < |trace| && trace[k].asleep != {} && trace[k].s.ready.items != []
    ensures trace[k].woken != {}
  {
    AlwaysSane(trace, k);
  }

  // Up to there the pipeline is safe in these runs as well.
  lemma SafeWhileWaiting(trace: seq<Waits>, k: nat)
    requires WaitRun(trace) && k < |trace|
    ensures !trace[k].s.refused
    ensures forall b :: Held(trace[k].s, b) == if b in trace[k].s.all then 1 else 0
  {
    AlwaysSane(trace, k);
    assert Good(trace[k].s);
  }

  // ---- A run in which it happens ----

  lemma MovesOn(trace: seq<Waits>, m: Move) returns (longer: seq<Waits>)
    requires WaitRun(trace) && Possible(trace[|trace| - 1], m)
    ensures WaitRun(longer) && longer == trace + [After(trace[|trace| - 1], m)]
  {
    longer := trace + [After(trace[|trace| - 1], m)];
    forall k | 0 < k < |longer| ensures MoveAt(longer, k) {
      assert k < |trace| ==> MoveAt(trace, k);
    }
  }

  // Two capture threads, one indexing and one output thread.
  ghost function TwoAtFirst(): Waits {
    var capture, worker := Capture(End, 0, [], false, false, false), Worker(Checking, End, [], false);
    Waits(State(map[], Line([], false), Line([], false), Line([], false),
                [capture, capture], [worker], [worker], Running, End, [], {}, [], [], [], false),
          {}, {}, {}, {})
  }

  // Nothing is under way behind the capture threads.
  ghost predicate Quiet(s: State) {
    && s.main == Running && |s.captures| == 2 && |s.indexers| == |s.outputs| == 1
    && s.filled == s.indexed == Line([], false)
    && s.indexers[0] == s.outputs[0] == Worker(Checking, End, [], false)
  }

  ghost predicate NobodySleeps(w: Waits) { w.asleep == w.woken == w.robbed == w.given == {} }

  lemma TwoBuckets() returns (trace: seq<Waits>)
    ensures WaitRun(trace) && trace[0] == TwoAtFirst()
    ensures var w := trace[|trace| - 1];
      && NobodySleeps(w) && Quiet(w.s) && w.s.ready == Line([0, 1], false) && w.s.next.Keys == {0, 1}
      && w.s.captures[0] == w.s.captures[1] == Capture(End, 0, [], false, false, false)
  {
    trace := [TwoAtFirst()];
    trace := MovesOn(trace, Act(Allocate(0), {}));
    trace := MovesOn(trace, Act(Allocate(1), {}));
  }

  lemma BothStart() returns (trace: seq<Waits>)
    ensures WaitRun(trace) && trace[0] == TwoAtFirst()
    ensures var w := trace[|trace| - 1];
      && NobodySleeps(w) && Quiet(w.s) && w.s.ready == Line([], false) && w.s.next.Keys == {0, 1}
      && w.s.captures[0] == Capture(To(0), 0, [0], false, false, false)
      && w.s.captures[1] == Capture(To(1), 1, [1], false, false, false)
  {
    trace := TwoBuckets();
    trace := MovesOn(trace, Act(StartChain(0), {}));
    trace := MovesOn(trace, Act(StartChain(1), {}));
  }

  // Thread 0 is asleep and the ready queue is empty.
  ghost predicate ZeroSleeps(w: Waits) {
    && w.asleep == {0} && w.woken == w.robbed == w.given == {} && w.s.main == Running
    && |w.s.captures| == 2 && w.s.captures[0].waiting && !w.s.captures[1].waiting && !w.s.captures[1].done
    && |w.s.indexers| == |w.s.outputs| == 1
    && w.s.ready == Line([], false) && 1 in w.s.next
  }

  // Each has one of the two buckets, and thread 0 needs another.
  lemma FallsAsleep() returns (trace: seq<Waits>)
    ensures WaitRun(trace) && trace[0] == TwoAtFirst()
    ensures var w := trace[|trace| - 1];
      && ZeroSleeps(w) && Quiet(w.s) && w.s.captures[1].head == To(1) && w.s.captures[1].chain == [1]
  {
    trace := BothStart();
    trace := MovesOn(trace, Act(NeedBucket(0), {}));
    trace := MovesOn(trace, Sleep(0));
  }

  // Thread 1 sends its bucket.
  lemma IsSent() returns (trace: seq<Waits>)
    ensures WaitRun(trace) && trace[0] == TwoAtFirst()
    ensures var w := trace[|trace| - 1];
      && ZeroSleeps(w) && w.s.captures[1].head == End && w.s.filled == Line([[1]], false)
      && w.s.indexed == Line([], false) && w.s.indexers[0].pc == Popping
      && w.s.outputs[0] == Worker(Checking, End, [], false)
  {
    trace := FallsAsleep();
    trace := MovesOn(trace, Act(Send(1), {}));
    trace := MovesOn(trace, Act(Check(Indexers, 0), {}));
  }

  // It is taken up by the indexing thread.
  lemma IsTakenIn() returns (trace: seq<Waits>)
    ensures WaitRun(trace) && trace[0] == TwoAtFirst()
    ensures var w := trace[|trace| - 1];
      && ZeroSleeps(w) && w.s.captures[1].head == End && w.s.indexers[0].pc == Working && w.s.indexers[0].chain == [1]
      && w.s.indexed == Line([], false) && w.s.outputs[0] == Worker(Checking, End, [], false)
  {
    trace := IsSent();
    trace := MovesOn(trace, Act(Pop(Indexers, 0), {}));
  }

  // It is indexed.
  lemma IsIndexed() returns (trace: seq<Waits>)
    ensures WaitRun(trace) && trace[0] == TwoAtFirst()
    ensures var w := trace[|trace| - 1];
      && ZeroSleeps(w) && w.s.captures[1].head == End
      && w.s.indexed == Line([[1]], false) && w.s.outputs[0] == Worker(Checking, End, [], false)
  {
    trace := IsTakenIn();
    trace := MovesOn(trace, Act(PushIndexed(0), {}));
  }

  // It is taken up by the output thread.
  lemma IsTakenUp() returns (trace: seq<Waits>)
    ensures WaitRun(trace) && trace[0] == TwoAtFirst()
    ensures var w := trace[|trace| - 1];
      && ZeroSleeps(w) && w.s.captures[1].head == End && w.s.outputs[0] == Worker(Working, To(1), [1], false)
  {
    trace := IsIndexed();
    trace := MovesOn(trace, Act(Check(Outputs, 0), {}));
    trace := MovesOn(trace, Act(Pop(Outputs, 0), {}));
  }

  // It is written.
  lemma IsWritten() returns (trace: seq<Waits>)
    ensures WaitRun(trace) && trace[0] == TwoAtFirst()
    ensures var w := trace[|trace| - 1];
      ZeroSleeps(w) && w.s.captures[1].head == End && w.s.outputs[0] == Worker(Returning, To(1), [1], false)
  {
    trace := IsTakenUp();
    trace := MovesOn(trace, Act(Write(0), {}));
  }

  // Its return wakes thread 0, but thread 1 takes it for a new chain.
  lemma IsTakenAway() returns (trace: seq<Waits>)
    ensures WaitRun(trace) && trace[0] == TwoAtFirst()
    ensures var w := trace[|trace| - 1];
      w.woken == {0} && w.given == {} && w.s.ready.items == []
  {
    trace := IsWritten();
    trace := MovesOn(trace, Act(ReturnBucket(0), {0}));
    trace := MovesOn(trace, Act(StartChain(1), {}));
  }

  // So thread 0 is given nothing.
  lemma SomeRunGivesNothing() returns (trace: seq<Waits>)
    ensures WaitRun(trace) && trace[0] == TwoAtFirst() && trace[|trace| - 1].given == {0}
  {
    trace := IsTakenAway();
    trace := MovesOn(trace, GiveNothing(0));
  }
}
