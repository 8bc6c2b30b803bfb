// Whether the shutdown gets through (indexer/pcapdb.c, bucketize.c): where it can hang, and that
// it can hang nowhere else.

module PipelineProgress {
  import opened Queues
  import opened Pipeline

  // ---- Who has been told to stop ----

  // How many of n threads the main thread has told to stop.
  function StoppedCaptures(m: Main, n: nat): nat {
    if m.StopCaptures? && m.i < n then m.i else if Phase(m) >= 1 then n else 0
  }

  function Stopped(m: Main, which: Set, n: nat): nat {
    if m.Stop? && m.which == which && m.i < n then m.i
    else if Phase(m) >= (if which == Indexers then 5 else 9) then n else 0
  }

  ghost predicate Told(s: State) {
    && (forall i :: 0 <= i < StoppedCaptures(s.main, |s.captures|) ==> s.captures[i].stop)
    && (forall i :: 0 <= i < Stopped(s.main, Indexers, |s.indexers|) ==> s.indexers[i].stop)
    && forall i :: 0 <= i < Stopped(s.main, Outputs, |s.outputs|) ==> s.outputs[i].stop
  }

  // As many threads as before, and those told to stop have not forgotten it.
  ghost predicate Remembers(s: State, t: State) {
    && |t.captures| == |s.captures| && |t.indexers| == |s.indexers| && |t.outputs| == |s.outputs|
    && (forall i :: 0 <= i < |s.captures| && s.captures[i].stop ==> t.captures[i].stop)
    && (forall i :: 0 <= i < |s.indexers| && s.indexers[i].stop ==> t.indexers[i].stop)
    && forall i :: 0 <= i < |s.outputs| && s.outputs[i].stop ==> t.outputs[i].stop
  }

  lemma CaptureRemembers(s: State, a: Action, i: nat)
    requires Enabled(s, a)
    requires a == StartChain(i) || a == NeedBucket(i) || a == GrowChain(i) || a == Send(i) || a ==
             EndOfFile(i) || a == ExitCapture(i)
    ensures Remembers(s, Apply(s, a)) && Apply(s, a).main == s.main
  {
  }

  lemma WorkerRemembers(s: State, a: Action, which: Set, i: nat)
    requires Enabled(s, a) && (a == Check(which, i) || a == Pop(which, i))
    ensures Remembers(s, Apply(s, a)) && Apply(s, a).main == s.main
  {
  }

  lemma OtherRemembers(s: State, a: Action)
    requires Enabled(s, a) && (a.Allocate? || a.PushIndexed? || a.Write? || a.ReturnBucket?)
    ensures Remembers(s, Apply(s, a)) && Apply(s, a).main == s.main
  {
  }

  lemma MainRemembers(s: State)
    requires Enabled(s, MainStep)
    ensures Remembers(s, Apply(s, MainStep))
  {
  }

  lemma StepRemembers(s: State, a: Action)
    requires Enabled(s, a)
    ensures Remembers(s, Apply(s, a)) && (a != MainStep ==> Apply(s, a).main == s.main)
  {
    match a
    case StartChain(i) => CaptureRemembers(s, a, i);
    case NeedBucket(i) => CaptureRemembers(s, a, i);
    case GrowChain(i) => CaptureRemembers(s, a, i);
    case Send(i) => CaptureRemembers(s, a, i);
    case EndOfFile(i) => CaptureRemembers(s, a, i);
    case ExitCapture(i) => CaptureRemembers(s, a, i);
    case Check(which, i) => WorkerRemembers(s, a, which, i);
    case Pop(which, i) => WorkerRemembers(s, a, which, i);
    case MainStep => MainRemembers(s);
    case _ => OtherRemembers(s, a);
  }

  // What the main thread does next is to tell one more thread, or nobody.
  lemma TellsOne(s: State, which: Set, n: nat)
    requires Enabled(s, MainStep) && s.main.Stop? && n == |Workers(s, which)|
    ensures var t := Apply(s, MainStep);
      Stopped(t.main, which, n) <= Stopped(s.main, which, n) ||
      (s.main.which == which && s.main.i < n && Stopped(t.main, which, n) == s.main.i + 1
       && s.main.i < |Workers(t, which)| && Workers(t, which)[s.main.i].stop)
  {
  }

  lemma TellsNone(s: State, which: Set, n: nat)
    requires Enabled(s, MainStep) && !s.main.Stop? && n == |Workers(s, which)|
    ensures Stopped(Apply(s, MainStep).main, which, n) <= Stopped(s.main, which, n)
  {
  }

  lemma TellsOneCapture(s: State, n: nat)
    requires Enabled(s, MainStep) && n == |s.captures|
    ensures var t := Apply(s, MainStep);
      StoppedCaptures(t.main, n) <= StoppedCaptures(s.main, n) ||
      (s.main.StopCaptures? && s.main.i < n && StoppedCaptures(t.main, n) == s.main.i + 1
       && s.main.i < |t.captures| && t.captures[s.main.i].stop)
  {
  }

  lemma MainTells(s: State)
    requires Told(s) && Enabled(s, MainStep)
    ensures Told(Apply(s, MainStep))
  {
    MainRemembers(s);
    TellsOneCapture(s, |s.captures|);
    if s.main.Stop? {
      TellsOne(s, Indexers, |s.indexers|);
      TellsOne(s, Outputs, |s.outputs|);
    } else {
      TellsNone(s, Indexers, |s.indexers|);
      TellsNone(s, Outputs, |s.outputs|);
    }
  }

  lemma StaysTold(s: State, a: Action)
    requires Told(s) && Enabled(s, a)
    ensures Told(Apply(s, a))
  {
    StepRemembers(s, a);
    if a == MainStep {
      MainTells(s);
    } else {
      RememberedTold(s, Apply(s, a));
    }
  }

  lemma RememberedTold(s: State, t: State)
    requires Told(s) && Remembers(s, t) && t.main == s.main
    ensures Told(t)
  {
  }

  // ---- Where it hangs ----

  ghost predicate Idle(w: Worker) { w.pc != Working && w.pc != Returning }

  // Capture thread i is waited for but waits itself, for a bucket; the ready queue is empty, and
  // so is everything from which it could be filled: nobody works on a chain, no chain is queued,
  // and all other capture threads wait as well or are through.
  ghost predicate Hung(s: State) {
    && s.main.JoinCaptures? && s.main.i < |s.captures| && s.captures[s.main.i].waiting && !s.captures[s.main.i].done
    && s.ready.items == [] && s.filled.items == [] && s.indexed.items == []
    && (forall j :: 0 <= j < |s.captures| ==> s.captures[j].waiting || s.captures[j].done)
    && (forall j :: 0 <= j < |s.indexers| ==> Idle(s.indexers[j]))
    && forall j :: 0 <= j < |s.outputs| ==> Idle(s.outputs[j])
  }

  // A step other than going round an empty queue, taking in more packets, or waiting.
  predicate Useful(s: State, a: Action) {
    Enabled(s, a) &&
    match a
    case Check(which, i) => Workers(s, which)[i].stop || Input(s, which).items != []
    case Pop(which, i) => Workers(s, which)[i].stop || Input(s, which).items != []
    case Allocate(_) => false
    case StartChain(_) => false
    case NeedBucket(_) => false
    case EndOfFile(_) => false
    case _ => true
  }

  // A worker that has not ended can go on if it has work, if there is some, or if it has been
  // told to stop.
  lemma WorkerCanGoOn(s: State, which: Set, i: nat)
    requires Good(s) && i < |Workers(s, which)| && Workers(s, which)[i].pc != Done
    requires !Idle(Workers(s, which)[i]) || Input(s, which).items != [] || Workers(s, which)[i].stop
    ensures exists a :: Useful(s, a)
  {
    var w := Workers(s, which)[i];
    assert GoodWorker(w, which, Input(s, which).closed);
    match w.pc
    case Checking => assert Useful(s, Check(which, i));
    case Popping => assert Useful(s, Pop(which, i));
    case Working =>
      if which == Indexers {
        assert Useful(s, PushIndexed(i));
      } else {
        assert Useful(s, Write(i));
      }
    case Returning =>
      assert Chained(s.next, WorkerChains(s.outputs)[i]);
      assert Useful(s, ReturnBucket(i));
    case Done =>
  }

  // A queue with something in it is not closed, and then no thread that takes from it has ended.
  lemma QueueCanBeEmptied(s: State, which: Set)
    requires Good(s) && |Workers(s, which)| > 0 && Input(s, which).items != []
    ensures exists a :: Useful(s, a)
  {
    assert GoodWorker(Workers(s, which)[0], which, Input(s, which).closed);
    WorkerCanGoOn(s, which, 0);
  }

  lemma CaptureCanGoOn(s: State, i: nat)
    requires Good(s) && Told(s) && s.main.JoinCaptures? && i < |s.captures| && !s.captures[i].done
    requires s.captures[i].waiting ==> s.ready.items != []
    ensures exists a :: Useful(s, a)
  {
    var c := s.captures[i];
    if c.waiting {
      assert Useful(s, GrowChain(i));
    } else if c.head == End {
      assert Useful(s, ExitCapture(i));
    } else {
      assert Useful(s, Send(i));
    }
  }

  // While the capture threads are waited for.
  lemma JoiningCaptures(s: State)
    requires Good(s) && Told(s) && s.main.JoinCaptures? && |s.indexers| > 0 && |s.outputs| > 0
    ensures (exists a :: Useful(s, a)) || Hung(s)
  {
    var i := s.main.i;
    if i >= |s.captures| || s.captures[i].done {
      assert Useful(s, MainStep);
    } else if j :| 0 <= j < |s.captures| && !s.captures[j].done && !s.captures[j].waiting {
      CaptureCanGoOn(s, j);
    } else if s.ready.items != [] {
      CaptureCanGoOn(s, i);
    } else if s.filled.items != [] {
      QueueCanBeEmptied(s, Indexers);
    } else if s.indexed.items != [] {
      QueueCanBeEmptied(s, Outputs);
    } else if j :| 0 <= j < |s.indexers| && !Idle(s.indexers[j]) {
      WorkerCanGoOn(s, Indexers, j);
    } else if j :| 0 <= j < |s.outputs| && !Idle(s.outputs[j]) {
      WorkerCanGoOn(s, Outputs, j);
    }
  }

  // While the main thread waits for a queue or for its threads.
  lemma WaitingForWorkers(s: State)
    requires Good(s) && Told(s) && (s.main.Await? || s.main.Join?) && |s.indexers| > 0 && |s.outputs| > 0
    ensures exists a :: Useful(s, a)
  {
    var which := s.main.which;
    if MainEnabled(s) {
      assert Useful(s, MainStep);
    } else if s.main.Await? {
      QueueCanBeEmptied(s, which);
    } else {
      WorkerCanGoOn(s, which, s.main.i);
    }
  }

  // As long as the shutdown is not through, some step is open that takes it further, unless it
  // hangs as described.
  lemma SomethingToDo(s: State)
    requires Good(s) && Told(s) && s.main != Finished && |s.indexers| > 0 && |s.outputs| > 0
    ensures (exists a :: Useful(s, a)) || Hung(s)
  {
    if s.main.JoinCaptures? {
      JoiningCaptures(s);
    } else if s.main.Await? || s.main.Join? {
      WaitingForWorkers(s);
    } else {
      assert Useful(s, MainStep);
    }
  }

  // What can still happen then.
  lemma OnlyGoingRound(s: State, a: Action)
    requires Hung(s) && Enabled(s, a)
    ensures a.Check? || a.Pop?
  {
  }

  lemma RoundWorker(s: State, a: Action, which: Set, i: nat)
    requires Hung(s) && Enabled(s, a) && (a == Check(which, i) || a == Pop(which, i))
    ensures Hung(Apply(s, a))
  {
  }

  // A shutdown that hangs has nothing left but threads that go round, and hangs for good.
  lemma HungForGood(s: State, a: Action)
    requires Hung(s) && Enabled(s, a)
    ensures (a.Check? || a.Pop?) && Hung(Apply(s, a))
  {
    OnlyGoingRound(s, a);
    match a
    case Check(which, i) => RoundWorker(s, a, which, i);
    case Pop(which, i) => RoundWorker(s, a, which, i);
  }

  // All buckets are in the chains of capture threads that wait for more.
  lemma HungHoldsAll(s: State, b: Bucket)
    requires Good(s) && Hung(s) && b in s.all
    ensures exists i :: 0 <= i < |s.captures| && s.captures[i].waiting && b in s.captures[i].chain
  {
    assert Held(s, b) == 1;
    forall j | 0 <= j < |s.indexers| ensures WorkerChains(s.indexers)[j] == [] {
      assert GoodWorker(s.indexers[j], Indexers, s.filled.closed);
    }
    forall j | 0 <= j < |s.outputs| ensures WorkerChains(s.outputs)[j] == [] {
      assert GoodWorker(s.outputs[j], Outputs, s.indexed.closed);
    }
    NoneHeld(WorkerChains(s.indexers), b);
    NoneHeld(WorkerChains(s.outputs), b);
    var i := WhichChain(CaptureChains(s.captures), b);
    CountedIsIn(s.captures[i].chain, b);
    assert GoodCapture(s.captures[i]);
  }

  lemma {:induction false} WhichChain(cs: seq<Chain>, b: Bucket) returns (i: nat)
    requires CountAll(cs, b) > 0
    ensures i < |cs| && Count(cs[i], b) > 0
  {
    if Count(cs[0], b) > 0 {
      i := 0;
    } else {
      i := WhichChain(cs[1..], b);
      i := i + 1;
    }
  }

  lemma {:induction false} CountedIsIn(q: seq<Bucket>, b: Bucket)
    requires Count(q, b) > 0
    ensures b in q
  {
    if q[0] != b {
      CountedIsIn(q[1..], b);
    }
  }

  // ---- Over whole runs ----

  lemma {:induction false} AlwaysTold(trace: seq<State>, i: nat)
    requires Run(trace) && i < |trace|
    ensures Told(trace[i]) && |trace[i].indexers| == |trace[0].indexers| && |trace[i].outputs| == |trace[0].outputs|
  {
    if i == 0 {
      ToldAtFirst(trace[0]);
    } else {
      AlwaysTold(trace, i - 1);
      assert StepAt(trace, i);
      NextTold(trace[i - 1], trace[i]);
    }
  }

  lemma ToldAtFirst(s: State)
    requires Initial(s)
    ensures Told(s)
  {
  }

  lemma NextTold(s: State, t: State)
    requires Told(s) && Next(s, t)
    ensures Told(t) && |t.indexers| == |s.indexers| && |t.outputs| == |s.outputs|
  {
    var a :| Enabled(s, a) && t == Apply(s, a);
    StaysTold(s, a);
    StepRemembers(s, a);
  }

  // In every state that any interleaving can reach, with at least one indexing and one output
  // thread: until the shutdown is through there is a step that takes it further, or it hangs.
  lemma Progress(trace: seq<State>, i: nat)
    requires Run(trace) && i < |trace| && |trace[0].indexers| > 0 && |trace[0].outputs| > 0
    ensures trace[i].main == Finished || (exists a :: Useful(trace[i], a)) || Hung(trace[i])
  {
    AlwaysGood(trace, i);
    AlwaysTold(trace, i);
    if trace[i].main != Finished {
      SomethingToDo(trace[i]);
    }
  }

  // Once it hangs it is never through.
  lemma {:induction false} NeverFinished(trace: seq<State>, i: nat, j: nat)
    requires Run(trace) && i <= j < |trace| && Hung(trace[i])
    ensures Hung(trace[j]) && trace[j].main != Finished
    decreases j
  {
    if i < j {
      NeverFinished(trace, i, j - 1);
      assert StepAt(trace, j);
      StaysHung(trace[j - 1], trace[j]);
    }
  }

  lemma StaysHung(s: State, t: State)
    requires Hung(s) && Next(s, t)
    ensures Hung(t)
  {
    var a :| Enabled(s, a) && t == Apply(s, a);
    HungForGood(s, a);
  }

  // It cannot hang while there is a bucket that no waiting capture thread holds.
  lemma SparedByABucket(trace: seq<State>, i: nat, b: Bucket)
    requires Run(trace) && i < |trace| && b in trace[i].all
    requires forall j :: 0 <= j < |trace[i].captures| && trace[i].captures[j].waiting ==>
                         b !in trace[i].captures[j].chain
    ensures !Hung(trace[i])
  {
    AlwaysGood(trace, i);
    if Hung(trace[i]) {
      HungHoldsAll(trace[i], b);
    }
  }

  // ---- A run that hangs ----

  // One thread of each kind and one bucket: it fills up, the capture thread asks for another,
  // and the main thread begins to shut down.
  ghost function AtFirst(): State {
    State(map[], Line([], false), Line([], false), Line([], false),
          [Capture(End, 0, [], false, false, false)], [Worker(Checking, End, [], false)],
            [Worker(Checking, End, [], false)],
          Running, End, [], {}, [], [], [], false)
  }

  lemma {:induction false} StepsOn(trace: seq<State>, a: Action) returns (longer: seq<State>)
    requires Run(trace) && Enabled(trace[|trace| - 1], a)
    ensures Run(longer) && longer == trace + [Apply(trace[|trace| - 1], a)]
  {
    longer := trace + [Apply(trace[|trace| - 1], a)];
    forall i | 0 < i < |longer| ensures StepAt(longer, i) {
      assert i < |trace| ==> StepAt(trace, i);
    }
  }

  lemma AsksForASecond() returns (trace: seq<State>)
    ensures Run(trace)
    ensures var s := trace[|trace| - 1];
      && s.main == Running && |s.captures| == |s.indexers| == |s.outputs| == 1
      && s.ready.items == [] && s.filled.items == [] && s.indexed.items == []
      && s.captures[0].waiting && !s.captures[0].done && Idle(s.indexers[0]) && Idle(s.outputs[0])
    ensures |trace[0].indexers| == |trace[0].outputs| == 1
  {
    trace := [AtFirst()];
    trace := StepsOn(trace, Allocate(0));
    trace := StepsOn(trace, StartChain(0));
    trace := StepsOn(trace, NeedBucket(0));
  }

  lemma SomeRunHangs() returns (trace: seq<State>)
    ensures Run(trace) && |trace[0].indexers| == |trace[0].outputs| == 1 && Hung(trace[|trace| - 1])
  {
    trace := AsksForASecond();
    trace := StepsOn(trace, MainStep);
    trace := StepsOn(trace, MainStep);
    trace := StepsOn(trace, MainStep);
  }
}
