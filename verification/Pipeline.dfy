// The threads that buckets pass through, and their shutdown (indexer/pcapdb.c, bucketize.c,
// index.c, output.c). Each step is what one thread does between two points at which others
// can get in; the queues are locked, so one attempt to push or pop is one step.

module Pipeline {
  import opened Queues

  type Bucket = nat

  // Buckets linked through `next`. In the program a chain is handed on as the pointer to its
  // first bucket, and the queues hold such pointers.
  type Chain = seq<Bucket>

  datatype Link = End | To(bkt: Bucket)

  function First(c: Chain): Link { if c == [] then End else To(c[0]) }

  // A capture thread: head_bkt, current_bkt, the chain that hangs on the head, and whether the
  // thread waits for another bucket for the chain.
  datatype Capture = Capture(head: Link, current: Bucket, chain: Chain, waiting: bool, stop: bool, done: bool)

  datatype Pc = Checking | Popping | Working | Returning | Done

  // An indexing or output thread: the bucket in hand, and the chain that hangs on it.
  datatype Worker = Worker(pc: Pc, bkt: Link, chain: Chain, stop: bool)

  datatype Set = Indexers | Outputs

  // Where the main thread is: pcapdb_run, then pcapdb_shutdown.
  datatype Main =
    | Running
    | StopCaptures(i: nat) | JoinCaptures(i: nat)
    | Await(which: Set) | Close(which: Set) | Stop(which: Set, i: nat) | Join(which: Set, i: nat)
    | Freeing | Finished

  datatype State = State(
    // The `next` pointers of the buckets.
    next: map<Bucket, Link>,
    ready: Line<Bucket>, filled: Line<Chain>, indexed: Line<Chain>,
    captures: seq<Capture>, indexers: seq<Worker>, outputs: seq<Worker>,
    main: Main,
    // The bucket that bucketq_free has in hand, and the chain that hangs on it.
    bkt: Link, freeing: Chain,
    // What has happened: the buckets allocated, the chains sent by the capture threads, those
    // that output_bucket has written, the buckets freed, and whether a push was refused.
    all: set<Bucket>, sent: seq<Chain>, written: seq<Chain>, freed: seq<Bucket>, refused: bool)

  datatype Action =
    | Allocate(b: Bucket)
    | StartChain(i: nat) | NeedBucket(i: nat) | GrowChain(i: nat) | Send(i: nat)
    | EndOfFile(i: nat) | ExitCapture(i: nat)
    | Check(which: Set, i: nat) | Pop(which: Set, i: nat)
    | PushIndexed(i: nat)
    | Write(i: nat) | ReturnBucket(i: nat)
    | MainStep

  // ---- The steps ----

  function Workers(s: State, which: Set): seq<Worker> { if which == Indexers then s.indexers else s.outputs }

  function WithWorkers(s: State, which: Set, ws: seq<Worker>): State {
    if which == Indexers then s.(indexers := ws) else s.(outputs := ws)
  }

  function Input(s: State, which: Set): Line<Chain> { if which == Indexers then s.filled else s.indexed }

  function WithInput(s: State, which: Set, q: Line<Chain>): State {
    if which == Indexers then s.(filled := q) else s.(indexed := q)
  }

  predicate Enabled(s: State, a: Action) {
    match a
    case Allocate(b) => s.main == Running && b !in s.all
    case StartChain(i) => At(s, i) && s.captures[i].head == End && s.ready.items != [] && !s.ready.closed
    case NeedBucket(i) => At(s, i) && s.captures[i].head != End
    case GrowChain(i) => i < |s.captures| && s.captures[i].waiting && s.ready.items != [] && !s.ready.closed
    case Send(i) => At(s, i) && s.captures[i].head != End
    case EndOfFile(i) => At(s, i)
    case ExitCapture(i) => At(s, i) && s.captures[i].head == End && s.captures[i].stop
    case Check(which, i) => i < |Workers(s, which)| && Workers(s, which)[i].pc == Checking
    case Pop(which, i) => i < |Workers(s, which)| && Workers(s, which)[i].pc == Popping
    case PushIndexed(i) => i < |s.indexers| && s.indexers[i].pc == Working
    case Write(i) => i < |s.outputs| && s.outputs[i].pc == Working
    case ReturnBucket(i) => i < |s.outputs| && s.outputs[i].pc == Returning &&
      (s.outputs[i].bkt.To? ==> s.outputs[i].bkt.bkt in s.next)
    case MainStep => MainEnabled(s)
  }

  // Capture thread i runs and does not wait for a bucket.
  predicate At(s: State, i: nat) { i < |s.captures| && !s.captures[i].done && !s.captures[i].waiting }

  predicate MainEnabled(s: State) {
    match s.main
    case JoinCaptures(i) => i < |s.captures| ==> s.captures[i].done
    case Await(which) => Input(s, which).items == []
    case Join(which, i) => i < |Workers(s, which)| ==> Workers(s, which)[i].pc == Done
    case Freeing => s.bkt.To? ==> s.bkt.bkt in s.next
    case Finished => false
    case _ => true
  }

  function Apply(s: State, a: Action): State
    requires Enabled(s, a)
  {
    match a
    case Allocate(b) =>
      Refused(s.(all := s.all + {b}, next := s.next[b := End], ready := Pushed(s.ready, b)), s.ready.closed)
    case StartChain(i) =>
      // get_pkt_bucket without a chain: the first bucket of a new one.
      var (p, ready) := Taken(s.ready, false);
      s.(ready := ready, next := s.next[p.item := End],
         captures := s.captures[i := s.captures[i].(head := To(p.item), current := p.item, chain := [p.item])])
    case NeedBucket(i) =>
      // get_pkt_bucket with a chain whose last bucket is full: a pop that waits.
      s.(captures := s.captures[i := s.captures[i].(waiting := true)])
    case GrowChain(i) =>
      // What it waited for.
      var (p, ready) := Taken(s.ready, false);
      var c := s.captures[i];
      s.(ready := ready, next := s.next[c.current := To(p.item)][p.item := End],
         captures := s.captures[i := c.(current := p.item, chain := c.chain + [p.item], waiting := false)])
    case Send(i) =>
      // send_bucket.
      var c := s.captures[i];
      Refused(s.(filled := Pushed(s.filled, c.chain), sent := s.sent + [c.chain],
                 captures := s.captures[i := c.(head := End, chain := [])]), s.filled.closed)
    case EndOfFile(i) => s.(captures := s.captures[i := s.captures[i].(stop := true)])
    case ExitCapture(i) => s.(captures := s.captures[i := s.captures[i].(done := true)])
    case Check(which, i) =>
      var w := Workers(s, which)[i];
      WithWorkers(s, which, Workers(s, which)[i := w.(pc := if w.stop then Done else Popping)])
    case Pop(which, i) =>
      // Nothing to take, or a closed queue: round the loop again. A thread that waits makes no
      // step.
      var (p, q) := Taken(Input(s, which), false);
      var w := Workers(s, which)[i];
      if p.Got? then
        WithWorkers(WithInput(s, which, q), which,
                    Workers(s, which)[i := w.(pc := Working, bkt := First(p.item), chain := p.item)])
      else
        WithWorkers(s, which, Workers(s, which)[i := w.(pc := Checking)])
    case PushIndexed(i) =>
      // index_bucket, then on to the output threads.
      var w := s.indexers[i];
      Refused(s.(indexed := Pushed(s.indexed, w.chain),
                 indexers := s.indexers[i := w.(pc := Checking, bkt := End, chain := [])]), s.indexed.closed)
    case Write(i) =>
      // The last call of output_bucket for this chain.
      var w := s.outputs[i];
      s.(written := s.written + [w.chain], outputs := s.outputs[i := w.(pc := Returning)])
    case ReturnBucket(i) =>
      var w := s.outputs[i];
      if w.bkt == End then s.(outputs := s.outputs[i := w.(pc := Checking)])
      else
        var b := w.bkt.bkt;
        Refused(s.(next := s.next[b := End], ready := Pushed(s.ready, b),
                   outputs := s.outputs[i := w.(bkt := s.next[b], chain := Rest(w.chain))]), s.ready.closed)
    case MainStep => ApplyMain(s)
  }

  function Rest(c: Chain): Chain { if c == [] then [] else c[1..] }

  function Refused(s: State, closed: bool): State { s.(refused := s.refused || closed) }

  function ApplyMain(s: State): State
    requires MainEnabled(s)
  {
    match s.main
    case Running => s.(main := StopCaptures(0))
    case StopCaptures(i) =>
      if i < |s.captures| then
        s.(main := StopCaptures(i + 1), captures := s.captures[i := s.captures[i].(stop := true)])
      else s.(main := JoinCaptures(0))
    case JoinCaptures(i) => s.(main := if i < |s.captures| then JoinCaptures(i + 1) else Await(Indexers))
    // shutdown_thread_set, for one set of threads after the other.
    case Await(which) => s.(main := Close(which))
    case Close(which) => WithInput(s, which, Input(s, which).(closed := true)).(main := Stop(which, 0))
    case Stop(which, i) =>
      var ws := Workers(s, which);
      if i < |ws| then WithWorkers(s, which, ws[i := ws[i].(stop := true)]).(main := Stop(which, i + 1))
      else s.(main := Join(which, 0))
    case Join(which, i) =>
      s.(main := if i < |Workers(s, which)| then Join(which, i + 1)
                 else if which == Indexers then Await(Outputs) else Freeing)
    // bucketq_free on the ready queue.
    case Freeing =>
      if s.bkt == End then
        var (p, q) := Taken(s.ready, true);
        if p.Got? then s.(ready := q, bkt := To(p.item), freeing := [p.item]) else s.(main := Finished)
      else s.(freed := s.freed + [s.bkt.bkt], bkt := s.next[s.bkt.bkt], freeing := Rest(s.freeing))
  }

  predicate Initial(s: State) {
    && s.next == map[] && s.all == {} && s.ready == Line([], false) && s.filled == Line([], false) &&
       s.indexed == Line([], false)
    && (forall i :: 0 <= i < |s.captures| ==>
                    s.captures[i].head == End && s.captures[i].chain == [] && !s.captures[i].waiting &&
                      !s.captures[i].done)
    && (forall i :: 0 <= i < |s.indexers| ==> s.indexers[i] == Worker(Checking, End, [], false))
    && (forall i :: 0 <= i < |s.outputs| ==> s.outputs[i] == Worker(Checking, End, [], false))
    && s.main == Running && s.bkt == End && s.freeing == [] && s.sent == [] && s.written == [] && s.freed == [] &&
       !s.refused
  }

  // ---- The order of the shutdown ----

  // How far the main thread has come, as a number.
  function Phase(m: Main): nat {
    match m
    case Running => 0
    case StopCaptures(_) => 1
    case JoinCaptures(_) => 2
    case Await(which) => if which == Indexers then 3 else 7
    case Close(which) => if which == Indexers then 4 else 8
    case Stop(which, _) => if which == Indexers then 5 else 9
    case Join(which, _) => if which == Indexers then 6 else 10
    case Freeing => 11
    case Finished => 12
  }

  // A thread holds a chain exactly while it works on it.
  ghost predicate GoodWorker(w: Worker, which: Set, closed: bool) {
    && w.bkt == First(w.chain)
    && (w.pc == Working ==> w.chain != []) && (w.pc == Returning ==> which == Outputs)
    && (w.pc == Checking || w.pc == Popping || w.pc == Done ==> w.chain == [])
    && (w.stop ==> closed) && (w.pc == Done ==> w.stop)
  }

  ghost predicate GoodCapture(c: Capture) {
    c.head == First(c.chain) && (c.chain != [] ==> c.current == c.chain[|c.chain| - 1]) && (c.done ==> c.chain == [])
    && (c.waiting ==> c.chain != [])
  }

  // How many of n threads the main thread has joined.
  function JoinedCaptures(m: Main, n: nat): nat {
    if m.JoinCaptures? && m.i < n then m.i else if Phase(m) >= 2 then n else 0
  }

  function Joined(m: Main, which: Set, n: nat): nat {
    if m.Join? && m.which == which && m.i < n then m.i
    else if Phase(m) >= (if which == Indexers then 6 else 10) then n else 0
  }

  ghost predicate GoodCaptures(cs: seq<Capture>, joined: nat) {
    forall i :: 0 <= i < |cs| ==> GoodCapture(cs[i]) && (i < joined ==> cs[i].done)
  }

  ghost predicate GoodWorkers(ws: seq<Worker>, which: Set, closed: bool, joined: nat) {
    forall i :: 0 <= i < |ws| ==> GoodWorker(ws[i], which, closed) && (i < joined ==> ws[i].pc == Done)
  }

  // No queue is closed before those who push to it are gone and it is empty.
  ghost predicate GoodQueue(q: Line<Chain>, phase: nat, closing: nat) {
    && (q.closed <==> phase > closing) && (phase >= closing ==> q.items == [])
    && forall i :: 0 <= i < |q.items| ==> q.items[i] != []
  }

  ghost predicate Orderly(s: State) {
    var phase := Phase(s.main);
    && !s.refused && !s.ready.closed
    && GoodQueue(s.filled, phase, 4) && GoodQueue(s.indexed, phase, 8)
    && GoodCaptures(s.captures, JoinedCaptures(s.main, |s.captures|))
    && GoodWorkers(s.indexers, Indexers, s.filled.closed, Joined(s.main, Indexers, |s.indexers|))
    && GoodWorkers(s.outputs, Outputs, s.indexed.closed, Joined(s.main, Outputs, |s.outputs|))
    && GoodFreeing(s)
  }

  ghost predicate GoodFreeing(s: State) {
    && s.bkt == First(s.freeing) && (Phase(s.main) < 11 ==> s.freeing == [] && s.freed == [])
    && (s.main == Finished ==> s.freeing == [] && s.ready.items == [])
  }

  // A thread that is not joined yet may go on.
  lemma WorkerGoesOn(ws: seq<Worker>, which: Set, closed: bool, joined: nat, i: nat, w: Worker)
    requires GoodWorkers(ws, which, closed, joined) && i < |ws| && GoodWorker(w, which, closed)
    requires ws[i].pc == Done ==> w.pc == Done
    ensures GoodWorkers(ws[i := w], which, closed, joined)
  {
  }

  lemma CaptureGoesOn(cs: seq<Capture>, joined: nat, i: nat, c: Capture)
    requires GoodCaptures(cs, joined) && i < |cs| && GoodCapture(c) && (cs[i].done ==> c.done)
    ensures GoodCaptures(cs[i := c], joined)
  {
  }

  // The `next` pointers lead through c, from its first bucket to its last.
  ghost predicate Chained(next: map<Bucket, Link>, c: Chain) {
    c != [] ==> c[0] in next && next[c[0]] == First(c[1..]) && Chained(next, c[1..])
  }

  ghost predicate AllChained(next: map<Bucket, Link>, cs: seq<Chain>) {
    forall i :: 0 <= i < |cs| ==> Chained(next, cs[i])
  }

  function CaptureChains(cs: seq<Capture>): (r: seq<Chain>)
    ensures |r| == |cs| && forall i :: 0 <= i < |cs| ==> r[i] == cs[i].chain
  {
    seq(|cs|, i requires 0 <= i < |cs| => cs[i].chain)
  }

  function WorkerChains(ws: seq<Worker>): (r: seq<Chain>)
    ensures |r| == |ws| && forall i :: 0 <= i < |ws| ==> r[i] == ws[i].chain
  {
    seq(|ws|, i requires 0 <= i < |ws| => ws[i].chain)
  }

  // All chains are linked as they should be, and the buckets in the ready queue have no next.
  ghost predicate Linked(s: State) {
    && s.next.Keys == s.all
    && AllChained(s.next, CaptureChains(s.captures)) && AllChained(s.next, s.filled.items)
    && AllChained(s.next, WorkerChains(s.indexers)) && AllChained(s.next, s.indexed.items)
    && AllChained(s.next, WorkerChains(s.outputs)) && Chained(s.next, s.freeing)
    && AllEnd(s.next, s.ready.items)
  }

  ghost predicate AllEnd(next: map<Bucket, Link>, q: seq<Bucket>) {
    forall i :: 0 <= i < |q| ==> q[i] in next && next[q[i]] == End
  }

  // ---- The steps keep the order ----

  lemma OrderlyCapture(s: State, a: Action, i: nat)
    requires Orderly(s) && Enabled(s, a)
    requires a == StartChain(i) || a == NeedBucket(i) || a == GrowChain(i) || a == Send(i) || a ==
             EndOfFile(i) || a == ExitCapture(i)
    ensures Orderly(Apply(s, a))
  {
    var t := Apply(s, a);
    CaptureGoesOn(s.captures, JoinedCaptures(s.main, |s.captures|), i, t.captures[i]);
  }

  lemma OrderlyWorker(s: State, a: Action, which: Set, i: nat)
    requires Orderly(s) && Linked(s) && Enabled(s, a)
    requires a == Check(which, i) || a == Pop(which, i)
    ensures Orderly(Apply(s, a))
  {
    var t := Apply(s, a);
    WorkerGoesOn(Workers(s, which), which, Input(s, which).closed, Joined(s.main, which, |Workers(s, which)|), i,
                 Workers(t, which)[i]);
  }

  lemma OrderlyIndexer(s: State, i: nat)
    requires Orderly(s) && Enabled(s, PushIndexed(i))
    ensures Orderly(Apply(s, PushIndexed(i)))
  {
    var t := Apply(s, PushIndexed(i));
    WorkerGoesOn(s.indexers, Indexers, s.filled.closed, Joined(s.main, Indexers, |s.indexers|), i, t.indexers[i]);
  }

  lemma OrderlyOutput(s: State, a: Action, i: nat)
    requires Orderly(s) && Linked(s) && Enabled(s, a) && (a == Write(i) || a == ReturnBucket(i))
    ensures Orderly(Apply(s, a))
  {
    var t, w := Apply(s, a), s.outputs[i];
    assert Chained(s.next, WorkerChains(s.outputs)[i]);
    WorkerGoesOn(s.outputs, Outputs, s.indexed.closed, Joined(s.main, Outputs, |s.outputs|), i, t.outputs[i]);
  }

  lemma OrderlyCaptureShutdown(s: State)
    requires Orderly(s) && Enabled(s, MainStep) && Phase(s.main) <= 2
    ensures Orderly(Apply(s, MainStep))
  {
    if s.main.StopCaptures? && s.main.i < |s.captures| {
      CaptureGoesOn(s.captures, JoinedCaptures(s.main, |s.captures|), s.main.i, s.captures[s.main.i].(stop := true));
    }
  }

  lemma OrderlyClosing(s: State)
    requires Orderly(s) && Enabled(s, MainStep) && (s.main.Await? || s.main.Close?)
    ensures Orderly(Apply(s, MainStep))
  {
  }

  lemma OrderlyJoining(s: State)
    requires Orderly(s) && Enabled(s, MainStep) && (s.main.Stop? || s.main.Join?)
    ensures Orderly(Apply(s, MainStep))
  {
    var which := s.main.which;
    if s.main.Stop? && s.main.i < |Workers(s, which)| {
      WorkerGoesOn(Workers(s, which), which, Input(s, which).closed, Joined(s.main, which, |Workers(s, which)|),
                   s.main.i,
                   Workers(s, which)[s.main.i].(stop := true));
    }
  }

  lemma OrderlyFreeing(s: State)
    requires Orderly(s) && Linked(s) && Enabled(s, MainStep) && Phase(s.main) >= 11
    ensures Orderly(Apply(s, MainStep))
  {
  }

  lemma StaysOrderly(s: State, a: Action)
    requires Orderly(s) && Linked(s) && Enabled(s, a)
    ensures Orderly(Apply(s, a))
  {
    match a
    case Allocate(b) =>
    case StartChain(i) => OrderlyCapture(s, a, i);
    case NeedBucket(i) => OrderlyCapture(s, a, i);
    case GrowChain(i) => OrderlyCapture(s, a, i);
    case Send(i) => OrderlyCapture(s, a, i);
    case EndOfFile(i) => OrderlyCapture(s, a, i);
    case ExitCapture(i) => OrderlyCapture(s, a, i);
    case Check(which, i) => OrderlyWorker(s, a, which, i);
    case Pop(which, i) => OrderlyWorker(s, a, which, i);
    case PushIndexed(i) => OrderlyIndexer(s, i);
    case Write(i) => OrderlyOutput(s, a, i);
    case ReturnBucket(i) => OrderlyOutput(s, a, i);
    case MainStep =>
      if Phase(s.main) <= 2 {
        OrderlyCaptureShutdown(s);
      } else if s.main.Await? || s.main.Close? {
        OrderlyClosing(s);
      } else if s.main.Stop? || s.main.Join? {
        OrderlyJoining(s);
      } else {
        OrderlyFreeing(s);
      }
  }

  // ---- Where the buckets are ----

  // How often b is in a list.
  ghost function Count(q: seq<Bucket>, b: Bucket): nat {
    if q == [] then 0 else (if q[0] == b then 1 else 0) + Count(q[1..], b)
  }

  ghost function CountAll(cs: seq<Chain>, b: Bucket): nat {
    if cs == [] then 0 else Count(cs[0], b) + CountAll(cs[1..], b)
  }

  lemma {:induction false} CountIsMultiset(q: seq<Bucket>, b: Bucket)
    ensures Count(q, b) == multiset(q)[b]
  {
    if q != [] {
      CountIsMultiset(q[1..], b);
      assert q == [q[0]] + q[1..];
    }
  }

  // Counted once in all is to be in one of the chains, once.
  lemma {:induction false} CountAllPlaces(cs: seq<Chain>, b: Bucket)
    ensures CountAll(cs, b) == 0 <==> forall i :: 0 <= i < |cs| ==> b !in cs[i]
    ensures CountAll(cs, b) == 1 <==>
              exists i :: 0 <= i < |cs| && multiset(cs[i])[b] == 1 &&
                          forall j :: 0 <= j < |cs| && j != i ==> b !in cs[j]
  {
    if cs != [] {
      CountIsMultiset(cs[0], b);
      CountAllPlaces(cs[1..], b);
      assert forall i :: 0 <= i < |cs| - 1 ==> cs[1..][i] == cs[i + 1];
      if CountAll(cs[1..], b) == 1 && b !in cs[0] {
        var i :| 0 <= i < |cs| - 1 && multiset(cs[1..][i])[b] == 1 &&
                 forall j :: 0 <= j < |cs| - 1 && j != i ==> b !in cs[1..][j];
        assert multiset(cs[i + 1])[b] == 1;
      }
    }
  }

  lemma {:induction false} CountAppend(q: seq<Bucket>, x: Bucket, b: Bucket)
    ensures Count(q + [x], b) == Count(q, b) + if x == b then 1 else 0
  {
    if q == [] {
      assert q + [x] == [x];
    } else {
      CountAppend(q[1..], x, b);
      assert (q + [x])[1..] == q[1..] + [x];
    }
  }

  lemma {:induction false} CountUpdate(cs: seq<Chain>, i: nat, c: Chain, b: Bucket)
    requires i < |cs|
    ensures CountAll(cs[i := c], b) + Count(cs[i], b) == CountAll(cs, b) + Count(c, b)
  {
    if i == 0 {
      assert cs[i := c][1..] == cs[1..];
    } else {
      CountUpdate(cs[1..], i - 1, c, b);
      assert cs[i := c][1..] == cs[1..][i - 1 := c];
    }
  }

  lemma {:induction false} CountChain(cs: seq<Chain>, c: Chain, b: Bucket)
    ensures CountAll(cs + [c], b) == CountAll(cs, b) + Count(c, b)
  {
    if cs == [] {
      assert cs + [c] == [c];
    } else {
      CountChain(cs[1..], c, b);
      assert (cs + [c])[1..] == cs[1..] + [c];
    }
  }

  // In how many places b is: the ready queue, the capture threads, the filled queue, the
  // indexers, the indexed queue, the output threads, in the hand that frees it, freed.
  ghost function Held(s: State, b: Bucket): nat {
    Count(s.ready.items, b) + CountAll(CaptureChains(s.captures), b) + CountAll(s.filled.items, b)
    + CountAll(WorkerChains(s.indexers), b) + CountAll(s.indexed.items, b) + CountAll(WorkerChains(s.outputs), b)
    + Count(s.freeing, b) + Count(s.freed, b)
  }

  // Every bucket is in exactly one place, once.
  ghost predicate OnePlace(s: State) {
    forall b :: Held(s, b) == if b in s.all then 1 else 0
  }

  lemma CaptureUpdate(cs: seq<Capture>, i: nat, c: Capture, b: Bucket)
    requires i < |cs|
    ensures CountAll(CaptureChains(cs[i := c]), b) + Count(cs[i].chain, b) == CountAll(CaptureChains(cs), b) +
            Count(c.chain, b)
  {
    assert CaptureChains(cs[i := c]) == CaptureChains(cs)[i := c.chain];
    CountUpdate(CaptureChains(cs), i, c.chain, b);
  }

  lemma WorkerUpdate(ws: seq<Worker>, i: nat, w: Worker, b: Bucket)
    requires i < |ws|
    ensures CountAll(WorkerChains(ws[i := w]), b) + Count(ws[i].chain, b) == CountAll(WorkerChains(ws), b) +
            Count(w.chain, b)
  {
    assert WorkerChains(ws[i := w]) == WorkerChains(ws)[i := w.chain];
    CountUpdate(WorkerChains(ws), i, w.chain, b);
  }

  lemma KeptByCapture(s: State, a: Action, i: nat, b: Bucket)
    requires Orderly(s) && Enabled(s, a)
    requires a == StartChain(i) || a == NeedBucket(i) || a == GrowChain(i) || a == Send(i) || a ==
             EndOfFile(i) || a == ExitCapture(i)
    ensures Held(Apply(s, a), b) == Held(s, b)
  {
    var t := Apply(s, a);
    CaptureUpdate(s.captures, i, t.captures[i], b);
    if a == StartChain(i) {
      assert Count([s.ready.items[0]], b) == if s.ready.items[0] == b then 1 else 0;
    } else if a == GrowChain(i) {
      CountAppend(s.captures[i].chain, s.ready.items[0], b);
    } else if a == Send(i) {
      CountChain(s.filled.items, s.captures[i].chain, b);
    }
  }

  lemma KeptByWorker(s: State, a: Action, which: Set, i: nat, b: Bucket)
    requires Orderly(s) && Enabled(s, a) && (a == Check(which, i) || a == Pop(which, i))
    ensures Held(Apply(s, a), b) == Held(s, b)
  {
    var t := Apply(s, a);
    WorkerUpdate(Workers(s, which), i, Workers(t, which)[i], b);
  }

  lemma KeptByIndexer(s: State, i: nat, b: Bucket)
    requires Orderly(s) && Enabled(s, PushIndexed(i))
    ensures Held(Apply(s, PushIndexed(i)), b) == Held(s, b)
  {
    var t := Apply(s, PushIndexed(i));
    WorkerUpdate(s.indexers, i, t.indexers[i], b);
    CountChain(s.indexed.items, s.indexers[i].chain, b);
  }

  lemma KeptByOutput(s: State, a: Action, i: nat, b: Bucket)
    requires Orderly(s) && Enabled(s, a) && (a == Write(i) || a == ReturnBucket(i))
    ensures Held(Apply(s, a), b) == Held(s, b)
  {
    var t, w := Apply(s, a), s.outputs[i];
    WorkerUpdate(s.outputs, i, t.outputs[i], b);
    if a == ReturnBucket(i) && w.chain != [] {
      CountAppend(s.ready.items, w.chain[0], b);
    }
  }

  lemma KeptByMain(s: State, b: Bucket)
    requires Orderly(s) && Enabled(s, MainStep)
    ensures Held(Apply(s, MainStep), b) == Held(s, b)
  {
    var t := Apply(s, MainStep);
    match s.main
    case StopCaptures(i) =>
      if i < |s.captures| {
        CaptureUpdate(s.captures, i, t.captures[i], b);
      }
    case Stop(which, i) =>
      if i < |Workers(s, which)| {
        WorkerUpdate(Workers(s, which), i, Workers(t, which)[i], b);
      }
    case Freeing =>
      if s.freeing != [] {
        CountAppend(s.freed, s.freeing[0], b);
      } else if s.ready.items != [] {
        assert Count([s.ready.items[0]], b) == if s.ready.items[0] == b then 1 else 0;
      }
    case _ =>
  }

  lemma HeldAfter(s: State, a: Action, b: Bucket)
    requires Orderly(s) && Enabled(s, a)
    ensures Held(Apply(s, a), b) == Held(s, b) + if a == Allocate(b) then 1 else 0
  {
    match a
    case Allocate(x) => CountAppend(s.ready.items, x, b);
    case StartChain(i) => KeptByCapture(s, a, i, b);
    case NeedBucket(i) => KeptByCapture(s, a, i, b);
    case GrowChain(i) => KeptByCapture(s, a, i, b);
    case Send(i) => KeptByCapture(s, a, i, b);
    case EndOfFile(i) => KeptByCapture(s, a, i, b);
    case ExitCapture(i) => KeptByCapture(s, a, i, b);
    case Check(which, i) => KeptByWorker(s, a, which, i, b);
    case Pop(which, i) => KeptByWorker(s, a, which, i, b);
    case PushIndexed(i) => KeptByIndexer(s, i, b);
    case Write(i) => KeptByOutput(s, a, i, b);
    case ReturnBucket(i) => KeptByOutput(s, a, i, b);
    case MainStep => KeptByMain(s, b);
  }

  lemma OnlyAllocateAdds(s: State, a: Action)
    requires Enabled(s, a)
    ensures Apply(s, a).all == s.all + if a.Allocate? then {a.b} else {}
  {
  }

  lemma StaysInOnePlace(s: State, a: Action)
    requires Orderly(s) && OnePlace(s) && Enabled(s, a)
    ensures OnePlace(Apply(s, a))
  {
    OnlyAllocateAdds(s, a);
    forall b ensures Held(Apply(s, a), b) == if b in Apply(s, a).all then 1 else 0 {
      HeldAfter(s, a, b);
    }
  }

  // ---- The links ----

  // Changing the next of a bucket that is not in a chain.
  lemma {:induction false} StillChained(next: map<Bucket, Link>, x: Bucket, l: Link, c: Chain)
    requires Chained(next, c) && Count(c, x) == 0
    ensures Chained(next[x := l], c)
  {
    if c != [] {
      StillChained(next, x, l, c[1..]);
    }
  }

  lemma {:induction false} StillAllChained(next: map<Bucket, Link>, x: Bucket, l: Link, cs: seq<Chain>)
    requires AllChained(next, cs) && CountAll(cs, x) == 0
    ensures AllChained(next[x := l], cs)
  {
    if cs != [] {
      StillChained(next, x, l, cs[0]);
      StillAllChained(next, x, l, cs[1..]);
      assert forall i :: 1 <= i < |cs| ==> cs[i] == cs[1..][i - 1];
    }
  }

  lemma {:induction false} StillAllEnd(next: map<Bucket, Link>, x: Bucket, l: Link, q: seq<Bucket>)
    requires AllEnd(next, q) && (l == End || Count(q, x) == 0)
    ensures AllEnd(next[x := l], q)
  {
    if q != [] {
      StillAllEnd(next, x, l, q[1..]);
      assert forall i :: 1 <= i < |q| ==> q[i] == q[1..][i - 1];
    }
  }

  // The chain and whatever else there is but the bucket x.
  ghost predicate LinkedBut(s: State, next: map<Bucket, Link>, caps: seq<Chain>, outs: seq<Chain>, q: seq<Bucket>) {
    && AllChained(next, caps) && AllChained(next, s.filled.items)
    && AllChained(next, WorkerChains(s.indexers)) && AllChained(next, s.indexed.items)
    && AllChained(next, outs) && Chained(next, s.freeing) && AllEnd(next, q)
  }

  // x is in none of these places.
  ghost predicate Gone(s: State, caps: seq<Chain>, outs: seq<Chain>, q: seq<Bucket>, x: Bucket) {
    && CountAll(caps, x) == CountAll(s.filled.items, x) == CountAll(WorkerChains(s.indexers), x) == 0
    && CountAll(s.indexed.items, x) == CountAll(outs, x) == Count(s.freeing, x) == Count(q, x) == 0
  }

  // A bucket that is nowhere but in hand may get any next.
  lemma Relink(s: State, next: map<Bucket, Link>, caps: seq<Chain>, outs: seq<Chain>, q: seq<Bucket>, x: Bucket,
               l: Link)
    requires LinkedBut(s, next, caps, outs, q) && Gone(s, caps, outs, q, x)
    ensures LinkedBut(s, next[x := l], caps, outs, q)
  {
    StillAllChained(next, x, l, caps);
    StillAllChained(next, x, l, s.filled.items);
    StillAllChained(next, x, l, WorkerChains(s.indexers));
    StillAllChained(next, x, l, s.indexed.items);
    StillAllChained(next, x, l, outs);
    StillChained(next, x, l, s.freeing);
    StillAllEnd(next, x, l, q);
  }

  // A new last bucket.
  lemma {:induction false} ChainGrows(next: map<Bucket, Link>, c: Chain, b: Bucket)
    requires c != [] && Chained(next, c) && Count(c, c[|c| - 1]) == 1 && Count(c, b) == 0
    ensures Chained(next[c[|c| - 1] := To(b)][b := End], c + [b])
  {
    var last := c[|c| - 1];
    var next1 := next[last := To(b)][b := End];
    if |c| == 1 {
      assert (c + [b])[1..] == [b] && [b][1..] == [];
    } else {
      var d := c[1..];
      CountLast(d);
      assert c[0] != last && d[|d| - 1] == last;
      ChainGrows(next, d, b);
      assert (c + [b])[1..] == d + [b];
    }
  }

  lemma {:induction false} CountLast(c: Chain)
    requires c != []
    ensures Count(c, c[|c| - 1]) >= 1
  {
    if |c| > 1 {
      CountLast(c[1..]);
    }
  }

  lemma {:induction false} CountIn(cs: seq<Chain>, i: nat, b: Bucket)
    requires i < |cs|
    ensures Count(cs[i], b) <= CountAll(cs, b)
  {
    if i > 0 {
      CountIn(cs[1..], i - 1, b);
    }
  }

  lemma AddChained(next: map<Bucket, Link>, cs: seq<Chain>, c: Chain)
    requires AllChained(next, cs) && Chained(next, c)
    ensures AllChained(next, cs + [c])
  {
  }

  lemma PutChained(next: map<Bucket, Link>, cs: seq<Chain>, i: nat, c: Chain)
    requires AllChained(next, cs) && Chained(next, c) && i < |cs|
    ensures AllChained(next, cs[i := c])
  {
  }

  lemma LinkedAllocate(s: State, b: Bucket)
    requires Orderly(s) && OnePlace(s) && Linked(s) && Enabled(s, Allocate(b))
    ensures Linked(Apply(s, Allocate(b)))
  {
    assert Held(s, b) == 0;
    Relink(s, s.next, CaptureChains(s.captures), WorkerChains(s.outputs), s.ready.items, b, End);
  }

  lemma LinkedStart(s: State, i: nat)
    requires Orderly(s) && OnePlace(s) && Linked(s) && Enabled(s, StartChain(i))
    ensures Linked(Apply(s, StartChain(i)))
  {
    var t, b, caps := Apply(s, StartChain(i)), s.ready.items[0], CaptureChains(s.captures);
    assert Held(s, b) == 1 && Count(s.ready.items, b) >= 1;
    Relink(s, s.next, caps, WorkerChains(s.outputs), s.ready.items[1..], b, End);
    assert Chained(t.next, [b]) by {
      assert [b][1..] == [];
    }
    PutChained(t.next, caps, i, [b]);
    assert CaptureChains(t.captures) == caps[i := [b]];
  }

  // The bucket taken from the ready queue and the last one of the chain are nowhere else.
  lemma GrowGone(s: State, i: nat, b: Bucket, x: Bucket)
    requires OnePlace(s) && i < |s.captures| && s.ready.items != [] && b == s.ready.items[0]
    requires var c := s.captures[i].chain; c != [] && x == c[|c| - 1]
    ensures var others := CaptureChains(s.captures)[i := []];
      && Gone(s, others, WorkerChains(s.outputs), s.ready.items[1..], b)
      && Gone(s, others, WorkerChains(s.outputs), s.ready.items[1..], x)
      && Count(s.captures[i].chain, b) == 0 && Count(s.captures[i].chain, x) == 1 && b != x
  {
    var caps, c := CaptureChains(s.captures), s.captures[i].chain;
    CountLast(c);
    CountIn(caps, i, b);
    CountIn(caps, i, x);
    CountUpdate(caps, i, [], b);
    CountUpdate(caps, i, [], x);
    assert Held(s, b) <= 1 && Held(s, x) <= 1;
  }

  lemma GrowRelinks(s: State, i: nat, c: Chain, others: seq<Chain>, outs: seq<Chain>, q: seq<Bucket>, b: Bucket)
    requires c != [] && Chained(s.next, c) && i < |others|
    requires var x := c[|c| - 1]; Gone(s, others, outs, q, b) && Gone(s, others, outs, q, x) && Count(c, b) == 0 &&
                                  Count(c, x) == 1
    requires LinkedBut(s, s.next, others, outs, q)
    ensures LinkedBut(s, s.next[c[|c| - 1] := To(b)][b := End], others[i := c + [b]], outs, q)
  {
    var x := c[|c| - 1];
    Relink(s, s.next, others, outs, q, x, To(b));
    Relink(s, s.next[x := To(b)], others, outs, q, b, End);
    ChainGrows(s.next, c, b);
    PutChained(s.next[x := To(b)][b := End], others, i, c + [b]);
  }

  // What GrowChain comes to.
  lemma Grown(s: State, i: nat) returns (b: Bucket, x: Bucket, c: Chain)
    requires Orderly(s) && Enabled(s, GrowChain(i))
    ensures i < |s.captures| && c == s.captures[i].chain && c != [] && x == c[|c| - 1]
    ensures s.ready.items != [] && b == s.ready.items[0]
    ensures var t := Apply(s, GrowChain(i));
      && t.next == s.next[x := To(b)][b := End] && t.all == s.all && t.ready.items == s.ready.items[1..]
      && CaptureChains(t.captures) == CaptureChains(s.captures)[i := []][i := c + [b]]
      && t.filled == s.filled && t.indexers == s.indexers && t.indexed == s.indexed && t.freeing == s.freeing &&
         t.outputs == s.outputs
  {
    assert GoodCapture(s.captures[i]);
    b, c := s.ready.items[0], s.captures[i].chain;
    x := c[|c| - 1];
    var t := Apply(s, GrowChain(i));
    assert t.captures[i].chain == c + [b];
    assert CaptureChains(t.captures) == CaptureChains(s.captures)[i := []][i := c + [b]];
  }

  // All chains but the one that grows are linked, and it is, too.
  lemma GrowsFrom(s: State, i: nat, b: Bucket, x: Bucket, c: Chain)
    requires OnePlace(s) && Linked(s) && i < |s.captures| && c == s.captures[i].chain && c != [] && x == c[|c| - 1]
    requires s.ready.items != [] && b == s.ready.items[0]
    ensures var caps := CaptureChains(s.captures)[i := []];
      LinkedBut(s, s.next[x := To(b)][b := End], caps[i := c + [b]], WorkerChains(s.outputs), s.ready.items[1..])
    ensures x in s.next && b in s.next
  {
    var caps := CaptureChains(s.captures);
    GrowGone(s, i, b, x);
    PutChained(s.next, caps, i, []);
    assert Chained(s.next, caps[i]);
    CurrentLinked(s.next, c);
    GrowRelinks(s, i, c, caps[i := []], WorkerChains(s.outputs), s.ready.items[1..], b);
  }

  lemma LinkedGrow(s: State, i: nat)
    requires Orderly(s) && OnePlace(s) && Linked(s) && Enabled(s, GrowChain(i))
    ensures Linked(Apply(s, GrowChain(i)))
  {
    var b, x, c := Grown(s, i);
    GrowsFrom(s, i, b, x, c);
    LinkedFrom(s, Apply(s, GrowChain(i)), CaptureChains(s.captures)[i := []][i := c + [b]], WorkerChains(s.outputs),
               s.ready.items[1..]);
  }

  lemma LinkedFrom(s: State, t: State, caps: seq<Chain>, outs: seq<Chain>, q: seq<Bucket>)
    requires LinkedBut(s, t.next, caps, outs, q) && t.next.Keys == t.all
    requires t.filled == s.filled && t.indexers == s.indexers && t.indexed == s.indexed && t.freeing == s.freeing
    requires CaptureChains(t.captures) == caps && WorkerChains(t.outputs) == outs && t.ready.items == q
    ensures Linked(t)
  {
  }

  lemma {:induction false} CurrentLinked(next: map<Bucket, Link>, c: Chain)
    requires Chained(next, c)
    ensures forall i :: 0 <= i < |c| ==> c[i] in next
  {
    if c != [] {
      CurrentLinked(next, c[1..]);
      assert forall i :: 1 <= i < |c| ==> c[i] == c[1..][i - 1];
    }
  }

  lemma ReturnGone(s: State, i: nat, b: Bucket)
    requires OnePlace(s) && i < |s.outputs|
    requires var c := s.outputs[i].chain; c != [] && b == c[0]
    ensures Gone(s, CaptureChains(s.captures), WorkerChains(s.outputs)[i := s.outputs[i].chain[1..]], s.ready.items, b)
  {
    var outs, c := WorkerChains(s.outputs), s.outputs[i].chain;
    CountIn(outs, i, b);
    CountUpdate(outs, i, c[1..], b);
    assert Held(s, b) <= 1;
  }

  // What ReturnBucket comes to.
  lemma Returned(s: State, i: nat)
    requires Orderly(s) && Linked(s) && Enabled(s, ReturnBucket(i))
    ensures var t, c := Apply(s, ReturnBucket(i)), s.outputs[i].chain;
      && t.all == s.all && t.captures == s.captures
      && t.filled == s.filled && t.indexers == s.indexers && t.indexed == s.indexed && t.freeing == s.freeing
      && if c == [] then t.next == s.next && t.ready == s.ready && WorkerChains(t.outputs) == WorkerChains(s.outputs)
         else t.next == s.next[c[0] := End] && t.ready.items == s.ready.items + [c[0]]
              && WorkerChains(t.outputs) == WorkerChains(s.outputs)[i := c[1..]]
  {
    var t, w := Apply(s, ReturnBucket(i)), s.outputs[i];
    assert GoodWorker(w, Outputs, s.indexed.closed);
    if w.chain == [] {
      assert WorkerChains(t.outputs) == WorkerChains(s.outputs);
    } else {
      assert WorkerChains(t.outputs) == WorkerChains(s.outputs)[i := w.chain[1..]];
    }
  }

  lemma ReturnsFrom(s: State, i: nat)
    requires OnePlace(s) && Linked(s) && i < |s.outputs| && s.outputs[i].chain != []
    ensures var c := s.outputs[i].chain;
      && c[0] in s.next
      && LinkedBut(s, s.next[c[0] := End], CaptureChains(s.captures), WorkerChains(s.outputs)[i := c[1..]],
                   s.ready.items + [c[0]])
  {
    var outs, c := WorkerChains(s.outputs), s.outputs[i].chain;
    ReturnGone(s, i, c[0]);
    assert Chained(s.next, outs[i]);
    PutChained(s.next, outs, i, c[1..]);
    Relink(s, s.next, CaptureChains(s.captures), outs[i := c[1..]], s.ready.items, c[0], End);
  }

  lemma LinkedReturn(s: State, i: nat)
    requires Orderly(s) && OnePlace(s) && Linked(s) && Enabled(s, ReturnBucket(i))
    ensures Linked(Apply(s, ReturnBucket(i)))
  {
    var t, c := Apply(s, ReturnBucket(i)), s.outputs[i].chain;
    Returned(s, i);
    if c == [] {
      LinkedFrom(s, t, CaptureChains(s.captures), WorkerChains(s.outputs), s.ready.items);
    } else {
      ReturnsFrom(s, i);
      LinkedFrom(s, t, CaptureChains(s.captures), WorkerChains(s.outputs)[i := c[1..]], s.ready.items + [c[0]]);
    }
  }

  lemma LinkedCapture(s: State, a: Action, i: nat)
    requires Linked(s) && Enabled(s, a) &&
             (a == NeedBucket(i) || a == Send(i) || a == EndOfFile(i) || a == ExitCapture(i))
    ensures Linked(Apply(s, a))
  {
    var t, caps := Apply(s, a), CaptureChains(s.captures);
    assert CaptureChains(t.captures) == caps[i := t.captures[i].chain];
    PutChained(s.next, caps, i, t.captures[i].chain);
    if a == Send(i) {
      assert Chained(s.next, caps[i]);
      AddChained(s.next, s.filled.items, s.captures[i].chain);
    }
  }

  lemma LinkedWorker(s: State, a: Action, which: Set, i: nat)
    requires Linked(s) && Enabled(s, a) && (a == Check(which, i) || a == Pop(which, i))
    ensures Linked(Apply(s, a))
  {
    if which == Indexers {
      LinkedIndexerPops(s, a, i);
    } else {
      LinkedOutputPops(s, a, i);
    }
  }

  lemma LinkedIndexerPops(s: State, a: Action, i: nat)
    requires Linked(s) && Enabled(s, a) && (a == Check(Indexers, i) || a == Pop(Indexers, i))
    ensures Linked(Apply(s, a))
  {
    var t, chains := Apply(s, a), WorkerChains(s.indexers);
    assert WorkerChains(t.indexers) == chains[i := t.indexers[i].chain];
    assert Chained(s.next, chains[i]);
    PutChained(s.next, chains, i, t.indexers[i].chain);
  }

  lemma LinkedOutputPops(s: State, a: Action, i: nat)
    requires Linked(s) && Enabled(s, a) && (a == Check(Outputs, i) || a == Pop(Outputs, i))
    ensures Linked(Apply(s, a))
  {
    var t, chains := Apply(s, a), WorkerChains(s.outputs);
    assert WorkerChains(t.outputs) == chains[i := t.outputs[i].chain];
    assert Chained(s.next, chains[i]);
    PutChained(s.next, chains, i, t.outputs[i].chain);
  }

  lemma LinkedIndexer(s: State, i: nat)
    requires Linked(s) && Enabled(s, PushIndexed(i))
    ensures Linked(Apply(s, PushIndexed(i)))
  {
    var t, chains := Apply(s, PushIndexed(i)), WorkerChains(s.indexers);
    assert Chained(s.next, chains[i]);
    assert WorkerChains(t.indexers) == chains[i := []];
    PutChained(s.next, chains, i, []);
    AddChained(s.next, s.indexed.items, s.indexers[i].chain);
  }

  lemma LinkedMain(s: State)
    requires Orderly(s) && Linked(s) && Enabled(s, MainStep)
    ensures Linked(Apply(s, MainStep))
  {
    var t := Apply(s, MainStep);
    assert CaptureChains(t.captures) == CaptureChains(s.captures);
    assert WorkerChains(t.indexers) == WorkerChains(s.indexers) && WorkerChains(t.outputs) == WorkerChains(s.outputs);
    if s.main == Freeing && s.freeing == [] && s.ready.items != [] {
      assert s.ready.items[0] in s.next && [s.ready.items[0]][1..] == [];
    }
  }

  lemma StaysLinked(s: State, a: Action)
    requires Orderly(s) && OnePlace(s) && Linked(s) && Enabled(s, a)
    ensures Linked(Apply(s, a))
  {
    match a
    case Allocate(b) => LinkedAllocate(s, b);
    case StartChain(i) => LinkedStart(s, i);
    case NeedBucket(i) => LinkedCapture(s, a, i);
    case GrowChain(i) => LinkedGrow(s, i);
    case Send(i) => LinkedCapture(s, a, i);
    case EndOfFile(i) => LinkedCapture(s, a, i);
    case ExitCapture(i) => LinkedCapture(s, a, i);
    case Check(which, i) => LinkedWorker(s, a, which, i);
    case Pop(which, i) => LinkedWorker(s, a, which, i);
    case PushIndexed(i) => LinkedIndexer(s, i);
    case Write(i) => assert WorkerChains(Apply(s, a).outputs) == WorkerChains(s.outputs);
    case ReturnBucket(i) => LinkedReturn(s, i);
    case MainStep => LinkedMain(s);
  }

  // ---- What becomes of the chains sent ----

  ghost function CountChains(cs: seq<Chain>, c: Chain): nat {
    if cs == [] then 0 else (if cs[0] == c then 1 else 0) + CountChains(cs[1..], c)
  }

  // How many of the threads are working on a chain like c.
  ghost function InWork(ws: seq<Worker>, c: Chain): nat {
    if ws == [] then 0 else WorksOn(ws[0], c) + InWork(ws[1..], c)
  }

  ghost function WorksOn(w: Worker, c: Chain): nat { if w.pc == Working && w.chain == c then 1 else 0 }

  lemma {:induction false} ChainsAreMultiset(cs: seq<Chain>, c: Chain)
    ensures CountChains(cs, c) == multiset(cs)[c]
  {
    if cs != [] {
      ChainsAreMultiset(cs[1..], c);
      assert cs == [cs[0]] + cs[1..];
    }
  }

  lemma {:induction false} CountOneChain(cs: seq<Chain>, d: Chain, c: Chain)
    ensures CountChains(cs + [d], c) == CountChains(cs, c) + if d == c then 1 else 0
  {
    if cs == [] {
      assert cs + [d] == [d];
    } else {
      CountOneChain(cs[1..], d, c);
      assert (cs + [d])[1..] == cs[1..] + [d];
    }
  }

  lemma {:induction false} InWorkUpdate(ws: seq<Worker>, i: nat, w: Worker, c: Chain)
    requires i < |ws|
    ensures InWork(ws[i := w], c) + WorksOn(ws[i], c) == InWork(ws, c) + WorksOn(w, c)
  {
    if i == 0 {
      assert ws[i := w][1..] == ws[1..];
    } else {
      InWorkUpdate(ws[1..], i - 1, w, c);
      assert ws[i := w][1..] == ws[1..][i - 1 := w];
    }
  }

  ghost function OnTheWay(s: State, c: Chain): nat {
    CountChains(s.filled.items, c) + InWork(s.indexers, c) + CountChains(s.indexed.items, c) + InWork(s.outputs, c)
    + CountChains(s.written, c)
  }

  // Every chain sent is on its way or written, none twice.
  ghost predicate Delivering(s: State) {
    forall c :: OnTheWay(s, c) == CountChains(s.sent, c)
  }

  // What is on its way, less what was sent.
  ghost function Balance(s: State, c: Chain): int { OnTheWay(s, c) - CountChains(s.sent, c) }

  lemma BalanceSend(s: State, i: nat, c: Chain)
    requires Orderly(s) && Enabled(s, Send(i))
    ensures Balance(Apply(s, Send(i)), c) == Balance(s, c)
  {
    CountOneChain(s.filled.items, s.captures[i].chain, c);
    CountOneChain(s.sent, s.captures[i].chain, c);
  }

  lemma BalanceWorker(s: State, a: Action, which: Set, i: nat, c: Chain)
    requires Orderly(s) && Enabled(s, a) && (a == Check(which, i) || a == Pop(which, i))
    ensures Balance(Apply(s, a), c) == Balance(s, c)
  {
    InWorkUpdate(Workers(s, which), i, Workers(Apply(s, a), which)[i], c);
  }

  lemma BalanceIndexed(s: State, i: nat, c: Chain)
    requires Orderly(s) && Enabled(s, PushIndexed(i))
    ensures Balance(Apply(s, PushIndexed(i)), c) == Balance(s, c)
  {
    InWorkUpdate(s.indexers, i, Apply(s, PushIndexed(i)).indexers[i], c);
    CountOneChain(s.indexed.items, s.indexers[i].chain, c);
  }

  lemma BalanceOutput(s: State, a: Action, i: nat, c: Chain)
    requires Orderly(s) && Enabled(s, a) && (a == Write(i) || a == ReturnBucket(i))
    ensures Balance(Apply(s, a), c) == Balance(s, c)
  {
    InWorkUpdate(s.outputs, i, Apply(s, a).outputs[i], c);
    CountOneChain(s.written, s.outputs[i].chain, c);
  }

  lemma BalanceMain(s: State, c: Chain)
    requires Orderly(s) && Enabled(s, MainStep)
    ensures Balance(Apply(s, MainStep), c) == Balance(s, c)
  {
    if s.main.Stop? && s.main.i < |Workers(s, s.main.which)| {
      InWorkUpdate(Workers(s, s.main.which), s.main.i, Workers(Apply(s, MainStep), s.main.which)[s.main.i], c);
    }
  }

  lemma StaysBalanced(s: State, a: Action, c: Chain)
    requires Orderly(s) && Enabled(s, a)
    ensures Balance(Apply(s, a), c) == Balance(s, c)
  {
    match a
    case Send(i) => BalanceSend(s, i, c);
    case Check(which, i) => BalanceWorker(s, a, which, i, c);
    case Pop(which, i) => BalanceWorker(s, a, which, i, c);
    case PushIndexed(i) => BalanceIndexed(s, i, c);
    case Write(i) => BalanceOutput(s, a, i, c);
    case ReturnBucket(i) => BalanceOutput(s, a, i, c);
    case MainStep => BalanceMain(s, c);
    case _ =>
  }

  lemma StaysDelivering(s: State, a: Action)
    requires Orderly(s) && Delivering(s) && Enabled(s, a)
    ensures Delivering(Apply(s, a))
  {
    forall c ensures OnTheWay(Apply(s, a), c) == CountChains(Apply(s, a).sent, c) {
      StaysBalanced(s, a, c);
      assert Balance(s, c) == 0;
    }
  }

  // ---- Over whole runs ----

  ghost predicate Good(s: State) { Orderly(s) && OnePlace(s) && Linked(s) && Delivering(s) }

  ghost predicate Next(s: State, t: State) {
    exists a :: Enabled(s, a) && t == Apply(s, a)
  }

  // Any interleaving of the steps of the threads.
  ghost predicate Run(trace: seq<State>) {
    && trace != [] && Initial(trace[0])
    && forall i :: 0 < i < |trace| ==> StepAt(trace, i)
  }

  ghost predicate StepAt(trace: seq<State>, i: int)
    requires 0 < i < |trace|
  {
    Next(trace[i - 1], trace[i])
  }

  lemma {:induction false} NoneHeld(cs: seq<Chain>, b: Bucket)
    requires forall i :: 0 <= i < |cs| ==> cs[i] == []
    ensures CountAll(cs, b) == 0
  {
    if cs != [] {
      NoneHeld(cs[1..], b);
    }
  }

  lemma {:induction false} NoneAtWork(ws: seq<Worker>, c: Chain)
    requires forall i :: 0 <= i < |ws| ==> ws[i].pc != Working
    ensures InWork(ws, c) == 0
  {
    if ws != [] {
      NoneAtWork(ws[1..], c);
    }
  }

  lemma GoodAtFirst(s: State)
    requires Initial(s)
    ensures Good(s)
  {
    forall b ensures Held(s, b) == 0 {
      NoneHeld(CaptureChains(s.captures), b);
      NoneHeld(WorkerChains(s.indexers), b);
      NoneHeld(WorkerChains(s.outputs), b);
    }
    forall c ensures OnTheWay(s, c) == 0 {
      NoneAtWork(s.indexers, c);
      NoneAtWork(s.outputs, c);
    }
  }

  lemma StaysGood(s: State, t: State)
    requires Good(s) && Next(s, t)
    ensures Good(t)
  {
    var a :| Enabled(s, a) && t == Apply(s, a);
    StaysOrderly(s, a);
    StaysInOnePlace(s, a);
    StaysLinked(s, a);
    StaysDelivering(s, a);
  }

  // As Good, to be carried along as it is.
  ghost predicate Sound(s: State) { exists q :: q == s && Good(q) }

  lemma StaysSound(s: State, t: State)
    requires Sound(s) && Next(s, t)
    ensures Sound(t)
  {
    StaysGood(s, t);
    assert Good(t);
  }

  lemma SoundAtFirst(s: State)
    requires Initial(s)
    ensures Sound(s)
  {
    GoodAtFirst(s);
    assert Good(s);
  }

  lemma {:induction false} AlwaysSound(trace: seq<State>, i: nat)
    requires Run(trace) && i < |trace|
    ensures Sound(trace[i])
  {
    if i == 0 {
      SoundAtFirst(trace[0]);
    } else {
      AlwaysSound(trace, i - 1);
      assert StepAt(trace, i);
      StaysSound(trace[i - 1], trace[i]);
    }
  }

  lemma AlwaysGood(trace: seq<State>, i: nat)
    requires Run(trace) && i < |trace|
    ensures Good(trace[i])
  {
    AlwaysSound(trace, i);
  }

  // In every state that any interleaving can reach: no push has been refused, and every bucket
  // is in exactly one place.
  lemma Safety(trace: seq<State>, i: nat)
    requires Run(trace) && i < |trace|
    ensures !trace[i].refused
    ensures forall b :: Held(trace[i], b) == if b in trace[i].all then 1 else 0
  {
    AlwaysGood(trace, i);
  }

  // When the shutdown is through: every chain sent has been written, as often as it was sent,
  // and every bucket has been freed exactly once.
  lemma ShutdownIsComplete(trace: seq<State>, i: nat)
    requires Run(trace) && i < |trace| && trace[i].main == Finished
    ensures multiset(trace[i].written) == multiset(trace[i].sent)
    ensures multiset(trace[i].freed) == multiset(trace[i].all)
  {
    var s := trace[i];
    AlwaysGood(trace, i);
    forall c ensures multiset(s.written)[c] == multiset(s.sent)[c] {
      NoneAtWork(s.indexers, c);
      NoneAtWork(s.outputs, c);
      assert OnTheWay(s, c) == CountChains(s.sent, c);
      ChainsAreMultiset(s.written, c);
      ChainsAreMultiset(s.sent, c);
    }
    forall b ensures multiset(s.freed)[b] == multiset(s.all)[b] {
      CountIsMultiset(s.freed, b);
      NoneHeld(CaptureChains(s.captures), b);
      NoneHeld(WorkerChains(s.indexers), b);
      NoneHeld(WorkerChains(s.outputs), b);
      assert Held(s, b) == Count(s.freed, b);
    }
  }
}
