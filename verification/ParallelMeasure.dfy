/** A bound on the steps of a parallel pull: every action of the dispatcher, the
    workers, the reader and Close decreases a natural number that only the
    caller's own calls can raise, by a constant each. */
module ParallelMeasure {
  import opened Basics
  import opened ParallelPull
  import opened ParallelLedger
  import opened ParallelEffects
  import opened ParallelDelivery

  /** Work left for a chunk that has no slot yet. */
  function PerChunk(c: Config): nat { c.fuel + 60 }

  function Product(n: nat, u: nat): (p: nat)
    decreases n
  {
    if n == 0 then 0 else Product(n - 1, u) + u
  }

  /** Steps left for a result in some hand: offer the buffer, return the slot. */
  function HandRank(r: Option<Result>): nat {
    if r.None? then 0 else if r.value.buf.Some? then 3 else 2
  }

  function DispatchRank(c: Config, d: Dispatcher): nat {
    match d
    case Granting(i) => (if i <= |c.plan| then Product(|c.plan| - i, PerChunk(c)) else 0) + 3
    case Handing(i) => (if i < |c.plan| then Product(|c.plan| - i - 1, PerChunk(c)) else 0) + c.fuel + 58
    case Abandoning(_) => 5
    case Closing => 2
    case Waiting => 1
    case Finished => 0
  }

  function WorkerRank(k: Worker): nat {
    match k
    case Idle => 1
    case Fetching(_, _, left) => left + 40
    case Sending(_) => 35
    case Discarding(r) => HandRank(Some(r))
    case Exited => 0
  }

  function WorkersRank(ws: seq<Worker>): nat {
    if ws == [] then 0 else WorkersRank(ws[..|ws| - 1]) + WorkerRank(ws[|ws| - 1])
  }

  function ReaderRank(k: Reader): nat {
    match k
    case Outside => 0
    case Ending(_) => 1
    case Selecting(_) => 6
    case Looking(_) => 7
    case Top(_) => 8
    case Dropping(r, _) => 12 + HandRank(Some(r))
    case Adopting(_, _) => 16
    case Inspecting(_, _) => 17
    case Took(_, _) => 18
    case Refused(_, r) => 18 + HandRank(Some(r))
    case Storing(_, _) => 26
    case Comparing(_, _) => 27
    case Got(_, _) => 28
  }

  function CloserRank(k: Closer): nat {
    match k
    case NotCalled => 0
    case Cancelling(left) => 6 + 4 * |left|
    case Releasing(left, hand) => 5 + 4 * |left| + HandRank(hand)
    case Returned => 0
  }

  function DrainerRank(k: Drainer): nat {
    if k.Draining? then 4 + HandRank(k.hand) else 0
  }

  function Measure(c: Config, s: State): nat {
    DispatchRank(c, s.disp) + Product(|s.tasks|, c.fuel + 50) + WorkersRank(s.workers) + 30 * |s.results|
    + ReaderRank(s.reader) + 12 * |s.sh.pending| + (if s.sh.currentSlot then 4 else 0)
    + CloserRank(s.closer) + DrainerRank(s.drainer)
  }

  lemma {:induction false} WorkersRankUpdate(ws: seq<Worker>, w: nat, k: Worker)
    requires w < |ws|
    ensures WorkersRank(ws[w := k]) + WorkerRank(ws[w]) == WorkersRank(ws) + WorkerRank(k)
  {
    var n := |ws| - 1;
    if w < n {
      WorkersRankUpdate(ws[..n], w, k);
      assert ws[w := k][..n] == ws[..n][w := k];
    } else {
      assert ws[w := k][..n] == ws[..n];
    }
  }

  lemma DispatchDecreases(c: Config, s: State, a: DispatchAction)
    requires ValidConfig(c) && QueueShape(c, s.disp, s.tasks, s.results) && DispatchEnabled(c, s, a)
    ensures Measure(c, DispatchStep(c, s, a)) < Measure(c, s)
  {}

  lemma WorkDecreases(c: Config, s: State, w: nat, a: WorkAction)
    requires ValidConfig(c) && WorkEnabled(c, s, w, a)
    ensures Measure(c, WorkStep(c, s, w, a)) < Measure(c, s)
  {
    var s' := WorkStep(c, s, w, a);
    WorkersRankUpdate(s.workers, w, s'.workers[w]);
    assert s'.workers == s.workers[w := s'.workers[w]];
  }

  /** The part of the measure that Read moves. */
  function ReadPart(k: Reader, results: nat, sh: Shared): nat {
    30 * results + ReaderRank(k) + 12 * |sh.pending| + (if sh.currentSlot then 4 else 0)
  }

  lemma ServeDecreases(c: Config, s: State)
    requires ReadEnabled(s, Serve)
    ensures var s' := ReadStep(c, s, Serve);
      ReadPart(s'.reader, |s'.results|, s'.sh) < ReadPart(s.reader, |s.results|, s.sh)
  {}

  lemma LookDecreases(c: Config, s: State)
    requires ReadEnabled(s, LookPending)
    ensures var s' := ReadStep(c, s, LookPending);
      ReadPart(s'.reader, |s'.results|, s'.sh) < ReadPart(s.reader, |s.results|, s.sh)
  {
    if s.sh.next in s.sh.pending {
      assert s.sh.pending.Keys == (s.sh.pending - {s.sh.next}).Keys + {s.sh.next};
    }
  }

  lemma StoreDecreases(c: Config, s: State)
    requires ReadEnabled(s, Store)
    ensures var s' := ReadStep(c, s, Store);
      ReadPart(s'.reader, |s'.results|, s'.sh) < ReadPart(s.reader, |s.results|, s.sh)
  {
    var i := s.reader.r.index;
    assert (s.sh.pending[i := s.reader.r]).Keys == s.sh.pending.Keys + {i};
  }

  lemma AdoptDecreases(c: Config, s: State)
    requires ValidConfig(c) && ReaderShape(c, s.reader, s.sh) && ReadEnabled(s, AdoptResult)
    ensures var s' := ReadStep(c, s, AdoptResult);
      ReadPart(s'.reader, |s'.results|, s'.sh) < ReadPart(s.reader, |s.results|, s.sh)
  {}

  lemma PassDecreases(c: Config, s: State, a: ReadAction)
    requires ValidConfig(c) && ReadEnabled(s, a)
    requires !(a.Serve? || a.LookPending? || a.Store? || a.AdoptResult?)
    ensures var s' := ReadStep(c, s, a);
      ReadPart(s'.reader, |s'.results|, s'.sh) < ReadPart(s.reader, |s.results|, s.sh)
  {}

  lemma ReadDecreases(c: Config, s: State, a: ReadAction)
    requires ValidConfig(c) && Shape(c, s) && ReadEnabled(s, a)
    ensures Measure(c, ReadStep(c, s, a)) < Measure(c, s)
  {
    ReadFrame(c, s, a);
    hide ReadStep, ReadEnabled;
    match a
    case Serve => ServeDecreases(c, s);
    case LookPending => LookDecreases(c, s);
    case Store => StoreDecreases(c, s);
    case AdoptResult => AdoptDecreases(c, s);
    case _ => PassDecreases(c, s, a);
  }

  lemma CloseDecreases(c: Config, s: State, a: CloseAction)
    requires ValidConfig(c) && CloseEnabled(s, a)
    ensures Measure(c, CloseStep(c, s, a)) < Measure(c, s)
  {
    if a.PickPending? {
      assert s.closer.left.Keys == (s.closer.left - {a.i}).Keys + {a.i};
    }
  }

  /** A call of Read or Close raises the measure by at most eight; nothing else
      outside the pull raises it. */
  lemma OutsideRaises(c: Config, s: State, a: OutsideAction)
    requires ValidConfig(c) && OuterEnabled(s, a)
    ensures Measure(c, OuterStep(c, s, a)) <= Measure(c, s) + (if a.CallRead? || a.CallClose? then 8 else 0)
  {}

  /** An action is a step of the pull itself, or a call, or neither. */
  function Own(a: Action): nat { if a.Outer? then 0 else 1 }

  function Call(a: Action): nat { if a.Outer? && (a.o.CallRead? || a.o.CallClose?) then 1 else 0 }

  lemma StepIsBounded(c: Config, s: State, a: Action)
    requires ValidConfig(c) && Shape(c, s) && Enabled(c, s, a)
    ensures Own(a) + Measure(c, Step(c, s, a)) <= Measure(c, s) + 8 * Call(a)
  {
    match a
    case Dispatch(d) => DispatchDecreases(c, s, d);
    case Work(w, k) => WorkDecreases(c, s, w, k);
    case Read(r) => ReadDecreases(c, s, r);
    case Close(k) => CloseDecreases(c, s, k);
    case Outer(o) => OutsideRaises(c, s, o);
  }

  /** The steps the pull itself takes in a run. */
  function OwnSteps(actions: seq<Action>): nat {
    if actions == [] then 0 else OwnSteps(actions[..|actions| - 1]) + Own(actions[|actions| - 1])
  }

  /** The calls of Read and Close in a run. */
  function Calls(actions: seq<Action>): nat {
    if actions == [] then 0 else Calls(actions[..|actions| - 1]) + Call(actions[|actions| - 1])
  }

  lemma ShapeInRun(c: Config, states: seq<State>, actions: seq<Action>, k: nat)
    requires IsRun(c, states, actions) && k < |states|
    ensures ValidConfig(c) && Shape(c, states[k])
  {
    EveryStateOfEveryRun(c, states, actions, k);
  }

  /** In every run the pull itself takes at most Measure(start) steps, and eight
      more for every call of Read or Close, whatever the interleaving. */
  lemma {:induction false} RunsAreBounded(c: Config, states: seq<State>, actions: seq<Action>)
    requires IsRun(c, states, actions)
    ensures OwnSteps(actions) + Measure(c, states[|actions|]) <= Measure(c, states[0]) + 8 * Calls(actions)
    decreases |actions|
  {
    var n := |actions|;
    if n > 0 {
      assert IsRun(c, states[..n], actions[..n - 1]);
      RunsAreBounded(c, states[..n], actions[..n - 1]);
      ShapeInRun(c, states, actions, n - 1);
      StepIsBounded(c, states[n - 1], actions[n - 1]);
    }
  }
}
