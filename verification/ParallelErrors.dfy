/** Why a Read of a parallel pull returns an error: cancellation, Close, a fetch that
    failed, or the end of the blob, and each only where it happened. */
module ParallelErrors {
  import opened Basics
  import opened ParallelPull
  import opened ParallelLedger
  import opened ParallelEffects
  import opened ParallelDelivery

  /** Cancellation and Close are named only where they happened, and end of file only when
      the results have been closed. */
  predicate Warranted(s: State, e: Error) {
    (e == Cancelled ==> s.done) && (e == PullClosed ==> s.sh.closed) && (e == Eof ==> s.disp.Finished?)
  }

  predicate Carries(k: Reader) { k.Dropping? || k.Ending? }

  /** The errors a state speaks of are warranted. */
  predicate Caused(s: State) {
    && (s.sh.err.Some? ==> Warranted(s, s.sh.err.value))
    && (s.last.Some? ==> Warranted(s, s.last.value))
    && (Carries(s.reader) ==> Warranted(s, s.reader.e))
  }

  /** A fetched result fails in one way only. */
  ghost predicate FailsToFetch(c: Config, s: State) {
    s.reader.Inspecting? && s.reader.r.err.Some? ==> s.reader.r.err.value == FetchFailed
  }

  lemma ReadKeepsCaused(c: Config, s: State, a: ReadAction)
    requires Caused(s) && FailsToFetch(c, s) && ReadEnabled(s, a)
    ensures Caused(ReadStep(c, s, a))
  {
    hide ReleaseBooks, Offer;
  }

  lemma WorkKeepsCaused(c: Config, s: State, w: nat, a: WorkAction)
    requires Caused(s) && ValidConfig(c) && WorkEnabled(c, s, w, a)
    ensures Caused(WorkStep(c, s, w, a))
  {
    hide ChunkBytes, Offer, Tiles;
  }

  lemma OthersKeepCaused(c: Config, s: State, a: Action)
    requires Caused(s) && ValidConfig(c) && Enabled(c, s, a) && !a.Read? && !a.Work?
    ensures Caused(Step(c, s, a))
  {
    hide ReleaseBooks, Offer, Tiles, Put;
  }

  lemma ReaderFails(c: Config, s: State)
    requires ValidConfig(c) && Shape(c, s)
    ensures FailsToFetch(c, s)
  {
    assert ReaderShape(c, s.reader, s.sh);
    hide Shape;
  }

  lemma StepKeepsCaused(c: Config, s: State, a: Action)
    requires ValidConfig(c) && Shape(c, s) && Caused(s) && Enabled(c, s, a)
    ensures Caused(Step(c, s, a))
  {
    ReaderFails(c, s);
    hide Shape, Caused, ReadStep, WorkStep, DispatchStep, CloseStep, OuterStep;
    match a
    case Read(r) => ReadKeepsCaused(c, s, r);
    case Work(w, k) => WorkKeepsCaused(c, s, w, k);
    case _ => OthersKeepCaused(c, s, a);
  }

  // ---------------------------------------------------------------- fetches that fail

  predicate Fine(r: Result) { r.err != Some(FetchFailed) }

  predicate FineWorker(k: Worker) { (k.Sending? || k.Discarding?) ==> Fine(k.r) }

  predicate FineReader(k: Reader) {
    match k
    case Took(_, r) => Fine(r)
    case Got(_, r) => Fine(r)
    case Comparing(_, r) => Fine(r)
    case Storing(_, r) => Fine(r)
    case Refused(_, r) => Fine(r)
    case Inspecting(_, r) => Fine(r)
    case Adopting(_, r) => Fine(r)
    case Dropping(r, e) => Fine(r) && e != FetchFailed
    case Ending(e) => e != FetchFailed
    case _ => true
  }

  predicate FineWorkers(workers: seq<Worker>) { forall w :: 0 <= w < |workers| ==> FineWorker(workers[w]) }

  predicate FineResults(results: seq<Result>) { forall i :: 0 <= i < |results| ==> Fine(results[i]) }

  ghost predicate FinePending(pending: map<nat, Result>) { forall i :: i in pending ==> Fine(pending[i]) }

  /** No failed fetch is on its way to Read. */
  ghost predicate NoFailure(s: State) {
    && FineWorkers(s.workers) && FineResults(s.results) && FinePending(s.sh.pending) && FineReader(s.reader)
    && s.sh.err != Some(FetchFailed) && s.last != Some(FetchFailed)
  }

  predicate Fails(a: Action) { a.Work? && a.k.Fail? }

  lemma ReadKeepsFine(c: Config, s: State, a: ReadAction)
    requires NoFailure(s) && ReadEnabled(s, a)
    ensures NoFailure(ReadStep(c, s, a))
  {
    ReadFrame(c, s, a);
    hide FineWorkers, FineWorker, ReleaseBooks, Offer, Return;
  }

  lemma WorkKeepsFine(c: Config, s: State, w: nat, a: WorkAction)
    requires NoFailure(s) && ValidConfig(c) && WorkEnabled(c, s, w, a) && !a.Fail?
    ensures NoFailure(WorkStep(c, s, w, a))
  {
    assert FineWorker(s.workers[w]);
    hide FineReader, FinePending, ChunkBytes, Tiles, Offer;
  }

  lemma OthersKeepFine(c: Config, s: State, a: Action)
    requires NoFailure(s) && ValidConfig(c) && Enabled(c, s, a) && !a.Read? && !a.Work?
    ensures NoFailure(Step(c, s, a))
  {
    hide FineWorkers, ReleaseBooks, Offer, Tiles, Put;
  }

  lemma StepKeepsFine(c: Config, s: State, a: Action)
    requires NoFailure(s) && ValidConfig(c) && Enabled(c, s, a) && !Fails(a)
    ensures NoFailure(Step(c, s, a))
  {
    hide NoFailure, ReadStep, WorkStep, DispatchStep, CloseStep, OuterStep;
    match a
    case Read(r) => ReadKeepsFine(c, s, r);
    case Work(w, k) => WorkKeepsFine(c, s, w, k);
    case _ => OthersKeepFine(c, s, a);
  }

  // ---------------------------------------------------------------- runs

  lemma ShapeKnown(c: Config, s: State)
    requires AllInv(c, s)
    ensures ValidConfig(c) && Shape(c, s)
  {
    hide Shape, Owned, Window, Delivered;
  }

  lemma {:induction false} RunsAreCaused(c: Config, run: seq<State>, acts: seq<Action>, k: nat)
    requires IsRun(c, run, acts) && k < |run|
    ensures Caused(run[k])
  {
    if k > 0 {
      RunsAreCaused(c, run, acts, k - 1);
      EveryStateOfEveryRun(c, run, acts, k - 1);
      ShapeKnown(c, run[k - 1]);
      hide AllInv, Shape, Caused, Init, Enabled, Step;
      assert Enabled(c, run[k - 1], acts[k - 1]) && run[k - 1 + 1] == Step(c, run[k - 1], acts[k - 1]);
      StepKeepsCaused(c, run[k - 1], acts[k - 1]);
    }
  }

  lemma {:induction false} RunsStayFine(c: Config, run: seq<State>, acts: seq<Action>, k: nat)
    requires IsRun(c, run, acts) && k < |run| && ValidConfig(c)
    requires forall i :: 0 <= i < k ==> !Fails(acts[i])
    ensures NoFailure(run[k])
  {
    if k > 0 {
      RunsStayFine(c, run, acts, k - 1);
      hide NoFailure, Init, Enabled, Step, Fails;
      assert Enabled(c, run[k - 1], acts[k - 1]) && run[k - 1 + 1] == Step(c, run[k - 1], acts[k - 1]);
      StepKeepsFine(c, run[k - 1], acts[k - 1]);
    }
  }

  /** What an error of a Read, or the recorded one, says of the run behind it. */
  ghost predicate HasCause(s: State, acts: seq<Action>, e: Error) {
    && (e == Cancelled ==> s.done)
    && (e == PullClosed ==> s.sh.closed)
    && (e == Eof ==> s.disp.Finished?)
    && (e == FetchFailed ==> exists i :: 0 <= i < |acts| && Fails(acts[i]))
  }

  /** Every error has happened: a context that ended, a Close, a fetch that failed, or the
      end of all fetches. */
  lemma ErrorsHaveCauses(c: Config, run: seq<State>, acts: seq<Action>, k: nat)
    requires IsRun(c, run, acts) && k < |run|
    ensures run[k].last.Some? ==> HasCause(run[k], acts[..k], run[k].last.value)
    ensures run[k].sh.err.Some? ==> HasCause(run[k], acts[..k], run[k].sh.err.value)
  {
    RunsAreCaused(c, run, acts, k);
    EveryStateOfEveryRun(c, run, acts, k);
    ShapeKnown(c, run[k]);
    hide AllInv, Shape, Init, Tiles, Fails;
    if forall i :: 0 <= i < k ==> !Fails(acts[i]) {
      RunsStayFine(c, run, acts, k);
    } else {
      var i :| 0 <= i < k && Fails(acts[i]);
      assert acts[..k][i] == acts[i];
    }
  }

  /** Without cancellation, Close and failed fetches the only error is the end of file,
      and it comes with the whole blob. */
  lemma UndisturbedPullsEndWhole(c: Config, run: seq<State>, acts: seq<Action>, k: nat)
    requires IsRun(c, run, acts) && k < |run| && !run[k].done && !run[k].sh.closed
    requires forall i :: 0 <= i < k ==> !Fails(acts[i])
    ensures run[k].last.Some? ==> run[k].last == Some(Eof) && run[k].delivered == c.blob
  {
    ErrorsHaveCauses(c, run, acts, k);
    InOrderDelivery(c, run, acts, k);
    hide Init, Fails;
    assert forall i :: 0 <= i < |acts[..k]| ==> acts[..k][i] == acts[i];
  }
}
