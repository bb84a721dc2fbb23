/** One Read of a rangeReader and a concurrent Close, section by section: what happens
    to the field `reader`, which Close clears and readCurrent uses. */
module RangeRace {
  import opened Basics

  /** Where the Read in flight is. */
  datatype Point =
    | Outside      // no Read in flight
    | Entered      // before advance
    | Fetching     // advance gave the drained part up and asks for the next one
    | Through      // advance returned without error
    | Reading      // readCurrent has taken the reader
    | Crashed      // readCurrent took a nil reader and called it

  /** `held`: the field `reader` is not nil; `remaining`: bytes left in the current part. */
  datatype View = View(closed: bool, held: bool, remaining: nat, at: Point)

  datatype Act =
    | Call                  // Read is called
    | Pass                  // advance finds bytes in the current part and returns
    | Drain                 // advance finds none and gives the part up
    | Install(length: nat)  // advance installs the next part and returns
    | Stop                  // advance fails, or reports the end
    | Take                  // the first section of readCurrent
    | Finish(n: nat)        // the rest of readCurrent
    | CloseNow              // the section of the first Close

  predicate Enabled(v: View, a: Act) {
    match a
    case Call => v.at.Outside?
    case Pass => v.at.Entered? && !v.closed && v.remaining > 0
    case Drain => v.at.Entered? && !v.closed && v.remaining == 0
    case Install(length) => v.at.Fetching? && !v.closed && length > 0
    case Stop => v.at.Entered? || v.at.Fetching?
    case Take => v.at.Through?
    case Finish(n) => v.at.Reading? && n <= v.remaining
    case CloseNow => !v.closed && !v.at.Crashed?
  }

  function Next(v: View, a: Act): View {
    match a
    case Call => v.(at := Entered)
    case Pass => v.(at := Through)
    case Drain => v.(held := false, at := Fetching)
    case Install(length) => v.(held := true, remaining := length, at := Through)
    case Stop => v.(at := Outside)
    case Take => v.(at := if v.held then Reading else Crashed)
    case Finish(n) => v.(remaining := if n <= v.remaining then v.remaining - n else 0, at := Outside)
    case CloseNow => v.(closed := true, held := false)
  }

  /** The view after these sections, if each of them could run. */
  function After(v: View, acts: seq<Act>): Option<View> {
    if acts == [] then Some(v)
    else
      var last := acts[|acts| - 1];
      match After(v, acts[..|acts| - 1])
      case Some(u) => if Enabled(u, last) then Some(Next(u, last)) else None
      case None => None
  }

  lemma OneMore(v: View, acts: seq<Act>, a: Act)
    ensures After(v, acts).Some? && Enabled(After(v, acts).value, a) ==>
      After(v, acts + [a]) == Some(Next(After(v, acts).value, a))
  {
    assert (acts + [a])[..|acts|] == acts;
  }

  lemma {:induction false} Join(v: View, first: seq<Act>, more: seq<Act>)
    ensures After(v, first).Some? ==> After(v, first + more) == After(After(v, first).value, more)
    decreases |more|
  {
    if more == [] {
      assert first + more == first;
    } else {
      var n := |more| - 1;
      assert (first + more)[..|first| + n] == first + more[..n];
      Join(v, first, more[..n]);
    }
  }

  /** How a reader looks between Reads. */
  predicate Sane(v: View) {
    && (v.held ==> !v.closed)
    && (v.remaining > 0 && !v.closed && !v.at.Fetching? ==> v.held)
    && (v.at.Through? ==> v.remaining > 0)
  }

  predicate Passes(a: Act) { a.Pass? || a.Install? }

  /** Close's section ran right between the success of advance and readCurrent. */
  predicate ClosedInTheGap(acts: seq<Act>) {
    |acts| >= 3 && acts[|acts| - 1] == Take && acts[|acts| - 2] == CloseNow && Passes(acts[|acts| - 3])
  }

  /** What the latest section says about where the Read is. */
  predicate Follows(acts: seq<Act>, v: View) {
    && (v.at.Through? && v.held ==> acts != [] && Passes(acts[|acts| - 1]))
    && (v.at.Through? && !v.held ==>
          |acts| >= 2 && acts[|acts| - 1] == CloseNow && Passes(acts[|acts| - 2]))
    && (v.at.Reading? && acts != [] && acts[|acts| - 1] == Take ==> |acts| >= 2 && Passes(acts[|acts| - 2]))
  }

  lemma {:induction false} RunsStaySane(v: View, acts: seq<Act>)
    requires Sane(v) && v.at.Outside? && After(v, acts).Some?
    ensures Sane(After(v, acts).value) && Follows(acts, After(v, acts).value)
    decreases |acts|
  {
    if acts != [] {
      RunsStaySane(v, acts[..|acts| - 1]);
    }
  }

  /** The exact condition, for every sequence of Reads and a Close at any moment: the
      latest section crashed if and only if it was readCurrent's, and Close's section had
      run since advance let the Read through. */
  lemma CrashesExactlyInTheGap(v: View, acts: seq<Act>)
    requires Sane(v) && v.at.Outside? && After(v, acts).Some?
    ensures After(v, acts).value.at.Crashed? <==> ClosedInTheGap(acts)
  {
    if acts != [] {
      var before := acts[..|acts| - 1];
      RunsStaySane(v, before);
    }
  }

  /** And it can happen to every reader that has bytes left. */
  lemma TheGapIsReachable(v: View)
    requires Sane(v) && v.at.Outside? && !v.closed && v.remaining > 0
    ensures exists acts :: After(v, acts).Some? && After(v, acts).value.at.Crashed?
  {
    var acts := [Call, Pass, CloseNow, Take];
    assert acts[..3] == [Call, Pass, CloseNow] && acts[..3][..2] == [Call, Pass] && acts[..3][..2][..1] == [Call];
    assert After(v, [Call]) == Some(v.(at := Entered)) by { OneMore(v, [], Call); }
    OneMore(v, [Call], Pass);
    OneMore(v, [Call, Pass], CloseNow);
    OneMore(v, [Call, Pass, CloseNow], Take);
    assert [Call] + [Pass] == [Call, Pass] && [Call, Pass] + [CloseNow] == acts[..3] && acts[..3] + [Take] == acts;
  }
}
