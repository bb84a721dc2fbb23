/** The response bodies of a parallel pull: workers track the ones they read, so that
    Close can interrupt them. */
module Bodies {

  /** trackedBody */
  class TrackedBody {
    var closed: bool

    constructor ()
      ensures !closed
    {
      closed := false;
    }

    method Close()
      modifies this
      ensures closed
    {
      closed := true;
    }
  }

  /** The part of parallelPuller that guards bodies: `closed` and `active`. */
  class BodySet {
    var closed: bool
    /** The bodies Close can interrupt. */
    var active: set<TrackedBody>
    /** Every body ever given to trackBody. */
    ghost var given: set<TrackedBody>

    constructor ()
      ensures Valid() && !closed && active == {} && given == {}
    {
      closed, active, given := false, {}, {};
    }

    /** A body that is not tracked any more has been closed. */
    ghost predicate Valid()
      reads this, given
    {
      active <= given && forall b :: b in given && b !in active ==> b.closed
    }

    /** trackBody: a body that comes after Close is closed at once. */
    method TrackBody() returns (body: TrackedBody?, ghost made: TrackedBody)
      requires Valid()
      modifies this`active, this`given
      ensures Valid() && fresh(made) && given == old(given) + {made}
      ensures closed ==> body == null && made.closed && active == old(active)
      ensures !closed ==> body == made && !made.closed && active == old(active) + {made}
    {
      var tracked := new TrackedBody();
      made, given := tracked, given + {tracked};
      if closed {
        tracked.Close();
        return null, made;
      }
      active := active + {tracked};
      return tracked, made;
    }

    /** untrackAndClose */
    method UntrackAndClose(body: TrackedBody)
      requires Valid()
      modifies this`active, body
      ensures Valid() && body.closed && active == old(active) - {body}
    {
      body.Close();
      active := active - {body};
    }

    /** Close's critical section, as far as bodies go. */
    method Shut() returns (bodies: set<TrackedBody>)
      requires Valid()
      modifies this`closed
      ensures Valid() && closed && bodies == active
    {
      closed := true;
      bodies := active;
    }

    /** What other goroutines may do meanwhile: finish with a body, bring a new one, or
        run Close's section. Bodies stay closed, and `closed` stays set. */
    method Others()
      requires Valid()
      modifies this, given
      ensures Valid() && (old(closed) ==> closed)
      ensures old(given) <= given && fresh(given - old(given))
      ensures forall b :: b in old(given) && old(b.closed) ==> b.closed
      ensures old(closed) ==> active <= old(active)
    {
      var finish: bool, bring: bool, strike: bool := *, *, *;
      if finish && active != {} {
        var b :| b in active;
        UntrackAndClose(b);
      }
      if bring {
        var body;
        ghost var made;
        body, made := TrackBody();
      }
      if strike {
        var bodies := Shut();
      }
    }

    /** Close, with other goroutines at work: when it returns, every body ever given to
        trackBody has been closed, by it, by its worker, or by trackBody itself. */
    method Close()
      requires Valid()
      modifies this, given
      ensures Valid() && closed && old(given) <= given && fresh(given - old(given))
      ensures forall b :: b in given ==> b.closed
    {
      var bodies := Shut();
      ghost var all := bodies;
      while bodies != {}
        invariant Valid() && closed && active <= all && bodies <= all <= given
        invariant old(given) <= given && fresh(given - old(given))
        invariant forall b :: b in all && b !in bodies ==> b.closed
        decreases |bodies|
      {
        Others();
        var b :| b in bodies;
        b.Close();
        bodies := bodies - {b};
      }
      Others();
    }
  }
}
