/**
  The plugin lifecycle gate (plugin/lifecycle_gate.go): operations enter and leave until a
  close begins; the close waits on the channel that the last leave closes. Each critical
  section is one step, in any interleaving.
*/
module LifecycleGate {

  datatype Option<T> = None | Some(value: T)

  /** A channel, numbered in the order they are made. */
  type Channel = nat

  /** A release function, which leaves once. */
  type Release = nat

  /** What beginning to close gives: nothing to wait for, or the channel to wait on. */
  datatype Closing = Idle | Wait(channel: Channel)

  datatype Event = Enter(cancelled: bool) | Leave(release: Release) | BeginClose | Await(channel: Channel, ended: bool)

  class Gate {
    var closing: bool
    var active: nat
    var idle: Option<Channel>
    /** The channels made so far, and those that are closed. */
    var made: nat
    var closed: set<Channel>
    /** The release functions handed out, and those that have not left yet. */
    var releases: nat
    var held: set<Release>
    /** The channels that closers wait on. */
    var awaited: set<Channel>
    /** Some close has answered nil. */
    ghost var finished: bool
    /** The critical sections so far. */
    ghost var trace: seq<Event>

    ghost predicate Valid()
      reads this
    {
      && active == |held| && (forall r | r in held :: r < releases)
      && (active > 0 <==> idle.Some?)
      && (forall c :: 0 <= c < made <==> c in closed || idle == Some(c))
      && (idle.Some? ==> idle.value !in closed)
      && (awaited != {} ==> closing)
      && (forall c | c in awaited :: c in closed || idle == Some(c))
      && (forall c | c in awaited && c in closed :: active == 0)
      && (finished ==> closing && active == 0)
    }

    constructor ()
      ensures Valid() && !closing && active == 0 && !finished && trace == []
    {
      closing, active, idle, made, closed := false, 0, None, 0, {};
      releases, held, awaited, finished, trace := 0, {}, {}, false, [];
    }

    /** Refused once closing, or when the context has ended. */
    method EnterGate(cancelled: bool) returns (release: Option<Release>)
      requires Valid()
      modifies this
      ensures Valid() && closing == old(closing) && finished == old(finished) && awaited == old(awaited)
      ensures release.Some? <==> !cancelled && !closing
      ensures trace == old(trace) + [Enter(cancelled)]
      ensures release.Some? ==> release.value !in old(held) && held == old(held) + {release.value} && active == old(active) + 1
      ensures release.None? ==> held == old(held) && idle == old(idle) && closed == old(closed)
    {
      trace := trace + [Enter(cancelled)];
      if cancelled || closing {
        return None;
      }
      if active == 0 {
        idle, made := Some(made), made + 1;
      }
      active := active + 1;
      release := Some(releases);
      held, releases := held + {releases}, releases + 1;
    }

    /** A release function; only its first call leaves, and the last one to leave closes the channel. */
    method LeaveGate(release: Release)
      requires Valid()
      modifies this
      ensures Valid() && closing == old(closing) && finished == old(finished) && awaited == old(awaited)
      ensures held == old(held) - {release} && trace == old(trace) + [Leave(release)]
      ensures idle == if held == {} then None else old(idle)
      ensures closed == if held == {} && old(idle).Some? then old(closed) + {old(idle).value} else old(closed)
    {
      trace := trace + [Leave(release)];
      if release !in held {
        assert held == {} <==> active == 0;
        return;
      }
      held := held - {release};
      active := active - 1;
      assert active == |held|;
      if active == 0 && idle.Some? {
        closed := closed + {idle.value};
        idle := None;
      }
    }

    /** Stops new operations; nil at once when none is active. */
    method Begin() returns (step: Closing)
      requires Valid()
      modifies this
      ensures Valid() && closing && held == old(held) && idle == old(idle) && closed == old(closed)
      ensures step.Idle? <==> active == 0
      ensures trace == old(trace) + [BeginClose]
      ensures step.Idle? ==> finished
      ensures step.Wait? ==> idle == Some(step.channel) && step.channel in awaited && finished == old(finished)
    {
      closing, trace := true, trace + [BeginClose];
      if active == 0 {
        finished := true;
        return Idle;
      }
      awaited := awaited + {idle.value};
      step := Wait(idle.value);
    }

    /** The wait: nil only from the closed channel, and always from it unless the context has ended too. */
    method AwaitIdle(channel: Channel, ended: bool) returns (nil: bool)
      requires Valid() && channel in awaited
      modifies this`finished, this`trace
      ensures Valid() && trace == old(trace) + [Await(channel, ended)]
      ensures nil ==> finished && active == 0 && channel in closed
      ensures channel in closed && !ended ==> nil
      ensures !nil ==> finished == old(finished)
    {
      trace := trace + [Await(channel, ended)];
      nil := channel in closed;
      if nil && ended {
        nil := *;
      }
      if nil {
        finished := true;
      }
    }

    /**
      Any interleaving of operations and closers, each waiting on a channel it was given: a nil answer is for good, and the channel is
      open exactly while an operation is active.
    */
    method Interleave(events: seq<Event>)
      requires Valid()
      modifies this
      ensures Valid() && (old(closing) ==> closing) && (old(finished) ==> finished)
      ensures old(finished) ==> active == 0 && held == {}
      ensures old(trace) <= trace
      ensures (forall e | e in events :: !e.Await?) ==> trace == old(trace) + events
    {
      for k := 0 to |events|
        invariant Valid() && (old(closing) ==> closing) && (old(finished) ==> finished)
        invariant old(trace) <= trace
        invariant (forall e | e in events :: !e.Await?) ==> trace == old(trace) + events[..k]
      {
        assert events[k] in events && events[..k + 1] == events[..k] + [events[k]];
        match events[k] {
          case Enter(cancelled) =>
            var _ := EnterGate(cancelled);
          case Leave(release) =>
            LeaveGate(release);
          case BeginClose =>
            var _ := Begin();
          case Await(channel, ended) =>
            if channel in awaited {
              var _ := AwaitIdle(channel, ended);
            }
        }
      }
    }
  }
}
