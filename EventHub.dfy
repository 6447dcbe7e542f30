/**
  The listener registry of hub.go.

  The source's `run` loop is a sequential coordinator: each `select` case
  (register, unregister, broadcast, closeCh) is processed alone, one at a time.
  Here every case is one atomic method of the class `Hub`; the goroutine, the
  channels that carry the requests and the blocking of `select` are abstracted
  away. A listener is known by its identity, and its `send` channel is an
  `Outbox`: the events sent on it, in order, and whether it has been closed.

  Ghost state records every broadcast the loop has processed (`log`) and, per
  listener, the position in `log` at which it joined and (once gone) left, so
  that `Valid()` can say that each listener received exactly the broadcasts
  processed while it was registered, in order.
*/
module EventHub {

  /** An event notification of the player: name, reason, prefix, level, text. */
  datatype Event = Event(name: string, reason: string, prefix: string, level: string, text: string)

  /** A listener, by identity (the source keys its map by `*EventListener`). */
  type ListenerId = nat

  /** A listener's `send` channel: what was sent on it, in order, and whether it was closed. */
  datatype Outbox = Outbox(messages: seq<Event>, closed: bool)

  /** The channel of a listener the hub has not yet seen: nothing sent, not closed. */
  const EMPTY_OUTBOX := Outbox([], false)

  /** `send <- e`; Go panics on a send to a closed channel, hence the requires. */
  function Send(o: Outbox, e: Event): (r: Outbox)
    requires !o.closed
  {
    o.(messages := o.messages + [e])
  }

  /** `close(send)`; Go panics when a channel is closed twice, hence the requires. */
  function Shut(o: Outbox): (r: Outbox)
    requires !o.closed
    ensures r.closed && r.messages == o.messages
  {
    o.(closed := true)
  }

  /** The outboxes after `e` has been sent to every listener in `members` (the broadcast case). */
  function Fanout(boxes: map<ListenerId, Outbox>, members: set<ListenerId>, e: Event): (r: map<ListenerId, Outbox>)
    requires forall l :: l in members ==> l in boxes && !boxes[l].closed
    ensures r.Keys == boxes.Keys
    ensures forall l :: l in members ==> !r[l].closed && r[l].messages == boxes[l].messages + [e]
    ensures forall l :: l in boxes && l !in members ==> r[l] == boxes[l]
  {
    map l | l in boxes :: if l in members then Send(boxes[l], e) else boxes[l]
  }

  /** The outboxes after the sink of every listener in `members` has been closed (the cleanup of `run`). */
  function ShutAll(boxes: map<ListenerId, Outbox>, members: set<ListenerId>): (r: map<ListenerId, Outbox>)
    requires forall l :: l in members ==> l in boxes && !boxes[l].closed
    ensures r.Keys == boxes.Keys
    ensures forall l :: l in members ==> r[l].closed && r[l].messages == boxes[l].messages
    ensures forall l :: l in boxes && l !in members ==> r[l] == boxes[l]
  {
    map l | l in boxes :: if l in members then Shut(boxes[l]) else boxes[l]
  }

  /**
    The registry's bookkeeping. `members` are the registered listeners and
    `boxes` the sinks of every listener ever registered; `log` is every
    broadcast processed so far, `joinedAt[l]` and `leftAt[l]` the length of
    `log` when `l` joined and left. A member's sink is open and holds every
    broadcast since it joined; a former member's sink is closed and holds
    exactly the broadcasts processed while it was registered, in order.
  */
  ghost predicate Consistent(members: set<ListenerId>, boxes: map<ListenerId, Outbox>, log: seq<Event>,
                             joinedAt: map<ListenerId, nat>, leftAt: map<ListenerId, nat>)
  {
    && members <= boxes.Keys
    && joinedAt.Keys == boxes.Keys
    && leftAt.Keys == boxes.Keys - members
    && (forall l :: l in members ==>
          !boxes[l].closed && joinedAt[l] <= |log| && boxes[l].messages == log[joinedAt[l]..])
    && (forall l :: l in leftAt ==>
          boxes[l].closed && joinedAt[l] <= leftAt[l] <= |log| && boxes[l].messages == log[joinedAt[l]..leftAt[l]])
  }

  /** A broadcast to exactly the members keeps the bookkeeping consistent once the event is logged. */
  lemma FanoutConsistent(members: set<ListenerId>, boxes: map<ListenerId, Outbox>, log: seq<Event>,
                         joinedAt: map<ListenerId, nat>, leftAt: map<ListenerId, nat>, e: Event)
    requires Consistent(members, boxes, log, joinedAt, leftAt)
    ensures Consistent(members, Fanout(boxes, members, e), log + [e], joinedAt, leftAt)
  {
    var r := Fanout(boxes, members, e);
    forall l | l in members
      ensures r[l].messages == (log + [e])[joinedAt[l]..]
    {
      assert (log + [e])[joinedAt[l]..] == log[joinedAt[l]..] + [e];
    }
    forall l | l in leftAt
      ensures r[l].messages == (log + [e])[joinedAt[l]..leftAt[l]]
    {
      assert (log + [e])[joinedAt[l]..leftAt[l]] == log[joinedAt[l]..leftAt[l]];
    }
  }

  /** `leftAt` after every listener in `members` has left at time `now`. */
  function Departed(leftAt: map<ListenerId, nat>, members: set<ListenerId>, now: nat): (r: map<ListenerId, nat>)
    ensures r.Keys == leftAt.Keys + members
    ensures forall l :: l in members ==> r[l] == now
    ensures forall l :: l in leftAt && l !in members ==> r[l] == leftAt[l]
  {
    map l | l in leftAt.Keys + members :: if l in members then now else leftAt[l]
  }

  /** Closing the sink of every member and emptying the set keeps the bookkeeping consistent. */
  lemma ShutAllConsistent(members: set<ListenerId>, boxes: map<ListenerId, Outbox>, log: seq<Event>,
                          joinedAt: map<ListenerId, nat>, leftAt: map<ListenerId, nat>)
    requires Consistent(members, boxes, log, joinedAt, leftAt)
    ensures Consistent({}, ShutAll(boxes, members), log, joinedAt, Departed(leftAt, members, |log|))
  {
    var r := ShutAll(boxes, members);
    var d := Departed(leftAt, members, |log|);
    assert d.Keys == r.Keys;
    forall l | l in d
      ensures r[l].closed && joinedAt[l] <= d[l] <= |log| && r[l].messages == log[joinedAt[l]..d[l]]
    {
      if l in members {
        assert log[joinedAt[l]..|log|] == log[joinedAt[l]..];
      }
    }
  }

  /**
    The loop of the broadcast case: `send <- e` on the sink of each member in
    turn, in the map's (unspecified) iteration order.
  */
  method SendEach(boxes: map<ListenerId, Outbox>, members: set<ListenerId>, e: Event) returns (r: map<ListenerId, Outbox>)
    requires forall l :: l in members ==> l in boxes && !boxes[l].closed
    ensures r == Fanout(boxes, members, e)
  {
    r := boxes;
    var pending := members;
    while pending != {}
      invariant pending <= members
      invariant r.Keys == boxes.Keys
      invariant forall l :: l in pending ==> r[l] == boxes[l]
      invariant forall l :: l in boxes && l !in pending ==> r[l] == Fanout(boxes, members, e)[l]
      decreases pending
    {
      var l :| l in pending;
      r := r[l := Send(r[l], e)];
      pending := pending - {l};
    }
  }

  /**
    The loop of the deferred cleanup of `run`: delete each member and
    `close` its sink, one at a time in the map's iteration order.
  */
  method CloseEach(boxes: map<ListenerId, Outbox>, members: set<ListenerId>) returns (r: map<ListenerId, Outbox>)
    requires forall l :: l in members ==> l in boxes && !boxes[l].closed
    ensures r == ShutAll(boxes, members)
  {
    r := boxes;
    var remaining := members;
    while remaining != {}
      invariant remaining <= members
      invariant r.Keys == boxes.Keys
      invariant forall l :: l in remaining ==> r[l] == boxes[l]
      invariant forall l :: l in boxes && l !in remaining ==> r[l] == ShutAll(boxes, members)[l]
      decreases remaining
    {
      var l :| l in remaining;
      remaining := remaining - {l};
      r := r[l := Shut(r[l])];
    }
  }

  /** Registering a listener whose sink is open (or new) keeps the bookkeeping consistent. */
  lemma RegisterConsistent(members: set<ListenerId>, boxes: map<ListenerId, Outbox>, log: seq<Event>,
                           joinedAt: map<ListenerId, nat>, leftAt: map<ListenerId, nat>, l: ListenerId)
    requires Consistent(members, boxes, log, joinedAt, leftAt)
    requires l in boxes ==> !boxes[l].closed
    ensures l in boxes ==> l in members
    ensures Consistent(members + {l}, if l in boxes then boxes else boxes[l := EMPTY_OUTBOX], log,
                       if l in boxes then joinedAt else joinedAt[l := |log|], leftAt)
  {
  }

  /** Removing a member and closing its sink keeps the bookkeeping consistent. */
  lemma UnregisterConsistent(members: set<ListenerId>, boxes: map<ListenerId, Outbox>, log: seq<Event>,
                             joinedAt: map<ListenerId, nat>, leftAt: map<ListenerId, nat>, l: ListenerId)
    requires Consistent(members, boxes, log, joinedAt, leftAt)
    requires l in members
    ensures Consistent(members - {l}, boxes[l := Shut(boxes[l])], log, joinedAt, leftAt[l := |log|])
  {
  }

  class Hub {
    /** The registered listeners (the keys of the source's `listeners` map). */
    var listeners: set<ListenerId>
    /** The `send` channel of every listener the hub has registered at some time. */
    var outboxes: map<ListenerId, Outbox>
    /** `close` has closed `closeCh`. */
    var closeRequested: bool
    /** The `run` loop has returned and run its deferred cleanup. */
    var stopped: bool

    /** Every event broadcast so far, in the order the loop processed them. */
    ghost var log: seq<Event>
    /** For every listener ever registered, the length of `log` when it joined. */
    ghost var joinedAt: map<ListenerId, nat>
    /** For every listener that has left, the length of `log` when it left. */
    ghost var leftAt: map<ListenerId, nat>

    /**
      The hub's invariant: the bookkeeping is consistent (see `Consistent`:
      no listener in the set has a closed sink, a sink is closed exactly when
      its listener has left, and each sink holds the broadcasts of its
      listener's membership), and nothing is registered once the loop has
      stopped.
    */
    ghost predicate Valid()
      reads this
    {
      && Consistent(listeners, outboxes, log, joinedAt, leftAt)
      && (stopped ==> listeners == {})
    }

    /** `newHub`: no listeners, nothing broadcast, not closing. */
    constructor ()
      ensures Valid()
      ensures listeners == {} && outboxes == map[]
      ensures !closeRequested && !stopped
      ensures log == []
    {
      listeners := {};
      outboxes := map[];
      closeRequested := false;
      stopped := false;
      log := [];
      joinedAt := map[];
      leftAt := map[];
    }

    /**
      The `register` case. The listener becomes a member; one already
      registered leaves the hub unchanged. A listener whose sink the hub has
      closed must not come back: its next broadcast would send on a closed
      channel.
    */
    method Register(l: ListenerId)
      requires Valid() && !stopped
      requires l in outboxes ==> !outboxes[l].closed
      modifies this
      ensures Valid()
      ensures listeners == old(listeners) + {l}
      ensures outboxes == if l in old(outboxes) then old(outboxes) else old(outboxes)[l := EMPTY_OUTBOX]
      ensures l in old(listeners) ==> listeners == old(listeners) && outboxes == old(outboxes)
      ensures log == old(log)
      ensures closeRequested == old(closeRequested) && stopped == old(stopped)
    {
      RegisterConsistent(listeners, outboxes, log, joinedAt, leftAt, l);
      listeners := listeners + {l};
      if l !in outboxes {
        outboxes := outboxes[l := EMPTY_OUTBOX];
        joinedAt := joinedAt[l := |log|];
      }
    }

    /**
      The `unregister` case. A member is removed and its sink closed; for a
      listener that is not a member nothing changes, so no sink is closed twice.
    */
    method Unregister(l: ListenerId)
      requires Valid() && !stopped
      modifies this
      ensures Valid()
      ensures listeners == old(listeners) - {l}
      ensures l in old(listeners) ==> outboxes == old(outboxes)[l := old(outboxes)[l].(closed := true)]
      ensures l !in old(listeners) ==> outboxes == old(outboxes)
      ensures log == old(log)
      ensures closeRequested == old(closeRequested) && stopped == old(stopped)
    {
      if l in listeners {
        UnregisterConsistent(listeners, outboxes, log, joinedAt, leftAt, l);
        listeners := listeners - {l};
        outboxes := outboxes[l := Shut(outboxes[l])];
        leftAt := leftAt[l := |log|];
      }
    }

    /**
      The `broadcast` case: `e` is sent to every member, one after another in
      the map's (unspecified) order, and to no one else; the set is unchanged.
    */
    method Broadcast(e: Event)
      requires Valid() && !stopped
      modifies this
      ensures Valid()
      ensures listeners == old(listeners)
      ensures outboxes == Fanout(old(outboxes), old(listeners), e)
      ensures log == old(log) + [e]
      ensures closeRequested == old(closeRequested) && stopped == old(stopped)
    {
      var boxes := SendEach(outboxes, listeners, e);
      FanoutConsistent(listeners, outboxes, log, joinedAt, leftAt, e);
      outboxes := boxes;
      log := log + [e];
    }

    /** `close`: closes `closeCh`. Closing it twice would panic. */
    method Close()
      requires !closeRequested
      modifies this
      ensures closeRequested
      ensures listeners == old(listeners) && outboxes == old(outboxes) && stopped == old(stopped)
      ensures log == old(log) && joinedAt == old(joinedAt) && leftAt == old(leftAt)
    {
      closeRequested := true;
    }

    /**
      The `closeCh` case: the loop returns and its deferred cleanup removes
      every listener, closing each sink once. Afterwards nothing is registered
      and every listener registered at that moment has a closed sink.
    */
    method Stop()
      requires Valid() && !stopped && closeRequested
      modifies this
      ensures Valid() && stopped
      ensures listeners == {}
      ensures outboxes == ShutAll(old(outboxes), old(listeners))
      ensures log == old(log) && closeRequested
    {
      outboxes := CloseEach(outboxes, listeners);
      ShutAllConsistent(listeners, old(outboxes), log, joinedAt, leftAt);
      leftAt := Departed(leftAt, listeners, |log|);
      listeners := {};
      stopped := true;
    }
  }
}
