/** Which handlers run for an outbox event (src/worker/handler-registry.ts): those registered
    for exactly its type, then those registered for a prefix of it, each group in the order
    of registration. */
module HandlerRegistry {

  /** Handlers are known by a name of their own. */
  type Handler = nat

  datatype Registration = Exact(eventType: string, handler: Handler) | Prefixed(prefix: string, handler: Handler)

  predicate StartsWith(s: string, prefix: string) {
    |prefix| <= |s| && s[..|prefix|] == prefix
  }

  predicate Concerns(r: Registration, exact: bool, eventType: string) {
    match r
    case Exact(t, _) => exact && t == eventType
    case Prefixed(p, _) => !exact && StartsWith(eventType, p)
  }

  /** The handlers of one group, by the registrations made so far. */
  function Group(log: seq<Registration>, exact: bool, eventType: string): seq<Handler> {
    if log == [] then []
    else
      var last := log[|log| - 1];
      Group(log[..|log| - 1], exact, eventType) + (if Concerns(last, exact, eventType) then [last.handler] else [])
  }

  function HandlersFor(log: seq<Registration>, eventType: string): seq<Handler> {
    Group(log, true, eventType) + Group(log, false, eventType)
  }

  lemma GroupOfLonger(log: seq<Registration>, r: Registration, exact: bool, eventType: string)
    ensures Group(log + [r], exact, eventType) ==
      Group(log, exact, eventType) + (if Concerns(r, exact, eventType) then [r.handler] else [])
  {
    assert (log + [r])[..|log|] == log;
  }

  /** Where in the log a group's registrations are. */
  function Positions(log: seq<Registration>, exact: bool, eventType: string): (p: seq<nat>)
    ensures |p| == |Group(log, exact, eventType)|
    ensures forall i :: 0 <= i < |p| ==> p[i] < |log| && Group(log, exact, eventType)[i] == log[p[i]].handler
  {
    if log == [] then []
    else
      var init := log[..|log| - 1];
      Positions(init, exact, eventType) + (if Concerns(log[|log| - 1], exact, eventType) then [|log| - 1] else [])
  }

  /** A group is called in the order of registration. */
  lemma {:induction false} GroupsKeepRegistrationOrder(log: seq<Registration>, exact: bool, eventType: string, i: nat,
      j: nat)
    requires i < j < |Positions(log, exact, eventType)|
    ensures Positions(log, exact, eventType)[i] < Positions(log, exact, eventType)[j]
    decreases |log|
  {
    var p := Positions(log[..|log| - 1], exact, eventType);
    if j < |p| {
      GroupsKeepRegistrationOrder(log[..|log| - 1], exact, eventType, i, j);
    } else {
      assert p[i] < |log| - 1;
    }
  }

  /** And holds every registration that concerns the event, and no other. */
  lemma {:induction false} GroupsAreComplete(log: seq<Registration>, exact: bool, eventType: string, k: nat)
    requires k < |log|
    ensures k in Positions(log, exact, eventType) <==> Concerns(log[k], exact, eventType)
    decreases |log|
  {
    var init := log[..|log| - 1];
    var p := Positions(init, exact, eventType);
    if k < |init| {
      GroupsAreComplete(init, exact, eventType, k);
      assert init[k] == log[k];
    } else {
      assert k !in p;
    }
  }

  /** Registering for another type changes nothing for this one. */
  lemma UnrelatedRegistration(log: seq<Registration>, r: Registration, eventType: string)
    requires !Concerns(r, true, eventType) && !Concerns(r, false, eventType)
    ensures HandlersFor(log + [r], eventType) == HandlersFor(log, eventType)
  {
    GroupOfLonger(log, r, true, eventType);
    GroupOfLonger(log, r, false, eventType);
  }

  class Registry {
    var handlers: map<string, seq<Handler>>
    var prefixHandlers: seq<(string, Handler)>
    ghost var log: seq<Registration>

    /** The two collections hold what the log says. */
    ghost predicate Valid()
      reads this
    {
      && (forall e :: ExactMatches(handlers, e) == Group(log, true, e))
      && (forall e :: PrefixMatches(prefixHandlers, e) == Group(log, false, e))
    }

    constructor ()
      ensures Valid() && log == []
    {
      handlers, prefixHandlers, log := map[], [], [];
    }

    method Register(eventType: string, handler: Handler)
      requires Valid()
      modifies this
      ensures Valid() && log == old(log) + [Exact(eventType, handler)]
    {
      var existing := ExactMatches(handlers, eventType);
      handlers := handlers[eventType := existing + [handler]];
      log := log + [Exact(eventType, handler)];
      forall e
        ensures ExactMatches(handlers, e) == Group(log, true, e)
        ensures PrefixMatches(prefixHandlers, e) == Group(log, false, e)
      {
        assert ExactMatches(old(handlers), e) == Group(old(log), true, e);
        GroupOfLonger(old(log), Exact(eventType, handler), true, e);
        GroupOfLonger(old(log), Exact(eventType, handler), false, e);
      }
    }

    method RegisterPrefix(prefix: string, handler: Handler)
      requires Valid()
      modifies this
      ensures Valid() && log == old(log) + [Prefixed(prefix, handler)]
    {
      prefixHandlers := prefixHandlers + [(prefix, handler)];
      log := log + [Prefixed(prefix, handler)];
      assert log[..|log| - 1] == old(log);
      assert prefixHandlers[..|prefixHandlers| - 1] == old(prefixHandlers);
    }

    method HandlersForEvent(eventType: string) returns (r: seq<Handler>)
      requires Valid()
      ensures r == HandlersFor(log, eventType)
    {
      r := ExactMatches(handlers, eventType) + PrefixMatches(prefixHandlers, eventType);
    }
  }

  function ExactMatches(handlers: map<string, seq<Handler>>, eventType: string): seq<Handler> {
    if eventType in handlers then handlers[eventType] else []
  }

  function PrefixMatches(pairs: seq<(string, Handler)>, eventType: string): seq<Handler> {
    if pairs == [] then []
    else
      var last := pairs[|pairs| - 1];
      PrefixMatches(pairs[..|pairs| - 1], eventType) + (if StartsWith(eventType, last.0) then [last.1] else [])
  }

  /** The registrations of a kind that concern an event. */
  function Concerned(log: seq<Registration>, exact: bool, eventType: string): set<nat> {
    set k: nat | k < |log| && Concerns(log[k], exact, eventType)
  }

  lemma {:induction false} PositionsAreDistinct(p: seq<nat>, s: set<nat>)
    requires forall i, j :: 0 <= i < j < |p| ==> p[i] < p[j]
    requires forall k :: k in p <==> k in s
    ensures |p| == |s|
    decreases |p|
  {
    if p != [] {
      var init, last := p[..|p| - 1], p[|p| - 1];
      assert last !in init;
      forall k ensures k in init <==> k in s - {last} {
        if k in init { assert k in p; }
        if k in s - {last} { assert k in p && k != last; }
      }
      PositionsAreDistinct(init, s - {last});
    }
  }

  lemma GroupSize(log: seq<Registration>, exact: bool, eventType: string)
    ensures |Group(log, exact, eventType)| == |Concerned(log, exact, eventType)|
  {
    var p := Positions(log, exact, eventType);
    forall i, j | 0 <= i < j < |p| ensures p[i] < p[j] {
      GroupsKeepRegistrationOrder(log, exact, eventType, i, j);
    }
    forall k: nat | k < |log| ensures k in p <==> k in Concerned(log, exact, eventType) {
      GroupsAreComplete(log, exact, eventType, k);
    }
    PositionsAreDistinct(p, Concerned(log, exact, eventType));
  }

  /** The handlers of an event: first those registered for its very type, then those for a
      prefix of it, in each group as many as there are registrations that concern it. */
  lemma ExactBeforePrefix(log: seq<Registration>, eventType: string)
    ensures
      var handlers, exact, prefixed := HandlersFor(log, eventType), Positions(log, true, eventType),
        Positions(log, false, eventType);
      && |exact| == |Concerned(log, true, eventType)| && |prefixed| == |Concerned(log, false, eventType)|
      && |handlers| == |exact| + |prefixed|
      && (forall i :: 0 <= i < |exact| ==> log[exact[i]].Exact? && handlers[i] == log[exact[i]].handler)
      && (forall i :: 0 <= i < |prefixed| ==>
           log[prefixed[i]].Prefixed? && handlers[|exact| + i] == log[prefixed[i]].handler)
  {
    GroupSize(log, true, eventType);
    GroupSize(log, false, eventType);
    forall i | 0 <= i < |Positions(log, true, eventType)| ensures log[Positions(log, true, eventType)[i]].Exact? {
      GroupsAreComplete(log, true, eventType, Positions(log, true, eventType)[i]);
    }
    forall i | 0 <= i < |Positions(log, false, eventType)| ensures log[Positions(log, false, eventType)[i]].Prefixed? {
      GroupsAreComplete(log, false, eventType, Positions(log, false, eventType)[i]);
    }
  }

  /** Which registrations concern an event. */
  lemma WhoIsConcerned(r: Registration, eventType: string)
    ensures Concerns(r, true, eventType) <==> r.Exact? && r.eventType == eventType
    ensures Concerns(r, false, eventType) <==> r.Prefixed? && exists rest: string :: eventType == r.prefix + rest
  {
    if r.Prefixed? && StartsWith(eventType, r.prefix) {
      assert eventType == r.prefix + eventType[|r.prefix|..];
    }
  }
}
