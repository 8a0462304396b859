/** Riders joining, leaving, being attached to and released from fleets
    (src/modules/fleet/fleet.service.ts and fleet.repository.ts). Every operation reads first
    and writes later, on condition that the membership is still what it read; any number of
    actors interleave between their reads and their writes. */
module FleetMembership {
  import opened Wrappers

  datatype PartnerStatus = Active | Suspended | Deactivated

  datatype Rider = Rider(campus: nat, fleet: Option<nat>, available: bool)

  datatype Partner = Partner(campus: nat, status: PartnerStatus, joinCode: string)

  datatype Fleets = Fleets(riders: map<nat, Rider>, partners: map<nat, Partner>)

  /** What an operation remembers of the rider it read. */
  datatype RiderRef = RiderRef(id: nat, campus: nat, fleet: Option<nat>)

  datatype FleetError =
    | RiderNotFound
    | PartnerNotFound
    | CodeNotRecognised
    | NotAccepting
    | InAnotherFleet
    | NotInAFleet
    | NotInThisFleet
    | MembershipChanged
    | CampusRejected

  /** What an operation decides once it has read: nothing to do, a refusal, or a move. */
  datatype Decision = Already | Refuse(error: FleetError) | Move(rider: RiderRef, target: Option<nat>)

  function RefOf(f: Fleets, riderId: nat): Option<RiderRef> {
    if riderId in f.riders then Some(RiderRef(riderId, f.riders[riderId].campus, f.riders[riderId].fleet)) else None
  }

  // ---------------------------------------------------------------- the decisions

  function DecideJoin(rider: RiderRef, partnerId: nat, partner: Option<Partner>): Decision {
    if partner.None? || partner.value.campus != rider.campus then Refuse(CodeNotRecognised)
    else if partner.value.status != Active then Refuse(NotAccepting)
    else if rider.fleet == Some(partnerId) then Already
    else if rider.fleet.Some? then Refuse(InAnotherFleet)
    else Move(rider, Some(partnerId))
  }

  function DecideAttach(rider: Option<RiderRef>, partnerId: nat, partnerCampus: nat): Decision {
    if rider.None? || rider.value.campus != partnerCampus then Refuse(RiderNotFound)
    else if rider.value.fleet == Some(partnerId) then Already
    else if rider.value.fleet.Some? then Refuse(InAnotherFleet)
    else Move(rider.value, Some(partnerId))
  }

  function DecideLeave(rider: RiderRef): Decision {
    if rider.fleet.None? then Refuse(NotInAFleet) else Move(rider, None)
  }

  function DecideRelease(rider: Option<RiderRef>, partnerId: nat): Decision {
    if rider.None? || rider.value.fleet != Some(partnerId) then Refuse(NotInThisFleet) else Move(rider.value, None)
  }

  // ---------------------------------------------------------------- the conditional write

  datatype Write = Written(after: Fleets) | NoMatch | Rejected

  /** The database refuses a fleet on another campus than the rider's. */
  predicate CampusAllows(f: Fleets, rider: Rider, target: Option<nat>) {
    target.Some? ==> target.value in f.partners && f.partners[target.value].campus == rider.campus
  }

  function SetRiderFleet(f: Fleets, riderId: nat, target: Option<nat>, expected: Option<nat>): Write {
    if riderId !in f.riders || f.riders[riderId].fleet != expected then NoMatch
    else
      var rider := f.riders[riderId];
      if !CampusAllows(f, rider, target) then Rejected
      else Written(f.(riders := f.riders[riderId := Rider(rider.campus, target, false)]))
  }

  function Carry(f: Fleets, d: Decision): (Fleets, Result<bool, FleetError>) {
    match d
    case Already => (f, Ok(false))
    case Refuse(e) => (f, Err(e))
    case Move(rider, target) =>
      match SetRiderFleet(f, rider.id, target, rider.fleet)
      case Written(after) => (after, Ok(true))
      case NoMatch => (f, Err(MembershipChanged))
      case Rejected => (f, Err(CampusRejected))
  }

  // ---------------------------------------------------------------- one operation undisturbed

  class FleetService {
    var riders: map<nat, Rider>
    var partners: map<nat, Partner>

    ghost function Contents(): Fleets
      reads this
    {
      Fleets(riders, partners)
    }

    constructor (f: Fleets)
      ensures Contents() == f
    {
      riders, partners := f.riders, f.partners;
    }

    method FindRider(riderId: nat) returns (rider: Option<RiderRef>)
      ensures rider == RefOf(Contents(), riderId)
    {
      rider := if riderId in riders then Some(RiderRef(riderId, riders[riderId].campus, riders[riderId].fleet))
        else None;
    }

    method UpdateRiderFleet(riderId: nat, target: Option<nat>, expected: Option<nat>)
        returns (r: Result<bool, FleetError>)
      modifies this`riders
      ensures
        match SetRiderFleet(old(Contents()), riderId, target, expected)
        case Written(after) => Contents() == after && r == Ok(true)
        case NoMatch => Contents() == old(Contents()) && r == Ok(false)
        case Rejected => Contents() == old(Contents()) && r == Err(CampusRejected)
    {
      if riderId !in riders || riders[riderId].fleet != expected {
        return Ok(false);
      }
      var rider := riders[riderId];
      if target.Some? && (target.value !in partners || partners[target.value].campus != rider.campus) {
        return Err(CampusRejected);
      }
      riders := riders[riderId := Rider(rider.campus, target, false)];
      return Ok(true);
    }

    method MoveRider(rider: RiderRef, target: Option<nat>) returns (r: Result<bool, FleetError>)
      modifies this`riders
      ensures (Contents(), r) == Carry(old(Contents()), Move(rider, target))
    {
      r := UpdateRiderFleet(rider.id, target, rider.fleet);
      if r == Ok(false) {
        return Err(MembershipChanged);
      }
    }

    /** `partnerId` is what the join code was found to belong to, if anything. */
    method JoinFleet(riderId: nat, partnerId: Option<nat>) returns (r: Result<bool, FleetError>)
      modifies this`riders
      ensures
        var f := old(Contents());
        if riderId !in f.riders then Contents() == f && r == Err(RiderNotFound)
        else if partnerId.None? || partnerId.value !in f.partners then Contents() == f && r == Err(CodeNotRecognised)
        else
          var partner := f.partners[partnerId.value];
          (Contents(), r) == Carry(f, DecideJoin(RefOf(f, riderId).value, partnerId.value, Some(partner)))
    {
      var found := FindRider(riderId);
      if found.None? {
        return Err(RiderNotFound);
      }
      var rider := found.value;
      if partnerId.None? || partnerId.value !in partners || partners[partnerId.value].campus != rider.campus {
        return Err(CodeNotRecognised);
      }
      var partner := partners[partnerId.value];
      if partner.status != Active {
        return Err(NotAccepting);
      }
      if rider.fleet == partnerId {
        return Ok(false);
      }
      if rider.fleet.Some? {
        return Err(InAnotherFleet);
      }
      r := MoveRider(rider, partnerId);
    }

    method LeaveFleet(riderId: nat) returns (r: Result<bool, FleetError>)
      modifies this`riders
      ensures
        var f := old(Contents());
        if riderId !in f.riders then Contents() == f && r == Err(RiderNotFound)
        else (Contents(), r) == Carry(f, DecideLeave(RefOf(f, riderId).value))
    {
      var found := FindRider(riderId);
      if found.None? {
        return Err(RiderNotFound);
      }
      if found.value.fleet.None? {
        return Err(NotInAFleet);
      }
      r := MoveRider(found.value, None);
    }

    method AttachRiderAsAdmin(partnerId: nat, riderId: nat) returns (r: Result<bool, FleetError>)
      modifies this`riders
      ensures
        var f := old(Contents());
        if partnerId !in f.partners then Contents() == f && r == Err(PartnerNotFound)
        else (Contents(), r) == Carry(f, DecideAttach(RefOf(f, riderId), partnerId, f.partners[partnerId].campus))
    {
      if partnerId !in partners {
        return Err(PartnerNotFound);
      }
      var rider := FindRider(riderId);
      if rider.None? || rider.value.campus != partners[partnerId].campus {
        return Err(RiderNotFound);
      }
      if rider.value.fleet == Some(partnerId) {
        return Ok(false);
      }
      if rider.value.fleet.Some? {
        return Err(InAnotherFleet);
      }
      r := MoveRider(rider.value, Some(partnerId));
    }

    method ReleaseRider(partnerId: nat, riderId: nat) returns (r: Result<bool, FleetError>)
      modifies this`riders
      ensures (Contents(), r) == Carry(old(Contents()), DecideRelease(RefOf(old(Contents()), riderId), partnerId))
    {
      var rider := FindRider(riderId);
      if rider.None? || rider.value.fleet != Some(partnerId) {
        return Err(NotInThisFleet);
      }
      r := MoveRider(rider.value, None);
    }
  }

  // ---------------------------------------------------------------- many actors

  /** How far an actor's operation has got, and what it remembers. */
  datatype Local =
    | Idle
    | Joining(rider: RiderRef, code: string)
    | FoundCode(joiner: RiderRef, partnerId: nat)
    | Attaching(partner: nat, campus: nat)
    | Releasing(from: nat)
    | Moving(mover: RiderRef, target: Option<nat>)

  /** A membership change that took place. */
  datatype Change = Change(rider: nat, from: Option<nat>, to: Option<nat>)

  datatype World = World(fleets: Fleets, actors: map<nat, Local>, history: seq<Change>)

  datatype Action =
    | ReadRiderToJoin(riderId: nat, code: string)
    | LookUpCode(found: Option<nat>)
    | ReadPartner
    | ReadRiderToLeave(riderId: nat)
    | ReadPartnerToAttach(partnerId: nat)
    | ReadRiderToAttach(riderId: nat)
    | ReadPartnerToRelease(partnerId: nat)
    | ReadRiderToRelease(riderId: nat)
    | WriteMove

  datatype Event =
    | Act(actor: nat, action: Action)
    | SetAvailability(riderId: nat, available: bool)
    | TakeOffShift(partnerId: nat)
    | SetPartnerStatus(partnerId: nat, status: PartnerStatus)
    | RotateCode(partnerId: nat, code: string)
    | AddRider(riderId: nat, campus: nat)
    | AddPartner(partnerId: nat, campus: nat, code: string)

  function LocalOf(w: World, actor: nat): Local {
    if actor in w.actors then w.actors[actor] else Idle
  }

  function Pursue(d: Decision): Local {
    if d.Move? then Moving(d.rider, d.target) else Idle
  }

  /** The reads. An action that does not fit what the actor is doing leaves it idle. */
  function AfterRead(f: Fleets, local: Local, a: Action): Local {
    match a
    case ReadRiderToJoin(riderId, code) =>
      if riderId in f.riders then Joining(RefOf(f, riderId).value, code) else Idle
    case LookUpCode(found) =>
      if local.Joining? && found.Some? && found.value in f.partners && f.partners[found.value].joinCode == local.code
      then FoundCode(local.rider, found.value) else Idle
    case ReadPartner =>
      if local.FoundCode? then
        Pursue(DecideJoin(local.joiner, local.partnerId,
          if local.partnerId in f.partners then Some(f.partners[local.partnerId]) else None))
      else Idle
    case ReadRiderToLeave(riderId) =>
      if riderId in f.riders then Pursue(DecideLeave(RefOf(f, riderId).value)) else Idle
    case ReadPartnerToAttach(partnerId) =>
      if partnerId in f.partners then Attaching(partnerId, f.partners[partnerId].campus) else Idle
    case ReadRiderToAttach(riderId) =>
      if local.Attaching? then Pursue(DecideAttach(RefOf(f, riderId), local.partner, local.campus)) else Idle
    case ReadPartnerToRelease(partnerId) =>
      if partnerId in f.partners then Releasing(partnerId) else Idle
    case ReadRiderToRelease(riderId) =>
      if local.Releasing? then Pursue(DecideRelease(RefOf(f, riderId), local.from)) else Idle
    case WriteMove => Idle
  }

  /** Whether this actor's write would go through now. */
  function Attempted(w: World, actor: nat): Write {
    var local := LocalOf(w, actor);
    if local.Moving? then SetRiderFleet(w.fleets, local.mover.id, local.target, local.mover.fleet) else NoMatch
  }

  function Next(w: World, e: Event): World {
    var f := w.fleets;
    match e
    case Act(actor, a) =>
      var local := LocalOf(w, actor);
      var idle := w.(actors := w.actors[actor := AfterRead(f, local, a)]);
      if a.WriteMove? && Attempted(w, actor).Written? then
        idle.(fleets := Attempted(w, actor).after,
              history := w.history + [Change(local.mover.id, local.mover.fleet, local.target)])
      else idle
    case SetAvailability(r, available) =>
      if r in f.riders then w.(fleets := f.(riders := f.riders[r := f.riders[r].(available := available)])) else w
    case TakeOffShift(p) =>
      w.(fleets := f.(riders := map r | r in f.riders ::
        if f.riders[r].fleet == Some(p) then f.riders[r].(available := false) else f.riders[r]))
    case SetPartnerStatus(p, status) =>
      if p in f.partners then w.(fleets := f.(partners := f.partners[p := f.partners[p].(status := status)])) else w
    case RotateCode(p, code) =>
      if p in f.partners then w.(fleets := f.(partners := f.partners[p := f.partners[p].(joinCode := code)])) else w
    case AddRider(r, campus) =>
      if r in f.riders then w else w.(fleets := f.(riders := f.riders[r := Rider(campus, None, false)]))
    case AddPartner(p, campus, code) =>
      if p in f.partners then w else w.(fleets := f.(partners := f.partners[p := Partner(campus, Active, code)]))
  }

  function Run(w: World, events: seq<Event>): World
    decreases |events|
  {
    if events == [] then w else Next(Run(w, events[..|events| - 1]), events[|events| - 1])
  }

  // ---------------------------------------------------------------- what every run keeps

  ghost predicate Knows(f: Fleets, r: RiderRef) {
    r.id in f.riders && f.riders[r.id].campus == r.campus
  }

  /** What an actor remembers is still true where it cannot change, and a move it is about
      to make leads from no fleet into one on the rider's campus, or out of one. */
  ghost predicate Informed(f: Fleets, local: Local) {
    match local
    case Idle => true
    case Joining(rider, _) => Knows(f, rider)
    case FoundCode(rider, partner) => Knows(f, rider) && partner in f.partners
    case Attaching(partner, campus) => partner in f.partners && f.partners[partner].campus == campus
    case Releasing(partner) => partner in f.partners
    case Moving(rider, target) =>
      && Knows(f, rider)
      && (rider.fleet.Some? <==> target.None?)
      && (target.Some? ==> target.value in f.partners && f.partners[target.value].campus == rider.campus)
  }

  ghost predicate OnCampus(f: Fleets) {
    forall r :: r in f.riders && f.riders[r].fleet.Some? ==>
      && f.riders[r].fleet.value in f.partners
      && f.partners[f.riders[r].fleet.value].campus == f.riders[r].campus
  }

  /** Where a rider is after the changes so far, having started in `start`. */
  function Whereabouts(start: map<nat, Option<nat>>, history: seq<Change>, rider: nat): Option<nat> {
    if history == [] then (if rider in start then start[rider] else None)
    else
      var last := history[|history| - 1];
      if last.rider == rider then last.to else Whereabouts(start, history[..|history| - 1], rider)
  }

  /** Each change starts where the one before it left the rider, and goes in or out. */
  ghost predicate IsChain(start: map<nat, Option<nat>>, history: seq<Change>) {
    forall i :: 0 <= i < |history| ==>
      && history[i].from == Whereabouts(start, history[..i], history[i].rider)
      && (history[i].from.Some? <==> history[i].to.None?)
  }

  ghost predicate Consistent(start: map<nat, Option<nat>>, w: World) {
    && OnCampus(w.fleets)
    && (forall a :: a in w.actors ==> Informed(w.fleets, w.actors[a]))
    && IsChain(start, w.history)
    && (forall r :: r in w.fleets.riders ==> w.fleets.riders[r].fleet == Whereabouts(start, w.history, r))
    && (forall r :: r !in w.fleets.riders ==> Whereabouts(start, w.history, r) == None)
  }

  /** Campuses are for ever, and nobody is removed. */
  ghost predicate Grows(f: Fleets, g: Fleets) {
    && (forall r :: r in f.riders ==> r in g.riders && g.riders[r].campus == f.riders[r].campus)
    && (forall p :: p in f.partners ==> p in g.partners && g.partners[p].campus == f.partners[p].campus)
  }

  lemma NextGrows(w: World, e: Event)
    ensures Grows(w.fleets, Next(w, e).fleets)
  {}

  lemma GrowthKeepsInformed(f: Fleets, g: Fleets, local: Local)
    requires Grows(f, g) && Informed(f, local)
    ensures Informed(g, local)
  {}

  lemma ReadIsInformed(f: Fleets, local: Local, a: Action)
    requires OnCampus(f) && Informed(f, local)
    ensures Informed(f, AfterRead(f, local, a))
  {}

  lemma WriteExtendsChain(start: map<nat, Option<nat>>, history: seq<Change>, c: Change)
    requires IsChain(start, history)
    requires c.from == Whereabouts(start, history, c.rider) && (c.from.Some? <==> c.to.None?)
    ensures IsChain(start, history + [c])
    ensures forall r ::
      Whereabouts(start, history + [c], r) == (if r == c.rider then c.to else Whereabouts(start, history, r))
  {
    var longer := history + [c];
    assert longer[..|history|] == history;
    forall i | 0 <= i < |longer|
      ensures longer[i].from == Whereabouts(start, longer[..i], longer[i].rider)
        && (longer[i].from.Some? <==> longer[i].to.None?)
    {
      if i < |history| {
        assert longer[..i] == history[..i] && longer[i] == history[i];
      }
    }
  }

  lemma NextKeepsActorsInformed(w: World, e: Event)
    requires OnCampus(w.fleets) && forall a :: a in w.actors ==> Informed(w.fleets, w.actors[a])
    ensures forall a :: a in Next(w, e).actors ==> Informed(Next(w, e).fleets, Next(w, e).actors[a])
  {
    NextGrows(w, e);
    var after := Next(w, e);
    forall a | a in after.actors ensures Informed(after.fleets, after.actors[a]) {
      if e.Act? && e.actor == a {
        ReadIsInformed(w.fleets, LocalOf(w, a), e.action);
        GrowthKeepsInformed(w.fleets, after.fleets, AfterRead(w.fleets, LocalOf(w, a), e.action));
      } else {
        GrowthKeepsInformed(w.fleets, after.fleets, w.actors[a]);
      }
    }
  }

  /** In a consistent world the conditional write is refused for one reason only: the
      membership has changed since it was read. The campus check never fires. */
  lemma WriteSucceedsOnUnchangedMembership(start: map<nat, Option<nat>>, w: World, actor: nat)
    requires Consistent(start, w) && LocalOf(w, actor).Moving?
    ensures
      var mover := LocalOf(w, actor).mover;
      && mover.id in w.fleets.riders
      && !Attempted(w, actor).Rejected?
      && (Attempted(w, actor).Written? <==> w.fleets.riders[mover.id].fleet == mover.fleet)
  {
    assert Informed(w.fleets, w.actors[actor]);
  }

  lemma WriteKeepsConsistent(start: map<nat, Option<nat>>, w: World, actor: nat)
    requires Consistent(start, w) && Attempted(w, actor).Written?
    ensures Consistent(start, Next(w, Act(actor, WriteMove)))
  {
    var local := LocalOf(w, actor);
    assert Informed(w.fleets, w.actors[actor]);
    NextKeepsActorsInformed(w, Act(actor, WriteMove));
    WriteExtendsChain(start, w.history, Change(local.mover.id, local.mover.fleet, local.target));
  }

  lemma NextKeepsConsistent(start: map<nat, Option<nat>>, w: World, e: Event)
    requires Consistent(start, w)
    ensures Consistent(start, Next(w, e))
  {
    if e.Act? && e.action.WriteMove? && Attempted(w, e.actor).Written? {
      WriteKeepsConsistent(start, w, e.actor);
    } else {
      NextKeepsActorsInformed(w, e);
      OtherEventsKeepMembership(w, e);
    }
  }

  lemma OtherEventsKeepMembership(w: World, e: Event)
    requires !(e.Act? && e.action.WriteMove? && Attempted(w, e.actor).Written?)
    ensures Next(w, e).history == w.history
    ensures forall r :: r in w.fleets.riders ==>
      r in Next(w, e).fleets.riders && Next(w, e).fleets.riders[r].fleet == w.fleets.riders[r].fleet
    ensures forall r :: r in Next(w, e).fleets.riders && r !in w.fleets.riders ==>
      Next(w, e).fleets.riders[r].fleet == None
    ensures Grows(w.fleets, Next(w, e).fleets)
  {}

  /** Everybody idle, nothing moved yet. */
  function Opening(f: Fleets): World {
    World(f, map[], [])
  }

  function StartOf(f: Fleets): map<nat, Option<nat>> {
    map r | r in f.riders :: f.riders[r].fleet
  }

  /** Under every interleaving: each rider's fleet is on the rider's campus, and the changes
      of each rider form one chain, each leading into a fleet or out of one, never from fleet
      to fleet. */
  lemma {:induction false} RunStaysConsistent(f: Fleets, events: seq<Event>)
    requires OnCampus(f)
    ensures Consistent(StartOf(f), Run(Opening(f), events))
    decreases |events|
  {
    if events != [] {
      RunStaysConsistent(f, events[..|events| - 1]);
      NextKeepsConsistent(StartOf(f), Run(Opening(f), events[..|events| - 1]), events[|events| - 1]);
    }
  }

  lemma {:induction false} WhereaboutsOfLast(start: map<nat, Option<nat>>, history: seq<Change>, i: nat, rider: nat)
    requires i < |history| && history[i].rider == rider
    requires forall k :: i < k < |history| ==> history[k].rider != rider
    ensures Whereabouts(start, history, rider) == history[i].to
    decreases |history|
  {
    if i < |history| - 1 {
      var init := history[..|history| - 1];
      assert init[i] == history[i];
      WhereaboutsOfLast(start, init, i, rider);
    }
  }

  /** A rider's history alternates: after joining, the next change leaves that very fleet;
      after leaving, the next change joins one. */
  lemma HistoryAlternates(start: map<nat, Option<nat>>, history: seq<Change>, i: nat, j: nat)
    requires IsChain(start, history) && i < j < |history|
    requires history[i].rider == history[j].rider
    requires forall k :: i < k < j ==> history[k].rider != history[i].rider
    ensures history[j].from == history[i].to
    ensures history[j].to.Some? <==> history[i].to.None?
  {
    WhereaboutsOfLast(start, history[..j], i, history[i].rider);
  }

  /** Of racing joins at most one wins: between two successful joins of one rider there is
      always a departure from the fleet joined first. */
  lemma {:induction false} BetweenTwoJoinsALeave(start: map<nat, Option<nat>>, history: seq<Change>, i: nat, j: nat)
      returns (k: nat)
    requires IsChain(start, history) && i < j < |history|
    requires history[i].rider == history[j].rider && history[i].to.Some? && history[j].to.Some?
    ensures i < k < j && history[k].rider == history[i].rider
    ensures history[k].from == history[i].to && history[k].to.None?
  {
    k := NextChange(history, i, j);
    HistoryAlternates(start, history, i, k);
  }

  lemma NextChange(history: seq<Change>, i: nat, j: nat) returns (k: nat)
    requires i < j < |history| && history[i].rider == history[j].rider
    ensures i < k <= j && history[k].rider == history[i].rider
    ensures forall m :: i < m < k ==> history[m].rider != history[i].rider
  {
    k := i + 1;
    while history[k].rider != history[i].rider
      invariant i < k <= j && forall m :: i < m < k ==> history[m].rider != history[i].rider
      decreases j - k
    {
      k := k + 1;
    }
  }

  /** Two actors about to move the same rider on the same reading cannot both do so: whoever
      writes second is told that the membership changed. */
  lemma SecondWriterIsRefused(start: map<nat, Option<nat>>, w: World, first: nat, second: nat)
    requires Consistent(start, w) && first != second
    requires LocalOf(w, first).Moving? && LocalOf(w, second).Moving?
    requires LocalOf(w, first).mover.id == LocalOf(w, second).mover.id
    requires LocalOf(w, first).mover.fleet == LocalOf(w, second).mover.fleet
    ensures
      var won := Next(w, Act(first, WriteMove));
      && (Attempted(w, first).Written? ==> Attempted(won, second).NoMatch?)
      && (Attempted(w, first).Written? ==> Next(won, Act(second, WriteMove)).fleets == won.fleets)
  {
    assert Informed(w.fleets, w.actors[first]);
  }

  /** A move puts exactly this rider where it was meant to go, off shift, and is recorded. */
  lemma MoveClearsAvailability(start: map<nat, Option<nat>>, w: World, actor: nat)
    requires Consistent(start, w) && Attempted(w, actor).Written?
    ensures
      var local, after := LocalOf(w, actor), Next(w, Act(actor, WriteMove));
      && after.history == w.history + [Change(local.mover.id, local.mover.fleet, local.target)]
      && after.fleets.riders == w.fleets.riders[local.mover.id := Rider(local.mover.campus, local.target, false)]
      && after.fleets.partners == w.fleets.partners
  {
    assert Informed(w.fleets, w.actors[actor]);
  }

  /** Nothing but a successful write changes anybody's fleet. */
  lemma OnlyWritesMoveRiders(w: World, e: Event, rider: nat)
    requires rider in w.fleets.riders
    ensures rider in Next(w, e).fleets.riders
    ensures Next(w, e).fleets.riders[rider].fleet != w.fleets.riders[rider].fleet ==>
      e.Act? && e.action.WriteMove? && Attempted(w, e.actor).Written? && LocalOf(w, e.actor).mover.id == rider
  {}

  /** Suspending a fleet's riders takes exactly that fleet's riders off shift; new riders start
      in no fleet and off shift, new fleets active. */
  lemma WhoGoesOffShift(w: World, p: nat, rider: nat, campus: nat, code: string)
    ensures
      var after := Next(w, TakeOffShift(p)).fleets;
      && after.partners == w.fleets.partners && after.riders.Keys == w.fleets.riders.Keys
      && forall r :: r in w.fleets.riders ==>
           after.riders[r] ==
           if w.fleets.riders[r].fleet == Some(p) then Rider(w.fleets.riders[r].campus, Some(p), false)
             else w.fleets.riders[r]
    ensures rider !in w.fleets.riders ==>
      Next(w, AddRider(rider, campus)).fleets.riders == w.fleets.riders[rider := Rider(campus, None, false)]
    ensures p !in w.fleets.partners ==>
      Next(w, AddPartner(p, campus, code)).fleets.partners == w.fleets.partners[p := Partner(campus, Active, code)]
  {}

  /** The one thing a join checks that can go stale: a fleet suspended between the check and
      the write still gains the rider. */
  lemma JoinCanReachASuspendedFleet()
    ensures
      var f := Fleets(map[1 := Rider(0, None, true)], map[7 := Partner(0, Active, "ABC123")]);
      var events := [Act(0, ReadRiderToJoin(1, "ABC123")), Act(0, LookUpCode(Some(7))), Act(0, ReadPartner),
                     SetPartnerStatus(7, Suspended), Act(0, WriteMove)];
      var after := Run(Opening(f), events).fleets;
      && 1 in after.riders && after.riders[1].fleet == Some(7)
      && 7 in after.partners && after.partners[7].status == Suspended
  {
    var f := Fleets(map[1 := Rider(0, None, true)], map[7 := Partner(0, Active, "ABC123")]);
    var e1, e2, e3 := Act(0, ReadRiderToJoin(1, "ABC123")), Act(0, LookUpCode(Some(7))), Act(0, ReadPartner);
    var e4, e5 := SetPartnerStatus(7, Suspended), Act(0, WriteMove);
    var events := [e1, e2, e3, e4, e5];
    assert events[..4] == [e1, e2, e3, e4] && [e1, e2, e3, e4][..3] == [e1, e2, e3];
    assert [e1, e2, e3][..2] == [e1, e2] && [e1, e2][..1] == [e1] && [e1][..0] == [];
    var rider := RiderRef(1, 0, None);
    var w1 := Next(Opening(f), e1);
    assert LocalOf(w1, 0) == Joining(rider, "ABC123");
    assert Run(Opening(f), [e1]) == w1;
    var w2 := Next(w1, e2);
    assert LocalOf(w2, 0) == FoundCode(rider, 7);
    assert Run(Opening(f), [e1, e2]) == w2;
    var w3 := Next(w2, e3);
    assert LocalOf(w3, 0) == Moving(rider, Some(7));
    assert Run(Opening(f), [e1, e2, e3]) == w3;
    var w4 := Next(w3, e4);
    assert Run(Opening(f), [e1, e2, e3, e4]) == w4;
    assert Attempted(w4, 0).Written?;
  }

  // ---------------------------------------------------------------- fleets that stop accepting

  /** This actor's write would put a rider into a fleet that is not active. */
  ghost predicate EntersInactive(w: World, actor: nat, p: nat) {
    var after := Next(w, Act(actor, WriteMove));
    && after.history != w.history && after.history[|w.history|].to == Some(p)
    && p in after.fleets.partners && after.fleets.partners[p].status != Active
  }

  /** It does exactly when the membership is as it was read and the fleet is not active at
      that moment: the write itself looks at neither the status nor the code. */
  lemma WriteIgnoresStatus(start: map<nat, Option<nat>>, w: World, actor: nat, p: nat)
    requires Consistent(start, w) && LocalOf(w, actor).Moving? && LocalOf(w, actor).target == Some(p)
    ensures LocalOf(w, actor).mover.id in w.fleets.riders && p in w.fleets.partners
    ensures EntersInactive(w, actor, p) <==>
      && w.fleets.riders[LocalOf(w, actor).mover.id].fleet == LocalOf(w, actor).mover.fleet
      && w.fleets.partners[p].status != Active
  {
    assert Informed(w.fleets, w.actors[actor]);
  }

  /** The status a fleet has after these events, having had `status` before them. */
  function StatusAfter(status: PartnerStatus, events: seq<Event>, p: nat): PartnerStatus
    decreases |events|
  {
    if events == [] then status
    else
      var last := events[|events| - 1];
      if last.SetPartnerStatus? && last.partnerId == p then last.status
      else StatusAfter(status, events[..|events| - 1], p)
  }

  lemma {:induction false} StatusFollows(w: World, events: seq<Event>, p: nat)
    requires p in w.fleets.partners
    ensures p in Run(w, events).fleets.partners
    ensures Run(w, events).fleets.partners[p].status == StatusAfter(w.fleets.partners[p].status, events, p)
    decreases |events|
  {
    if events != [] {
      StatusFollows(w, events[..|events| - 1], p);
    }
  }

  lemma {:induction false} OthersLeaveAnActorAlone(w: World, events: seq<Event>, actor: nat)
    requires forall i :: 0 <= i < |events| ==> !(events[i].Act? && events[i].actor == actor)
    ensures LocalOf(Run(w, events), actor) == LocalOf(w, actor)
    decreases |events|
  {
    if events != [] {
      OthersLeaveAnActorAlone(w, events[..|events| - 1], actor);
    }
  }

  lemma {:induction false} RunKeepsConsistent(start: map<nat, Option<nat>>, w: World, events: seq<Event>)
    requires Consistent(start, w)
    ensures Consistent(start, Run(w, events))
    decreases |events|
  {
    if events != [] {
      RunKeepsConsistent(start, w, events[..|events| - 1]);
      NextKeepsConsistent(start, Run(w, events[..|events| - 1]), events[|events| - 1]);
    }
  }

  /** Over runs: an actor that has decided to move a rider into `p` does move it into an
      inactive fleet if and only if, at the write, the membership is still as read and the
      last change of status since, or else the status at the decision, was not "active". */
  lemma EnteringAfterOthers(start: map<nat, Option<nat>>, w: World, actor: nat, p: nat, between: seq<Event>)
    requires Consistent(start, w) && LocalOf(w, actor).Moving? && LocalOf(w, actor).target == Some(p)
    requires forall i :: 0 <= i < |between| ==> !(between[i].Act? && between[i].actor == actor)
    ensures
      var later := Run(w, between);
      && p in w.fleets.partners && LocalOf(w, actor).mover.id in later.fleets.riders
      && (EntersInactive(later, actor, p) <==>
           && later.fleets.riders[LocalOf(w, actor).mover.id].fleet == LocalOf(w, actor).mover.fleet
           && StatusAfter(w.fleets.partners[p].status, between, p) != Active)
  {
    assert Informed(w.fleets, w.actors[actor]);
    RunKeepsConsistent(start, w, between);
    OthersLeaveAnActorAlone(w, between, actor);
    StatusFollows(w, between, p);
    WriteIgnoresStatus(start, Run(w, between), actor, p);
  }

  /** A join decides only on an active fleet, so it takes a suspension or deactivation after
      its decision; an attachment never looks, so the status it found may do. */
  lemma DecisionsAndStatus(w: World, actor: nat, action: Action, p: nat)
    requires action.ReadPartner? || action.ReadRiderToAttach?
    requires
      var decided := LocalOf(Next(w, Act(actor, action)), actor);
      decided.Moving? && decided.target == Some(p) && p in w.fleets.partners
    ensures Next(w, Act(actor, action)).fleets == w.fleets
    ensures action.ReadPartner? ==> w.fleets.partners[p].status == Active
  {}

  lemma JoinEntersInactive(start: map<nat, Option<nat>>, w: World, actor: nat, p: nat, between: seq<Event>)
    requires Consistent(start, w)
    requires
      var decided := LocalOf(Next(w, Act(actor, ReadPartner)), actor);
      decided.Moving? && decided.target == Some(p)
    requires forall i :: 0 <= i < |between| ==> !(between[i].Act? && between[i].actor == actor)
    ensures
      var decided := Next(w, Act(actor, ReadPartner));
      var later := Run(decided, between);
      var mover := LocalOf(decided, actor).mover;
      && mover.id in later.fleets.riders
      && (EntersInactive(later, actor, p) <==>
           later.fleets.riders[mover.id].fleet == mover.fleet && StatusAfter(Active, between, p) != Active)
  {
    var decided := Next(w, Act(actor, ReadPartner));
    NextKeepsConsistent(start, w, Act(actor, ReadPartner));
    EnteringAfterOthers(start, decided, actor, p, between);
    DecisionsAndStatus(w, actor, ReadPartner, p);
  }

  // ---------------------------------------------------------------- undisturbed operations

  /** Run without interference, the steps of a join are the service's join. */
  lemma UndisturbedJoin(w: World, actor: nat, riderId: nat, partnerId: nat)
    requires riderId in w.fleets.riders && partnerId in w.fleets.partners
    ensures
      var f := w.fleets;
      var code := f.partners[partnerId].joinCode;
      var w1 := Next(w, Act(actor, ReadRiderToJoin(riderId, code)));
      var w2 := Next(w1, Act(actor, LookUpCode(Some(partnerId))));
      var w3 := Next(w2, Act(actor, ReadPartner));
      var w4 := Next(w3, Act(actor, WriteMove));
      w4.fleets == Carry(f, DecideJoin(RefOf(f, riderId).value, partnerId, Some(f.partners[partnerId]))).0
  {}

  lemma UndisturbedAttach(w: World, actor: nat, riderId: nat, partnerId: nat)
    requires partnerId in w.fleets.partners
    ensures
      var f := w.fleets;
      var w1 := Next(w, Act(actor, ReadPartnerToAttach(partnerId)));
      var w2 := Next(w1, Act(actor, ReadRiderToAttach(riderId)));
      var w3 := Next(w2, Act(actor, WriteMove));
      w3.fleets == Carry(f, DecideAttach(RefOf(f, riderId), partnerId, f.partners[partnerId].campus)).0
  {}

  // ---------------------------------------------------------------- what the operations come to

  /** A join or attachment succeeds exactly when the rider is on the partner's campus and in
      no other fleet (and, for a join, the partner is active), leaves the rider in the fleet,
      and otherwise changes nothing. */
  lemma EnteringOutcome(f: Fleets, riderId: nat, partnerId: nat, byCode: bool)
    requires riderId in f.riders && partnerId in f.partners
    ensures
      var rider, partner := f.riders[riderId], f.partners[partnerId];
      var (after, r) := Carry(f,
        if byCode then DecideJoin(RefOf(f, riderId).value, partnerId, Some(partner))
        else DecideAttach(RefOf(f, riderId), partnerId, partner.campus));
      && (r.Ok? <==>
           && partner.campus == rider.campus && rider.fleet in {None, Some(partnerId)}
           && (byCode ==> partner.status == Active))
      && (r.Ok? ==> riderId in after.riders && after.riders[riderId].fleet == Some(partnerId))
      && (r == Ok(true) <==> after != f)
  {
    if f.riders[riderId].fleet.None? && f.partners[partnerId].campus == f.riders[riderId].campus {
      assert f.riders[riderId := Rider(f.riders[riderId].campus, Some(partnerId), false)][riderId].fleet ==
        Some(partnerId);
    }
  }

  /** Leaving, or being released, undoes the joining: everything is as before, but that the
      rider is off shift. */
  lemma LeavingUndoesJoining(f: Fleets, riderId: nat, partnerId: nat, released: bool)
    requires riderId in f.riders && partnerId in f.partners && f.riders[riderId].fleet.None?
    requires Carry(f, DecideJoin(RefOf(f, riderId).value, partnerId, Some(f.partners[partnerId]))).1.Ok?
    ensures
      var joined := Carry(f, DecideJoin(RefOf(f, riderId).value, partnerId, Some(f.partners[partnerId]))).0;
      && riderId in joined.riders
      && var (after, r) := Carry(joined,
        if released then DecideRelease(RefOf(joined, riderId), partnerId)
          else DecideLeave(RefOf(joined, riderId).value));
      && r == Ok(true)
      && after.partners == f.partners
      && after.riders == f.riders[riderId := f.riders[riderId].(available := false)]
  {}

  /** What somebody who takes a rider out of a fleet has changed: exactly this rider, who is in
      no fleet and off shift. */
  ghost predicate TookOut(f: Fleets, after: Fleets, riderId: nat) {
    && riderId in f.riders
    && after.partners == f.partners
    && after.riders == f.riders[riderId := Rider(f.riders[riderId].campus, None, false)]
  }

  /** A partner releases its own riders and nobody else's. */
  lemma ReleaseOutcome(f: Fleets, riderId: nat, partnerId: nat)
    ensures
      var (after, r) := Carry(f, DecideRelease(RefOf(f, riderId), partnerId));
      if riderId in f.riders && f.riders[riderId].fleet == Some(partnerId) then r == Ok(true)
        && TookOut(f, after, riderId)
      else r == Err(NotInThisFleet) && after == f
  {}

  /** A rider leaves the fleet it is in, if any. */
  lemma LeaveOutcome(f: Fleets, riderId: nat)
    requires riderId in f.riders
    ensures
      var (after, r) := Carry(f, DecideLeave(RefOf(f, riderId).value));
      if f.riders[riderId].fleet.Some? then r == Ok(true) && TookOut(f, after, riderId)
      else r == Err(NotInAFleet) && after == f
  {}

  /** Why a join or attachment is refused. */
  lemma EnteringRefusals(f: Fleets, riderId: nat, partnerId: nat, byCode: bool)
    requires riderId in f.riders && partnerId in f.partners
    ensures
      var rider, partner := f.riders[riderId], f.partners[partnerId];
      var r := Carry(f,
        if byCode then DecideJoin(RefOf(f, riderId).value, partnerId, Some(partner))
        else DecideAttach(RefOf(f, riderId), partnerId, partner.campus)).1;
      && (r.Err? ==> r.error in {CodeNotRecognised, RiderNotFound, NotAccepting, InAnotherFleet})
      && (r == Err(CodeNotRecognised) <==> byCode && partner.campus != rider.campus)
      && (r == Err(RiderNotFound) <==> !byCode && partner.campus != rider.campus)
      && (r == Err(NotAccepting) <==> byCode && partner.campus == rider.campus && partner.status != Active)
      && (r == Err(InAnotherFleet) <==>
           && partner.campus == rider.campus && (byCode ==> partner.status == Active)
           && rider.fleet !in {None, Some(partnerId)})
  {}

  /** Interleaved or not, a move out is decided for the rider's own fleet only: by a release
      for the partner that releases, by a leave for the fleet the rider is in. */
  lemma MovesOutAreOfTheRidersFleet(w: World, actor: nat, riderId: nat)
    ensures
      var decided := LocalOf(Next(w, Act(actor, ReadRiderToRelease(riderId))), actor);
      decided.Moving? <==>
        && LocalOf(w, actor).Releasing?
        && riderId in w.fleets.riders && w.fleets.riders[riderId].fleet == Some(LocalOf(w, actor).from)
    ensures
      var decided := LocalOf(Next(w, Act(actor, ReadRiderToRelease(riderId))), actor);
      decided.Moving? ==>
        decided.mover.id == riderId && decided.mover.fleet == Some(LocalOf(w, actor).from) && decided.target.None?
    ensures
      var decided := LocalOf(Next(w, Act(actor, ReadRiderToLeave(riderId))), actor);
      && (decided.Moving? <==> riderId in w.fleets.riders && w.fleets.riders[riderId].fleet.Some?)
      && (decided.Moving? ==> decided.mover.id == riderId && decided.target.None?)
  {}

  /** Undisturbed, the steps of a release and of a leave do what the methods do. */
  lemma UndisturbedRelease(w: World, actor: nat, riderId: nat, partnerId: nat)
    requires partnerId in w.fleets.partners
    ensures
      var w1 := Next(w, Act(actor, ReadPartnerToRelease(partnerId)));
      var w2 := Next(w1, Act(actor, ReadRiderToRelease(riderId)));
      Next(w2, Act(actor, WriteMove)).fleets == Carry(w.fleets, DecideRelease(RefOf(w.fleets, riderId), partnerId)).0
  {}

  lemma UndisturbedLeave(w: World, actor: nat, riderId: nat)
    requires riderId in w.fleets.riders
    ensures
      var w1 := Next(w, Act(actor, ReadRiderToLeave(riderId)));
      Next(w1, Act(actor, WriteMove)).fleets == Carry(w.fleets, DecideLeave(RefOf(w.fleets, riderId).value)).0
  {}

  /** A join code leads to a fleet exactly if it is that fleet's code when it is looked up. */
  lemma JoiningTakesTheCode(w: World, actor: nat, p: nat)
    ensures
      var local, found := LocalOf(w, actor), LocalOf(Next(w, Act(actor, LookUpCode(Some(p)))), actor);
      && (found.FoundCode? <==>
           local.Joining? && p in w.fleets.partners && w.fleets.partners[p].joinCode == local.code)
      && (found.FoundCode? ==> found == FoundCode(local.rider, p))
  {}

  /** Statuses, codes and shifts change as told, for those that exist. */
  lemma SettingsTakeEffect(w: World, p: nat, status: PartnerStatus, code: string, r: nat, available: bool)
    ensures p in w.fleets.partners ==>
      && Next(w, SetPartnerStatus(p, status)).fleets.partners ==
           w.fleets.partners[p := Partner(w.fleets.partners[p].campus, status, w.fleets.partners[p].joinCode)]
      && Next(w, RotateCode(p, code)).fleets.partners ==
           w.fleets.partners[p := Partner(w.fleets.partners[p].campus, w.fleets.partners[p].status, code)]
    ensures r in w.fleets.riders ==>
      Next(w, SetAvailability(r, available)).fleets.riders ==
      w.fleets.riders[r := Rider(w.fleets.riders[r].campus, w.fleets.riders[r].fleet, available)]
  {}
}
