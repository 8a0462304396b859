/** Any number of workers draining one outbox at once. Each drain is a session that claims a
    batch and then takes its steps one by one, calling a handler or writing to a row, with
    the steps of all other sessions, claims of the jobs endpoint, insertions and crashes in
    between. */
module OutboxRuns {
  import opened Wrappers
  import opened HandlerRegistry
  import opened Outbox

  /** The rest of a session's batch, the handlers already called for the first of it, and
      whether one of them, or the completion, threw. A session never starts over. */
  datatype Session = Session(worker: string, todo: seq<nat>, called: nat, failing: bool)

  /** `completedBy` records which session completed an event. */
  datatype World = World(rows: Rows, sessions: map<nat, Session>, journal: seq<Call>, completedBy: map<nat, nat>)

  /** `LoseClaim` is a worker's claim that commits but whose answer never arrives: the drain
      ends before it has begun. */
  datatype Step =
    | Insert(id: nat, eventType: string, now: int)
    | Claim(session: nat, worker: string, now: int, limit: nat, batch: seq<nat>)
    | LoseClaim(worker: string, now: int, limit: nat, batch: seq<nat>)
    | ClaimForJobs(worker: string, now: int, limit: nat, batch: seq<nat>)
    | CallHandler(session: nat, ok: bool)
    | Complete(session: nat, answer: Answer)
    | Fail(session: nat, now: int, answer: Answer)
    | Crash(session: nat)

  predicate IsClaim(step: Step) {
    step.Claim? || step.LoseClaim? || step.ClaimForJobs?
  }

  datatype Config = Config(log: seq<Registration>, maxAttempts: int)

  /** The handlers of the event a session is at. */
  function Due(c: Config, w: World, s: nat): seq<Handler> {
    if s in w.sessions && w.sessions[s].todo != [] && w.sessions[s].todo[0] in w.rows
    then HandlersFor(c.log, w.rows[w.sessions[s].todo[0]].eventType) else []
  }

  predicate Busy(w: World, s: nat) {
    s in w.sessions && w.sessions[s].todo != [] && w.sessions[s].todo[0] in w.rows
  }

  ghost predicate Enabled(c: Config, w: World, step: Step) {
    match step
    case Insert(id, _, _) => id !in w.rows
    case Claim(s, _, now, limit, batch) => s !in w.sessions && IsBatch(w.rows, now, limit, WorkerClaim, batch)
    case LoseClaim(_, now, limit, batch) => IsBatch(w.rows, now, limit, WorkerClaim, batch)
    case ClaimForJobs(_, now, limit, batch) => IsBatch(w.rows, now, limit, JobsClaim, batch)
    case CallHandler(s, _) => Busy(w, s) && !w.sessions[s].failing && w.sessions[s].called < |Due(c, w, s)|
    case Complete(s, _) => Busy(w, s) && !w.sessions[s].failing && w.sessions[s].called == |Due(c, w, s)|
    case Fail(s, _, _) => Busy(w, s) && w.sessions[s].failing
    case Crash(s) => s in w.sessions
  }

  function Finished(session: Session): Session
    requires session.todo != []
  {
    Session(session.worker, session.todo[1..], 0, false)
  }

  function Stopped(session: Session): Session {
    Session(session.worker, [], 0, false)
  }

  ghost function Next(c: Config, w: World, step: Step): World
    requires Enabled(c, w, step)
  {
    match step
    case Insert(id, eventType, now) => w.(rows := w.rows[id := Row(eventType, now, now, 0, None, false, false)])
    case Claim(s, worker, _, _, batch) =>
      w.(rows := Claimed(w.rows, batch, worker), sessions := w.sessions[s := Session(worker, batch, 0, false)])
    case LoseClaim(worker, _, _, batch) => w.(rows := Claimed(w.rows, batch, worker))
    case ClaimForJobs(worker, _, _, batch) => w.(rows := Claimed(w.rows, batch, worker))
    case CallHandler(s, ok) =>
      var me := w.sessions[s];
      var me' := if ok then me.(called := me.called + 1) else me.(failing := true);
      w.(sessions := w.sessions[s := me'], journal := w.journal + [Call(s, me.todo[0], Due(c, w, s)[me.called], ok)])
    case Complete(s, answer) =>
      var me := w.sessions[s];
      var id := me.todo[0];
      var done := w.(rows := w.rows[id := CompletedRow(w.rows[id])], completedBy := w.completedBy[id := s]);
      match answer {
        case Applied => done.(sessions := w.sessions[s := Finished(me)])
        case AppliedButLost => done.(sessions := w.sessions[s := me.(failing := true)])
        case NotApplied => w.(sessions := w.sessions[s := me.(failing := true)])
      }
    case Fail(s, now, answer) =>
      var me := w.sessions[s];
      var id := me.todo[0];
      var failed := w.rows[id := FailedRow(w.rows[id], now, c.maxAttempts)];
      match answer {
        case Applied => w.(rows := failed, sessions := w.sessions[s := Finished(me)])
        case AppliedButLost => w.(rows := failed, sessions := w.sessions[s := Stopped(me)])
        case NotApplied => w.(sessions := w.sessions[s := Stopped(me)])
      }
    case Crash(s) => w.(sessions := w.sessions[s := Stopped(w.sessions[s])])
  }

  /** What a session has called for an event. */
  function CallsBy(journal: seq<Call>, s: nat, id: nat): seq<Call> {
    if journal == [] then []
    else
      var last := journal[|journal| - 1];
      CallsBy(journal[..|journal| - 1], s, id) + (if last.session == s && last.id == id then [last] else [])
  }

  // ---------------------------------------------------------------- exclusive possession

  ghost predicate Holds(w: World, s: nat, id: nat) {
    s in w.sessions && id in w.sessions[s].todo
  }

  /** A held row is locked in the holder's name and undone; the one exception is the row at
      hand whose completion went through unnoticed. */
  predicate HeldRow(row: Row, session: Session, first: bool) {
    if row.processed then first && session.failing && row.lockedBy.None?
    else row.lockedBy == Some(session.worker) && !row.failed
  }

  ghost predicate Exclusive(w: World) {
    && (forall s :: s in w.sessions ==> NoDuplicates(w.sessions[s].todo))
    && (forall s, t, id :: Holds(w, s, id) && Holds(w, t, id) ==> s == t)
    && (forall s, i :: s in w.sessions && 0 <= i < |w.sessions[s].todo| ==>
         w.sessions[s].todo[i] in w.rows && HeldRow(w.rows[w.sessions[s].todo[i]], w.sessions[s], i == 0))
  }

  /** The calls made for the event a session is at, if nothing has thrown yet. */
  ghost predicate CallsAtHand(c: Config, w: World, s: nat)
    requires Busy(w, s)
  {
    var me := w.sessions[s];
    && me.called <= |Due(c, w, s)|
    && CallsBy(w.journal, s, me.todo[0]) == Pass(s, me.todo[0], Due(c, w, s)[..me.called])
  }

  /** The calls a session has made so far are exactly the handlers due, in order. */
  ghost predicate CallsInOrder(c: Config, w: World) {
    && (forall k :: 0 <= k < |w.journal| ==> w.journal[k].session in w.sessions)
    && (forall s :: Busy(w, s) && !w.sessions[s].failing ==> CallsAtHand(c, w, s))
    && (forall s, i :: s in w.sessions && 1 <= i < |w.sessions[s].todo| ==>
         CallsBy(w.journal, s, w.sessions[s].todo[i]) == [])
  }

  /** Behind every processed event is one session that called every handler, in order, each
      to its end, and called no handler besides. */
  ghost predicate FullyHandled(c: Config, w: World) {
    forall id :: id in w.rows && w.rows[id].processed ==>
      && id in w.completedBy && w.completedBy[id] in w.sessions
      && CallsBy(w.journal, w.completedBy[id], id) ==
        Pass(w.completedBy[id], id, HandlersFor(c.log, w.rows[id].eventType))
  }

  ghost predicate Sound(c: Config, w: World) {
    Exclusive(w) && CallsInOrder(c, w) && FullyHandled(c, w)
  }

  lemma {:induction false} NoCallsBySomebodyUnknown(w: World, journal: seq<Call>, s: nat, id: nat)
    requires forall k :: 0 <= k < |journal| ==> journal[k].session in w.sessions
    requires s !in w.sessions
    ensures CallsBy(journal, s, id) == []
    decreases |journal|
  {
    if journal != [] {
      NoCallsBySomebodyUnknown(w, journal[..|journal| - 1], s, id);
    }
  }

  lemma OneMoreCall(journal: seq<Call>, call: Call, s: nat, id: nat)
    ensures CallsBy(journal + [call], s, id) ==
      CallsBy(journal, s, id) + (if call.session == s && call.id == id then [call] else [])
  {
    assert (journal + [call])[..|journal|] == journal;
  }

  lemma FirstIsFirst(w: World, s: nat)
    requires Exclusive(w) && Busy(w, s)
    ensures Holds(w, s, w.sessions[s].todo[0])
    ensures HeldRow(w.rows[w.sessions[s].todo[0]], w.sessions[s], true)
    ensures forall id :: id in w.sessions[s].todo[1..] ==> id != w.sessions[s].todo[0] && id in w.sessions[s].todo
  {}

  /** A held row is one nobody can claim. */
  lemma HeldIsNotClaimable(w: World, s: nat, id: nat, now: int, rule: ClaimRule)
    requires Exclusive(w) && Holds(w, s, id)
    ensures id in w.rows && !Claimable(w.rows[id], now, rule)
  {
    var i :| 0 <= i < |w.sessions[s].todo| && w.sessions[s].todo[i] == id;
    assert HeldRow(w.rows[w.sessions[s].todo[i]], w.sessions[s], i == 0);
  }

  /** Only a claim gives anybody anything. */
  lemma OnlyClaimsGive(c: Config, w: World, step: Step, s: nat, id: nat)
    requires Enabled(c, w, step) && Holds(Next(c, w, step), s, id)
    ensures Holds(w, s, id) || (step.Claim? && step.session == s && id in step.batch)
  {}

  lemma NextKeepsPossession(c: Config, w: World, step: Step, s: nat, t: nat, id: nat)
    requires Exclusive(w) && Enabled(c, w, step)
    requires Holds(Next(c, w, step), s, id) && Holds(Next(c, w, step), t, id)
    ensures s == t
  {
    OnlyClaimsGive(c, w, step, s, id);
    OnlyClaimsGive(c, w, step, t, id);
    if s != t && step.Claim? {
      var other := if step.session == s then t else s;
      if Holds(w, other, id) {
        HeldIsNotClaimable(w, other, id, step.now, WorkerClaim);
      }
    }
  }

  predicate ActsOn(w: World, step: Step, s: nat, id: nat) {
    (step.Complete? || step.Fail?) && step.session == s && Busy(w, s) && w.sessions[s].todo[0] == id
  }

  /** What a session holds is touched by nobody else, and by itself only when it is its turn. */
  lemma HeldRowsAreUntouched(c: Config, w: World, step: Step, s: nat, id: nat)
    requires Exclusive(w) && Enabled(c, w, step)
    requires Holds(w, s, id) && !ActsOn(w, step, s, id)
    ensures id in w.rows && id in Next(c, w, step).rows && Next(c, w, step).rows[id] == w.rows[id]
  {
    HeldIsNotClaimable(w, s, id, 0, WorkerClaim);
    if step.Claim? || step.LoseClaim? { HeldIsNotClaimable(w, s, id, step.now, WorkerClaim); }
    if step.ClaimForJobs? { HeldIsNotClaimable(w, s, id, step.now, JobsClaim); }
    if step.Complete? || step.Fail? {
      FirstIsFirst(w, step.session);
      assert id != w.sessions[step.session].todo[0];
    }
  }

  lemma NextKeepsHeldRows(c: Config, w: World, step: Step, s: nat, i: nat)
    requires Exclusive(w) && Enabled(c, w, step)
    requires s in Next(c, w, step).sessions && i < |Next(c, w, step).sessions[s].todo|
    ensures
      var me := Next(c, w, step).sessions[s];
      me.todo[i] in Next(c, w, step).rows && HeldRow(Next(c, w, step).rows[me.todo[i]], me, i == 0)
  {
    var after := Next(c, w, step);
    var id := after.sessions[s].todo[i];
    if step.Claim? && step.session == s {
      assert id == step.batch[i];
    } else {
      assert Holds(w, s, id) by { OnlyClaimsGive(c, w, step, s, id); }
      if ActsOn(w, step, s, id) {
        FirstIsFirst(w, s);
        assert step.Complete?;
      } else {
        HeldRowsAreUntouched(c, w, step, s, id);
        WhereHeldBefore(c, w, step, s, i);
      }
    }
  }

  /** Batches are only ever shortened from the front. */
  lemma WhereHeldBefore(c: Config, w: World, step: Step, s: nat, i: nat)
    requires Enabled(c, w, step) && !(step.Claim? && step.session == s)
    requires s in Next(c, w, step).sessions && i < |Next(c, w, step).sessions[s].todo|
    ensures s in w.sessions
    ensures
      var me, was := Next(c, w, step).sessions[s], w.sessions[s];
      && me.worker == was.worker
      && if |me.todo| == |was.todo| then me.todo == was.todo && (was.failing ==> me.failing)
         else |me.todo| < |was.todo| && i + 1 < |was.todo| && me.todo[i] == was.todo[i + 1]
  {}

  lemma NextKeepsExclusive(c: Config, w: World, step: Step)
    requires Exclusive(w) && Enabled(c, w, step)
    ensures Exclusive(Next(c, w, step))
  {
    var after := Next(c, w, step);
    forall s, t, id | Holds(after, s, id) && Holds(after, t, id) ensures s == t {
      NextKeepsPossession(c, w, step, s, t, id);
    }
    forall s, i | s in after.sessions && 0 <= i < |after.sessions[s].todo|
      ensures after.sessions[s].todo[i] in after.rows
        && HeldRow(after.rows[after.sessions[s].todo[i]], after.sessions[s], i == 0)
    {
      NextKeepsHeldRows(c, w, step, s, i);
    }
  }

  // ---------------------------------------------------------------- what has been called

  lemma TypesAreFixed(c: Config, w: World, step: Step, id: nat)
    requires Enabled(c, w, step) && id in w.rows
    ensures id in Next(c, w, step).rows && Next(c, w, step).rows[id].eventType == w.rows[id].eventType
    ensures w.rows[id].processed ==> Next(c, w, step).rows[id].processed
  {}

  /** Calls are added for the event a session is at, and for nothing else. */
  lemma CallsGrowAtHand(c: Config, w: World, step: Step, s: nat, id: nat)
    requires Enabled(c, w, step)
    ensures CallsBy(Next(c, w, step).journal, s, id) == CallsBy(w.journal, s, id) +
      if step.CallHandler? && step.session == s && w.sessions[s].todo[0] == id
      then [Call(s, id, Due(c, w, s)[w.sessions[s].called], step.ok)] else []
  {
    if step.CallHandler? {
      var call := Call(step.session, w.sessions[step.session].todo[0],
        Due(c, w, step.session)[w.sessions[step.session].called], step.ok);
      OneMoreCall(w.journal, call, s, id);
    }
  }

  lemma NextKeepsUntouchedCalls(c: Config, w: World, step: Step, s: nat, i: nat)
    requires Exclusive(w) && CallsInOrder(c, w) && Enabled(c, w, step)
    requires s in Next(c, w, step).sessions && 1 <= i < |Next(c, w, step).sessions[s].todo|
    ensures CallsBy(Next(c, w, step).journal, s, Next(c, w, step).sessions[s].todo[i]) == []
  {
    var id := Next(c, w, step).sessions[s].todo[i];
    CallsGrowAtHand(c, w, step, s, id);
    if step.Claim? && step.session == s {
      NoCallsBySomebodyUnknown(w, w.journal, s, id);
    } else {
      WhereHeldBefore(c, w, step, s, i);
    }
  }

  /** A session that stays at its event without failing has called one more handler or has
      not moved. */
  lemma StayingAtHand(c: Config, w: World, step: Step, s: nat)
    requires Enabled(c, w, step) && !(step.Claim? && step.session == s)
    requires Busy(Next(c, w, step), s) && !Next(c, w, step).sessions[s].failing
    requires s in w.sessions && w.sessions[s].todo == Next(c, w, step).sessions[s].todo
    ensures !w.sessions[s].failing
    ensures Next(c, w, step).sessions[s].called ==
      w.sessions[s].called + if step.CallHandler? && step.session == s then 1 else 0
    ensures step.CallHandler? && step.session == s ==> step.ok && w.sessions[s].called < |Due(c, w, s)|
  {}

  lemma DueIsFixed(c: Config, w: World, step: Step, s: nat)
    requires Enabled(c, w, step) && Busy(w, s)
    requires s in Next(c, w, step).sessions && Next(c, w, step).sessions[s].todo == w.sessions[s].todo
    ensures Due(c, Next(c, w, step), s) == Due(c, w, s)
  {
    TypesAreFixed(c, w, step, w.sessions[s].todo[0]);
  }

  lemma CallsStayInOrder(c: Config, w: World, after: World, s: nat, ok: bool)
    requires Busy(w, s) && Busy(after, s) && CallsAtHand(c, w, s)
    requires after.sessions[s].todo == w.sessions[s].todo && Due(c, after, s) == Due(c, w, s)
    requires
      var was, id := w.sessions[s], w.sessions[s].todo[0];
      if ok then
        && was.called < |Due(c, w, s)| && after.sessions[s].called == was.called + 1
        && CallsBy(after.journal, s, id) == CallsBy(w.journal, s, id) + [Call(s, id, Due(c, w, s)[was.called], true)]
      else after.sessions[s].called == was.called && CallsBy(after.journal, s, id) == CallsBy(w.journal, s, id)
    ensures CallsAtHand(c, after, s)
  {
    if ok {
      PassGrows(s, w.sessions[s].todo[0], Due(c, w, s), w.sessions[s].called);
    }
  }

  lemma NextKeepsCallsAtHand(c: Config, w: World, step: Step, s: nat)
    requires Exclusive(w) && CallsInOrder(c, w) && Enabled(c, w, step)
    requires Busy(Next(c, w, step), s) && !Next(c, w, step).sessions[s].failing
    ensures CallsAtHand(c, Next(c, w, step), s)
  {
    if step.Claim? && step.session == s {
      JustClaimed(c, w, step);
    } else {
      OlderSession(c, w, step, s);
    }
  }

  lemma OlderSession(c: Config, w: World, step: Step, s: nat)
    requires Exclusive(w) && CallsInOrder(c, w) && Enabled(c, w, step) && !(step.Claim? && step.session == s)
    requires Busy(Next(c, w, step), s) && !Next(c, w, step).sessions[s].failing
    ensures CallsAtHand(c, Next(c, w, step), s)
  {
    WhereHeldBefore(c, w, step, s, 0);
    if |Next(c, w, step).sessions[s].todo| == |w.sessions[s].todo| {
      StillAtHand(c, w, step, s);
    } else {
      MovedOn(c, w, step, s);
    }
  }

  lemma JustClaimed(c: Config, w: World, step: Step)
    requires CallsInOrder(c, w) && Enabled(c, w, step) && step.Claim? && Busy(Next(c, w, step), step.session)
    ensures CallsAtHand(c, Next(c, w, step), step.session)
  {
    NoCallsBySomebodyUnknown(w, w.journal, step.session, Next(c, w, step).sessions[step.session].todo[0]);
  }

  lemma StillAtHand(c: Config, w: World, step: Step, s: nat)
    requires Exclusive(w) && CallsInOrder(c, w) && Enabled(c, w, step) && !(step.Claim? && step.session == s)
    requires Busy(Next(c, w, step), s) && !Next(c, w, step).sessions[s].failing
    requires s in w.sessions && w.sessions[s].todo == Next(c, w, step).sessions[s].todo
    ensures CallsAtHand(c, Next(c, w, step), s)
  {
    assert Busy(w, s) by { HeldIsNotClaimable(w, s, w.sessions[s].todo[0], 0, WorkerClaim); }
    StayingAtHand(c, w, step, s);
    assert CallsAtHand(c, w, s);
    DueIsFixed(c, w, step, s);
    CallsGrowAtHand(c, w, step, s, w.sessions[s].todo[0]);
    CallsStayInOrder(c, w, Next(c, w, step), s, step.CallHandler? && step.session == s);
  }

  lemma MovedOn(c: Config, w: World, step: Step, s: nat)
    requires CallsInOrder(c, w) && Enabled(c, w, step) && !(step.Claim? && step.session == s)
    requires s in w.sessions && Busy(Next(c, w, step), s)
    requires |Next(c, w, step).sessions[s].todo| < |w.sessions[s].todo|
    ensures CallsAtHand(c, Next(c, w, step), s)
  {
    var after := Next(c, w, step);
    assert CallsBy(w.journal, s, w.sessions[s].todo[1]) == [];
    assert after.sessions[s].todo == w.sessions[s].todo[1..] && after.journal == w.journal;
  }

  lemma PassGrows(s: nat, id: nat, handlers: seq<Handler>, k: nat)
    requires k < |handlers|
    ensures Pass(s, id, handlers[..k + 1]) == Pass(s, id, handlers[..k]) + [Call(s, id, handlers[k], true)]
  {
    assert handlers[..k + 1][..k] == handlers[..k];
  }

  lemma NextKeepsCallsInOrder(c: Config, w: World, step: Step)
    requires Exclusive(w) && CallsInOrder(c, w) && Enabled(c, w, step)
    ensures CallsInOrder(c, Next(c, w, step))
  {
    var after := Next(c, w, step);
    forall s | Busy(after, s) && !after.sessions[s].failing ensures CallsAtHand(c, after, s) {
      NextKeepsCallsAtHand(c, w, step, s);
    }
    forall s, i | s in after.sessions && 1 <= i < |after.sessions[s].todo|
      ensures CallsBy(after.journal, s, after.sessions[s].todo[i]) == []
    {
      NextKeepsUntouchedCalls(c, w, step, s, i);
    }
  }

  /** Nobody calls a handler for a processed event. */
  lemma NoCallsForProcessed(c: Config, w: World, step: Step, s: nat, id: nat)
    requires Exclusive(w) && Enabled(c, w, step)
    requires id in w.rows && w.rows[id].processed
    ensures CallsBy(Next(c, w, step).journal, s, id) == CallsBy(w.journal, s, id)
  {
    CallsGrowAtHand(c, w, step, s, id);
    if step.CallHandler? {
      FirstIsFirst(w, step.session);
    }
  }

  lemma NextKeepsFullyHandled(c: Config, w: World, step: Step)
    requires Sound(c, w) && Enabled(c, w, step)
    ensures FullyHandled(c, Next(c, w, step))
  {
    var after := Next(c, w, step);
    forall id | id in after.rows && after.rows[id].processed
      ensures id in after.completedBy && after.completedBy[id] in after.sessions
      ensures CallsBy(after.journal, after.completedBy[id], id) ==
        Pass(after.completedBy[id], id, HandlersFor(c.log, after.rows[id].eventType))
    {
      if id in w.rows && w.rows[id].processed {
        StaysHandled(c, w, step, id);
      } else {
        CompletionIsEarned(c, w, step, id);
      }
    }
  }

  lemma CompletionIsRecordedOnce(c: Config, w: World, step: Step, id: nat)
    requires Exclusive(w) && Enabled(c, w, step)
    requires id in w.rows && w.rows[id].processed && id in w.completedBy && w.completedBy[id] in w.sessions
    ensures
      var after := Next(c, w, step);
      id in after.completedBy && after.completedBy[id] == w.completedBy[id] && after.completedBy[id] in after.sessions
  {
    if step.Complete? { FirstIsFirst(w, step.session); }
  }

  lemma StaysHandled(c: Config, w: World, step: Step, id: nat)
    requires Exclusive(w) && FullyHandled(c, w) && Enabled(c, w, step)
    requires id in w.rows && w.rows[id].processed
    ensures
      var after := Next(c, w, step);
      && id in after.rows && id in after.completedBy && after.completedBy[id] in after.sessions
      && CallsBy(after.journal, after.completedBy[id], id) ==
        Pass(after.completedBy[id], id, HandlersFor(c.log, after.rows[id].eventType))
  {
    TypesAreFixed(c, w, step, id);
    CompletionIsRecordedOnce(c, w, step, id);
    NoCallsForProcessed(c, w, step, w.completedBy[id], id);
  }

  /** Only a completion makes an event processed, and only after every handler. */
  lemma CompletionIsEarned(c: Config, w: World, step: Step, id: nat)
    requires CallsInOrder(c, w) && Enabled(c, w, step)
    requires id in Next(c, w, step).rows && Next(c, w, step).rows[id].processed
    requires id !in w.rows || !w.rows[id].processed
    ensures step.Complete? && Busy(w, step.session) && w.sessions[step.session].todo[0] == id
    ensures
      var after := Next(c, w, step);
      && id in after.completedBy && after.completedBy[id] == step.session && step.session in after.sessions
      && CallsBy(after.journal, step.session, id) ==
        Pass(step.session, id, HandlersFor(c.log, after.rows[id].eventType))
  {
    assert step.Complete?;
    var due := Due(c, w, step.session);
    assert CallsAtHand(c, w, step.session);
    assert due[..|due|] == due;
  }

  lemma NextKeepsSound(c: Config, w: World, step: Step)
    requires Sound(c, w) && Enabled(c, w, step)
    ensures Sound(c, Next(c, w, step))
  {
    NextKeepsExclusive(c, w, step);
    NextKeepsCallsInOrder(c, w, step);
    NextKeepsFullyHandled(c, w, step);
  }

  // ---------------------------------------------------------------- runs

  const EMPTY := World(map[], map[], [], map[])

  ghost predicate IsRun(c: Config, w: World, steps: seq<Step>)
    decreases |steps|
  {
    steps != [] ==> Enabled(c, w, steps[0]) && IsRun(c, Next(c, w, steps[0]), steps[1..])
  }

  ghost function Run(c: Config, w: World, steps: seq<Step>): World
    requires IsRun(c, w, steps)
    decreases |steps|
  {
    if steps == [] then w else Run(c, Next(c, w, steps[0]), steps[1..])
  }

  /** Under every interleaving an event is held by at most one session, a held event is
      locked, and every processed event has been through all its handlers, in order and
      exactly once each, in the session that completed it. */
  lemma {:induction false} RunKeepsSound(c: Config, w: World, steps: seq<Step>)
    requires Sound(c, w) && IsRun(c, w, steps)
    ensures Sound(c, Run(c, w, steps))
    decreases |steps|
  {
    if steps != [] {
      NextKeepsSound(c, w, steps[0]);
      RunKeepsSound(c, Next(c, w, steps[0]), steps[1..]);
    }
  }

  lemma EveryRunIsSound(c: Config, steps: seq<Step>)
    requires IsRun(c, EMPTY, steps)
    ensures Sound(c, Run(c, EMPTY, steps))
  {
    RunKeepsSound(c, EMPTY, steps);
  }

  /** A processed event stays processed, is not claimed by either rule at any time, and no
      handler is called for it any more, whoever is still at work. */
  lemma {:induction false} ProcessedIsFinal(c: Config, w: World, steps: seq<Step>, s: nat, id: nat)
    requires Sound(c, w) && IsRun(c, w, steps)
    requires id in w.rows && w.rows[id].processed
    ensures id in Run(c, w, steps).rows && Run(c, w, steps).rows[id].processed
    ensures CallsBy(Run(c, w, steps).journal, s, id) == CallsBy(w.journal, s, id)
    ensures forall k :: 0 <= k < |steps| && IsClaim(steps[k]) ==> id !in steps[k].batch
    decreases |steps|
  {
    if steps != [] {
      NextKeepsSound(c, w, steps[0]);
      TypesAreFixed(c, w, steps[0], id);
      NoCallsForProcessed(c, w, steps[0], s, id);
      ProcessedIsFinal(c, Next(c, w, steps[0]), steps[1..], s, id);
      forall k | 0 <= k < |steps| && IsClaim(steps[k]) ensures id !in steps[k].batch {
        if k > 0 {
          assert steps[k] == steps[1..][k - 1];
        }
      }
    }
  }

  ghost predicate Abandoned(w: World, id: nat) {
    id in w.rows && w.rows[id].lockedBy.Some? && forall s :: !Holds(w, s, id)
  }

  /** The steps that leave an event locked with nobody to release it: the jobs endpoint claims
      it; a worker's claim commits and its answer is lost; the session that holds it crashes;
      or that session's failure write does not go through, or goes through unnoticed, which
      stops the session with the rest of its batch. */
  ghost predicate Abandons(w: World, step: Step, id: nat)
    requires id in w.rows
  {
    match step
    case LoseClaim(_, _, _, batch) => id in batch
    case ClaimForJobs(_, _, _, batch) => id in batch
    case Crash(s) => Holds(w, s, id) && !w.rows[id].processed
    case Fail(s, _, answer) =>
      && Holds(w, s, id) && !w.rows[id].processed
      && (answer == NotApplied || (answer == AppliedButLost && id != w.sessions[s].todo[0]))
    case _ => false
  }

  lemma HeldIsLockedOrProcessed(w: World, s: nat, id: nat)
    requires Exclusive(w) && Holds(w, s, id)
    ensures id in w.rows && (w.rows[id].lockedBy.Some? <==> !w.rows[id].processed)
    ensures forall t :: Holds(w, t, id) ==> t == s
    ensures w.rows[id].processed ==> w.sessions[s].todo[0] == id
  {
    var i :| 0 <= i < |w.sessions[s].todo| && w.sessions[s].todo[i] == id;
    assert HeldRow(w.rows[w.sessions[s].todo[i]], w.sessions[s], i == 0);
  }

  /** Who still holds what after a step that takes something away. */
  lemma WhatStopsHolding(c: Config, w: World, step: Step, s: nat, id: nat)
    requires Exclusive(w) && Enabled(c, w, step) && Holds(w, s, id)
    ensures Holds(Next(c, w, step), s, id) <==>
      match step
      case Crash(t) => t != s
      case Fail(t, _, answer) => t != s || (answer == Applied && id != w.sessions[s].todo[0])
      case Complete(t, answer) => t != s || answer != Applied || id != w.sessions[s].todo[0]
      case _ => true
  {
    if Busy(w, s) {
      var todo := w.sessions[s].todo;
      assert todo == [todo[0]] + todo[1..];
      FirstIsFirst(w, s);
    }
  }

  /** An event becomes abandoned by these steps and by no others. */
  lemma WhatAbandons(c: Config, w: World, step: Step, id: nat)
    requires Exclusive(w) && Enabled(c, w, step) && id in w.rows && !Abandoned(w, id)
    ensures Abandoned(Next(c, w, step), id) <==> Abandons(w, step, id)
  {
    if s :| Holds(w, s, id) {
      HeldAbandonment(c, w, step, s, id);
    } else {
      UnheldAbandonment(c, w, step, id);
    }
  }

  lemma HeldAbandonment(c: Config, w: World, step: Step, s: nat, id: nat)
    requires Exclusive(w) && Enabled(c, w, step) && Holds(w, s, id) && id in w.rows
    ensures Abandoned(Next(c, w, step), id) <==> Abandons(w, step, id)
  {
    HeldIsLockedOrProcessed(w, s, id);
    WhatStopsHolding(c, w, step, s, id);
    if step.LoseClaim? { HeldIsNotClaimable(w, s, id, step.now, WorkerClaim); }
    if step.ClaimForJobs? { HeldIsNotClaimable(w, s, id, step.now, JobsClaim); }
    if ActsOn(w, step, s, id) {
      FirstIsFirst(w, s);
    } else {
      HeldRowsAreUntouched(c, w, step, s, id);
      TypesAreFixed(c, w, step, id);
    }
    forall t | Holds(Next(c, w, step), t, id) ensures t == s {
      OnlyClaimsGive(c, w, step, t, id);
      if step.Claim? { HeldIsNotClaimable(w, s, id, step.now, WorkerClaim); }
    }
  }

  lemma UnheldAbandonment(c: Config, w: World, step: Step, id: nat)
    requires Exclusive(w) && Enabled(c, w, step) && id in w.rows && !Abandoned(w, id) && forall s :: !Holds(w, s, id)
    ensures Abandoned(Next(c, w, step), id) <==> Abandons(w, step, id)
  {
    assert w.rows[id].lockedBy.None?;
    if step.Claim? && id in step.batch {
      assert Holds(Next(c, w, step), step.session, id);
    } else if step.ClaimForJobs? || step.LoseClaim? {
      assert Next(c, w, step).sessions == w.sessions;
    } else if step.Complete? || step.Fail? {
      FirstIsFirst(w, step.session);
    }
  }

  lemma NobodyTakesUpTheAbandoned(c: Config, w: World, step: Step, id: nat)
    requires Exclusive(w) && Enabled(c, w, step) && Abandoned(w, id)
    ensures Abandoned(Next(c, w, step), id) && Next(c, w, step).rows[id] == w.rows[id]
  {
    forall s ensures !Holds(Next(c, w, step), s, id) {
      if Holds(Next(c, w, step), s, id) { OnlyClaimsGive(c, w, step, s, id); }
    }
    if step.Complete? || step.Fail? { FirstIsFirst(w, step.session); }
  }

  /** A lock has no expiry: an event that is locked and that no session holds (its session
      crashed, its failure write failed, or the jobs endpoint claimed it) stays as it is. */
  lemma {:induction false} AbandonedStaysLocked(c: Config, w: World, steps: seq<Step>, id: nat)
    requires Exclusive(w) && IsRun(c, w, steps) && Abandoned(w, id)
    ensures id in Run(c, w, steps).rows && Run(c, w, steps).rows[id] == w.rows[id]
    decreases |steps|
  {
    if steps != [] {
      NextKeepsExclusive(c, w, steps[0]);
      NobodyTakesUpTheAbandoned(c, w, steps[0], id);
      AbandonedStaysLocked(c, Next(c, w, steps[0]), steps[1..], id);
    }
  }

  /** An event of a worker that crashes is never handled again. */
  lemma CrashStrandsItsBatch(c: Config, w: World, s: nat, id: nat, steps: seq<Step>)
    requires Exclusive(w) && Holds(w, s, id) && id in w.rows && !w.rows[id].processed
    requires IsRun(c, Next(c, w, Crash(s)), steps)
    ensures
      var after := Run(c, Next(c, w, Crash(s)), steps);
      id in after.rows && !after.rows[id].processed && after.rows[id] == w.rows[id]
  {
    HeldIsLockedOrProcessed(w, s, id);
    HeldAbandonment(c, w, Crash(s), s, id);
    NextKeepsExclusive(c, w, Crash(s));
    AbandonedStaysLocked(c, Next(c, w, Crash(s)), steps, id);
  }

  /** And workers do crash between claim and completion: a run that strands an event. */
  lemma EventsCanBeStranded(c: Config)
    ensures
      var insert, claim, crash := Insert(1, "order.ready", 0), Claim(5, "worker", 0, 1, [1]), Crash(5);
      && IsRun(c, EMPTY, [insert, claim, crash])
      && Abandoned(Run(c, EMPTY, [insert, claim, crash]), 1)
  {
    var insert, claim, crash := Insert(1, "order.ready", 0), Claim(5, "worker", 0, 1, [1]), Crash(5);
    var w1 := Next(c, EMPTY, insert);
    assert IsBatch(w1.rows, 0, 1, WorkerClaim, [1]);
    var w2 := Next(c, w1, claim);
    assert 1 in w2.sessions[5].todo && w2.rows[1].lockedBy == Some("worker");
    var w3 := Next(c, w2, crash);
    assert [insert, claim, crash][1..] == [claim, crash] && [claim, crash][1..] == [crash] && [crash][1..] == [];
    assert IsRun(c, w3, []) && Run(c, w3, []) == w3;
    assert IsRun(c, w2, [crash]) && Run(c, w2, [crash]) == w3;
    assert IsRun(c, w1, [claim, crash]) && Run(c, w1, [claim, crash]) == w3;
    assert forall s :: s in w3.sessions ==> w3.sessions[s].todo == [];
  }

  // ---------------------------------------------------------------- attempts

  /** How often an event can be claimed by workers. */
  function Limit(c: Config): int {
    if c.maxAttempts < 1 then 1 else c.maxAttempts
  }

  ghost predicate AttemptsBounded(c: Config, row: Row) {
    && (row.lockedBy.None? && !row.processed && !row.failed ==> row.attempts < Limit(c))
    && (!row.failed || row.lockedBy.None? ==> row.attempts <= Limit(c))
    && row.attempts <= Limit(c) + 1
  }

  ghost predicate AllBounded(c: Config, w: World) {
    forall id :: id in w.rows ==> AttemptsBounded(c, w.rows[id])
  }

  lemma NextKeepsBounds(c: Config, w: World, step: Step)
    requires Exclusive(w) && AllBounded(c, w) && Enabled(c, w, step)
    ensures AllBounded(c, Next(c, w, step))
  {
    var after := Next(c, w, step);
    if step.Complete? || step.Fail? {
      FirstIsFirst(w, step.session);
    }
    forall id | id in after.rows ensures AttemptsBounded(c, after.rows[id]) {
      if id in w.rows {
        assert AttemptsBounded(c, w.rows[id]);
        if (step.Claim? || step.LoseClaim?) && id in step.batch {
          assert Claimable(w.rows[id], step.now, WorkerClaim);
        } else if step.ClaimForJobs? && id in step.batch {
          assert Claimable(w.rows[id], step.now, JobsClaim);
        }
      }
    }
  }

  /** However often events fail, the worker takes each up at most as often as configured; an
      event beyond that is a dead letter that the jobs endpoint has picked up. */
  lemma {:induction false} AttemptsStayBounded(c: Config, w: World, steps: seq<Step>)
    requires Sound(c, w) && AllBounded(c, w) && IsRun(c, w, steps)
    ensures AllBounded(c, Run(c, w, steps))
    ensures forall id :: id in Run(c, w, steps).rows && Run(c, w, steps).rows[id].attempts > Limit(c) ==>
      Run(c, w, steps).rows[id].failed && Run(c, w, steps).rows[id].lockedBy.Some?
    decreases |steps|
  {
    if steps != [] {
      NextKeepsSound(c, w, steps[0]);
      NextKeepsBounds(c, w, steps[0]);
      AttemptsStayBounded(c, Next(c, w, steps[0]), steps[1..]);
    }
  }

  // ---------------------------------------------------------------- dead letters

  ghost predicate Dead(w: World, id: nat) {
    id in w.rows && w.rows[id].failed && !w.rows[id].processed && forall s :: !Holds(w, s, id)
  }

  predicate TakenForJobs(step: Step, id: nat) {
    step.ClaimForJobs? && id in step.batch
  }

  lemma DeadStep(c: Config, w: World, step: Step, id: nat)
    requires Exclusive(w) && Enabled(c, w, step) && Dead(w, id)
    ensures Dead(Next(c, w, step), id) && (step.Claim? || step.LoseClaim? ==> id !in step.batch)
    ensures forall s :: CallsBy(Next(c, w, step).journal, s, id) == CallsBy(w.journal, s, id)
    ensures !TakenForJobs(step, id) ==> Next(c, w, step).rows[id] == w.rows[id]
    ensures TakenForJobs(step, id) ==> Abandoned(Next(c, w, step), id) && Next(c, w, step).rows[id] != w.rows[id]
  {
    forall s ensures !Holds(Next(c, w, step), s, id) {
      if Holds(Next(c, w, step), s, id) { OnlyClaimsGive(c, w, step, s, id); }
    }
    if step.Complete? || step.Fail? || step.CallHandler? { FirstIsFirst(w, step.session); }
    forall s ensures CallsBy(Next(c, w, step).journal, s, id) == CallsBy(w.journal, s, id) {
      CallsGrowAtHand(c, w, step, s, id);
    }
  }

  /** A dead letter stays one: no worker claims it, no handler is called for it, nothing
      processes it. The jobs endpoint can still claim it, once, which only locks it: at the
      end of a run its row is as it was if and only if the endpoint has not. */
  lemma {:induction false} JobsClaimTakesDeadLetters(c: Config, w: World, steps: seq<Step>, id: nat)
    requires Exclusive(w) && IsRun(c, w, steps) && Dead(w, id)
    ensures Dead(Run(c, w, steps), id)
    ensures forall s :: CallsBy(Run(c, w, steps).journal, s, id) == CallsBy(w.journal, s, id)
    ensures forall k :: 0 <= k < |steps| && (steps[k].Claim? || steps[k].LoseClaim?) ==> id !in steps[k].batch
    ensures Run(c, w, steps).rows[id] == w.rows[id] <==> forall k :: 0 <= k < |steps| ==> !TakenForJobs(steps[k], id)
    decreases |steps|
  {
    if steps != [] {
      var after, rest := Next(c, w, steps[0]), steps[1..];
      NextKeepsExclusive(c, w, steps[0]);
      DeadStep(c, w, steps[0], id);
      JobsClaimTakesDeadLetters(c, after, rest, id);
      assert forall k :: 1 <= k < |steps| ==> steps[k] == rest[k - 1];
      if TakenForJobs(steps[0], id) {
        AbandonedStaysLocked(c, after, rest, id);
      } else {
        assert (forall k :: 0 <= k < |rest| ==> !TakenForJobs(rest[k], id)) <==>
               (forall k :: 0 <= k < |steps| ==> !TakenForJobs(steps[k], id)) by {
          assert forall k :: 0 <= k < |rest| ==> rest[k] == steps[k + 1];
        }
      }
    }
  }
}
