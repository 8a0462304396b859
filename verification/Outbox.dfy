/** The outbox: rows that a worker claims, handles and then completes or fails
    (src/worker/outbox-processor.ts, src/worker/outbox.repository.ts and the stored procedures
    of supabase/migrations/20260619000800_outbox_worker_lifecycle.sql). One drain, by itself. */
module Outbox {
  import opened Wrappers
  import opened HandlerRegistry

  datatype Row = Row(
    eventType: string,
    createdAt: int,
    availableAt: int,
    attempts: nat,
    lockedBy: Option<string>,
    processed: bool,
    failed: bool)

  type Rows = map<nat, Row>

  /** The worker's claim passes over dead letters, the claim of the jobs endpoint does not. */
  datatype ClaimRule = WorkerClaim | JobsClaim

  predicate Claimable(row: Row, now: int, rule: ClaimRule) {
    && !row.processed
    && row.lockedBy.None?
    && row.availableAt <= now
    && (rule == WorkerClaim ==> !row.failed)
  }

  predicate Earlier(a: Row, b: Row) {
    a.availableAt < b.availableAt || (a.availableAt == b.availableAt && a.createdAt < b.createdAt)
  }

  ghost predicate NoDuplicates(s: seq<nat>) {
    forall i, j :: 0 <= i < j < |s| ==> s[i] != s[j]
  }

  /** What a claim may return: the earliest claimable rows, as many as asked for or all there
      are, in any order. */
  ghost predicate IsBatch(rows: Rows, now: int, limit: nat, rule: ClaimRule, batch: seq<nat>) {
    && NoDuplicates(batch)
    && (forall i :: 0 <= i < |batch| ==> batch[i] in rows && Claimable(rows[batch[i]], now, rule))
    && |batch| <= limit
    && (forall id :: id in rows && Claimable(rows[id], now, rule) && id !in batch ==>
      |batch| == limit && forall i :: 0 <= i < |batch| ==> !Earlier(rows[id], rows[batch[i]]))
  }

  function Claimed(rows: Rows, batch: seq<nat>, worker: string): Rows {
    map id | id in rows ::
      if id in batch then rows[id].(lockedBy := Some(worker), attempts := rows[id].attempts + 1) else rows[id]
  }

  function CompletedRow(row: Row): Row {
    row.(processed := true, lockedBy := None)
  }

  function Power2(n: nat): nat {
    if n == 0 then 1 else 2 * Power2(n - 1)
  }

  /** A failed attempt: the last one makes a dead letter, any other waits twice as long as
      the one before. */
  function FailedRow(row: Row, now: int, maxAttempts: int): Row {
    if row.attempts >= maxAttempts then row.(failed := true, lockedBy := None)
    else row.(lockedBy := None, availableAt := now + Power2(row.attempts))
  }

  /** A handler having been called. */
  datatype Call = Call(session: nat, id: nat, handler: Handler, ok: bool)

  /** What became of a write: done, done although the caller was told otherwise, or not done. */
  datatype Answer = Applied | AppliedButLost | NotApplied

  /** What the outside world does to one event: which handler throws, if any, what becomes of
      the two writes, and what time it is at the second. */
  datatype Outcome = Outcome(throwsAt: Option<nat>, complete: Answer, fail: Answer, now: int)

  predicate HandlersPass(n: nat, o: Outcome) {
    o.throwsAt.None? || o.throwsAt.value >= n
  }

  /** The calls of a pass through the first handlers that none of them interrupts. */
  function Pass(session: nat, id: nat, handlers: seq<Handler>): seq<Call> {
    if handlers == [] then []
    else Pass(session, id, handlers[..|handlers| - 1]) + [Call(session, id, handlers[|handlers| - 1], true)]
  }

  function Calls(session: nat, id: nat, handlers: seq<Handler>, o: Outcome): seq<Call> {
    if HandlersPass(|handlers|, o) then Pass(session, id, handlers)
    else Pass(session, id, handlers[..o.throwsAt.value]) + [Call(session, id, handlers[o.throwsAt.value], false)]
  }

  predicate CleanlyDone(handlers: seq<Handler>, o: Outcome) {
    HandlersPass(|handlers|, o) && o.complete == Applied
  }

  /** The failure write failing too is what ends a drain early. */
  predicate Aborts(handlers: seq<Handler>, o: Outcome) {
    !CleanlyDone(handlers, o) && o.fail != Applied
  }

  /** The row before the failure write, if there is one. */
  function TriedRow(row: Row, handlers: seq<Handler>, o: Outcome): Row {
    if HandlersPass(|handlers|, o) && o.complete != NotApplied then CompletedRow(row) else row
  }

  /** What one event's outcomes make of its row. */
  function HandledRow(row: Row, handlers: seq<Handler>, maxAttempts: int, o: Outcome): Row {
    var tried := TriedRow(row, handlers, o);
    if CleanlyDone(handlers, o) || o.fail == NotApplied then tried else FailedRow(tried, o.now, maxAttempts)
  }

  datatype Drain = Drain(rows: Rows, journal: seq<Call>, aborted: bool)

  function DrainEvent(log: seq<Registration>, maxAttempts: int, d: Drain, session: nat, id: nat, o: Outcome): (r: Drain)
    requires id in d.rows
    ensures r.rows.Keys == d.rows.Keys
  {
    var row := d.rows[id];
    var handlers := HandlersFor(log, row.eventType);
    Drain(
      d.rows[id := HandledRow(row, handlers, maxAttempts, o)],
      d.journal + Calls(session, id, handlers, o),
      Aborts(handlers, o))
  }

  /** The events of a batch, one after the other, until one ends the drain. */
  function DrainAll(log: seq<Registration>, maxAttempts: int, d: Drain, session: nat, batch: seq<nat>,
      outcomes: seq<Outcome>): (r: Drain)
    requires |batch| == |outcomes| && forall i :: 0 <= i < |batch| ==> batch[i] in d.rows
    ensures r.rows.Keys == d.rows.Keys
    decreases |batch|
  {
    if batch == [] then d
    else
      var n := |batch| - 1;
      var before := DrainAll(log, maxAttempts, d, session, batch[..n], outcomes[..n]);
      if before.aborted then before else DrainEvent(log, maxAttempts, before, session, batch[n], outcomes[n])
  }

  /** What can end a drain early. */
  datatype DrainError = ClaimThrew | FailureWriteThrew

  class OutboxProcessor {
    const registry: Registry
    const maxAttempts: int
    var rows: Rows
    var journal: seq<Call>

    constructor (registry: Registry, maxAttempts: int, rows: Rows)
      ensures this.registry == registry && this.maxAttempts == maxAttempts && this.rows == rows && journal == []
    {
      this.registry, this.maxAttempts, this.rows, journal := registry, maxAttempts, rows, [];
    }

    /** `batch` is the database's answer to the claim, which may fail or be lost, and
        `outcomes` what happens to its events. */
    method DrainOnce(session: nat, worker: string, ghost now: int, ghost limit: nat, claim: Answer,
        batch: seq<nat>, outcomes: seq<Outcome>)
        returns (r: Result<nat, DrainError>)
      requires registry.Valid()
      requires IsBatch(rows, now, limit, WorkerClaim, batch) && |outcomes| == |batch|
      modifies this
      ensures
        var claimed := Claimed(old(rows), batch, worker);
        var d := DrainAll(registry.log, maxAttempts, Drain(claimed, old(journal), false), session, batch, outcomes);
        match claim
        case NotApplied => rows == old(rows) && journal == old(journal) && r == Err(ClaimThrew)
        case AppliedButLost => rows == claimed && journal == old(journal) && r == Err(ClaimThrew)
        case Applied =>
          rows == d.rows && journal == d.journal && r == if d.aborted then Err(FailureWriteThrew) else Ok(|batch|)
    {
      if claim == NotApplied {
        return Err(ClaimThrew);
      }
      rows := Claimed(rows, batch, worker);
      if claim == AppliedButLost {
        return Err(ClaimThrew);
      }
      var aborted := DrainBatch(session, batch, outcomes);
      return if aborted then Err(FailureWriteThrew) else Ok(|batch|);
    }

    /** The loop over the claimed events. */
    method DrainBatch(session: nat, batch: seq<nat>, outcomes: seq<Outcome>) returns (aborted: bool)
      requires registry.Valid() && |outcomes| == |batch|
      requires forall i :: 0 <= i < |batch| ==> batch[i] in rows
      modifies this
      ensures Drain(rows, journal, aborted) ==
        DrainAll(registry.log, maxAttempts, Drain(old(rows), old(journal), false), session, batch, outcomes)
    {
      ghost var start := Drain(rows, journal, false);
      var i := 0;
      while i < |batch|
        invariant 0 <= i <= |batch| && rows.Keys == start.rows.Keys
        invariant registry.Valid() && registry.log == old(registry.log)
        invariant Drain(rows, journal, false) ==
          DrainAll(registry.log, maxAttempts, start, session, batch[..i], outcomes[..i])
      {
        DrainOneMore(registry.log, maxAttempts, start, session, batch, outcomes, i);
        assert batch[i] in start.rows;
        aborted := HandleEvent(session, batch[i], outcomes[i]);
        if aborted {
          AbortedStays(registry.log, maxAttempts, start, session, batch, outcomes, i + 1);
          return;
        }
        i := i + 1;
      }
      assert batch[..i] == batch && outcomes[..i] == outcomes;
      aborted := false;
    }

    /** The body of the loop: handlers, then complete; whatever throws, then fail. */
    method HandleEvent(session: nat, id: nat, o: Outcome) returns (aborted: bool)
      requires registry.Valid() && id in rows
      modifies this
      ensures Drain(rows, journal, aborted) ==
        DrainEvent(registry.log, maxAttempts, Drain(old(rows), old(journal), false), session, id, o)
    {
      var handlers := registry.HandlersForEvent(rows[id].eventType);
      var threw := RunHandlers(session, id, handlers, o);
      if !threw {
        if o.complete != NotApplied {
          rows := rows[id := CompletedRow(rows[id])];
        }
        threw := o.complete != Applied;
      }
      if threw && o.fail != NotApplied {
        rows := rows[id := FailedRow(rows[id], o.now, maxAttempts)];
      }
      aborted := threw && o.fail != Applied;
    }

    method RunHandlers(session: nat, id: nat, handlers: seq<Handler>, o: Outcome) returns (threw: bool)
      modifies this`journal
      ensures journal == old(journal) + Calls(session, id, handlers, o)
      ensures threw <==> !HandlersPass(|handlers|, o)
    {
      var k := 0;
      while k < |handlers|
        invariant 0 <= k <= |handlers| && (o.throwsAt.Some? ==> k <= o.throwsAt.value)
        invariant journal == old(journal) + Pass(session, id, handlers[..k])
      {
        if o.throwsAt == Some(k) {
          journal := journal + [Call(session, id, handlers[k], false)];
          return true;
        }
        journal := journal + [Call(session, id, handlers[k], true)];
        assert handlers[..k + 1][..k] == handlers[..k];
        k := k + 1;
      }
      assert handlers[..k] == handlers;
      return false;
    }
  }

  lemma DrainOneMore(log: seq<Registration>, maxAttempts: int, d: Drain, session: nat, batch: seq<nat>,
      outcomes: seq<Outcome>, k: nat)
    requires |batch| == |outcomes| && forall i :: 0 <= i < |batch| ==> batch[i] in d.rows
    requires k < |batch|
    ensures
      var before := DrainAll(log, maxAttempts, d, session, batch[..k], outcomes[..k]);
      DrainAll(log, maxAttempts, d, session, batch[..k + 1], outcomes[..k + 1]) ==
      if before.aborted then before else DrainEvent(log, maxAttempts, before, session, batch[k], outcomes[k])
  {
    assert batch[..k + 1][..k] == batch[..k] && outcomes[..k + 1][..k] == outcomes[..k];
  }

  lemma {:induction false} AbortedStays(log: seq<Registration>, maxAttempts: int, d: Drain, session: nat,
      batch: seq<nat>, outcomes: seq<Outcome>, k: nat)
    requires |batch| == |outcomes| && forall i :: 0 <= i < |batch| ==> batch[i] in d.rows
    requires k <= |batch| && DrainAll(log, maxAttempts, d, session, batch[..k], outcomes[..k]).aborted
    ensures DrainAll(log, maxAttempts, d, session, batch, outcomes) ==
      DrainAll(log, maxAttempts, d, session, batch[..k], outcomes[..k])
    decreases |batch| - k
  {
    if k == |batch| {
      assert batch[..k] == batch && outcomes[..k] == outcomes;
    } else {
      DrainOneMore(log, maxAttempts, d, session, batch, outcomes, k);
      AbortedStays(log, maxAttempts, d, session, batch, outcomes, k + 1);
    }
  }

  // ---------------------------------------------------------------- what a drain does to each event

  /** The drain gets as far as event `k`: no event before it had its failure write fail. */
  ghost predicate Reached(log: seq<Registration>, rows: Rows, batch: seq<nat>, outcomes: seq<Outcome>, k: nat)
    requires k <= |batch| == |outcomes| && forall i :: 0 <= i < |batch| ==> batch[i] in rows
  {
    forall j :: 0 <= j < k ==> !Aborts(HandlersFor(log, rows[batch[j]].eventType), outcomes[j])
  }

  /** The row an event ends up with, given only its own row and its own outcomes, unless the
      drain never got to it. */
  ghost predicate HasItsFate(log: seq<Registration>, maxAttempts: int, rows: Rows, batch: seq<nat>,
      outcomes: seq<Outcome>, id: nat, after: Row)
    requires |batch| == |outcomes| && id in rows && forall i :: 0 <= i < |batch| ==> batch[i] in rows
  {
    && (id !in batch ==> after == rows[id])
    && (forall k :: 0 <= k < |batch| && batch[k] == id ==>
      after == if Reached(log, rows, batch, outcomes, k)
        then HandledRow(rows[id], HandlersFor(log, rows[id].eventType), maxAttempts, outcomes[k])
        else rows[id])
  }

  /** An event's fate is its own: what its handlers and writes did decides its row, and
      nothing that happened to another event does, except that a failure write which fails
      ends the drain and leaves every later event claimed and unhandled. */
  lemma {:induction false} EachEventHasItsOwnFate(log: seq<Registration>, maxAttempts: int, d: Drain, session: nat,
      batch: seq<nat>, outcomes: seq<Outcome>, id: nat)
    requires |batch| == |outcomes| && forall i :: 0 <= i < |batch| ==> batch[i] in d.rows
    requires NoDuplicates(batch) && !d.aborted && id in d.rows
    ensures
      var after := DrainAll(log, maxAttempts, d, session, batch, outcomes);
      && (after.aborted <==> !Reached(log, d.rows, batch, outcomes, |batch|))
      && HasItsFate(log, maxAttempts, d.rows, batch, outcomes, id, after.rows[id])
    decreases |batch|
  {
    if batch != [] {
      var n := |batch| - 1;
      var init, outs := batch[..n], outcomes[..n];
      EachEventHasItsOwnFate(log, maxAttempts, d, session, init, outs, id);
      EachEventHasItsOwnFate(log, maxAttempts, d, session, init, outs, batch[n]);
      ReachedOfInit(log, d.rows, batch, outcomes);
      var before := DrainAll(log, maxAttempts, d, session, init, outs);
      assert batch[n] !in init && before.rows[batch[n]] == d.rows[batch[n]];
      FateWithOneMore(log, maxAttempts, d.rows, batch, outcomes, id, before.rows[id],
        DrainAll(log, maxAttempts, d, session, batch, outcomes).rows[id]);
    }
  }

  lemma FateWithOneMore(log: seq<Registration>, maxAttempts: int, rows: Rows, batch: seq<nat>, outcomes: seq<Outcome>,
      id: nat, before: Row, after: Row)
    requires 0 < |batch| == |outcomes| && id in rows && forall i :: 0 <= i < |batch| ==> batch[i] in rows
    requires NoDuplicates(batch)
    requires HasItsFate(log, maxAttempts, rows, batch[..|batch| - 1], outcomes[..|batch| - 1], id, before)
    requires
      var n := |batch| - 1;
      after == if id == batch[n] && Reached(log, rows, batch, outcomes, n)
        then HandledRow(rows[id], HandlersFor(log, rows[id].eventType), maxAttempts, outcomes[n]) else before
    ensures HasItsFate(log, maxAttempts, rows, batch, outcomes, id, after)
  {
    var n := |batch| - 1;
    var init, outs := batch[..n], outcomes[..n];
    ReachedOfInit(log, rows, batch, outcomes);
    assert batch[n] !in init;
    assert id in batch <==> id in init || id == batch[n];
    forall k | 0 <= k < |batch| && batch[k] == id
      ensures after == if Reached(log, rows, batch, outcomes, k)
        then HandledRow(rows[id], HandlersFor(log, rows[id].eventType), maxAttempts, outcomes[k]) else rows[id]
    {
      if k < n {
        assert init[k] == id && outs[k] == outcomes[k];
      }
    }
  }

  lemma ReachedOfInit(log: seq<Registration>, rows: Rows, batch: seq<nat>, outcomes: seq<Outcome>)
    requires 0 < |batch| == |outcomes| && forall i :: 0 <= i < |batch| ==> batch[i] in rows
    ensures
      var n := |batch| - 1;
      && (forall k :: 0 <= k <= n ==> (Reached(log, rows, batch, outcomes, k) <==>
           Reached(log, rows, batch[..n], outcomes[..n], k)))
      && (Reached(log, rows, batch, outcomes, n + 1) <==>
            Reached(log, rows, batch, outcomes, n) && !Aborts(HandlersFor(log, rows[batch[n]].eventType), outcomes[n]))
  {}

  /** What that fate is. Done when every handler returned and the completion was written, and
      released unless the last write was lost. */
  lemma FateOfARow(row: Row, handlers: seq<Handler>, maxAttempts: int, o: Outcome)
    requires row.lockedBy.Some? && !row.processed && !row.failed
    ensures
      var after := HandledRow(row, handlers, maxAttempts, o);
      && (after.processed <==> HandlersPass(|handlers|, o) && o.complete != NotApplied)
      && (after.failed <==> !CleanlyDone(handlers, o) && o.fail != NotApplied && row.attempts >= maxAttempts)
      && (after.lockedBy.Some? <==> !after.processed && o.fail == NotApplied)
      && (!Aborts(handlers, o) ==> after.lockedBy.None?)
      && after.attempts == row.attempts
  {}

  // ---------------------------------------------------------------- claims

  /** Whatever the table holds, a claim has an answer. */
  lemma {:induction false} BatchExists(rows: Rows, now: int, limit: nat, rule: ClaimRule) returns (batch: seq<nat>)
    ensures IsBatch(rows, now, limit, rule, batch)
  {
    batch := [];
    if limit > 0 {
      batch := BatchExists(rows, now, limit - 1, rule);
      var rest := set id | id in rows && Claimable(rows[id], now, rule) && id !in batch;
      assert forall id :: id in rows && Claimable(rows[id], now, rule) && id !in batch ==> id in rest;
      if rest != {} {
        var next := EarliestOf(rows, rest);
        OneMoreInBatch(rows, now, limit, rule, batch, next, rest);
        batch := batch + [next];
      }
    }
  }

  lemma OneMoreInBatch(rows: Rows, now: int, limit: nat, rule: ClaimRule, batch: seq<nat>, next: nat, rest: set<nat>)
    requires limit > 0 && IsBatch(rows, now, limit - 1, rule, batch)
    requires rest == set id | id in rows && Claimable(rows[id], now, rule) && id !in batch
    requires next in rest && forall id :: id in rest ==> !Earlier(rows[id], rows[next])
    ensures IsBatch(rows, now, limit, rule, batch + [next])
  {
    assert |batch| == limit - 1;
    var longer := batch + [next];
    forall id | id in rows && Claimable(rows[id], now, rule) && id !in longer
      ensures forall i :: 0 <= i < |longer| ==> !Earlier(rows[id], rows[longer[i]])
    {
      assert next in longer;
      assert id !in batch && id in rest;
    }
  }

  lemma {:induction false} EarliestOf(rows: Rows, ids: set<nat>) returns (first: nat)
    requires ids != {} && ids <= rows.Keys
    ensures first in ids && forall id :: id in ids ==> !Earlier(rows[id], rows[first])
  {
    first :| first in ids;
    if ids != {first} {
      var other := EarliestOf(rows, ids - {first});
      if Earlier(rows[other], rows[first]) {
        first := other;
      }
    }
  }

  /** After a failed attempt the worker may take the event up again exactly when attempts are
      left and the wait is over; each wait is twice the one before. */
  lemma FailureBacksOff(row: Row, now: int, maxAttempts: int, later: int)
    requires !row.processed && !row.failed
    ensures
      Claimable(FailedRow(row, now, maxAttempts), later, WorkerClaim)
      <==> row.attempts < maxAttempts && (later >= now + Power2(row.attempts))
    ensures Power2(row.attempts + 1) == 2 * Power2(row.attempts) && Power2(row.attempts) > row.attempts
  {
    PowerGrows(row.attempts);
  }

  lemma {:induction false} PowerGrows(n: nat)
    ensures Power2(n) > n
  {
    if n > 0 {
      PowerGrows(n - 1);
    }
  }

  /** What a claim takes is unprocessed, unlocked and due, and for a worker no dead letter; one
      that could be taken and is not has at least `limit` others that are not later. */
  lemma NobodyIsPassedOver(rows: Rows, now: int, limit: nat, rule: ClaimRule, batch: seq<nat>, id: nat)
    requires IsBatch(rows, now, limit, rule, batch) && id in rows
    ensures id in batch ==>
      && !rows[id].processed && rows[id].lockedBy.None? && rows[id].availableAt <= now
      && (rule == WorkerClaim ==> !rows[id].failed)
    ensures
      && id !in batch && !rows[id].processed && rows[id].lockedBy.None? && rows[id].availableAt <= now
      && (rule == WorkerClaim ==> !rows[id].failed) ==>
        |set x | x in rows && x in batch && NotLater(rows[x], rows[id])| >= limit
  {
    if id !in batch && Claimable(rows[id], now, rule) {
      DistinctCount(batch);
      assert Ids(batch) == set x | x in rows && x in batch && NotLater(rows[x], rows[id]);
    }
  }

  /** Order of availability and then of creation, written out. */
  predicate NotLater(a: Row, b: Row) {
    && a.availableAt <= b.availableAt
    && (a.availableAt == b.availableAt ==> a.createdAt <= b.createdAt)
  }

  ghost function Ids(s: seq<nat>): set<nat> {
    set x | x in s
  }

  lemma {:induction false} DistinctCount(s: seq<nat>)
    requires NoDuplicates(s)
    ensures |Ids(s)| == |s|
    decreases |s|
  {
    if s != [] {
      var init, last := s[..|s| - 1], s[|s| - 1];
      DistinctCount(init);
      assert s == init + [last] && last !in Ids(init);
      assert Ids(s) == Ids(init) + {last};
    }
  }

  /** A claim locks exactly its batch, for the claimer, and counts an attempt. */
  lemma WhatAClaimDoes(rows: Rows, batch: seq<nat>, worker: string, id: nat)
    requires id in rows
    ensures
      var after := Claimed(rows, batch, worker);
      && after.Keys == rows.Keys
      && (id !in batch ==> after[id] == rows[id])
      && (id in batch ==>
           after[id] == Row(rows[id].eventType, rows[id].createdAt, rows[id].availableAt, rows[id].attempts + 1,
                            Some(worker), rows[id].processed, rows[id].failed))
  {}
}
