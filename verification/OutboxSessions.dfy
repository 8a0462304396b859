/** The drain of one worker is a run of the many-worker model: left undisturbed, the steps of
    a session do to the outbox exactly what the processor's loop does. */
module OutboxSessions {
  import opened HandlerRegistry
  import opened Outbox
  import opened OutboxRuns
  import Sequences

  lemma {:induction false} RunsJoin(c: Config, w: World, first: seq<Step>, then_: seq<Step>)
    requires IsRun(c, w, first) && IsRun(c, Run(c, w, first), then_)
    ensures IsRun(c, w, first + then_) && Run(c, w, first + then_) == Run(c, Run(c, w, first), then_)
    decreases |first|
  {
    if first == [] {
      assert first + then_ == then_;
    } else {
      assert (first + then_)[1..] == first[1..] + then_;
      RunsJoin(c, Next(c, w, first[0]), first[1..], then_);
    }
  }

  /** These steps are possible, and lead here. */
  ghost predicate Leads(c: Config, w: World, steps: seq<Step>, after: World) {
    IsRun(c, w, steps) && Run(c, w, steps) == after
  }

  lemma OneStep(c: Config, w: World, step: Step)
    requires Enabled(c, w, step)
    ensures Leads(c, w, [step], Next(c, w, step))
  {
    assert [step][1..] == [];
  }

  lemma ThenRun(c: Config, w: World, first: seq<Step>, mid: World, more: seq<Step>, after: World)
      returns (steps: seq<Step>)
    requires Leads(c, w, first, mid) && Leads(c, mid, more, after)
    ensures Leads(c, w, steps, after)
  {
    RunsJoin(c, w, first, more);
    steps := first + more;
  }

  lemma ThenStep(c: Config, w: World, first: seq<Step>, mid: World, step: Step) returns (steps: seq<Step>)
    requires Leads(c, w, first, mid) && Enabled(c, mid, step)
    ensures Leads(c, w, steps, Next(c, mid, step))
  {
    OneStep(c, mid, step);
    steps := ThenRun(c, w, first, mid, [step], Next(c, mid, step));
  }

  /** The world in which a session has called the first handlers of the event it is at. */
  function Advanced(c: Config, w: World, s: nat, k: nat): World
    requires Busy(w, s) && k <= |Due(c, w, s)|
  {
    w.(sessions := w.sessions[s := w.sessions[s].(called := k)],
       journal := w.journal + Pass(s, w.sessions[s].todo[0], Due(c, w, s)[..k]))
  }

  lemma {:induction false} HandlersAreARun(c: Config, w: World, s: nat, k: nat) returns (steps: seq<Step>)
    requires Busy(w, s) && !w.sessions[s].failing && w.sessions[s].called == 0 && k <= |Due(c, w, s)|
    ensures Leads(c, w, steps, Advanced(c, w, s, k))
  {
    if k == 0 {
      steps := [];
      assert w.sessions[s := w.sessions[s].(called := 0)] == w.sessions;
    } else {
      steps := HandlersAreARun(c, w, s, k - 1);
      PassGrows(s, w.sessions[s].todo[0], Due(c, w, s), k - 1);
      assert Next(c, Advanced(c, w, s, k - 1), CallHandler(s, true)) == Advanced(c, w, s, k);
      steps := ThenStep(c, w, steps, Advanced(c, w, s, k - 1), CallHandler(s, true));
    }
  }

  /** The step with which the handlers or the completion of an event end. */
  function Ending(handlers: seq<Handler>, s: nat, o: Outcome): Step {
    if HandlersPass(|handlers|, o) then Complete(s, o.complete) else CallHandler(s, false)
  }

  /** How far the handlers get. */
  function Returned(handlers: seq<Handler>, o: Outcome): nat {
    if HandlersPass(|handlers|, o) then |handlers| else o.throwsAt.value
  }

  /** What the ending leaves: the row tried, every call recorded, and the session done with the
      event or failing at it. */
  ghost predicate EndsWell(w: World, ended: World, s: nat, due: seq<Handler>, o: Outcome)
    requires Busy(w, s)
  {
    var id := w.sessions[s].todo[0];
    && ended.rows == w.rows[id := TriedRow(w.rows[id], due, o)]
    && ended.journal == w.journal + Calls(s, id, due, o)
    && ended.sessions == w.sessions[s :=
         if CleanlyDone(due, o) then Finished(w.sessions[s])
         else w.sessions[s].(called := Returned(due, o), failing := true)]
  }

  lemma CompletionEnds(c: Config, w: World, s: nat, o: Outcome)
    requires Busy(w, s) && !w.sessions[s].failing && w.sessions[s].called == 0
    requires HandlersPass(|Due(c, w, s)|, o)
    ensures
      var due := Due(c, w, s);
      var mid := Advanced(c, w, s, |due|);
      Enabled(c, mid, Complete(s, o.complete)) && EndsWell(w, Next(c, mid, Complete(s, o.complete)), s, due, o)
  {
    var due := Due(c, w, s);
    assert due[..|due|] == due;
    assert w.rows[w.sessions[s].todo[0] := w.rows[w.sessions[s].todo[0]]] == w.rows;
  }

  lemma ThrowEnds(c: Config, w: World, s: nat, o: Outcome)
    requires Busy(w, s) && !w.sessions[s].failing && w.sessions[s].called == 0
    requires !HandlersPass(|Due(c, w, s)|, o)
    ensures
      var due := Due(c, w, s);
      var mid := Advanced(c, w, s, o.throwsAt.value);
      Enabled(c, mid, CallHandler(s, false)) && EndsWell(w, Next(c, mid, CallHandler(s, false)), s, due, o)
  {
    assert w.rows[w.sessions[s].todo[0] := w.rows[w.sessions[s].todo[0]]] == w.rows;
  }

  lemma EndingOfAnEvent(c: Config, w: World, s: nat, o: Outcome)
    requires Busy(w, s) && !w.sessions[s].failing && w.sessions[s].called == 0
    ensures
      var due := Due(c, w, s);
      var mid := Advanced(c, w, s, Returned(due, o));
      Enabled(c, mid, Ending(due, s, o)) && EndsWell(w, Next(c, mid, Ending(due, s, o)), s, due, o)
  {
    if HandlersPass(|Due(c, w, s)|, o) {
      CompletionEnds(c, w, s, o);
    } else {
      ThrowEnds(c, w, s, o);
    }
  }

  lemma FailingAnEvent(c: Config, w: World, s: nat, o: Outcome)
    requires Busy(w, s) && w.sessions[s].failing
    ensures
      && var id := w.sessions[s].todo[0];
      && Enabled(c, w, Fail(s, o.now, o.fail))
      && var after := Next(c, w, Fail(s, o.now, o.fail));
      && after.rows == w.rows[id := if o.fail == NotApplied then w.rows[id]
        else FailedRow(w.rows[id], o.now, c.maxAttempts)]
      && after.journal == w.journal
      && after.sessions == w.sessions[s := if o.fail != Applied then Stopped(w.sessions[s])
        else Finished(w.sessions[s])]
  {
    assert w.rows[w.sessions[s].todo[0] := w.rows[w.sessions[s].todo[0]]] == w.rows;
  }

  ghost predicate AtEvent(w: World, s: nat, worker: string, rest: seq<nat>) {
    s in w.sessions && w.sessions[s] == Session(worker, rest, 0, false)
  }

  /** One round of the processor's loop, as a run of the session. */
  lemma EventIsARun(c: Config, w: World, s: nat, worker: string, todo: seq<nat>, o: Outcome)
      returns (steps: seq<Step>, after: World)
    requires AtEvent(w, s, worker, todo) && todo != [] && todo[0] in w.rows
    ensures Leads(c, w, steps, after)
    ensures
      var d := DrainEvent(c.log, c.maxAttempts, Drain(w.rows, w.journal, false), s, todo[0], o);
      && after.rows == d.rows && after.journal == d.journal
      && AtEvent(after, s, worker, if d.aborted then [] else todo[1..])
  {
    var due := Due(c, w, s);
    steps := HandlersAreARun(c, w, s, Returned(due, o));
    after := Advanced(c, w, s, Returned(due, o));
    EndingOfAnEvent(c, w, s, o);
    steps := ThenStep(c, w, steps, after, Ending(due, s, o));
    after := Next(c, after, Ending(due, s, o));
    if !CleanlyDone(due, o) {
      FailingAnEvent(c, after, s, o);
      steps := ThenStep(c, w, steps, after, Fail(s, o.now, o.fail));
      after := Next(c, after, Fail(s, o.now, o.fail));
    }
  }

  /** The whole loop of the processor, as a run of its session. */
  lemma {:induction false} DrainIsARun(c: Config, w: World, s: nat, worker: string, now: int, limit: nat,
      batch: seq<nat>, outcomes: seq<Outcome>)
      returns (steps: seq<Step>)
    requires s !in w.sessions && IsBatch(w.rows, now, limit, WorkerClaim, batch) && |outcomes| == |batch|
    ensures IsRun(c, w, steps)
    ensures
      var d := DrainAll(c.log, c.maxAttempts, Drain(Claimed(w.rows, batch, worker), w.journal, false), s, batch,
        outcomes);
      var after := Run(c, w, steps);
      after.rows == d.rows && after.journal == d.journal && AtEvent(after, s, worker, [])
  {
    var claim := Claim(s, worker, now, limit, batch);
    OneStep(c, w, claim);
    var claimed := Next(c, w, claim);
    var rest, after := RestIsARun(c, claimed, s, worker, batch, outcomes, Drain(claimed.rows, w.journal, false),
      |batch|);
    assert batch[..|batch|] == batch && outcomes[..|batch|] == outcomes;
    steps := ThenRun(c, w, [claim], claimed, rest, after);
  }

  lemma {:induction false} RestIsARun(c: Config, w: World, s: nat, worker: string, batch: seq<nat>,
      outcomes: seq<Outcome>, start: Drain, k: nat)
      returns (steps: seq<Step>, after: World)
    requires |outcomes| == |batch| && k <= |batch| && start == Drain(w.rows, w.journal, false)
    requires AtEvent(w, s, worker, batch) && forall i :: 0 <= i < |batch| ==> batch[i] in w.rows
    ensures Leads(c, w, steps, after)
    ensures
      var d := DrainAll(c.log, c.maxAttempts, start, s, batch[..k], outcomes[..k]);
      && after.rows == d.rows && after.journal == d.journal
      && AtEvent(after, s, worker, if d.aborted then [] else batch[k..])
  {
    if k == 0 {
      steps, after := [], w;
    } else {
      var mid;
      steps, mid := RestIsARun(c, w, s, worker, batch, outcomes, start, k - 1);
      DrainOneMore(c.log, c.maxAttempts, start, s, batch, outcomes, k - 1);
      after := mid;
      if !DrainAll(c.log, c.maxAttempts, start, s, batch[..k - 1], outcomes[..k - 1]).aborted {
        Sequences.DropOneMore(batch, k);
        var more;
        more, after := EventIsARun(c, mid, s, worker, batch[k - 1..], outcomes[k - 1]);
        steps := ThenRun(c, w, steps, mid, more, after);
      }
    }
  }
}
