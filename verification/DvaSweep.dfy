/** The sweep that credits dedicated-account transfers whose webhook never arrived
    (src/modules/payments/dva-topup-sweep.service.ts). The provider's pages and answers are
    inputs, and anything else may happen to the tables between two credits. */
module DvaSweep {
  import opened Wrappers
  import opened PaystackEvents
  import opened WalletTables
  import opened Webhook
  import opened LedgerRuns
  import Fees

  const MAX_PAGES := 10

  datatype Transaction = Transaction(channel: Option<string>, reference: Option<string>)

  datatype Page = Page(transactions: seq<Transaction>, pageCount: int)

  /** `verifyTransaction` and what the sweep makes of it: the body is the charge.success event
      built from a successful answer. */
  datatype Answer = Throws | NotSuccess | Success(body: Body)

  /** What the sweep meets: the provider's pages and answers, and for the i-th missing
      reference what the rest of the system does first and how the database behaves. */
  datatype World = World(page: nat -> Page, answer: string -> Answer, others: nat -> seq<Step>, weather: nat -> Weather)

  datatype Outcome = Skipped | Credited | Known | AttemptFailed

  datatype SweepResult = SweepResult(seen: nat, missing: nat, credited: nat, failed: nat)

  // ---------------------------------------------------------------- the listing

  predicate IsDedicated(tx: Transaction) {
    tx.channel == Some(DEDICATED_CHANNEL) && tx.reference.Some?
  }

  function ReferencesOn(txs: seq<Transaction>): seq<string> {
    if txs == [] then []
    else
      var last := txs[|txs| - 1];
      ReferencesOn(txs[..|txs| - 1]) + (if IsDedicated(last) then [last.reference.value] else [])
  }

  /** The last page read when pages are read from `page` on. */
  function LastPage(list: nat -> Page, page: nat): nat
    decreases MAX_PAGES - page
  {
    if page >= MAX_PAGES || page >= list(page).pageCount then page else LastPage(list, page + 1)
  }

  function ReferencesThrough(list: nat -> Page, n: nat): seq<string> {
    if n == 0 then [] else ReferencesThrough(list, n - 1) + ReferencesOn(list(n).transactions)
  }

  /** The references that the sweep collects. */
  function Listed(list: nat -> Page): seq<string> {
    ReferencesThrough(list, LastPage(list, 1))
  }

  function Without(references: seq<string>, known: set<string>): seq<string> {
    if references == [] then []
    else
      var last := references[|references| - 1];
      Without(references[..|references| - 1], known) + (if last in known then [] else [last])
  }

  // ---------------------------------------------------------------- the crediting loop

  datatype Progress = Progress(tables: Tables, outcomes: seq<Outcome>)

  function Attempt(t: Tables, a: Answer, cfg: Config, w: Weather): (Tables, Outcome) {
    match a
    case Throws => (t, AttemptFailed)
    case NotSuccess => (t, Skipped)
    case Success(body) =>
      var (after, r) := CreditVerifiedTopup(t, body, cfg, w);
      (after, if r.Err? then AttemptFailed else if r.value.Accepted? then Credited else Known)
  }

  function CreditAll(t: Tables, missing: seq<string>, world: World, cfg: Config): Progress
    decreases |missing|
  {
    if missing == [] then Progress(t, [])
    else
      var i := |missing| - 1;
      var before := CreditAll(t, missing[..i], world, cfg);
      var here := Run(before.tables, world.others(i), cfg);
      var (after, outcome) := Attempt(here, world.answer(missing[i]), cfg, world.weather(i));
      Progress(after, before.outcomes + [outcome])
  }

  function Count(outcomes: seq<Outcome>, o: Outcome): nat {
    if outcomes == [] then 0
    else Count(outcomes[..|outcomes| - 1], o) + (if outcomes[|outcomes| - 1] == o then 1 else 0)
  }

  function MissingOf(t: Tables, world: World): seq<string> {
    Without(Listed(world.page), References(t.ledger))
  }

  function Sweep(t: Tables, world: World, cfg: Config): (Tables, SweepResult) {
    var seen := Listed(world.page);
    if seen == [] then (t, SweepResult(0, 0, 0, 0))
    else
      var missing := MissingOf(t, world);
      var done := CreditAll(t, missing, world, cfg);
      (done.tables, SweepResult(|seen|, |missing|, Count(done.outcomes, Credited), Count(done.outcomes, AttemptFailed)))
  }

  class DvaTopupSweepService {
    const webhooks: PaystackWebhookService

    constructor (webhooks: PaystackWebhookService)
      ensures this.webhooks == webhooks
    {
      this.webhooks := webhooks;
    }

    method CollectReferences(list: nat -> Page) returns (references: seq<string>)
      ensures references == Listed(list)
    {
      references := [];
      var page := 1;
      var reading := true;
      while reading && page <= MAX_PAGES
        invariant 1 <= page <= MAX_PAGES + 1
        invariant reading ==> references == ReferencesThrough(list, page - 1)
        invariant reading && page <= MAX_PAGES ==> LastPage(list, 1) == LastPage(list, page)
        invariant reading && page > MAX_PAGES ==> LastPage(list, 1) == MAX_PAGES
        invariant !reading ==> references == Listed(list)
        decreases MAX_PAGES + 1 - page, reading
      {
        references := AppendDedicated(references, list(page).transactions);
        if page >= list(page).pageCount {
          reading := false;
        } else {
          page := page + 1;
        }
      }
    }

    /** The loop over one page. */
    method AppendDedicated(before: seq<string>, transactions: seq<Transaction>) returns (references: seq<string>)
      ensures references == before + ReferencesOn(transactions)
    {
      references := before;
      for i := 0 to |transactions|
        invariant references == before + ReferencesOn(transactions[..i])
      {
        assert transactions[..i + 1][..i] == transactions[..i];
        if IsDedicated(transactions[i]) {
          references := references + [transactions[i].reference.value];
        }
      }
      assert transactions[..|transactions|] == transactions;
    }

    /** The references among these that the ledger holds already. */
    method CreditedReferences(references: seq<string>) returns (recorded: set<string>)
      ensures recorded == (set r | r in references && r in References(webhooks.database.ledger))
    {
      recorded := {};
      for i := 0 to |references|
        invariant recorded == (set r | r in references[..i] && r in References(webhooks.database.ledger))
      {
        var held := webhooks.database.HasTopup(references[i]);
        if held {
          recorded := recorded + {references[i]};
        }
      }
    }

    method SweepOnce(world: World) returns (r: SweepResult)
      modifies webhooks.database
      ensures (webhooks.database.Contents(), r) == Sweep(old(webhooks.database.Contents()), world, webhooks.cfg)
    {
      var references := CollectReferences(world.page);
      if references == [] {
        return SweepResult(0, 0, 0, 0);
      }
      var creditedAlready := CreditedReferences(references);
      var missing := Filter(references, creditedAlready);
      WithoutOnlyAsksAboutMembers(references, creditedAlready, References(webhooks.database.ledger));
      var credited, failed := CreditMissing(missing, world);
      return SweepResult(|references|, |missing|, credited, failed);
    }

    method CreditMissing(missing: seq<string>, world: World) returns (credited: nat, failed: nat)
      modifies webhooks.database
      ensures
        var done := CreditAll(old(webhooks.database.Contents()), missing, world, webhooks.cfg);
        && webhooks.database.Contents() == done.tables
        && credited == Count(done.outcomes, Credited) && failed == Count(done.outcomes, AttemptFailed)
    {
      credited, failed := 0, 0;
      ghost var start := webhooks.database.Contents();
      ghost var done := CreditAll(start, [], world, webhooks.cfg);
      for i := 0 to |missing|
        invariant done == CreditAll(start, missing[..i], world, webhooks.cfg)
        invariant webhooks.database.Contents() == done.tables
        invariant credited == Count(done.outcomes, Credited) && failed == Count(done.outcomes, AttemptFailed)
      {
        assert missing[..i + 1][..i] == missing[..i];
        var now := webhooks.database.Snapshot();
        webhooks.database.Restore(Run(now, world.others(i), webhooks.cfg));
        var outcome := TryCredit(world.answer(missing[i]), world.weather(i));
        if outcome == Credited {
          credited := credited + 1;
        } else if outcome == AttemptFailed {
          failed := failed + 1;
        }
        CountOne(done.outcomes, outcome);
        done := Progress(webhooks.database.Contents(), done.outcomes + [outcome]);
      }
      assert missing[..|missing|] == missing;
    }

    /** The body of the sweep's try block. */
    method TryCredit(verified: Answer, w: Weather) returns (o: Outcome)
      modifies webhooks.database
      ensures (webhooks.database.Contents(), o) == Attempt(old(webhooks.database.Contents()), verified, webhooks.cfg, w)
    {
      if verified.Throws? {
        return AttemptFailed;
      }
      if verified.NotSuccess? {
        return Skipped;
      }
      var result := webhooks.CreditVerifiedWalletTopup(verified.body, w);
      return if result.Err? then AttemptFailed else if result.value.Accepted? then Credited else Known;
    }

    method Filter(references: seq<string>, known: set<string>) returns (missing: seq<string>)
      ensures missing == Without(references, known)
    {
      missing := [];
      for i := 0 to |references|
        invariant missing == Without(references[..i], known)
      {
        assert references[..i + 1][..i] == references[..i];
        if references[i] !in known {
          missing := missing + [references[i]];
        }
      }
      assert references[..|references|] == references;
    }
  }

  lemma CountOne(outcomes: seq<Outcome>, o: Outcome)
    ensures forall x :: Count(outcomes + [o], x) == Count(outcomes, x) + (if x == o then 1 else 0)
  {
    assert (outcomes + [o])[..|outcomes|] == outcomes;
  }

  lemma {:induction false} WithoutOnlyAsksAboutMembers(references: seq<string>, a: set<string>, b: set<string>)
    requires forall r :: r in references ==> (r in a <==> r in b)
    ensures Without(references, a) == Without(references, b)
    decreases |references|
  {
    if references != [] {
      WithoutOnlyAsksAboutMembers(references[..|references| - 1], a, b);
    }
  }

  // ---------------------------------------------------------------- what is collected

  /** Page `page` is read: it is one of the first ten, and no earlier page was the last. */
  ghost predicate IsRead(list: nat -> Page, page: nat) {
    1 <= page <= 10 && forall j :: 1 <= j < page ==> j < list(j).pageCount
  }

  predicate Holds(tx: Transaction, reference: string) {
    tx.channel == Some("dedicated_nuban") && tx.reference == Some(reference)
  }

  lemma {:induction false} LastPageIsLastRead(list: nat -> Page, page: nat)
    requires IsRead(list, page)
    ensures page <= LastPage(list, page) <= 10
    ensures forall k :: k >= page ==> (IsRead(list, k) <==> k <= LastPage(list, page))
    decreases MAX_PAGES - page
  {
    if page < MAX_PAGES && page < list(page).pageCount {
      LastPageIsLastRead(list, page + 1);
    } else {
      forall k | k > page ensures !IsRead(list, k) {}
    }
  }

  lemma ReadPages(list: nat -> Page)
    ensures 1 <= LastPage(list, 1) <= 10
    ensures forall k :: k >= 1 ==> (IsRead(list, k) <==> k <= LastPage(list, 1))
  {
    LastPageIsLastRead(list, 1);
  }

  lemma {:induction false} ReferencesOnAPage(txs: seq<Transaction>, reference: string)
    ensures reference in ReferencesOn(txs) <==> exists i :: 0 <= i < |txs| && Holds(txs[i], reference)
    decreases |txs|
  {
    if txs != [] {
      var init := txs[..|txs| - 1];
      ReferencesOnAPage(init, reference);
      assert forall i :: 0 <= i < |init| ==> init[i] == txs[i];
    }
  }

  lemma {:induction false} ReferencesOnPages(list: nat -> Page, n: nat, reference: string)
    ensures reference in ReferencesThrough(list, n) <==>
      exists k, i :: 1 <= k <= n && 0 <= i < |list(k).transactions| && Holds(list(k).transactions[i], reference)
  {
    if n > 0 {
      ReferencesOnPages(list, n - 1, reference);
      ReferencesOnAPage(list(n).transactions, reference);
    }
  }

  /** A reference is collected exactly if some page that is read holds a dedicated-account
      transaction with it. */
  lemma WhatIsCollected(list: nat -> Page, reference: string)
    ensures reference in Listed(list) <==>
      exists k, i :: IsRead(list, k) && 0 <= i < |list(k).transactions| && Holds(list(k).transactions[i], reference)
  {
    ReadPages(list);
    ReferencesOnPages(list, LastPage(list, 1), reference);
  }

  /** Where on a page there is a dedicated-account transaction with a reference. */
  function DedicatedAt(txs: seq<Transaction>): set<nat> {
    set i: nat | i < |txs| && txs[i].channel == Some("dedicated_nuban") && txs[i].reference.Some?
  }

  ghost function NumberRead(list: nat -> Page, pages: nat): nat {
    if pages == 0 then 0
    else NumberRead(list, pages - 1) + (if IsRead(list, pages) then |DedicatedAt(list(pages).transactions)| else 0)
  }

  lemma {:induction false} CountOnAPage(txs: seq<Transaction>)
    ensures |ReferencesOn(txs)| == |DedicatedAt(txs)|
    decreases |txs|
  {
    if txs != [] {
      var init, last := txs[..|txs| - 1], |txs| - 1;
      CountOnAPage(init);
      assert forall i :: 0 <= i < last ==> init[i] == txs[i];
      assert DedicatedAt(txs) == DedicatedAt(init) + if IsDedicated(txs[last]) then {last} else {};
    }
  }

  lemma {:induction false} CountThrough(list: nat -> Page, last: nat, pages: nat)
    requires forall k :: k >= 1 ==> (IsRead(list, k) <==> k <= last)
    ensures |ReferencesThrough(list, if pages <= last then pages else last)| == NumberRead(list, pages)
    decreases pages
  {
    if pages > 0 {
      CountThrough(list, last, pages - 1);
      CountOnAPage(list(pages).transactions);
    }
  }

  /** And `seen` counts every such transaction, repeats included. */
  lemma HowManyAreCollected(list: nat -> Page)
    ensures |Listed(list)| == NumberRead(list, 10)
  {
    ReadPages(list);
    CountThrough(list, LastPage(list, 1), 10);
  }

  // ---------------------------------------------------------------- what a sweep guarantees

  lemma {:induction false} WithoutMembers(references: seq<string>, known: set<string>)
    ensures forall r :: r in Without(references, known) <==> r in references && r !in known
    ensures |Without(references, known)| <= |references|
    decreases |references|
  {
    if references != [] {
      var init, last := references[..|references| - 1], references[|references| - 1];
      assert references == init + [last];
      WithoutMembers(init, known);
    }
  }

  lemma {:induction false} CountsFit(outcomes: seq<Outcome>)
    ensures Count(outcomes, Credited) + Count(outcomes, AttemptFailed) <= |outcomes|
    decreases |outcomes|
  {
    if outcomes != [] {
      CountsFit(outcomes[..|outcomes| - 1]);
    }
  }

  lemma {:induction false} NoneCounted(outcomes: seq<Outcome>, o: Outcome)
    ensures Count(outcomes, o) == 0 <==> o !in outcomes
    decreases |outcomes|
  {
    if outcomes != [] {
      assert outcomes == outcomes[..|outcomes| - 1] + [outcomes[|outcomes| - 1]];
      NoneCounted(outcomes[..|outcomes| - 1], o);
    }
  }

  /** What the tables show for a missing reference, by its outcome. */
  ghost predicate Explains(t: Tables, a: Answer, o: Outcome) {
    match o
    case Skipped => a.NotSuccess?
    case AttemptFailed => !a.NotSuccess?
    case _ => a.Success? && a.body in t.inbox && MapPaystackEvent(a.body.payload).WalletTopupSucceeded?
  }

  lemma AttemptExplains(t: Tables, a: Answer, cfg: Config, w: Weather)
    ensures Preserves(t, Attempt(t, a, cfg, w).0)
    ensures Explains(Attempt(t, a, cfg, w).0, a, Attempt(t, a, cfg, w).1)
    ensures a.Success? && a.body in t.inbox ==> Attempt(t, a, cfg, w).1 != Credited
  {
    if a.Success? {
      var event := MapPaystackEvent(a.body.payload);
      if event.WalletTopupSucceeded? {
        NextPreserves(t, SweepCredit(a.body, w), cfg);
        InboxGrowsByBody(t, a.body, cfg, w);
      }
    }
  }

  lemma {:induction false} RunFromPreserves(t: Tables, steps: seq<Step>, cfg: Config)
    ensures Preserves(t, Run(t, steps, cfg))
  {
    RunPreserves(t, steps, 0, |steps|, cfg);
    assert steps[..0] == [] && steps[..|steps|] == steps;
  }

  lemma {:induction false} LoopExplains(t: Tables, missing: seq<string>, world: World, cfg: Config)
    ensures
      var done := CreditAll(t, missing, world, cfg);
      && |done.outcomes| == |missing|
      && Preserves(t, done.tables)
      && forall i :: 0 <= i < |missing| ==> Explains(done.tables, world.answer(missing[i]), done.outcomes[i])
    decreases |missing|
  {
    if missing != [] {
      var i := |missing| - 1;
      LoopExplains(t, missing[..i], world, cfg);
      var before := CreditAll(t, missing[..i], world, cfg);
      var here := Run(before.tables, world.others(i), cfg);
      RunFromPreserves(before.tables, world.others(i), cfg);
      AttemptExplains(here, world.answer(missing[i]), cfg, world.weather(i));
      var after := CreditAll(t, missing, world, cfg).tables;
      PreservesIsTransitive(before.tables, here, after);
      PreservesIsTransitive(t, before.tables, after);
    }
  }

  lemma {:induction false} LoopKeepsInboxSettled(t: Tables, missing: seq<string>, world: World, cfg: Config)
    requires Linked(t) && InboxIsSettled(t)
    ensures Linked(CreditAll(t, missing, world, cfg).tables) && InboxIsSettled(CreditAll(t, missing, world, cfg).tables)
    decreases |missing|
  {
    if missing != [] {
      var i := |missing| - 1;
      LoopKeepsInboxSettled(t, missing[..i], world, cfg);
      var before := CreditAll(t, missing[..i], world, cfg).tables;
      var steps := world.others(i);
      RunKeepsInboxSettled(before, steps, |steps|, cfg);
      assert steps[..|steps|] == steps;
      var here := Run(before, steps, cfg);
      var a := world.answer(missing[i]);
      if a.Success? {
        NextKeepsLinked(here, SweepCredit(a.body, world.weather(i)), cfg);
        NextKeepsInboxSettled(here, SweepCredit(a.body, world.weather(i)), cfg);
      }
    }
  }

  /** The provider's answer about a reference is about that reference. */
  ghost predicate Echoes(world: World, reference: string) {
    var a := world.answer(reference);
    a.Success? && MapPaystackEvent(a.body.payload).WalletTopupSucceeded? ==>
      MapPaystackEvent(a.body.payload).reference == reference
  }

  /** The four fates of a listed reference. */
  ghost predicate AccountedFor(t: Tables, world: World, reference: string, failures: set<string>) {
    var a := world.answer(reference);
    || reference in References(t.ledger)
    || a.NotSuccess?
    || reference in failures
    || (&& a.Success?
        && var event := MapPaystackEvent(a.body.payload);
           event.WalletTopupSucceeded? && TopupRejection(event).Some? && TopupRejection(event).value in t.issues)
  }

  function Failures(missing: seq<string>, outcomes: seq<Outcome>): set<string>
    requires |missing| == |outcomes|
  {
    set i | 0 <= i < |missing| && outcomes[i] == AttemptFailed :: missing[i]
  }

  /** After a sweep every dedicated-account reference on the pages it read has a ledger entry,
      has an issue on file, was not verified as a success, or is one of those counted as
      failed; or the provider's answer named another reference, unnoticed, and that one has an
      entry. The counters are ordered as their names say. */
  lemma SweepAccountsForEveryReference(t: Tables, world: World, cfg: Config, reference: string)
    requires Linked(t) && InboxIsSettled(t)
    requires reference in Listed(world.page)
    ensures
      var (after, r) := Sweep(t, world, cfg);
      var outcomes := CreditAll(t, MissingOf(t, world), world, cfg).outcomes;
      && |outcomes| == |MissingOf(t, world)|
      && (AccountedFor(after, world, reference, Failures(MissingOf(t, world), outcomes))
          || (!Echoes(world, reference)
              && MapPaystackEvent(world.answer(reference).body.payload).reference in References(after.ledger)))
      && r.seen >= r.missing >= r.credited + r.failed
  {
    var missing := MissingOf(t, world);
    var done := CreditAll(t, missing, world, cfg);
    WithoutMembers(Listed(world.page), References(t.ledger));
    LoopExplains(t, missing, world, cfg);
    LoopKeepsInboxSettled(t, missing, world, cfg);
    CountsFit(done.outcomes);
    ReferencesGrow(t.ledger, done.tables.ledger);
    if reference in missing {
      var i :| 0 <= i < |missing| && missing[i] == reference;
      assert Explains(done.tables, world.answer(reference), done.outcomes[i]);
      if done.outcomes[i] != Skipped && done.outcomes[i] != AttemptFailed {
        assert Settled(done.tables, world.answer(reference).body);
      }
    }
  }

  lemma {:induction false} CountIsThatMany(outcomes: seq<Outcome>, o: Outcome)
    ensures Count(outcomes, o) == |set i | 0 <= i < |outcomes| && outcomes[i] == o|
    decreases |outcomes|
  {
    if outcomes != [] {
      var last := |outcomes| - 1;
      CountIsThatMany(outcomes[..last], o);
      assert (set i | 0 <= i < |outcomes| && outcomes[i] == o) ==
        (set i | 0 <= i < last && outcomes[..last][i] == o) + (if outcomes[last] == o then {last} else {});
    }
  }

  lemma {:induction false} WithoutIsThatMany(references: seq<string>, known: set<string>)
    ensures |Without(references, known)| == |set i | 0 <= i < |references| && references[i] !in known|
    decreases |references|
  {
    if references != [] {
      var last := |references| - 1;
      WithoutIsThatMany(references[..last], known);
      assert (set i | 0 <= i < |references| && references[i] !in known) ==
        (set i | 0 <= i < last && references[..last][i] !in known) + (if references[last] in known then {} else {last});
    }
  }

  /** The four counters: what was listed, what of it the ledger lacked, and the attempts that
      were accepted and that threw. A listing with nothing in it changes nothing. */
  lemma WhatTheCountersSay(t: Tables, world: World, cfg: Config)
    ensures
      var (after, r) := Sweep(t, world, cfg);
      var listed, outcomes := Listed(world.page), CreditAll(t, MissingOf(t, world), world, cfg).outcomes;
      && r.seen == NumberRead(world.page, 10)
      && r.missing == |set i | 0 <= i < |listed| && listed[i] !in References(t.ledger)|
      && r.credited == |set i | 0 <= i < |outcomes| && outcomes[i] == Credited|
      && r.failed == |set i | 0 <= i < |outcomes| && outcomes[i] == AttemptFailed|
      && (listed == [] ==> after == t)
  {
    HowManyAreCollected(world.page);
    WithoutIsThatMany(Listed(world.page), References(t.ledger));
    CountIsThatMany(CreditAll(t, MissingOf(t, world), world, cfg).outcomes, Credited);
    CountIsThatMany(CreditAll(t, MissingOf(t, world), world, cfg).outcomes, AttemptFailed);
  }

  // ---------------------------------------------------------------- what the counters hide

  /** A failed attempt files its failure exactly when the answer was a top-up and the filing
      itself went through: a verification that throws, or an answer that is no top-up, leaves
      no issue. */
  lemma FailedAttemptIsFiled(t: Tables, a: Answer, cfg: Config, w: Weather, reference: string)
    requires Attempt(t, a, cfg, w).1 == AttemptFailed && ProcessingFailed(reference) !in t.issues
    ensures ProcessingFailed(reference) in Attempt(t, a, cfg, w).0.issues <==>
      && a.Success? && w.issueIsRecorded
      && var event := MapPaystackEvent(a.body.payload);
      event.WalletTopupSucceeded? && event.reference == reference
  {}

  /** An attempt counted as credited has credited nobody exactly when the top-up was filed
      under an issue instead, or its reference had reached the ledger since the listing. */
  lemma CreditedMayBeFiled(t: Tables, a: Answer, cfg: Config, w: Weather)
    requires Attempt(t, a, cfg, w).1 == Credited
    ensures
      var event := MapPaystackEvent(a.body.payload);
      var after := Attempt(t, a, cfg, w).0;
      && event.WalletTopupSucceeded?
      && (after.ledger == t.ledger <==> TopupRejection(event).Some? || event.reference in References(t.ledger))
      && (TopupRejection(event).Some? ==> TopupRejection(event).value in after.issues)
      && (TopupRejection(event).None? ==> event.reference in References(after.ledger))
  {
    var event := MapPaystackEvent(a.body.payload);
    if TopupRejection(event).None? {
      var kept := t.(inbox := t.inbox + {a.body});
      CreditedReferenceIsThere(kept, event.reference, event.accountNumber, UserOf(event), CreditOf(event, cfg), cfg);
    }
  }

  /** One listed reference, and what the rest of the system does between the listing and the
      attempt. */
  function SmallWorld(reference: string, a: Answer, others: seq<Step>): World {
    World(_ => Page([Transaction(Some(DEDICATED_CHANNEL), Some(reference))], 1),
      _ => a, _ => others, _ => Weather(false, true))
  }

  lemma OnePage(list: nat -> Page, txs: seq<Transaction>)
    requires list(1) == Page(txs, 1)
    ensures Listed(list) == ReferencesOn(txs)
  {
    assert LastPage(list, 1) == 1;
    assert ReferencesThrough(list, 0) == [];
    assert ReferencesThrough(list, 1) == ReferencesThrough(list, 0) + ReferencesOn(list(1).transactions);
  }

  lemma MissingIfNew(t: Tables, world: World, reference: string)
    requires Listed(world.page) == [reference] && reference !in References(t.ledger)
    ensures MissingOf(t, world) == [reference]
  {
    var known := References(t.ledger);
    assert [reference][..0] == [];
    assert Without([], known) == [];
    assert Without([reference], known) == [reference];
  }

  lemma OneAttempt(t: Tables, world: World, reference: string, cfg: Config)
    ensures
      var (after, o) := Attempt(Run(t, world.others(0), cfg), world.answer(reference), cfg, world.weather(0));
      CreditAll(t, [reference], world, cfg) == Progress(after, [o])
  {
    assert [reference][..0] == [];
    assert CreditAll(t, [], world, cfg) == Progress(t, []);
  }

  lemma CountOfOne(o: Outcome, x: Outcome)
    ensures Count([o], x) == if o == x then 1 else 0
  {
    assert [o][..0] == [];
  }

  lemma SmallSweep(t: Tables, reference: string, a: Answer, others: seq<Step>, cfg: Config)
    requires reference !in References(t.ledger)
    ensures
      var (after, o) := Attempt(Run(t, others, cfg), a, cfg, Weather(false, true));
      Sweep(t, SmallWorld(reference, a, others), cfg) ==
      (after, SweepResult(1, 1, if o == Credited then 1 else 0, if o == AttemptFailed then 1 else 0))
  {
    var world := SmallWorld(reference, a, others);
    var tx := Transaction(Some(DEDICATED_CHANNEL), Some(reference));
    assert ReferencesOn([tx]) == [reference] by {
      assert [tx][..0] == [];
    }
    OnePage(world.page, [tx]);
    MissingIfNew(t, world, reference);
    OneAttempt(t, world, reference, cfg);
    var o := Attempt(Run(t, others, cfg), a, cfg, Weather(false, true)).1;
    CountOfOne(o, Credited);
    CountOfOne(o, AttemptFailed);
  }

  /** A sweep whose verification throws counts a failure and changes nothing at all. */
  lemma FailureCanLeaveNoTrace(t: Tables, reference: string, cfg: Config)
    requires reference !in References(t.ledger)
    ensures Sweep(t, SmallWorld(reference, Throws, []), cfg) == (t, SweepResult(1, 1, 0, 1))
  {
    SmallSweep(t, reference, Throws, [], cfg);
  }

  lemma FiledAttempt(t: Tables, body: Body, cfg: Config)
    requires body !in t.inbox
    requires MapPaystackEvent(body.payload).WalletTopupSucceeded?
      && TopupRejection(MapPaystackEvent(body.payload)).Some?
    ensures Attempt(t, Success(body), cfg, Weather(false, true)) ==
      (t.(inbox := t.inbox + {body}, issues := t.issues + {TopupRejection(MapPaystackEvent(body.payload)).value}),
        Credited)
  {}

  /** A sweep that finds a deposit which has to be filed counts it as credited and credits
      nobody. */
  lemma CreditedCanMeanFiled(t: Tables, reference: string, body: Body, cfg: Config)
    requires reference !in References(t.ledger) && body !in t.inbox
    requires MapPaystackEvent(body.payload).WalletTopupSucceeded?
      && TopupRejection(MapPaystackEvent(body.payload)).Some?
    ensures Sweep(t, SmallWorld(reference, Success(body), []), cfg) ==
      (t.(inbox := t.inbox + {body}, issues := t.issues + {TopupRejection(MapPaystackEvent(body.payload)).value}),
       SweepResult(1, 1, 1, 0))
  {
    FiledAttempt(t, body, cfg);
    SmallSweep(t, reference, Success(body), [], cfg);
  }

  /** A deposit in dollars is one. */
  lemma DollarsAreFiled(reference: string)
    requires reference != ""
    ensures
      var authorization := Authorization(Some(DEDICATED_CHANNEL), Some("0123456789"), None);
      var data := EventData(Some(reference), Some(500), Some("USD"), None, NoMetadata, Some(authorization));
      var event := MapPaystackEvent(Payload(CHARGE_SUCCESS, Some(data)));
      event.WalletTopupSucceeded? && TopupRejection(event) == Some(TopupCurrencyMismatch(reference))
  {
    assert "USD" != "NGN" by {
      assert "USD"[0] != "NGN"[0];
    }
  }

  lemma AttemptOnKnownReference(t: Tables, body: Body, cfg: Config)
    requires body !in t.inbox
    requires
      var event := MapPaystackEvent(body.payload);
      && event.WalletTopupSucceeded? && TopupRejection(event).None?
      && event.reference in References(t.ledger)
      && Owner(t, event.accountNumber, UserOf(event)).Some? && CreditOf(event, cfg) > 0
    ensures
      var (after, o) := Attempt(t, Success(body), cfg, Weather(false, true));
      o == Credited && after.ledger == t.ledger && after.issues == t.issues
  {}

  /** A sweep that finds a deposit which its webhook credited after the listing counts it as
      credited again, and credits and files nothing. */
  lemma CreditedCanMeanTooLate(t: Tables, reference: string, body: Body, others: seq<Step>, cfg: Config)
    requires reference !in References(t.ledger) && body !in Run(t, others, cfg).inbox
    requires
      var event := MapPaystackEvent(body.payload);
      var here := Run(t, others, cfg);
      && event.WalletTopupSucceeded? && TopupRejection(event).None?
      && event.reference in References(here.ledger)
      && Owner(here, event.accountNumber, UserOf(event)).Some? && CreditOf(event, cfg) > 0
    ensures
      var (after, r) := Sweep(t, SmallWorld(reference, Success(body), others), cfg);
      && r == SweepResult(1, 1, 1, 0)
      && after.ledger == Run(t, others, cfg).ledger && after.issues == Run(t, others, cfg).issues
  {
    AttemptOnKnownReference(Run(t, others, cfg), body, cfg);
    SmallSweep(t, reference, Success(body), others, cfg);
  }

  /** A deposit of 500 kobo on the account of user 0. */
  function Deposit(): Payload {
    var authorization := Authorization(Some(DEDICATED_CHANNEL), Some("0123456789"), None);
    Payload(CHARGE_SUCCESS, Some(EventData(Some("ref"), Some(500), Some("NGN"), None, NoMetadata, Some(authorization))))
  }

  const BEFORE_DEPOSIT := Tables({}, [], map[0 := 0], {}, map["0123456789" := 0], {0}, {}, map[], map[], map[], map[])

  lemma DepositIsATopup()
    ensures
      var event := MapPaystackEvent(Deposit());
      && event == WalletTopupSucceeded("ref", 500, Some("0123456789"), None, None, None, Some("NGN"))
      && TopupRejection(event).None?
  {}

  lemma WebhookCreditsDeposit(cfg: Config)
    requires 0 <= cfg.depositFeeBps <= 10_000
    ensures
      var deliver := Deliver(Body("webhook", Deposit()), true, Weather(false, true));
      var here := Run(BEFORE_DEPOSIT, [deliver], cfg);
      && here.inbox == {Body("webhook", Deposit())} && here.accounts == BEFORE_DEPOSIT.accounts
      && "ref" in References(here.ledger) && CreditOf(MapPaystackEvent(Deposit()), cfg) > 0
  {
    var body := Body("webhook", Deposit());
    var deliver := Deliver(body, true, Weather(false, true));
    var event := MapPaystackEvent(Deposit());
    DepositIsATopup();
    Fees.SplitConserves(500, cfg.depositFeeBps, cfg.depositFeeCapKobo);
    var kept := BEFORE_DEPOSIT.(inbox := {body});
    assert BEFORE_DEPOSIT.inbox + {body} == {body};
    CreditedReferenceIsThere(kept, "ref", event.accountNumber, None, CreditOf(event, cfg), cfg);
    assert [deliver][..0] == [];
    assert Run(BEFORE_DEPOSIT, [deliver], cfg) == Next(BEFORE_DEPOSIT, deliver, cfg);
  }

  /** The webhook lands between listing and attempt; the sweep's own body is another one. */
  lemma WebhookCanOvertakeTheSweep(cfg: Config)
    requires 0 <= cfg.depositFeeBps <= 10_000
    ensures
      var deliver := Deliver(Body("webhook", Deposit()), true, Weather(false, true));
      var world := SmallWorld("ref", Success(Body("sweep", Deposit())), [deliver]);
      var (after, r) := Sweep(BEFORE_DEPOSIT, world, cfg);
      r == SweepResult(1, 1, 1, 0) && after.ledger == Run(BEFORE_DEPOSIT, [deliver], cfg).ledger
  {
    var deliver := Deliver(Body("webhook", Deposit()), true, Weather(false, true));
    DepositIsATopup();
    WebhookCreditsDeposit(cfg);
    assert Body("sweep", Deposit()) != Body("webhook", Deposit()) by {
      assert "sweep"[0] != "webhook"[0];
    }
    CreditedCanMeanTooLate(BEFORE_DEPOSIT, "ref", Body("sweep", Deposit()), [deliver], cfg);
  }

  // ---------------------------------------------------------------- the sweep as a run

  /** The steps of the crediting loop and of everything between them. */
  function SweepSteps(missing: seq<string>, world: World): seq<Step>
    decreases |missing|
  {
    if missing == [] then []
    else
      var i := |missing| - 1;
      var a := world.answer(missing[i]);
      SweepSteps(missing[..i], world) + world.others(i) +
        (if a.Success? then [SweepCredit(a.body, world.weather(i))] else [])
  }

  lemma {:induction false} RunInTwo(t: Tables, first: seq<Step>, second: seq<Step>, cfg: Config)
    ensures Run(t, first + second, cfg) == Run(Run(t, first, cfg), second, cfg)
    decreases |second|
  {
    if second == [] {
      assert first + second == first;
    } else {
      assert (first + second)[..|first + second| - 1] == first + second[..|second| - 1];
      RunInTwo(t, first, second[..|second| - 1], cfg);
    }
  }

  lemma AttemptIsAStep(t: Tables, a: Answer, cfg: Config, w: Weather)
    ensures Attempt(t, a, cfg, w).0 == Run(t, if a.Success? then [SweepCredit(a.body, w)] else [], cfg)
  {
    if a.Success? {
      var s := SweepCredit(a.body, w);
      assert [s][..0] == [];
      assert Run(t, [s], cfg) == Next(t, s, cfg);
    }
  }

  lemma {:induction false} LoopIsARun(t: Tables, missing: seq<string>, world: World, cfg: Config)
    ensures CreditAll(t, missing, world, cfg).tables == Run(t, SweepSteps(missing, world), cfg)
    decreases |missing|
  {
    if missing != [] {
      var i := |missing| - 1;
      var a := world.answer(missing[i]);
      var earlier := SweepSteps(missing[..i], world);
      var last := if a.Success? then [SweepCredit(a.body, world.weather(i))] else [];
      LoopIsARun(t, missing[..i], world, cfg);
      RunInTwo(t, earlier, world.others(i), cfg);
      RunInTwo(t, earlier + world.others(i), last, cfg);
      AttemptIsAStep(Run(t, earlier + world.others(i), cfg), a, cfg, world.weather(i));
    }
  }

  /** A sweep is a run, and so keeps the books: one top-up per reference, balances that are
      the sums of their entries, and no wallet in debt. */
  lemma SweepIsARun(t: Tables, world: World, cfg: Config) returns (steps: seq<Step>)
    ensures Sweep(t, world, cfg).0 == Run(t, steps, cfg)
    ensures Sound(t) ==> Sound(Sweep(t, world, cfg).0)
  {
    steps := if Listed(world.page) == [] then [] else SweepSteps(MissingOf(t, world), world);
    LoopIsARun(t, MissingOf(t, world), world, cfg);
    if Sound(t) {
      LedgerStaysSound(t, steps, cfg);
    }
  }

  // ---------------------------------------------------------------- sweeping again

  lemma CleanLoopLeavesNothingToCredit(t: Tables, missing: seq<string>, world: World, cfg: Config, reference: string)
    requires Count(CreditAll(t, missing, world, cfg).outcomes, AttemptFailed) == 0 && reference in missing
    ensures
      var a := world.answer(reference);
      a.NotSuccess? || (a.Success? && a.body in CreditAll(t, missing, world, cfg).tables.inbox)
  {
    var done := CreditAll(t, missing, world, cfg);
    LoopExplains(t, missing, world, cfg);
    NoneCounted(done.outcomes, AttemptFailed);
    ExplainedWithoutFailure(done.tables, missing, world, done.outcomes, reference);
  }

  lemma ExplainedWithoutFailure(t: Tables, missing: seq<string>, world: World, outcomes: seq<Outcome>,
      reference: string)
    requires |outcomes| == |missing| && AttemptFailed !in outcomes && reference in missing
    requires forall i :: 0 <= i < |missing| ==> Explains(t, world.answer(missing[i]), outcomes[i])
    ensures
      var a := world.answer(reference);
      a.NotSuccess? || (a.Success? && a.body in t.inbox)
  {
    var i :| 0 <= i < |missing| && missing[i] == reference;
    assert outcomes[i] in outcomes;
    assert Explains(t, world.answer(missing[i]), outcomes[i]);
  }

  /** After a sweep without failures, a listed reference that is still not in the ledger was
      not verified as a success, or its body is in the inbox for good. */
  lemma CleanSweepLeavesNothingToCredit(t: Tables, world: World, cfg: Config, later: Tables, reference: string)
    requires Sweep(t, world, cfg).1.failed == 0
    requires Preserves(Sweep(t, world, cfg).0, later)
    requires reference in Listed(world.page) && reference !in References(later.ledger)
    ensures
      var a := world.answer(reference);
      a.NotSuccess? || (a.Success? && a.body in later.inbox)
  {
    var missing := MissingOf(t, world);
    WithoutMembers(Listed(world.page), References(t.ledger));
    SweepPreserves(t, world, cfg);
    ReferencesGrow(t.ledger, later.ledger);
    CleanLoopLeavesNothingToCredit(t, missing, world, cfg, reference);
  }

  lemma SweepPreserves(t: Tables, world: World, cfg: Config)
    ensures Preserves(t, Sweep(t, world, cfg).0)
  {
    LoopExplains(t, MissingOf(t, world), world, cfg);
  }

  /** Run again over the same references with the same answers, a sweep that met no failure
      the first time credits nothing, whatever happened between the two and happens during
      the second. */
  lemma SecondSweepCreditsNothing(t: Tables, world: World, cfg: Config, later: Tables, again: World)
    requires Sweep(t, world, cfg).1.failed == 0
    requires Preserves(Sweep(t, world, cfg).0, later)
    requires again.answer == world.answer
    requires forall r :: r in Listed(again.page) ==> r in Listed(world.page)
    ensures Sweep(later, again, cfg).1.credited == 0
  {
    var left := MissingOf(later, again);
    WithoutMembers(Listed(again.page), References(later.ledger));
    forall k | 0 <= k < |left|
      ensures var a := again.answer(left[k]); a.NotSuccess? || (a.Success? && a.body in later.inbox)
    {
      assert left[k] in left;
      CleanSweepLeavesNothingToCredit(t, world, cfg, later, left[k]);
    }
    KnownBodiesAreNotCredited(later, left, again, cfg);
    NoneCounted(CreditAll(later, left, again, cfg).outcomes, Credited);
  }

  lemma {:induction false} KnownBodiesAreNotCredited(t: Tables, missing: seq<string>, world: World, cfg: Config)
    requires forall k :: 0 <= k < |missing| ==>
      world.answer(missing[k]).NotSuccess?
        || (world.answer(missing[k]).Success? && world.answer(missing[k]).body in t.inbox)
    ensures Credited !in CreditAll(t, missing, world, cfg).outcomes
    decreases |missing|
  {
    if missing != [] {
      var i := |missing| - 1;
      KnownBodiesAreNotCredited(t, missing[..i], world, cfg);
      LoopExplains(t, missing[..i], world, cfg);
      var before := CreditAll(t, missing[..i], world, cfg).tables;
      RunFromPreserves(before, world.others(i), cfg);
      AttemptExplains(Run(before, world.others(i), cfg), world.answer(missing[i]), cfg, world.weather(i));
    }
  }
}
