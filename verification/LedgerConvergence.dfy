/** The wallet ledger does not depend on the order in which deliveries, redeliveries, failed
    attempts and sweep credits arrive. */
module LedgerConvergence {
  import opened Wrappers
  import opened PaystackEvents
  import opened WalletTables
  import opened Webhook
  import opened LedgerRuns
  import Fees
  import Sequences

  // ---------------------------------------------------------------- which references

  /** The reference that one step puts through to the ledger: that of an accepted top-up
      which is neither unattributable nor in another currency. */
  function CreditedBy(t: Tables, s: Step, cfg: Config): set<string> {
    if IsAccepted(ReplyTo(t, s, cfg)) && CreditedEvent(ReplyTo(t, s, cfg).value.value.event) then
      {ReplyTo(t, s, cfg).value.value.event.reference}
    else {}
  }

  predicate CreditedEvent(event: DomainEvent) {
    event.WalletTopupSucceeded? && TopupRejection(event).None?
  }

  function Processed(t: Tables, steps: seq<Step>, cfg: Config): set<string>
    decreases |steps|
  {
    if steps == [] then {}
    else
      var init := steps[..|steps| - 1];
      Processed(t, init, cfg) + CreditedBy(Run(t, init, cfg), steps[|steps| - 1], cfg)
  }

  lemma ReferencesOfAppend(ledger: seq<Entry>, e: Entry)
    ensures References(ledger + [e]) == References(ledger) + (if e.Topup? then {e.reference} else {})
  {
    assert (ledger + [e])[|ledger|] == e;
    forall r | r in References(ledger) ensures r in References(ledger + [e]) {
      var x :| x in ledger && x.Topup? && x.reference == r;
      assert x in ledger + [e];
    }
  }

  lemma CreditReferences(t: Tables, event: DomainEvent, cfg: Config)
    requires event.WalletTopupSucceeded? && TopupRejection(event).None?
    requires CreditWalletTopup(t, event, cfg).Some?
    ensures References(CreditWalletTopup(t, event, cfg).value.ledger) == References(t.ledger) + {event.reference}
  {
    if event.reference !in References(t.ledger) {
      var after := CreditWalletTopup(t, event, cfg).value;
      ReferencesOfAppend(t.ledger, after.ledger[|t.ledger|]);
    }
  }

  lemma ProcessReferences(t: Tables, body: Body, event: DomainEvent, cfg: Config, w: Weather)
    requires !event.Ignored?
    ensures
      var (after, r) := ProcessWithDatabase(t, body, event, cfg, w);
      References(after.ledger)
      == References(t.ledger) + (if r == Ok(Accepted(event)) && CreditedEvent(event) then {event.reference} else {})
  {
    var kept := t.(inbox := t.inbox + {body});
    if CreditedEvent(event) && CreditWalletTopup(kept, event, cfg).Some? {
      CreditReferences(kept, event, cfg);
    }
  }

  lemma NextReferences(t: Tables, s: Step, cfg: Config)
    ensures References(Next(t, s, cfg).ledger) == References(t.ledger) + CreditedBy(t, s, cfg)
  {
    if IsBodyStep(s) {
      BodyStep(t, s, cfg);
      var event := MapPaystackEvent(s.body.payload);
      if !event.Ignored? {
        ProcessReferences(t, s.body, event, cfg, s.weather);
      }
    } else if IsWalletStep(s) {
      WalletStepAppends(t, s, cfg);
      ReferencesOfAppend(t.ledger, EntryOf(t, s));
    } else {
      WhoWritesWhat(t, s, cfg);
    }
  }

  /** A reference is in the ledger exactly when it was there before or some attempt for it
      went through: failed attempts leave no trace and redeliveries add none. */
  lemma {:induction false} LedgerHoldsWhatWasProcessed(t: Tables, steps: seq<Step>, cfg: Config)
    ensures References(Run(t, steps, cfg).ledger) == References(t.ledger) + Processed(t, steps, cfg)
    decreases |steps|
  {
    if steps != [] {
      var init := steps[..|steps| - 1];
      LedgerHoldsWhatWasProcessed(t, init, cfg);
      NextReferences(Run(t, init, cfg), steps[|steps| - 1], cfg);
    }
  }

  // ---------------------------------------------------------------- which entries

  /** `owners` says whose each account number is: no number moves to another wallet, though a
      wallet may be given other numbers. */
  ghost predicate OneOwnerPerNumber(t: Tables, steps: seq<Step>, owners: map<string, UserId>) {
    && (forall n :: n in t.accounts ==> n in owners && owners[n] == t.accounts[n])
    && (forall i :: 0 <= i < |steps| && steps[i].BindNumber? ==>
         steps[i].number in owners && owners[steps[i].number] == steps[i].user)
  }

  /** The entry that an event is worth. */
  function EntryFor(owners: map<string, UserId>, event: DomainEvent, cfg: Config): Option<Entry> {
    if !event.WalletTopupSucceeded? || TopupRejection(event).Some? then None
    else if event.accountNumber.Some? && event.accountNumber.value in owners then
      Some(Topup(event.reference, owners[event.accountNumber.value], CreditOf(event, cfg)))
    else if UserOf(event).Some? then Some(Topup(event.reference, UserOf(event).value, CreditOf(event, cfg)))
    else None
  }

  /** Whatever arrives under a reference is worth one entry, the one `worth` gives for it;
      bodies may otherwise differ. */
  ghost predicate OneEntryPerReference(
      steps: seq<Step>, owners: map<string, UserId>, cfg: Config, worth: map<string, Entry>)
  {
    forall i :: 0 <= i < |steps| && BodyOf(steps[i]).Some? ==>
      var entry := EntryFor(owners, MapPaystackEvent(BodyOf(steps[i]).value.payload), cfg);
      entry.Some? ==> entry.value.reference in worth && worth[entry.value.reference] == entry.value
  }

  /** A number that is not bound yet may be bound later, but an event names a user or a
      number, never both. */
  lemma NumberOrUser(payload: Payload)
    requires MapPaystackEvent(payload).WalletTopupSucceeded?
    ensures MapPaystackEvent(payload).accountNumber.None? || MapPaystackEvent(payload).userId.None?
  {}

  ghost predicate OwnersHold(t: Tables, owners: map<string, UserId>) {
    forall n :: n in t.accounts ==> n in owners && owners[n] == t.accounts[n]
  }

  lemma EffectKeepsAccounts(t: Tables, after: Tables, body: Body, event: DomainEvent)
    requires Effect(t, after, body, event)
    ensures after.accounts == t.accounts
  {}

  lemma AccountsElsewhere(t: Tables, s: Step, cfg: Config)
    requires !s.BindNumber?
    ensures Next(t, s, cfg).accounts == t.accounts
  {
    if IsBodyStep(s) {
      BodyStepHasEffect(t, s, cfg);
      if Next(t, s, cfg) != t {
        EffectKeepsAccounts(t, Next(t, s, cfg), s.body, MapPaystackEvent(s.body.payload));
      }
    } else if IsPaymentStep(s) {
      var reference, paidKobo := PaymentRoute(t, s, cfg);
    }
  }

  lemma NextOwnersHold(t: Tables, s: Step, cfg: Config, owners: map<string, UserId>)
    requires OwnersHold(t, owners)
    requires s.BindNumber? ==> s.number in owners && owners[s.number] == s.user
    ensures OwnersHold(Next(t, s, cfg), owners)
  {
    if !s.BindNumber? {
      AccountsElsewhere(t, s, cfg);
    }
  }

  lemma CreditedEntry(t: Tables, event: DomainEvent, cfg: Config, owners: map<string, UserId>, e: Entry)
    requires event.WalletTopupSucceeded? && TopupRejection(event).None? && OwnersHold(t, owners)
    requires event.accountNumber.None? || event.userId.None?
    requires CreditWalletTopup(t, event, cfg).Some? && CreditWalletTopup(t, event, cfg).value.ledger == t.ledger + [e]
    ensures EntryFor(owners, event, cfg) == Some(e)
  {
    assert CreditWalletTopup(t, event, cfg).value.ledger[|t.ledger|] == e;
  }

  lemma ProcessedEntryIsExpected(t: Tables, body: Body, cfg: Config, w: Weather, owners: map<string, UserId>, e: Entry)
    requires OwnersHold(t, owners) && !MapPaystackEvent(body.payload).Ignored?
    requires ProcessWithDatabase(t, body, MapPaystackEvent(body.payload), cfg, w).0.ledger == t.ledger + [e]
    ensures EntryFor(owners, MapPaystackEvent(body.payload), cfg) == Some(e)
  {
    var event := MapPaystackEvent(body.payload);
    assert ProcessWithDatabase(t, body, event, cfg, w).0.ledger[|t.ledger|] == e;
    assert event.WalletTopupSucceeded? && TopupRejection(event).None?;
    NumberOrUser(body.payload);
    CreditedEntry(t.(inbox := t.inbox + {body}), event, cfg, owners, e);
  }

  lemma NewEntryIsExpected(t: Tables, s: Step, cfg: Config, owners: map<string, UserId>, e: Entry)
    requires OwnersHold(t, owners) && e.Topup? && Next(t, s, cfg).ledger == t.ledger + [e]
    ensures BodyOf(s).Some? && EntryFor(owners, MapPaystackEvent(BodyOf(s).value.payload), cfg) == Some(e)
  {
    assert Next(t, s, cfg).ledger[|t.ledger|] == e;
    if IsBodyStep(s) {
      BodyStep(t, s, cfg);
      ProcessedEntryIsExpected(t, s.body, cfg, s.weather, owners, e);
    } else if IsWalletStep(s) {
      WalletStepAppends(t, s, cfg);
    } else {
      WhoWritesWhat(t, s, cfg);
    }
  }

  ghost predicate AsExpected(ledger: seq<Entry>, from: nat, worth: map<string, Entry>) {
    forall k :: from <= k < |ledger| && ledger[k].Topup? ==>
      ledger[k].reference in worth && worth[ledger[k].reference] == ledger[k]
  }

  lemma {:induction false} NewEntriesAreExpected(
      t: Tables, steps: seq<Step>, cfg: Config, owners: map<string, UserId>, worth: map<string, Entry>)
    requires OneOwnerPerNumber(t, steps, owners) && OneEntryPerReference(steps, owners, cfg, worth)
    ensures OwnersHold(Run(t, steps, cfg), owners)
    ensures t.ledger <= Run(t, steps, cfg).ledger
    ensures AsExpected(Run(t, steps, cfg).ledger, |t.ledger|, worth)
    decreases |steps|
  {
    if steps != [] {
      var init, s := steps[..|steps| - 1], steps[|steps| - 1];
      var before := Run(t, init, cfg);
      var after := Next(before, s, cfg);
      assert forall i :: 0 <= i < |init| ==> init[i] == steps[i];
      NewEntriesAreExpected(t, init, cfg, owners, worth);
      NextOwnersHold(before, s, cfg, owners);
      NextExtends(before, s, cfg);
      if after.ledger != before.ledger {
        var e :| Appends(before, after, e);
        if e.Topup? {
          NewEntryIsExpected(before, s, cfg, owners, e);
        }
        OneMoreExpected(before.ledger, |t.ledger|, worth, e);
      }
    }
  }

  lemma OneMoreExpected(ledger: seq<Entry>, from: nat, worth: map<string, Entry>, e: Entry)
    requires AsExpected(ledger, from, worth)
    requires e.Topup? ==> e.reference in worth && worth[e.reference] == e
    ensures AsExpected(ledger + [e], from, worth)
  {}

  // ---------------------------------------------------------------- two runs compared

  function Topups(ledger: seq<Entry>): seq<Entry> {
    if ledger == [] then []
    else
      var last := ledger[|ledger| - 1];
      Topups(ledger[..|ledger| - 1]) + (if last.Topup? then [last] else [])
  }

  /** Everything else: orders paid and refunded, and adjustments. */
  function Spending(ledger: seq<Entry>): seq<Entry> {
    if ledger == [] then []
    else
      var last := ledger[|ledger| - 1];
      Spending(ledger[..|ledger| - 1]) + (if last.Topup? then [] else [last])
  }

  lemma {:induction false} TopupsAreTheTopups(ledger: seq<Entry>)
    requires DistinctTopups(ledger)
    ensures forall e :: e in Topups(ledger) <==> e in ledger && e.Topup?
    ensures DistinctTopups(Topups(ledger))
    decreases |ledger|
  {
    if ledger != [] {
      var init, last := ledger[..|ledger| - 1], ledger[|ledger| - 1];
      assert ledger == init + [last];
      TopupsAreTheTopups(init);
      if last.Topup? {
        var shorter := Topups(init);
        forall i | 0 <= i < |shorter| ensures shorter[i].Topup? && shorter[i].reference != last.reference {
          assert shorter[i] in init;
          var k :| 0 <= k < |init| && init[k] == shorter[i];
          assert ledger[k] == init[k];
        }
      }
    }
  }

  lemma {:induction false} SumSplits(ledger: seq<Entry>, user: UserId)
    ensures SumFor(ledger, user) == SumFor(Topups(ledger), user) + SumFor(Spending(ledger), user)
    decreases |ledger|
  {
    if ledger != [] {
      var init, last := ledger[..|ledger| - 1], ledger[|ledger| - 1];
      SumSplits(init, user);
      SumOfConcat(Topups(init), if last.Topup? then [last] else [], user);
      SumOfConcat(Spending(init), if last.Topup? then [] else [last], user);
      assert [last][..0] == [];
    }
  }

  lemma ReferenceIndex(ledger: seq<Entry>, reference: string) returns (k: nat)
    requires reference in References(ledger)
    ensures k < |ledger| && ledger[k].Topup? && ledger[k].reference == reference
  {
    var e :| e in ledger && e.Topup? && e.reference == reference;
    k :| 0 <= k < |ledger| && ledger[k] == e;
  }

  lemma ReferencesAt(ledger: seq<Entry>)
    ensures forall k :: 0 <= k < |ledger| && ledger[k].Topup? ==> ledger[k].reference in References(ledger)
  {
    forall k | 0 <= k < |ledger| && ledger[k].Topup? ensures ledger[k].reference in References(ledger) {
      assert ledger[k] in ledger;
    }
  }

  /** In a ledger without repeats, a top-up that was appended is new. */
  lemma AppendedReferenceIsNew(before: seq<Entry>, after: seq<Entry>, k: nat)
    requires before <= after && DistinctTopups(after) && |before| <= k < |after| && after[k].Topup?
    ensures after[k].reference !in References(before)
  {
    forall r | r in References(before) ensures r != after[k].reference {
      var j := ReferenceIndex(before, r);
    }
  }

  /** A top-up that the run added is the one its reference is worth. */
  lemma EntryIsWorthItsEvent(
      t: Tables, steps: seq<Step>, cfg: Config, owners: map<string, UserId>, worth: map<string, Entry>, e: Entry)
    requires Sound(t) && OneOwnerPerNumber(t, steps, owners) && OneEntryPerReference(steps, owners, cfg, worth)
    requires e.Topup? && e in Run(t, steps, cfg).ledger && e !in t.ledger
    ensures e.reference in Processed(t, steps, cfg) && e.reference !in References(t.ledger)
    ensures e.reference in worth && worth[e.reference] == e
  {
    var after := Run(t, steps, cfg);
    LedgerStaysSound(t, steps, cfg);
    LedgerHoldsWhatWasProcessed(t, steps, cfg);
    NewEntriesAreExpected(t, steps, cfg, owners, worth);
    ReferencesAt(after.ledger);
    assert forall k :: 0 <= k < |t.ledger| ==> after.ledger[k] == t.ledger[k];
    var k :| 0 <= k < |after.ledger| && after.ledger[k] == e;
    AppendedReferenceIsNew(t.ledger, after.ledger, k);
  }

  /** And every new reference that went through has that entry. */
  lemma EventHasItsEntry(
      t: Tables, steps: seq<Step>, cfg: Config, owners: map<string, UserId>, worth: map<string, Entry>,
      reference: string)
    requires Sound(t) && OneOwnerPerNumber(t, steps, owners) && OneEntryPerReference(steps, owners, cfg, worth)
    requires reference in Processed(t, steps, cfg) && reference !in References(t.ledger)
    ensures reference in worth && worth[reference] in Run(t, steps, cfg).ledger
    ensures worth[reference].Topup? && worth[reference].reference == reference
  {
    var after := Run(t, steps, cfg);
    LedgerHoldsWhatWasProcessed(t, steps, cfg);
    NewEntriesAreExpected(t, steps, cfg, owners, worth);
    ReferencesAt(t.ledger);
    assert forall j :: 0 <= j < |t.ledger| ==> after.ledger[j] == t.ledger[j];
    var k := ReferenceIndex(after.ledger, reference);
  }

  lemma SameEntry(
      t: Tables, run1: seq<Step>, run2: seq<Step>, cfg: Config, owners: map<string, UserId>,
      worth: map<string, Entry>, e: Entry)
    requires Sound(t) && OneOwnerPerNumber(t, run1, owners) && OneOwnerPerNumber(t, run2, owners)
    requires OneEntryPerReference(run1, owners, cfg, worth) && OneEntryPerReference(run2, owners, cfg, worth)
    requires Processed(t, run1, cfg) == Processed(t, run2, cfg)
    requires e.Topup? && e in Run(t, run1, cfg).ledger
    ensures e in Run(t, run2, cfg).ledger
  {
    if e in t.ledger {
      LedgerStaysSound(t, run2, cfg);
      var k :| 0 <= k < |t.ledger| && t.ledger[k] == e;
      assert Run(t, run2, cfg).ledger[k] == e;
    } else {
      EntryIsWorthItsEvent(t, run1, cfg, owners, worth, e);
      EventHasItsEntry(t, run2, cfg, owners, worth, e.reference);
    }
  }

  /** Two runs that put the same references through end with the same top-ups, whatever the
      order of arrival, the repetitions and the failures; and their balances differ by what
      they spent otherwise, and by nothing else. */
  lemma LedgerIsOrderIndependent(
      t: Tables, run1: seq<Step>, run2: seq<Step>, cfg: Config, owners: map<string, UserId>, worth: map<string, Entry>)
    requires Sound(t) && OneOwnerPerNumber(t, run1, owners) && OneOwnerPerNumber(t, run2, owners)
    requires OneEntryPerReference(run1, owners, cfg, worth) && OneEntryPerReference(run2, owners, cfg, worth)
    requires Processed(t, run1, cfg) == Processed(t, run2, cfg)
    ensures
      var after1, after2 := Run(t, run1, cfg), Run(t, run2, cfg);
      && multiset(Topups(after1.ledger)) == multiset(Topups(after2.ledger))
      && forall user :: BalanceOf(after1, user) - SumFor(Spending(after1.ledger), user)
                     == BalanceOf(after2, user) - SumFor(Spending(after2.ledger), user)
  {
    var after1, after2 := Run(t, run1, cfg), Run(t, run2, cfg);
    LedgerStaysSound(t, run1, cfg);
    LedgerStaysSound(t, run2, cfg);
    TopupsAreTheTopups(after1.ledger);
    TopupsAreTheTopups(after2.ledger);
    forall e ensures e in Topups(after1.ledger) <==> e in Topups(after2.ledger) {
      if e in Topups(after1.ledger) {
        SameEntry(t, run1, run2, cfg, owners, worth, e);
      }
      if e in Topups(after2.ledger) {
        SameEntry(t, run2, run1, cfg, owners, worth, e);
      }
    }
    SameTopupsSameMultiset(Topups(after1.ledger), Topups(after2.ledger));
    forall user
      ensures BalanceOf(after1, user) - SumFor(Spending(after1.ledger), user)
           == BalanceOf(after2, user) - SumFor(Spending(after2.ledger), user)
    {
      SumIgnoresOrder(Topups(after1.ledger), Topups(after2.ledger), user);
      SumSplits(after1.ledger, user);
      SumSplits(after2.ledger, user);
    }
  }

  lemma {:induction false} DistinctOccurOnce(ledger: seq<Entry>, e: Entry)
    requires DistinctTopups(ledger) && forall k :: 0 <= k < |ledger| ==> ledger[k].Topup?
    ensures multiset(ledger)[e] == if e in ledger then 1 else 0
    decreases |ledger|
  {
    if ledger != [] {
      var init, last := ledger[..|ledger| - 1], ledger[|ledger| - 1];
      assert ledger == init + [last];
      DistinctOccurOnce(init, e);
      if e == last {
        assert forall i :: 0 <= i < |init| ==> init[i] == ledger[i] && init[i].reference != last.reference;
      }
    }
  }

  lemma SameTopupsSameMultiset(a: seq<Entry>, b: seq<Entry>)
    requires DistinctTopups(a) && DistinctTopups(b)
    requires forall e :: e in a <==> e in b
    requires forall e :: e in a ==> e.Topup?
    ensures multiset(a) == multiset(b)
  {
    forall e ensures multiset(a)[e] == multiset(b)[e] {
      DistinctOccurOnce(a, e);
      DistinctOccurOnce(b, e);
    }
  }

  lemma {:induction false} SumOfConcat(a: seq<Entry>, b: seq<Entry>, user: UserId)
    ensures SumFor(a + b, user) == SumFor(a, user) + SumFor(b, user)
    decreases |b|
  {
    if b == [] {
      assert a + b == a;
    } else {
      assert (a + b)[..|a + b| - 1] == a + b[..|b| - 1];
      SumOfConcat(a, b[..|b| - 1], user);
    }
  }

  lemma SumOfOne(e: Entry, user: UserId)
    ensures SumFor([e], user) == if e.user == user then e.amountKobo else 0
  {
    assert [e][..0] == [];
  }

  lemma SumInThree(before: seq<Entry>, e: Entry, after: seq<Entry>, user: UserId)
    ensures SumFor(before + ([e] + after), user) ==
      SumFor(before + after, user) + if e.user == user then e.amountKobo else 0
  {
    SumOfConcat(before, [e] + after, user);
    SumOfConcat([e], after, user);
    SumOfConcat(before, after, user);
    SumOfOne(e, user);
  }

  lemma SumWithout(b: seq<Entry>, k: nat, user: UserId)
    requires k < |b|
    ensures SumFor(b, user) == SumFor(b[..k] + b[k + 1..], user) + if b[k].user == user then b[k].amountKobo else 0
  {
    Sequences.SplitAt(b, k);
    SumInThree(b[..k], b[k], b[k + 1..], user);
  }

  lemma {:induction false} SumIgnoresOrder(a: seq<Entry>, b: seq<Entry>, user: UserId)
    requires multiset(a) == multiset(b)
    ensures SumFor(a, user) == SumFor(b, user)
    decreases |a|
  {
    if a == [] {
      assert |multiset(b)| == 0;
      assert b == [];
    } else {
      var init, last := a[..|a| - 1], a[|a| - 1];
      assert a == init + [last];
      assert last in multiset(b);
      var k :| 0 <= k < |b| && b[k] == last;
      Sequences.MultisetWithout(b, k);
      SumWithout(b, k, user);
      SumIgnoresOrder(init, b[..k] + b[k + 1..], user);
    }
  }

  // ---------------------------------------------------------------- how much

  /** A wallet is never credited more than was paid, and always something. */
  lemma CreditIsCoveredByThePayment(event: DomainEvent, cfg: Config)
    requires event.WalletTopupSucceeded? && event.amountKobo >= 1
    requires 0 <= cfg.depositFeeBps <= 10_000
    requires event.creditKobo.Some? ==> event.creditKobo.value > 0
    ensures 1 <= CreditOf(event, cfg) <= event.amountKobo
  {
    Fees.SplitConserves(event.amountKobo, cfg.depositFeeBps, cfg.depositFeeCapKobo);
  }

  /** A checkout top-up that charged what the gross-up says credits what was asked for. */
  lemma CheckoutCreditsWhatWasAsked(reference: string, user: UserId, creditKobo: int, passFees: bool, cfg: Config)
    requires creditKobo >= 1
    ensures
      var charge := Fees.CalculateTopupCharge(creditKobo, passFees).chargeKobo;
      var metadata := Object(MetadataFields(Some(WALLET_TOPUP_PURPOSE), Some(Uuid(user)), Some(creditKobo)));
      var data := EventData(Some(reference), Some(charge), Some("NGN"), None, metadata, None);
      var event := MapPaystackEvent(Payload(CHARGE_SUCCESS, Some(data)));
      reference != "" ==>
        event.WalletTopupSucceeded? && EntryFor(map[], event, cfg) == Some(Topup(reference, user, creditKobo))
  {
    Fees.MoreCreditCostsMore(creditKobo);
  }

  // ---------------------------------------------------------------- one delivery of a top-up

  lemma CreditOnce(t: Tables, reference: string, account: Option<string>, user: Option<UserId>, amountKobo: int,
      cfg: Config)
    ensures
      var owner := Owner(t, account, user);
      var credited := Credit(t, reference, account, user, amountKobo, cfg);
      && (credited.None? <==> owner.None? || amountKobo <= 0)
      && (credited.Some? && reference in References(t.ledger) ==>
        credited.value.ledger == t.ledger && forall u :: BalanceOf(credited.value, u) == BalanceOf(t, u))
      && (credited.Some? && reference !in References(t.ledger) ==>
        && credited.value.ledger == t.ledger + [Topup(reference, owner.value, amountKobo)]
        && forall u :: BalanceOf(credited.value, u) == BalanceOf(t, u) + if u == owner.value then amountKobo else 0)
  {}

  /** What a new signed top-up comes to: filed when nobody can be credited or the currency is
      foreign; rolled back when the owner is unknown or nothing is left to credit; otherwise
      accepted, with one entry and the owner's balance up by it, or with neither when the
      reference is in the ledger already. */
  lemma TopupIsFiledRefusedOrCredited(t: Tables, body: Body, cfg: Config, w: Weather)
    requires MapPaystackEvent(body.payload).WalletTopupSucceeded? && body !in t.inbox && !w.databaseFails
    ensures
      var event := MapPaystackEvent(body.payload);
      var (after, reply) := ProcessDelivery(t, body, true, cfg, w);
      var owner := Owner(t, event.accountNumber, UserOf(event));
      if (event.accountNumber.None? && UserOf(event).None?)
        || (event.currency.Some? && event.currency.value != "NGN") then
        && reply == Ok(Accepted(event))
        && TopupRejection(event).Some?
        && after == t.(inbox := t.inbox + {body}, issues := t.issues + {TopupRejection(event).value})
      else if owner.None? || CreditOf(event, cfg) <= 0 then
        reply == Err(RolledBack) && after.(issues := t.issues) == t
      else
        && reply == Ok(Accepted(event))
        && (event.reference in References(t.ledger) ==>
             after.ledger == t.ledger && forall u :: BalanceOf(after, u) == BalanceOf(t, u))
        && (event.reference !in References(t.ledger) ==>
          && after.ledger == t.ledger + [Topup(event.reference, owner.value, CreditOf(event, cfg))]
          && forall u :: BalanceOf(after, u) == BalanceOf(t, u) + if u == owner.value then CreditOf(event, cfg) else 0)
  {
    var event := MapPaystackEvent(body.payload);
    CreditOnce(t.(inbox := t.inbox + {body}), event.reference, event.accountNumber, UserOf(event),
      CreditOf(event, cfg), cfg);
  }

  /** Delivering the same body again after it was accepted moves no money, whatever happens:
      it is a duplicate, or fails and at most files that it failed. */
  lemma RedeliveryIsHarmless(t: Tables, steps: seq<Step>, body: Body, cfg: Config, w: Weather)
    requires body in t.inbox && !MapPaystackEvent(body.payload).Ignored?
    ensures
      var before := Run(t, steps, cfg);
      var (after, reply) := ProcessDelivery(before, body, true, cfg, w);
      && after.(issues := before.issues) == before
      && (w.databaseFails ==> reply == Err(RolledBack))
      && (!w.databaseFails ==> after == before && reply == Ok(Duplicate(MapPaystackEvent(body.payload).reference)))
  {
    RunPreserves(t, steps, 0, |steps|, cfg);
    assert steps[..0] == [] && steps[..|steps|] == steps;
  }

  // ---------------------------------------------------------------- the amount of a top-up

  lemma NewTopupIsCredited(t: Tables, body: Body, cfg: Config, w: Weather, owner: UserId)
    requires MapPaystackEvent(body.payload).WalletTopupSucceeded? && body !in t.inbox && !w.databaseFails
    requires
      var event := MapPaystackEvent(body.payload);
      && TopupRejection(event).None? && Owner(t, event.accountNumber, UserOf(event)) == Some(owner)
      && CreditOf(event, cfg) > 0 && event.reference !in References(t.ledger)
    ensures
      var event := MapPaystackEvent(body.payload);
      ProcessDelivery(t, body, true, cfg, w).0.ledger ==
        t.ledger + [Topup(event.reference, owner, CreditOf(event, cfg))]
  {
    TopupIsFiledRefusedOrCredited(t, body, cfg, w);
  }

  /** A naira transfer to a bound account credits its owner with what was sent, less the
      deposit fee: the least of the nearest share, the cap, and all but a kobo. */
  lemma DepositIsCreditedLessFee(t: Tables, body: Body, cfg: Config, w: Weather, number: string)
      returns (fee: int, share: int)
    requires body.payload.event == "charge.success" && HasReference(body.payload)
    requires
      var data := body.payload.data.value;
      && data.authorization.Some? && data.authorization.value.channel == Some("dedicated_nuban")
      && data.amount.Some? && data.amount.value >= 1 && (data.currency.Some? ==> data.currency.value == "NGN")
      && number == (if data.authorization.value.receiverBankAccountNumber.Some?
           then data.authorization.value.receiverBankAccountNumber.value
           else if data.receiverBankAccountNumber.Some? then data.receiverBankAccountNumber.value else "")
      && (data.authorization.value.receiverBankAccountNumber.Some? || data.receiverBankAccountNumber.Some?)
      && number in t.accounts && data.reference.value !in References(t.ledger)
    requires body !in t.inbox && !w.databaseFails && 0 <= cfg.depositFeeBps <= 10_000
    ensures
      var amount := body.payload.data.value.amount.value;
      && Fees.IsNearestShare(amount, cfg.depositFeeBps, share)
      && Fees.IsLeastOf(fee, share, cfg.depositFeeCapKobo, amount)
      && ProcessDelivery(t, body, true, cfg, w).0.ledger ==
         t.ledger + [Topup(body.payload.data.value.reference.value, t.accounts[number], amount - fee)]
  {
    var event := MapPaystackEvent(body.payload);
    var amount := event.amountKobo;
    fee := Fees.SplitDedicatedAccountDeposit(amount, cfg.depositFeeBps, cfg.depositFeeCapKobo).depositFeeKobo;
    share := Fees.DepositFeeIs(amount, cfg.depositFeeBps, cfg.depositFeeCapKobo);
    Fees.SplitConserves(amount, cfg.depositFeeBps, cfg.depositFeeCapKobo);
    NewTopupIsCredited(t, body, cfg, w, t.accounts[number]);
  }

  /** A paid checkout stamped as a top-up credits the user it names with what was asked for, if
      that is positive and was paid, and else with what was paid. */
  lemma CheckoutIsCredited(t: Tables, body: Body, cfg: Config, w: Weather, fields: MetadataFields, user: UserId)
    requires body.payload.event == "charge.success" && HasReference(body.payload)
    requires
      var data := body.payload.data.value;
      && !(data.authorization.Some? && data.authorization.value.channel == Some("dedicated_nuban"))
      && data.metadata in {Object(fields), Text(Some(fields))}
      && fields.purpose == Some("wallet_topup") && fields.userId == Some(Uuid(user))
      && data.amount.Some? && data.amount.value >= 1 && (data.currency.Some? ==> data.currency.value == "NGN")
      && data.reference.value !in References(t.ledger)
    requires user in t.balances || user in t.profiles
    requires body !in t.inbox && !w.databaseFails
    ensures
      var paid := body.payload.data.value.amount.value;
      var credit := if fields.creditKobo.Some? && 0 < fields.creditKobo.value <= paid then fields.creditKobo.value
        else paid;
      ProcessDelivery(t, body, true, cfg, w).0.ledger ==
      t.ledger + [Topup(body.payload.data.value.reference.value, user, credit)]
  {
    NewTopupIsCredited(t, body, cfg, w, user);
  }

  /** A balance over the advisory cap is flagged, and nothing else a credit does is. */
  lemma OnlyBalancesOverTheCapAreFlagged(t: Tables, reference: string, account: Option<string>, user: Option<UserId>,
      amountKobo: int, cfg: Config)
    requires reference !in References(t.ledger)
    requires Credit(t, reference, account, user, amountKobo, cfg).Some?
    ensures
      var after := Credit(t, reference, account, user, amountKobo, cfg).value;
      var owner := after.ledger[|after.ledger| - 1].user;
      after.issues == t.issues + if BalanceOf(after, owner) > cfg.maxBalanceKobo then {BalanceCapExceeded(owner)}
        else {}
  {}

  /** A refund to a wallet goes through exactly for a positive amount of a known order whose
      customer can have a wallet, and credits that customer. */
  lemma WalletRefunds(t: Tables, orderId: nat, amountKobo: int)
    ensures RefundToWallet(t, orderId, amountKobo).Some? <==>
      amountKobo > 0 && orderId in t.customers
      && (t.customers[orderId] in t.balances || t.customers[orderId] in t.profiles)
    ensures RefundToWallet(t, orderId, amountKobo).Some? ==>
      var after := RefundToWallet(t, orderId, amountKobo).value;
      && after.ledger == t.ledger + [OrderRefund(orderId, t.customers[orderId], amountKobo)]
      && BalanceOf(after, t.customers[orderId]) == BalanceOf(t, t.customers[orderId]) + amountKobo
  {}
}
