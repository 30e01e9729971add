/** The coalescing observer: one snapshot in process, one waiting, and an account of what was dropped or failed. */
module Observer {
  import opened Wrappers

  /** The key a run's account is kept under. */
  type Key = nat

  const ACCOUNTING_LIMIT := 128

  datatype Offer = Offer(key: Key, revision: nat)
  datatype Account = Account(dropped: nat, failures: nat)

  /**
   * Where the running offer is between two awaits: before its account was read, folding what was
   * held then, or done and waiting for its finally handler.
   */
  datatype Phase = Loading | Folding(dropped: nat, failures: nat) | Done

  datatype Error = AccountingLimit

  /** Offers by run: accepted, folded, completed without folding, and drops and failures a fold was given. */
  datatype Books = Books(accepted: multiset<Key>, folded: multiset<Key>, unfolded: multiset<Key>, delivered: multiset<Key>)

  // ---------- conservation ----------

  /** Drops and failures of a run not yet handed to a fold. */
  function Held(accounting: map<Key, Account>, key: Key): nat {
    if key in accounting then accounting[key].dropped + accounting[key].failures else 0
  }

  function Waiting(offer: Option<Offer>, key: Key): nat {
    if offer.Some? && offer.value.key == key then 1 else 0
  }

  /** The running offer, until it is counted elsewhere. */
  function InProcess(running: Option<Offer>, phase: Phase): Option<Offer> {
    if phase == Done then None else running
  }

  /** Every accepted offer of a run is accounted for exactly once. */
  ghost predicate Balanced(b: Books, accounting: map<Key, Account>, process: Option<Offer>, pending: Option<Offer>) {
    forall key :: b.accepted[key] == b.folded[key] + b.unfolded[key] + b.delivered[key] + Held(accounting, key) + Waiting(process, key) + Waiting(pending, key)
  }

  lemma AcceptBalances(b: Books, accounting: map<Key, Account>, process: Option<Offer>, pending: Option<Offer>, offered: Offer, accounting': map<Key, Account>)
    requires Balanced(b, accounting, process, pending)
    requires forall key :: Held(accounting', key) == Held(accounting, key) + Waiting(pending, key)
    ensures Balanced(b.(accepted := b.accepted + multiset{offered.key}), accounting', process, Some(offered))
  {
    hide Held;
  }

  lemma StartBalances(b: Books, accounting: map<Key, Account>, offered: Offer)
    requires Balanced(b, accounting, None, None)
    ensures Balanced(b.(accepted := b.accepted + multiset{offered.key}), accounting, Some(offered), None)
  {
    hide Held;
  }

  lemma FoldBalances(b: Books, accounting: map<Key, Account>, process: Offer, pending: Option<Offer>, amount: nat, accounting': map<Key, Account>)
    requires Balanced(b, accounting, Some(process), pending)
    requires forall key :: Held(accounting, key) == Held(accounting', key) + (if key == process.key then amount else 0)
    ensures Balanced(b.(folded := b.folded + multiset{process.key}, delivered := b.delivered[process.key := b.delivered[process.key] + amount]), accounting', None, pending)
  {
    hide Held;
  }

  lemma SkipBalances(b: Books, accounting: map<Key, Account>, process: Offer, pending: Option<Offer>)
    requires Balanced(b, accounting, Some(process), pending)
    ensures Balanced(b.(unfolded := b.unfolded + multiset{process.key}), accounting, None, pending)
  {
    hide Held;
  }

  lemma HeldBalances(b: Books, accounting: map<Key, Account>, process: Option<Offer>, pending: Option<Offer>,
      accounting': map<Key, Account>, process': Option<Offer>, pending': Option<Offer>)
    requires Balanced(b, accounting, process, pending)
    requires forall key :: Held(accounting', key) + Waiting(process', key) + Waiting(pending', key) == Held(accounting, key) + Waiting(process, key) + Waiting(pending, key)
    ensures Balanced(b, accounting', process', pending')
  {
    hide Held, Waiting;
  }

  // ---------- accounts ----------

  function Adjusted(accounting: map<Key, Account>, key: Key, a: Account): (r: map<Key, Account>)
    requires key in accounting
    ensures r.Keys == accounting.Keys && |r| == |accounting|
    ensures forall k :: Held(r, k) == if k == key then a.dropped + a.failures else Held(accounting, k)
  {
    var r := accounting[key := a];
    assert r.Keys == accounting.Keys;
    r
  }

  /** The account of a key, made when there is room; the limit is on the number of runs. */
  function Required(accounting: map<Key, Account>, key: Key): (r: Result<map<Key, Account>, Error>)
    ensures r.Success? ==> r.value.Keys == accounting.Keys + {key} && (key !in accounting ==> r.value[key] == Account(0, 0)) && |r.value| <= (if |accounting| > ACCOUNTING_LIMIT then |accounting| else ACCOUNTING_LIMIT)
    ensures r.Success? ==> forall k :: Held(r.value, k) == Held(accounting, k)
    ensures r.Success? ==> forall k :: k in accounting ==> r.value[k] == accounting[k]
    ensures r.Success? ==> forall k :: k in r.value && k != key ==> k in accounting
  {
    if key in accounting then Success(accounting)
    else if |accounting| >= ACCOUNTING_LIMIT then Failure(AccountingLimit)
    else Success(accounting[key := Account(0, 0)])
  }

  predicate Uses(running: Option<Offer>, pending: Option<Offer>, key: Key) {
    (running.Some? && running.value.key == key) || (pending.Some? && pending.value.key == key)
  }

  /** Accounts exist for the offers in hand, cover what a fold was given, and are kept only while they are needed. */
  ghost predicate Kept(accounting: map<Key, Account>, running: Option<Offer>, phase: Phase, pending: Option<Offer>) {
    && |accounting| <= ACCOUNTING_LIMIT
    && (running.None? ==> phase == Done && pending == None)
    && (forall key :: Uses(running, pending, key) ==> key in accounting)
    && (running.Some? && phase.Folding? ==>
          phase.dropped <= accounting[running.value.key].dropped && phase.failures <= accounting[running.value.key].failures)
    && (forall key :: key in accounting && accounting[key] == Account(0, 0) ==> Uses(running, pending, key))
  }

  /** The accounts once the waiting offer, if any, is dropped. */
  function Dropped(accounting: map<Key, Account>, pending: Option<Offer>): (r: map<Key, Account>)
    requires pending.Some? ==> pending.value.key in accounting
    ensures forall key :: Held(r, key) == Held(accounting, key) + Waiting(pending, key)
    ensures r.Keys == accounting.Keys
    ensures forall key :: key in r ==> r[key] == Account(accounting[key].dropped + Waiting(pending, key), accounting[key].failures)
  {
    if pending.None? then accounting
    else
      var a := accounting[pending.value.key];
      Adjusted(accounting, pending.value.key, Account(a.dropped + 1, a.failures))
  }

  lemma KeysSize(a: map<Key, Account>, b: map<Key, Account>)
    requires a.Keys == b.Keys
    ensures |a| == |b|
  {
    assert |a| == |a.Keys| && |b| == |b.Keys|;
  }

  lemma OfferKeeps(accounting: map<Key, Account>, running: Option<Offer>, phase: Phase, pending: Option<Offer>, offered: Offer)
    requires Kept(accounting, running, phase, pending) && running.Some? && Required(accounting, offered.key).Success?
    ensures pending.Some? ==> pending.value.key in Required(accounting, offered.key).value
    ensures Kept(Dropped(Required(accounting, offered.key).value, pending), running, phase, Some(offered))
  {
    InHandHaveAccounts(accounting, running, phase, pending);
    var required := Required(accounting, offered.key).value;
    assert |required| <= ACCOUNTING_LIMIT && required.Keys == accounting.Keys + {offered.key};
    OfferedAccounts(accounting, pending, offered.key);
    var after := Dropped(required, pending);
    hide Held, Dropped, Required;
    KeysSize(after, required);
    OfferedKept(accounting, running, phase, pending, offered, after);
  }

  lemma InHandHaveAccounts(accounting: map<Key, Account>, running: Option<Offer>, phase: Phase, pending: Option<Offer>)
    requires Kept(accounting, running, phase, pending)
    ensures running.Some? ==> running.value.key in accounting
    ensures pending.Some? ==> pending.value.key in accounting
  {
    if running.Some? {
      assert Uses(running, pending, running.value.key);
    }
    if pending.Some? {
      assert Uses(running, pending, pending.value.key);
    }
  }

  lemma OfferedKept(before: map<Key, Account>, running: Option<Offer>, phase: Phase, pending: Option<Offer>, offered: Offer, after: map<Key, Account>)
    requires Kept(before, running, phase, pending) && running.Some? && running.value.key in before
    requires Offered(before, pending, offered.key, after) && |after| <= ACCOUNTING_LIMIT
    ensures Kept(after, running, phase, Some(offered))
  {
    hide Held;
    forall k | k in after && after[k] == Account(0, 0) ensures Uses(running, Some(offered), k) {
      if k != offered.key {
        assert before[k] == Account(0, 0);
        assert Uses(running, pending, k);
      }
    }
  }

  /** The accounts after an offer: one more drop for the offer that was waiting, and an account for the new one. */
  ghost predicate Offered(before: map<Key, Account>, pending: Option<Offer>, key: Key, after: map<Key, Account>) {
    && after.Keys == before.Keys + {key}
    && (forall k :: Held(after, k) == Held(before, k) + Waiting(pending, k))
    && (forall k :: k in after ==>
          var was := if k in before then before[k] else Account(0, 0);
          after[k] == Account(was.dropped + Waiting(pending, k), was.failures))
  }

  lemma OfferedAccounts(accounting: map<Key, Account>, pending: Option<Offer>, key: Key)
    requires Required(accounting, key).Success? && (pending.Some? ==> pending.value.key in Required(accounting, key).value)
    ensures Offered(accounting, pending, key, Dropped(Required(accounting, key).value, pending))
  {
    hide Held, Waiting, Required, Dropped;
  }

  lemma OfferedHolds(before: map<Key, Account>, pending: Option<Offer>, key: Key, after: map<Key, Account>)
    requires Offered(before, pending, key, after)
    ensures forall k :: Held(after, k) == Held(before, k) + Waiting(pending, k)
  {
  }

  lemma NothingDropped(accounting: map<Key, Account>)
    ensures Dropped(accounting, None) == accounting
  {
  }

  lemma StartKeeps(accounting: map<Key, Account>, offered: Offer)
    requires Kept(accounting, None, Done, None) && Required(accounting, offered.key).Success?
    ensures Kept(Required(accounting, offered.key).value, Some(offered), Loading, None)
  {
    hide Held;
  }

  /** What is left once the finished offer's account, when empty and unused, is let go. */
  function Released(accounting: map<Key, Account>, finished: Key, running: Option<Offer>): (r: map<Key, Account>)
    requires finished in accounting
    ensures forall key :: Held(r, key) == Held(accounting, key)
  {
    if accounting[finished] == Account(0, 0) && !Uses(running, None, finished) then accounting - {finished} else accounting
  }

  lemma ReleaseKeeps(accounting: map<Key, Account>, finished: Offer, pending: Option<Offer>)
    requires Kept(accounting, Some(finished), Done, pending)
    ensures finished.key in accounting
    ensures Kept(Released(accounting, finished.key, pending), pending, if pending.Some? then Loading else Done, None)
  {
    hide Held;
    assert Uses(Some(finished), pending, finished.key);
    var r := Released(accounting, finished.key, pending);
    if r != accounting {
      assert accounting.Keys == r.Keys + {finished.key};
    }
    forall key | Uses(pending, None, key) ensures key in r {
      assert Uses(Some(finished), pending, key);
    }
    forall key | key in r && r[key] == Account(0, 0) ensures Uses(pending, None, key) {
      assert Uses(Some(finished), pending, key);
    }
  }

  // ---------- the newest offer ----------

  /** The latest offer is the one waiting, or else the one last started: only superseded offers are dropped. */
  ghost predicate LatestSurvives(offers: seq<Offer>, started: seq<Offer>, running: Option<Offer>, pending: Option<Offer>) {
    && (pending.Some? ==> offers != [] && offers[|offers| - 1] == pending.value)
    && (pending.None? && offers != [] ==> started != [] && started[|started| - 1] == offers[|offers| - 1])
    && (running.Some? ==> started != [] && started[|started| - 1] == running.value)
  }

  class RunEvaluationObserver {
    var accounting: map<Key, Account>
    var running: Option<Offer>
    var phase: Phase
    var pending: Option<Offer>

    ghost var books: Books
    ghost var offers: seq<Offer>
    ghost var started: seq<Offer>

    constructor ()
      ensures Valid() && running == None && pending == None && books == Books(multiset{}, multiset{}, multiset{}, multiset{})
    {
      accounting, running, phase, pending := map[], None, Done, None;
      books := Books(multiset{}, multiset{}, multiset{}, multiset{});
      offers, started := [], [];
    }

    ghost predicate Valid()
      reads this
    {
      && Balanced(books, accounting, InProcess(running, phase), pending)
      && Kept(accounting, running, phase, pending)
      && LatestSurvives(offers, started, running, pending)
    }

    /** An offer replaces the waiting one, which counts as dropped; it is refused only when a new run's account does not fit. */
    method OfferCommittedSnapshot(offered: Offer) returns (r: Result<(), Error>)
      requires Valid()
      modifies this
      ensures Valid()
      ensures r.Failure? <==> offered.key !in old(accounting) && |old(accounting)| >= 128
      ensures r.Failure? ==> books == old(books) && offers == old(offers) && running == old(running) && phase == old(phase) && pending == old(pending) && accounting == old(accounting)
      ensures r.Success? ==> books == old(books).(accepted := old(books).accepted + multiset{offered.key}) && offers == old(offers) + [offered]
      ensures r.Success? && old(running).Some? ==> running == old(running) && phase == old(phase) && pending == Some(offered)
      ensures r.Success? && old(running).None? ==> running == Some(offered) && phase == Loading && pending == None
      ensures r.Success? ==> Offered(old(accounting), old(pending), offered.key, accounting)
    {
      hide Balanced, Held, Waiting, Kept, Dropped, Offered;
      var required := Required(accounting, offered.key);
      if required.Failure? {
        return Failure(AccountingLimit);
      }
      if running.Some? {
        OfferKeeps(accounting, running, phase, pending, offered);
        ghost var before := accounting;
        OfferedAccounts(accounting, pending, offered.key);
        accounting := Dropped(required.value, pending);
        OfferedHolds(before, pending, offered.key, accounting);
        AcceptBalances(books, before, InProcess(running, phase), pending, offered, accounting);
        pending := Some(offered);
      } else {
        IdleIs(accounting, phase, pending);
        StartKeeps(accounting, offered);
        OfferedAccounts(accounting, None, offered.key);
        NothingDropped(required.value);
        HeldBalances(books, accounting, None, None, required.value, None, None);
        accounting := required.value;
        StartBalances(books, accounting, offered);
        running, phase := Some(offered), Loading;
        started := started + [offered];
      }
      books := books.(accepted := books.accepted + multiset{offered.key});
      offers := offers + [offered];
      return Success(());
    }

    lemma IdleIs(accounting: map<Key, Account>, phase: Phase, pending: Option<Offer>)
      requires Kept(accounting, None, phase, pending)
      ensures phase == Done && pending == None
    {
    }

    lemma HeldIs(accounting: map<Key, Account>, key: Key)
      requires key in accounting
      ensures Held(accounting, key) == accounting[key].dropped + accounting[key].failures
    {
    }

    /** The observation is loaded; the fold is called with what the account holds now. */
    method BeginFold() returns (droppedBefore: nat, failuresBefore: nat)
      requires Valid() && running.Some? && phase == Loading
      modifies this`phase
      ensures Valid() && phase == Folding(droppedBefore, failuresBefore)
      ensures running.value.key in accounting && accounting[running.value.key] == Account(droppedBefore, failuresBefore)
    {
      hide Balanced;
      var a := accounting[running.value.key];
      droppedBefore, failuresBefore := a.dropped, a.failures;
      phase := Folding(a.dropped, a.failures);
    }

    /** The fold returns. What it was given leaves the account only when it folded; drops counted meanwhile stay. */
    method EndFold(didFold: bool)
      requires Valid() && running.Some? && phase.Folding?
      modifies this`accounting, this`phase, this`books
      ensures Valid() && phase == Done
      ensures didFold ==>
                var key, given := running.value.key, old(phase).dropped + old(phase).failures;
                && books == old(books).(folded := old(books).folded + multiset{key}, delivered := old(books).delivered[key := old(books).delivered[key] + given])
                && forall k :: Held(accounting, k) == old(Held(accounting, k)) - (if k == key then given else 0)
      ensures didFold ==>
                var a := old(accounting)[running.value.key];
                && old(phase).dropped <= a.dropped && old(phase).failures <= a.failures
                && accounting == old(accounting)[running.value.key := Account(a.dropped - old(phase).dropped, a.failures - old(phase).failures)]
      ensures !didFold ==> books == old(books).(unfolded := old(books).unfolded + multiset{running.value.key}) && accounting == old(accounting)
    {
      hide Balanced, Held, LatestSurvives;
      var key := running.value.key;
      ghost var before := accounting;
      if didFold {
        var a := accounting[key];
        HeldIs(accounting, key);
        accounting := Adjusted(accounting, key, Account(a.dropped - phase.dropped, a.failures - phase.failures));
        FoldBalances(books, before, running.value, pending, phase.dropped + phase.failures, accounting);
        books := books.(folded := books.folded + multiset{key}, delivered := books.delivered[key := books.delivered[key] + phase.dropped + phase.failures]);
      } else {
        SkipBalances(books, accounting, running.value, pending);
        books := books.(unfolded := books.unfolded + multiset{key});
      }
      phase := Done;
    }

    /** Anything thrown on the way counts as one failure of the run. */
    method Fail()
      requires Valid() && running.Some? && phase != Done
      modifies this`accounting, this`phase
      ensures Valid() && phase == Done
      ensures forall k :: Held(accounting, k) == old(Held(accounting, k)) + (if k == running.value.key then 1 else 0)
      ensures var a := old(accounting)[running.value.key]; accounting == old(accounting)[running.value.key := Account(a.dropped, a.failures + 1)]
    {
      hide Balanced, Held, LatestSurvives;
      var a := accounting[running.value.key];
      HeldIs(accounting, running.value.key);
      ghost var before := accounting;
      accounting := Adjusted(accounting, running.value.key, Account(a.dropped, a.failures + 1));
      HeldBalances(books, before, running, pending, accounting, None, pending);
      phase := Done;
    }

    /** The finally handler: starts the waiting offer, and lets go of an account that is empty. */
    method Finish()
      requires Valid() && running.Some? && phase == Done
      modifies this`accounting, this`running, this`phase, this`pending, this`started
      ensures Valid() && running == old(pending) && pending == None
      ensures running.Some? ==> phase == Loading
      ensures forall key :: Held(accounting, key) == old(Held(accounting, key))
      ensures forall key :: key in accounting <==>
                key in old(accounting) && !(key == old(running).value.key && old(accounting)[key] == Account(0, 0) && Waiting(running, key) == 0)
      ensures forall key :: key in accounting ==> accounting[key] == old(accounting)[key]
    {
      hide Balanced, Held, Kept;
      var finished := running.value;
      ReleaseKeeps(accounting, finished, pending);
      HeldBalances(books, accounting, None, pending, Released(accounting, finished.key, pending), pending, None);
      running := pending;
      pending := None;
      if running.Some? {
        phase := Loading;
        started := started + [running.value];
      }
      accounting := Released(accounting, finished.key, running);
    }

    /** When nothing runs, every accepted offer was folded, completed without folding, delivered or is held, and the latest was started. */
    lemma Quiescent(key: Key)
      requires Valid() && running == None
      ensures books.accepted[key] == books.folded[key] + books.unfolded[key] + books.delivered[key] + Held(accounting, key)
      ensures offers != [] ==> started != [] && started[|started| - 1] == offers[|offers| - 1]
    {
      hide Held;
    }
  }
}
