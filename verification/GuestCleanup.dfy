/**
 * The retention run: a backfill of missing dates and a deletion of due contacts, each a keyset loop over
 * batches. Rows locked by somebody else are skipped, and anything may be committed between two batches.
 */
module GuestCleanup {
  import opened Counting
  import opened Wrappers
  import opened GuestModel
  import opened GuestInvariant
  import opened GuestSteps
  import opened GuestUpkeep
  import opened GuestDb
  import opened GuestGaps
  import D = GuestDates

  const BATCH_SIZE: nat := 200

  // ----- what a run means -----

  /** The tables after the dates of `filled` were backfilled and the due contacts among `visited` deleted. */
  ghost function Swept(w: World, now: Time, filled: set<Id>, visited: set<Id>): World {
    Cleaned(Backfilled(w, filled), now, visited)
  }

  /** A date the rules give contact `c` that has already passed. */
  ghost predicate Expired(w: World, now: Time, c: Id)
    requires c in w.contacts
  {
    exists at: Time :: IsRetention(w, c, Some(at)) && at <= now
  }

  /** The rules give a date exactly to the contacts without an active loan. */
  lemma DatedUnlessActive(w: World, c: Id, r: Option<Time>)
    requires LoansOk(w) && c in w.contacts && IsRetention(w, c, r)
    ensures r.None? <==> HasActiveLoan(w, c)
  {
    if HasActiveLoan(w, c) {
      var l :| l in w.loans && w.loans[l].borrower == Borrower.Guest(Some(c)) && Exclusive(w.loans[l].status);
      assert l in ContactLoans(w, c);
    }
  }

  /** Backfilling moves no loan and no event, so it moves no date either. */
  lemma BackfillMovesNoDate(w: World, filled: set<Id>, c: Id, r: Option<Time>)
    requires c in w.contacts
    ensures IsRetention(Backfilled(w, filled), c, r) <==> IsRetention(w, c, r)
    ensures HasActiveLoan(Backfilled(w, filled), c) == HasActiveLoan(w, c)
  {
    var v := Backfilled(w, filled);
    assert ContactLoans(v, c) == ContactLoans(w, c);
    if IsRetention(w, c, r) {
      RetentionFrame(w, v, c, r);
    }
    if IsRetention(v, c, r) {
      RetentionFrame(v, w, c, r);
    }
  }

  /** A contact with a date, or with a backfilled one, is due exactly when the rules say it has expired. */
  lemma DueMeansExpired(w: World, now: Time, filled: set<Id>, c: Id)
    requires LoansOk(w) && LogOk(w) && c in w.contacts
    requires w.contacts[c].retainUntil.None? || IsRetention(w, c, w.contacts[c].retainUntil)
    ensures Due(Backfilled(w, filled), now, c)
            <==> (w.contacts[c].retainUntil.Some? || c in filled) && Expired(w, now, c)
  {
    var v := Backfilled(w, filled);
    var r := v.contacts[c].retainUntil;
    RetentionExists(w, c);
    BackfillMovesNoDate(w, filled, c, r);
    if w.contacts[c].retainUntil.Some? || c in filled {
      assert IsRetention(w, c, r);
      DatedUnlessActive(w, c, r);
      if Expired(w, now, c) {
        var at: Time :| IsRetention(w, c, Some(at)) && at <= now;
        RetentionUnique(w, c, Some(at), r);
      }
    }
  }

  /**
   * Exactly who survives: everyone but the visited contacts that have a date by the rules, and that date
   * has passed. In particular nobody with an active loan and nobody whose window is still running goes.
   */
  lemma SweepDeletesExactly(w: World, now: Time, filled: set<Id>, visited: set<Id>, c: Id)
    requires Core(w) && CacheSound(w) && c in w.contacts
    ensures c !in Swept(w, now, filled, visited).contacts
            <==> c in visited && (w.contacts[c].retainUntil.Some? || c in filled) && Expired(w, now, c)
    ensures c !in Swept(w, now, filled, visited).contacts ==> !HasActiveLoan(w, c)
  {
    hide CopiesOk, ConfsOk, NoticesOk, ContactsOk, LoanOk, IsRetention;
    DueMeansExpired(w, now, filled, c);
    BackfillMovesNoDate(w, filled, c, None);
  }

  /**
   * A contact whose date has passed: no loan of it occupies a copy, and the window of every one is over, told by columns
   * and log alone; without a loan, 90 days have passed since its creation.
   */
  lemma ExpiredMeansNothingRuns(w: World, now: Time, c: Id)
    requires Core(w) && c in w.contacts && Expired(w, now, c)
    ensures forall l | D.IsLoanOf(w, l, c) ::
              !D.Occupies(w.loans[l].status) && exists t: Time :: D.KeepsUntil(w, l, t) && t <= now
    ensures (forall l :: !D.IsLoanOf(w, l, c)) ==> w.contacts[c].createdAt + 90 * 24 * 3_600_000 <= now
  {
    hide LoanOk, CopiesOk, ConfsOk, NoticesOk, ContactsOk, LogOk, IsRetention, D.KeepsUntil;
    var at: Time :| IsRetention(w, c, Some(at)) && at <= now;
    D.RetentionInColumns(w, c, Some(at));
  }

  /** After an undisturbed run nobody is due, and only contacts with an active loan lack a date. */
  lemma SweepLeavesNothingDue(w: World, now: Time, c: Id)
    requires Core(w) && CacheSound(w)
    requires c in Swept(w, now, w.contacts.Keys, w.contacts.Keys).contacts
    ensures
      var v := Swept(w, now, w.contacts.Keys, w.contacts.Keys);
      && !Due(v, now, c)
      && (v.contacts[c].retainUntil.None? <==> HasActiveLoan(v, c))
      && IsRetention(v, c, v.contacts[c].retainUntil)
  {
    var all := w.contacts.Keys;
    var u := Backfilled(w, all);
    var gone := set k | k in all && Due(u, now, k);
    FilledDate(w, all, c);
    BackfilledKeeps(w, all);
    ErasedDate(u, gone, c, u.contacts[c].retainUntil);
    CleanedLoansOk(u, now, all);
    DatedUnlessActive(Swept(w, now, all, all), c, u.contacts[c].retainUntil);
  }

  lemma CleanedLoansOk(w: World, now: Time, batch: set<Id>)
    requires Core(w)
    ensures LoansOk(Cleaned(w, now, batch))
  {
    hide LoansOk, CopiesOk, ConfsOk, NoticesOk, ContactsOk, LogOk;
    CleanedKeeps(w, now, batch);
  }

  lemma FilledDate(w: World, filled: set<Id>, c: Id)
    requires Core(w) && CacheSound(w) && c in w.contacts && c in filled
    ensures IsRetention(Backfilled(w, filled), c, Backfilled(w, filled).contacts[c].retainUntil)
  {
    hide LoanOk, CopiesOk, ConfsOk, NoticesOk, ContactsOk, IsRetention;
    BackfilledDate(w, filled, c);
  }

  // ----- batches add up -----

  lemma BackfilledTwice(w: World, a: set<Id>, b: set<Id>)
    requires LoansOk(w) && LogOk(w)
    ensures Backfilled(Backfilled(w, a), b) == Backfilled(w, a + b)
  {
    var u := Backfilled(w, a);
    forall c | c in w.contacts
      ensures RetentionOf(u, c) == RetentionOf(w, c)
    {
      RetentionExists(w, c);
      BackfillMovesNoDate(w, a, c, RetentionOf(w, c));
      assert IsRetention(u, c, RetentionOf(u, c));
      RetentionUnique(u, c, RetentionOf(u, c), RetentionOf(w, c));
    }
    assert Backfilled(u, b).contacts == Backfilled(w, a + b).contacts;
  }

  lemma ErasedTwice(w: World, a: set<Id>, b: set<Id>)
    ensures Erased(Erased(w, a), b) == Erased(w, a + b)
  {
    var twice, once := Erased(Erased(w, a), b), Erased(w, a + b);
    assert twice.contacts == once.contacts;
    assert twice.copies == once.copies;
    assert twice.loans == once.loans;
    assert twice.confs == once.confs;
  }

  lemma CleanedTwice(w: World, now: Time, a: set<Id>, b: set<Id>)
    ensures Cleaned(Cleaned(w, now, a), now, b) == Cleaned(w, now, a + b)
  {
    var gone := set c | c in a && Due(w, now, c);
    var more := set c | c in b && Due(Cleaned(w, now, a), now, c);
    forall c | c in w.contacts && c !in gone
      ensures Due(Erased(w, gone), now, c) == Due(w, now, c)
    {
      ErasedDate(w, gone, c, None);
    }
    assert gone + more == set c | c in a + b && Due(w, now, c);
    ErasedTwice(w, gone, more);
  }

  /** Where every date is exact and nobody is due, a run finds nothing to do. */
  lemma NothingToSweep(v: World, now: Time)
    requires forall c | c in v.contacts :: IsRetention(v, c, v.contacts[c].retainUntil) && !Due(v, now, c)
    ensures Swept(v, now, v.contacts.Keys, v.contacts.Keys) == v
  {
    var all := v.contacts.Keys;
    forall c | c in all
      ensures Backfilled(v, all).contacts[c] == v.contacts[c]
    {
      assert IsRetention(v, c, RetentionOf(v, c));
      RetentionUnique(v, c, v.contacts[c].retainUntil, RetentionOf(v, c));
    }
    assert Backfilled(v, all).contacts == v.contacts;
    assert Backfilled(v, all) == v;
    ErasingNobody(v, set c | c in all && Due(v, now, c));
  }

  /** A second undisturbed run at the same time changes nothing. */
  lemma SweptTwice(w: World, now: Time)
    requires Core(w) && CacheSound(w)
    ensures
      var all := w.contacts.Keys;
      var v := Swept(w, now, all, all);
      Swept(v, now, v.contacts.Keys, v.contacts.Keys) == v
  {
    hide Core, CacheSound, Swept, IsRetention, Due;
    var all := w.contacts.Keys;
    var v := Swept(w, now, all, all);
    forall c | c in v.contacts
      ensures IsRetention(v, c, v.contacts[c].retainUntil) && !Due(v, now, c)
    {
      SweepLeavesNothingDue(w, now, c);
    }
    NothingToSweep(v, now);
  }

  lemma ErasingNobody(w: World, none: set<Id>)
    requires none == {}
    ensures Erased(w, none) == w
  {
    var v := Erased(w, none);
    assert v.contacts == w.contacts && v.copies == w.copies && v.loans == w.loans && v.confs == w.confs;
  }

  // ----- one batch: ORDER BY id, LIMIT 200 -----

  /** `ids` are the first at most `BATCH_SIZE` members of `from`, in order. */
  predicate IsBatch(from: set<Id>, ids: seq<Id>) {
    && Ascending(ids)
    && (forall i | 0 <= i < |ids| :: ids[i] in from)
    && |ids| <= BATCH_SIZE
    && (forall c | c in from :: c in ids || (|ids| == BATCH_SIZE && ids[|ids| - 1] < c))
  }

  lemma BatchIsFirst(from: set<Id>)
    ensures IsBatch(from, FirstOf(from, BATCH_SIZE))
  {
    var ids := FirstOf(from, BATCH_SIZE);
    forall c | c in from
      ensures c in ids || (|ids| == BATCH_SIZE && ids[|ids| - 1] < c)
    {
      FirstOfIsFirst(from, BATCH_SIZE, c);
    }
    assert forall i | 0 <= i < |ids| :: ids[i] in Listed(from);
  }

  function Ids(batch: seq<Id>): set<Id> {
    set c | c in batch
  }

  lemma {:induction false} IdsCounted(batch: seq<Id>)
    requires Ascending(batch)
    ensures |Ids(batch)| == |batch|
  {
    if |batch| > 0 {
      var init, last := batch[..|batch| - 1], batch[|batch| - 1];
      IdsCounted(init);
      assert Ids(batch) == Ids(init) + {last};
    }
  }

  lemma IdsExtended(batch: seq<Id>, i: nat)
    requires i < |batch| && Ascending(batch)
    ensures Ids(batch[..i + 1]) == Ids(batch[..i]) + {batch[i]} && batch[i] !in Ids(batch[..i])
  {
    assert batch[..i + 1] == batch[..i] + [batch[i]];
  }

  lemma NoIds(batch: seq<Id>)
    ensures Ids(batch[..0]) == {}
  {
  }

  lemma BackfilledKeepsCore(w: World, batch: set<Id>)
    requires Core(w)
    ensures Core(Backfilled(w, batch))
  {
    hide LoansOk, CopiesOk, ConfsOk, NoticesOk, ContactsOk, LogOk;
    ContactEditsKeepCore(w, Backfilled(w, batch));
  }

  /** Recomputing one missing date is a backfill of one. */
  lemma RecachedIsBackfill(w: World, done: set<Id>, c: Id)
    requires Core(w) && c in w.contacts && w.contacts[c].retainUntil.None? && c !in done
    ensures Recached(Backfilled(w, done), c) == Backfilled(w, done + {c})
  {
    hide LoanOk, CopiesOk, ConfsOk, NoticesOk, ContactsOk, IsRetention, RetentionOf;
    var u := Backfilled(w, done);
    assert Recached(u, c).contacts == Backfilled(u, {c}).contacts;
    BackfilledTwice(w, done, {c});
  }

  lemma NothingBackfilled(w: World)
    ensures Backfilled(w, {}) == w
  {
    assert Backfilled(w, {}).contacts == w.contacts;
  }

  // ----- the keyset loop of both phases, batch by batch -----

  datatype Phase = Backfilling | Cleaning(now: Time)

  /** The ids that other transactions hold locked when the `n`-th batch is selected. */
  type Locks = nat -> set<Id>

  /** What the transactions that commit before the `n`-th batch make of the tables. */
  type Others = (nat, World) -> World

  /** Others change the tables by their transactions and by nothing else. */
  ghost predicate Honest(others: Others) {
    forall n, w :: exists steps :: others(n, w) == After(w, steps)
  }

  /** The contacts whose stored date has passed. */
  function Passed(w: World, now: Time): set<Id> {
    set c | c in w.contacts && w.contacts[c].retainUntil.Some? && w.contacts[c].retainUntil.value <= now
  }

  function Wanted(phase: Phase, w: World): set<Id> {
    match phase
    case Backfilling => set c | c in w.contacts && w.contacts[c].retainUntil.None?
    case Cleaning(now) => Passed(w, now)
  }

  ghost function Worked(phase: Phase, w: World, batch: set<Id>): World {
    match phase
    case Backfilling => Backfilled(w, batch)
    case Cleaning(now) => Cleaned(w, now, batch)
  }

  /** What a batch adds to the count that the phase returns. */
  function Hits(phase: Phase, w: World, batch: seq<Id>): nat {
    match phase
    case Backfilling => |batch|
    case Cleaning(now) => |set c | c in Ids(batch) && Due(w, now, c)|
  }

  predicate Beyond(cursor: Option<Id>, c: Id) {
    cursor.None? || cursor.value < c
  }

  function Selected(phase: Phase, w: World, cursor: Option<Id>, held: set<Id>): seq<Id> {
    FirstOf((set c | c in Wanted(phase, w) && Beyond(cursor, c) && c !in held), BATCH_SIZE)
  }

  /** `seen` are the ids selected so far, in the order in which they were. */
  datatype Progress = Progress(world: World, cursor: Option<Id>, running: bool, seen: seq<Id>, total: nat)

  ghost function NextBatch(phase: Phase, p: Progress, w: World, held: set<Id>): Progress {
    var batch := Selected(phase, w, p.cursor, held);
    var full := |batch| == BATCH_SIZE;
    Progress(Worked(phase, w, Ids(batch)), if full then Some(batch[BATCH_SIZE - 1]) else p.cursor, full,
             p.seen + batch, p.total + Hits(phase, w, batch))
  }

  ghost function Batches(w: World, phase: Phase, others: Others, locked: Locks, n: nat): Progress {
    if n == 0 then Progress(w, None, true, [], 0)
    else
      var p := Batches(w, phase, others, locked, n - 1);
      if p.running then NextBatch(phase, p, others(n - 1, p.world), locked(n - 1)) else p
  }

  lemma OneMoreBatch(w: World, phase: Phase, others: Others, locked: Locks, n: nat)
    requires Batches(w, phase, others, locked, n).running
    ensures
      var p := Batches(w, phase, others, locked, n);
      Batches(w, phase, others, locked, n + 1) == NextBatch(phase, p, others(n, p.world), locked(n))
  {
  }

  lemma NothingYet(w: World, phase: Phase, others: Others, locked: Locks)
    ensures Batches(w, phase, others, locked, 0) == Progress(w, None, true, [], 0)
  {
  }

  lemma {:induction false} PhaseStaysOver(w: World, phase: Phase, others: Others, locked: Locks, n: nat, m: nat)
    requires n <= m && (n == m || !Batches(w, phase, others, locked, n).running)
    ensures Batches(w, phase, others, locked, m) == Batches(w, phase, others, locked, n)
  {
    if n < m {
      PhaseStaysOver(w, phase, others, locked, n, m - 1);
    }
  }

  /** The tables as the `n`-th batch finds them. */
  ghost function Found(w: World, phase: Phase, others: Others, locked: Locks, n: nat): World {
    others(n, Batches(w, phase, others, locked, n).world)
  }

  // ----- nobody is visited twice, nobody who stays is missed, whatever others do -----

  /** The cursor stands at the last id seen. */
  predicate AtCursor(p: Progress) {
    Ascending(p.seen) && (p.running ==> if p.seen == [] then p.cursor.None? else p.cursor == Some(p.seen[|p.seen| - 1]))
  }

  lemma SelectedIsBatch(phase: Phase, w: World, cursor: Option<Id>, held: set<Id>)
    ensures
      var batch := Selected(phase, w, cursor, held);
      && Ascending(batch) && |batch| <= BATCH_SIZE
      && (forall i | 0 <= i < |batch| :: batch[i] in Wanted(phase, w) && Beyond(cursor, batch[i]) && batch[i] !in held)
      && (forall c | c in Wanted(phase, w) && Beyond(cursor, c) && c !in held ::
            c in batch || (|batch| == BATCH_SIZE && batch[|batch| - 1] < c))
  {
    BatchIsFirst(set c | c in Wanted(phase, w) && Beyond(cursor, c) && c !in held);
  }

  lemma NextBatchIsNew(phase: Phase, p: Progress, w: World, held: set<Id>)
    requires AtCursor(p) && p.running
    ensures AtCursor(NextBatch(phase, p, w, held))
    ensures NextBatch(phase, p, w, held).running ==> |NextBatch(phase, p, w, held).seen| == |p.seen| + BATCH_SIZE
  {
    hide Selected;
    SelectedIsBatch(phase, w, p.cursor, held);
    var batch := Selected(phase, w, p.cursor, held);
    var seen := p.seen + batch;
    forall i, j | 0 <= i < j < |seen|
      ensures seen[i] < seen[j]
    {
      if i < |p.seen| <= j {
        assert Beyond(p.cursor, batch[j - |p.seen|]) && p.seen[i] <= p.seen[|p.seen| - 1];
      }
    }
  }

  /** Each id is selected at most once, and all batches but the last are full. */
  lemma {:induction false} VisitedOnce(w: World, phase: Phase, others: Others, locked: Locks, n: nat)
    ensures AtCursor(Batches(w, phase, others, locked, n))
    ensures Batches(w, phase, others, locked, n).running ==> |Batches(w, phase, others, locked, n).seen| == n * 200
  {
    if n > 0 {
      VisitedOnce(w, phase, others, locked, n - 1);
      var p := Batches(w, phase, others, locked, n - 1);
      if p.running {
        NextBatchIsNew(phase, p, others(n - 1, p.world), locked(n - 1));
      }
    }
  }

  /** Whenever a batch was selected, `c` was wanted and free, or had been visited before. */
  ghost predicate Steady(w: World, phase: Phase, others: Others, locked: Locks, n: nat, c: Id) {
    forall k: nat | k < n ::
      || c in Batches(w, phase, others, locked, k).seen
      || (c in Wanted(phase, Found(w, phase, others, locked, k)) && c !in locked(k))
  }

  lemma NextBatchSees(phase: Phase, p: Progress, w: World, held: set<Id>, c: Id)
    requires c in p.seen || (c in Wanted(phase, w) && Beyond(p.cursor, c) && c !in held)
    ensures
      var q := NextBatch(phase, p, w, held);
      c in q.seen || (q.running && Beyond(q.cursor, c))
  {
    hide Selected;
    SelectedIsBatch(phase, w, p.cursor, held);
  }

  /** A contact that stayed wanted and free has been visited when the phase is over. */
  lemma {:induction false} SteadyIsVisited(w: World, phase: Phase, others: Others, locked: Locks, n: nat, c: Id)
    requires Steady(w, phase, others, locked, n, c)
    ensures
      var p := Batches(w, phase, others, locked, n);
      c in p.seen || (p.running && Beyond(p.cursor, c))
  {
    hide Wanted, NextBatch;
    if n > 0 {
      var p := Batches(w, phase, others, locked, n - 1);
      assert Steady(w, phase, others, locked, n - 1, c);
      SteadyIsVisited(w, phase, others, locked, n - 1, c);
      if p.running {
        NextBatchSees(phase, p, others(n - 1, p.world), locked(n - 1), c);
      }
    }
  }

  // ----- what each batch does to the tables it finds -----

  lemma SoundIsCore(w: World)
    requires Sound(w)
    ensures Core(w) && LoansOk(w) && LogOk(w)
  {
  }

  lemma WorkedKeepsSound(phase: Phase, w: World, batch: set<Id>)
    requires Sound(w)
    ensures Sound(Worked(phase, w, batch))
  {
    match phase {
      case Backfilling => BackfillKeepsSound(w, batch);
      case Cleaning(now) => CleanupKeepsSound(w, now, batch);
    }
  }

  lemma OthersKeepSound(others: Others, n: nat, w: World)
    requires Honest(others) && Sound(w)
    ensures Sound(others(n, w))
  {
    var steps :| others(n, w) == After(w, steps);
    AfterIsSound(w, steps);
  }

  /** The rules of the tables hold before and after every batch. */
  lemma {:induction false} BatchesKeepSound(w: World, phase: Phase, others: Others, locked: Locks, n: nat)
    requires Sound(w) && Honest(others)
    ensures Sound(Batches(w, phase, others, locked, n).world) && Sound(Found(w, phase, others, locked, n))
  {
    hide Sound, Honest, Worked;
    if n > 0 {
      var p := Batches(w, phase, others, locked, n - 1);
      BatchesKeepSound(w, phase, others, locked, n - 1);
      WorkedKeepsSound(phase, others(n - 1, p.world), Ids(Selected(phase, others(n - 1, p.world), p.cursor, locked(n - 1))));
    }
    OthersKeepSound(others, n, Batches(w, phase, others, locked, n).world);
  }

  /** On sound tables a passed date is the date of the rules, so all that was selected may go. */
  lemma PassedIsDue(w: World, now: Time, c: Id)
    requires Sound(w) && c in Passed(w, now)
    ensures Due(w, now, c) && Expired(w, now, c)
  {
    DatedUnlessActive(w, c, w.contacts[c].retainUntil);
  }

  lemma AllSelectedAreDue(w: World, now: Time, batch: seq<Id>)
    requires Sound(w) && Ascending(batch) && forall i | 0 <= i < |batch| :: batch[i] in Passed(w, now)
    ensures (set c | c in Ids(batch) && Due(w, now, c)) == Ids(batch) && Hits(Cleaning(now), w, batch) == |batch|
  {
    hide Sound, Due, Expired;
    forall c | c in batch
      ensures Due(w, now, c)
    {
      PassedIsDue(w, now, c);
    }
    IdsCounted(batch);
  }

  /**
   * Whatever others committed before it: a cleanup batch deletes exactly what it selected; each of them has
   * then a date by the rules that has passed, no active loan, and no loan that asks for more.
   */
  lemma CleanupBatchDeletes(w: World, now: Time, others: Others, locked: Locks, n: nat, c: Id)
    requires Sound(w) && Honest(others) && Batches(w, Cleaning(now), others, locked, n).running
    requires c in Found(w, Cleaning(now), others, locked, n).contacts
    ensures
      var found := Found(w, Cleaning(now), others, locked, n);
      var p, q := Batches(w, Cleaning(now), others, locked, n), Batches(w, Cleaning(now), others, locked, n + 1);
      && (c !in q.world.contacts <==> c in q.seen[|p.seen|..])
      && (c !in q.world.contacts ==>
            found.contacts[c].retainUntil.Some? && found.contacts[c].retainUntil.value <= now && c !in locked(n))
      && (c !in q.world.contacts ==> Expired(found, now, c) && !HasActiveLoan(found, c))
  {
    var phase := Cleaning(now);
    var p, found := Batches(w, phase, others, locked, n), Found(w, phase, others, locked, n);
    var batch := Selected(phase, found, p.cursor, locked(n));
    BatchesKeepSound(w, phase, others, locked, n);
    SelectedIsBatch(phase, found, p.cursor, locked(n));
    AllSelectedAreDue(found, now, batch);
    assert (p.seen + batch)[|p.seen|..] == batch;
    if c in batch {
      PassedIsDue(found, now, c);
    }
  }

  /** A backfill batch gives exactly the contacts it selected the date of the rules, and moves nothing else. */
  lemma BackfillBatchFills(w: World, others: Others, locked: Locks, n: nat, c: Id)
    requires Sound(w) && Honest(others) && Batches(w, Backfilling, others, locked, n).running
    requires c in Found(w, Backfilling, others, locked, n).contacts
    ensures
      var found := Found(w, Backfilling, others, locked, n);
      var p, q := Batches(w, Backfilling, others, locked, n), Batches(w, Backfilling, others, locked, n + 1);
      && q.world == found.(contacts := q.world.contacts) && q.world.contacts.Keys == found.contacts.Keys
      && (c in q.seen[|p.seen|..] ==> found.contacts[c].retainUntil.None? && c !in locked(n))
      && (c in q.seen[|p.seen|..] ==> IsRetention(q.world, c, q.world.contacts[c].retainUntil))
      && (c !in q.seen[|p.seen|..] ==> q.world.contacts[c] == found.contacts[c])
  {
    var p, found := Batches(w, Backfilling, others, locked, n), Found(w, Backfilling, others, locked, n);
    var batch := Selected(Backfilling, found, p.cursor, locked(n));
    BatchesKeepSound(w, Backfilling, others, locked, n);
    SelectedIsBatch(Backfilling, found, p.cursor, locked(n));
    assert (p.seen + batch)[|p.seen|..] == batch;
    if c in batch {
      FilledDate(found, Ids(batch), c);
    }
  }

  /** The count a phase returns is the number of contacts it visited. */
  lemma {:induction false} TotalCountsVisits(w: World, phase: Phase, others: Others, locked: Locks, n: nat)
    requires Sound(w) && Honest(others)
    ensures Batches(w, phase, others, locked, n).total == |Batches(w, phase, others, locked, n).seen|
  {
    hide Sound, Honest, Worked, Selected;
    if n > 0 {
      var p := Batches(w, phase, others, locked, n - 1);
      var found := Found(w, phase, others, locked, n - 1);
      TotalCountsVisits(w, phase, others, locked, n - 1);
      BatchesKeepSound(w, phase, others, locked, n - 1);
      SelectedIsBatch(phase, found, p.cursor, locked(n - 1));
      if phase.Cleaning? {
        AllSelectedAreDue(found, phase.now, Selected(phase, found, p.cursor, locked(n - 1)));
      }
    }
  }

  // ----- an undisturbed run -----

  const QUIET: Others := (n, w) => w
  const FREE: Locks := n => {}

  /** Nobody ahead of the cursor has been touched. */
  lemma AheadIsUntouched(w: World, phase: Phase, seen: set<Id>, c: Id)
    requires c !in seen
    ensures c in w.contacts ==> c in Worked(phase, w, seen).contacts && Worked(phase, w, seen).contacts[c] == w.contacts[c]
    ensures c in Wanted(phase, Worked(phase, w, seen)) <==> c in Wanted(phase, w)
  {
  }

  lemma WorkedTwice(w: World, phase: Phase, a: set<Id>, b: set<Id>)
    requires LoansOk(w) && LogOk(w)
    ensures Worked(phase, Worked(phase, w, a), b) == Worked(phase, w, a + b)
  {
    match phase {
      case Backfilling => BackfilledTwice(w, a, b);
      case Cleaning(now) => CleanedTwice(w, now, a, b);
    }
  }

  lemma NothingWorked(w: World, phase: Phase)
    ensures Worked(phase, w, Ids([])) == w && Ids([]) == {}
  {
    hide Due, Erased, Backfilled;
    assert Ids([]) == {};
    match phase {
      case Backfilling => NothingBackfilled(w);
      case Cleaning(now) =>
        assert (set c | c in Ids([]) && Due(w, now, c)) == {};
        ErasingNobody(w, {});
    }
  }

  /** When nothing else is committed the batches add up to one statement over all that were visited. */
  lemma {:induction false} QuietPhaseAddsUp(w: World, phase: Phase, locked: Locks, n: nat)
    requires LoansOk(w) && LogOk(w)
    ensures
      var p := Batches(w, phase, QUIET, locked, n);
      p.world == Worked(phase, w, Ids(p.seen)) && Ids(p.seen) <= Wanted(phase, w)
  {
    hide LoansOk, LogOk, Worked, Wanted, NextBatch, Ids, AtCursor;
    if n == 0 {
      NothingWorked(w, phase);
    } else {
      var p := Batches(w, phase, QUIET, locked, n - 1);
      QuietPhaseAddsUp(w, phase, locked, n - 1);
      VisitedOnce(w, phase, QUIET, locked, n - 1);
      if p.running {
        QuietBatch(w, phase, p, locked(n - 1));
      }
    }
  }

  lemma QuietBatch(w: World, phase: Phase, p: Progress, held: set<Id>)
    requires LoansOk(w) && LogOk(w) && p.running && AtCursor(p)
    requires p.world == Worked(phase, w, Ids(p.seen)) && Ids(p.seen) <= Wanted(phase, w)
    ensures
      var q := NextBatch(phase, p, p.world, held);
      q.world == Worked(phase, w, Ids(q.seen)) && Ids(q.seen) <= Wanted(phase, w)
  {
    hide LoansOk, LogOk, Worked, Wanted, Selected;
    var batch := Selected(phase, p.world, p.cursor, held);
    SelectedIsBatch(phase, p.world, p.cursor, held);
    NextBatchIsNew(phase, p, p.world, held);
    WorkedTwice(w, phase, Ids(p.seen), Ids(batch));
    assert Ids(p.seen + batch) == Ids(p.seen) + Ids(batch);
    forall c | c in batch
      ensures c in Wanted(phase, w)
    {
      if c !in p.seen {
        AheadIsUntouched(w, phase, Ids(p.seen), c);
      }
    }
  }

  lemma SubsetSize(a: set<Id>, b: set<Id>)
    requires a <= b
    ensures |a| <= |b|
  {
    assert b == a + (b - a);
  }

  lemma SameSize(a: map<Id, Contact>, b: map<Id, Contact>)
    requires a.Keys == b.Keys
    ensures |a| == |b|
  {
    assert |a.Keys| == |a| && |b.Keys| == |b|;
  }

  /** It ends: after so many batches there is nobody left to select. */
  lemma QuietPhaseEnds(w: World, phase: Phase, locked: Locks, n: nat)
    requires LoansOk(w) && LogOk(w) && |w.contacts| < n * BATCH_SIZE
    ensures !Batches(w, phase, QUIET, locked, n).running
  {
    var p := Batches(w, phase, QUIET, locked, n);
    QuietPhaseAddsUp(w, phase, locked, n);
    VisitedOnce(w, phase, QUIET, locked, n);
    IdsCounted(p.seen);
    SubsetSize(Ids(p.seen), w.contacts.Keys);
    assert |w.contacts.Keys| == |w.contacts|;
  }

  /** And when it has ended, whoever was wanted and never held has been visited. */
  lemma QuietPhaseMissesNobody(w: World, phase: Phase, locked: Locks, n: nat, c: Id)
    requires LoansOk(w) && LogOk(w) && !Batches(w, phase, QUIET, locked, n).running
    requires c in Wanted(phase, w) && forall k: nat :: c !in locked(k)
    ensures c in Batches(w, phase, QUIET, locked, n).seen
  {
    hide LoansOk, LogOk, Worked, Wanted, Batches;
    forall k: nat | k < n && c !in Batches(w, phase, QUIET, locked, k).seen
      ensures c in Wanted(phase, Found(w, phase, QUIET, locked, k)) && c !in locked(k)
    {
      QuietPhaseAddsUp(w, phase, locked, k);
      AheadIsUntouched(w, phase, Ids(Batches(w, phase, QUIET, locked, k).seen), c);
    }
    SteadyIsVisited(w, phase, QUIET, locked, n, c);
  }

  /** Visiting everyone who is wanted is visiting everyone. */
  lemma WantedIsAll(w: World, phase: Phase, seen: set<Id>)
    requires Wanted(phase, w) <= seen <= w.contacts.Keys
    ensures Worked(phase, w, seen) == Worked(phase, w, w.contacts.Keys)
  {
    match phase {
      case Backfilling => assert Backfilled(w, seen).contacts == Backfilled(w, w.contacts.Keys).contacts;
      case Cleaning(now) =>
        assert (set c | c in seen && Due(w, now, c)) == set c | c in w.contacts.Keys && Due(w, now, c);
    }
  }

  lemma QuietPhaseWorksOnAll(w: World, phase: Phase, n: nat)
    requires LoansOk(w) && LogOk(w) && |w.contacts| < n * BATCH_SIZE
    ensures
      var p := Batches(w, phase, QUIET, FREE, n);
      !p.running && p.world == Worked(phase, w, w.contacts.Keys)
  {
    hide LoansOk, LogOk, Worked, Batches;
    var p := Batches(w, phase, QUIET, FREE, n);
    QuietPhaseEnds(w, phase, FREE, n);
    QuietPhaseAddsUp(w, phase, FREE, n);
    forall c | c in Wanted(phase, w)
      ensures c in Ids(p.seen)
    {
      QuietPhaseMissesNobody(w, phase, FREE, n, c);
    }
    WantedIsAll(w, phase, Ids(p.seen));
  }

  /** An undisturbed run, batch by batch, is the sweep over all contacts. */
  lemma UndisturbedRunSweepsAll(w: World, now: Time, n: nat)
    requires Sound(w) && |w.contacts| < n * BATCH_SIZE
    ensures
      var p := Batches(w, Backfilling, QUIET, FREE, n);
      var q := Batches(p.world, Cleaning(now), QUIET, FREE, n);
      !p.running && !q.running && q.world == Swept(w, now, w.contacts.Keys, w.contacts.Keys)
  {
    var u := Backfilled(w, w.contacts.Keys);
    BackfillKeepsSound(w, w.contacts.Keys);
    assert u.contacts.Keys == w.contacts.Keys;
    SameSize(u.contacts, w.contacts);
    hide Core, CacheSound, Backfilled, Cleaned, Batches;
    SoundIsCore(w);
    SoundIsCore(u);
    QuietPhaseWorksOnAll(w, Backfilling, n);
    QuietPhaseWorksOnAll(u, Cleaning(now), n);
  }

  // ----- the service -----

  class CleanupService {
    const db: Db

    constructor (db: Db)
      ensures this.db == db
    {
      this.db := db;
    }

    /** The transaction of one backfill batch. */
    method BackfillBatch(batch: seq<Id>)
      requires Core(db.Rows()) && Ascending(batch)
      requires forall c | c in batch :: c in db.contacts && db.contacts[c].retainUntil.None?
      modifies db`contacts
      ensures db.Rows() == Backfilled(old(db.Rows()), Ids(batch))
    {
      hide Core, Backfilled, Recached, Ids, Ascending;
      ghost var w := db.Rows();
      NothingBackfilled(w);
      NoIds(batch);
      for i := 0 to |batch|
        invariant db.Rows() == Backfilled(w, Ids(batch[..i]))
      {
        ghost var done := Ids(batch[..i]);
        BackfilledKeepsCore(w, done);
        IdsExtended(batch, i);
        RecachedIsBackfill(w, done, batch[i]);
        db.RecomputeRetainUntil(batch[i]);
      }
      assert batch[..|batch|] == batch;
    }

    /** The transaction of one cleanup batch: what is still due and has no active loan is deleted. */
    method CleanupBatch(now: Time, batch: seq<Id>) returns (deleted: nat)
      modifies db
      ensures db.Rows() == Cleaned(old(db.Rows()), now, Ids(batch))
      ensures deleted == |set c | c in Ids(batch) && Due(old(db.Rows()), now, c)|
    {
      ghost var w := db.Rows();
      var active := set l | l in db.loans && db.loans[l].borrower.Guest? && db.loans[l].borrower.contact.Some?
                              && Exclusive(db.loans[l].status) :: db.loans[l].borrower.contact.value;
      var expired := set c | c in batch && c in db.contacts && db.contacts[c].retainUntil.Some?
                           && db.contacts[c].retainUntil.value <= now;
      var due := expired - active;
      ActiveContacts(w, active);
      assert due == set c | c in Ids(batch) && Due(w, now, c);
      deleted := |due|;
      db.EraseContacts(due);
    }

    /** What others committed in the meantime. */
    method OthersCommit(others: Others, n: nat)
      modifies db
      ensures db.Rows() == others(n, old(db.Rows()))
    {
      var w := others(n, db.Rows());
      db.clock, db.contacts, db.copies, db.loans := w.clock, w.contacts, w.copies, w.loans;
      db.confs, db.log, db.notices := w.confs, w.log, w.notices;
    }

    /** The keyset loop of the backfill, watched for at most `limit` batches. */
    method BackfillPhase(others: Others, locked: Locks, limit: nat) returns (total: nat, running: bool)
      requires Sound(db.Rows()) && Honest(others)
      modifies db
      ensures
        var p := Batches(old(db.Rows()), Backfilling, others, locked, limit);
        db.Rows() == p.world && total == p.total && running == p.running
    {
      hide Sound, Honest, Backfilled, Selected, Ascending, Batches, Ids;
      ghost var w := db.Rows();
      NothingYet(w, Backfilling, others, locked);
      var cursor: Option<Id> := None;
      var n := 0;
      total, running := 0, true;
      while running && n < limit
        invariant n <= limit
        invariant db.Rows() == Batches(w, Backfilling, others, locked, n).world
        invariant total == Batches(w, Backfilling, others, locked, n).total
        invariant running == Batches(w, Backfilling, others, locked, n).running
        invariant cursor == Batches(w, Backfilling, others, locked, n).cursor
      {
        BatchesKeepSound(w, Backfilling, others, locked, n);
        OneMoreBatch(w, Backfilling, others, locked, n);
        OthersCommit(others, n);
        var batch := Selected(Backfilling, db.Rows(), cursor, locked(n));
        SelectedIsBatch(Backfilling, db.Rows(), cursor, locked(n));
        SoundIsCore(db.Rows());
        BackfillBatch(batch);
        total := total + |batch|;
        if |batch| < BATCH_SIZE {
          running := false;
        } else {
          cursor := Some(batch[|batch| - 1]);
        }
        n := n + 1;
      }
      PhaseStaysOver(w, Backfilling, others, locked, n, limit);
    }

    /** The keyset loop of the cleanup, watched for at most `limit` batches. */
    method CleanupPhase(now: Time, others: Others, locked: Locks, limit: nat) returns (total: nat, running: bool)
      modifies db
      ensures
        var p := Batches(old(db.Rows()), Cleaning(now), others, locked, limit);
        db.Rows() == p.world && total == p.total && running == p.running
    {
      hide Selected, Cleaned, Due, Batches, Ids;
      ghost var w := db.Rows();
      NothingYet(w, Cleaning(now), others, locked);
      var cursor: Option<Id> := None;
      var n := 0;
      total, running := 0, true;
      while running && n < limit
        invariant n <= limit
        invariant db.Rows() == Batches(w, Cleaning(now), others, locked, n).world
        invariant total == Batches(w, Cleaning(now), others, locked, n).total
        invariant running == Batches(w, Cleaning(now), others, locked, n).running
        invariant cursor == Batches(w, Cleaning(now), others, locked, n).cursor
      {
        OneMoreBatch(w, Cleaning(now), others, locked, n);
        OthersCommit(others, n);
        var batch := Selected(Cleaning(now), db.Rows(), cursor, locked(n));
        SelectedIsBatch(Cleaning(now), db.Rows(), cursor, locked(n));
        var deleted := CleanupBatch(now, batch);
        total := total + deleted;
        if |batch| < BATCH_SIZE {
          running := false;
        } else {
          cursor := Some(batch[|batch| - 1]);
        }
        n := n + 1;
      }
      PhaseStaysOver(w, Cleaning(now), others, locked, n, limit);
    }

    /** Backfill, then cleanup; each phase meets others of its own. */
    method Run(now: Time, inBackfill: Others, lockedInBackfill: Locks, inCleanup: Others, lockedInCleanup: Locks, limit: nat)
      returns (backfilled: nat, deleted: nat, running: bool)
      requires Sound(db.Rows()) && Honest(inBackfill) && Honest(inCleanup)
      modifies db
      ensures
        var p := Batches(old(db.Rows()), Backfilling, inBackfill, lockedInBackfill, limit);
        var q := Batches(p.world, Cleaning(now), inCleanup, lockedInCleanup, limit);
        && backfilled == p.total == |p.seen| && running == (p.running || q.running)
        && (!p.running ==> db.Rows() == q.world && deleted == q.total == |q.seen|)
      ensures Sound(db.Rows())
    {
      hide Sound, Honest, Batches;
      ghost var w := db.Rows();
      deleted := 0;
      backfilled, running := BackfillPhase(inBackfill, lockedInBackfill, limit);
      TotalCountsVisits(w, Backfilling, inBackfill, lockedInBackfill, limit);
      BatchesKeepSound(w, Backfilling, inBackfill, lockedInBackfill, limit);
      if !running {
        ghost var u := db.Rows();
        deleted, running := CleanupPhase(now, inCleanup, lockedInCleanup, limit);
        TotalCountsVisits(u, Cleaning(now), inCleanup, lockedInCleanup, limit);
        BatchesKeepSound(u, Cleaning(now), inCleanup, lockedInCleanup, limit);
      }
    }
  }

  lemma ActiveContacts(w: World, active: set<Id>)
    requires active == set l | l in w.loans && w.loans[l].borrower.Guest? && w.loans[l].borrower.contact.Some?
                               && Exclusive(w.loans[l].status) :: w.loans[l].borrower.contact.value
    ensures forall c :: c in active <==> HasActiveLoan(w, c)
  {
    forall c
      ensures c in active <==> HasActiveLoan(w, c)
    {
      if HasActiveLoan(w, c) {
        var l :| l in w.loans && w.loans[l].borrower == Borrower.Guest(Some(c)) && Exclusive(w.loans[l].status);
        assert w.loans[l].borrower.contact.value in active;
      }
    }
  }
}
