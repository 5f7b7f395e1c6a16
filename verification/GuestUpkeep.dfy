/**
 * The remaining steps: those that touch only a confirmation row, those that add or delete contacts and
 * copies, the owner's library edits, the retention batches and the passing of time.
 */
module GuestUpkeep {
  import opened Wrappers
  import opened GuestModel
  import opened GuestInvariant
  import opened GuestSteps
  import opened GuestPreserve
  import P = GuestProtocol
  import S = ProtocolSafety

  // ----- frames -----

  /** A guest loan whose row, events, confirmation status and contact are still there. */
  lemma GuestKept(w: World, v: World, m: Id)
    requires m in w.loans && m in v.loans && v.loans[m] == w.loans[m] && w.loans[m].borrower.Guest?
    requires LoanOk(w, m)
    requires v.log == w.log && w.clock <= v.clock
    requires w.loans[m].copy in v.copies && v.copies[w.loans[m].copy].owner == w.copies[w.loans[m].copy].owner
    requires m in v.confs <==> m in w.confs
    requires m in w.confs ==> v.confs[m].contact == w.confs[m].contact && v.confs[m].row.status == w.confs[m].row.status
    requires forall k | k in w.contacts :: k in v.contacts && v.contacts[k].owner == w.contacts[k].owner
    ensures LoanOk(v, m)
  {
  }

  lemma RegisteredKept(w: World, v: World, m: Id)
    requires m in w.loans && m in v.loans && v.loans[m] == w.loans[m] && w.loans[m].borrower.Registered?
    requires LoanOk(w, m)
    requires v.log == w.log && v.notices == w.notices
    requires w.loans[m].copy in v.copies && v.copies[w.loans[m].copy].owner == w.copies[w.loans[m].copy].owner
    requires m in v.confs <==> m in w.confs
    ensures LoanOk(v, m)
  {
  }

  lemma LoansStillOwned(w: World, v: World)
    requires LoansOk(w)
    requires forall c | c in w.copies :: c in v.copies && v.copies[c].owner == w.copies[c].owner
    ensures forall l | l in w.loans ::
              w.loans[l].copy in v.copies && v.copies[w.loans[l].copy].owner == w.copies[w.loans[l].copy].owner
  {
    forall l | l in w.loans
      ensures w.loans[l].copy in v.copies && v.copies[w.loans[l].copy].owner == w.copies[w.loans[l].copy].owner
    {
      assert LoanOk(w, l);
    }
  }

  /** Loans that were not written, in tables whose other rows were only added or edited. */
  lemma LoansKept(w: World, v: World)
    requires LoansOk(w) && v.loans == w.loans
    requires v.log == w.log && v.notices == w.notices && w.clock <= v.clock
    requires forall l | l in w.loans ::
               w.loans[l].copy in v.copies && v.copies[w.loans[l].copy].owner == w.copies[w.loans[l].copy].owner
    requires v.confs.Keys == w.confs.Keys
    requires forall l | l in w.confs ::
               v.confs[l].contact == w.confs[l].contact && v.confs[l].row.status == w.confs[l].row.status
    requires forall k | k in w.contacts :: k in v.contacts && v.contacts[k].owner == w.contacts[k].owner
    ensures LoansOk(v)
  {
    forall m | m in v.loans
      ensures LoanOk(v, m)
    {
      assert LoanOk(w, m);
      if w.loans[m].borrower.Guest? {
        GuestKept(w, v, m);
      } else {
        RegisteredKept(w, v, m);
      }
    }
  }

  lemma CopiesKept(w: World, v: World)
    requires CopiesOk(w) && v.loans == w.loans && v.log == w.log
    requires forall c | c in v.copies ::
               && c in w.copies
               && v.copies[c].owner == w.copies[c].owner
               && v.copies[c].holder == w.copies[c].holder && v.copies[c].contact == w.copies[c].contact
               && v.copies[c].status == w.copies[c].status
    ensures CopiesOk(v)
  {
    forall c | c in v.copies
      ensures CopyOk(v, c)
    {
      assert CopyOk(w, c);
      assert forall l | l in v.loans :: HeldBy(v, c, l) == HeldBy(w, c, l);
    }
  }

  lemma NoticesKept(w: World, v: World)
    requires NoticesOk(w) && v.notices == w.notices
    requires forall l | l in w.loans && w.loans[l].borrower.Registered? :: l in v.loans && v.loans[l] == w.loans[l]
    ensures NoticesOk(v)
  {
    forall n | n in v.notices
      ensures NoticeOk(v, n)
    {
      assert NoticeOk(w, n);
    }
  }

  lemma RestKept(w: World, v: World)
    requires ConfsOk(w) && LogOk(w) && ContactsOk(w)
    requires v.confs == w.confs && v.log == w.log && w.clock <= v.clock
    requires forall l | l in w.loans :: l in v.loans && (w.loans[l].borrower.Guest? ==> v.loans[l].borrower.Guest?)
    requires forall k | k in v.contacts :: v.contacts[k].createdAt <= v.clock
    ensures ConfsOk(v) && LogOk(v) && ContactsOk(v)
  {
    forall m | m in v.confs
      ensures ConfOk(v, m)
    {
      assert ConfOk(w, m);
    }
  }

  // ----- confirmation rows -----

  lemma RowKeepsConfs(w: World, l: Id, row: P.Row)
    requires ConfsOk(w) && l in w.confs
    requires S.ChecksHold(row) && S.CountersBounded(row)
    ensures ConfsOk(WithRow(w, l, row))
  {
    var v := WithRow(w, l, row);
    assert ConfOk(w, l);
    forall m | m in v.confs
      ensures ConfOk(v, m)
    {
      assert ConfOk(w, m);
    }
  }

  lemma RowKeepsRows(w: World, l: Id, row: P.Row)
    requires LoansOk(w) && CopiesOk(w) && l in w.confs && row.status == w.confs[l].row.status
    ensures LoansOk(WithRow(w, l, row)) && CopiesOk(WithRow(w, l, row))
  {
    var v := WithRow(w, l, row);
    LoansStillOwned(w, v);
    LoansKept(w, v);
    CopiesKept(w, v);
  }

  lemma RowKeepsRest(w: World, l: Id, row: P.Row)
    requires NoticesOk(w) && LogOk(w) && ContactsOk(w) && CacheExact(w) && l in w.confs
    ensures
      var v := WithRow(w, l, row);
      NoticesOk(v) && LogOk(v) && ContactsOk(v) && CacheExact(v)
  {
    var v := WithRow(w, l, row);
    NoticesKept(w, v);
    DatesKept(w, v);
  }

  /** A step on the row alone that leaves its status: the link, code and proof steps of the protocol. */
  lemma RowKeepsInv(w: World, l: Id, row: P.Row)
    requires Inv(w) && l in w.confs
    requires row.status == w.confs[l].row.status && S.ChecksHold(row) && S.CountersBounded(row)
    ensures Inv(WithRow(w, l, row))
  {
    RowKeepsRows(w, l, row);
    RowKeepsConfs(w, l, row);
    RowKeepsRest(w, l, row);
  }

  /** The requests that stay within the row: all but an accepted answer and a decision. */
  predicate OnRow(req: P.Request) {
    !req.Respond? && !req.OwnerDecides?
  }

  lemma RequestKeepsStatus(row: P.Row, id: nat, req: P.Request, now: P.Time)
    requires OnRow(req)
    ensures P.Step(row, id, req, now).0.status == row.status
  {
  }

  lemma RequestKeepsInv(w: World, l: Id, req: P.Request)
    requires Inv(w) && l in w.confs && OnRow(req)
    ensures Inv(WithRow(w, l, P.Step(w.confs[l].row, l, req, w.clock).0))
  {
    var row := w.confs[l].row;
    assert ConfOk(w, l);
    RequestKeepsStatus(row, l, req, w.clock);
    S.StepKeepsChecks(row, l, req, w.clock);
    RowKeepsInv(w, l, P.Step(row, l, req, w.clock).0);
  }

  // ----- contacts -----

  lemma AddedContactDates(w: World, owner: Id, c: Id, begun: Time)
    requires LoansOk(w) && CacheExact(w) && c !in w.contacts
    ensures CacheExact(AddContact(w, owner, c, begun))
  {
    var v := AddContact(w, owner, c, begun);
    forall k | k in v.contacts
      ensures IsRetention(v, k, v.contacts[k].retainUntil)
    {
      if k == c {
        forall l | l in w.loans
          ensures w.loans[l].borrower != Borrower.Guest(Some(c))
        {
          assert LoanOk(w, l);
        }
        assert ContactLoans(v, c) == {};
      } else {
        assert ContactLoans(v, k) == ContactLoans(w, k);
        RetentionFrame(w, v, k, w.contacts[k].retainUntil);
      }
    }
  }

  lemma AddContactKeepsInv(w: World, owner: Id, c: Id, begun: Time)
    requires Inv(w) && c !in w.contacts && begun <= w.clock
    ensures Inv(AddContact(w, owner, c, begun))
  {
    hide LoanOk, CopyOk, ConfOk, NoticeOk, IsRetention;
    var v := AddContact(w, owner, c, begun);
    LoansStillOwned(w, v);
    LoansKept(w, v);
    CopiesKept(w, v);
    NoticesKept(w, v);
    RestKept(w, v);
    AddedContactDates(w, owner, c, begun);
  }

  // ----- deletion: the contact goes, its loans and copies stay and forget it -----

  lemma ErasedLoanOk(w: World, gone: set<Id>, m: Id)
    requires m in w.loans && LoanOk(w, m)
    requires Exclusive(w.loans[m].status) && w.loans[m].borrower.Guest? && w.loans[m].borrower.contact.Some? ==>
               w.loans[m].borrower.contact.value !in gone
    ensures LoanOk(Erased(w, gone), m)
  {
  }

  lemma ErasedCopyOk(w: World, gone: set<Id>, c: Id)
    requires c in w.copies && CopyOk(w, c)
    ensures CopyOk(Erased(w, gone), c)
  {
    var v := Erased(w, gone);
    assert forall l | l in v.loans :: HeldBy(v, c, l) == HeldBy(w, c, l);
    assert forall l | l in v.loans && HeldBy(w, c, l) :: MatchesLoan(w.copies[c], w.loans[l]);
    if forall l | l in v.loans :: !HeldBy(v, c, l) {
      assert forall l | l in w.loans :: !HeldBy(w, c, l);
    }
  }

  lemma ErasedLoansOk(w: World, gone: set<Id>)
    requires LoansOk(w) && forall c | c in gone :: !HasActiveLoan(w, c)
    ensures LoansOk(Erased(w, gone))
  {
    var v := Erased(w, gone);
    forall m | m in v.loans
      ensures LoanOk(v, m)
    {
      ErasedLoanOk(w, gone, m);
    }
  }

  lemma ErasedCopiesOk(w: World, gone: set<Id>)
    requires CopiesOk(w)
    ensures CopiesOk(Erased(w, gone))
  {
    var v := Erased(w, gone);
    forall c | c in v.copies
      ensures CopyOk(v, c)
    {
      ErasedCopyOk(w, gone, c);
    }
  }

  lemma ErasedRestOk(w: World, gone: set<Id>)
    requires ConfsOk(w) && NoticesOk(w) && LogOk(w) && ContactsOk(w)
    ensures ConfsOk(Erased(w, gone)) && NoticesOk(Erased(w, gone)) && LogOk(Erased(w, gone)) && ContactsOk(Erased(w, gone))
  {
    var v := Erased(w, gone);
    forall m | m in v.confs
      ensures ConfOk(v, m)
    {
      assert ConfOk(w, m);
    }
    forall n | n in v.notices
      ensures NoticeOk(v, n)
    {
      assert NoticeOk(w, n);
    }
  }

  lemma ErasedKeepsCore(w: World, gone: set<Id>)
    requires Core(w) && forall c | c in gone :: !HasActiveLoan(w, c)
    ensures Core(Erased(w, gone))
  {
    ErasedLoansOk(w, gone);
    ErasedCopiesOk(w, gone);
    ErasedRestOk(w, gone);
  }

  lemma ErasedDate(w: World, gone: set<Id>, k: Id, r: Option<Time>)
    requires k in w.contacts && k !in gone
    ensures
      var v := Erased(w, gone);
      && k in v.contacts && v.contacts[k] == w.contacts[k]
      && (IsRetention(v, k, r) <==> IsRetention(w, k, r))
      && HasActiveLoan(v, k) == HasActiveLoan(w, k)
  {
    var v := Erased(w, gone);
    assert ContactLoans(v, k) == ContactLoans(w, k);
    assert HasActiveLoan(w, k) <==> exists l | l in ContactLoans(w, k) :: Exclusive(w.loans[l].status);
    assert HasActiveLoan(v, k) <==> exists l | l in ContactLoans(v, k) :: Exclusive(v.loans[l].status);
    if IsRetention(w, k, r) {
      RetentionFrame(w, v, k, r);
    }
    if IsRetention(v, k, r) {
      RetentionFrame(v, w, k, r);
    }
  }

  /** Deletion forgets the person and nothing else: no row refers to them, every loan and event stays. */
  lemma DeletionForgetsOnlyThePerson(w: World, gone: set<Id>, l: Id)
    requires l in w.loans
    ensures
      var v := Erased(w, gone);
      && v.log == w.log && v.notices == w.notices && l in v.loans
      && v.loans[l].(borrower := w.loans[l].borrower) == w.loans[l]
      && (v.loans[l].borrower != w.loans[l].borrower <==> exists c | c in gone :: w.loans[l].borrower == Borrower.Guest(Some(c)))
    ensures forall c | c in gone ::
              var v := Erased(w, gone);
              && c !in v.contacts && ContactLoans(v, c) == {}
              && (forall k | k in v.copies :: v.copies[k].contact != Some(c))
              && (forall m | m in v.confs :: v.confs[m].contact != Some(c))
  {
  }

  lemma EraseKeepsInv(w: World, owner: Id, c: Id)
    requires Inv(w)
    ensures Inv(EraseContact(w, owner, c))
  {
    if EraseReply(w, owner, c) == Done {
      ErasedKeepsCore(w, {c});
      forall k | k in Erased(w, {c}).contacts
        ensures IsRetention(Erased(w, {c}), k, Erased(w, {c}).contacts[k].retainUntil)
      {
        ErasedDate(w, {c}, k, w.contacts[k].retainUntil);
      }
    }
  }

  // ----- copies -----

  lemma AddedCopyOk(w: World, owner: Id, c: Id)
    requires LoansOk(w) && CopiesOk(w) && c !in w.copies
    ensures CopiesOk(AddCopy(w, owner, c))
  {
    var v := AddCopy(w, owner, c);
    forall k | k in v.copies
      ensures CopyOk(v, k)
    {
      if k == c {
        forall l | l in w.loans
          ensures !HeldBy(v, c, l)
        {
          assert LoanOk(w, l);
        }
      } else {
        assert CopyOk(w, k);
        assert forall l | l in v.loans :: HeldBy(v, k, l) == HeldBy(w, k, l);
      }
    }
  }

  lemma AddCopyKeepsInv(w: World, owner: Id, c: Id)
    requires Inv(w) && c !in w.copies
    ensures Inv(AddCopy(w, owner, c))
  {
    hide LoanOk, CopyOk, ConfOk, NoticeOk, IsRetention;
    var v := AddCopy(w, owner, c);
    LoansStillOwned(w, v);
    LoansKept(w, v);
    AddedCopyOk(w, owner, c);
    NoticesKept(w, v);
    RestKept(w, v);
    DatesKept(w, v);
  }

  lemma EditedCopiesOk(w: World, owner: Id, c: Id, available: bool)
    requires CopiesOk(w) && EditStatusReply(w, owner, c) == Done
    ensures CopiesOk(EditStatus(w, owner, c, available))
  {
    var v := EditStatus(w, owner, c, available);
    forall k | k in v.copies
      ensures CopyOk(v, k)
    {
      assert CopyOk(w, k);
      assert forall l | l in v.loans :: HeldBy(v, k, l) == HeldBy(w, k, l);
      if k == c {
        forall l | l in w.loans
          ensures !HeldBy(w, c, l)
        {
          HomeIsFree(w, c, l);
        }
      }
    }
  }

  lemma EditStatusKeepsInv(w: World, owner: Id, c: Id, available: bool)
    requires Inv(w)
    ensures Inv(EditStatus(w, owner, c, available))
  {
    hide LoanOk, CopyOk, ConfOk, NoticeOk, IsRetention;
    var v := EditStatus(w, owner, c, available);
    if EditStatusReply(w, owner, c) == Done {
      LoansStillOwned(w, v);
      LoansKept(w, v);
      EditedCopiesOk(w, owner, c, available);
      NoticesKept(w, v);
      RestKept(w, v);
      DatesKept(w, v);
    }
  }

  lemma RestoreKeepsInv(w: World, owner: Id, c: Id)
    requires Inv(w)
    ensures Inv(Restore(w, owner, c))
  {
    hide LoanOk, CopyOk, ConfOk, NoticeOk, IsRetention;
    var v := Restore(w, owner, c);
    if OwnCopy(w, owner, c) {
      LoansStillOwned(w, v);
      LoansKept(w, v);
      CopiesKept(w, v);
      NoticesKept(w, v);
      RestKept(w, v);
      DatesKept(w, v);
    }
  }

  /** A copy that no loan refers to can go. */
  lemma RemovedLoansOk(w: World, owner: Id, c: Id)
    requires LoansOk(w) && RemoveReply(w, owner, c) == Done
    ensures LoansOk(Remove(w, owner, c))
  {
    var v := Remove(w, owner, c);
    forall l | l in w.loans
      ensures w.loans[l].copy in v.copies && v.copies[w.loans[l].copy].owner == w.copies[w.loans[l].copy].owner
    {
      assert LoanOk(w, l);
    }
    LoansKept(w, v);
  }

  lemma RemoveKeepsInv(w: World, owner: Id, c: Id)
    requires Inv(w)
    ensures Inv(Remove(w, owner, c))
  {
    hide LoansOk, LoanOk, CopyOk, ConfOk, NoticeOk, IsRetention;
    var v := Remove(w, owner, c);
    if RemoveReply(w, owner, c) == Done {
      RemovedLoansOk(w, owner, c);
      CopiesKept(w, v);
      NoticesKept(w, v);
      RestKept(w, v);
      DatesKept(w, v);
    }
  }

  lemma ArchivedLoanOk(w: World, owner: Id, c: Id, m: Id)
    requires ArchiveReply(w, owner, c) == Done && w.copies[c].archivedAt.None?
    requires m in w.loans && LoanOk(w, m)
    ensures LoanOk(Archive(w, owner, c), m)
  {
    var v := Archive(w, owner, c);
    if w.loans[m].borrower.Registered? {
      var n := w.loans[m];
      var notice := Notice(n.borrower.user, m, n.copy, n.owner);
      assert notice in RivalNotices(w.loans, c, owner) <==> Rival(n, c);
    } else {
      GuestKept(w, v, m);
    }
  }

  lemma ArchivedCopyOk(w: World, owner: Id, c: Id, k: Id)
    requires ArchiveReply(w, owner, c) == Done && w.copies[c].archivedAt.None?
    requires k in w.copies && CopyOk(w, k)
    ensures CopyOk(Archive(w, owner, c), k)
  {
    var v := Archive(w, owner, c);
    forall l | l in v.loans
      ensures HeldBy(v, k, l) == HeldBy(w, k, l) && (HeldBy(w, k, l) ==> v.loans[l] == w.loans[l])
    {
      assert Outstanding(w, l) ==> !Rival(w.loans[l], c);
    }
    hide HeldBy, Archive;
  }

  lemma ArchivedRowsOk(w: World, owner: Id, c: Id)
    requires LoansOk(w) && CopiesOk(w) && ArchiveReply(w, owner, c) == Done && w.copies[c].archivedAt.None?
    ensures LoansOk(Archive(w, owner, c)) && CopiesOk(Archive(w, owner, c))
  {
    var v := Archive(w, owner, c);
    hide LoanOk, CopyOk;
    forall m | m in v.loans
      ensures LoanOk(v, m)
    {
      ArchivedLoanOk(w, owner, c, m);
    }
    forall k | k in v.copies
      ensures CopyOk(v, k)
    {
      ArchivedCopyOk(w, owner, c, k);
    }
  }

  lemma ArchivedNoticesOk(w: World, owner: Id, c: Id)
    requires NoticesOk(w) && LoansOk(w) && ArchiveReply(w, owner, c) == Done && w.copies[c].archivedAt.None?
    ensures NoticesOk(Archive(w, owner, c))
  {
    var v := Archive(w, owner, c);
    forall n | n in v.notices
      ensures NoticeOk(v, n)
    {
      if n in w.notices {
        assert NoticeOk(w, n);
      } else {
        assert n in RivalNotices(w.loans, c, owner);
        assert LoanOk(w, n.loan);
      }
    }
  }

  lemma ArchivedDates(w: World, owner: Id, c: Id)
    requires CacheExact(w)
    ensures CacheExact(Archive(w, owner, c))
  {
    DatesKept(w, Archive(w, owner, c));
  }

  lemma ArchiveKeepsInv(w: World, owner: Id, c: Id)
    requires Inv(w)
    ensures Inv(Archive(w, owner, c))
  {
    hide LoansOk, CopiesOk, NoticeOk, ConfOk, NoticesOk, CacheExact;
    if ArchiveReply(w, owner, c) == Done && w.copies[c].archivedAt.None? {
      ArchivedRowsOk(w, owner, c);
      ArchivedNoticesOk(w, owner, c);
      RestKept(w, Archive(w, owner, c));
      ArchivedDates(w, owner, c);
    }
  }

  // ----- the environment and the clock -----

  lemma AskedLoansOk(w: World, user: Id, c: Id, l: Id)
    requires LoansOk(w) && NoticesOk(w) && MayAsk(w, c) && l !in w.loans && l !in w.confs && Replay(w.log, l) == Untold
    ensures LoansOk(AskToBorrow(w, user, c, l))
  {
    var v := AskToBorrow(w, user, c, l);
    forall m | m in v.loans
      ensures LoanOk(v, m)
    {
      if m == l {
        var notice := Notice(user, l, c, w.copies[c].owner);
        assert notice in w.notices ==> NoticeOk(w, notice);
      } else {
        assert LoanOk(w, m);
      }
    }
  }

  lemma AskedCopiesOk(w: World, user: Id, c: Id, l: Id)
    requires CopiesOk(w) && MayAsk(w, c) && l !in w.loans
    ensures CopiesOk(AskToBorrow(w, user, c, l))
  {
    var v := AskToBorrow(w, user, c, l);
    forall k | k in v.copies
      ensures CopyOk(v, k)
    {
      assert CopyOk(w, k);
      assert forall m | m in w.loans :: HeldBy(v, k, m) == HeldBy(w, k, m);
      assert !HeldBy(v, k, l);
    }
  }

  lemma AskedRestOk(w: World, user: Id, c: Id, l: Id)
    requires NoticesOk(w) && ConfsOk(w) && LogOk(w) && ContactsOk(w) && CacheExact(w) && l !in w.loans
    ensures
      var v := AskToBorrow(w, user, c, l);
      NoticesOk(v) && ConfsOk(v) && LogOk(v) && ContactsOk(v) && CacheExact(v)
  {
    hide ConfOk, NoticeOk, IsRetention;
    var v := AskToBorrow(w, user, c, l);
    NoticesKept(w, v);
    RestKept(w, v);
    DatesKept(w, v);
  }

  lemma AskKeepsInv(w: World, user: Id, c: Id, l: Id)
    requires Inv(w) && l !in w.loans
    ensures Inv(AskToBorrow(w, user, c, l))
  {
    if MayAsk(w, c) {
      FreshLoan(w, l);
      AskedLoansOk(w, user, c, l);
      AskedCopiesOk(w, user, c, l);
      AskedRestOk(w, user, c, l);
    }
  }

  lemma TickKeepsInv(w: World, later: Time)
    requires Inv(w) && w.clock <= later
    ensures Inv(w.(clock := later))
  {
    hide LoanOk, CopyOk, ConfOk, NoticeOk, IsRetention;
    var v := w.(clock := later);
    LoansStillOwned(w, v);
    LoansKept(w, v);
    CopiesKept(w, v);
    NoticesKept(w, v);
    RestKept(w, v);
    DatesKept(w, v);
  }

  // ----- the retention batches, from tables whose cache may still have gaps -----

  lemma BackfilledDate(w: World, batch: set<Id>, c: Id)
    requires LoansOk(w) && LogOk(w) && c in w.contacts
    requires w.contacts[c].retainUntil.None? || IsRetention(w, c, w.contacts[c].retainUntil)
    ensures
      var r := Backfilled(w, batch).contacts[c].retainUntil;
      || IsRetention(Backfilled(w, batch), c, r)
      || (c !in batch && r.None? && w.contacts[c].retainUntil.None?)
  {
    var v := Backfilled(w, batch);
    RetentionExists(w, c);
    assert ContactLoans(v, c) == ContactLoans(w, c);
    if c in batch || w.contacts[c].retainUntil.Some? {
      RetentionFrame(w, v, c, v.contacts[c].retainUntil);
    }
  }

  lemma BackfilledKeeps(w: World, batch: set<Id>)
    requires Core(w) && CacheSound(w)
    ensures Core(Backfilled(w, batch)) && CacheSound(Backfilled(w, batch))
  {
    ContactEditsKeepCore(w, Backfilled(w, batch));
    forall c | c in w.contacts
      ensures IsRetention(Backfilled(w, batch), c, Backfilled(w, batch).contacts[c].retainUntil)
              || Backfilled(w, batch).contacts[c].retainUntil.None?
    {
      BackfilledDate(w, batch, c);
    }
  }

  lemma CleanedKeeps(w: World, now: Time, batch: set<Id>)
    requires Core(w)
    ensures Core(Cleaned(w, now, batch))
    ensures CacheSound(w) ==> CacheSound(Cleaned(w, now, batch))
    ensures CacheExact(w) ==> CacheExact(Cleaned(w, now, batch))
  {
    var gone := set c | c in batch && Due(w, now, c);
    ErasedKeepsCore(w, gone);
    forall k | k in Cleaned(w, now, batch).contacts
      ensures Cleaned(w, now, batch).contacts[k] == w.contacts[k]
      ensures IsRetention(Cleaned(w, now, batch), k, w.contacts[k].retainUntil)
              <==> IsRetention(w, k, w.contacts[k].retainUntil)
    {
      ErasedDate(w, gone, k, w.contacts[k].retainUntil);
    }
  }
}
