/**
 * The audit chain: revisions count up by one per correction, the audit rows of an entity follow each other
 * without a gap, and the last one describes the row as it stands, up to what merges do to the authors of a work
 * without an audit row. And whole runs of catalog operations.
 */
module CatalogAudit {
  import opened Wrappers
  import opened EditionLanguage
  import opened AuthorLinks
  import opened CatalogModel
  import opened CatalogRules

  // ----- the chain of one entity -----

  /** After one correction and before the next: merges may have added authors to a work, and nothing else happened. */
  predicate Follows(after: Snapshot, next: Snapshot) {
    if after.WorkSnapshot? && next.WorkSnapshot?
    then after.origLang == next.origLang && after.details == next.details && after.authors <= next.authors
    else after == next
  }

  predicate Gone(c: Catalog, e: Entity) {
    e.WorkEntity? && e.id in c.works && c.works[e.id].mergedInto.Some?
  }

  /** A work that was merged away has lost its authors, and nothing else. */
  predicate Describes(after: Snapshot, now: Snapshot, gone: bool) {
    if gone then after.WorkSnapshot? && now == after.(authors := []) else Follows(after, now)
  }

  /** Rows 1→2, 2→3, … up to the current revision, each beginning with what the one before left. */
  predicate Chain(rows: seq<AuditRow>, revision: nat, now: Snapshot, gone: bool) {
    && |rows| + 1 == revision
    && (forall i | 0 <= i < |rows| :: rows[i].from == i + 1 && rows[i].to == i + 2)
    && (forall i | 0 <= i < |rows| - 1 :: Follows(rows[i].after, rows[i + 1].before))
    && (|rows| > 0 ==> Describes(rows[|rows| - 1].after, now, gone))
  }

  predicate ChainOf(c: Catalog, e: Entity) {
    match Snap(c, e)
    case None => History(c.audit, e) == []
    case Some((revision, now)) => Chain(History(c.audit, e), revision, now, Gone(c, e))
  }

  predicate Linked(rows: seq<AuditRow>) {
    forall i | 0 <= i < |rows| - 1 :: rows[i].after == rows[i + 1].before
  }

  /** The rows tell every change: each begins exactly where the one before ended, and the last ends at the row. */
  predicate Exact(c: Catalog, e: Entity) {
    var rows := History(c.audit, e);
    Linked(rows) && (rows != [] && Snap(c, e).Some? ==> rows[|rows| - 1].after == Snap(c, e).value.1)
  }

  ghost predicate AuditOk(c: Catalog) {
    forall e :: ChainOf(c, e) && (e.WorkEntity? || Exact(c, e))
  }

  predicate SameRow(c: Catalog, v: Catalog, e: Entity) {
    Snap(v, e) == Snap(c, e) && Gone(v, e) == Gone(c, e)
  }

  /** One correction: one row more, from the current revision to the next, for the row it changed. */
  predicate Records(c: Catalog, v: Catalog, row: AuditRow) {
    && v.audit == c.audit + [row]
    && Snap(c, row.entity) == Some((row.from, row.before)) && !Gone(c, row.entity)
    && Snap(v, row.entity) == Some((row.to, row.after)) && !Gone(v, row.entity) && row.to == row.from + 1
  }

  lemma ChainGrows(rows: seq<AuditRow>, row: AuditRow)
    requires Chain(rows, row.from, row.before, false) && row.to == row.from + 1
    ensures Chain(rows + [row], row.to, row.after, false)
    ensures Linked(rows) && (rows != [] ==> rows[|rows| - 1].after == row.before) ==> Linked(rows + [row])
  {
  }

  lemma RecordedKeepsChain(c: Catalog, v: Catalog, row: AuditRow, e: Entity)
    requires Records(c, v, row) && ChainOf(c, e)
    requires e != row.entity ==> SameRow(c, v, e)
    ensures ChainOf(v, e)
    ensures Exact(c, e) ==> Exact(v, e)
  {
    var rows, more := History(c.audit, e), History(v.audit, e);
    assert v.audit[..|v.audit| - 1] == c.audit;
    assert more == if e == row.entity then rows + [row] else rows;
    if e == row.entity {
      hide History, Chain, Linked;
      ChainGrows(rows, row);
    }
  }

  lemma RecordedKeepsAudit(c: Catalog, v: Catalog, row: AuditRow)
    requires AuditOk(c) && Records(c, v, row)
    requires forall e | e != row.entity :: SameRow(c, v, e)
    ensures AuditOk(v)
  {
    forall e
      ensures ChainOf(v, e) && (e.WorkEntity? || Exact(v, e))
    {
      assert ChainOf(c, e);
      RecordedKeepsChain(c, v, row, e);
    }
  }

  // ----- each operation keeps the chain -----

  lemma UpdateKeepsAudit(c: Catalog, u: Update, actor: Option<Id>)
    requires AuditOk(c) && u.id in c.editions
    ensures AuditOk(UpdateText(c, u, actor))
  {
    hide AuditOk;
    var v := UpdateText(c, u, actor);
    var row := v.audit[|v.audit| - 1];
    assert Records(c, v, row);
    forall e | e != row.entity
      ensures SameRow(c, v, e)
    {
      assert row.entity == EditionEntity(u.id);
    }
    RecordedKeepsAudit(c, v, row);
  }

  lemma {:induction false} CascadeKeepsAudit(c: Catalog, us: seq<Update>, actor: Option<Id>)
    requires AuditOk(c) && AllStored(c, us)
    ensures AuditOk(Cascaded(c, us, actor))
  {
    if |us| > 0 {
      var init, last := us[..|us| - 1], us[|us| - 1];
      CascadeKeepsAudit(c, init, actor);
      UpdateKeepsAudit(Cascaded(c, init, actor), last, actor);
    }
  }

  /** A row that comes into being has revision 1 and no history. */
  lemma CreationKeepsAudit(c: Catalog, v: Catalog, e: Entity)
    requires AuditOk(c) && v.audit == c.audit
    requires Snap(c, e).None? && Snap(v, e).Some? && Snap(v, e).value.0 == 1
    requires !Gone(v, e) && forall o | o != e :: SameRow(c, v, o)
    ensures AuditOk(v)
  {
    forall o
      ensures ChainOf(v, o) && (o.WorkEntity? || Exact(v, o))
    {
      assert ChainOf(c, o) && (o != e ==> SameRow(c, v, o));
    }
  }

  lemma PatchEditionKeepsAudit(c: Catalog, actor: Id, mayEdit: bool, id: Id, expected: nat, patch: Patch, details: Option<nat>)
    requires AuditOk(c)
    ensures AuditOk(PatchEdition(c, actor, mayEdit, id, expected, patch, details))
  {
    var v := PatchEdition(c, actor, mayEdit, id, expected, patch, details);
    if PatchEditionReply(c, mayEdit, id, expected, patch) == Done {
      RecordedKeepsAudit(c, v, v.audit[|v.audit| - 1]);
    }
  }

  lemma TranslationWrittenKeepsAudit(c: Catalog, actor: Id, id: Id, lang: Option<Lang>, details: Option<nat>)
    requires AuditOk(c) && id in c.translations
    ensures AuditOk(TranslationWritten(c, actor, id, lang, details))
  {
    hide AuditOk;
    var v := TranslationWritten(c, actor, id, lang, details);
    var row := v.audit[|v.audit| - 1];
    assert Records(c, v, row);
    forall e | e != row.entity
      ensures SameRow(c, v, e)
    {
      assert row.entity == TranslationEntity(id);
    }
    RecordedKeepsAudit(c, v, row);
  }

  lemma PatchTranslationKeepsAudit(c: Catalog, actor: Id, mayEdit: bool, id: Id, expected: nat, lang: Option<Lang>,
                                   details: Option<nat>)
    requires AuditOk(c)
    ensures AuditOk(PatchTranslation(c, actor, mayEdit, id, expected, lang, details))
  {
    if PatchTranslationReply(c, mayEdit, id, expected) == Done {
      var us := TranslationUpdates(c, id, lang);
      SortingKeepsUpdates(us);
      CascadeKeepsOthers(c, SortedById(us), Some(actor));
      CascadeKeepsAudit(c, SortedById(us), Some(actor));
      hide TranslationUpdates, SortedById, AuditOk;
      TranslationWrittenKeepsAudit(Cascaded(c, SortedById(us), Some(actor)), actor, id, lang, details);
    }
  }

  lemma WorkWrittenKeepsAudit(c: Catalog, actor: Id, id: Id, origLang: Option<Option<Lang>>, authors: Option<seq<Link>>,
                              details: Option<nat>)
    requires AuditOk(c) && id in c.works && c.works[id].mergedInto.None?
    ensures AuditOk(WorkWritten(c, actor, id, origLang, authors, details))
  {
    hide AuditOk, Deduped;
    var v := WorkWritten(c, actor, id, origLang, authors, details);
    var row := v.audit[|v.audit| - 1];
    assert Records(c, v, row);
    forall e | e != row.entity
      ensures SameRow(c, v, e)
    {
      assert row.entity == WorkEntity(id);
    }
    RecordedKeepsAudit(c, v, row);
  }

  lemma PatchWorkKeepsAudit(c: Catalog, actor: Id, mayEdit: bool, id: Id, expected: nat, origLang: Option<Option<Lang>>,
                            authors: Option<seq<Link>>, details: Option<nat>)
    requires AuditOk(c)
    ensures AuditOk(PatchWork(c, actor, mayEdit, id, expected, origLang, authors, details))
  {
    if PatchWorkReply(c, mayEdit, id, expected, origLang) == Done {
      var us := WorkPlan(c, id, origLang).value;
      WorkPlanIsStored(c, id, origLang);
      SortingKeepsUpdates(us);
      CascadeKeepsOthers(c, SortedById(us), Some(actor));
      CascadeKeepsAudit(c, SortedById(us), Some(actor));
      hide WorkPlan, SortedById, AuditOk;
      WorkWrittenKeepsAudit(Cascaded(c, SortedById(us), Some(actor)), actor, id, origLang, authors, details);
    }
  }

  /** Moving rows between works is no correction: revisions stay, and of all snapshots only the authors change. */
  lemma MoveKeepsAudit(c: Catalog, source: Id, target: Id)
    requires source in c.works && target in c.works && source != target
    requires c.works[source].mergedInto.None? && c.works[target].mergedInto.None?
    requires AuditOk(c)
    ensures AuditOk(Moved(c, source, target))
  {
    var v := Moved(c, source, target);
    assert v.audit == c.audit;
    hide History;
    forall e
      ensures ChainOf(v, e) && (e.WorkEntity? || Exact(v, e))
    {
      assert ChainOf(c, e);
      if !e.WorkEntity? {
        assert Snap(v, e) == Snap(c, e);
      }
    }
  }

  lemma MergeKeepsAudit(c: Catalog, source: Id, target: Id)
    requires AuditOk(c)
    ensures AuditOk(Merge(c, source, target))
  {
    if MergeReply(c, source, target) == Done {
      var us := MergeSets(WorkFacts(c, source), c.works[target].origLang);
      MergeSetsAreStored(c, WorkFacts(c, source), c.works[target].origLang);
      SortingKeepsUpdates(us);
      CascadeKeepsOthers(c, SortedById(us), None);
      CascadeKeepsAudit(c, SortedById(us), None);
      MoveKeepsAudit(Cascaded(c, SortedById(us), None), source, target);
    }
  }

  // ----- runs -----

  datatype Step =
    | CreatesWork(id: Id, origLang: Option<Lang>, authors: seq<Link>, details: nat)
    | CreatesTranslation(work: Id, id: Id, lang: Lang, details: nat)
    | CreatesEdition(work: Id, id: Id, translation: Option<Id>, details: nat)
    | PatchesEdition(actor: Id, mayEdit: bool, id: Id, expected: nat, patch: Patch, change: Option<nat>)
    | PatchesTranslation(actor: Id, mayEdit: bool, id: Id, expected: nat, newLang: Option<Lang>, change: Option<nat>)
    | PatchesWork(actor: Id, mayEdit: bool, id: Id, expected: nat, newOrigLang: Option<Option<Lang>>,
                  newAuthors: Option<seq<Link>>, change: Option<nat>)
    | Merges(source: Id, target: Id)

  function Next(c: Catalog, s: Step): Catalog {
    match s
    case CreatesWork(id, origLang, authors, details) =>
      if id in c.works then c else AddWork(c, id, origLang, authors, details)
    case CreatesTranslation(work, id, lang, details) =>
      if id in c.translations then c else AddTranslation(c, work, id, lang, details)
    case CreatesEdition(work, id, translation, details) =>
      if id in c.editions then c else CreateEdition(c, work, id, translation, details)
    case PatchesEdition(actor, mayEdit, id, expected, patch, change) =>
      PatchEdition(c, actor, mayEdit, id, expected, patch, change)
    case PatchesTranslation(actor, mayEdit, id, expected, lang, change) =>
      PatchTranslation(c, actor, mayEdit, id, expected, lang, change)
    case PatchesWork(actor, mayEdit, id, expected, origLang, authors, change) =>
      PatchWork(c, actor, mayEdit, id, expected, origLang, authors, change)
    case Merges(source, target) => Merge(c, source, target)
  }

  function Run(steps: seq<Step>): Catalog {
    if |steps| == 0 then EMPTY_CATALOG else Next(Run(steps[..|steps| - 1]), steps[|steps| - 1])
  }

  lemma NewWorkKeepsRules(c: Catalog, id: Id, origLang: Option<Lang>, authors: seq<Link>, details: nat)
    requires Rules(c) && id !in c.works
    ensures Rules(AddWork(c, id, origLang, authors, details))
  {
    var v := AddWork(c, id, origLang, authors, details);
    DedupedIsDistinct(authors);
    hide Deduped, AllDistinct;
    forall e | e in v.editions
      ensures EditionOk(v, e)
    {
      assert EditionOk(c, e);
    }
    forall w | w in v.works
      ensures WorkOk(v, w)
    {
      assert w in c.works ==> WorkOk(c, w);
    }
  }

  lemma NewTranslationKeepsRules(c: Catalog, work: Id, id: Id, lang: Lang, details: nat)
    requires Rules(c) && id !in c.translations
    ensures Rules(AddTranslation(c, work, id, lang, details))
  {
    var v := AddTranslation(c, work, id, lang, details);
    forall e | e in v.editions
      ensures EditionOk(v, e)
    {
      assert EditionOk(c, e);
    }
    assert forall w | w in v.works :: WorkOk(c, w);
  }

  lemma NextKeepsRules(c: Catalog, s: Step)
    requires Rules(c)
    ensures Rules(Next(c, s))
  {
    hide Rules;
    match s {
      case CreatesWork(id, origLang, authors, details) =>
        if id !in c.works {
          NewWorkKeepsRules(c, id, origLang, authors, details);
        }
      case CreatesTranslation(work, id, lang, details) =>
        if id !in c.translations {
          NewTranslationKeepsRules(c, work, id, lang, details);
        }
      case CreatesEdition(work, id, translation, details) =>
        if id !in c.editions {
          CreationKeepsRules(c, work, id, translation, details);
        }
      case PatchesEdition(actor, mayEdit, id, expected, patch, change) =>
        PatchEditionKeepsRules(c, actor, mayEdit, id, expected, patch, change);
      case PatchesTranslation(actor, mayEdit, id, expected, lang, change) =>
        PatchTranslationKeepsRules(c, actor, mayEdit, id, expected, lang, change);
      case PatchesWork(actor, mayEdit, id, expected, origLang, authors, change) =>
        PatchWorkKeepsRules(c, actor, mayEdit, id, expected, origLang, authors, change);
      case Merges(source, target) => MergeKeepsRules(c, source, target);
    }
  }

  lemma NextKeepsAudit(c: Catalog, s: Step)
    requires AuditOk(c)
    ensures AuditOk(Next(c, s))
  {
    hide AuditOk, PatchEdition, PatchTranslation, PatchWork, Merge;
    match s {
      case CreatesWork(id, _, _, _) =>
        if id !in c.works {
          CreationKeepsAudit(c, Next(c, s), WorkEntity(id));
        }
      case CreatesTranslation(work, id, _, _) =>
        if id !in c.translations && CanonicalReply(c, work) == Done {
          CreationKeepsAudit(c, Next(c, s), TranslationEntity(id));
        }
      case CreatesEdition(work, id, translation, _) =>
        if id !in c.editions && CreateEditionReply(c, work, translation) == Done {
          CreationKeepsAudit(c, Next(c, s), EditionEntity(id));
        }
      case PatchesEdition(actor, mayEdit, id, expected, patch, change) =>
        PatchEditionKeepsAudit(c, actor, mayEdit, id, expected, patch, change);
      case PatchesTranslation(actor, mayEdit, id, expected, lang, change) =>
        PatchTranslationKeepsAudit(c, actor, mayEdit, id, expected, lang, change);
      case PatchesWork(actor, mayEdit, id, expected, origLang, authors, change) =>
        PatchWorkKeepsAudit(c, actor, mayEdit, id, expected, origLang, authors, change);
      case Merges(source, target) => MergeKeepsAudit(c, source, target);
    }
  }

  /**
   * Whatever is created, corrected and merged, in whatever order: the rules hold, the chains of editions and
   * translations tell every change, and those of works every change but the authors that merges move.
   */
  lemma {:induction false} RunKeepsRules(steps: seq<Step>)
    ensures Rules(Run(steps)) && AuditOk(Run(steps))
  {
    if |steps| > 0 {
      RunKeepsRules(steps[..|steps| - 1]);
      NextKeepsRules(Run(steps[..|steps| - 1]), steps[|steps| - 1]);
      NextKeepsAudit(Run(steps[..|steps| - 1]), steps[|steps| - 1]);
    }
  }

  // ----- at most one correction per expected revision -----

  /** Where an audit row stands in the history of its entity. */
  lemma {:induction false} PlaceInHistory(audit: seq<AuditRow>, e: Entity, i: nat)
    requires i < |audit| && audit[i].entity == e
    ensures |History(audit[..i], e)| < |History(audit, e)|
    ensures History(audit, e)[|History(audit[..i], e)|] == audit[i]
  {
    var n := |audit| - 1;
    if i < n {
      assert audit[..n][..i] == audit[..i];
      PlaceInHistory(audit[..n], e, i);
    }
  }

  lemma {:induction false} HistoryGrows(audit: seq<AuditRow>, e: Entity, i: nat, j: nat)
    requires i < j <= |audit| && audit[i].entity == e
    ensures |History(audit[..i], e)| < |History(audit[..j], e)|
  {
    assert audit[..j][..i] == audit[..i];
    PlaceInHistory(audit[..j], e, i);
  }

  /** In the whole audit of a run no two corrections of one entity start from the same revision. */
  lemma OneCorrectionPerRevision(steps: seq<Step>, i: nat, j: nat)
    requires i < j < |Run(steps).audit| && Run(steps).audit[i].entity == Run(steps).audit[j].entity
    ensures Run(steps).audit[i].from < Run(steps).audit[j].from
    ensures Run(steps).audit[i].to == Run(steps).audit[i].from + 1
  {
    var audit, e := Run(steps).audit, Run(steps).audit[i].entity;
    RunKeepsRules(steps);
    assert ChainOf(Run(steps), e);
    PlaceInHistory(audit, e, i);
    PlaceInHistory(audit, e, j);
    HistoryGrows(audit, e, i, j);
    assert Snap(Run(steps), e).Some?;
  }

  /** The entity and the revision an accepted patch corrects. */
  function Corrects(s: Step): Option<(Entity, nat)> {
    match s
    case PatchesEdition(_, _, id, expected, _, _) => Some((EditionEntity(id), expected))
    case PatchesTranslation(_, _, id, expected, _, _) => Some((TranslationEntity(id), expected))
    case PatchesWork(_, _, id, expected, _, _, _) => Some((WorkEntity(id), expected))
    case _ => None
  }

  predicate Accepts(c: Catalog, s: Step)
    requires Corrects(s).Some?
  {
    match s
    case PatchesEdition(_, mayEdit, id, expected, patch, _) => PatchEditionReply(c, mayEdit, id, expected, patch) == Done
    case PatchesTranslation(_, mayEdit, id, expected, _, _) => PatchTranslationReply(c, mayEdit, id, expected) == Done
    case PatchesWork(_, mayEdit, id, expected, origLang, _, _) => PatchWorkReply(c, mayEdit, id, expected, origLang) == Done
  }

  function RevisionOf(c: Catalog, e: Entity): nat {
    match Snap(c, e)
    case None => 0
    case Some((revision, _)) => revision
  }

  lemma {:induction false} CascadeRaises(c: Catalog, us: seq<Update>, actor: Option<Id>, e: Entity)
    requires AllStored(c, us)
    ensures RevisionOf(Cascaded(c, us, actor), e) >= RevisionOf(c, e)
  {
    if |us| > 0 {
      CascadeRaises(c, us[..|us| - 1], actor, e);
    }
  }

  lemma TranslationPatchRaises(c: Catalog, s: Step, e: Entity)
    requires s.PatchesTranslation? && Accepts(c, s)
    ensures RevisionOf(Next(c, s), e) >= RevisionOf(c, e)
    ensures RevisionOf(Next(c, s), TranslationEntity(s.id)) == s.expected + 1
  {
    var us := TranslationUpdates(c, s.id, s.newLang);
    SortingKeepsUpdates(us);
    CascadeKeepsOthers(c, SortedById(us), Some(s.actor));
    CascadeRaises(c, SortedById(us), Some(s.actor), e);
  }

  lemma WorkPatchRaises(c: Catalog, s: Step, e: Entity)
    requires s.PatchesWork? && Accepts(c, s)
    ensures RevisionOf(Next(c, s), e) >= RevisionOf(c, e)
    ensures RevisionOf(Next(c, s), WorkEntity(s.id)) == s.expected + 1
  {
    hide WorkFacts, PlanWorkOriginalLangChange;
    var us := WorkPlan(c, s.id, s.newOrigLang).value;
    WorkPlanIsStored(c, s.id, s.newOrigLang);
    SortingKeepsUpdates(us);
    CascadeKeepsOthers(c, SortedById(us), Some(s.actor));
    CascadeRaises(c, SortedById(us), Some(s.actor), e);
  }

  lemma MoveRaises(c: Catalog, source: Id, target: Id, e: Entity)
    requires source in c.works && target in c.works
    ensures RevisionOf(Moved(c, source, target), e) >= RevisionOf(c, e)
  {
  }

  lemma MergeRaises(c: Catalog, source: Id, target: Id, e: Entity)
    ensures RevisionOf(Merge(c, source, target), e) >= RevisionOf(c, e)
  {
    if MergeReply(c, source, target) == Done {
      var us := MergeSets(WorkFacts(c, source), c.works[target].origLang);
      MergeSetsAreStored(c, WorkFacts(c, source), c.works[target].origLang);
      SortingKeepsUpdates(us);
      CascadeKeepsOthers(c, SortedById(us), None);
      CascadeRaises(c, SortedById(us), None, e);
      hide WorkFacts, MergeSets, SortedById, Cascaded, Moved, RevisionOf;
      MoveRaises(Cascaded(c, SortedById(us), None), source, target, e);
    }
  }

  /** Revisions never fall, and an accepted patch takes its entity past the revision it named. */
  lemma RevisionRises(c: Catalog, s: Step, e: Entity)
    ensures RevisionOf(Next(c, s), e) >= RevisionOf(c, e)
    ensures Corrects(s).Some? && Accepts(c, s) ==>
              RevisionOf(c, Corrects(s).value.0) == Corrects(s).value.1
              && RevisionOf(Next(c, s), Corrects(s).value.0) == Corrects(s).value.1 + 1
  {
    hide PatchTranslation, PatchWork, Merge, ResolveEditionText, WorkPlan;
    match s {
      case PatchesTranslation(actor, mayEdit, id, expected, lang, change) =>
        if Accepts(c, s) {
          TranslationPatchRaises(c, s, e);
        } else {
          RefusedPatchChangesNothing(c, s);
        }
      case PatchesWork(actor, mayEdit, id, expected, origLang, authors, change) =>
        if Accepts(c, s) {
          WorkPatchRaises(c, s, e);
        } else {
          RefusedPatchChangesNothing(c, s);
        }
      case Merges(source, target) => MergeRaises(c, source, target, e);
      case _ =>
    }
  }

  lemma RefusedPatchChangesNothing(c: Catalog, s: Step)
    requires Corrects(s).Some? && !Accepts(c, s)
    ensures Next(c, s) == c
  {
  }

  lemma {:induction false} RunRaises(steps: seq<Step>, i: nat, e: Entity)
    requires i <= |steps|
    ensures RevisionOf(Run(steps[..i]), e) <= RevisionOf(Run(steps), e)
  {
    if i == |steps| {
      assert steps[..i] == steps;
    } else {
      var init := steps[..|steps| - 1];
      assert init[..i] == steps[..i];
      RunRaises(init, i, e);
      RevisionRises(Run(init), steps[|steps| - 1], e);
    }
  }

  /** Of all patches that name one revision of one entity, at most one is ever accepted. */
  lemma OnePatchPerRevision(steps: seq<Step>, i: nat, j: nat)
    requires i < j < |steps|
    requires Corrects(steps[i]).Some? && Corrects(steps[j]) == Corrects(steps[i])
    requires Accepts(Run(steps[..i]), steps[i])
    ensures !Accepts(Run(steps[..j]), steps[j])
  {
    var e := Corrects(steps[i]).value.0;
    assert steps[..i + 1][..i] == steps[..i];
    RevisionRises(Run(steps[..i]), steps[i], e);
    assert steps[..j][..i + 1] == steps[..i + 1];
    RunRaises(steps[..j], i + 1, e);
    RevisionRises(Run(steps[..j]), steps[j], e);
  }
}
