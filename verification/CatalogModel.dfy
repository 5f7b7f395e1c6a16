/**
 * Works, translations and editions, with optimistic revisions and an audit row for every correction.
 * Columns that no rule reads are one opaque value, `details`. A refused operation is rolled back.
 */
module CatalogModel {
  import opened Counting
  import opened Wrappers
  import opened EditionLanguage
  import opened AuthorLinks

  /** `authors` are the links of the work by position. */
  datatype Work = Work(origLang: Option<Lang>, authors: seq<Link>, details: nat, revision: nat, mergedInto: Option<Id>)

  datatype Translation = Translation(work: Id, lang: Lang, details: nat, revision: nat)

  datatype Edition = Edition(work: Id, text: Text, details: nat, revision: nat)

  datatype Entity = WorkEntity(id: Id) | TranslationEntity(id: Id) | EditionEntity(id: Id)

  /** What an audit row keeps of a row: everything a person may edit, not its work and not its revision. */
  datatype Snapshot =
    | WorkSnapshot(origLang: Option<Lang>, authors: seq<Link>, details: nat)
    | TranslationSnapshot(translationLang: Lang, details: nat)
    | EditionSnapshot(text: Text, details: nat)

  datatype AuditRow = AuditRow(entity: Entity, actor: Option<Id>, before: Snapshot, after: Snapshot, from: nat, to: nat)

  datatype Catalog = Catalog(
    works: map<Id, Work>, translations: map<Id, Translation>, editions: map<Id, Edition>, audit: seq<AuditRow>)

  const EMPTY_CATALOG := Catalog(map[], map[], map[], [])

  datatype Reply =
    | Done
    | NotFound
    | Merged
    | Forbidden
    | TranslationElsewhere
    | RevisionConflict
    | LanguageConflictOf(editions: seq<Id>)
    | TextRefused(refusal: Refusal)
    | MergeOfItself

  // ----- rows and their snapshots -----

  function SnapshotOf(work: Work): Snapshot {
    WorkSnapshot(work.origLang, work.authors, work.details)
  }

  function Snap(c: Catalog, e: Entity): Option<(nat, Snapshot)> {
    match e
    case WorkEntity(id) =>
      if id in c.works then Some((c.works[id].revision, SnapshotOf(c.works[id]))) else None
    case TranslationEntity(id) =>
      if id in c.translations
      then Some((c.translations[id].revision, TranslationSnapshot(c.translations[id].lang, c.translations[id].details)))
      else None
    case EditionEntity(id) =>
      if id in c.editions then Some((c.editions[id].revision, EditionSnapshot(c.editions[id].text, c.editions[id].details)))
      else None
  }

  /** The audit rows of one entity, oldest first. */
  function History(audit: seq<AuditRow>, e: Entity): seq<AuditRow> {
    if |audit| == 0 then []
    else
      var last := audit[|audit| - 1];
      History(audit[..|audit| - 1], e) + if last.entity == e then [last] else []
  }

  // ----- the cascade of a language -----

  function UpdateText(c: Catalog, u: Update, actor: Option<Id>): Catalog
    requires u.id in c.editions
  {
    var before := c.editions[u.id];
    var after := before.(text := before.text.(lang := Some(u.lang)), revision := before.revision + 1);
    c.(editions := c.editions[u.id := after],
       audit := c.audit + [AuditRow(EditionEntity(u.id), actor, EditionSnapshot(before.text, before.details),
                                    EditionSnapshot(after.text, after.details), before.revision, after.revision)])
  }

  predicate AllStored(c: Catalog, us: seq<Update>) {
    forall u | u in us :: u.id in c.editions
  }

  function Cascaded(c: Catalog, us: seq<Update>, actor: Option<Id>): (r: Catalog)
    requires AllStored(c, us)
    ensures r.editions.Keys == c.editions.Keys
  {
    if |us| == 0 then c
    else
      var init := us[..|us| - 1];
      UpdateText(Cascaded(c, init, actor), us[|us| - 1], actor)
  }

  /** `[...updates].sort` by id. */
  function InsertById(u: Update, us: seq<Update>): seq<Update> {
    if |us| == 0 || u.id <= us[0].id then [u] + us else [us[0]] + InsertById(u, us[1..])
  }

  function SortedById(us: seq<Update>): seq<Update> {
    if |us| == 0 then [] else InsertById(us[0], SortedById(us[1..]))
  }

  // ----- the rows of a work or a translation, by ascending id -----

  function EditionsOf(c: Catalog, work: Id): set<Id> {
    set e | e in c.editions && c.editions[e].work == work
  }

  function FactsOf(c: Catalog, ids: seq<Id>): (facts: seq<LangFacts>)
    requires forall x | x in ids :: x in c.editions
    ensures |facts| == |ids|
    ensures forall i | 0 <= i < |facts| :: facts[i].id == ids[i]
  {
    if |ids| == 0 then []
    else
      [LangFacts(ids[0], c.editions[ids[0]].text.kind, c.editions[ids[0]].text.lang)] + FactsOf(c, ids[1..])
  }

  /** The editions of a work as the planners see them. */
  function WorkFacts(c: Catalog, work: Id): (facts: seq<LangFacts>)
    ensures forall i | 0 <= i < |facts| :: facts[i].id in c.editions
  {
    var ids := Listed(EditionsOf(c, work));
    FactsOf(c, ids)
  }

  // ----- creation -----

  function AddWork(c: Catalog, id: Id, origLang: Option<Lang>, authors: seq<Link>, details: nat): Catalog {
    c.(works := c.works[id := Work(origLang, Deduped(authors), details, 1, None)])
  }

  function CanonicalReply(c: Catalog, work: Id): Reply {
    if work !in c.works then NotFound else if c.works[work].mergedInto.Some? then Merged else Done
  }

  function AddTranslation(c: Catalog, work: Id, id: Id, lang: Lang, details: nat): Catalog {
    if CanonicalReply(c, work) != Done then c
    else c.(translations := c.translations[id := Translation(work, lang, details, 1)])
  }

  /** The translation belongs to the same work, if there is one. */
  predicate SameWork(c: Catalog, work: Id, translation: Option<Id>) {
    translation.Some? ==> translation.value in c.translations && c.translations[translation.value].work == work
  }

  function LangOf(c: Catalog, translation: Option<Id>): Option<Lang> {
    if translation.Some? && translation.value in c.translations then Some(c.translations[translation.value].lang) else None
  }

  /** `createEdition` states the kind itself: linked to a translation or an original. */
  function CreationPatch(translation: Option<Id>): Patch {
    Patch(Some(if translation.None? then Original else Translated), None, Some(translation))
  }

  function CreationText(c: Catalog, work: Id, translation: Option<Id>): Result<Text, Refusal>
    requires work in c.works
  {
    ResolveEditionText(None, CreationPatch(translation), Context(c.works[work].origLang, LangOf(c, translation), None))
  }

  function CreateEditionReply(c: Catalog, work: Id, translation: Option<Id>): Reply {
    if CanonicalReply(c, work) != Done then CanonicalReply(c, work)
    else if !SameWork(c, work, translation) then TranslationElsewhere
    else
      match CreationText(c, work, translation)
      case Failure(refusal) => TextRefused(refusal)
      case Success(_) => Done
  }

  function CreateEdition(c: Catalog, work: Id, id: Id, translation: Option<Id>, details: nat): Catalog {
    if CreateEditionReply(c, work, translation) != Done then c
    else c.(editions := c.editions[id := Edition(work, CreationText(c, work, translation).value, details, 1)])
  }

  // ----- corrections -----

  predicate ChangesText(patch: Patch) {
    patch.kind.Some? || patch.lang.Some? || patch.translation.Some?
  }

  function PatchContext(c: Catalog, id: Id, patch: Patch): Context
    requires id in c.editions && c.editions[id].work in c.works
  {
    var before := c.editions[id];
    var target := if patch.translation.None? then before.text.translation else patch.translation.value;
    Context(c.works[before.work].origLang, LangOf(c, target), LangOf(c, before.text.translation))
  }

  function PatchedText(c: Catalog, id: Id, patch: Patch): Result<Text, Refusal>
    requires id in c.editions && c.editions[id].work in c.works
  {
    if !ChangesText(patch) then Success(c.editions[id].text)
    else ResolveEditionText(Some(c.editions[id].text), patch, PatchContext(c, id, patch))
  }

  function PatchEditionReply(c: Catalog, mayEdit: bool, id: Id, expected: nat, patch: Patch): Reply {
    if id !in c.editions || c.editions[id].work !in c.works then NotFound
    else if !mayEdit then Forbidden
    else if patch.translation.Some? && !SameWork(c, c.editions[id].work, patch.translation.value) then TranslationElsewhere
    else if c.editions[id].revision != expected then RevisionConflict
    else
      match PatchedText(c, id, patch)
      case Failure(refusal) => TextRefused(refusal)
      case Success(_) => Done
  }

  function PatchEdition(c: Catalog, actor: Id, mayEdit: bool, id: Id, expected: nat, patch: Patch, details: Option<nat>): Catalog {
    if PatchEditionReply(c, mayEdit, id, expected, patch) != Done then c
    else
      var before := c.editions[id];
      var after := before.(text := PatchedText(c, id, patch).value,
                           details := if details.Some? then details.value else before.details,
                           revision := before.revision + 1);
      c.(editions := c.editions[id := after],
         audit := c.audit + [AuditRow(EditionEntity(id), Some(actor), EditionSnapshot(before.text, before.details),
                                      EditionSnapshot(after.text, after.details), before.revision, after.revision)])
  }

  /** The editions a change of the translation's language has to follow. */
  function LinkedElsewhere(c: Catalog, id: Id, lang: Lang): set<Id> {
    set e | e in c.editions && c.editions[e].text.translation == Some(id) && c.editions[e].text.lang != Some(lang)
  }

  function UpdatesTo(ids: seq<Id>, lang: Lang): (us: seq<Update>)
    ensures forall u :: u in us <==> u.id in ids && u.lang == lang
  {
    if |ids| == 0 then [] else [Update(ids[0], lang)] + UpdatesTo(ids[1..], lang)
  }

  function TranslationUpdates(c: Catalog, id: Id, lang: Option<Lang>): seq<Update>
    requires id in c.translations
  {
    if lang.None? || lang.value == c.translations[id].lang then []
    else UpdatesTo(Listed(LinkedElsewhere(c, id, lang.value)), lang.value)
  }

  function PatchTranslationReply(c: Catalog, mayEdit: bool, id: Id, expected: nat): Reply {
    if id !in c.translations then NotFound
    else if !mayEdit then Forbidden
    else if c.translations[id].revision != expected then RevisionConflict
    else Done
  }

  function TranslationWritten(c: Catalog, actor: Id, id: Id, lang: Option<Lang>, details: Option<nat>): Catalog
    requires id in c.translations
  {
    var before := c.translations[id];
    var after := before.(lang := if lang.Some? then lang.value else before.lang,
                         details := if details.Some? then details.value else before.details,
                         revision := before.revision + 1);
    c.(translations := c.translations[id := after],
       audit := c.audit + [AuditRow(TranslationEntity(id), Some(actor), TranslationSnapshot(before.lang, before.details),
                                    TranslationSnapshot(after.lang, after.details), before.revision, after.revision)])
  }

  function PatchTranslation(c: Catalog, actor: Id, mayEdit: bool, id: Id, expected: nat, lang: Option<Lang>,
                            details: Option<nat>): Catalog
  {
    if PatchTranslationReply(c, mayEdit, id, expected) != Done then c
    else
      var us := TranslationUpdates(c, id, lang);
      SortingKeepsUpdates(us);
      CascadeKeepsOthers(c, SortedById(us), Some(actor));
      TranslationWritten(Cascaded(c, SortedById(us), Some(actor)), actor, id, lang, details)
  }

  function WorkPlan(c: Catalog, id: Id, origLang: Option<Option<Lang>>): Result<seq<Update>, seq<Id>>
    requires id in c.works
  {
    if origLang.None? || origLang.value == c.works[id].origLang then Success([])
    else PlanWorkOriginalLangChange(WorkFacts(c, id), c.works[id].origLang, origLang.value)
  }

  function PatchWorkReply(c: Catalog, mayEdit: bool, id: Id, expected: nat, origLang: Option<Option<Lang>>): Reply {
    if id !in c.works then NotFound
    else if c.works[id].mergedInto.Some? then Merged
    else if !mayEdit then Forbidden
    else if c.works[id].revision != expected then RevisionConflict
    else
      match WorkPlan(c, id, origLang)
      case Failure(ids) => LanguageConflictOf(ids)
      case Success(_) => Done
  }

  /** A list of authors that was sent replaces the stored one as a whole. */
  function WorkWritten(c: Catalog, actor: Id, id: Id, origLang: Option<Option<Lang>>, authors: Option<seq<Link>>,
                       details: Option<nat>): Catalog
    requires id in c.works
  {
    var before := c.works[id];
    var after := before.(origLang := if origLang.Some? then origLang.value else before.origLang,
                         authors := if authors.Some? then Deduped(authors.value) else before.authors,
                         details := if details.Some? then details.value else before.details,
                         revision := before.revision + 1);
    c.(works := c.works[id := after],
       audit := c.audit + [AuditRow(WorkEntity(id), Some(actor), SnapshotOf(before), SnapshotOf(after),
                                    before.revision, after.revision)])
  }

  function PatchWork(c: Catalog, actor: Id, mayEdit: bool, id: Id, expected: nat, origLang: Option<Option<Lang>>,
                     authors: Option<seq<Link>>, details: Option<nat>): Catalog
  {
    if PatchWorkReply(c, mayEdit, id, expected, origLang) != Done then c
    else
      var us := WorkPlan(c, id, origLang).value;
      WorkPlanIsStored(c, id, origLang);
      SortingKeepsUpdates(us);
      CascadeKeepsOthers(c, SortedById(us), Some(actor));
      WorkWritten(Cascaded(c, SortedById(us), Some(actor)), actor, id, origLang, authors, details)
  }

  // ----- merging a work into another -----

  function MergeSets(facts: seq<LangFacts>, targetOrigLang: Option<Lang>): seq<Update> {
    if |facts| == 0 then []
    else
      var last := facts[|facts| - 1];
      var action := PlanMergeLanguage(last, targetOrigLang);
      MergeSets(facts[..|facts| - 1], targetOrigLang) + if action.Set? then [Update(last.id, action.lang)] else []
  }

  function MergeConflicts(facts: seq<LangFacts>, targetOrigLang: Option<Lang>): seq<Id> {
    if |facts| == 0 then []
    else
      var last := facts[|facts| - 1];
      MergeConflicts(facts[..|facts| - 1], targetOrigLang)
      + if PlanMergeLanguage(last, targetOrigLang) == Conflict then [last.id] else []
  }

  method PlanMerge(facts: seq<LangFacts>, targetOrigLang: Option<Lang>) returns (updates: seq<Update>, conflicts: seq<Id>)
    ensures updates == MergeSets(facts, targetOrigLang) && conflicts == MergeConflicts(facts, targetOrigLang)
  {
    updates, conflicts := [], [];
    for i := 0 to |facts|
      invariant updates == MergeSets(facts[..i], targetOrigLang)
      invariant conflicts == MergeConflicts(facts[..i], targetOrigLang)
    {
      assert facts[..i + 1][..i] == facts[..i];
      var plan := PlanMergeLanguage(facts[i], targetOrigLang);
      if plan == Conflict {
        conflicts := conflicts + [facts[i].id];
      } else if plan.Set? && Some(plan.lang) != facts[i].lang {
        updates := updates + [Update(facts[i].id, plan.lang)];
      }
    }
    assert facts[..|facts|] == facts;
  }

  function MergeReply(c: Catalog, source: Id, target: Id): Reply {
    if source == target then MergeOfItself
    else if source !in c.works || target !in c.works then NotFound
    else if c.works[source].mergedInto.Some? || c.works[target].mergedInto.Some? then Merged
    else if MergeConflicts(WorkFacts(c, source), c.works[target].origLang) != []
    then LanguageConflictOf(MergeConflicts(WorkFacts(c, source), c.works[target].origLang))
    else Done
  }

  /** What a merge does to a work: the target takes over the source's authors, the source has none any more. */
  function MergedWork(c: Catalog, source: Id, target: Id, w: Id): Work
    requires source in c.works && target in c.works && w in c.works
  {
    var work := c.works[w];
    if w == source then work.(authors := [], mergedInto := Some(target))
    else
      work.(authors := if w == target then Consolidated(work.authors, c.works[source].authors) else work.authors,
            mergedInto := if work.mergedInto == Some(source) then Some(target) else work.mergedInto)
  }

  /** Translations and editions move; what pointed to the source now points to the target. No revision counts up. */
  function Moved(c: Catalog, source: Id, target: Id): Catalog
    requires source in c.works && target in c.works
  {
    c.(translations := map t | t in c.translations ::
         if c.translations[t].work == source then c.translations[t].(work := target) else c.translations[t],
       editions := map e | e in c.editions ::
         if c.editions[e].work == source then c.editions[e].(work := target) else c.editions[e],
       works := map w | w in c.works :: MergedWork(c, source, target, w))
  }

  function Merge(c: Catalog, source: Id, target: Id): Catalog {
    if MergeReply(c, source, target) != Done then c
    else
      var us := MergeSets(WorkFacts(c, source), c.works[target].origLang);
      MergeSetsAreStored(c, WorkFacts(c, source), c.works[target].origLang);
      SortingKeepsUpdates(us);
      CascadeKeepsOthers(c, SortedById(us), None);
      Moved(Cascaded(c, SortedById(us), None), source, target)
  }

  // ----- facts the definitions above rest on -----

  lemma {:induction false} InsertingKeepsUpdates(u: Update, us: seq<Update>)
    ensures forall x :: x in InsertById(u, us) <==> x == u || x in us
  {
    if |us| > 0 && u.id > us[0].id {
      InsertingKeepsUpdates(u, us[1..]);
      forall x
        ensures x in InsertById(u, us) <==> x == u || x in us
      {
        assert us == [us[0]] + us[1..];
      }
    }
  }

  lemma {:induction false} SortingKeepsUpdates(us: seq<Update>)
    ensures forall x :: x in SortedById(us) <==> x in us
  {
    if |us| > 0 {
      SortingKeepsUpdates(us[1..]);
      InsertingKeepsUpdates(us[0], SortedById(us[1..]));
      forall x
        ensures x in SortedById(us) <==> x in us
      {
        assert us == [us[0]] + us[1..];
      }
    }
  }

  predicate AscendingIds(us: seq<Update>) {
    forall i, j | 0 <= i < j < |us| :: us[i].id <= us[j].id
  }

  lemma {:induction false} InsertingKeepsOrder(u: Update, us: seq<Update>)
    requires AscendingIds(us)
    ensures AscendingIds(InsertById(u, us))
  {
    if |us| > 0 && u.id > us[0].id {
      InsertingKeepsOrder(u, us[1..]);
      InsertingKeepsUpdates(u, us[1..]);
      var rest := InsertById(u, us[1..]);
      forall j | 0 <= j < |rest|
        ensures us[0].id <= rest[j].id
      {
        assert rest[j] in rest;
        if rest[j] != u {
          var k :| 0 <= k < |us[1..]| && us[1..][k] == rest[j];
          assert us[k + 1] == rest[j];
        }
      }
    }
  }

  /** Sorting keeps the updates and puts them in the order in which the rows are locked. */
  lemma {:induction false} SortingOrders(us: seq<Update>)
    ensures AscendingIds(SortedById(us))
  {
    if |us| > 0 {
      SortingOrders(us[1..]);
      InsertingKeepsOrder(us[0], SortedById(us[1..]));
    }
  }

  lemma {:induction false} CascadeKeepsOthers(c: Catalog, us: seq<Update>, actor: Option<Id>)
    requires AllStored(c, us)
    ensures Cascaded(c, us, actor).works == c.works && Cascaded(c, us, actor).translations == c.translations
  {
    if |us| > 0 {
      CascadeKeepsOthers(c, us[..|us| - 1], actor);
    }
  }

  lemma WorkPlanIsStored(c: Catalog, id: Id, origLang: Option<Option<Lang>>)
    requires id in c.works && WorkPlan(c, id, origLang).Success?
    ensures forall u | u in WorkPlan(c, id, origLang).value :: u.id in c.editions
  {
    if origLang.Some? && origLang.value.Some? {
      forall u | u in WorkPlan(c, id, origLang).value
        ensures u.id in c.editions
      {
        UpdatesAreTheMoving(WorkFacts(c, id), c.works[id].origLang, origLang.value.value, u);
      }
    }
  }

  lemma {:induction false} MergeSetsAreThe(facts: seq<LangFacts>, targetOrigLang: Option<Lang>, u: Update)
    ensures u in MergeSets(facts, targetOrigLang)
            <==> exists i :: 0 <= i < |facts| && facts[i].id == u.id && PlanMergeLanguage(facts[i], targetOrigLang) == Set(u.lang)
  {
    if |facts| > 0 {
      var n := |facts| - 1;
      MergeSetsAreThe(facts[..n], targetOrigLang, u);
      assert forall i | 0 <= i < n :: facts[..n][i] == facts[i];
    }
  }

  lemma {:induction false} MergeConflictsAreThe(facts: seq<LangFacts>, targetOrigLang: Option<Lang>, id: Id)
    ensures id in MergeConflicts(facts, targetOrigLang)
            <==> exists i :: 0 <= i < |facts| && facts[i].id == id && PlanMergeLanguage(facts[i], targetOrigLang) == Conflict
  {
    if |facts| > 0 {
      var n := |facts| - 1;
      MergeConflictsAreThe(facts[..n], targetOrigLang, id);
      assert forall i | 0 <= i < n :: facts[..n][i] == facts[i];
    }
  }

  lemma MergeSetsAreStored(c: Catalog, facts: seq<LangFacts>, targetOrigLang: Option<Lang>)
    requires forall i | 0 <= i < |facts| :: facts[i].id in c.editions
    ensures forall u | u in MergeSets(facts, targetOrigLang) :: u.id in c.editions
  {
    forall u | u in MergeSets(facts, targetOrigLang)
      ensures u.id in c.editions
    {
      MergeSetsAreThe(facts, targetOrigLang, u);
    }
  }
}
