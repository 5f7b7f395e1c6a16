/**
 * What the operations of the catalog leave in the rows: each is told by its fields before and after, with every other
 * row as it was.
 */
module CatalogEffects {
  import opened Counting
  import opened Wrappers
  import opened EditionLanguage
  import opened AuthorLinks
  import opened CatalogModel
  import opened CatalogRules

  // ----- creation -----

  lemma WorkCreated(c: Catalog, id: Id, origLang: Option<Lang>, authors: seq<Link>, details: nat)
    ensures
      var v := AddWork(c, id, origLang, authors, details);
      && id in v.works && v == c.(works := c.works[id := v.works[id]])
      && v.works[id].origLang == origLang && v.works[id].details == details
      && v.works[id].revision == 1 && v.works[id].mergedInto.None?
      && AllDistinct(v.works[id].authors) && forall link :: link in v.works[id].authors <==> link in authors
  {
    DedupedIsDistinct(authors);
    forall link
      ensures link in Deduped(authors) <==> link in authors
    {
      DedupedHasSame(authors, link);
    }
  }

  /** A translation is created on a canonical work or not at all. */
  lemma TranslationCreated(c: Catalog, work: Id, id: Id, lang: Lang, details: nat)
    ensures
      var v := AddTranslation(c, work, id, lang, details);
      if work in c.works && c.works[work].mergedInto.None?
      then v == c.(translations := c.translations[id := Translation(work, lang, details, 1)])
      else v == c
  {
  }

  /** A created edition is linked as asked; without a link it is an original in the language of its work. */
  lemma EditionCreated(c: Catalog, work: Id, id: Id, translation: Option<Id>, details: nat)
    ensures
      var v, reply := CreateEdition(c, work, id, translation, details), CreateEditionReply(c, work, translation);
      && (reply == Done <==>
            && work in c.works && c.works[work].mergedInto.None?
            && (translation.Some? ==> translation.value in c.translations && c.translations[translation.value].work == work))
      && (reply != Done ==> v == c)
      && (reply == Done ==>
            v == c.(editions := c.editions[id := Edition(work,
              if translation.Some? then Text(Translated, Some(c.translations[translation.value].lang), translation)
              else Text(Original, c.works[work].origLang, None), details, 1)]))
  {
  }

  // ----- corrections -----

  /** The language of a translation that may not be there. */
  function LanguageOf(c: Catalog, translation: Option<Id>): Option<Lang> {
    match translation
    case Some(t) => if t in c.translations then Some(c.translations[t].lang) else None
    case None => None
  }

  /** An accepted correction of an edition stores what was sent, and its audit row goes from the old row to the new one. */
  lemma EditionCorrected(c: Catalog, actor: Id, mayEdit: bool, id: Id, expected: nat, patch: Patch, details: Option<nat>)
    requires PatchEditionReply(c, mayEdit, id, expected, patch) == Done
    ensures
      var v := PatchEdition(c, actor, mayEdit, id, expected, patch, details);
      && mayEdit && id in c.editions && id in v.editions && c.editions[id].work in c.works
      && var before, after := c.editions[id], v.editions[id];
      && before.revision == expected && after.revision == expected + 1 && after.work == before.work
      && (patch.translation.Some? ==>
            && after.text.translation == patch.translation.value
            && (after.text.translation.Some? ==>
                  after.text.translation.value in c.translations
                  && c.translations[after.text.translation.value].work == before.work))
      && (patch.kind.Some? ==> after.text.kind == patch.kind.value)
      && (patch.lang.Some? && patch.lang.value.Some? ==> after.text.lang == patch.lang.value)
      && after.details == (if details.Some? then details.value else before.details)
      && v == c.(editions := c.editions[id := after],
                 audit := c.audit + [AuditRow(EditionEntity(id), Some(actor), EditionSnapshot(before.text, before.details),
                                              EditionSnapshot(after.text, after.details), expected, expected + 1)])
  {
  }

  /** And where the text was touched at all, it is the resolution of the stored text and the patch. */
  lemma CorrectionStoresResolution(c: Catalog, actor: Id, mayEdit: bool, id: Id, expected: nat, patch: Patch,
                                   details: Option<nat>)
    requires PatchEditionReply(c, mayEdit, id, expected, patch) == Done
    ensures
      var before, after := c.editions[id], PatchEdition(c, actor, mayEdit, id, expected, patch, details).editions[id];
      var target := if patch.translation.Some? then patch.translation.value else before.text.translation;
      var context := Context(c.works[before.work].origLang, LanguageOf(c, target), LanguageOf(c, before.text.translation));
      if patch == Patch(None, None, None) then after.text == before.text
      else ResolveEditionText(Some(before.text), patch, context) == Success(after.text)
  {
  }

  // ----- the order of a cascade has each edition once -----

  predicate DistinctIds(us: seq<Update>) {
    forall i, j | 0 <= i < j < |us| :: us[i].id != us[j].id
  }

  lemma {:induction false} InsertedOnce(u: Update, us: seq<Update>)
    requires DistinctIds(us) && forall x | x in us :: x.id != u.id
    ensures DistinctIds(InsertById(u, us))
  {
    if |us| > 0 && u.id > us[0].id {
      InsertedOnce(u, us[1..]);
      InsertingKeepsUpdates(u, us[1..]);
      var rest := InsertById(u, us[1..]);
      forall j | 0 <= j < |rest|
        ensures rest[j].id != us[0].id
      {
        assert rest[j] in rest;
        assert rest[j] != u ==> rest[j] in us[1..];
      }
    }
  }

  lemma {:induction false} SortedOnce(us: seq<Update>)
    requires DistinctIds(us)
    ensures DistinctIds(SortedById(us))
  {
    if |us| > 0 {
      SortedOnce(us[1..]);
      SortingKeepsUpdates(us[1..]);
      InsertedOnce(us[0], SortedById(us[1..]));
    }
  }

  /** The edition as a cascade leaves it: with the language, one revision on. */
  function WithLanguage(edition: Edition, lang: Lang): Edition {
    edition.(text := edition.text.(lang := Some(lang)), revision := edition.revision + 1)
  }

  /** The audit row of one edition in a cascade. */
  function CascadeRow(edition: Edition, u: Update, actor: Option<Id>): AuditRow {
    var after := WithLanguage(edition, u.lang);
    AuditRow(EditionEntity(u.id), actor, EditionSnapshot(edition.text, edition.details),
             EditionSnapshot(after.text, after.details), edition.revision, edition.revision + 1)
  }

  lemma UpdateInFields(c: Catalog, u: Update, actor: Option<Id>, e: Id)
    requires u.id in c.editions && e in c.editions
    ensures e in UpdateText(c, u, actor).editions
    ensures UpdateText(c, u, actor).editions[e] == if e == u.id then WithLanguage(c.editions[e], u.lang) else c.editions[e]
  {
  }

  /** The last update of a cascade comes after the others. */
  lemma CascadeByParts(c: Catalog, us: seq<Update>, actor: Option<Id>) returns (before: Catalog)
    requires AllStored(c, us) && |us| > 0
    ensures AllStored(c, us[..|us| - 1]) && before == Cascaded(c, us[..|us| - 1], actor)
    ensures before.editions.Keys == c.editions.Keys && us[|us| - 1].id in before.editions
    ensures Cascaded(c, us, actor) == UpdateText(before, us[|us| - 1], actor)
  {
    before := Cascaded(c, us[..|us| - 1], actor);
    hide UpdateText;
  }

  /** A cascade gives an edition it names its language and one revision, and leaves the others. */
  lemma {:induction false} CascadeInFields(c: Catalog, us: seq<Update>, actor: Option<Id>, e: Id)
    requires AllStored(c, us) && DistinctIds(us) && e in c.editions
    ensures
      var r := Cascaded(c, us, actor).editions[e];
      && (forall u | u in us && u.id == e :: r == WithLanguage(c.editions[e], u.lang))
      && ((forall u | u in us :: u.id != e) ==> r == c.editions[e])
  {
    hide UpdateText, WithLanguage;
    if |us| > 0 {
      var init, last := us[..|us| - 1], us[|us| - 1];
      assert us == init + [last];
      assert forall u | u in init :: u.id != last.id;
      var before := CascadeByParts(c, us, actor);
      CascadeInFields(c, init, actor, e);
      UpdateInFields(before, last, actor, e);
      hide Cascaded;
    }
  }

  /** And writes one audit row for each, in their order. */
  lemma {:induction false} CascadeRows(c: Catalog, us: seq<Update>, actor: Option<Id>)
    requires AllStored(c, us) && DistinctIds(us)
    ensures
      var v := Cascaded(c, us, actor);
      && |v.audit| == |c.audit| + |us| && v.audit[..|c.audit|] == c.audit
      && forall i | 0 <= i < |us| :: v.audit[|c.audit| + i] == CascadeRow(c.editions[us[i].id], us[i], actor)
  {
    if |us| > 0 {
      var init, last := us[..|us| - 1], us[|us| - 1];
      CascadeRows(c, init, actor);
      CascadeInFields(c, init, actor, last.id);
      assert forall u | u in init :: u.id != last.id;
      LastCascadeRow(c, us, actor);
      hide Cascaded, CascadeRow;
      forall i | 0 <= i < |us|
        ensures Cascaded(c, us, actor).audit[|c.audit| + i] == CascadeRow(c.editions[us[i].id], us[i], actor)
      {
        assert i < |init| ==> us[i] == init[i];
      }
    }
  }

  lemma LastCascadeRow(c: Catalog, us: seq<Update>, actor: Option<Id>)
    requires AllStored(c, us) && |us| > 0
    ensures
      var before, last := Cascaded(c, us[..|us| - 1], actor), us[|us| - 1];
      Cascaded(c, us, actor).audit == before.audit + [CascadeRow(before.editions[last.id], last, actor)]
  {
    var before, last := Cascaded(c, us[..|us| - 1], actor), us[|us| - 1];
    assert Cascaded(c, us, actor) == UpdateText(before, last, actor);
    UpdateRow(before, last, actor);
    hide Cascaded, UpdateText, CascadeRow;
  }

  lemma UpdateRow(c: Catalog, u: Update, actor: Option<Id>)
    requires u.id in c.editions
    ensures UpdateText(c, u, actor).audit == c.audit + [CascadeRow(c.editions[u.id], u, actor)]
  {
  }

  // ----- corrections with a cascade -----

  /** What a correction of translation `id` makes of an edition: linked to it and in another language, it follows. */
  function Followed(edition: Edition, id: Id, before: Lang, after: Lang): Edition {
    if after != before && edition.text.translation == Some(id) && edition.text.lang != Some(after)
    then WithLanguage(edition, after) else edition
  }

  lemma EditionFollowsTranslation(c: Catalog, id: Id, lang: Option<Lang>, actor: Option<Id>, e: Id)
    requires id in c.translations && e in c.editions && AllStored(c, SortedById(TranslationUpdates(c, id, lang)))
    ensures
      var before := c.translations[id].lang;
      Cascaded(c, SortedById(TranslationUpdates(c, id, lang)), actor).editions[e]
      == Followed(c.editions[e], id, before, if lang.Some? then lang.value else before)
  {
    var us := TranslationUpdates(c, id, lang);
    SortingKeepsUpdates(us);
    TranslationUpdatesOnce(c, id, lang);
    SortedOnce(us);
    CascadeInFields(c, SortedById(us), actor, e);
    if lang.Some? && lang.value != c.translations[id].lang {
      assert Update(e, lang.value) in us <==> e in LinkedElsewhere(c, id, lang.value);
    }
    hide SortedById, Cascaded;
  }

  lemma TranslationByParts(c: Catalog, actor: Id, mayEdit: bool, id: Id, expected: nat, lang: Option<Lang>,
                           details: Option<nat>) returns (u: Catalog)
    requires PatchTranslationReply(c, mayEdit, id, expected) == Done
    ensures mayEdit && id in c.translations && c.translations[id].revision == expected
    ensures u.works == c.works && u.translations == c.translations && u.editions.Keys == c.editions.Keys
    ensures |c.audit| <= |u.audit| && u.audit[..|c.audit|] == c.audit
    ensures
      var before := c.translations[id].lang;
      forall e | e in c.editions ::
        u.editions[e] == Followed(c.editions[e], id, before, if lang.Some? then lang.value else before)
    ensures PatchTranslation(c, actor, mayEdit, id, expected, lang, details) == TranslationWritten(u, actor, id, lang, details)
  {
    var us := TranslationUpdates(c, id, lang);
    SortingKeepsUpdates(us);
    CascadeKeepsOthers(c, SortedById(us), Some(actor));
    u := Cascaded(c, SortedById(us), Some(actor));
    TranslationUpdatesOnce(c, id, lang);
    SortedOnce(us);
    CascadeRows(c, SortedById(us), Some(actor));
    hide SortedById, Followed, CascadeRow, TranslationUpdates, TranslationWritten;
    forall e | e in c.editions
      ensures
        var before := c.translations[id].lang;
        u.editions[e] == Followed(c.editions[e], id, before, if lang.Some? then lang.value else before)
    {
      EditionFollowsTranslation(c, id, lang, Some(actor), e);
    }
  }

  /**
   * An accepted correction of a translation stores what was sent; a new language goes to exactly the editions linked to
   * it that are in another one, and works are left alone.
   */
  lemma TranslationCorrected(c: Catalog, actor: Id, mayEdit: bool, id: Id, expected: nat, lang: Option<Lang>,
                             details: Option<nat>)
    requires PatchTranslationReply(c, mayEdit, id, expected) == Done
    ensures
      var v := PatchTranslation(c, actor, mayEdit, id, expected, lang, details);
      && mayEdit && id in c.translations && c.translations[id].revision == expected
      && var before := c.translations[id];
      var after := Translation(before.work, if lang.Some? then lang.value else before.lang,
                               if details.Some? then details.value else before.details, expected + 1);
      && v.works == c.works && v.translations == c.translations[id := after]
      && v.editions.Keys == c.editions.Keys
      && (forall e | e in c.editions :: v.editions[e] == Followed(c.editions[e], id, before.lang, after.lang))
      && |v.audit| > |c.audit| && v.audit[..|c.audit|] == c.audit
      && v.audit[|v.audit| - 1] == AuditRow(TranslationEntity(id), Some(actor), TranslationSnapshot(before.lang, before.details),
                                            TranslationSnapshot(after.lang, after.details), expected, expected + 1)
  {
    hide PatchTranslation, PatchTranslationReply, Followed;
    var u := TranslationByParts(c, actor, mayEdit, id, expected, lang, details);
  }

  lemma {:induction false} UpdatesToOnce(ids: seq<Id>, lang: Lang)
    requires forall i, j | 0 <= i < j < |ids| :: ids[i] != ids[j]
    ensures DistinctIds(UpdatesTo(ids, lang))
  {
    if |ids| > 0 {
      UpdatesToOnce(ids[1..], lang);
      var rest := UpdatesTo(ids[1..], lang);
      forall j | 0 <= j < |rest|
        ensures rest[j].id != ids[0]
      {
        assert rest[j] in rest;
      }
    }
  }

  lemma TranslationUpdatesOnce(c: Catalog, id: Id, lang: Option<Lang>)
    requires id in c.translations
    ensures DistinctIds(TranslationUpdates(c, id, lang))
  {
    if lang.Some? && lang.value != c.translations[id].lang {
      UpdatesToOnce(Listed(LinkedElsewhere(c, id, lang.value)), lang.value);
    }
  }

  // ----- works -----

  predicate DistinctFacts(facts: seq<LangFacts>) {
    forall i, j | 0 <= i < j < |facts| :: facts[i].id != facts[j].id
  }

  /** The planners see each edition of a work once. */
  lemma FactsOnce(c: Catalog, work: Id)
    ensures DistinctFacts(WorkFacts(c, work))
  {
  }

  lemma {:induction false} UpdatesForOnce(facts: seq<LangFacts>, oldLang: Option<Lang>, newLang: Lang)
    requires DistinctFacts(facts)
    ensures DistinctIds(UpdatesFor(facts, oldLang, newLang))
  {
    if |facts| > 0 {
      var init, last := facts[..|facts| - 1], facts[|facts| - 1];
      UpdatesForOnce(init, oldLang, newLang);
      var us := UpdatesFor(init, oldLang, newLang);
      forall i | 0 <= i < |us|
        ensures us[i].id != last.id
      {
        UpdatesAreTheMoving(init, oldLang, newLang, us[i]);
      }
    }
  }

  lemma {:induction false} MergeSetsOnce(facts: seq<LangFacts>, targetOrigLang: Option<Lang>)
    requires DistinctFacts(facts)
    ensures DistinctIds(MergeSets(facts, targetOrigLang))
  {
    if |facts| > 0 {
      var init, last := facts[..|facts| - 1], facts[|facts| - 1];
      MergeSetsOnce(init, targetOrigLang);
      var us := MergeSets(init, targetOrigLang);
      forall i | 0 <= i < |us|
        ensures us[i].id != last.id
      {
        MergeSetsAreThe(init, targetOrigLang, us[i]);
      }
    }
  }

  /** What a correction of work `id` makes of an edition: an original of it in another language follows. */
  function FollowedWork(edition: Edition, id: Id, before: Option<Lang>, after: Option<Lang>): Edition {
    if after != before && after.Some? && edition.work == id && edition.text.kind == Original && edition.text.lang != after
    then WithLanguage(edition, after.value) else edition
  }

  lemma WorkPlanOnce(c: Catalog, id: Id, origLang: Option<Option<Lang>>)
    requires id in c.works && WorkPlan(c, id, origLang).Success?
    ensures DistinctIds(WorkPlan(c, id, origLang).value)
  {
    if origLang.Some? && origLang.value.Some? {
      FactsOnce(c, id);
      UpdatesForOnce(WorkFacts(c, id), c.works[id].origLang, origLang.value.value);
    }
  }

  /** The plan names exactly the originals of the work in another language. */
  lemma PlanIsTheFollowing(c: Catalog, id: Id, origLang: Option<Option<Lang>>, e: Id, u: Update)
    requires id in c.works && WorkPlan(c, id, origLang).Success? && e in c.editions && u.id == e
    ensures
      var before, after := c.works[id].origLang, if origLang.Some? then origLang.value else c.works[id].origLang;
      var edition := c.editions[e];
      u in WorkPlan(c, id, origLang).value <==>
        after != before && after == Some(u.lang) && edition.work == id && edition.text.kind == Original && edition.text.lang != after
  {
    if origLang.Some? && origLang.value != c.works[id].origLang && origLang.value.Some? {
      var facts, oldLang, newLang := WorkFacts(c, id), c.works[id].origLang, origLang.value.value;
      WorkFactsAreFaithful(c, id, e);
      PlanSucceedsExactlyWhen(facts, oldLang, Some(newLang));
      UpdatesAreTheMoving(facts, oldLang, newLang, u);
    }
  }

  lemma EditionFollowsWork(c: Catalog, id: Id, origLang: Option<Option<Lang>>, actor: Option<Id>, e: Id)
    requires id in c.works && WorkPlan(c, id, origLang).Success? && e in c.editions
    requires AllStored(c, SortedById(WorkPlan(c, id, origLang).value))
    ensures
      var before := c.works[id].origLang;
      Cascaded(c, SortedById(WorkPlan(c, id, origLang).value), actor).editions[e]
      == FollowedWork(c.editions[e], id, before, if origLang.Some? then origLang.value else before)
  {
    var us := WorkPlan(c, id, origLang).value;
    var after := if origLang.Some? then origLang.value else c.works[id].origLang;
    WorkPlanOnce(c, id, origLang);
    hide WorkPlan, SortedById, Cascaded, WithLanguage;
    SortingKeepsUpdates(us);
    SortedOnce(us);
    CascadeInFields(c, SortedById(us), actor, e);
    forall u | u in us && u.id == e
      ensures after == Some(u.lang) && FollowedWork(c.editions[e], id, c.works[id].origLang, after) == WithLanguage(c.editions[e], u.lang)
    {
      PlanIsTheFollowing(c, id, origLang, e, u);
    }
    if after.Some? {
      PlanIsTheFollowing(c, id, origLang, e, Update(e, after.value));
    }
  }

  lemma WorkByParts(c: Catalog, actor: Id, mayEdit: bool, id: Id, expected: nat, origLang: Option<Option<Lang>>,
                    authors: Option<seq<Link>>, details: Option<nat>) returns (u: Catalog)
    requires PatchWorkReply(c, mayEdit, id, expected, origLang) == Done
    ensures mayEdit && id in c.works && c.works[id].revision == expected && c.works[id].mergedInto.None?
    ensures u.works == c.works && u.translations == c.translations && u.editions.Keys == c.editions.Keys
    ensures |c.audit| <= |u.audit| && u.audit[..|c.audit|] == c.audit
    ensures
      var before := c.works[id].origLang;
      forall e | e in c.editions ::
        u.editions[e] == FollowedWork(c.editions[e], id, before, if origLang.Some? then origLang.value else before)
    ensures PatchWork(c, actor, mayEdit, id, expected, origLang, authors, details)
         == WorkWritten(u, actor, id, origLang, authors, details)
  {
    var us := WorkPlan(c, id, origLang).value;
    WorkPlanIsStored(c, id, origLang);
    WorkPlanOnce(c, id, origLang);
    hide WorkPlan, SortedById, FollowedWork, CascadeRow, WorkWritten;
    SortingKeepsUpdates(us);
    CascadeKeepsOthers(c, SortedById(us), Some(actor));
    SortedOnce(us);
    CascadeRows(c, SortedById(us), Some(actor));
    u := Cascaded(c, SortedById(us), Some(actor));
    forall e | e in c.editions
      ensures
        var before := c.works[id].origLang;
        u.editions[e] == FollowedWork(c.editions[e], id, before, if origLang.Some? then origLang.value else before)
    {
      EditionFollowsWork(c, id, origLang, Some(actor), e);
    }
    AcceptedWorkPatch(c, mayEdit, id, expected, origLang);
    hide Cascaded, PatchWorkReply;
  }

  /**
   * An accepted correction of a work stores what was sent, a list of authors as a whole without its repetitions; a new
   * original language goes to exactly the work's originals that are in another one; translations are left alone.
   */
  lemma WorkCorrected(c: Catalog, actor: Id, mayEdit: bool, id: Id, expected: nat, origLang: Option<Option<Lang>>,
                      authors: Option<seq<Link>>, details: Option<nat>)
    requires PatchWorkReply(c, mayEdit, id, expected, origLang) == Done
    ensures
      var v := PatchWork(c, actor, mayEdit, id, expected, origLang, authors, details);
      && mayEdit && id in c.works && c.works[id].revision == expected && c.works[id].mergedInto.None?
      && var before := c.works[id];
      var after := Work(if origLang.Some? then origLang.value else before.origLang,
                        if authors.Some? then Deduped(authors.value) else before.authors,
                        if details.Some? then details.value else before.details, expected + 1, None);
      && v.works == c.works[id := after] && v.translations == c.translations && v.editions.Keys == c.editions.Keys
      && (forall e | e in c.editions :: v.editions[e] == FollowedWork(c.editions[e], id, before.origLang, after.origLang))
      && |v.audit| > |c.audit| && v.audit[..|c.audit|] == c.audit
      && v.audit[|v.audit| - 1] == AuditRow(WorkEntity(id), Some(actor),
                                            WorkSnapshot(before.origLang, before.authors, before.details),
                                            WorkSnapshot(after.origLang, after.authors, after.details), expected, expected + 1)
  {
    hide PatchWork, PatchWorkReply, FollowedWork, Deduped, WorkWritten;
    var u := WorkByParts(c, actor, mayEdit, id, expected, origLang, authors, details);
    WorkStored(u, actor, id, origLang, authors, details);
  }

  lemma WorkStored(c: Catalog, actor: Id, id: Id, origLang: Option<Option<Lang>>, authors: Option<seq<Link>>,
                   details: Option<nat>)
    requires id in c.works
    ensures
      var v, before := WorkWritten(c, actor, id, origLang, authors, details), c.works[id];
      var after := Work(if origLang.Some? then origLang.value else before.origLang,
                        if authors.Some? then Deduped(authors.value) else before.authors,
                        if details.Some? then details.value else before.details, before.revision + 1, before.mergedInto);
      v == c.(works := c.works[id := after],
              audit := c.audit + [AuditRow(WorkEntity(id), Some(actor),
                                           WorkSnapshot(before.origLang, before.authors, before.details),
                                           WorkSnapshot(after.origLang, after.authors, after.details),
                                           before.revision, before.revision + 1)])
  {
  }

  lemma AcceptedWorkPatch(c: Catalog, mayEdit: bool, id: Id, expected: nat, origLang: Option<Option<Lang>>)
    requires PatchWorkReply(c, mayEdit, id, expected, origLang) == Done
    ensures mayEdit && id in c.works && c.works[id].revision == expected && c.works[id].mergedInto.None?
    ensures WorkPlan(c, id, origLang).Success?
  {
  }

  // ----- merges -----

  /** What a merge makes of an edition: one of the source moves, and an original of it without a language gets one. */
  function MergedEdition(edition: Edition, source: Id, target: Id, targetLang: Option<Lang>): Edition {
    if edition.work != source then edition
    else if Fills(edition, source, targetLang) then WithLanguage(edition, targetLang.value).(work := target)
    else edition.(work := target)
  }

  predicate Fills(edition: Edition, source: Id, targetLang: Option<Lang>) {
    edition.work == source && edition.text.kind == Original && edition.text.lang.None? && targetLang.Some?
  }

  lemma EditionFills(c: Catalog, source: Id, targetLang: Option<Lang>, e: Id)
    requires e in c.editions && MergeConflicts(WorkFacts(c, source), targetLang) == []
    requires AllStored(c, SortedById(MergeSets(WorkFacts(c, source), targetLang)))
    ensures Cascaded(c, SortedById(MergeSets(WorkFacts(c, source), targetLang)), None).editions[e]
         == if Fills(c.editions[e], source, targetLang) then WithLanguage(c.editions[e], targetLang.value) else c.editions[e]
  {
    var us := MergeSets(WorkFacts(c, source), targetLang);
    FactsOnce(c, source);
    MergeSetsOnce(WorkFacts(c, source), targetLang);
    hide WorkFacts, MergeSets, MergeConflicts, SortedById, Cascaded, WithLanguage;
    SortingKeepsUpdates(us);
    SortedOnce(us);
    CascadeInFields(c, SortedById(us), None, e);
    forall u | u in us && u.id == e
      ensures targetLang == Some(u.lang) && Fills(c.editions[e], source, targetLang)
    {
      MergeSelects(c, source, targetLang, e, u.lang);
    }
    if targetLang.Some? {
      MergeSelects(c, source, targetLang, e, targetLang.value);
    }
  }

  lemma MergeByParts(c: Catalog, source: Id, target: Id) returns (u: Catalog)
    requires MergeReply(c, source, target) == Done
    ensures source in c.works && target in c.works && u.works == c.works && u.editions.Keys == c.editions.Keys
    ensures u.translations == c.translations
    ensures Merge(c, source, target) == Moved(u, source, target)
    ensures forall e | e in c.editions ::
              u.editions[e] == if Fills(c.editions[e], source, c.works[target].origLang)
                               then WithLanguage(c.editions[e], c.works[target].origLang.value) else c.editions[e]
  {
    var us := MergeSets(WorkFacts(c, source), c.works[target].origLang);
    MergeSetsAreStored(c, WorkFacts(c, source), c.works[target].origLang);
    SortingKeepsUpdates(us);
    CascadeKeepsOthers(c, SortedById(us), None);
    u := Cascaded(c, SortedById(us), None);
    assert Merge(c, source, target) == Moved(u, source, target);
    hide Merge, Moved, WorkFacts, MergeSets, SortedById, Cascaded, Fills, WithLanguage;
    forall e | e in c.editions
      ensures u.editions[e] == if Fills(c.editions[e], source, c.works[target].origLang)
                               then WithLanguage(c.editions[e], c.works[target].origLang.value) else c.editions[e]
    {
      EditionFills(c, source, c.works[target].origLang, e);
    }
  }

  lemma EditionMerges(c: Catalog, source: Id, target: Id, e: Id)
    requires MergeReply(c, source, target) == Done && e in c.editions
    ensures e in Merge(c, source, target).editions
    ensures Merge(c, source, target).editions[e] == MergedEdition(c.editions[e], source, target, c.works[target].origLang)
  {
    hide Merge, MergeReply, Fills, WithLanguage, Moved;
    var u := MergeByParts(c, source, target);
    EditionMoves(u, source, target, e);
    LanguageKeepsWork(c.editions[e], if c.works[target].origLang.Some? then c.works[target].origLang.value else "");
    if Fills(c.editions[e], source, c.works[target].origLang) {
      FillsOnlyTheSource(c.editions[e], source, c.works[target].origLang);
    }
  }

  lemma FillsOnlyTheSource(edition: Edition, source: Id, targetLang: Option<Lang>)
    requires Fills(edition, source, targetLang)
    ensures edition.work == source && targetLang.Some?
  {
  }

  lemma EditionMoves(c: Catalog, source: Id, target: Id, e: Id)
    requires source in c.works && target in c.works && e in c.editions
    ensures e in Moved(c, source, target).editions
    ensures Moved(c, source, target).editions[e]
         == if c.editions[e].work == source then c.editions[e].(work := target) else c.editions[e]
  {
  }

  lemma LanguageKeepsWork(edition: Edition, lang: Lang)
    ensures WithLanguage(edition, lang).work == edition.work
  {
  }

  lemma MovedInFields(c: Catalog, source: Id, target: Id)
    requires source != target && source in c.works && target in c.works && c.works[target].mergedInto.None?
    ensures
      var v := Moved(c, source, target);
      && v.works.Keys == c.works.Keys && v.translations.Keys == c.translations.Keys && v.editions.Keys == c.editions.Keys
      && v.works[target] == c.works[target].(authors := Consolidated(c.works[target].authors, c.works[source].authors))
      && v.works[source] == c.works[source].(authors := [], mergedInto := Some(target))
      && (forall w | w in c.works && w != source && w != target ::
            v.works[w] == c.works[w].(mergedInto := if c.works[w].mergedInto == Some(source) then Some(target)
                                                    else c.works[w].mergedInto))
      && (forall t | t in c.translations ::
            v.translations[t] == c.translations[t].(work := if c.translations[t].work == source then target
                                                            else c.translations[t].work))
  {
  }

  /** An accepted merge, row by row: what moves to the target, and that nothing else changes. */
  lemma MergeInFields(c: Catalog, source: Id, target: Id)
    requires MergeReply(c, source, target) == Done
    ensures source != target && source in c.works && target in c.works
    ensures c.works[source].mergedInto.None? && c.works[target].mergedInto.None?
    ensures
      var v := Merge(c, source, target);
      && v.works.Keys == c.works.Keys && v.translations.Keys == c.translations.Keys && v.editions.Keys == c.editions.Keys
      && v.works[target] == c.works[target].(authors := Consolidated(c.works[target].authors, c.works[source].authors))
      && v.works[source] == c.works[source].(authors := [], mergedInto := Some(target))
      && (forall w | w in c.works && w != source && w != target ::
            v.works[w] == c.works[w].(mergedInto := if c.works[w].mergedInto == Some(source) then Some(target)
                                                    else c.works[w].mergedInto))
      && (forall t | t in c.translations ::
            v.translations[t] == c.translations[t].(work := if c.translations[t].work == source then target
                                                            else c.translations[t].work))
      && (forall e | e in c.editions ::
            v.editions[e] == MergedEdition(c.editions[e], source, target, c.works[target].origLang))
  {
    var u := MergeByParts(c, source, target);
    MovedInFields(u, source, target);
    hide Merge, Moved, MergedEdition, WorkFacts, MergeConflicts, Fills, WithLanguage;
    forall e | e in c.editions
      ensures e in Merge(c, source, target).editions
      ensures Merge(c, source, target).editions[e] == MergedEdition(c.editions[e], source, target, c.works[target].origLang)
    {
      EditionMerges(c, source, target, e);
    }
  }

  // ----- what is refused, and why -----

  /** A correction of an edition is refused for the first of these that holds; the text is judged in its own context. */
  lemma EditionRefusals(c: Catalog, mayEdit: bool, id: Id, expected: nat, patch: Patch)
    requires id in c.editions && c.editions[id].work in c.works
    ensures
      var before, reply := c.editions[id], PatchEditionReply(c, mayEdit, id, expected, patch);
      var target := if patch.translation.Some? then patch.translation.value else before.text.translation;
      var context := Context(c.works[before.work].origLang, LanguageOf(c, target), LanguageOf(c, before.text.translation));
      var resolved := ResolveEditionText(Some(before.text), patch, context);
      var elsewhere := patch.translation.Some? && target.Some?
                       && (target.value !in c.translations || c.translations[target.value].work != before.work);
      && (reply == Forbidden <==> !mayEdit)
      && (reply == TranslationElsewhere <==> mayEdit && elsewhere)
      && (reply == RevisionConflict <==> mayEdit && !elsewhere && before.revision != expected)
      && (reply.TextRefused? <==>
            mayEdit && !elsewhere && before.revision == expected && patch != Patch(None, None, None) && resolved.Failure?)
      && (reply.TextRefused? ==> reply.refusal == resolved.error)
      && (reply == Done <==>
            && mayEdit && !elsewhere && before.revision == expected
            && (patch == Patch(None, None, None) || resolved.Success?))
  {
  }

  lemma UnknownIsNotFound(c: Catalog, mayEdit: bool, id: Id, expected: nat, patch: Patch, origLang: Option<Option<Lang>>)
    ensures PatchEditionReply(c, mayEdit, id, expected, patch) == NotFound <==> id !in c.editions || c.editions[id].work !in c.works
    ensures PatchTranslationReply(c, mayEdit, id, expected) == NotFound <==> id !in c.translations
    ensures PatchWorkReply(c, mayEdit, id, expected, origLang) == NotFound <==> id !in c.works
  {
  }

  lemma TranslationRefusals(c: Catalog, mayEdit: bool, id: Id, expected: nat)
    requires id in c.translations
    ensures
      var reply := PatchTranslationReply(c, mayEdit, id, expected);
      && (reply == Forbidden <==> !mayEdit)
      && (reply == RevisionConflict <==> mayEdit && c.translations[id].revision != expected)
      && (reply == Done <==> mayEdit && c.translations[id].revision == expected)
  {
  }

  /** The edition has a known language that is neither the new one of its work nor the old one. */
  predicate Stuck(edition: Edition, id: Id, before: Option<Lang>, after: Option<Lang>) {
    && edition.work == id && edition.text.kind == Original && edition.text.lang.Some?
    && after.Some? && edition.text.lang != after && edition.text.lang != before
  }

  function FactOf(c: Catalog, e: Id): LangFacts
    requires e in c.editions
  {
    LangFacts(e, c.editions[e].text.kind, c.editions[e].text.lang)
  }

  lemma FactIsEdition(c: Catalog, work: Id, i: nat)
    requires i < |WorkFacts(c, work)|
    ensures WorkFacts(c, work)[i].id in c.editions
    ensures WorkFacts(c, work)[i] == FactOf(c, WorkFacts(c, work)[i].id) && c.editions[WorkFacts(c, work)[i].id].work == work
  {
    var e := WorkFacts(c, work)[i].id;
    WorkFactsAreFaithful(c, work, e);
  }

  lemma EditionIsFact(c: Catalog, work: Id, e: Id) returns (i: nat)
    requires e in c.editions && c.editions[e].work == work
    ensures i < |WorkFacts(c, work)| && WorkFacts(c, work)[i] == FactOf(c, e)
  {
    WorkFactsAreFaithful(c, work, e);
    i :| 0 <= i < |WorkFacts(c, work)| && WorkFacts(c, work)[i] == FactOf(c, e);
  }

  lemma PlanFailsExactlyWhen(c: Catalog, id: Id, origLang: Option<Option<Lang>>)
    requires id in c.works
    ensures
      var before, after := c.works[id].origLang, if origLang.Some? then origLang.value else c.works[id].origLang;
      WorkPlan(c, id, origLang).Failure? <==> after != before && exists e | e in c.editions :: Stuck(c.editions[e], id, before, after)
  {
    hide WorkFacts, PlanWorkOriginalLangChange;
    if origLang.Some? && origLang.value != c.works[id].origLang {
      var facts, oldLang := WorkFacts(c, id), c.works[id].origLang;
      PlanSucceedsExactlyWhen(facts, oldLang, origLang.value);
      if e :| e in c.editions && Stuck(c.editions[e], id, oldLang, origLang.value) {
        var i := EditionIsFact(c, id, e);
        assert Conflicts(facts[i], oldLang, origLang.value.value);
      }
      if origLang.value.Some? {
        if i :| 0 <= i < |facts| && Conflicts(facts[i], oldLang, origLang.value.value) {
          FactIsEdition(c, id, i);
          assert Stuck(c.editions[facts[i].id], id, oldLang, origLang.value);
        }
      }
    }
  }

  /** A correction of a work is refused for the first of these that holds. */
  lemma WorkRefusals(c: Catalog, mayEdit: bool, id: Id, expected: nat, origLang: Option<Option<Lang>>)
    requires id in c.works
    ensures
      var work, reply := c.works[id], PatchWorkReply(c, mayEdit, id, expected, origLang);
      var after := if origLang.Some? then origLang.value else work.origLang;
      var stuck := after != work.origLang && exists e | e in c.editions :: Stuck(c.editions[e], id, work.origLang, after);
      && (reply == Merged <==> work.mergedInto.Some?)
      && (reply == Forbidden <==> work.mergedInto.None? && !mayEdit)
      && (reply == RevisionConflict <==> work.mergedInto.None? && mayEdit && work.revision != expected)
      && (reply.LanguageConflictOf? <==> work.mergedInto.None? && mayEdit && work.revision == expected && stuck)
      && (reply == Done <==> work.mergedInto.None? && mayEdit && work.revision == expected && !stuck)
  {
    PlanFailsExactlyWhen(c, id, origLang);
    hide WorkPlan, Stuck;
  }

  /** A language conflict names exactly the editions that stand in the way. */
  lemma StuckAreNamed(c: Catalog, mayEdit: bool, id: Id, expected: nat, origLang: Option<Option<Lang>>, e: Id)
    requires PatchWorkReply(c, mayEdit, id, expected, origLang).LanguageConflictOf?
    ensures id in c.works && origLang.Some?
    ensures e in PatchWorkReply(c, mayEdit, id, expected, origLang).editions
            <==> e in c.editions && Stuck(c.editions[e], id, c.works[id].origLang, origLang.value)
  {
    hide WorkFacts;
    var facts, before := WorkFacts(c, id), c.works[id].origLang;
    var named := PatchWorkReply(c, mayEdit, id, expected, origLang).editions;
    assert origLang.Some? && origLang.value.Some? && named == ConflictsFor(facts, before, origLang.value.value);
    ConflictsAreTheStuck(facts, before, origLang.value.value, e);
    hide ConflictsFor, PatchWorkReply;
    if e in named {
      var i :| 0 <= i < |facts| && facts[i].id == e && Conflicts(facts[i], before, origLang.value.value);
      FactIsEdition(c, id, i);
    }
    if e in c.editions && Stuck(c.editions[e], id, before, origLang.value) {
      var i := EditionIsFact(c, id, e);
      assert Conflicts(facts[i], before, origLang.value.value);
    }
  }

  /** A merge is refused for the first of these that holds; the language conflicts are those of `MergeSelects`. */
  lemma MergeRefusals(c: Catalog, source: Id, target: Id)
    ensures
      var reply := MergeReply(c, source, target);
      && (reply == MergeOfItself <==> source == target)
      && (reply == NotFound <==> source != target && (source !in c.works || target !in c.works))
      && (reply == Merged <==>
            && source != target && source in c.works && target in c.works
            && (c.works[source].mergedInto.Some? || c.works[target].mergedInto.Some?))
      && (reply == Done || reply.LanguageConflictOf? <==>
            && source != target && source in c.works && target in c.works
            && c.works[source].mergedInto.None? && c.works[target].mergedInto.None?)
  {
    hide WorkFacts, MergeConflicts;
  }

  /** The edition has a known language that is not the target's. */
  predicate Clashes(edition: Edition, source: Id, targetLang: Option<Lang>) {
    && edition.work == source && edition.text.kind == Original && edition.text.lang.Some?
    && targetLang.Some? && edition.text.lang != targetLang
  }

  lemma ClashesAreNamed(c: Catalog, source: Id, target: Id, e: Id)
    requires MergeReply(c, source, target).LanguageConflictOf?
    ensures target in c.works
    ensures e in MergeReply(c, source, target).editions
            <==> e in c.editions && Clashes(c.editions[e], source, c.works[target].origLang)
  {
    hide WorkFacts, MergeConflicts;
    var facts, lang := WorkFacts(c, source), c.works[target].origLang;
    MergeConflictsAreThe(facts, lang, e);
    if e in MergeConflicts(facts, lang) {
      var i :| 0 <= i < |facts| && facts[i].id == e && PlanMergeLanguage(facts[i], lang) == Conflict;
      FactIsEdition(c, source, i);
    }
    if e in c.editions && Clashes(c.editions[e], source, lang) {
      var i := EditionIsFact(c, source, e);
      assert PlanMergeLanguage(facts[i], lang) == Conflict;
    }
  }

  /** Among works that may be merged, exactly an original of the source in another known language stands in the way. */
  lemma MergeConflictsExactlyWhen(c: Catalog, source: Id, target: Id)
    requires MergeReply(c, source, target) == Done || MergeReply(c, source, target).LanguageConflictOf?
    ensures MergeReply(c, source, target).LanguageConflictOf?
            <==> exists e | e in c.editions :: Clashes(c.editions[e], source, c.works[target].origLang)
  {
    hide WorkFacts, MergeConflicts;
    var facts, lang := WorkFacts(c, source), c.works[target].origLang;
    var conflicts := MergeConflicts(facts, lang);
    if conflicts != [] {
      MergeConflictsAreThe(facts, lang, conflicts[0]);
      var i :| 0 <= i < |facts| && facts[i].id == conflicts[0] && PlanMergeLanguage(facts[i], lang) == Conflict;
      FactIsEdition(c, source, i);
      assert Clashes(c.editions[facts[i].id], source, lang);
    }
    if e :| e in c.editions && Clashes(c.editions[e], source, lang) {
      var i := EditionIsFact(c, source, e);
      MergeConflictsAreThe(facts, lang, e);
      assert PlanMergeLanguage(facts[i], lang) == Conflict;
    }
  }
}
