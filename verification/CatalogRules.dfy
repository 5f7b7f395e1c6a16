/**
 * What every run of catalog operations keeps: the language rules I1 to I3 for every edition, translations
 * within their work, editions and authors only on works that were not merged away, and no author twice in one role.
 */
module CatalogRules {
  import opened Counting
  import opened Wrappers
  import opened EditionLanguage
  import opened AuthorLinks
  import opened CatalogModel

  // ----- the rules -----

  predicate EditionOk(c: Catalog, e: Id)
    requires e in c.editions
  {
    var edition := c.editions[e];
    && edition.work in c.works && c.works[edition.work].mergedInto.None?
    && SameWork(c, edition.work, edition.text.translation)
    && FollowsTranslation(edition.text, LangOf(c, edition.text.translation))
    && FollowsWork(edition.text, c.works[edition.work].origLang)
  }

  predicate WorkOk(c: Catalog, w: Id)
    requires w in c.works
  {
    var work := c.works[w];
    && AllDistinct(work.authors)
    && (work.mergedInto.Some? ==>
          work.authors == [] && work.mergedInto.value in c.works && c.works[work.mergedInto.value].mergedInto.None?)
  }

  predicate EditionsOk(c: Catalog) {
    forall e | e in c.editions :: EditionOk(c, e)
  }

  predicate WorksOk(c: Catalog) {
    forall w | w in c.works :: WorkOk(c, w)
  }

  predicate TranslationsOk(c: Catalog) {
    forall t | t in c.translations :: c.translations[t].work in c.works
  }

  predicate Rules(c: Catalog) {
    EditionsOk(c) && WorksOk(c) && TranslationsOk(c)
  }

  // ----- what a cascade does to the editions -----

  /** All updates of a cascade carry the same language, and each edition they name gets exactly that. */
  lemma {:induction false} CascadeSetsLanguage(c: Catalog, us: seq<Update>, actor: Option<Id>, lang: Lang, e: Id)
    requires AllStored(c, us) && (forall u | u in us :: u.lang == lang) && e in c.editions
    ensures
      var r := Cascaded(c, us, actor).editions[e];
      && r.work == c.editions[e].work && r.details == c.editions[e].details
      && r.text == if Update(e, lang) in us then c.editions[e].text.(lang := Some(lang)) else c.editions[e].text
  {
    if |us| > 0 {
      var init, last := us[..|us| - 1], us[|us| - 1];
      CascadeSetsLanguage(c, init, actor, lang, e);
      assert us == init + [last];
      assert last == Update(last.id, lang);
    }
  }

  lemma SortedCascadeSetsLanguage(c: Catalog, us: seq<Update>, actor: Option<Id>, lang: Lang, e: Id)
    requires AllStored(c, SortedById(us)) && (forall u | u in us :: u.lang == lang) && e in c.editions
    ensures
      var r := Cascaded(c, SortedById(us), actor).editions[e];
      && r.work == c.editions[e].work
      && r.text == if Update(e, lang) in us then c.editions[e].text.(lang := Some(lang)) else c.editions[e].text
  {
    SortingKeepsUpdates(us);
    CascadeSetsLanguage(c, SortedById(us), actor, lang, e);
  }

  /** The planners see every edition of the work, as it is. */
  lemma WorkFactsAreFaithful(c: Catalog, work: Id, e: Id)
    requires e in c.editions
    ensures
      var fact := LangFacts(e, c.editions[e].text.kind, c.editions[e].text.lang);
      fact in WorkFacts(c, work) <==> c.editions[e].work == work
    ensures forall i | 0 <= i < |WorkFacts(c, work)| && WorkFacts(c, work)[i].id == e ::
              WorkFacts(c, work)[i] == LangFacts(e, c.editions[e].text.kind, c.editions[e].text.lang)
              && c.editions[e].work == work
  {
    FactsAreFaithful(c, Listed(EditionsOf(c, work)), e);
  }

  lemma {:induction false} FactsAreFaithful(c: Catalog, ids: seq<Id>, e: Id)
    requires (forall x | x in ids :: x in c.editions) && e in c.editions
    ensures
      var fact := LangFacts(e, c.editions[e].text.kind, c.editions[e].text.lang);
      && (fact in FactsOf(c, ids) <==> e in ids)
      && forall i | 0 <= i < |ids| && ids[i] == e :: FactsOf(c, ids)[i] == fact
  {
    if |ids| > 0 {
      FactsAreFaithful(c, ids[1..], e);
      assert ids == [ids[0]] + ids[1..];
      assert forall i | 1 <= i < |ids| :: ids[i] == ids[1..][i - 1];
    }
  }

  // ----- each operation keeps the rules -----

  lemma CreationKeepsRules(c: Catalog, work: Id, id: Id, translation: Option<Id>, details: nat)
    requires Rules(c) && id !in c.editions
    ensures Rules(CreateEdition(c, work, id, translation, details))
  {
    var v := CreateEdition(c, work, id, translation, details);
    if CreateEditionReply(c, work, translation) == Done {
      AcceptedFollowsRules(NEW_EDITION, CreationPatch(translation), Context(c.works[work].origLang, LangOf(c, translation), None));
      forall e | e in v.editions
        ensures EditionOk(v, e)
      {
        if e != id {
          assert EditionOk(c, e);
        }
      }
      assert forall w | w in v.works :: WorkOk(c, w);
    }
  }

  lemma PatchEditionKeepsRules(c: Catalog, actor: Id, mayEdit: bool, id: Id, expected: nat, patch: Patch, details: Option<nat>)
    requires Rules(c)
    ensures Rules(PatchEdition(c, actor, mayEdit, id, expected, patch, details))
  {
    var v := PatchEdition(c, actor, mayEdit, id, expected, patch, details);
    if PatchEditionReply(c, mayEdit, id, expected, patch) == Done {
      assert EditionOk(c, id);
      if ChangesText(patch) {
        AcceptedFollowsRules(c.editions[id].text, patch, PatchContext(c, id, patch));
      }
      forall e | e in v.editions
        ensures EditionOk(v, e)
      {
        assert EditionOk(c, e);
      }
      assert forall w | w in v.works :: WorkOk(c, w);
    }
  }

  /** A change of a translation's language reaches exactly its editions. */
  lemma TranslationSetsText(c: Catalog, id: Id, lang: Option<Lang>, actor: Option<Id>, e: Id)
    requires id in c.translations && e in c.editions && AllStored(c, SortedById(TranslationUpdates(c, id, lang)))
    requires FollowsTranslation(c.editions[e].text, LangOf(c, c.editions[e].text.translation))
    ensures
      var text, newLang := c.editions[e].text, if lang.Some? then lang.value else c.translations[id].lang;
      var r := Cascaded(c, SortedById(TranslationUpdates(c, id, lang)), actor).editions[e];
      && r.work == c.editions[e].work
      && r.text == if text.translation == Some(id) then text.(lang := Some(newLang)) else text
  {
    var us := TranslationUpdates(c, id, lang);
    var newLang := if lang.Some? then lang.value else c.translations[id].lang;
    assert Update(e, newLang) in us <==> newLang != c.translations[id].lang && e in LinkedElsewhere(c, id, newLang);
    hide TranslationUpdates;
    SortedCascadeSetsLanguage(c, us, actor, newLang, e);
  }

  /** An edition stays within the rules when its translation changes the language and it follows. */
  lemma FollowingKeepsRules(c: Catalog, v: Catalog, id: Id, newLang: Lang, e: Id)
    requires e in c.editions && EditionOk(c, e) && id in c.translations && e in v.editions && v.works == c.works
    requires id in v.translations && v.translations == c.translations[id := v.translations[id]]
    requires v.translations[id].lang == newLang && v.translations[id].work == c.translations[id].work
    requires
      var text := c.editions[e].text;
      && v.editions[e].work == c.editions[e].work
      && v.editions[e].text == if text.translation == Some(id) then text.(lang := Some(newLang)) else text
    ensures EditionOk(v, e)
  {
  }

  lemma PatchTranslationKeepsEdition(c: Catalog, actor: Id, mayEdit: bool, id: Id, expected: nat, lang: Option<Lang>,
                                     details: Option<nat>, e: Id)
    requires e in c.editions && EditionOk(c, e) && PatchTranslationReply(c, mayEdit, id, expected) == Done
    ensures
      var v := PatchTranslation(c, actor, mayEdit, id, expected, lang, details);
      e in v.editions && EditionOk(v, e)
  {
    var us := TranslationUpdates(c, id, lang);
    SortingKeepsUpdates(us);
    CascadeKeepsOthers(c, SortedById(us), Some(actor));
    TranslationSetsText(c, id, lang, Some(actor), e);
    hide SortedById, TranslationUpdates, EditionOk;
    FollowingKeepsRules(c, PatchTranslation(c, actor, mayEdit, id, expected, lang, details), id,
                        if lang.Some? then lang.value else c.translations[id].lang, e);
  }

  lemma WorksStay(c: Catalog, v: Catalog)
    requires WorksOk(c) && v.works == c.works
    ensures WorksOk(v)
  {
    assert forall w | w in v.works :: WorkOk(c, w);
  }

  lemma PatchTranslationKeepsRules(c: Catalog, actor: Id, mayEdit: bool, id: Id, expected: nat, lang: Option<Lang>,
                                   details: Option<nat>)
    requires Rules(c)
    ensures Rules(PatchTranslation(c, actor, mayEdit, id, expected, lang, details))
  {
    var v := PatchTranslation(c, actor, mayEdit, id, expected, lang, details);
    if PatchTranslationReply(c, mayEdit, id, expected) == Done {
      var us := TranslationUpdates(c, id, lang);
      SortingKeepsUpdates(us);
      CascadeKeepsOthers(c, SortedById(us), Some(actor));
      hide EditionOk, WorksOk, SortedById, TranslationUpdates;
      WorksStay(c, v);
      forall e | e in v.editions
        ensures EditionOk(v, e)
      {
        PatchTranslationKeepsEdition(c, actor, mayEdit, id, expected, lang, details, e);
      }
    }
  }

  /** What a change of a work's language does to the text of an edition: it follows, or stays as it is. */
  lemma PlanSetsText(c: Catalog, id: Id, origLang: Option<Option<Lang>>, actor: Option<Id>, e: Id)
    requires id in c.works && e in c.editions && WorkPlan(c, id, origLang).Success?
    requires AllStored(c, SortedById(WorkPlan(c, id, origLang).value))
    requires c.editions[e].work == id ==> FollowsWork(c.editions[e].text, c.works[id].origLang)
    ensures
      var text := c.editions[e].text;
      var r := Cascaded(c, SortedById(WorkPlan(c, id, origLang).value), actor).editions[e];
      && r.work == c.editions[e].work
      && (r.text == text || (r.work == id && text.kind == Original && r.text == text.(lang := r.text.lang)))
      && (r.work == id ==> FollowsWork(r.text, if origLang.Some? then origLang.value else c.works[id].origLang))
  {
    var us := WorkPlan(c, id, origLang).value;
    if origLang.Some? && origLang.value != c.works[id].origLang && origLang.value.Some? {
      var oldLang, newLang := c.works[id].origLang, origLang.value.value;
      var facts := WorkFacts(c, id);
      PlanSucceedsExactlyWhen(facts, oldLang, Some(newLang));
      WorkFactsAreFaithful(c, id, e);
      UpdatesAreTheMoving(facts, oldLang, newLang, Update(e, newLang));
      forall u | u in us
        ensures u.lang == newLang
      {
        UpdatesAreTheMoving(facts, oldLang, newLang, u);
      }
      hide WorkFacts, UpdatesFor, ConflictsFor;
      SortedCascadeSetsLanguage(c, us, actor, newLang, e);
    } else {
      assert us == [];
    }
  }

  /** An edition stays within the rules when its work changes the language and it follows. */
  lemma FollowingWorkKeepsRules(c: Catalog, v: Catalog, id: Id, e: Id)
    requires e in c.editions && EditionOk(c, e) && id in c.works && e in v.editions && v.translations == c.translations
    requires id in v.works && v.works == c.works[id := v.works[id]] && v.works[id].mergedInto == c.works[id].mergedInto
    requires
      var text, r := c.editions[e].text, v.editions[e];
      && r.work == c.editions[e].work
      && (r.text == text || (r.work == id && text.kind == Original && r.text == text.(lang := r.text.lang)))
      && (r.work == id ==> FollowsWork(r.text, v.works[id].origLang))
    ensures EditionOk(v, e)
  {
  }

  lemma PatchWorkKeepsEdition(c: Catalog, actor: Id, mayEdit: bool, id: Id, expected: nat, origLang: Option<Option<Lang>>,
                              authors: Option<seq<Link>>, details: Option<nat>, e: Id)
    requires e in c.editions && EditionOk(c, e) && PatchWorkReply(c, mayEdit, id, expected, origLang) == Done
    ensures
      var v := PatchWork(c, actor, mayEdit, id, expected, origLang, authors, details);
      e in v.editions && EditionOk(v, e)
  {
    WorkPlanIsStored(c, id, origLang);
    hide WorkPlan, SortedById, Deduped;
    var us := WorkPlan(c, id, origLang).value;
    SortingKeepsUpdates(us);
    CascadeKeepsOthers(c, SortedById(us), Some(actor));
    PlanSetsText(c, id, origLang, Some(actor), e);
    hide EditionOk, PatchWorkReply;
    FollowingWorkKeepsRules(c, PatchWork(c, actor, mayEdit, id, expected, origLang, authors, details), id, e);
  }

  lemma CorrectedWorksOk(c: Catalog, actor: Id, id: Id, origLang: Option<Option<Lang>>, authors: Option<seq<Link>>,
                         details: Option<nat>)
    requires WorksOk(c) && id in c.works && c.works[id].mergedInto.None?
    ensures WorksOk(WorkWritten(c, actor, id, origLang, authors, details))
  {
    var v := WorkWritten(c, actor, id, origLang, authors, details);
    if authors.Some? {
      DedupedIsDistinct(authors.value);
    }
    hide AllDistinct, Deduped;
    forall w | w in v.works
      ensures WorkOk(v, w)
    {
      assert WorkOk(c, w);
    }
  }

  lemma PatchWorkKeepsRules(c: Catalog, actor: Id, mayEdit: bool, id: Id, expected: nat, origLang: Option<Option<Lang>>,
                            authors: Option<seq<Link>>, details: Option<nat>)
    requires Rules(c)
    ensures Rules(PatchWork(c, actor, mayEdit, id, expected, origLang, authors, details))
  {
    var v := PatchWork(c, actor, mayEdit, id, expected, origLang, authors, details);
    if PatchWorkReply(c, mayEdit, id, expected, origLang) == Done {
      var us := WorkPlan(c, id, origLang).value;
      WorkPlanIsStored(c, id, origLang);
      SortingKeepsUpdates(us);
      CascadeKeepsOthers(c, SortedById(us), Some(actor));
      hide EditionOk, WorksOk, WorkPlan, SortedById;
      var u := Cascaded(c, SortedById(us), Some(actor));
      WorksStay(c, u);
      CorrectedWorksOk(u, actor, id, origLang, authors, details);
      forall e | e in v.editions
        ensures EditionOk(v, e)
      {
        PatchWorkKeepsEdition(c, actor, mayEdit, id, expected, origLang, authors, details, e);
      }
    }
  }

  /** A merge fills in the language of exactly the source's originals that have none, and meets no conflict. */
  lemma MergeSelects(c: Catalog, source: Id, targetLang: Option<Lang>, e: Id, lang: Lang)
    requires e in c.editions && MergeConflicts(WorkFacts(c, source), targetLang) == []
    ensures
      var text := c.editions[e].text;
      && (Update(e, lang) in MergeSets(WorkFacts(c, source), targetLang)
          <==> c.editions[e].work == source && text.kind == Original && text.lang.None? && targetLang == Some(lang))
      && (c.editions[e].work == source && text.lang.Some? ==> FollowsWork(text, targetLang))
  {
    var facts := WorkFacts(c, source);
    hide WorkFacts, MergeSets, MergeConflicts;
    WorkFactsAreFaithful(c, source, e);
    MergeSetsAreThe(facts, targetLang, Update(e, lang));
    MergeConflictsAreThe(facts, targetLang, e);
  }

  /** What a merge does to the text of an edition before it moves: nothing, or it fills in the target's language. */
  lemma MergeSetsText(c: Catalog, source: Id, target: Id, e: Id)
    requires e in c.editions && MergeReply(c, source, target) == Done
    requires AllStored(c, SortedById(MergeSets(WorkFacts(c, source), c.works[target].origLang)))
    ensures
      var text := c.editions[e].text;
      var targetLang := c.works[target].origLang;
      var fills := c.editions[e].work == source && text.kind == Original && text.lang.None? && targetLang.Some?;
      var r := Cascaded(c, SortedById(MergeSets(WorkFacts(c, source), targetLang)), None).editions[e];
      && r.work == c.editions[e].work
      && r.text == (if fills then text.(lang := targetLang) else text)
      && (r.work == source ==> FollowsWork(r.text, targetLang))
  {
    hide WorkFacts, MergeSets, MergeConflicts, SortedById;
    var facts, targetLang := WorkFacts(c, source), c.works[target].origLang;
    var us := MergeSets(facts, targetLang);
    var lang := if targetLang.Some? then targetLang.value else "";
    forall u | u in us
      ensures u.lang == lang && targetLang.Some?
    {
      MergeSetsAreThe(facts, targetLang, u);
    }
    SortedCascadeSetsLanguage(c, us, None, lang, e);
    MergeSelects(c, source, targetLang, e, lang);
  }

  lemma MergeKeepsEdition(c: Catalog, source: Id, target: Id, e: Id)
    requires e in c.editions && EditionOk(c, e) && MergeReply(c, source, target) == Done
    ensures e in Merge(c, source, target).editions && EditionOk(Merge(c, source, target), e)
  {
    hide WorkFacts, MergeSets, SortedById, PlanMergeLanguage;
    var us := MergeSets(WorkFacts(c, source), c.works[target].origLang);
    MergeSetsAreStored(c, WorkFacts(c, source), c.works[target].origLang);
    SortingKeepsUpdates(us);
    CascadeKeepsOthers(c, SortedById(us), None);
    MergeSetsText(c, source, target, e);
  }

  lemma MovedWorksOk(c: Catalog, source: Id, target: Id)
    requires WorksOk(c) && source in c.works && target in c.works && source != target
    requires c.works[source].mergedInto.None? && c.works[target].mergedInto.None?
    ensures WorksOk(Moved(c, source, target))
  {
    assert WorkOk(c, source) && WorkOk(c, target);
    ConsolidatedIsDeduped(c.works[target].authors, c.works[source].authors);
    hide Consolidated;
    forall w | w in Moved(c, source, target).works
      ensures WorkOk(Moved(c, source, target), w)
    {
      assert WorkOk(c, w);
    }
  }

  lemma MergeKeepsRules(c: Catalog, source: Id, target: Id)
    requires Rules(c)
    ensures Rules(Merge(c, source, target))
  {
    var v := Merge(c, source, target);
    if MergeReply(c, source, target) == Done {
      var us := MergeSets(WorkFacts(c, source), c.works[target].origLang);
      MergeSetsAreStored(c, WorkFacts(c, source), c.works[target].origLang);
      SortingKeepsUpdates(us);
      CascadeKeepsOthers(c, SortedById(us), None);
      hide EditionOk, WorksOk, WorkFacts, MergeSets, SortedById;
      WorksStay(c, Cascaded(c, SortedById(us), None));
      MovedWorksOk(Cascaded(c, SortedById(us), None), source, target);
      forall e | e in v.editions
        ensures EditionOk(v, e)
      {
        MergeKeepsEdition(c, source, target, e);
      }
    }
  }

  // ----- what the rules buy -----

  /** Where the original language of a work is known, changing it never meets a conflict. */
  lemma KnownOriginalNeverConflicts(c: Catalog, mayEdit: bool, id: Id, expected: nat, origLang: Option<Option<Lang>>)
    requires Rules(c) && id in c.works && c.works[id].origLang.Some?
    ensures !PatchWorkReply(c, mayEdit, id, expected, origLang).LanguageConflictOf?
  {
    var facts := WorkFacts(c, id);
    forall i | 0 <= i < |facts|
      ensures facts[i].kind == Original ==> facts[i].lang == c.works[id].origLang
    {
      WorkFactsAreFaithful(c, id, facts[i].id);
      assert EditionOk(c, facts[i].id);
    }
    if origLang.Some? {
      KnownLanguageNeverConflicts(facts, c.works[id].origLang, origLang.value);
    }
  }

  /** A new edition is never refused for its language: it states its kind and brings no language of its own. */
  lemma CreationIsNeverRefused(c: Catalog, work: Id, translation: Option<Id>)
    requires work in c.works && SameWork(c, work, translation)
    ensures CreationText(c, work, translation).Success?
  {
  }
}
