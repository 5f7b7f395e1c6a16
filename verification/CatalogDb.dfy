/** The catalog tables and their transactions as the service performs them, each proved against its step. */
module CatalogDb {
  import opened Counting
  import opened Wrappers
  import opened EditionLanguage
  import opened AuthorLinks
  import opened CatalogModel
  import opened CatalogRules
  import opened CatalogAudit

  class CatalogTables {
    var works: map<Id, Work>
    var translations: map<Id, Translation>
    var editions: map<Id, Edition>
    var audit: seq<AuditRow>

    function Rows(): Catalog
      reads this
    {
      Catalog(works, translations, editions, audit)
    }

    ghost predicate Valid()
      reads this
    {
      Rules(Rows()) && AuditOk(Rows())
    }

    constructor ()
      ensures Valid() && Rows() == EMPTY_CATALOG
    {
      works, translations, editions, audit := map[], map[], map[], [];
    }

    /** `applyEditionTextUpdates`: one edition after another by id, each with its audit row. */
    method ApplyEditionTextUpdates(updates: seq<Update>, actor: Option<Id>)
      requires AllStored(Rows(), updates)
      modifies this`editions, this`audit
      ensures AllStored(old(Rows()), SortedById(updates))
      ensures Rows() == Cascaded(old(Rows()), SortedById(updates), actor)
    {
      ghost var c := Rows();
      var sorted := SortedById(updates);
      SortingKeepsUpdates(updates);
      hide SortedById, UpdateText;
      for i := 0 to |sorted|
        invariant AllStored(c, sorted[..i]) && Rows() == Cascaded(c, sorted[..i], actor)
      {
        assert sorted[..i + 1][..i] == sorted[..i];
        ApplyUpdate(sorted[i], actor);
      }
      assert sorted[..|sorted|] == sorted;
    }

    method ApplyUpdate(u: Update, actor: Option<Id>)
      requires u.id in editions
      modifies this`editions, this`audit
      ensures Rows() == UpdateText(old(Rows()), u, actor)
    {
      var before := editions[u.id];
      var after := before.(text := before.text.(lang := Some(u.lang)), revision := before.revision + 1);
      editions := editions[u.id := after];
      audit := audit + [AuditRow(EditionEntity(u.id), actor, EditionSnapshot(before.text, before.details),
                                 EditionSnapshot(after.text, after.details), before.revision, after.revision)];
    }

    method AddEdition(work: Id, id: Id, translation: Option<Id>, details: nat) returns (reply: Reply)
      requires Valid() && id !in editions
      modifies this`editions
      ensures reply == CreateEditionReply(old(Rows()), work, translation)
      ensures Rows() == CreateEdition(old(Rows()), work, id, translation, details)
      ensures Valid()
    {
      hide Rules, AuditOk;
      CreatedIsValid(Rows(), work, id, translation, details);
      if work !in works {
        return NotFound;
      }
      if works[work].mergedInto.Some? {
        return Merged;
      }
      var target: Option<Lang> := None;
      if translation.Some? {
        if translation.value !in translations || translations[translation.value].work != work {
          return TranslationElsewhere;
        }
        target := Some(translations[translation.value].lang);
      }
      var text := Resolve(None, CreationPatch(translation), Context(works[work].origLang, target, None));
      if text.Failure? {
        return TextRefused(text.error);
      }
      editions := editions[id := Edition(work, text.value, details, 1)];
      return Done;
    }

    method CorrectEdition(actor: Id, mayEdit: bool, id: Id, expected: nat, patch: Patch, details: Option<nat>)
      returns (reply: Reply)
      requires Valid()
      modifies this`editions, this`audit
      ensures reply == PatchEditionReply(old(Rows()), mayEdit, id, expected, patch)
      ensures Rows() == PatchEdition(old(Rows()), actor, mayEdit, id, expected, patch, details)
      ensures Valid()
    {
      EditionHasWork(Rows(), id);
      hide Rules, AuditOk;
      PatchEditionKeepsRules(Rows(), actor, mayEdit, id, expected, patch, details);
      PatchEditionKeepsAudit(Rows(), actor, mayEdit, id, expected, patch, details);
      if id !in editions {
        return NotFound;
      }
      var before := editions[id];
      if !mayEdit {
        return Forbidden;
      }
      var target := LangOf(Rows(), before.text.translation);
      if patch.translation.Some? {
        target := None;
        if patch.translation.value.Some? {
          var linked := patch.translation.value.value;
          if linked !in translations || translations[linked].work != before.work {
            return TranslationElsewhere;
          }
          target := Some(translations[linked].lang);
        }
      }
      if before.revision != expected {
        return RevisionConflict;
      }
      var text := before.text;
      if patch.translation.Some? || patch.kind.Some? || patch.lang.Some? {
        var resolved := Resolve(Some(before.text), patch,
                                Context(works[before.work].origLang, target, LangOf(Rows(), before.text.translation)));
        if resolved.Failure? {
          return TextRefused(resolved.error);
        }
        text := resolved.value;
      }
      var after := before.(text := text, details := if details.Some? then details.value else before.details,
                           revision := before.revision + 1);
      editions := editions[id := after];
      audit := audit + [AuditRow(EditionEntity(id), Some(actor), EditionSnapshot(before.text, before.details),
                                 EditionSnapshot(after.text, after.details), before.revision, after.revision)];
      return Done;
    }

    method CorrectTranslation(actor: Id, mayEdit: bool, id: Id, expected: nat, lang: Option<Lang>, details: Option<nat>)
      returns (reply: Reply)
      requires Valid()
      modifies this
      ensures reply == PatchTranslationReply(old(Rows()), mayEdit, id, expected)
      ensures Rows() == PatchTranslation(old(Rows()), actor, mayEdit, id, expected, lang, details)
      ensures Valid()
    {
      hide Rules, AuditOk;
      PatchTranslationKeepsRules(Rows(), actor, mayEdit, id, expected, lang, details);
      PatchTranslationKeepsAudit(Rows(), actor, mayEdit, id, expected, lang, details);
      if id !in translations {
        return NotFound;
      }
      var before := translations[id];
      if !mayEdit {
        return Forbidden;
      }
      if before.revision != expected {
        return RevisionConflict;
      }
      ghost var c := Rows();
      if lang.Some? && lang.value != before.lang {
        var linked := set e | e in editions && editions[e].text.translation == Some(id) && editions[e].text.lang != lang;
        assert linked == LinkedElsewhere(c, id, lang.value);
        ApplyEditionTextUpdates(UpdatesTo(Listed(linked), lang.value), Some(actor));
        CascadeKeepsOthers(c, SortedById(UpdatesTo(Listed(linked), lang.value)), Some(actor));
      }
      var after := before.(lang := if lang.Some? then lang.value else before.lang,
                           details := if details.Some? then details.value else before.details,
                           revision := before.revision + 1);
      translations := translations[id := after];
      audit := audit + [AuditRow(TranslationEntity(id), Some(actor), TranslationSnapshot(before.lang, before.details),
                                 TranslationSnapshot(after.lang, after.details), before.revision, after.revision)];
      return Done;
    }

    /** `cascadeOriginalLang`: the originals of the work follow, or the editions that cannot are named. */
    method CascadeOriginalLang(actor: Id, work: Id, oldLang: Option<Lang>, newLang: Option<Lang>)
      returns (stuck: Option<seq<Id>>)
      modifies this`editions, this`audit
      ensures
        var plan := PlanWorkOriginalLangChange(WorkFacts(old(Rows()), work), oldLang, newLang);
        if plan.Failure? then stuck == Some(plan.error) && Rows() == old(Rows())
        else
          && stuck.None? && AllStored(old(Rows()), SortedById(plan.value))
          && Rows() == Cascaded(old(Rows()), SortedById(plan.value), Some(actor))
    {
      var facts := WorkFacts(Rows(), work);
      var plan := PlanChange(facts, oldLang, newLang);
      if plan.Failure? {
        return Some(plan.error);
      }
      if newLang.Some? {
        forall u | u in plan.value
          ensures u.id in editions
        {
          UpdatesAreTheMoving(facts, oldLang, newLang.value, u);
        }
      }
      ApplyEditionTextUpdates(plan.value, Some(actor));
      return None;
    }

    method CorrectWork(actor: Id, mayEdit: bool, id: Id, expected: nat, origLang: Option<Option<Lang>>,
                       authors: Option<seq<Link>>, details: Option<nat>)
      returns (reply: Reply)
      requires Valid()
      modifies this
      ensures reply == PatchWorkReply(old(Rows()), mayEdit, id, expected, origLang)
      ensures Rows() == PatchWork(old(Rows()), actor, mayEdit, id, expected, origLang, authors, details)
      ensures Valid()
    {
      hide Rules, AuditOk, WorkFacts, PlanWorkOriginalLangChange;
      PatchWorkKeepsRules(Rows(), actor, mayEdit, id, expected, origLang, authors, details);
      PatchWorkKeepsAudit(Rows(), actor, mayEdit, id, expected, origLang, authors, details);
      if id !in works {
        return NotFound;
      }
      var before := works[id];
      if before.mergedInto.Some? {
        return Merged;
      }
      if !mayEdit {
        return Forbidden;
      }
      if before.revision != expected {
        return RevisionConflict;
      }
      if origLang.Some? && origLang.value != before.origLang {
        var stuck := CascadeOriginalLang(actor, id, before.origLang, origLang.value);
        if stuck.Some? {
          return LanguageConflictOf(stuck.value);
        }
      }
      WriteWork(actor, id, origLang, authors, details);
      return Done;
    }

    /** The scalars, then the links if a list was sent, then the audit row. */
    method WriteWork(actor: Id, id: Id, origLang: Option<Option<Lang>>, authors: Option<seq<Link>>, details: Option<nat>)
      requires id in works
      modifies this`works, this`audit
      ensures Rows() == WorkWritten(old(Rows()), actor, id, origLang, authors, details)
    {
      var before := works[id];
      var after := before.(origLang := if origLang.Some? then origLang.value else before.origLang,
                           details := if details.Some? then details.value else before.details,
                           revision := before.revision + 1);
      works := works[id := after];
      if authors.Some? {
        var deduped := DedupeAuthorLinks(authors.value);
        after := after.(authors := deduped);
        works := works[id := after];
      }
      audit := audit + [AuditRow(WorkEntity(id), Some(actor), SnapshotOf(before), SnapshotOf(after),
                                 before.revision, after.revision)];
    }

    /** `reconcileEditionLanguages`: fills in the target's language, or names the editions in another known one. */
    method ReconcileEditionLanguages(source: Id, target: Id) returns (stuck: seq<Id>)
      requires target in works
      modifies this`editions, this`audit
      ensures stuck == MergeConflicts(WorkFacts(old(Rows()), source), works[target].origLang)
      ensures
        var us := MergeSets(WorkFacts(old(Rows()), source), works[target].origLang);
        if stuck != [] then Rows() == old(Rows())
        else AllStored(old(Rows()), SortedById(us)) && Rows() == Cascaded(old(Rows()), SortedById(us), None)
    {
      var targetLang := works[target].origLang;
      var facts := WorkFacts(Rows(), source);
      var updates, conflicts := PlanMerge(facts, targetLang);
      if |conflicts| > 0 {
        return conflicts;
      }
      MergeSetsAreStored(Rows(), facts, targetLang);
      ApplyEditionTextUpdates(updates, None);
      return [];
    }

    /** `merge`: languages, translations, editions, authors, earlier merges into the source, the source itself. */
    method MergeWorks(source: Id, target: Id) returns (reply: Reply)
      requires Valid()
      modifies this
      ensures reply == MergeReply(old(Rows()), source, target)
      ensures Rows() == Merge(old(Rows()), source, target)
      ensures Valid()
    {
      hide Rules, AuditOk, WorkFacts;
      MergeKeepsRules(Rows(), source, target);
      MergeKeepsAudit(Rows(), source, target);
      if source == target {
        return MergeOfItself;
      }
      if source !in works || target !in works {
        return NotFound;
      }
      if works[source].mergedInto.Some? || works[target].mergedInto.Some? {
        return Merged;
      }
      ghost var c := Rows();
      var stuck := ReconcileEditionLanguages(source, target);
      if stuck != [] {
        return LanguageConflictOf(stuck);
      }
      CascadeKeepsOthers(c, SortedById(MergeSets(WorkFacts(c, source), c.works[target].origLang)), None);
      MoveRows(source, target);
      return Done;
    }

    method MoveRows(source: Id, target: Id)
      requires source in works && target in works && source != target
      requires works[source].mergedInto.None? && works[target].mergedInto.None?
      modifies this`works, this`translations, this`editions
      ensures Rows() == Moved(old(Rows()), source, target)
    {
      translations := map t | t in translations ::
        if translations[t].work == source then translations[t].(work := target) else translations[t];
      editions := map e | e in editions :: if editions[e].work == source then editions[e].(work := target) else editions[e];
      MoveWorks(source, target);
    }

    method MoveWorks(source: Id, target: Id)
      requires source in works && target in works && source != target
      requires works[source].mergedInto.None? && works[target].mergedInto.None?
      modifies this`works
      ensures works == map w | w in old(works) :: MergedWork(old(Rows()), source, target, w)
    {
      hide Consolidated;
      MoveAuthors(source, target);
      PointTo(source, target);
    }

    method MoveAuthors(source: Id, target: Id)
      requires source in works && target in works && source != target
      modifies this`works
      ensures
        works == old(works)[target := old(works)[target].(authors :=
                              Consolidated(old(works)[target].authors, old(works)[source].authors))]
                           [source := old(works)[source].(authors := [])]
    {
      var authors, _, _ := ConsolidateWorkAuthors(works[source].authors, works[target].authors);
      works := works[target := works[target].(authors := authors)];
      works := works[source := works[source].(authors := [])];
    }

    /** What was merged into the source before, and the source itself, now lead to the target. */
    method PointTo(source: Id, target: Id)
      requires source in works
      modifies this`works
      ensures works.Keys == old(works).Keys
      ensures forall w | w in works ::
                works[w] == old(works)[w].(mergedInto := if w == source || old(works)[w].mergedInto == Some(source)
                                                         then Some(target) else old(works)[w].mergedInto)
    {
      works := map w | w in works ::
        if works[w].mergedInto == Some(source) then works[w].(mergedInto := Some(target)) else works[w];
      works := works[source := works[source].(mergedInto := Some(target))];
    }
  }

  lemma CreatedIsValid(c: Catalog, work: Id, id: Id, translation: Option<Id>, details: nat)
    requires Rules(c) && AuditOk(c) && id !in c.editions
    ensures Rules(CreateEdition(c, work, id, translation, details)) && AuditOk(CreateEdition(c, work, id, translation, details))
  {
    hide Rules, AuditOk;
    CreationKeepsRules(c, work, id, translation, details);
    if CreateEditionReply(c, work, translation) == Done {
      CreationKeepsAudit(c, CreateEdition(c, work, id, translation, details), EditionEntity(id));
    }
  }

  lemma EditionHasWork(c: Catalog, id: Id)
    requires Rules(c)
    ensures id in c.editions ==> c.editions[id].work in c.works
  {
    assert id in c.editions ==> EditionOk(c, id);
  }
}
