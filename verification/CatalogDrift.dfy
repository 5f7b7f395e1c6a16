/**
 * Where the audit of a work stops telling every change: a merge gives the source's authors to the target and takes
 * them from the source, but counts no revision and writes no audit row. The exact conditions, for one merge and for
 * whole runs.
 */
module CatalogDrift {
  import opened Wrappers
  import opened AuthorLinks
  import opened EditionLanguage
  import opened CatalogModel
  import opened CatalogAudit

  function RowsOf(c: Catalog, w: Id): seq<AuditRow> {
    History(c.audit, WorkEntity(w))
  }

  predicate LastShows(rows: seq<AuditRow>, now: Snapshot) {
    rows != [] ==> rows[|rows| - 1].after == now
  }

  predicate EndWithoutAuthors(rows: seq<AuditRow>) {
    rows != [] ==> rows[|rows| - 1].after.WorkSnapshot? && rows[|rows| - 1].after.authors == []
  }

  // ----- one merge -----

  lemma {:induction false} CascadeKeepsWorkRows(c: Catalog, us: seq<Update>, actor: Option<Id>, w: Id)
    requires AllStored(c, us)
    ensures RowsOf(Cascaded(c, us, actor), w) == RowsOf(c, w)
  {
    if |us| > 0 {
      CascadeKeepsWorkRows(c, us[..|us| - 1], actor, w);
      var before := Cascaded(c, us[..|us| - 1], actor);
      var after := UpdateText(before, us[|us| - 1], actor);
      assert after.audit[..|after.audit| - 1] == before.audit;
    }
  }

  /** A merge writes no audit row about a work, and to the works what `MergedWork` says. */
  lemma MergeKeepsWorkRows(c: Catalog, source: Id, target: Id, w: Id)
    requires MergeReply(c, source, target) == Done
    ensures RowsOf(Merge(c, source, target), w) == RowsOf(c, w)
    ensures w in Merge(c, source, target).works <==> w in c.works
    ensures w in c.works ==> Merge(c, source, target).works[w] == MergedWork(c, source, target, w)
  {
    var us := MergeSets(WorkFacts(c, source), c.works[target].origLang);
    MergeSetsAreStored(c, WorkFacts(c, source), c.works[target].origLang);
    SortingKeepsUpdates(us);
    CascadeKeepsOthers(c, SortedById(us), None);
    CascadeKeepsWorkRows(c, SortedById(us), None, w);
  }

  /** The source has an author, in a role, that the target does not have. */
  predicate HasNewAuthor(c: Catalog, source: Id, target: Id)
    requires source in c.works && target in c.works
  {
    exists link :: link in c.works[source].authors && link !in c.works[target].authors
  }

  lemma ConsolidatedGrows(source: seq<Link>, target: seq<Link>)
    ensures target <= Consolidated(target, source)
    ensures Consolidated(target, source) == target <==> forall link | link in source :: link in target
  {
    forall link | link in source && link !in target
      ensures ToMove(source, target) != []
    {
      ToMoveIsThe(source, target, link);
    }
    if ToMove(source, target) != [] {
      ToMoveIsThe(source, target, ToMove(source, target)[0]);
    }
  }

  /**
   * A merge ends the exact audit of its target if and only if the target was corrected before and gets an author.
   * The audit of the source stays exact only if the source was never corrected, or its last correction left no author.
   */
  lemma MergeKeepsExactExactlyWhen(c: Catalog, source: Id, target: Id)
    requires AuditOk(c) && MergeReply(c, source, target) == Done
    ensures
      var v, rows := Merge(c, source, target), RowsOf(c, target);
      Exact(v, WorkEntity(target)) <==> Exact(c, WorkEntity(target)) && (rows == [] || !HasNewAuthor(c, source, target))
    ensures
      var v, rows := Merge(c, source, target), RowsOf(c, source);
      Exact(v, WorkEntity(source)) <==> Linked(rows) && EndWithoutAuthors(rows)
    ensures forall w | w != source && w != target ::
              Exact(Merge(c, source, target), WorkEntity(w)) <==> Exact(c, WorkEntity(w))
  {
    hide Merge, History;
    var v := Merge(c, source, target);
    assert ChainOf(c, WorkEntity(source)) && ChainOf(c, WorkEntity(target));
    MergeKeepsWorkRows(c, source, target, source);
    MergeKeepsWorkRows(c, source, target, target);
    ConsolidatedGrows(c.works[source].authors, c.works[target].authors);
    forall w | w != source && w != target
      ensures Exact(v, WorkEntity(w)) <==> Exact(c, WorkEntity(w))
    {
      MergeKeepsWorkRows(c, source, target, w);
    }
  }

  // ----- whole runs -----

  /** An accepted merge into a work that was corrected before, with an author it does not have. */
  predicate Brings(c: Catalog, s: Step, w: Id) {
    && s.Merges? && s.target == w && MergeReply(c, s.source, w) == Done
    && RowsOf(c, w) != [] && HasNewAuthor(c, s.source, w)
  }

  predicate Corrected(c: Catalog, s: Step, w: Id) {
    s.PatchesWork? && s.id == w && Accepts(c, s)
  }

  /** Some step of the run brings the work an author. */
  predicate Brought(steps: seq<Step>, w: Id) {
    |steps| > 0
    && (Brought(steps[..|steps| - 1], w) || Brings(Run(steps[..|steps| - 1]), steps[|steps| - 1], w))
  }

  /** Some correction of the work comes after a step that brought it an author. */
  predicate CorrectedAfterwards(steps: seq<Step>, w: Id) {
    |steps| > 0
    && (|| CorrectedAfterwards(steps[..|steps| - 1], w)
        || (Brought(steps[..|steps| - 1], w) && Corrected(Run(steps[..|steps| - 1]), steps[|steps| - 1], w)))
  }

  /** An accepted correction: one row more, from the work as it was to the work as it is. */
  lemma CorrectionAddsRow(c: Catalog, s: Step, w: Id)
    requires Corrected(c, s, w)
    ensures
      var v := Next(c, s);
      && w in c.works && c.works[w].mergedInto.None? && w in v.works && v.works[w].mergedInto.None?
      && |RowsOf(v, w)| == |RowsOf(c, w)| + 1 && RowsOf(v, w)[..|RowsOf(c, w)|] == RowsOf(c, w)
      && RowsOf(v, w)[|RowsOf(c, w)|].before == SnapshotOf(c.works[w])
      && RowsOf(v, w)[|RowsOf(c, w)|].after == SnapshotOf(v.works[w])
  {
    hide WorkFacts, PlanWorkOriginalLangChange;
    var us := WorkPlan(c, w, s.newOrigLang).value;
    WorkPlanIsStored(c, w, s.newOrigLang);
    SortingKeepsUpdates(us);
    CascadeKeepsOthers(c, SortedById(us), Some(s.actor));
    CascadeKeepsWorkRows(c, SortedById(us), Some(s.actor), w);
    var u := Cascaded(c, SortedById(us), Some(s.actor));
    assert Next(c, s).audit[..|u.audit|] == u.audit;
  }

  /** The work, its rows and whether it is merged away are what they were. */
  predicate Untouched(c: Catalog, v: Catalog, w: Id) {
    && RowsOf(v, w) == RowsOf(c, w)
    && (w in c.works ==> w in v.works && SnapshotOf(v.works[w]) == SnapshotOf(c.works[w])
                         && (v.works[w].mergedInto.None? <==> c.works[w].mergedInto.None?))
  }

  lemma TranslationPatchLeaves(c: Catalog, s: Step, w: Id)
    requires s.PatchesTranslation? && Accepts(c, s)
    ensures Untouched(c, Next(c, s), w)
  {
    var us := TranslationUpdates(c, s.id, s.newLang);
    SortingKeepsUpdates(us);
    CascadeKeepsOthers(c, SortedById(us), Some(s.actor));
    CascadeKeepsWorkRows(c, SortedById(us), Some(s.actor), w);
    var u := Cascaded(c, SortedById(us), Some(s.actor));
    var v := Next(c, s);
    assert v.audit[..|v.audit| - 1] == u.audit;
  }

  lemma OtherPatchLeaves(c: Catalog, s: Step, w: Id)
    requires s.PatchesWork? && Accepts(c, s) && s.id != w
    ensures Untouched(c, Next(c, s), w)
  {
    hide WorkFacts, PlanWorkOriginalLangChange;
    var us := WorkPlan(c, s.id, s.newOrigLang).value;
    WorkPlanIsStored(c, s.id, s.newOrigLang);
    SortingKeepsUpdates(us);
    CascadeKeepsOthers(c, SortedById(us), Some(s.actor));
    CascadeKeepsWorkRows(c, SortedById(us), Some(s.actor), w);
    var u := Cascaded(c, SortedById(us), Some(s.actor));
    var v := Next(c, s);
    assert v.audit[..|v.audit| - 1] == u.audit;
  }

  lemma EditionPatchLeaves(c: Catalog, s: Step, w: Id)
    requires s.PatchesEdition?
    ensures Untouched(c, Next(c, s), w)
  {
    hide PatchedText;
    var v := Next(c, s);
    if Accepts(c, s) {
      assert v.audit[..|v.audit| - 1] == c.audit;
    }
  }

  /** Only its own corrections and merges with it touch a work. */
  lemma OtherStepLeaves(c: Catalog, s: Step, w: Id)
    requires !Corrected(c, s, w)
    requires s.Merges? && MergeReply(c, s.source, s.target) == Done ==> w != s.source && w != s.target
    ensures Untouched(c, Next(c, s), w)
  {
    hide PatchEdition, PatchTranslation, PatchWork, History, PatchWorkReply, PatchEditionReply, PatchTranslationReply,
         WorkFacts;
    match s {
      case PatchesEdition(_, _, _, _, _, _) => EditionPatchLeaves(c, s, w);
      case PatchesTranslation(_, _, _, _, _, _) =>
        if Accepts(c, s) {
          TranslationPatchLeaves(c, s, w);
        } else {
          RefusedPatchChangesNothing(c, s);
        }
      case PatchesWork(_, _, _, _, _, _, _) =>
        if Accepts(c, s) {
          OtherPatchLeaves(c, s, w);
        } else {
          RefusedPatchChangesNothing(c, s);
        }
      case Merges(source, target) =>
        if MergeReply(c, source, target) == Done {
          MergeKeepsWorkRows(c, source, target, w);
        }
      case _ =>
    }
  }

  /** What the rows of a work say about the run behind them. */
  ghost predicate Tells(steps: seq<Step>, w: Id) {
    var c := Run(steps);
    var rows := RowsOf(c, w);
    && (Linked(rows) <==> !CorrectedAfterwards(steps, w))
    && (CorrectedAfterwards(steps, w) ==> Brought(steps, w))
    && (rows == [] ==> !Brought(steps, w))
    && (w in c.works && c.works[w].mergedInto.None? && Linked(rows) ==>
          (LastShows(rows, SnapshotOf(c.works[w])) <==> !Brought(steps, w)))
  }

  lemma CorrectionTells(steps: seq<Step>, w: Id)
    requires |steps| > 0 && Tells(steps[..|steps| - 1], w)
    requires Corrected(Run(steps[..|steps| - 1]), steps[|steps| - 1], w)
    ensures Tells(steps, w)
  {
    var init, s := steps[..|steps| - 1], steps[|steps| - 1];
    var c, v := Run(init), Run(steps);
    CorrectionAddsRow(c, s, w);
    assert Brought(steps, w) <==> Brought(init, w);
    assert CorrectedAfterwards(steps, w) <==> Brought(init, w);
    hide Run, Next, RowsOf, Accepts, Brought, CorrectedAfterwards;
    var rows, more := RowsOf(c, w), RowsOf(v, w);
    var n := |rows|;
    assert forall i | 0 <= i < n :: more[i] == rows[i] by {
      assert forall i | 0 <= i < n :: more[..n][i] == more[i];
    }
    assert Linked(more) <==> Linked(rows) && LastShows(rows, more[n].before) by {
      assert n > 0 && Linked(more) ==> more[n - 1].after == more[n - 1 + 1].before;
    }
  }

  lemma MergeSourceTells(steps: seq<Step>, w: Id)
    requires |steps| > 0 && Tells(steps[..|steps| - 1], w) && steps[|steps| - 1].Merges? && w == steps[|steps| - 1].source
    requires MergeReply(Run(steps[..|steps| - 1]), w, steps[|steps| - 1].target) == Done
    ensures Tells(steps, w)
  {
    var init, s := steps[..|steps| - 1], steps[|steps| - 1];
    var c := Run(init);
    MergeKeepsWorkRows(c, w, s.target, w);
    assert Run(steps) == Merge(c, w, s.target) && w != s.target;
    assert Brought(steps, w) <==> Brought(init, w);
    assert CorrectedAfterwards(steps, w) <==> CorrectedAfterwards(init, w);
    hide Run, Next, RowsOf, Merge, Brought, CorrectedAfterwards, Linked;
  }

  lemma MergeTargetTells(steps: seq<Step>, w: Id)
    requires |steps| > 0 && Tells(steps[..|steps| - 1], w) && steps[|steps| - 1].Merges? && w == steps[|steps| - 1].target
    requires MergeReply(Run(steps[..|steps| - 1]), steps[|steps| - 1].source, w) == Done
    ensures Tells(steps, w)
  {
    var init, source := steps[..|steps| - 1], steps[|steps| - 1].source;
    var c := Run(init);
    RunKeepsRules(init);
    assert ChainOf(c, WorkEntity(w));
    MergeKeepsWorkRows(c, source, w, w);
    assert Run(steps) == Merge(c, source, w);
    assert Brought(steps, w) <==> Brought(init, w) || Brings(c, steps[|steps| - 1], w);
    assert CorrectedAfterwards(steps, w) <==> CorrectedAfterwards(init, w);
    assert Brings(c, steps[|steps| - 1], w) <==> RowsOf(c, w) != [] && HasNewAuthor(c, source, w);
    hide Run, Next, History, Merge, AuditOk, Brought, CorrectedAfterwards, Brings, MergeReply;
    ConsolidatedGrows(c.works[source].authors, c.works[w].authors);
    hide Consolidated;
  }

  lemma OtherStepTells(steps: seq<Step>, w: Id)
    requires |steps| > 0 && Tells(steps[..|steps| - 1], w)
    requires Untouched(Run(steps[..|steps| - 1]), Run(steps), w)
    requires !Corrected(Run(steps[..|steps| - 1]), steps[|steps| - 1], w)
    requires !Brings(Run(steps[..|steps| - 1]), steps[|steps| - 1], w)
    ensures Tells(steps, w)
  {
    hide Run, Accepts;
    var init := steps[..|steps| - 1];
    RunKeepsRules(init);
    assert ChainOf(Run(init), WorkEntity(w));
  }

  lemma {:induction false} RunTells(steps: seq<Step>, w: Id)
    ensures Tells(steps, w)
  {
    if |steps| > 0 {
      var init, s := steps[..|steps| - 1], steps[|steps| - 1];
      var c := Run(init);
      RunTells(init, w);
      hide Tells;
      if Corrected(c, s, w) {
        CorrectionTells(steps, w);
      } else if s.Merges? && MergeReply(c, s.source, s.target) == Done && w == s.source {
        MergeSourceTells(steps, w);
      } else if s.Merges? && MergeReply(c, s.source, s.target) == Done && w == s.target {
        MergeTargetTells(steps, w);
      } else {
        OtherStepLeaves(c, s, w);
        OtherStepTells(steps, w);
      }
    }
  }

  /** The rows of a work link up if and only if no correction came after a merge that brought it an author. */
  lemma RowsLinkExactlyWhen(steps: seq<Step>, w: Id)
    ensures Linked(RowsOf(Run(steps), w)) <==> !CorrectedAfterwards(steps, w)
  {
    RunTells(steps, w);
  }

  /**
   * In every run the audit of a canonical work tells every change if and only if no merge has brought it an author
   * since its first correction. Of a work that was merged away it does if and only if its rows link up and its last
   * correction, if there is one, left it no author.
   */
  lemma ExactExactlyWhen(steps: seq<Step>, w: Id)
    requires w in Run(steps).works
    ensures Run(steps).works[w].mergedInto.None? ==> (Exact(Run(steps), WorkEntity(w)) <==> !Brought(steps, w))
    ensures
      var rows := RowsOf(Run(steps), w);
      Run(steps).works[w].mergedInto.Some? ==>
        (Exact(Run(steps), WorkEntity(w)) <==> !CorrectedAfterwards(steps, w) && EndWithoutAuthors(rows))
  {
    RunTells(steps, w);
    RunKeepsRules(steps);
    assert ChainOf(Run(steps), WorkEntity(w));
    hide Run;
  }

  lemma RunExtends(steps: seq<Step>, s: Step)
    ensures Run(steps + [s]) == Next(Run(steps), s)
  {
    assert (steps + [s])[..|steps|] == steps;
  }

  lemma RowsOfTwo(audit: seq<AuditRow>, e: Entity)
    requires |audit| == 2 && audit[0].entity == e && audit[1].entity == e
    ensures History(audit, e) == audit
  {
    var init := audit[..1];
    assert init[..0] == [] && History(init[..0], e) == [];
    assert History(init, e) == [] + [audit[0]];
  }

  lemma DetailsCorrected(c: Catalog, actor: Id, w: Id, details: nat)
    requires w in c.works && c.works[w].mergedInto.None?
    ensures
      var before := c.works[w];
      var after := before.(details := details, revision := before.revision + 1);
      Next(c, PatchesWork(actor, true, w, before.revision, None, None, Some(details)))
      == c.(works := c.works[w := after],
            audit := c.audit + [AuditRow(WorkEntity(w), Some(actor), SnapshotOf(before), SnapshotOf(after),
                                         before.revision, after.revision)])
  {
  }

  lemma MergeWithoutEditions(c: Catalog, source: Id, target: Id)
    requires c.editions == map[] && source in c.works && target in c.works && source != target
    requires c.works[source].mergedInto.None? && c.works[target].mergedInto.None?
    ensures Merge(c, source, target) == Moved(c, source, target)
  {
    assert EditionsOf(c, source) == {};
    assert WorkFacts(c, source) == [];
  }

  lemma WorkCreated(c: Catalog, id: Id, author: Link)
    requires id !in c.works
    ensures Next(c, CreatesWork(id, None, [author], 0)) == c.(works := c.works[id := Work(None, [author], 0, 1, None)])
  {
    DistinctIsDeduped([author]);
  }

  lemma TwoWorksMade(a: Link, b: Link) returns (steps: seq<Step>)
    ensures Run(steps) == EMPTY_CATALOG.(works := map[1 := Work(None, [a], 0, 1, None), 2 := Work(None, [b], 0, 1, None)])
  {
    steps := [];
    assert Run(steps) == EMPTY_CATALOG;
    hide Run, Next;
    WorkCreated(EMPTY_CATALOG, 1, a);
    RunExtends(steps, CreatesWork(1, None, [a], 0));
    steps := steps + [CreatesWork(1, None, [a], 0)];
    WorkCreated(Run(steps), 2, b);
    RunExtends(steps, CreatesWork(2, None, [b], 0));
    steps := steps + [CreatesWork(2, None, [b], 0)];
  }

  /** The target after its first correction and the merge. */
  lemma MergedTarget(c: Catalog, a: Link, b: Link)
    requires a != b
    requires c.works == map[1 := Work(None, [a], 1, 2, None), 2 := Work(None, [b], 0, 1, None)] && c.editions == map[]
    ensures
      var v := Merge(c, 2, 1);
      1 in v.works && v.works[1] == Work(None, [a, b], 1, 2, None) && v.audit == c.audit
  {
    MergeWithoutEditions(c, 2, 1);
    assert [b][..0] == [] && ToMove([], [a]) == [];
    assert ToMove([b], [a]) == [] + [b];
    assert [a] + ([] + [b]) == [a, b];
  }

  lemma MergeStep(c: Catalog, source: Id, target: Id)
    ensures Next(c, Merges(source, target)) == Merge(c, source, target)
  {
  }

  /**
   * A run with a gap: the target is corrected, takes over the source's author, and is corrected again. The second row
   * begins with an author that the first one does not have.
   */
  lemma MergeLeavesGap(a: Link, b: Link) returns (steps: seq<Step>)
    requires a != b
    ensures
      var rows := RowsOf(Run(steps), 1);
      && |rows| == 2 && rows[0].after == WorkSnapshot(None, [a], 1) && rows[1].before == WorkSnapshot(None, [a, b], 1)
  {
    hide Run, Merge, History, Next;
    var first, second := PatchesWork(9, true, 1, 1, None, None, Some(1)), PatchesWork(9, true, 1, 2, None, None, Some(2));
    steps := TwoWorksMade(a, b);
    DetailsCorrected(Run(steps), 9, 1, 1);
    RunExtends(steps, first);
    steps := steps + [first];
    MergedTarget(Run(steps), a, b);
    MergeStep(Run(steps), 2, 1);
    RunExtends(steps, Merges(2, 1));
    steps := steps + [Merges(2, 1)];
    DetailsCorrected(Run(steps), 9, 1, 2);
    RunExtends(steps, second);
    steps := steps + [second];
    RowsOfTwo(Run(steps).audit, WorkEntity(1));
  }
}
