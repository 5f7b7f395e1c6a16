/**
 * The rules for the kind and language of an edition's text. A contradiction is always an explicit
 * refusal; no language that somebody entered is dropped without one.
 */
module EditionLanguage {
  import opened Wrappers

  type Id = nat
  type Lang = string

  datatype Kind = Unknown | Original | Translated

  datatype Text = Text(kind: Kind, lang: Option<Lang>, translation: Option<Id>)

  /** `None` in a patch means the field was not sent; a nullable field that was sent may be null. */
  datatype Patch = Patch(kind: Option<Kind>, lang: Option<Option<Lang>>, translation: Option<Option<Id>>)

  datatype Context = Context(workOrigLang: Option<Lang>, target: Option<Lang>, current: Option<Lang>)

  datatype Refusal = LanguageConflict | KindRequiresUnlink | UnlinkNeedsKind | TargetLanguageMissing

  const NEW_EDITION := Text(Unknown, None, None)

  // ----- I1 to I3 -----

  /** I1 and I2: a linked edition is a translation, in the language of the translation it is linked to. */
  predicate FollowsTranslation(text: Text, translationLang: Option<Lang>) {
    text.translation.Some? ==> text.kind == Translated && text.lang.Some? && text.lang == translationLang
  }

  /** I3: an original is in the original language of its work, where that is known. */
  predicate FollowsWork(text: Text, workOrigLang: Option<Lang>) {
    text.kind == Original && workOrigLang.Some? ==> text.lang == workOrigLang
  }

  // ----- resolveEditionText -----

  /** `impliedLang`: the language the stored state had only thanks to its translation or its work. */
  function ImpliedLang(from: Text, context: Context): Option<Lang> {
    if from.translation.Some? then context.current
    else if from.kind == Original then context.workOrigLang
    else None
  }

  function Merged(from: Text, patch: Patch): Text {
    Text(if patch.kind.Some? then patch.kind.value else from.kind,
         if patch.lang.Some? then patch.lang.value else from.lang,
         if patch.translation.Some? then patch.translation.value else from.translation)
  }

  function ResolveLinked(from: Text, patch: Patch, context: Context): Result<Text, Refusal> {
    var next := Merged(from, patch);
    if patch.kind.Some? && patch.kind.value != Translated then Failure(KindRequiresUnlink)
    else if context.target.None? then Failure(TargetLanguageMissing)
    else
      var inherited := patch.lang.None? && from.lang.Some? && from.lang == ImpliedLang(from, context);
      var lang := if inherited || next.lang.None? then context.target else next.lang;
      if lang != context.target then Failure(LanguageConflict)
      else Success(next.(kind := Translated, lang := lang))
  }

  function ResolveAsOriginal(next: Text, workOrigLang: Option<Lang>): Result<Text, Refusal> {
    if next.kind != Original || workOrigLang.None? then Success(next)
    else if next.lang.None? then Success(next.(lang := workOrigLang))
    else if next.lang != workOrigLang then Failure(LanguageConflict)
    else Success(next)
  }

  function ResolveUnlinked(from: Text, patch: Patch, context: Context): Result<Text, Refusal> {
    var next := Merged(from, patch);
    if from.translation.Some? && patch.translation == Some(None) && patch.kind.None? then
      if context.workOrigLang.None? then Failure(UnlinkNeedsKind)
      else
        ResolveAsOriginal(next.(kind := Original, lang := if patch.lang.None? then context.workOrigLang else next.lang),
                          context.workOrigLang)
    else ResolveAsOriginal(next, context.workOrigLang)
  }

  function ResolveEditionText(current: Option<Text>, patch: Patch, context: Context): Result<Text, Refusal> {
    var from := if current.Some? then current.value else NEW_EDITION;
    if Merged(from, patch).translation.Some? then ResolveLinked(from, patch, context)
    else ResolveUnlinked(from, patch, context)
  }

  /** The source's own shape: a copy of the stored state is edited field by field. */
  method Resolve(current: Option<Text>, patch: Patch, context: Context) returns (r: Result<Text, Refusal>)
    ensures r == ResolveEditionText(current, patch, context)
  {
    var from := if current.Some? then current.value else NEW_EDITION;
    var next := Merged(from, patch);
    if next.translation.Some? {
      if patch.kind.Some? && patch.kind.value != Translated {
        return Failure(KindRequiresUnlink);
      }
      if context.target.None? {
        return Failure(TargetLanguageMissing);
      }
      next := next.(kind := Translated);
      if patch.lang.None? && from.lang.Some? && from.lang == ImpliedLang(from, context) {
        next := next.(lang := context.target);
      }
      if next.lang.None? {
        next := next.(lang := context.target);
      } else if next.lang != context.target {
        return Failure(LanguageConflict);
      }
      return Success(next);
    }
    if from.translation.Some? && patch.translation == Some(None) {
      if patch.kind.None? {
        if context.workOrigLang.None? {
          return Failure(UnlinkNeedsKind);
        }
        next := next.(kind := Original);
        if patch.lang.None? {
          next := next.(lang := context.workOrigLang);
        }
      }
    } else if from.translation.Some? && patch.kind != None && patch.kind != Some(Translated) {
      // KIND_REQUIRES_UNLINK
      assert false;
    }
    if next.kind == Original && context.workOrigLang.Some? {
      if next.lang.None? {
        next := next.(lang := context.workOrigLang);
      } else if next.lang != context.workOrigLang {
        return Failure(LanguageConflict);
      }
    }
    return Success(next);
  }

  /** The second refusal of a kind for a linked edition cannot be reached: only a patch that drops the link unlinks. */
  lemma UnlinkingIsExplicit(from: Text, patch: Patch)
    ensures from.translation.Some? && Merged(from, patch).translation.None? <==>
              from.translation.Some? && patch.translation == Some(None)
  {
  }

  // ----- what a resolution promises -----

  /** What the callers pass: the language of the translation the edition will be linked to, and of the one it is. */
  predicate ContextFits(from: Text, patch: Patch, context: Context) {
    && (Merged(from, patch).translation.Some? ==> context.target.Some?)
    && (from.translation.Some? ==> context.current.Some?)
    && (from.translation.Some? && Merged(from, patch).translation == from.translation ==> context.target == context.current)
  }

  /** Whatever was stored before, an accepted patch leaves I1, I2 and I3 true. */
  lemma AcceptedFollowsRules(from: Text, patch: Patch, context: Context)
    requires ResolveEditionText(Some(from), patch, context).Success?
    ensures
      var next := ResolveEditionText(Some(from), patch, context).value;
      && next.translation == Merged(from, patch).translation
      && FollowsTranslation(next, context.target) && FollowsWork(next, context.workOrigLang)
      && (patch.kind.Some? ==> next.kind == patch.kind.value)
  {
  }

  /** An accepted patch, field by field: what was sent is stored, the rules fill in the rest, and nothing else moves. */
  lemma ResolutionInFields(from: Text, patch: Patch, context: Context)
    requires ResolveEditionText(Some(from), patch, context).Success?
    ensures
      var next := ResolveEditionText(Some(from), patch, context).value;
      && next.translation == (if patch.translation.Some? then patch.translation.value else from.translation)
      && next.kind == (if patch.kind.Some? then patch.kind.value
                       else if next.translation.Some? then Translated
                       else if from.translation.Some? then Original
                       else from.kind)
      && next.lang == (if next.translation.Some? then context.target
                       else if next.kind == Original && context.workOrigLang.Some? then context.workOrigLang
                       else if patch.lang.Some? then patch.lang.value
                       else from.lang)
  {
  }

  /** Why a patch is refused: a link needs its own kind and a language, unlinking a kind, and otherwise the languages clash. */
  lemma RefusalsInFields(from: Text, patch: Patch, context: Context)
    requires ResolveEditionText(Some(from), patch, context).Failure?
    ensures
      var linked := if patch.translation.Some? then patch.translation.value.Some? else from.translation.Some?;
      ResolveEditionText(Some(from), patch, context).error ==
        if linked && (patch.kind == Some(Unknown) || patch.kind == Some(Original)) then KindRequiresUnlink
        else if linked && context.target.None? then TargetLanguageMissing
        else if !linked && from.translation.Some? && patch.kind.None? && context.workOrigLang.None? then UnlinkNeedsKind
        else LanguageConflict
  {
  }

  /** A language that was sent is the result, or the call is refused. */
  lemma SentLanguageIsKept(current: Option<Text>, patch: Patch, context: Context, lang: Lang)
    requires patch.lang == Some(Some(lang))
    ensures ResolveEditionText(current, patch, context).Success? ==>
              ResolveEditionText(current, patch, context).value.lang == Some(lang)
  {
  }

  /** A stored language that is not the implied one survives, or the call is refused. */
  lemma KnownLanguageSurvives(from: Text, patch: Patch, context: Context, lang: Lang)
    requires FollowsTranslation(from, context.current) && FollowsWork(from, context.workOrigLang)
    requires from.lang == Some(lang) && ImpliedLang(from, context) != Some(lang) && patch.lang.None?
    ensures ResolveEditionText(Some(from), patch, context).Success? ==>
              ResolveEditionText(Some(from), patch, context).value.lang == Some(lang)
  {
  }

  /** Without I2 that fails: unlinking replaces the stored language by the language of the work. */
  lemma UnlinkingTrustsTheRules()
    ensures
      var from := Text(Translated, Some("de"), Some(1));
      var context := Context(Some("en"), None, Some("uk"));
      && ImpliedLang(from, context) != from.lang
      && ResolveEditionText(Some(from), Patch(None, None, Some(None)), context) == Success(Text(Original, Some("en"), None))
  {
  }

  /** The context in which the same patch would be applied again. */
  function ContextAfter(next: Text, context: Context): Context {
    context.(current := if next.translation.Some? then context.target else None)
  }

  /** Applying an accepted patch a second time changes nothing more. */
  lemma AcceptedPatchIsIdempotent(from: Text, patch: Patch, context: Context)
    requires ResolveEditionText(Some(from), patch, context).Success?
    ensures
      var next := ResolveEditionText(Some(from), patch, context).value;
      ResolveEditionText(Some(next), patch, ContextAfter(next, context)) == Success(next)
  {
  }

  /** Exactly when a patch is accepted, for contexts as the callers build them and rows that follow the rules. */
  lemma AcceptedExactlyWhen(from: Text, patch: Patch, context: Context)
    requires ContextFits(from, patch, context)
    requires FollowsTranslation(from, context.current) && FollowsWork(from, context.workOrigLang)
    ensures
      var next := Merged(from, patch);
      var unlinks := from.translation.Some? && next.translation.None?;
      ResolveEditionText(Some(from), patch, context).Success? <==>
        if next.translation.Some? then
          && (patch.kind.None? || patch.kind.value == Translated)
          && (if patch.lang.Some? then patch.lang.value.None? || patch.lang.value == context.target
              else from.lang.None? || from.lang == ImpliedLang(from, context) || from.lang == context.target)
        else if unlinks && patch.kind.None? then
          && context.workOrigLang.Some?
          && (patch.lang.None? || patch.lang.value.None? || patch.lang.value == context.workOrigLang)
        else next.kind == Original && context.workOrigLang.Some? ==> next.lang.None? || next.lang == context.workOrigLang
  {
  }

  // ----- planWorkOriginalLangChange -----

  datatype LangFacts = LangFacts(id: Id, kind: Kind, lang: Option<Lang>)

  datatype Update = Update(id: Id, lang: Lang)

  predicate Moves(edition: LangFacts, oldLang: Option<Lang>, newLang: Lang) {
    edition.kind == Original && edition.lang != Some(newLang) && (edition.lang.None? || edition.lang == oldLang)
  }

  predicate Conflicts(edition: LangFacts, oldLang: Option<Lang>, newLang: Lang) {
    edition.kind == Original && edition.lang.Some? && edition.lang != Some(newLang) && edition.lang != oldLang
  }

  function UpdatesFor(editions: seq<LangFacts>, oldLang: Option<Lang>, newLang: Lang): seq<Update> {
    if |editions| == 0 then []
    else
      var last := editions[|editions| - 1];
      UpdatesFor(editions[..|editions| - 1], oldLang, newLang)
      + if Moves(last, oldLang, newLang) then [Update(last.id, newLang)] else []
  }

  function ConflictsFor(editions: seq<LangFacts>, oldLang: Option<Lang>, newLang: Lang): seq<Id> {
    if |editions| == 0 then []
    else
      var last := editions[|editions| - 1];
      ConflictsFor(editions[..|editions| - 1], oldLang, newLang)
      + if Conflicts(last, oldLang, newLang) then [last.id] else []
  }

  /** The updates that carry every original over to the new language, or the editions that cannot follow. */
  function PlanWorkOriginalLangChange(editions: seq<LangFacts>, oldLang: Option<Lang>, newLang: Option<Lang>)
    : Result<seq<Update>, seq<Id>>
  {
    if newLang.None? then Success([])
    else if ConflictsFor(editions, oldLang, newLang.value) != [] then Failure(ConflictsFor(editions, oldLang, newLang.value))
    else Success(UpdatesFor(editions, oldLang, newLang.value))
  }

  method PlanChange(editions: seq<LangFacts>, oldLang: Option<Lang>, newLang: Option<Lang>)
    returns (plan: Result<seq<Update>, seq<Id>>)
    ensures plan == PlanWorkOriginalLangChange(editions, oldLang, newLang)
  {
    if newLang.None? {
      return Success([]);
    }
    var updates: seq<Update> := [];
    var conflicts: seq<Id> := [];
    for i := 0 to |editions|
      invariant updates == UpdatesFor(editions[..i], oldLang, newLang.value)
      invariant conflicts == ConflictsFor(editions[..i], oldLang, newLang.value)
    {
      assert editions[..i + 1][..i] == editions[..i];
      var edition := editions[i];
      if edition.kind == Original && edition.lang != newLang {
        if edition.lang.None? || (oldLang.Some? && edition.lang == oldLang) {
          updates := updates + [Update(edition.id, newLang.value)];
        } else {
          conflicts := conflicts + [edition.id];
        }
      }
    }
    assert editions[..|editions|] == editions;
    return if |conflicts| > 0 then Failure(conflicts) else Success(updates);
  }

  lemma {:induction false} UpdatesAreTheMoving(editions: seq<LangFacts>, oldLang: Option<Lang>, newLang: Lang, u: Update)
    ensures u in UpdatesFor(editions, oldLang, newLang)
            <==> u.lang == newLang && exists i :: 0 <= i < |editions| && editions[i].id == u.id && Moves(editions[i], oldLang, newLang)
  {
    if |editions| > 0 {
      var n := |editions| - 1;
      UpdatesAreTheMoving(editions[..n], oldLang, newLang, u);
      assert forall i | 0 <= i < n :: editions[..n][i] == editions[i];
    }
  }

  lemma {:induction false} ConflictsAreTheStuck(editions: seq<LangFacts>, oldLang: Option<Lang>, newLang: Lang, id: Id)
    ensures id in ConflictsFor(editions, oldLang, newLang)
            <==> exists i :: 0 <= i < |editions| && editions[i].id == id && Conflicts(editions[i], oldLang, newLang)
  {
    if |editions| > 0 {
      var n := |editions| - 1;
      ConflictsAreTheStuck(editions[..n], oldLang, newLang, id);
      assert forall i | 0 <= i < n :: editions[..n][i] == editions[i];
    }
  }

  /** The plan succeeds exactly when no original has a known language that is neither the new nor the old one. */
  lemma PlanSucceedsExactlyWhen(editions: seq<LangFacts>, oldLang: Option<Lang>, newLang: Option<Lang>)
    ensures PlanWorkOriginalLangChange(editions, oldLang, newLang).Success?
            <==> newLang.None? || forall i | 0 <= i < |editions| :: !Conflicts(editions[i], oldLang, newLang.value)
  {
    if newLang.Some? {
      var stuck := ConflictsFor(editions, oldLang, newLang.value);
      forall i | 0 <= i < |editions| && Conflicts(editions[i], oldLang, newLang.value)
        ensures stuck != []
      {
        ConflictsAreTheStuck(editions, oldLang, newLang.value, editions[i].id);
      }
      if stuck != [] {
        ConflictsAreTheStuck(editions, oldLang, newLang.value, stuck[0]);
      }
    }
  }

  /** Where I3 held under a known old language, changing it never conflicts. */
  lemma KnownLanguageNeverConflicts(editions: seq<LangFacts>, oldLang: Option<Lang>, newLang: Option<Lang>)
    requires oldLang.Some?
    requires forall i | 0 <= i < |editions| :: editions[i].kind == Original ==> editions[i].lang == oldLang
    ensures PlanWorkOriginalLangChange(editions, oldLang, newLang).Success?
  {
    PlanSucceedsExactlyWhen(editions, oldLang, newLang);
  }

  // ----- planMergeLanguage -----

  datatype MergeAction = Keep | Set(lang: Lang) | Conflict

  function PlanMergeLanguage(edition: LangFacts, targetOrigLang: Option<Lang>): MergeAction {
    if edition.kind != Original || targetOrigLang.None? then Keep
    else if edition.lang.None? then Set(targetOrigLang.value)
    else if edition.lang == targetOrigLang then Keep
    else Conflict
  }

  /** A merge refuses exactly the originals in another known language; all others satisfy I3 in the target. */
  lemma MergedFollowsTarget(text: Text, id: Id, targetOrigLang: Option<Lang>)
    ensures
      var action := PlanMergeLanguage(LangFacts(id, text.kind, text.lang), targetOrigLang);
      && (action == Conflict <==> text.lang.Some? && !FollowsWork(text, targetOrigLang))
      && (action == Keep ==> FollowsWork(text, targetOrigLang))
      && (action.Set? ==> text.lang.None? && FollowsWork(text.(lang := Some(action.lang)), targetOrigLang))
  {
  }
}
