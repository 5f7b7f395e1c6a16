/**
 * The authors of a new or corrected work: known people by id, new ones by name, each new name with its own
 * normal form; then `dedupeAuthorLinks`: a person appears once per role, where the request first named them.
 */
module AuthorLinks {
  import opened Wrappers

  datatype Role = Author | CoAuthor | Editor | Illustrator

  datatype Link = Link(authorId: string, role: Role)

  function RoleName(role: Role): string {
    match role
    case Author => "AUTHOR"
    case CoAuthor => "CO_AUTHOR"
    case Editor => "EDITOR"
    case Illustrator => "ILLUSTRATOR"
  }

  /** The text the loop compares by. */
  function Key(link: Link): string {
    link.authorId + ":" + RoleName(link.role)
  }

  lemma RoleNamesDiffer(a: Role, b: Role)
    ensures RoleName(a) == RoleName(b) <==> a == b
    ensures ':' !in RoleName(a)
  {
    if a != b && |RoleName(a)| == |RoleName(b)| {
      assert RoleName(a)[0] != RoleName(b)[0];
    }
  }

  /** The colon is where the id ends, and there is none behind it. */
  lemma KeyParts(link: Link)
    ensures
      var key, n := Key(link), |link.authorId|;
      && n < |key| && key[..n] == link.authorId && key[n] == ':' && key[n + 1..] == RoleName(link.role)
      && forall i | n < i < |key| :: key[i] != ':'
  {
    var key, n, role := Key(link), |link.authorId|, RoleName(link.role);
    RoleNamesDiffer(link.role, link.role);
    hide RoleName;
    forall i | n < i < |key|
      ensures key[i] != ':'
    {
      assert key[i] == role[i - n - 1] && role[i - n - 1] in role;
    }
  }

  /** The text tells the pair: no two different links share a key, whatever characters an id may have. */
  lemma KeyIsInjective(a: Link, b: Link)
    ensures Key(a) == Key(b) <==> a == b
  {
    KeyParts(a);
    KeyParts(b);
    RoleNamesDiffer(a.role, b.role);
    hide Key, RoleName;
  }

  /** The links without those that repeat an earlier one. */
  function Deduped(links: seq<Link>): seq<Link> {
    if |links| == 0 then []
    else
      var init, last := links[..|links| - 1], links[|links| - 1];
      Deduped(init) + if last in init then [] else [last]
  }

  function Keys(links: seq<Link>): set<string> {
    set link | link in links :: Key(link)
  }

  lemma KeyKnown(links: seq<Link>, link: Link)
    ensures Key(link) in Keys(links) <==> link in links
  {
    forall other | other in links
      ensures Key(other) == Key(link) <==> other == link
    {
      KeyIsInjective(other, link);
    }
  }

  method DedupeAuthorLinks(links: seq<Link>) returns (deduped: seq<Link>)
    ensures deduped == Deduped(links)
  {
    hide Key;
    var seen: set<string> := {};
    deduped := [];
    for i := 0 to |links|
      invariant deduped == Deduped(links[..i])
      invariant seen == Keys(links[..i])
    {
      assert links[..i + 1][..i] == links[..i];
      assert links[..i + 1] == links[..i] + [links[i]];
      KeyKnown(links[..i], links[i]);
      if Key(links[i]) !in seen {
        seen := seen + {Key(links[i])};
        deduped := deduped + [links[i]];
      }
      assert Keys(links[..i + 1]) == Keys(links[..i]) + {Key(links[i])};
    }
    assert links[..|links|] == links;
  }

  /** `places[k]` is where the k-th kept link stood: first occurrences, in order, one for every link. */
  predicate KeepsFirsts(links: seq<Link>, kept: seq<Link>, places: seq<nat>) {
    && |places| == |kept|
    && (forall k | 0 <= k < |places| :: places[k] < |links| && links[places[k]] == kept[k])
    && (forall k, i | 0 <= k < |places| && 0 <= i < places[k] :: links[i] != kept[k])
    && (forall k, m | 0 <= k < m < |places| :: places[k] < places[m])
    && (forall i | 0 <= i < |links| :: links[i] in kept)
  }

  lemma RepeatedLink(init: seq<Link>, last: Link, kept: seq<Link>, places: seq<nat>)
    requires KeepsFirsts(init, kept, places) && last in init
    ensures KeepsFirsts(init + [last], kept, places)
  {
    var i :| 0 <= i < |init| && init[i] == last;
    assert init[i] in kept;
  }

  lemma NewLink(init: seq<Link>, last: Link, kept: seq<Link>, places: seq<nat>)
    requires KeepsFirsts(init, kept, places) && last !in init
    ensures KeepsFirsts(init + [last], kept + [last], places + [|init|])
  {
    var links := init + [last];
    assert forall i | 0 <= i < |init| :: links[i] == init[i] && init[i] in init;
    forall i | 0 <= i < |links|
      ensures links[i] in kept + [last]
    {
      assert i < |init| ==> init[i] in kept;
    }
  }

  lemma {:induction false} DedupedKeepsFirsts(links: seq<Link>) returns (places: seq<nat>)
    ensures KeepsFirsts(links, Deduped(links), places)
  {
    places := [];
    if |links| > 0 {
      hide KeepsFirsts;
      var init, last := links[..|links| - 1], links[|links| - 1];
      places := DedupedKeepsFirsts(init);
      assert links == init + [last];
      if last !in init {
        NewLink(init, last, Deduped(init), places);
        places := places + [|init|];
      } else {
        RepeatedLink(init, last, Deduped(init), places);
        assert Deduped(links) == Deduped(init) + [] == Deduped(init);
      }
    }
  }

  /** No link is kept twice, and nothing else is lost. */
  lemma DedupedIsSet(links: seq<Link>, k: nat, m: nat)
    requires k < m < |Deduped(links)|
    ensures Deduped(links)[k] != Deduped(links)[m]
  {
    var places := DedupedKeepsFirsts(links);
    assert links[places[k]] == Deduped(links)[k] && places[k] < places[m];
  }

  lemma {:induction false} DedupedHasSame(links: seq<Link>, link: Link)
    ensures link in Deduped(links) <==> link in links
  {
    if |links| > 0 {
      var init, last := links[..|links| - 1], links[|links| - 1];
      DedupedHasSame(init, link);
      assert links == init + [last];
      DedupedHasSame(init, last);
    }
  }

  // ----- `consolidateWorkAuthors` of a merge -----

  /** The source's links that the target does not have, in the source's order. */
  function ToMove(source: seq<Link>, target: seq<Link>): seq<Link> {
    if |source| == 0 then []
    else
      var init, last := source[..|source| - 1], source[|source| - 1];
      ToMove(init, target) + if last in target then [] else [last]
  }

  /** The target's links stay in front, in their order. */
  function Consolidated(target: seq<Link>, source: seq<Link>): seq<Link> {
    target + ToMove(source, target)
  }

  method ConsolidateWorkAuthors(source: seq<Link>, target: seq<Link>)
    returns (merged: seq<Link>, moved: nat, duplicatesRemoved: nat)
    ensures merged == Consolidated(target, source)
    ensures moved == |merged| - |target| && moved + duplicatesRemoved == |source|
  {
    hide Key;
    var targetKeys := set link | link in target :: Key(link);
    var toMove: seq<Link> := [];
    for i := 0 to |source|
      invariant toMove == ToMove(source[..i], target) && |toMove| <= i
    {
      assert source[..i + 1][..i] == source[..i];
      KeyKnown(target, source[i]);
      if Key(source[i]) !in targetKeys {
        toMove := toMove + [source[i]];
      }
    }
    assert source[..|source|] == source;
    return target + toMove, |toMove|, |source| - |toMove|;
  }

  lemma {:induction false} ToMoveIsThe(source: seq<Link>, target: seq<Link>, link: Link)
    ensures link in ToMove(source, target) <==> link in source && link !in target
  {
    if |source| > 0 {
      var init, last := source[..|source| - 1], source[|source| - 1];
      ToMoveIsThe(init, target, link);
      assert source == init + [last];
    }
  }

  predicate AllDistinct(links: seq<Link>) {
    forall i, j | 0 <= i < j < |links| :: links[i] != links[j]
  }

  lemma DedupedIsDistinct(links: seq<Link>)
    ensures AllDistinct(Deduped(links))
  {
    forall i, j | 0 <= i < j < |Deduped(links)|
      ensures Deduped(links)[i] != Deduped(links)[j]
    {
      DedupedIsSet(links, i, j);
    }
  }

  lemma {:induction false} DistinctIsDeduped(links: seq<Link>)
    requires AllDistinct(links)
    ensures Deduped(links) == links
  {
    if |links| > 0 {
      DistinctIsDeduped(links[..|links| - 1]);
    }
  }

  /** The merged list is the two lists one after the other without what repeats an earlier link. */
  lemma {:induction false} ConsolidatedIsDeduped(target: seq<Link>, source: seq<Link>)
    requires AllDistinct(target) && AllDistinct(source)
    ensures Consolidated(target, source) == Deduped(target + source)
    ensures AllDistinct(Consolidated(target, source))
  {
    if |source| == 0 {
      assert target + source == target;
      DistinctIsDeduped(target);
    } else {
      var init, last := source[..|source| - 1], source[|source| - 1];
      ConsolidatedIsDeduped(target, init);
      assert (target + source)[..|target + source| - 1] == target + init;
      assert last !in init;
    }
    DedupedIsDistinct(target + source);
  }

  // ----- the authors of a request -----

  datatype AuthorInput = AuthorInput(authorId: Option<string>, name: Option<string>, role: Option<Role>)

  datatype NewAuthor = NewAuthor(name: string, nameNorm: string)

  /** What the request validation demands: an author comes by id or by name, never both. */
  predicate ExactlyOne(a: AuthorInput) {
    a.authorId.Some? <==> a.name.None?
  }

  /** The names sent to the normalizer, in order. */
  function Names(authors: seq<AuthorInput>): seq<string> {
    if |authors| == 0 then []
    else (if authors[0].name.Some? then [authors[0].name.value] else []) + Names(authors[1..])
  }

  function RoleOf(a: AuthorInput): Role {
    if a.role.Some? then a.role.value else Author
  }

  /** The authors created and the links made, from the `next`-th normal form on; none if the loop throws. */
  function Collected(authors: seq<AuthorInput>, norms: seq<string>, next: nat, newId: nat -> string)
    : Option<(seq<NewAuthor>, seq<Link>)>
  {
    if |authors| == 0 then Some(([], []))
    else
      var a := authors[0];
      if a.authorId.Some? then
        match Collected(authors[1..], norms, next, newId)
        case None => None
        case Some((created, links)) => Some((created, [Link(a.authorId.value, RoleOf(a))] + links))
      else if a.name.None? || next >= |norms| then None
      else
        match Collected(authors[1..], norms, next + 1, newId)
        case None => None
        case Some((created, links)) =>
          Some(([NewAuthor(a.name.value, norms[next])] + created, [Link(newId(next), RoleOf(a))] + links))
  }

  /** Authors and links found so far, and what the rest of the request adds to them. */
  function Onto(created: seq<NewAuthor>, links: seq<Link>, rest: Option<(seq<NewAuthor>, seq<Link>)>)
    : Option<(seq<NewAuthor>, seq<Link>)>
  {
    match rest
    case None => None
    case Some((moreCreated, moreLinks)) => Some((created + moreCreated, links + moreLinks))
  }

  lemma NothingCollectedYet(rest: Option<(seq<NewAuthor>, seq<Link>)>)
    ensures Onto([], [], rest) == rest
  {
    if rest.Some? {
      assert [] + rest.value.0 == rest.value.0 && [] + rest.value.1 == rest.value.1;
    }
  }

  /** One author further: a known one adds a link, a new one an author and a link, a bad one ends the loop. */
  lemma CollectedFrom(authors: seq<AuthorInput>, norms: seq<string>, next: nat, newId: nat -> string, i: nat,
                      created: seq<NewAuthor>, links: seq<Link>)
    requires i < |authors|
    ensures
      var a, here := authors[i], Onto(created, links, Collected(authors[i..], norms, next, newId));
      if a.authorId.Some? then
        here == Onto(created, links + [Link(a.authorId.value, RoleOf(a))], Collected(authors[i + 1..], norms, next, newId))
      else if a.name.None? || next >= |norms| then here.None?
      else
        here == Onto(created + [NewAuthor(a.name.value, norms[next])], links + [Link(newId(next), RoleOf(a))],
                     Collected(authors[i + 1..], norms, next + 1, newId))
  {
    var a, rest := authors[i], authors[i + 1..];
    assert authors[i..][0] == a && authors[i..][1..] == rest;
    if a.authorId.Some? {
      var later := Collected(rest, norms, next, newId);
      if later.Some? {
        var link := Link(a.authorId.value, RoleOf(a));
        assert (links + [link]) + later.value.1 == links + ([link] + later.value.1);
      }
    } else if a.name.Some? && next < |norms| {
      var later := Collected(rest, norms, next + 1, newId);
      if later.Some? {
        var author, link := NewAuthor(a.name.value, norms[next]), Link(newId(next), RoleOf(a));
        assert (links + [link]) + later.value.1 == links + ([link] + later.value.1);
        assert (created + [author]) + later.value.0 == created + ([author] + later.value.0);
      }
    }
  }

  lemma AllCollected(norms: seq<string>, next: nat, newId: nat -> string, created: seq<NewAuthor>, links: seq<Link>)
    ensures Onto(created, links, Collected([], norms, next, newId)) == Some((created, links))
  {
    assert created + [] == created && links + [] == links;
  }

  /** The loop of `createWorkIn` and `patchWork`; `newId(k)` is the id the k-th inserted author gets. */
  method CollectLinks(authors: seq<AuthorInput>, norms: seq<string>, newId: nat -> string)
    returns (r: Option<(seq<NewAuthor>, seq<Link>)>)
    ensures r == Collected(authors, norms, 0, newId)
  {
    hide Collected, Onto;
    var nextName := 0;
    var created: seq<NewAuthor>, links: seq<Link> := [], [];
    assert authors[0..] == authors;
    NothingCollectedYet(Collected(authors, norms, 0, newId));
    for i := 0 to |authors|
      invariant Collected(authors, norms, 0, newId) == Onto(created, links, Collected(authors[i..], norms, nextName, newId))
    {
      var a := authors[i];
      CollectedFrom(authors, norms, nextName, newId, i, created, links);
      if a.authorId.Some? {
        links := links + [Link(a.authorId.value, RoleOf(a))];
      } else {
        if a.name.None? || nextName >= |norms| {
          return None;
        }
        created := created + [NewAuthor(a.name.value, norms[nextName])];
        links := links + [Link(newId(nextName), RoleOf(a))];
        nextName := nextName + 1;
      }
    }
    assert authors[|authors|..] == [];
    AllCollected(norms, nextName, newId, created, links);
    return Some((created, links));
  }

  /** The new names before the `i`-th author. */
  function NamesBefore(authors: seq<AuthorInput>, i: nat): nat
    requires i <= |authors|
  {
    |Names(authors[..i])|
  }

  lemma NamesAfterFirst(authors: seq<AuthorInput>, i: nat)
    requires 0 < i <= |authors|
    ensures NamesBefore(authors, i) == NamesBefore(authors[1..], i - 1) + if authors[0].name.Some? then 1 else 0
  {
    assert authors[..i][1..] == authors[1..][..i - 1];
  }

  /** The loop never throws, and every new author gets the normal form of their own name. */
  lemma {:induction false} EachNameItsOwnNorm(authors: seq<AuthorInput>, norms: seq<string>, next: nat, newId: nat -> string)
    requires forall i | 0 <= i < |authors| :: ExactlyOne(authors[i])
    requires |norms| == next + |Names(authors)|
    ensures Collected(authors, norms, next, newId).Some?
    ensures
      var (created, links) := Collected(authors, norms, next, newId).value;
      && |links| == |authors|
      && |created| == |Names(authors)|
      && forall k | 0 <= k < |created| :: created[k] == NewAuthor(Names(authors)[k], norms[next + k])
  {
    if |authors| > 0 {
      EachNameItsOwnNorm(authors[1..], norms, if authors[0].name.Some? then next + 1 else next, newId);
    }
  }

  /** And every link has its own person, the known one or the one just inserted, in the role that was sent or as author. */
  lemma {:induction false} EachLinkItsOwnPerson(authors: seq<AuthorInput>, norms: seq<string>, next: nat, newId: nat -> string,
                                                i: nat)
    requires forall k | 0 <= k < |authors| :: ExactlyOne(authors[k])
    requires |norms| == next + |Names(authors)| && i < |authors|
    ensures Collected(authors, norms, next, newId).Some? && |Collected(authors, norms, next, newId).value.1| == |authors|
    ensures Collected(authors, norms, next, newId).value.1[i]
         == Link(if authors[i].authorId.Some? then authors[i].authorId.value else newId(next + NamesBefore(authors, i)),
                 match authors[i].role case Some(role) => role case None => Author)
  {
    EachNameItsOwnNorm(authors, norms, next, newId);
    var rest, later := authors[1..], if authors[0].name.Some? then next + 1 else next;
    EachNameItsOwnNorm(rest, norms, later, newId);
    if i > 0 {
      EachLinkItsOwnPerson(rest, norms, later, newId, i - 1);
      NamesAfterFirst(authors, i);
      hide NamesBefore, Names;
    } else {
      assert authors[..0] == [];
    }
  }

  /** The validation matters: an author with both would hand the normal form of their name to the next one. */
  lemma BothWouldMisalign(norm: string -> string, newId: nat -> string)
    ensures
      var both, other := AuthorInput(Some("a1"), Some("X"), None), AuthorInput(None, Some("Y"), None);
      && Names([both, other]) == ["X", "Y"]
      && Collected([both, other], [norm("X"), norm("Y")], 0, newId)
           == Some(([NewAuthor("Y", norm("X"))], [Link("a1", Author), Link(newId(0), Author)]))
  {
    var both, other := AuthorInput(Some("a1"), Some("X"), None), AuthorInput(None, Some("Y"), None);
    var norms := [norm("X"), norm("Y")];
    assert [both, other][1..] == [other] && [other][1..] == [];
    assert Names([]) == [] && Names([other]) == ["Y"] + [];
    assert Collected([], norms, 1, newId) == Some(([], []));
    assert [NewAuthor("Y", norm("X"))] + [] == [NewAuthor("Y", norm("X"))];
    assert [Link(newId(0), Author)] + [] == [Link(newId(0), Author)];
    assert Collected([other], norms, 0, newId) == Some(([NewAuthor("Y", norm("X"))], [Link(newId(0), Author)]));
    assert [both, other][0] == both && RoleOf(both) == Author;
    assert [Link("a1", Author)] + [Link(newId(0), Author)] == [Link("a1", Author), Link(newId(0), Author)];
    assert Collected([both, other], norms, 0, newId)
        == Some(([NewAuthor("Y", norm("X"))], [Link("a1", Author)] + [Link(newId(0), Author)]));
  }
}
