/** A pair of people, the table of what may happen to it, and what one transition writes. All pure. */
module Friendship {
  import opened Wrappers

  type Id = nat

  datatype Status = Pending | Accepted | Declined | Blocked

  datatype Record = Record(userA: Id, userB: Id, status: Status, requestedBy: Id, blockedBy: Option<Id>)

  datatype Action = Request | Accept | Decline | Remove | Block | Invite

  datatype Role = NoRole | Requester | Recipient | Blocker | BlockedOne

  datatype Reason = PairBlocked | Exists | WrongRole | WrongState

  datatype Outcome = Create(status: Status) | Update(to: Status) | Delete | Unchanged | Refused(reason: Reason)

  // ----- friendship.pair -----

  /** `normalizePair`; a pair with oneself is an error of the caller. */
  function NormalizePair(one: Id, other: Id): (Id, Id)
    requires one != other
  {
    if one < other then (one, other) else (other, one)
  }

  predicate IsMember(r: Record, user: Id) {
    r.userA == user || r.userB == user
  }

  function OtherOf(r: Record, user: Id): Id {
    if r.userA == user then r.userB else r.userA
  }

  function ActorRole(friendship: Option<Record>, actor: Id): Role {
    match friendship
    case None => NoRole
    case Some(r) =>
      if r.status == Blocked then if r.blockedBy == Some(actor) then Blocker else BlockedOne
      else if r.requestedBy == actor then Requester else Recipient
  }

  datatype Relation = NoRelation | Friends | RequestSent | RequestReceived | BlockedByMe | BlockedMe

  function RelationOf(friendship: Option<Record>, viewer: Id): Relation {
    match friendship
    case None => NoRelation
    case Some(r) =>
      match r.status
      case Accepted => Friends
      case Pending => if r.requestedBy == viewer then RequestSent else RequestReceived
      case Blocked => if r.blockedBy == Some(viewer) then BlockedByMe else BlockedMe
      case Declined => NoRelation
  }

  // ----- friendship.transitions -----

  /** `resolveTransition`: a block cuts off everything but its removal by the blocker. */
  function ResolveTransition(state: Option<Status>, action: Action, actor: Role): Outcome {
    if state == Some(Blocked) then
      if action == Remove && actor == Blocker then Delete else Refused(PairBlocked)
    else
      match action
      case Request => ToRequest(state, actor)
      case Accept => if state != Some(Pending) then Refused(WrongState)
                     else if actor == Recipient then Update(Accepted) else Refused(WrongRole)
      case Decline => if state != Some(Pending) then Refused(WrongState)
                      else if actor == Recipient then Update(Declined) else Refused(WrongRole)
      case Remove => if state.None? then Refused(WrongState) else Delete
      case Invite => ToInvite(state)
      case Block => if state.None? then Create(Blocked) else Update(Blocked)
  }

  function ToRequest(state: Option<Status>, actor: Role): Outcome {
    match state
    case None => Create(Pending)
    case Some(Declined) => Update(Pending)
    case Some(Pending) => if actor == Recipient then Update(Accepted) else Refused(Exists)
    case Some(Accepted) => Refused(Exists)
    case Some(Blocked) => Refused(PairBlocked)
  }

  function ToInvite(state: Option<Status>): Outcome {
    match state
    case None => Create(Accepted)
    case Some(Pending) => Update(Accepted)
    case Some(Declined) => Update(Accepted)
    case Some(Accepted) => Unchanged
    case Some(Blocked) => Refused(PairBlocked)
  }

  function StateOf(friendship: Option<Record>): Option<Status> {
    if friendship.None? then None else Some(friendship.value.status)
  }

  function OutcomeOf(friendship: Option<Record>, action: Action, actor: Id): Outcome {
    ResolveTransition(StateOf(friendship), action, ActorRole(friendship, actor))
  }

  /** The row that `create` inserts; an accepted invitation counts as requested by the inviter. */
  function Created(actor: Id, other: Id, action: Action, status: Status): Record
    requires actor != other
  {
    var (a, b) := NormalizePair(actor, other);
    Record(a, b, status, if action == Invite then other else actor, if status == Blocked then Some(actor) else None)
  }

  function Updated(r: Record, actor: Id, to: Status): Record {
    r.(status := to, requestedBy := if to == Pending then actor else r.requestedBy,
       blockedBy := if to == Blocked then Some(actor) else r.blockedBy)
  }

  // ----- what the table promises -----

  /** A row as the database accepts it: `friendship_ab_ordered`, `friendship_block_author_valid`. */
  predicate RecordOk(r: Record) {
    && r.userA < r.userB
    && IsMember(r, r.requestedBy)
    && (r.status == Blocked <==> r.blockedBy.Some?)
    && (r.blockedBy.Some? ==> IsMember(r, r.blockedBy.value))
  }

  /** The two members see the pair from opposite sides, and what each sees is what the row says. */
  lemma RelationsMirror(r: Record)
    requires RecordOk(r)
    ensures
      var a := RelationOf(Some(r), r.userA);
      && (a == Friends <==> r.status == Accepted) && (a == NoRelation <==> r.status == Declined)
      && (a == RequestSent <==> r.status == Pending && r.requestedBy == r.userA)
      && (a == BlockedByMe <==> r.status == Blocked && r.blockedBy == Some(r.userA))
    ensures
      var a, b := RelationOf(Some(r), r.userA), RelationOf(Some(r), r.userB);
      && (a == RequestSent <==> b == RequestReceived) && (a == RequestReceived <==> b == RequestSent)
      && (a == BlockedByMe <==> b == BlockedMe) && (a == BlockedMe <==> b == BlockedByMe)
      && (a == Friends <==> b == Friends) && (a == NoRelation <==> b == NoRelation)
  {
  }

  /** What a transition writes is again a row the database accepts, for the same two people. */
  lemma TransitionsWriteValidRows(friendship: Option<Record>, action: Action, actor: Id, other: Id)
    requires actor != other
    requires friendship.Some? ==> RecordOk(friendship.value)
    requires friendship.Some? ==> (friendship.value.userA, friendship.value.userB) == NormalizePair(actor, other)
    ensures
      match OutcomeOf(friendship, action, actor)
      case Create(status) =>
        && friendship.None? && RecordOk(Created(actor, other, action, status))
        && (Created(actor, other, action, status).userA, Created(actor, other, action, status).userB) == NormalizePair(actor, other)
      case Update(to) => friendship.Some? && RecordOk(Updated(friendship.value, actor, to))
      case Delete => friendship.Some?
      case Unchanged => friendship.Some?
      case Refused(_) => true
  {
  }

  /** From a blocked pair one way leads out: the blocker removes the row. */
  lemma OnlyBlockerUnblocks(r: Record, action: Action, actor: Id)
    requires r.status == Blocked
    ensures OutcomeOf(Some(r), action, actor)
         == if action == Remove && r.blockedBy == Some(actor) then Delete else Refused(PairBlocked)
  {
  }

  /** A pair becomes friends only by the recipient of a standing request, or by an invitation. */
  lemma FriendsOnlyByConsent(friendship: Option<Record>, action: Action, actor: Id)
    ensures OutcomeOf(friendship, action, actor) == Create(Accepted) || OutcomeOf(friendship, action, actor) == Update(Accepted)
            <==>
            || (action == Invite && StateOf(friendship) != Some(Blocked) && StateOf(friendship) != Some(Accepted))
            || ((action == Accept || action == Request) && friendship.Some? && friendship.value.status == Pending
                && friendship.value.requestedBy != actor)
  {
  }
}
