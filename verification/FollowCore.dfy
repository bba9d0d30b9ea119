/** The portable decisions about Follow, Accept and Undo activities. */
module FollowCore {
  import opened Wrappers
  import opened Vocab

  const ACTIVITYSTREAMS_CONTEXT: Iri := "https://www.w3.org/ns/activitystreams"

  datatype PendingFollow = PendingFollow(localActor: Iri, remoteActor: Actor, followActivity: Iri)

  datatype CreateFollowOutcome = CreateFollowOutcome(relationship: PendingFollow, activity: Follow)

  datatype FollowOutcome = FollowOutcome(follower: Actor, following: Iri, accept: Accept, recipientInbox: Iri)

  datatype UndoFollowOutcome = UndoFollowOutcome(follower: Iri, following: Iri)

  datatype AcceptFollowError = AcceptWrongActor | WrongFollow | WrongFollowActor | WrongFollowObject | WrongLocalActor

  datatype FollowError = WrongActor | WrongObject

  datatype UndoFollowError = LinkedFollow | UndoWrongActor | UndoWrongObject

  function CreateFollow(local: Actor, remote: Actor, followId: Iri): CreateFollowOutcome {
    CreateFollowOutcome(
      PendingFollow(local.id, remote, followId),
      Follow(Some(ACTIVITYSTREAMS_CONTEXT), followId, Id(local.id), Id(remote.id)))
  }

  function ReceiveFollow(local: Actor, remote: Actor, follow: Follow, acceptId: Iri)
    : Result<FollowOutcome, FollowError>
  {
    if ActorId(follow.target) != local.id then Err(WrongObject)
    else if ActorId(follow.actor) != remote.id then Err(WrongActor)
    else
      var embedded := follow.(actor := Object(remote));
      Ok(FollowOutcome(
        remote, local.id, Accept(Some(ACTIVITYSTREAMS_CONTEXT), acceptId, Id(local.id), Object(embedded)),
        remote.inbox))
  }

  function ReceiveAcceptFollow(local: Actor, remote: Actor, pending: PendingFollow, accept: Accept)
    : Result<(), AcceptFollowError>
  {
    if pending.localActor != local.id then Err(WrongLocalActor)
    else if pending.remoteActor.id != remote.id || ActorId(accept.actor) != remote.id then Err(AcceptWrongActor)
    else if FollowId(accept.follow) != pending.followActivity then Err(WrongFollow)
    else if accept.follow.Object? && ActorId(accept.follow.embedded.actor) != local.id then Err(WrongFollowActor)
    else if accept.follow.Object? && ActorId(accept.follow.embedded.target) != remote.id then Err(WrongFollowObject)
    else Ok(())
  }

  function ReceiveUndoFollow(local: Actor, remote: Actor, undo: Undo): Result<UndoFollowOutcome, UndoFollowError> {
    if ActorId(undo.actor) != remote.id then Err(UndoWrongActor)
    else
      match undo.follow
      case Id(_) => Err(LinkedFollow)
      case Object(follow) =>
        if ActorId(follow.actor) != remote.id then Err(UndoWrongActor)
        else if ActorId(follow.target) != local.id then Err(UndoWrongObject)
        else Ok(UndoFollowOutcome(remote.id, local.id))
  }

  // The same Follow, whether its actors are given by identifier or embedded.
  predicate SameFollow(f: Follow, g: Follow) {
    f.id == g.id && ActorId(f.actor) == ActorId(g.actor) && ActorId(f.target) == ActorId(g.target)
  }

  /**
   The three receiving decisions take exactly the Follows that `CreateFollow` makes: a Follow from the
   remote to the local actor, an Accept by the remote actor of the local actor's pending Follow, and an
   Undo by the remote actor of its own embedded Follow.
   */
  lemma DecisionsMatchCreatedFollows(
    local: Actor, remote: Actor, follow: Follow, acceptId: Iri, pending: PendingFollow, accept: Accept, undo: Undo)
    ensures ReceiveFollow(local, remote, follow, acceptId).Ok? <==>
            SameFollow(follow, CreateFollow(remote, local, follow.id).activity)
    ensures ReceiveFollow(local, remote, follow, acceptId).Ok? ==>
              var outcome := ReceiveFollow(local, remote, follow, acceptId).value;
              && outcome.accept.follow.Object? && SameFollow(outcome.accept.follow.embedded, follow)
              && outcome.accept.follow.embedded.actor == Object(remote)
              && outcome.follower == remote && outcome.following == local.id && outcome.recipientInbox == remote.inbox
    ensures var created := CreateFollow(local, remote, pending.followActivity);
            ReceiveAcceptFollow(local, remote, pending, accept).Ok? <==>
              && pending.localActor == local.id && pending.remoteActor.id == remote.id
              && ActorId(accept.actor) == remote.id
              && match accept.follow
                 case Id(id) => id == created.activity.id
                 case Object(embedded) => SameFollow(embedded, created.activity)
    ensures ReceiveUndoFollow(local, remote, undo) == Ok(UndoFollowOutcome(remote.id, local.id)) <==>
            && ActorId(undo.actor) == remote.id && undo.follow.Object?
            && SameFollow(undo.follow.embedded, CreateFollow(remote, local, undo.follow.embedded.id).activity)
    ensures ReceiveUndoFollow(local, remote, undo).Ok? ==>
              ReceiveUndoFollow(local, remote, undo) == Ok(UndoFollowOutcome(remote.id, local.id))
  {
  }
}
