/** Following a remote actor: the pending relationship is stored before anything is sent. */
module Following {
  import opened Wrappers
  import opened Vocab
  import opened Json
  import opened FollowCore
  import opened Store
  import NoteDelivery
  import RequestAuth

  datatype FollowActorError =
    | ActorDispatcher(message: string)
    | LocalActorNotFound(localActor: Iri)
    | ActorResolver(unresolved: NoteDelivery.ResolveError)
    | MissingActorKey(owner: Iri)
    | ActivitySender(unsent: RequestAuth.SendError)

  datatype Effect = StorePending(relationship: PendingFollow) | LoadKey(owner: Iri) | Send(inbox: Iri, activity: Follow)

  datatype Attempt = Attempt(tables: Tables, result: Result<Follow, FollowActorError>, effects: seq<Effect>)

  // `failure` is the error sending the Follow ends with, if any.
  function Followed(
    t: Tables, localActorId: Iri, dispatched: Result<Option<Actor>, string>,
    resolved: Result<Actor, NoteDelivery.ResolveError>, followId: Iri, failure: Option<RequestAuth.SendError>)
    : Attempt
  {
    match dispatched
    case Err(message) => Attempt(t, Err(ActorDispatcher(message)), [])
    case Ok(None) => Attempt(t, Err(LocalActorNotFound(localActorId)), [])
    case Ok(Some(local)) =>
      match resolved
      case Err(error) => Attempt(t, Err(ActorResolver(error)), [])
      case Ok(remote) =>
        var outcome := CreateFollow(local, remote, followId);
        var t' := WithPendingFollow(t, outcome.relationship);
        var stored := [StorePending(outcome.relationship), LoadKey(local.id)];
        if local.id !in t.keys then Attempt(t', Err(MissingActorKey(local.id)), stored)
        else
          Attempt(t', if failure.Some? then Err(ActivitySender(failure.value)) else Ok(outcome.activity),
                  stored + [Send(remote.inbox, outcome.activity)])
  }

  method FollowActor(
    store: SqliteStore, localActorId: Iri, dispatched: Result<Option<Actor>, string>,
    resolved: Result<Actor, NoteDelivery.ResolveError>, followId: Iri, failure: Option<RequestAuth.SendError>)
    returns (result: Result<Follow, FollowActorError>, effects: seq<Effect>)
    modifies store`outboundFollows
    ensures Attempt(store.Contents(), result, effects)
            == Followed(old(store.Contents()), localActorId, dispatched, resolved, followId, failure)
  {
    effects := [];
    if dispatched.Err? {
      return Err(ActorDispatcher(dispatched.error)), effects;
    }
    if dispatched.value.None? {
      return Err(LocalActorNotFound(localActorId)), effects;
    }
    var local := dispatched.value.value;
    if resolved.Err? {
      return Err(ActorResolver(resolved.error)), effects;
    }
    var remote := resolved.value;
    var outcome := CreateFollow(local, remote, followId);
    store.StorePendingFollow(outcome.relationship);
    effects := effects + [StorePending(outcome.relationship)];
    var pair := store.LoadActorKeyPair(local.id);
    effects := effects + [LoadKey(local.id)];
    if pair.None? {
      return Err(MissingActorKey(local.id)), effects;
    }
    effects := effects + [Send(remote.inbox, outcome.activity)];
    if failure.Some? {
      return Err(ActivitySender(failure.value)), effects;
    }
    return Ok(outcome.activity), effects;
  }

  /**
   Once both actors are known the intent is kept whatever happens afterwards: the pending relationship is
   what loading the Follow's identifier yields, unless that Follow was accepted before. A Follow is sent
   only after it was stored, to the actor it names.
   */
  lemma IntentIsKept(
    isIri: IriTest, t: Tables, localActorId: Iri, local: Actor, remote: Actor, followId: Iri,
    failure: Option<RequestAuth.SendError>)
    requires isIri(local.id) && ValidActor(isIri, remote)
    ensures var attempt := Followed(t, localActorId, Ok(Some(local)), Ok(remote), followId, failure);
            var pending := PendingFollow(local.id, remote, followId);
            && LoadedPendingFollow(isIri, attempt.tables, followId)
               == (if followId in t.outboundFollows && t.outboundFollows[followId].state == FollowState.Accepted
                   then Ok(None) else Ok(Some(pending)))
            && (forall i | 0 <= i < |attempt.effects| && attempt.effects[i].Send? ::
                  && 0 < i && attempt.effects[0] == StorePending(pending) && attempt.effects[i].inbox == remote.inbox
                  && attempt.effects[i].activity.id == followId
                  && ActorId(attempt.effects[i].activity.actor) == local.id
                  && ActorId(attempt.effects[i].activity.target) == remote.id)
            && (attempt.result.Ok? <==> local.id in t.keys && failure.None?)
  {
    LoadAfterStore(isIri, t, PendingFollow(local.id, remote, followId));
  }

  /**
   Every outcome. Nothing happens until both actors are known. Then the relationship is stored and the key is
   loaded; without a key nothing is sent, and with one the created Follow is sent to the remote actor's inbox,
   exactly once, whether or not it goes through.
   */
  lemma FollowingDoes(
    t: Tables, localActorId: Iri, dispatched: Result<Option<Actor>, string>,
    resolved: Result<Actor, NoteDelivery.ResolveError>, followId: Iri, failure: Option<RequestAuth.SendError>)
    ensures var attempt := Followed(t, localActorId, dispatched, resolved, followId, failure);
            match dispatched
            case Err(message) => attempt == Attempt(t, Err(ActorDispatcher(message)), [])
            case Ok(None) => attempt == Attempt(t, Err(LocalActorNotFound(localActorId)), [])
            case Ok(Some(local)) =>
              match resolved
              case Err(error) => attempt == Attempt(t, Err(ActorResolver(error)), [])
              case Ok(remote) =>
                var pending := PendingFollow(local.id, remote, followId);
                var follow :=
                  Follow(Some("https://www.w3.org/ns/activitystreams"), followId, Id(local.id), Id(remote.id));
                && attempt.tables == WithPendingFollow(t, pending)
                && 2 <= |attempt.effects| <= 3
                && attempt.effects[0] == StorePending(pending) && attempt.effects[1] == LoadKey(local.id)
                && (|attempt.effects| == 3 <==> local.id in t.keys)
                && (local.id in t.keys ==>
                      && attempt.effects[2] == Send(remote.inbox, follow)
                      && attempt.result == match failure case None => Ok(follow) case Some(e) => Err(ActivitySender(e)))
                && (local.id !in t.keys ==> attempt.result == Err(MissingActorKey(local.id)))
  {
  }
}
