/**
 What the inboxes do with each kind of activity, told from the decoded activity, the stored rows and the two
 actors alone: the new tables, the answer and the Accept that is sent.
 */
module InboxAnswers {
  import opened Wrappers
  import opened Vocab
  import opened Json
  import opened FollowCore
  import opened Store
  import opened Http
  import opened Inbox
  import AcceptId

  /******* The untyped look-ups *******/

  // The value is this identifier, or an object with it.
  predicate Names(isIri: IriTest, v: Value, id: Iri) {
    isIri(id) && (v == Text(id) || (v.Dict? && KId in v.members && v.members[KId] == Text(id)))
  }

  lemma ReferenceMeans(isIri: IriTest, v: Value)
    ensures forall id :: ReferenceId(isIri, v) == Some(id) <==> Names(isIri, v, id)
  {
  }

  /** The sender an activity names: its actor member, as an identifier or an object with one. */
  lemma SenderMeans(isIri: IriTest, v: Value)
    ensures forall id ::
              ActivityActorId(isIri, v) == Some(id) <==>
                v.Dict? && KActor in v.members && Names(isIri, v.members[KActor], id)
  {
    if v.Dict? && KActor in v.members {
      ReferenceMeans(isIri, v.members[KActor]);
    }
  }

  /** The local actor an activity is for: the object of a Follow, and the object of the object of an Undo. */
  lemma TargetMeans(isIri: IriTest, v: Value)
    ensures forall id ::
              ActivityTargetId(isIri, v) == Some(id) <==>
                && v.Dict? && KType in v.members && KObject in v.members
                && var inner := v.members[KObject];
                   || (v.members[KType] == Text("Follow") && Names(isIri, inner, id))
                   || (v.members[KType] == Text("Undo") && inner.Dict? && KObject in inner.members
                       && Names(isIri, inner.members[KObject], id))
  {
    TypesDiffer(v);
    if v.Dict? && KObject in v.members {
      ReferenceMeans(isIri, v.members[KObject]);
      if v.members[KObject].Dict? && KObject in v.members[KObject].members {
        ReferenceMeans(isIri, v.members[KObject].members[KObject]);
      }
    }
  }

  /******* What each activity does *******/

  // The answer to this Follow, as the local actor seen by nobody but itself and the sender as it was resolved.
  function AnswerFor(local: Actor, remote: Actor, follow: Follow): Accept {
    Accept(Some("https://www.w3.org/ns/activitystreams"), local.id + ("#accepts/" + AcceptId.PercentEncode(follow.id)),
           Id(local.id), Object(Follow(follow.context, follow.id, Object(remote), follow.target)))
  }

  /**
   A verified Follow: refused with 500 when no Accept can be named, ignored when it is for someone else, and
   otherwise its sender is stored and answered, unless the local actor has no key to sign with.
   */
  lemma FollowDoes(
    isIri: IriTest, t: Tables, local: Actor, remote: Actor, body: Value, follow: Follow,
    pendingFollow: Option<PendingFollow>, delivers: bool)
    requires ActivityActorId(isIri, body) == Some(remote.id) && DecodeFollow(isIri, body) == Some(follow)
    ensures var answer := AnswerFor(local, remote, follow);
            var row := FollowerRow(Some(remote.inbox), Vocab.SharedInbox(remote));
            var t' := t.(followers := t.followers[(remote.id, local.id) := row]);
            Received(isIri, t, local, remote, body, pendingFollow, delivers)
            == if !isIri(answer.id) then Reception(t, InternalServerError, None)
               else if ActorId(follow.target) != local.id then Reception(t, StatusCode.Accepted, None)
               else if local.id !in t.keys then Reception(t', InternalServerError, None)
               else if delivers then Reception(t', StatusCode.Accepted, Some((answer, remote.inbox)))
               else Reception(t', BadGateway, Some((answer, remote.inbox)))
  {
    PeeksAgreeWithDecoding(isIri, body);
  }

  /** A verified Undo: ignored unless it embeds a Follow of the local actor, refused unless that is the sender's own. */
  lemma UndoDoes(
    isIri: IriTest, t: Tables, local: Actor, remote: Actor, body: Value, undo: Undo,
    pendingFollow: Option<PendingFollow>, delivers: bool)
    requires ActivityActorId(isIri, body) == Some(remote.id) && DecodeUndo(isIri, body) == Some(undo)
    ensures Received(isIri, t, local, remote, body, pendingFollow, delivers)
            == match undo.follow
               case Id(_) => Reception(t, StatusCode.Accepted, None)
               case Object(follow) =>
                 if ActorId(follow.actor) != remote.id then Reception(t, Unauthorized, None)
                 else if ActorId(follow.target) != local.id then Reception(t, StatusCode.Accepted, None)
                 else
                   Reception(t.(followers := t.followers - {(remote.id, local.id)}), StatusCode.Accepted, None)
  {
    PeeksAgreeWithDecoding(isIri, body);
    TypesDiffer(body);
  }

  // The relationship an Accept is checked against: the one that was loaded already, or else the pending row.
  function CheckedAgainst(isIri: IriTest, t: Tables, accept: Accept, pendingFollow: Option<PendingFollow>)
    : Result<Option<PendingFollow>, StoreError>
  {
    match pendingFollow
    case None => PendingRow(isIri, t, FollowId(accept.follow))
    case Some(pending) => if pending.followActivity == FollowId(accept.follow) then Ok(Some(pending)) else Ok(None)
  }

  // What the pending row of a Follow holds, if there is one and it is readable.
  function PendingRow(isIri: IriTest, t: Tables, id: Iri): Result<Option<PendingFollow>, StoreError> {
    if id !in t.outboundFollows || t.outboundFollows[id].state == FollowState.Accepted then Ok(None)
    else
      var row := t.outboundFollows[id];
      if !isIri(row.localActorId) then Err(InvalidIri(row.localActorId))
      else match DecodeActor(isIri, row.remoteActorJson)
        case None => Err(JsonFailure)
        case Some(actor) => Ok(Some(PendingFollow(row.localActorId, actor, id)))
  }

  lemma PendingRowIsLoaded(isIri: IriTest, t: Tables, id: Iri)
    ensures LoadedPendingFollow(isIri, t, id) == PendingRow(isIri, t, id)
  {
  }

  // The Accept does not contradict the Follow the local actor sent to this remote one.
  predicate AgreesWith(accept: Accept, local: Actor, remote: Actor) {
    match accept.follow
    case Id(_) => true
    case Object(follow) => ActorId(follow.actor) == local.id && ActorId(follow.target) == remote.id
  }

  /**
   A verified Accept: 500 when the row it names cannot be read, 401 exactly when the row is the local actor's
   but awaits another actor, and otherwise 202. The row becomes accepted exactly when it still holds the
   relationship that was checked, which is between these two actors, and the Accept agrees with it.
   */
  lemma AcceptDoes(
    isIri: IriTest, t: Tables, local: Actor, remote: Actor, body: Value, accept: Accept,
    pendingFollow: Option<PendingFollow>, delivers: bool)
    requires ActivityActorId(isIri, body) == Some(remote.id) && DecodeAccept(isIri, body) == Some(accept)
    ensures var id, row := FollowId(accept.follow), PendingRow(isIri, t, FollowId(accept.follow));
            Received(isIri, t, local, remote, body, pendingFollow, delivers)
            == match CheckedAgainst(isIri, t, accept, pendingFollow)
               case Err(_) => Reception(t, InternalServerError, None)
               case Ok(None) => Reception(t, StatusCode.Accepted, None)
               case Ok(Some(pending)) =>
                 if pending.localActor != local.id then Reception(t, StatusCode.Accepted, None)
                 else if pending.remoteActor.id != remote.id then Reception(t, Unauthorized, None)
                 else if !AgreesWith(accept, local, remote) then Reception(t, StatusCode.Accepted, None)
                 else if row.Err? then Reception(t, InternalServerError, None)
                 else if row.value != Some(pending) then Reception(t, StatusCode.Accepted, None)
                 else Reception(Accepting(t, id), StatusCode.Accepted, None)
  {
    PeeksAgreeWithDecoding(isIri, body);
    TypesDiffer(body);
    PendingRowIsLoaded(isIri, t, FollowId(accept.follow));
    AcceptIsDecided(isIri, body, local, remote, accept);
    AcceptIsChecked(isIri, t, local, remote, accept, pendingFollow);
  }

  function Accepting(t: Tables, id: Iri): Tables
    requires id in t.outboundFollows
  {
    var row := t.outboundFollows[id];
    t.(outboundFollows :=
         t.outboundFollows[id := OutboundRow(row.localActorId, row.remoteActorJson, FollowState.Accepted)])
  }

  lemma AcceptIsDecided(isIri: IriTest, body: Value, local: Actor, remote: Actor, accept: Accept)
    requires DecodeAccept(isIri, body) == Some(accept)
    ensures Decide(isIri, body, local, remote) == Confirm(accept)
  {
    TypesDiffer(body);
  }

  lemma AcceptIsChecked(
    isIri: IriTest, t: Tables, local: Actor, remote: Actor, accept: Accept, pendingFollow: Option<PendingFollow>)
    requires ActorId(accept.actor) == remote.id
    requires LoadedPendingFollow(isIri, t, FollowId(accept.follow)) == PendingRow(isIri, t, FollowId(accept.follow))
    ensures var id, row := FollowId(accept.follow), PendingRow(isIri, t, FollowId(accept.follow));
            ReceivedAccept(isIri, t, local, remote, accept, pendingFollow)
            == match CheckedAgainst(isIri, t, accept, pendingFollow)
               case Err(_) => Reception(t, InternalServerError, None)
               case Ok(None) => Reception(t, StatusCode.Accepted, None)
               case Ok(Some(pending)) =>
                 if pending.localActor != local.id then Reception(t, StatusCode.Accepted, None)
                 else if pending.remoteActor.id != remote.id then Reception(t, Unauthorized, None)
                 else if !AgreesWith(accept, local, remote) then Reception(t, StatusCode.Accepted, None)
                 else if row.Err? then Reception(t, InternalServerError, None)
                 else if row.value != Some(pending) then Reception(t, StatusCode.Accepted, None)
                 else Reception(Accepting(t, id), StatusCode.Accepted, None)
  {
  }

  /** Anything else changes nothing: 400 when it is of a handled kind but malformed, and 202 otherwise. */
  lemma OthersDoNothing(
    isIri: IriTest, t: Tables, local: Actor, remote: Actor, body: Value, pendingFollow: Option<PendingFollow>,
    delivers: bool)
    requires DecodeFollow(isIri, body) == None && DecodeUndo(isIri, body) == None && DecodeAccept(isIri, body) == None
    ensures Received(isIri, t, local, remote, body, pendingFollow, delivers)
            == if IsMalformed(body) then Reception(t, BadRequest, None) else Reception(t, StatusCode.Accepted, None)
  {
    TypesDiffer(body);
  }

  // It says it is a Follow, an Accept of no other embedded type, or an Undo of an embedded Follow.
  predicate IsMalformed(body: Value) {
    && body.Dict? && KType in body.members
    && var kind, target := body.members[KType], if KObject in body.members then Some(body.members[KObject]) else None;
       || kind == Text("Follow")
       || (kind == Text("Accept") && !(target.Some? && SaysType(target.value) && !Says(target.value, "Follow")))
       || (kind == Text("Undo") && target.Some? && Says(target.value, "Follow"))
  }

  predicate SaysType(v: Value) {
    v.Dict? && KType in v.members && v.members[KType].Text?
  }

  predicate Says(v: Value, name: string) {
    v.Dict? && KType in v.members && v.members[KType] == Text(name)
  }

  /******* The whole answer *******/

  // An Undo that embeds somebody else's Follow.
  predicate IsForeignUndo(isIri: IriTest, body: Value, remote: Iri) {
    match DecodeUndo(isIri, body)
    case None => false
    case Some(undo) => undo.follow.Object? && ActorId(undo.follow.embedded.actor) != remote
  }

  // An Accept of the local actor's Follow by an actor it was not sent to.
  predicate IsForeignAccept(
    isIri: IriTest, t: Tables, body: Value, local: Iri, remote: Iri, pendingFollow: Option<PendingFollow>)
  {
    match DecodeAccept(isIri, body)
    case None => false
    case Some(accept) =>
      match CheckedAgainst(isIri, t, accept, pendingFollow)
      case Ok(Some(pending)) => pending.localActor == local && pending.remoteActor.id != remote
      case _ => false
  }

  /**
   The answer to a whole delivery. Until the sender is verified it is verification's own and nothing else
   happens. From then on it is one of five: 401 exactly for an Undo of another actor's Follow or an Accept by
   an actor the Follow was not sent to; 400, 500 and 502 for malformed, unanswerable or unreadable, and
   undeliverable; and 202 exactly otherwise, in particular whenever an Accept was sent and got through.
   */
  lemma AnswersAreExact(
    isIri: IriTest, t: Tables, verify: Iri -> Result<Actor, StatusCode>, local: Actor, body: Value,
    pendingFollow: Option<PendingFollow>, delivers: bool)
    requires forall id :: verify(id).Ok? ==> verify(id).value.id == id
    ensures var r := Handled(isIri, t, verify, local, body, pendingFollow, delivers);
            match ActivityActorId(isIri, body)
            case None => r == Reception(t, Unauthorized, None)
            case Some(actorId) =>
              match verify(actorId)
              case Err(status) => r == Reception(t, status, None)
              case Ok(remote) =>
                && r == Received(isIri, t, local, remote, body, pendingFollow, delivers)
                && r.status in {StatusCode.Accepted, BadRequest, Unauthorized, InternalServerError, BadGateway}
                && (r.status == Unauthorized <==>
                      IsForeignUndo(isIri, body, remote.id)
                      || IsForeignAccept(isIri, t, body, local.id, remote.id, pendingFollow))
                && (r.status == BadRequest <==> Undecodable(isIri, body))
                && (r.status == BadGateway <==> r.sent.Some? && !delivers)
                && (r.status == InternalServerError <==>
                      Unanswerable(isIri, t, local, body) || Unreadable(isIri, t, local, remote, body, pendingFollow))
                && (r.sent.Some? && delivers ==> r.status == StatusCode.Accepted)
  {
    match ActivityActorId(isIri, body)
    case None =>
    case Some(actorId) =>
      match verify(actorId)
      case Err(_) =>
      case Ok(remote) =>
        ReceptionAnswers(isIri, t, local, remote, body, pendingFollow, delivers);
        ForeignIsRefused(isIri, t, local, remote, body, pendingFollow, delivers);
  }

  lemma ForeignIsRefused(
    isIri: IriTest, t: Tables, local: Actor, remote: Actor, body: Value, pendingFollow: Option<PendingFollow>,
    delivers: bool)
    requires ActivityActorId(isIri, body) == Some(remote.id)
    ensures var r := Received(isIri, t, local, remote, body, pendingFollow, delivers);
            && r.status in {StatusCode.Accepted, BadRequest, Unauthorized, InternalServerError, BadGateway}
            && (r.status == Unauthorized <==>
                  IsForeignUndo(isIri, body, remote.id)
                  || IsForeignAccept(isIri, t, body, local.id, remote.id, pendingFollow))
            && (r.sent.Some? && delivers ==> r.status == StatusCode.Accepted)
  {
    DecodesOnce(isIri, body);
    if DecodeFollow(isIri, body).Some? {
      FollowDoes(isIri, t, local, remote, body, DecodeFollow(isIri, body).value, pendingFollow, delivers);
    } else if DecodeUndo(isIri, body).Some? {
      UndoDoes(isIri, t, local, remote, body, DecodeUndo(isIri, body).value, pendingFollow, delivers);
    } else if DecodeAccept(isIri, body).Some? {
      AcceptDoes(isIri, t, local, remote, body, DecodeAccept(isIri, body).value, pendingFollow, delivers);
    } else {
      OthersDoNothing(isIri, t, local, remote, body, pendingFollow, delivers);
    }
  }

  // A value decodes as at most one kind of activity.
  lemma DecodesOnce(isIri: IriTest, body: Value)
    ensures DecodeFollow(isIri, body).Some? ==> DecodeUndo(isIri, body).None? && DecodeAccept(isIri, body).None?
    ensures DecodeUndo(isIri, body).Some? ==> DecodeAccept(isIri, body).None?
  {
    TypesDiffer(body);
  }

  /******* The shared inbox *******/

  /**
   Whom a delivery to the shared inbox is for. An Accept is for the actor whose pending row it names; a Follow
   or Undo for its target; everything else, and whatever names nobody, for no one.
   */
  lemma SharedTargetMeans(isIri: IriTest, t: Tables, body: Value)
    ensures var target := SharedInboxTarget(isIri, t, body);
            if Says(body, "Accept") then
              match if KObject in body.members then ReferenceId(isIri, body.members[KObject]) else None
              case None => target == Ok(None)
              case Some(id) =>
                match PendingRow(isIri, t, id)
                case Err(_) => target == Err(InternalServerError)
                case Ok(None) => target == Ok(None)
                case Ok(Some(pending)) => target == Ok(Some((pending.localActor, Some(pending))))
            else
              match ActivityTargetId(isIri, body)
              case None => target == Ok(None)
              case Some(actorId) => target == Ok(Some((actorId, None)))
  {
    if Says(body, "Accept") && KObject in body.members && ReferenceId(isIri, body.members[KObject]).Some? {
      PendingRowIsLoaded(isIri, t, ReferenceId(isIri, body.members[KObject]).value);
    }
  }

  /** A decoded Follow, or an Undo that embeds one, is for the Follow's target. */
  lemma SharedActivitiesFindTheirTarget(isIri: IriTest, t: Tables, body: Value)
    ensures DecodeFollow(isIri, body).Some? ==>
              SharedInboxTarget(isIri, t, body) == Ok(Some((ActorId(DecodeFollow(isIri, body).value.target), None)))
    ensures DecodeUndo(isIri, body).Some? && DecodeUndo(isIri, body).value.follow.Object? ==>
              SharedInboxTarget(isIri, t, body)
              == Ok(Some((ActorId(DecodeUndo(isIri, body).value.follow.embedded.target), None)))
  {
    PeeksAgreeWithDecoding(isIri, body);
    TypesDiffer(body);
  }

  /**
   The recipient is the target if it is a local actor with a shared inbox; for nobody the answer is 202, and
   for a look-up that fails 500.
   */
  lemma SharedRecipientMeans(
    isIri: IriTest, t: Tables, dispatch: Iri -> Result<Option<Actor>, string>, body: Value)
    ensures var recipient := SharedRecipient(isIri, t, dispatch, body);
            match SharedInboxTarget(isIri, t, body)
            case Err(_) => recipient == Err(InternalServerError)
            case Ok(None) => recipient == Err(StatusCode.Accepted)
            case Ok(Some((actorId, _))) =>
              if dispatch(actorId).Err? then recipient == Err(InternalServerError)
              else if dispatch(actorId).value.Some? && dispatch(actorId).value.value.endpoints.Some?
                      && dispatch(actorId).value.value.endpoints.value.sharedInbox.Some? then
                recipient == Ok(dispatch(actorId).value.value)
              else recipient == Err(StatusCode.Accepted)
  {
    SharedTargetMeans(isIri, t, body);
  }

  /** The Follow `a` created of `b`, and an Undo of it, reach `b` when they are delivered to its shared inbox. */
  lemma SharedFollowReachesItsTarget(
    isIri: IriTest, t: Tables, dispatch: Iri -> Result<Option<Actor>, string>, a: Actor, b: Actor, followId: Iri,
    undo: Undo)
    requires WellTyped(isIri, a, b, followId) && ValidUndo(isIri, undo)
    requires undo.follow == Object(CreateFollow(a, b, followId).activity)
    requires dispatch(b.id) == Ok(Some(b)) && Vocab.SharedInbox(b).Some?
    ensures SharedInboxTarget(isIri, t, EncodeFollow(CreateFollow(a, b, followId).activity)) == Ok(Some((b.id, None)))
    ensures SharedInboxTarget(isIri, t, EncodeUndo(undo)) == Ok(Some((b.id, None)))
    ensures SharedRecipient(isIri, t, dispatch, EncodeFollow(CreateFollow(a, b, followId).activity)) == Ok(b)
    ensures SharedRecipient(isIri, t, dispatch, EncodeUndo(undo)) == Ok(b)
  {
    var activity := CreateFollow(a, b, followId).activity;
    FollowRoundTrip(isIri, activity);
    UndoRoundTrip(isIri, undo);
    SharedActivitiesFindTheirTarget(isIri, t, EncodeFollow(activity));
    SharedActivitiesFindTheirTarget(isIri, t, EncodeUndo(undo));
  }
}
