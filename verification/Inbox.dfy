/** Dispatching a verified activity: what it is taken for, and what it does to the store. */
module Inbox {
  import opened Wrappers
  import opened Vocab
  import opened Json
  import opened FollowCore
  import opened Store
  import opened Http
  import opened AcceptId

  /** What an activity asks for, once its sender is verified. */
  datatype Decision =
    | Reply(status: StatusCode)
    | Confirm(accept: Accept)
    | Remove(undone: UndoFollowOutcome)
    | Add(followed: FollowOutcome)

  predicate IsFollowObject(v: Value) {
    HasType(v, "Follow")
  }

  // An embedded object that says it is something other than a Follow.
  predicate NamesAnotherType(v: Value) {
    v.Dict? && match Get(v, KType) case Some(Text(name)) => name != "Follow" case _ => false
  }

  function DecideAccept(isIri: IriTest, body: Value): Decision {
    if Get(body, KObject).Some? && NamesAnotherType(Get(body, KObject).value) then Reply(StatusCode.Accepted)
    else match DecodeAccept(isIri, body)
      case None => Reply(BadRequest)
      case Some(accept) => Confirm(accept)
  }

  function DecideUndo(isIri: IriTest, body: Value, local: Actor, remote: Actor): Decision {
    if Get(body, KObject).None? || !IsFollowObject(Get(body, KObject).value) then Reply(StatusCode.Accepted)
    else match DecodeUndo(isIri, body)
      case None => Reply(BadRequest)
      case Some(undo) =>
        match ReceiveUndoFollow(local, remote, undo)
        case Ok(outcome) => Remove(outcome)
        case Err(UndoWrongActor) => Reply(Unauthorized)
        case Err(_) => Reply(StatusCode.Accepted)
  }

  function DecideFollow(isIri: IriTest, body: Value, local: Actor, remote: Actor): Decision {
    match DecodeFollow(isIri, body)
    case None => Reply(BadRequest)
    case Some(follow) =>
      match AcceptIdForFollow(isIri, local.id, follow.id)
      case None => Reply(InternalServerError)
      case Some(acceptId) =>
        match ReceiveFollow(local, remote, follow, acceptId)
        case Ok(outcome) => Add(outcome)
        case Err(WrongObject) => Reply(StatusCode.Accepted)
        case Err(WrongActor) => Reply(Unauthorized)
  }

  function Decide(isIri: IriTest, body: Value, local: Actor, remote: Actor): Decision {
    if HasType(body, "Follow") then DecideFollow(isIri, body, local, remote)
    else if HasType(body, "Accept") then DecideAccept(isIri, body)
    else if HasType(body, "Undo") then DecideUndo(isIri, body, local, remote)
    else Reply(StatusCode.Accepted)
  }

  // The answer that ends the handling of an Accept, or nothing when it may be confirmed.
  function RefuseAccept(local: Actor, remote: Actor, pending: PendingFollow, accept: Accept): Option<StatusCode> {
    match ReceiveAcceptFollow(local, remote, pending, accept)
    case Ok(_) => None
    case Err(AcceptWrongActor) => Some(Unauthorized)
    case Err(_) => Some(StatusCode.Accepted)
  }

  // The local actor a shared-inbox delivery is for, with the pending relationship of an Accept.
  function SharedInboxTarget(isIri: IriTest, t: Tables, body: Value)
    : Result<Option<(Iri, Option<PendingFollow>)>, StatusCode>
  {
    if HasType(body, "Accept") then
      var followActivity := match Get(body, KObject) case None => None case Some(v) => ReferenceId(isIri, v);
      if followActivity.None? then Ok(None)
      else match LoadedPendingFollow(isIri, t, followActivity.value)
        case Err(_) => Err(InternalServerError)
        case Ok(None) => Ok(None)
        case Ok(Some(pending)) => Ok(Some((pending.localActor, Some(pending))))
    else match ActivityTargetId(isIri, body)
      case None => Ok(None)
      case Some(target) => Ok(Some((target, None)))
  }

  /** The tables afterwards, the answer, and the Accept that was handed to the sender with its inbox. */
  datatype Reception = Reception(tables: Tables, status: StatusCode, sent: Option<(Accept, Iri)>)

  // `delivers` says whether sending the Accept succeeds.
  function Received(
    isIri: IriTest, t: Tables, local: Actor, remote: Actor, body: Value, pendingFollow: Option<PendingFollow>,
    delivers: bool)
    : Reception
  {
    match Decide(isIri, body, local, remote)
    case Reply(status) => Reception(t, status, None)
    case Confirm(accept) => ReceivedAccept(isIri, t, local, remote, accept, pendingFollow)
    case Remove(undone) => Reception(WithoutFollower(t, undone.follower, undone.following), StatusCode.Accepted, None)
    case Add(followed) =>
      var t' := WithFollower(t, followed.follower, followed.following);
      if local.id !in t'.keys then Reception(t', InternalServerError, None)
      else
        Reception(t', if delivers then StatusCode.Accepted else BadGateway,
                  Some((followed.accept, followed.recipientInbox)))
  }

  function ReceivedAccept(
    isIri: IriTest, t: Tables, local: Actor, remote: Actor, accept: Accept, pendingFollow: Option<PendingFollow>)
    : Reception
  {
    var known := pendingFollow.Some? && pendingFollow.value.followActivity == FollowId(accept.follow);
    var loaded := if known then Ok(pendingFollow) else LoadedPendingFollow(isIri, t, FollowId(accept.follow));
    if pendingFollow.Some? && !known then Reception(t, StatusCode.Accepted, None)
    else if loaded.Err? then Reception(t, InternalServerError, None)
    else if loaded.value.None? then Reception(t, StatusCode.Accepted, None)
    else
      match RefuseAccept(local, remote, loaded.value.value, accept)
      case Some(status) => Reception(t, status, None)
      case None =>
        var (t', confirmed) := Confirmed(isIri, t, loaded.value.value);
        Reception(t', if confirmed.Ok? then StatusCode.Accepted else InternalServerError, None)
  }

  // The actor a delivery comes from, or the answer that ends its verification.
  function VerifiedSender(isIri: IriTest, verify: Iri -> Result<Actor, StatusCode>, body: Value)
    : Result<Actor, StatusCode>
  {
    match ActivityActorId(isIri, body)
    case None => Err(Unauthorized)
    case Some(actorId) => verify(actorId)
  }

  // The whole of handling a delivery. `verify` is given the actor who must have signed.
  function Handled(
    isIri: IriTest, t: Tables, verify: Iri -> Result<Actor, StatusCode>, local: Actor, body: Value,
    pendingFollow: Option<PendingFollow>, delivers: bool)
    : Reception
  {
    match VerifiedSender(isIri, verify, body)
    case Err(status) => Reception(t, status, None)
    case Ok(remote) => Received(isIri, t, local, remote, body, pendingFollow, delivers)
  }

  method ReceiveActivity(
    store: SqliteStore, verify: Iri -> Result<Actor, StatusCode>, local: Actor, body: Value,
    pendingFollow: Option<PendingFollow>, delivers: bool)
    returns (status: StatusCode, sent: Option<(Accept, Iri)>)
    modifies store`followers, store`outboundFollows
    ensures Reception(store.Contents(), status, sent)
            == Handled(store.isIri, old(store.Contents()), verify, local, body, pendingFollow, delivers)
  {
    sent := None;
    var sender := ActivityActorId(store.isIri, body);
    if sender.None? {
      return Unauthorized, None;
    }
    var verified := verify(sender.value);
    if verified.Err? {
      return verified.error, None;
    }
    var remote := verified.value;
    var decision := Decide(store.isIri, body, local, remote);
    match decision {
      case Reply(answer) =>
        return answer, None;
      case Confirm(accept) =>
        status := ReceiveAccept(store, local, remote, accept, pendingFollow);
      case Remove(undone) =>
        store.RemoveFollower(undone.follower, undone.following);
        status := StatusCode.Accepted;
      case Add(followed) =>
        store.StoreFollower(followed.follower, followed.following);
        var pair := store.LoadActorKeyPair(local.id);
        if pair.None? {
          return InternalServerError, None;
        }
        sent := Some((followed.accept, followed.recipientInbox));
        status := if delivers then StatusCode.Accepted else BadGateway;
    }
  }

  method ReceiveAccept(
    store: SqliteStore, local: Actor, remote: Actor, accept: Accept, pendingFollow: Option<PendingFollow>)
    returns (status: StatusCode)
    modifies store`outboundFollows
    ensures Reception(store.Contents(), status, None)
            == ReceivedAccept(store.isIri, old(store.Contents()), local, remote, accept, pendingFollow)
  {
    var pending: PendingFollow;
    if pendingFollow.Some? {
      if pendingFollow.value.followActivity != FollowId(accept.follow) {
        return StatusCode.Accepted;
      }
      pending := pendingFollow.value;
    } else {
      var loaded := store.LoadPendingFollow(FollowId(accept.follow));
      if loaded.Err? {
        return InternalServerError;
      }
      if loaded.value.None? {
        return StatusCode.Accepted;
      }
      pending := loaded.value.value;
    }
    var refusal := RefuseAccept(local, remote, pending, accept);
    if refusal.Some? {
      return refusal.value;
    }
    var confirmed := store.ConfirmPendingFollow(pending);
    return if confirmed.Ok? then StatusCode.Accepted else InternalServerError;
  }

  /******* The shared inbox *******/

  // `verify` is given the inbox the request must be addressed to and the actor who must have signed.
  method SharedInbox(
    store: SqliteStore, verify: Iri -> (Iri -> Result<Actor, StatusCode>),
    dispatch: Iri -> Result<Option<Actor>, string>, body: Value, delivers: bool)
    returns (status: StatusCode, sent: Option<(Accept, Iri)>)
    modifies store`followers, store`outboundFollows
    ensures var t, isIri := old(store.Contents()), store.isIri;
            match SharedRecipient(isIri, t, dispatch, body)
            case Err(answer) => status == answer && sent == None && store.Contents() == t
            case Ok(local) =>
              Reception(store.Contents(), status, sent)
              == Handled(isIri, t, verify(Vocab.SharedInbox(local).value), local, body, None, delivers)
  {
    var target := SharedInboxTarget(store.isIri, store.Contents(), body);
    if target.Err? {
      return target.error, None;
    }
    if target.value.None? {
      return StatusCode.Accepted, None;
    }
    var (targetId, pendingFollow) := target.value.value;
    var found := dispatch(targetId);
    if found.Err? {
      return InternalServerError, None;
    }
    if found.value.None? {
      return StatusCode.Accepted, None;
    }
    var local := found.value.value;
    var expectedInbox := Vocab.SharedInbox(local);
    if expectedInbox.None? {
      return StatusCode.Accepted, None;
    }
    forall remote ensures Received(store.isIri, store.Contents(), local, remote, body, pendingFollow, delivers)
                          == Received(store.isIri, store.Contents(), local, remote, body, None, delivers)
    {
      SharedDeliveryIsPersonal(store.isIri, store.Contents(), local, remote, body, pendingFollow, delivers);
    }
    status, sent := ReceiveActivity(store, verify(expectedInbox.value), local, body, pendingFollow, delivers);
  }

  // The local actor who gets a shared-inbox delivery, or the answer given without verifying it.
  function SharedRecipient(isIri: IriTest, t: Tables, dispatch: Iri -> Result<Option<Actor>, string>, body: Value)
    : (r: Result<Actor, StatusCode>)
    ensures r.Ok? ==> Vocab.SharedInbox(r.value).Some?
  {
    match SharedInboxTarget(isIri, t, body)
    case Err(answer) => Err(answer)
    case Ok(None) => Err(StatusCode.Accepted)
    case Ok(Some((targetId, _))) =>
      match dispatch(targetId)
      case Err(_) => Err(InternalServerError)
      case Ok(None) => Err(StatusCode.Accepted)
      case Ok(Some(local)) => if Vocab.SharedInbox(local).Some? then Ok(local) else Err(StatusCode.Accepted)
  }

  /** A delivery to the shared inbox does what the same delivery to the local actor's own inbox does. */
  lemma SharedDeliveryIsPersonal(
    isIri: IriTest, t: Tables, local: Actor, remote: Actor, body: Value, known: Option<PendingFollow>, delivers: bool)
    requires SharedInboxTarget(isIri, t, body).Ok? && SharedInboxTarget(isIri, t, body).value.Some?
    requires SharedInboxTarget(isIri, t, body).value.value.1 == known
    ensures Received(isIri, t, local, remote, body, known, delivers)
            == Received(isIri, t, local, remote, body, None, delivers)
  {
    match Decide(isIri, body, local, remote)
    case Confirm(accept) =>
      SharedPendingIsTheAcceptedOne(isIri, t, body);
    case _ =>
  }

  /******* Branches that are never taken *******/

  /** With the sender verified, a Follow's actor is always the verified one. */
  lemma FollowActorIsVerified(isIri: IriTest, body: Value, local: Actor, remote: Actor, acceptId: Iri)
    requires ActivityActorId(isIri, body) == Some(remote.id) && DecodeFollow(isIri, body).Some?
    ensures ReceiveFollow(local, remote, DecodeFollow(isIri, body).value, acceptId) != Err(WrongActor)
  {
    PeeksAgreeWithDecoding(isIri, body);
  }

  /** The pending relationship the shared inbox loaded is always the one the decoded Accept names. */
  lemma SharedPendingIsTheAcceptedOne(isIri: IriTest, t: Tables, body: Value)
    requires SharedInboxTarget(isIri, t, body).Ok? && SharedInboxTarget(isIri, t, body).value.Some?
    requires DecodeAccept(isIri, body).Some?
    ensures SharedInboxTarget(isIri, t, body).value.value.1.Some?
    ensures SharedInboxTarget(isIri, t, body).value.value.1.value.followActivity
            == FollowId(DecodeAccept(isIri, body).value.follow)
  {
    PeeksAgreeWithDecoding(isIri, body);
    assert HasType(body, "Accept");
  }

  /** An Undo is refused as unauthorized exactly when the Follow embedded in it has another actor. */
  lemma UndoOfAnotherActorsFollow(isIri: IriTest, body: Value, local: Actor, remote: Actor)
    requires ActivityActorId(isIri, body) == Some(remote.id) && HasType(body, "Undo")
    requires Get(body, KObject).Some? && IsFollowObject(Get(body, KObject).value) && DecodeUndo(isIri, body).Some?
    ensures Decide(isIri, body, local, remote) == Reply(Unauthorized) <==>
            ActivityActorId(isIri, Get(body, KObject).value) != Some(remote.id)
  {
    PeeksAgreeWithDecoding(isIri, body);
    PeeksAgreeWithDecoding(isIri, Get(body, KObject).value);
    assert |"Undo"| == 4 && |"Follow"| == 6 && |"Accept"| == 6;
    assert Get(body, KObject).value.Dict?;
  }

  /******* What a reception can change *******/

  // Every row that differs was a pending one between these two actors and is now accepted.
  ghost predicate OnlyAccepts(isIri: IriTest, t: Tables, t': Tables, local: Iri, remote: Iri) {
    && t'.outboundFollows.Keys == t.outboundFollows.Keys
    && forall id | id in t.outboundFollows && t'.outboundFollows[id] != t.outboundFollows[id] ::
         && t.outboundFollows[id].state == Pending
         && t'.outboundFollows[id] == t.outboundFollows[id].(state := FollowState.Accepted)
         && var row := DecodeRow(isIri, id, t.outboundFollows[id]);
            row.Ok? && row.value.localActor == local && row.value.remoteActor.id == remote
  }

  lemma AcceptOnlyAccepts(
    isIri: IriTest, t: Tables, local: Actor, remote: Actor, accept: Accept, pendingFollow: Option<PendingFollow>)
    ensures var t' := ReceivedAccept(isIri, t, local, remote, accept, pendingFollow).tables;
            && t'.followers == t.followers && t'.keys == t.keys && t'.objects == t.objects
            && OnlyAccepts(isIri, t, t', local.id, remote.id)
  {
  }

  /**
   An activity verified as one actor changes at most that actor's row among the local actor's
   followers, and at most turns pending rows of the local actor and that actor into accepted ones.
   */
  lemma OnlyOwnRowsChange(
    isIri: IriTest, t: Tables, local: Actor, remote: Actor, body: Value, pendingFollow: Option<PendingFollow>,
    delivers: bool)
    ensures var t' := Received(isIri, t, local, remote, body, pendingFollow, delivers).tables;
            && t'.keys == t.keys && t'.objects == t.objects && OnlyFollower(t, t', local.id, remote.id)
            && OnlyAccepts(isIri, t, t', local.id, remote.id)
  {
    DecisionsConcernSender(isIri, body, local, remote);
    match Decide(isIri, body, local, remote)
    case Confirm(accept) =>
      AcceptOnlyAccepts(isIri, t, local, remote, accept, pendingFollow);
    case _ =>
  }

  // Only the remote actor's row among the local actor's followers may differ.
  ghost predicate OnlyFollower(t: Tables, t': Tables, local: Iri, remote: Iri) {
    forall key | key != (remote, local) ::
      (key in t'.followers <==> key in t.followers) && (key in t.followers ==> t'.followers[key] == t.followers[key])
  }

  lemma DecisionsConcernSender(isIri: IriTest, body: Value, local: Actor, remote: Actor)
    ensures var decision := Decide(isIri, body, local, remote);
            && (decision.Remove? ==> decision.undone == UndoFollowOutcome(remote.id, local.id))
            && (decision.Add? ==> decision.followed.follower == remote && decision.followed.following == local.id)
  {
  }

  // The activity is of a kind that is handled but is not well formed.
  predicate Undecodable(isIri: IriTest, body: Value) {
    var target := Get(body, KObject);
    || (HasType(body, "Follow") && DecodeFollow(isIri, body).None?)
    || (HasType(body, "Accept") && !(target.Some? && NamesAnotherType(target.value)) && DecodeAccept(isIri, body).None?)
    || (HasType(body, "Undo") && target.Some? && IsFollowObject(target.value) && DecodeUndo(isIri, body).None?)
  }

  // A Follow that no Accept can be named for, or one of the local actor while it has no key to sign with.
  predicate Unanswerable(isIri: IriTest, t: Tables, local: Actor, body: Value) {
    HasType(body, "Follow")
    && match DecodeFollow(isIri, body)
       case None => false
       case Some(follow) =>
         AcceptIdForFollow(isIri, local.id, follow.id).None?
           || (ActorId(follow.target) == local.id && local.id !in t.keys)
  }

  // An Accept whose stored row cannot be decoded, at the first or the second reading of that row.
  predicate Unreadable(
    isIri: IriTest, t: Tables, local: Actor, remote: Actor, body: Value, pendingFollow: Option<PendingFollow>)
  {
    && HasType(body, "Accept") && !(Get(body, KObject).Some? && NamesAnotherType(Get(body, KObject).value))
    && match DecodeAccept(isIri, body)
       case None => false
       case Some(accept) =>
         && LoadedPendingFollow(isIri, t, FollowId(accept.follow)).Err?
         && (pendingFollow.Some? ==>
               && pendingFollow.value.followActivity == FollowId(accept.follow)
               && RefuseAccept(local, remote, pendingFollow.value, accept) == None)
  }

  /**
   What the sender can conclude from the answer to a whole delivery. 400 and 401 change nothing. 502 means
   that fetching the key or the actor failed, or that the follower was stored and the Accept did not go
   through. 500 means that the inbox itself is misconfigured, that the Follow cannot be answered, or that
   the stored relationship cannot be read.
   */
  lemma AnswersTellWhatHappened(
    isIri: IriTest, t: Tables, verify: Iri -> Result<Actor, StatusCode>, local: Actor, body: Value,
    pendingFollow: Option<PendingFollow>, delivers: bool)
    requires forall id :: verify(id).Ok? ==> verify(id).value.id == id
    ensures var r := Handled(isIri, t, verify, local, body, pendingFollow, delivers);
            var sender := VerifiedSender(isIri, verify, body);
            && (r.status == BadRequest || r.status == Unauthorized ==> r.tables == t && r.sent == None)
            && (r.status == BadRequest <==> sender == Err(BadRequest) || (sender.Ok? && Undecodable(isIri, body)))
            && (r.status == BadGateway <==> sender == Err(BadGateway) || (r.sent.Some? && !delivers))
            && (r.status == InternalServerError <==>
                  || sender == Err(InternalServerError)
                  || (sender.Ok? && Unanswerable(isIri, t, local, body))
                  || (sender.Ok? && Unreadable(isIri, t, local, sender.value, body, pendingFollow)))
            && (r.sent.Some? ==>
                  sender.Ok? && r.tables == WithFollower(t, sender.value, local.id) && local.id in t.keys)
            && (r.status == InternalServerError ==>
                  r.sent == None
                  && (r.tables == t
                      || (sender.Ok? && r.tables == WithFollower(t, sender.value, local.id) && local.id !in t.keys)))
  {
    var sender := VerifiedSender(isIri, verify, body);
    if sender.Ok? {
      ReceptionAnswers(isIri, t, local, sender.value, body, pendingFollow, delivers);
    }
  }

  lemma ReceptionAnswers(
    isIri: IriTest, t: Tables, local: Actor, remote: Actor, body: Value, pendingFollow: Option<PendingFollow>,
    delivers: bool)
    requires ActivityActorId(isIri, body) == Some(remote.id)
    ensures var r := Received(isIri, t, local, remote, body, pendingFollow, delivers);
            && (r.status == BadRequest || r.status == Unauthorized ==> r.tables == t && r.sent == None)
            && (r.status == BadRequest <==> Undecodable(isIri, body))
            && (r.status == BadGateway <==> r.sent.Some? && !delivers)
            && (r.status == InternalServerError <==>
                  Unanswerable(isIri, t, local, body) || Unreadable(isIri, t, local, remote, body, pendingFollow))
            && (r.sent.Some? ==> r.tables == WithFollower(t, remote, local.id) && local.id in t.keys)
            && (r.status == InternalServerError ==>
                  r.sent == None
                  && (r.tables == t || (r.tables == WithFollower(t, remote, local.id) && local.id !in t.keys)))
  {
    PeeksAgreeWithDecoding(isIri, body);
    TypesDiffer(body);
    if HasType(body, "Accept") && DecodeAccept(isIri, body).Some? {
      AcceptAnswers(isIri, t, local, remote, body, pendingFollow);
    } else {
      DecisionsConcernSender(isIri, body, local, remote);
    }
  }

  lemma AcceptAnswers(
    isIri: IriTest, t: Tables, local: Actor, remote: Actor, body: Value, pendingFollow: Option<PendingFollow>)
    requires HasType(body, "Accept") && DecodeAccept(isIri, body).Some?
    ensures var r := ReceivedAccept(isIri, t, local, remote, DecodeAccept(isIri, body).value, pendingFollow);
            && r.sent == None && r.status in {StatusCode.Accepted, Unauthorized, InternalServerError}
            && (r.status != StatusCode.Accepted ==> r.tables == t)
            && (!(Get(body, KObject).Some? && NamesAnotherType(Get(body, KObject).value)) ==>
                  (r.status == InternalServerError <==> Unreadable(isIri, t, local, remote, body, pendingFollow)))
  {
  }

  lemma TypesDiffer(body: Value)
    ensures !(HasType(body, "Follow") && HasType(body, "Accept"))
    ensures !(HasType(body, "Undo") && (HasType(body, "Follow") || HasType(body, "Accept")))
  {
    assert "Follow"[0] == 'F' && "Accept"[0] == 'A' && "Undo"[0] == 'U';
  }

  /** An Accept is handed to the sender only after the follower it answers is in the table, and embeds that Follow. */
  lemma SentOnlyAfterStoring(
    isIri: IriTest, t: Tables, local: Actor, remote: Actor, body: Value, pendingFollow: Option<PendingFollow>,
    delivers: bool)
    requires Received(isIri, t, local, remote, body, pendingFollow, delivers).sent.Some?
    ensures var r := Received(isIri, t, local, remote, body, pendingFollow, delivers);
            var (accept, inbox) := r.sent.value;
            && (remote.id, local.id) in r.tables.followers
            && r.tables.followers[(remote.id, local.id)] == RowOf(remote) && inbox == remote.inbox
            && accept.actor == Id(local.id) && accept.id == AcceptIdText(local.id, FollowId(accept.follow))
            && DecodeFollow(isIri, body).Some? && accept.follow.Object?
            && accept.follow.embedded == DecodeFollow(isIri, body).value.(actor := Object(remote))
            && ActorId(accept.follow.embedded.target) == local.id
  {
  }

  /******* The handshake completes *******/

  // What the resolver returns for an actor: a well-typed document with the identifier asked for.
  predicate Resolves(isIri: IriTest, found: Actor, asked: Actor) {
    found.id == asked.id && ValidActor(isIri, found)
  }

  predicate WellTyped(isIri: IriTest, a: Actor, b: Actor, followId: Iri) {
    isIri(a.id) && isIri(b.id) && isIri(followId) && isIri(ACTIVITYSTREAMS_CONTEXT)
  }

  // Appending the fragment to the actor's identifier leaves an IRI; it need not, as there may be a fragment already.
  predicate Answerable(isIri: IriTest, b: Actor, followId: Iri) {
    isIri(AcceptIdText(b.id, followId))
  }

  // What is used of the grammar of IRIs: at most one fragment, and room for this one where there is none.
  ghost predicate TakesFragments(isIri: IriTest) {
    && (forall s, i, j :: isIri(s) && 0 <= i < j < |s| ==> s[i] != '#' || s[j] != '#')
    && (forall s, followId :: isIri(s) && '#' !in s ==> isIri(AcceptIdText(s, followId)))
  }

  /** An actor can answer Follows exactly when its own identifier has no fragment. */
  lemma AnswerableWithoutFragment(isIri: IriTest, b: Actor, followId: Iri)
    requires TakesFragments(isIri) && isIri(b.id)
    ensures Answerable(isIri, b, followId) <==> '#' !in b.id
  {
    if '#' in b.id {
      var text := AcceptIdText(b.id, followId);
      var i :| 0 <= i < |b.id| && b.id[i] == '#';
      assert text[i] == '#' && text[|b.id|] == '#';
    }
  }

  // The Accept with which `b` answers the Follow `a` created, seeing `a` as `found`.
  function AnswerTo(a: Actor, b: Actor, found: Actor, followId: Iri): Accept {
    var activity := CreateFollow(a, b, followId).activity;
    Accept(Some(ACTIVITYSTREAMS_CONTEXT), AcceptIdText(b.id, followId), Id(b.id),
           Object(activity.(actor := Object(found))))
  }

  /** The Follow `a` created, decoded again, makes `a` a follower of `b`, exactly when an Accept can be named. */
  lemma FollowIsReceived(isIri: IriTest, a: Actor, b: Actor, found: Actor, followId: Iri)
    requires WellTyped(isIri, a, b, followId) && Resolves(isIri, found, a)
    ensures var body := EncodeFollow(CreateFollow(a, b, followId).activity);
            && ActivityActorId(isIri, body) == Some(a.id) && ActivityTargetId(isIri, body) == Some(b.id)
            && Decide(isIri, body, b, found)
               == if Answerable(isIri, b, followId)
                  then Add(FollowOutcome(found, b.id, AnswerTo(a, b, found, followId), found.inbox))
                  else Reply(InternalServerError)
  {
    var activity := CreateFollow(a, b, followId).activity;
    FollowRoundTrip(isIri, activity);
    PeeksAgreeWithDecoding(isIri, EncodeFollow(activity));
  }

  // The relationship `a` stored for this Follow of `b`, however `b` looked then.
  predicate Awaits(pending: PendingFollow, a: Actor, b: Actor, followId: Iri) {
    pending.localActor == a.id && pending.remoteActor.id == b.id && pending.followActivity == followId
  }

  /** The Accept that answers it, decoded again, passes the checks against the relationship `a` stored. */
  lemma AnswerIsReceived(
    isIri: IriTest, a: Actor, b: Actor, foundA: Actor, foundB: Actor, followId: Iri, pending: PendingFollow)
    requires WellTyped(isIri, a, b, followId) && Answerable(isIri, b, followId) && Awaits(pending, a, b, followId)
    requires Resolves(isIri, foundA, a) && Resolves(isIri, foundB, b)
    ensures var accept := AnswerTo(a, b, foundA, followId);
            var body := EncodeAccept(accept);
            && ActivityActorId(isIri, body) == Some(b.id) && HasType(body, "Accept")
            && Get(body, KObject).Some? && ReferenceId(isIri, Get(body, KObject).value) == Some(followId)
            && Decide(isIri, body, a, foundB) == Confirm(accept)
            && RefuseAccept(a, foundB, pending, accept) == None
  {
    var accept := AnswerTo(a, b, foundA, followId);
    var body := EncodeAccept(accept);
    var follow := accept.follow.embedded;
    AcceptRoundTrip(isIri, accept);
    PeeksAgreeWithDecoding(isIri, body);
    FollowRoundTrip(isIri, follow);
    ActivityMembersOf(accept);
    assert |"Undo"| == 4 && "Follow"[0] != "Accept"[0];
  }

  lemma ActivityMembersOf(accept: Accept)
    ensures Get(EncodeAccept(accept), KObject) == Some(EncodeFollowReference(accept.follow))
  {
    var fields := Activity("Accept", accept.context, accept.id, accept.actor, EncodeFollowReference(accept.follow));
    assert fields + [] == fields;
    ActivityMembersAreFound(
      "Accept", accept.context, accept.id, accept.actor, EncodeFollowReference(accept.follow), []);
  }

  /**
   The whole handshake: the created Follow makes its actor a follower and is answered, if the answer can be
   named and signed; the answer, decoded again, confirms the relationship as long as the stored row has not
   been replaced, whichever inbox receives it.
   */
  lemma HandshakeCompletes(
    isIri: IriTest, stored: Tables, remoteTables: Tables, a: Actor, b: Actor, foundA: Actor, foundB: Actor,
    followId: Iri, pending: PendingFollow, delivers: bool)
    requires WellTyped(isIri, a, b, followId) && Resolves(isIri, foundA, a) && Resolves(isIri, foundB, b)
    requires LoadedPendingFollow(isIri, stored, followId) == Ok(Some(pending)) && Awaits(pending, a, b, followId)
    ensures var outcome := CreateFollow(a, b, followId);
            var reception := Received(isIri, remoteTables, b, foundA, EncodeFollow(outcome.activity), None, delivers);
            if !Answerable(isIri, b, followId) then reception == Reception(remoteTables, InternalServerError, None)
            else
              && reception.tables == WithFollower(remoteTables, foundA, b.id)
              && reception.sent
                 == if b.id in remoteTables.keys then Some((AnswerTo(a, b, foundA, followId), foundA.inbox)) else None
    ensures Answerable(isIri, b, followId) ==> AnswerConfirms(isIri, stored, a, b, foundA, foundB, pending, delivers)
  {
    FollowIsReceived(isIri, a, b, foundA, followId);
    if Answerable(isIri, b, followId) {
      AnswerIsReceived(isIri, a, b, foundA, foundB, followId, pending);
    }
  }

  // The answer turns the pending row into an accepted one, at either inbox.
  predicate AnswerConfirms(
    isIri: IriTest, stored: Tables, a: Actor, b: Actor, foundA: Actor, foundB: Actor, pending: PendingFollow,
    delivers: bool)
  {
    var followId := pending.followActivity;
    var body := EncodeAccept(AnswerTo(a, b, foundA, followId));
    && SharedInboxTarget(isIri, stored, body) == Ok(Some((a.id, Some(pending))))
    && followId in stored.outboundFollows
    && forall known | known in {None, Some(pending)} ::
         var answered := Received(isIri, stored, a, foundB, body, known, delivers);
         && answered.status == StatusCode.Accepted
         && answered.tables == stored.(outboundFollows := stored.outboundFollows[
              followId := stored.outboundFollows[followId].(state := FollowState.Accepted)])
  }

  /** Undoing that Follow removes exactly the row it added. */
  lemma UndoIsReceived(
    isIri: IriTest, t: Tables, a: Actor, b: Actor, found: Actor, followId: Iri, undo: Undo, delivers: bool)
    requires WellTyped(isIri, a, b, followId) && Resolves(isIri, found, a)
    requires ValidUndo(isIri, undo) && ActorId(undo.actor) == a.id
    requires undo.follow == Object(CreateFollow(a, b, followId).activity)
    ensures var reception := Received(isIri, WithFollower(t, found, b.id), b, found, EncodeUndo(undo), None, delivers);
            reception.tables.followers == t.followers - {(a.id, b.id)}
  {
    var activity := CreateFollow(a, b, followId).activity;
    UndoRoundTrip(isIri, undo);
    FollowRoundTrip(isIri, activity);
    var fields := Activity("Undo", undo.context, undo.id, undo.actor, EncodeFollowReference(undo.follow));
    assert fields + [] == fields;
    ActivityMembersAreFound("Undo", undo.context, undo.id, undo.actor, EncodeFollowReference(undo.follow), []);
    assert |"Undo"| == 4 && |"Follow"| == 6 && |"Accept"| == 6;
    assert Decide(isIri, EncodeUndo(undo), b, found) == Remove(UndoFollowOutcome(a.id, b.id));
  }
}
