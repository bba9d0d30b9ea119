/**
 A whole handshake over the wire: activities are printed, signed, delivered, parsed, verified and dispatched
 at an actor's own inbox.
 */
module SignedHandshake {
  import opened Wrappers
  import opened Vocab
  import opened Json
  import opened FollowCore
  import opened Store
  import opened Cavage
  import opened Http
  import opened RequestAuth
  import opened Inbox
  import Following
  import Text

  // Printing and parsing JSON text, and the type a Content-Type header names.
  datatype Codec = Codec(write: Value -> Bytes, parse: Bytes -> Option<Value>, essence: string -> Option<string>)

  /******* An actor's own inbox *******/

  predicate IsActivityPub(codec: Codec, headers: Headers) {
    match GetText(headers, "content-type")
    case None => false
    case Some(text) => codec.essence(text) in {Some("application/activity+json"), Some("application/ld+json")}
  }

  function ParsedInboxRequest(codec: Codec, request: Request): Result<Value, StatusCode> {
    if !IsActivityPub(codec, request.headers) then Err(UnsupportedMediaType)
    else match codec.parse(request.body)
      case None => Err(BadRequest)
      case Some(value) => Ok(value)
  }

  // Verification of this request, for whichever actor its body names.
  function Verification(p: Platform, resolver: Resolver, now: int, request: Request, inbox: Iri)
    : Iri -> Result<Actor, StatusCode>
  {
    actorId => Verified(p, resolver, now, request, actorId, inbox)
  }

  function Served(
    p: Platform, codec: Codec, resolver: Resolver, now: int, request: Request,
    dispatched: Result<Option<Actor>, string>, t: Tables, delivers: bool)
    : Reception
  {
    match dispatched
    case Err(_) => Reception(t, InternalServerError, None)
    case Ok(None) => Reception(t, NotFound, None)
    case Ok(Some(local)) =>
      match ParsedInboxRequest(codec, request)
      case Err(status) => Reception(t, status, None)
      case Ok(body) =>
        Handled(p.isIri, t, Verification(p, resolver, now, request, local.inbox), local, body, None, delivers)
  }

  method ServeInbox(
    store: SqliteStore, p: Platform, codec: Codec, resolver: Resolver, now: int, request: Request,
    dispatched: Result<Option<Actor>, string>, delivers: bool)
    returns (status: StatusCode, sent: Option<(Accept, Iri)>)
    requires store.isIri == p.isIri
    modifies store`followers, store`outboundFollows
    ensures Reception(store.Contents(), status, sent)
            == Served(p, codec, resolver, now, request, dispatched, old(store.Contents()), delivers)
  {
    if dispatched.Err? {
      return InternalServerError, None;
    }
    if dispatched.value.None? {
      return NotFound, None;
    }
    var local := dispatched.value.value;
    var contentType := GetText(request.headers, "content-type");
    if contentType.None?
       || codec.essence(contentType.value) !in {Some("application/activity+json"), Some("application/ld+json")} {
      return UnsupportedMediaType, None;
    }
    var body := codec.parse(request.body);
    if body.None? {
      return BadRequest, None;
    }
    status, sent := ReceiveActivity(
      store, Verification(p, resolver, now, request, local.inbox), local, body.value, None, delivers);
  }

  /******* A delivery *******/

  /** One signed delivery: who sends it with which key, how the sender is seen, and the request that arrives. */
  datatype Delivery = Delivery(
    sender: Actor, pair: ActorKeyPair, seen: Actor, url: Url, sentAt: int, now: int, request: Request)

  // The text round-trips, and the media type of deliveries is recognised.
  predicate Carries(codec: Codec, v: Value) {
    && codec.parse(codec.write(v)) == Some(v)
    && codec.essence("application/activity+json") == Some("application/activity+json")
  }

  // The delivery was prepared for this activity and arrives at this inbox unchanged and in time.
  ghost predicate Arrives(p: Platform, codec: Codec, resolver: Resolver, d: Delivery, v: Value, inbox: Iri) {
    var body := codec.write(v);
    var sent := Prepared(p, d.sender, d.pair, body, Some(d.url), false, d.sentAt);
    && Carries(codec, v) && WellBehaved(p) && Publishes(resolver, d.sender, d.pair, d.seen)
    && p.isIri(SigningKeyId(d.sender, d.pair).value)
    && sent.Ok? && Delivered(sent.value, d.request)
    && Matching(p.crypto, d.pair, PreparedBase(p, body, d.url, d.sentAt))
    && ParsesAsHost(p, d.url.host.value, d.url.port) && SameEndpoint(p, d.url, inbox)
    && InClockWindow(p, d.sentAt, d.now)
  }

  predicate ReadableKey(d: Delivery) {
    var keyId := SigningKeyId(d.sender, d.pair);
    keyId.Ok? && Text.AllVisible(keyId.value)
  }

  lemma DeliveryIsParsed(p: Platform, codec: Codec, resolver: Resolver, d: Delivery, v: Value, inbox: Iri)
    requires Arrives(p, codec, resolver, d, v, inbox)
    ensures ParsedInboxRequest(codec, d.request) == Ok(v)
  {
    var sent := Prepared(p, d.sender, d.pair, codec.write(v), Some(d.url), false, d.sentAt).value;
    assert sent.headers[0] == ("content-type", "application/activity+json");
    ContentTypeIsRecognised(codec, d.request.headers);
  }

  lemma ContentTypeIsRecognised(codec: Codec, headers: Headers)
    requires GetAll(headers, "content-type") == ["application/activity+json"]
    requires codec.essence("application/activity+json") == Some("application/activity+json")
    ensures IsActivityPub(codec, headers)
  {
    assert Text.AllVisible("application/activity+json");
  }

  /** A delivered activity of its sender is handled as that sender's, exactly when the key id can be read. */
  lemma DeliveryIsServed(
    p: Platform, codec: Codec, resolver: Resolver, d: Delivery, v: Value, local: Actor, t: Tables, delivers: bool)
    requires Arrives(p, codec, resolver, d, v, local.inbox) && ActivityActorId(p.isIri, v) == Some(d.sender.id)
    ensures Served(p, codec, resolver, d.now, d.request, Ok(Some(local)), t, delivers)
            == if ReadableKey(d) then Received(p.isIri, t, local, d.seen, v, None, delivers)
               else Reception(t, Unauthorized, None)
  {
    DeliveryIsParsed(p, codec, resolver, d, v, local.inbox);
    PreparedDeliveryIsAccepted(
      p, resolver, d.sender, d.pair, d.seen, codec.write(v), d.url, d.sentAt, d.now, d.request, local.inbox);
  }

  /******* The handshake *******/

  /**
   The signed Follow `a` created, delivered to `b`: it stores `a` as a follower and is answered exactly when
   the key id of `a` can be read, an Accept can be named and `b` has a key; unread or unanswerable, it
   changes nothing.
   */
  lemma SignedFollowIsAnswered(
    p: Platform, codec: Codec, resolver: Resolver, d: Delivery, a: Actor, b: Actor, followId: Iri, t: Tables,
    delivers: bool)
    requires WellTyped(p.isIri, a, b, followId) && d.sender == a && Resolves(p.isIri, d.seen, a)
    requires Arrives(p, codec, resolver, d, EncodeFollow(CreateFollow(a, b, followId).activity), b.inbox)
    ensures var r := Served(p, codec, resolver, d.now, d.request, Ok(Some(b)), t, delivers);
            var answered := ReadableKey(d) && Answerable(p.isIri, b, followId);
            && r.tables == (if answered then WithFollower(t, d.seen, b.id) else t)
            && r.sent
               == if answered && b.id in t.keys then Some((AnswerTo(a, b, d.seen, followId), d.seen.inbox)) else None
  {
    FollowIsReceived(p.isIri, a, b, d.seen, followId);
    DeliveryIsServed(p, codec, resolver, d, EncodeFollow(CreateFollow(a, b, followId).activity), b, t, delivers);
  }

  /** The signed Accept, delivered to `a`, turns the awaited row accepted exactly when its key id can be read. */
  lemma SignedAnswerConfirms(
    p: Platform, codec: Codec, resolver: Resolver, d: Delivery, a: Actor, b: Actor, foundA: Actor, followId: Iri,
    pending: PendingFollow, t: Tables, delivers: bool)
    requires WellTyped(p.isIri, a, b, followId) && Answerable(p.isIri, b, followId)
    requires d.sender == b && Resolves(p.isIri, d.seen, b) && Resolves(p.isIri, foundA, a)
    requires Arrives(p, codec, resolver, d, EncodeAccept(AnswerTo(a, b, foundA, followId)), a.inbox)
    requires LoadedPendingFollow(p.isIri, t, followId) == Ok(Some(pending)) && Awaits(pending, a, b, followId)
    ensures followId in t.outboundFollows && t.outboundFollows[followId].state == Pending
    ensures var accepted := t.outboundFollows[followId].(state := FollowState.Accepted);
            Served(p, codec, resolver, d.now, d.request, Ok(Some(a)), t, delivers)
            == if ReadableKey(d)
               then Reception(t.(outboundFollows := t.outboundFollows[followId := accepted]), StatusCode.Accepted, None)
               else Reception(t, Unauthorized, None)
  {
    var body := EncodeAccept(AnswerTo(a, b, foundA, followId));
    AnswerIsReceived(p.isIri, a, b, foundA, d.seen, followId, pending);
    DeliveryIsServed(p, codec, resolver, d, body, a, t, delivers);
  }

  // The row for this Follow is pending and holds this relationship.
  predicate IsAwaited(isIri: IriTest, t: Tables, pending: PendingFollow) {
    var id := pending.followActivity;
    && id in t.outboundFollows && t.outboundFollows[id].state == Pending
    && DecodeRow(isIri, id, t.outboundFollows[id]) == Ok(pending)
  }

  // The row for this Follow is accepted or still pending, as said, and holds this relationship.
  predicate EndsAs(isIri: IriTest, t: Tables, pending: PendingFollow, accepted: bool) {
    var id := pending.followActivity;
    && id in t.outboundFollows && (t.outboundFollows[id].state == FollowState.Accepted <==> accepted)
    && DecodeRow(isIri, id, t.outboundFollows[id]) == Ok(pending)
  }

  // What `a` does first: it stores the relationship and sends the created Follow.
  lemma FollowStage(isIri: IriTest, a: Actor, b: Actor, seenB: Actor, followId: Iri, t: Tables, later: Tables)
    requires WellTyped(isIri, a, b, followId) && Resolves(isIri, seenB, b)
    requires a.id in t.keys && followId !in t.outboundFollows
    requires var attempt := Following.Followed(t, a.id, Ok(Some(a)), Ok(seenB), followId, None);
             && followId in later.outboundFollows && followId in attempt.tables.outboundFollows
             && later.outboundFollows[followId] == attempt.tables.outboundFollows[followId]
    ensures Following.Followed(t, a.id, Ok(Some(a)), Ok(seenB), followId, None).result
            == Ok(CreateFollow(a, b, followId).activity)
    ensures IsAwaited(isIri, later, PendingFollow(a.id, seenB, followId))
  {
    ActorRoundTrip(isIri, seenB);
  }

  // What the answer does last.
  lemma AnswerStage(
    p: Platform, codec: Codec, resolver: Resolver, d: Delivery, a: Actor, b: Actor, foundA: Actor,
    pending: PendingFollow, t: Tables)
    requires WellTyped(p.isIri, a, b, pending.followActivity) && Answerable(p.isIri, b, pending.followActivity)
    requires d.sender == b && Resolves(p.isIri, d.seen, b) && Resolves(p.isIri, foundA, a)
    requires Arrives(p, codec, resolver, d, EncodeAccept(AnswerTo(a, b, foundA, pending.followActivity)), a.inbox)
    requires IsAwaited(p.isIri, t, pending) && Awaits(pending, a, b, pending.followActivity)
    ensures EndsAs(p.isIri, Served(p, codec, resolver, d.now, d.request, Ok(Some(a)), t, true).tables,
                   pending, ReadableKey(d))
  {
    SignedAnswerConfirms(p, codec, resolver, d, a, b, foundA, pending.followActivity, pending, t, true);
    AwaitedEnds(p.isIri, t, pending);
  }

  lemma AwaitedEnds(isIri: IriTest, t: Tables, pending: PendingFollow)
    requires IsAwaited(isIri, t, pending)
    ensures EndsAs(isIri, t, pending, false)
    ensures var accepted := t.outboundFollows[pending.followActivity].(state := FollowState.Accepted);
            EndsAs(isIri, t.(outboundFollows := t.outboundFollows[pending.followActivity := accepted]), pending, true)
  {
  }

  /**
   The whole handshake over the wire. `a` follows `b`, the signed Follow arrives at the inbox of `b`, and the
   signed Accept it is answered with arrives at the inbox of `a`, whose row for the Follow nobody replaced
   meanwhile. Then `b` stores `a` and answers exactly when the key id of `a` can be read, and the row of `a`
   is accepted exactly when that of `b` can be read too.
   */
  lemma SignedHandshakeCompletes(
    p: Platform, codec: Codec, resolverA: Resolver, resolverB: Resolver, a: Actor, b: Actor, seenB: Actor,
    followId: Iri, tA: Tables, tB: Tables, follow: Delivery, answer: Delivery, later: Tables)
    requires WellTyped(p.isIri, a, b, followId) && Answerable(p.isIri, b, followId) && Resolves(p.isIri, seenB, b)
    requires a.id in tA.keys && b.id in tB.keys && followId !in tA.outboundFollows
    requires follow.sender == a && Resolves(p.isIri, follow.seen, a)
    requires answer.sender == b && Resolves(p.isIri, answer.seen, b)
    requires var attempt := Following.Followed(tA, a.id, Ok(Some(a)), Ok(seenB), followId, None);
             && attempt.result.Ok?
             && Arrives(p, codec, resolverB, follow, EncodeFollow(attempt.result.value), b.inbox)
             && followId in later.outboundFollows && followId in attempt.tables.outboundFollows
             && later.outboundFollows[followId] == attempt.tables.outboundFollows[followId]
    requires var atB := Served(p, codec, resolverB, follow.now, follow.request, Ok(Some(b)), tB, true);
             atB.sent.Some? ==> Arrives(p, codec, resolverA, answer, EncodeAccept(atB.sent.value.0), a.inbox)
    ensures var atB := Served(p, codec, resolverB, follow.now, follow.request, Ok(Some(b)), tB, true);
            && (atB.sent.Some? <==> ReadableKey(follow))
            && atB.tables == if ReadableKey(follow) then WithFollower(tB, follow.seen, b.id) else tB
    ensures ReadableKey(follow) ==>
              EndsAs(p.isIri, Served(p, codec, resolverA, answer.now, answer.request, Ok(Some(a)), later, true).tables,
                     PendingFollow(a.id, seenB, followId), ReadableKey(answer))
  {
    FollowStage(p.isIri, a, b, seenB, followId, tA, later);
    SignedFollowIsAnswered(p, codec, resolverB, follow, a, b, followId, tB, true);
    if ReadableKey(follow) {
      AnswerStage(p, codec, resolverA, answer, a, b, follow.seen, PendingFollow(a.id, seenB, followId), later);
    }
  }

  /**
   An actor's own inbox answers 500 when the look-up fails, 404 for an unknown actor, 415 unless the first
   Content-Type is readable and ActivityPub's, and 400 unless the body parses; none of these changes anything.
   */
  lemma InboxAnswers(
    p: Platform, codec: Codec, resolver: Resolver, now: int, request: Request,
    dispatched: Result<Option<Actor>, string>, t: Tables, delivers: bool)
    ensures var r := Served(p, codec, resolver, now, request, dispatched, t, delivers);
            var types := GetAll(request.headers, "content-type");
            var accepted := types != [] && Text.AllVisible(types[0])
                            && codec.essence(types[0]).Some?
                            && (codec.essence(types[0]).value == "application/activity+json"
                                || codec.essence(types[0]).value == "application/ld+json");
            if dispatched.Err? then r == Reception(t, InternalServerError, None)
            else if dispatched.value.None? then r == Reception(t, NotFound, None)
            else if !accepted then r == Reception(t, UnsupportedMediaType, None)
            else if codec.parse(request.body).None? then r == Reception(t, BadRequest, None)
            else
              var local, body := dispatched.value.value, codec.parse(request.body).value;
              match ActivityActorId(p.isIri, body)
              case None => r == Reception(t, Unauthorized, None)
              case Some(actorId) =>
                match Verified(p, resolver, now, request, actorId, local.inbox)
                case Err(status) => r == Reception(t, status, None)
                case Ok(remote) => r == Received(p.isIri, t, local, remote, body, None, delivers)
  {
  }
}
