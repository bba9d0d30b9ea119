/**
 Worlds in which the assumptions about signed delivery hold at once: those of acceptance, those of
 authenticity, and those of a whole handshake.
 */
module Assumptions {
  import opened Wrappers
  import opened Text
  import opened Vocab
  import opened Json
  import opened FollowCore
  import opened Store
  import opened Cavage
  import opened Http
  import opened RequestAuth
  import opened Inbox
  import opened SignedHandshake
  import Following

  /** What such a world prints: one host, one date, one hash and one signature. */
  datatype Words = Words(host: string, date: string, hash: string, signature: string, path: string)

  datatype Party = Party(id: Iri, keyId: Iri)

  predicate Plain(w: Words) {
    && IsBase64(w.hash) && IsBase64(w.signature) && AllVisible(w.date) && Free('\n', w.date)
    && AllVisible(w.host) && Free('@', w.host) && Free('\n', w.host) && Free('\n', w.path)
  }

  predicate PlainParty(who: Party) {
    && who.id != "" && SignatureHeader.Clean(who.id)
    && who.keyId != "" && SignatureHeader.Clean(who.keyId) && AllVisible(who.keyId)
  }

  function World(w: Words): Platform {
    Platform(
      Crypto((key, base) => Some(w.signature), (pem, base, signature) => pem == "public" && signature == w.signature,
             body => w.hash),
      s => s != "" && SignatureHeader.Clean(s), text => Some(Authority(text, text, None)),
      s => Some(Uri(Some("https"), Some(Authority(w.host, w.host, None)))), text => Some(0), t => w.date)
  }

  function ActorOf(who: Party): Actor {
    Actor(None, Person, who.id, "i", "o", None, None, None, None, Some(Id(who.keyId)))
  }

  const PAIR := ActorKeyPair("private", "public")

  function InboxUrl(w: Words): Url {
    Url("https", "", None, Some(w.host), None, w.path, None)
  }

  function Directory(who: Party): Resolver {
    Resolver(id => Some(ActorOf(who)), id => Some(CryptographicKey(who.keyId, who.id, "public")))
  }

  function Fields(w: Words, body: Bytes): seq<Field> {
    SentFields(w.date, CreateSha256DigestHeader(World(w).crypto, body), w.host)
  }

  function SentHeaders(w: Words, who: Party, body: Bytes): Headers {
    Fields(w, body) + [("signature", PrintedHeader(who.keyId, Names(Fields(w, body)), w.signature))]
  }

  function Arrived(w: Words, who: Party, body: Bytes): Request {
    Request(SentHeaders(w, who, body), "POST", w.path, None, body)
  }

  function Record(w: Words, body: Bytes): Signing {
    Signing("public", "POST", w.path, Fields(w, body), body)
  }

  lemma {:induction false} GetAllOfDistinct(headers: Headers, i: nat)
    requires i < |headers| && forall j, k | 0 <= j < k < |headers| :: headers[j].0 != headers[k].0
    ensures GetAll(headers, headers[i].0) == [headers[i].1]
  {
    if i == 0 {
      GetNoneOfOthers(headers[1..], headers[0].0);
    } else {
      GetAllOfDistinct(headers[1..], i - 1);
    }
  }

  lemma {:induction false} GetNoneOfOthers(headers: Headers, name: string)
    requires forall j | 0 <= j < |headers| :: headers[j].0 != name
    ensures GetAll(headers, name) == []
  {
    if headers != [] {
      GetNoneOfOthers(headers[1..], name);
    }
  }

  lemma HeadersDiffer(w: Words, who: Party, body: Bytes)
    ensures var headers := SentHeaders(w, who, body);
            |headers| == 5 && forall j, k | 0 <= j < k < 5 :: headers[j].0 != headers[k].0
  {
    var headers, names := SentHeaders(w, who, body), Names(Fields(w, body));
    SentNames(w.date, CreateSha256DigestHeader(World(w).crypto, body), w.host);
    assert forall j | 0 <= j < 4 :: headers[j].0 == names[j];
    assert headers[4].0 == "signature";
    assert |names[0]| == 12 && |names[1]| == 4 && |names[2]| == 6 && |names[3]| == 4 && |"signature"| == 9;
  }

  // The request carries exactly what was prepared.
  lemma DeliveryIsPrepared(w: Words, who: Party, body: Bytes)
    ensures var sent := Prepared(World(w), ActorOf(who), PAIR, body, Some(InboxUrl(w)), false, 0);
            sent == Ok(Outgoing(w.path, SentHeaders(w, who, body), body))
              && Delivered(sent.value, Arrived(w, who, body))
    ensures Matching(World(w).crypto, PAIR, PreparedBase(World(w), body, InboxUrl(w), 0))
  {
    var headers := SentHeaders(w, who, body);
    HeadersDiffer(w, who, body);
    forall i | 0 <= i < |headers| ensures GetAll(headers, headers[i].0) == [headers[i].1] {
      GetAllOfDistinct(headers, i);
    }
  }

  lemma AcceptanceIsAssumed(w: Words, who: Party)
    requires Plain(w) && PlainParty(who)
    ensures var p := World(w);
            && WellBehaved(p) && Publishes(Directory(who), ActorOf(who), PAIR, ActorOf(who)) && p.isIri(who.keyId)
            && ParsesAsHost(p, w.host, None) && SameEndpoint(p, InboxUrl(w), "i") && InClockWindow(p, 0, 0)
  {
    assert EqualIgnoringCase(w.host, w.host);
  }

  lemma FieldsAreOneLine(w: Words, body: Bytes)
    requires Plain(w)
    ensures OneLine("POST", w.path, Fields(w, body))
  {
    var digest := CreateSha256DigestHeader(World(w).crypto, body);
    DigestIsTight(w.hash);
    VisibleIsOneLine(digest);
    NamesAreOneLine(w, body);
    SentFieldsAreOneLine(w.date, digest, w.host, "POST", w.path);
  }

  lemma ArrivedIsWellFormed(w: Words, who: Party, body: Bytes)
    requires Plain(w)
    ensures WellFormedRequest(Arrived(w, who, body))
  {
    NamesAreOneLine(w, body);
    NamesOfHeaders(w, who, body);
    HeadersAreWellFormed(Arrived(w, who, body));
  }

  lemma HeadersAreWellFormed(request: Request)
    requires request.verb == "POST" && Free('\n', RequestTarget(request))
    requires forall i | 0 <= i < |request.headers| ::
               Free(':', request.headers[i].0) && Free('\n', request.headers[i].0)
    ensures WellFormedRequest(request)
  {
  }

  lemma NamesOfHeaders(w: Words, who: Party, body: Bytes)
    ensures var headers := SentHeaders(w, who, body);
            && |headers| == 5 && headers[4].0 == "signature"
            && forall i | 0 <= i < 4 :: headers[i].0 == Names(Fields(w, body))[i]
  {
  }

  lemma SentFieldsAreOneLine(date: string, digest: string, host: string, verb: string, target: string)
    requires Free(' ', verb) && Free('\n', verb) && Free('\n', target)
    requires Free('\n', date) && Free('\n', digest) && Free('\n', host)
    requires var names := Names(SentFields(date, digest, host));
             forall i | 0 <= i < |names| :: Free(':', names[i]) && Free('\n', names[i])
    ensures OneLine(verb, target, SentFields(date, digest, host))
  {
    var fields := SentFields(date, digest, host);
    assert forall i | 0 <= i < |fields| :: Names(fields)[i] == fields[i].0;
    VisibleIsOneLine("application/activity+json");
  }

  lemma NamesAreOneLine(w: Words, body: Bytes)
    ensures var names := Names(Fields(w, body));
            forall i | 0 <= i < |names| :: Free(':', names[i]) && Free('\n', names[i])
    ensures Free(':', "signature") && Free('\n', "signature")
  {
    var names := Names(Fields(w, body));
    SentNames(w.date, CreateSha256DigestHeader(World(w).crypto, body), w.host);
    forall i | 0 <= i < |names| ensures Free(':', names[i]) && Free('\n', names[i]) {
      LowercaseIsToken(names[i]);
    }
  }

  lemma VisibleIsOneLine(s: string)
    requires AllVisible(s)
    ensures Free('\n', s)
  {
    assert forall i | 0 <= i < |s| :: IsVisibleAscii(s[i]);
  }

  lemma AuthenticityIsAssumed(w: Words, who: Party, body: Bytes)
    requires Plain(w) && PlainParty(who)
    ensures var p, log, request := World(w), {Record(w, body)}, Arrived(w, who, body);
            && Genuine(p, Directory(who), request, log) && OneLineLog(log) && WellFormedRequest(request)
            && PrintsBase64(p.crypto) && CollisionFree(p.crypto, log, request.body)
            && forall s :: s in log ==> SignedByPreparing(p.crypto, s)
  {
    AcceptanceIsAssumed(w, who);
    DeliveryIsPrepared(w, who, body);
    FieldsAreOneLine(w, body);
    ArrivedIsWellFormed(w, who, body);
    PreparedDeliveryIsGenuine(
      World(w), Directory(who), ActorOf(who), PAIR, ActorOf(who), body, InboxUrl(w), 0, Arrived(w, who, body),
      {Record(w, body)});
    var digest := CreateSha256DigestHeader(World(w).crypto, Record(w, body).body);
    assert Record(w, body).fields == SentFields(w.date, digest, w.host);
  }

  lemma PlainWordsExist()
    ensures Plain(Words("b", "d", "h", "s", "/")) && PlainParty(Party("a", "k")) && PlainParty(Party("b", "l"))
  {
  }

  /**
   There is a world with a working key pair in which a prepared delivery is accepted and, by the authenticity
   theorem applied to that same delivery and record, its body is the one that was sent.
   */
  lemma AssumptionsHoldTogether() returns (w: Words, who: Party, body: Bytes, s: Signing)
    ensures Plain(w) && PlainParty(who) && Matching(World(w).crypto, PAIR, PreparedBase(World(w), body, InboxUrl(w), 0))
    ensures Verified(World(w), Directory(who), 0, Arrived(w, who, body), who.id, "i") == Ok(ActorOf(who))
    ensures Genuine(World(w), Directory(who), Arrived(w, who, body), {Record(w, body)})
    ensures s == Record(w, body) && s.body == Arrived(w, who, body).body
  {
    w, who, body := Words("b", "d", "h", "s", "/"), Party("a", "k"), [];
    PlainWordsExist();
    AcceptanceIsAssumed(w, who);
    AuthenticityIsAssumed(w, who, body);
    DeliveryIsPrepared(w, who, body);
    PreparedDeliveryIsAccepted(
      World(w), Directory(who), ActorOf(who), PAIR, ActorOf(who), body, InboxUrl(w), 0, 0, Arrived(w, who, body), "i");
    s := AcceptedBodyWasSent(World(w), Directory(who), 0, Arrived(w, who, body), who.id, "i", {Record(w, body)});
  }

  /******* A whole handshake *******/

  // Two activities as two texts.
  function TwoTexts(first: Value, second: Value): Codec {
    Codec(v => if v == first then [0] else [1],
          text => if text == [0] then Some(first) else if text == [1] then Some(second) else None,
          text => Some(text))
  }

  function DeliveryOf(w: Words, who: Party, body: Bytes): Delivery {
    Delivery(ActorOf(who), PAIR, ActorOf(who), InboxUrl(w), 0, 0, Arrived(w, who, body))
  }

  lemma DeliveryArrives(w: Words, who: Party, codec: Codec, v: Value)
    requires Plain(w) && PlainParty(who) && Carries(codec, v)
    ensures Arrives(World(w), codec, Directory(who), DeliveryOf(w, who, codec.write(v)), v, "i")
    ensures ReadableKey(DeliveryOf(w, who, codec.write(v)))
  {
    AcceptanceIsAssumed(w, who);
    DeliveryIsPrepared(w, who, codec.write(v));
  }

  lemma IrisExist()
    ensures var isIri := World(Words("b", "d", "h", "s", "/")).isIri;
            var a, b := ActorOf(Party("a", "k")), ActorOf(Party("b", "l"));
            && isIri("f") && ValidActor(isIri, a) && ValidActor(isIri, b)
            && isIri(ACTIVITYSTREAMS_CONTEXT) && Answerable(isIri, b, "f")
  {
    ContextIsClean();
    AcceptId.EncodedAlphabet("f");
  }

  lemma ContextIsClean()
    ensures SignatureHeader.Clean(ACTIVITYSTREAMS_CONTEXT)
  {
  }

  // Both servers start with nothing but their keys.
  function Start(a: Iri, b: Iri): Tables {
    Tables(map[], map[a := PAIR, b := PAIR], map[], map[])
  }

  predicate Suitable(w: Words, a: Party, b: Party, followId: Iri) {
    && Plain(w) && PlainParty(a) && PlainParty(b) && ValidActor(World(w).isIri, ActorOf(a))
    && ValidActor(World(w).isIri, ActorOf(b)) && WellTyped(World(w).isIri, ActorOf(a), ActorOf(b), followId)
    && Answerable(World(w).isIri, ActorOf(b), followId)
  }

  // The Follow and the Accept of this handshake, as two texts.
  function Texts(a: Actor, b: Actor, followId: Iri): Codec {
    TwoTexts(EncodeFollow(CreateFollow(a, b, followId).activity), EncodeAccept(AnswerTo(a, b, a, followId)))
  }

  lemma FollowIsSent(w: Words, a: Actor, b: Actor, followId: Iri)
    ensures var attempt := Following.Followed(Start(a.id, b.id), a.id, Ok(Some(a)), Ok(b), followId, None);
            && attempt.result == Ok(CreateFollow(a, b, followId).activity)
            && followId in attempt.tables.outboundFollows
  {
  }

  lemma BothArrive(w: Words, a: Party, b: Party, followId: Iri)
    requires Suitable(w, a, b, followId)
    ensures var codec := Texts(ActorOf(a), ActorOf(b), followId);
            var v1 := EncodeFollow(CreateFollow(ActorOf(a), ActorOf(b), followId).activity);
            var v2 := EncodeAccept(AnswerTo(ActorOf(a), ActorOf(b), ActorOf(a), followId));
            var follow, answer := DeliveryOf(w, a, codec.write(v1)), DeliveryOf(w, b, codec.write(v2));
            && Arrives(World(w), codec, Directory(a), follow, v1, "i") && ReadableKey(follow)
            && Arrives(World(w), codec, Directory(b), answer, v2, "i") && ReadableKey(answer)
  {
    var activity, accept := CreateFollow(ActorOf(a), ActorOf(b), followId).activity,
                            AnswerTo(ActorOf(a), ActorOf(b), ActorOf(a), followId);
    var codec := Texts(ActorOf(a), ActorOf(b), followId);
    FollowIsNoAccept(activity, accept);
    DeliveryArrives(w, a, codec, EncodeFollow(activity));
    DeliveryArrives(w, b, codec, EncodeAccept(accept));
  }

  /**
   In every such world the signed handshake's assumptions hold, it ends with the follower listed and the row
   accepted.
   */
  lemma HandshakeHappens(w: Words, a: Party, b: Party, followId: Iri)
    requires Suitable(w, a, b, followId)
    ensures var p, codec, start := World(w), Texts(ActorOf(a), ActorOf(b), followId), Start(a.id, b.id);
            var attempt := Following.Followed(start, a.id, Ok(Some(ActorOf(a))), Ok(ActorOf(b)), followId, None);
            var v1 := EncodeFollow(CreateFollow(ActorOf(a), ActorOf(b), followId).activity);
            var v2 := EncodeAccept(AnswerTo(ActorOf(a), ActorOf(b), ActorOf(a), followId));
            var follow, answer := DeliveryOf(w, a, codec.write(v1)), DeliveryOf(w, b, codec.write(v2));
            var atB := Served(p, codec, Directory(a), 0, follow.request, Ok(Some(ActorOf(b))), start, true);
            var atA := Served(p, codec, Directory(b), 0, answer.request, Ok(Some(ActorOf(a))), attempt.tables, true);
            && (a.id, b.id) in atB.tables.followers
            && followId in atA.tables.outboundFollows
            && atA.tables.outboundFollows[followId].state == FollowState.Accepted
  {
    var p, start := World(w), Start(a.id, b.id);
    var v1, v2 := EncodeFollow(CreateFollow(ActorOf(a), ActorOf(b), followId).activity),
                  EncodeAccept(AnswerTo(ActorOf(a), ActorOf(b), ActorOf(a), followId));
    var codec := Texts(ActorOf(a), ActorOf(b), followId);
    var follow, answer := DeliveryOf(w, a, codec.write(v1)), DeliveryOf(w, b, codec.write(v2));
    BothArrive(w, a, b, followId);
    FollowIsSent(w, ActorOf(a), ActorOf(b), followId);
    SignedFollowIsAnswered(p, codec, Directory(a), follow, ActorOf(a), ActorOf(b), followId, start, true);
    var attempt := Following.Followed(start, a.id, Ok(Some(ActorOf(a))), Ok(ActorOf(b)), followId, None);
    SignedHandshakeCompletes(
      p, codec, Directory(b), Directory(a), ActorOf(a), ActorOf(b), ActorOf(b), followId, start, start, follow, answer,
      attempt.tables);
  }

  lemma SuitableWorldExists()
    ensures Suitable(Words("b", "d", "h", "s", "/"), Party("a", "k"), Party("b", "l"), "f")
  {
    PlainWordsExist();
    IrisExist();
  }

  lemma FollowIsNoAccept(f: Follow, accept: Accept)
    ensures EncodeFollow(f) != EncodeAccept(accept)
  {
    var fields := Activity("Follow", f.context, f.id, f.actor, EncodeActorReference(f.target));
    var others := Activity("Accept", accept.context, accept.id, accept.actor, EncodeFollowReference(accept.follow));
    assert fields + [] == fields && others + [] == others;
    ActivityMembersAreFound("Follow", f.context, f.id, f.actor, EncodeActorReference(f.target), []);
    ActivityMembersAreFound(
      "Accept", accept.context, accept.id, accept.actor, EncodeFollowReference(accept.follow), []);
    assert "Follow"[0] != "Accept"[0];
  }
}
