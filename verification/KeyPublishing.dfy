/** Publishing an actor's key: what is set on the actor, and what a remote server reads from its document. */
module KeyPublishing {
  import opened Wrappers
  import opened Vocab
  import opened Json
  import opened FollowCore
  import opened Cavage
  import opened RequestAuth

  const SECURITY_CONTEXT: Iri := "https://w3id.org/security/v1"

  /******* Setting the key *******/

  function Contexts(c: Context): seq<Iri> {
    match c
    case One(iri) => [iri]
    case Many(iris) => iris
  }

  function Including(c: Context, iri: Iri): Context {
    if iri in Contexts(c) then c else Many(Contexts(c) + [iri])
  }

  function WithPublicKey(actor: Actor, key: Reference<CryptographicKey>): Actor {
    var context := if actor.context.Some? then actor.context.value else One(ACTIVITYSTREAMS_CONTEXT);
    actor.(context := Some(Including(context, SECURITY_CONTEXT)), publicKey := Some(key))
  }

  /** An actor document under construction; only these two members ever change. */
  class ActorDocument {
    const original: Actor
    var context: Option<Context>
    var publicKey: Option<Reference<CryptographicKey>>

    constructor (actor: Actor)
      ensures Contents() == actor
    {
      original, context, publicKey := actor, actor.context, actor.publicKey;
    }

    function Contents(): Actor
      reads this
    {
      original.(context := context, publicKey := publicKey)
    }

    method Include(iri: Iri)
      requires context.Some?
      modifies this`context
      ensures context == Some(Including(old(context).value, iri))
    {
      match context.value {
        case One(existing) =>
          if existing != iri {
            assert [existing] + [iri] == [existing, iri];
            context := Some(Many([existing, iri]));
          }
        case Many(existing) =>
          if iri !in existing {
            context := Some(Many(existing + [iri]));
          }
      }
    }

    method SetPublicKey(key: Reference<CryptographicKey>)
      modifies this
      ensures Contents() == WithPublicKey(old(Contents()), key)
    {
      if context.None? {
        context := Some(One(ACTIVITYSTREAMS_CONTEXT));
      }
      Include(SECURITY_CONTEXT);
      publicKey := Some(key);
    }
  }

  /**
   Setting a key keeps every context in its place, adds the security context at the end if it is missing,
   and setting another key afterwards is the same as setting that one first.
   */
  lemma SettingKeysReplacesThem(actor: Actor, key: Reference<CryptographicKey>, other: Reference<CryptographicKey>)
    ensures var updated := WithPublicKey(actor, key);
            && updated.publicKey == Some(key) && updated.context.Some?
            && SECURITY_CONTEXT in Contexts(updated.context.value)
            && (actor.context.Some? ==>
                  && Contexts(actor.context.value) <= Contexts(updated.context.value)
                  && (SECURITY_CONTEXT in Contexts(actor.context.value) ==> updated.context == actor.context))
            && |Contexts(updated.context.value)| <= 1
               + (if actor.context.Some? then |Contexts(actor.context.value)| else 1)
            && (actor.context.None? ==>
                  updated.context
                  == Some(Many(["https://www.w3.org/ns/activitystreams", "https://w3id.org/security/v1"])))
            && updated.(context := actor.context, publicKey := actor.publicKey) == actor
            && WithPublicKey(updated, other) == WithPublicKey(actor, other)
  {
    var context := if actor.context.Some? then actor.context.value else One(ACTIVITYSTREAMS_CONTEXT);
    assert [ACTIVITYSTREAMS_CONTEXT] + [SECURITY_CONTEXT] == [ACTIVITYSTREAMS_CONTEXT, SECURITY_CONTEXT];
    assert actor.context.None? ==> SECURITY_CONTEXT !in Contexts(context) by {
      assert |SECURITY_CONTEXT| != |ACTIVITYSTREAMS_CONTEXT|;
    }
    assert SECURITY_CONTEXT in Contexts(Including(context, SECURITY_CONTEXT)) by {
      if SECURITY_CONTEXT !in Contexts(context) {
        assert (Contexts(context) + [SECURITY_CONTEXT])[|Contexts(context)|] == SECURITY_CONTEXT;
      }
    }
  }

  /******* Reading a document *******/

  // The resolver ignores the context of an actor document, even one that is malformed.
  function ReadActor(isIri: IriTest, document: Value): Option<Actor> {
    match document
    case Dict(members) => DecodeActor(isIri, Dict(members - {KContext}))
    case _ => None
  }

  function ResolvedActor(isIri: IriTest, document: Value, actorId: Iri): Option<Actor> {
    match ReadActor(isIri, document)
    case Some(actor) => if actor.id == actorId then Some(actor) else None
    case None => None
  }

  // A key document of that id, or else an actor document that embeds a key of that id.
  function ResolvedKey(isIri: IriTest, document: Value, keyId: Iri): Option<CryptographicKey> {
    var key, actor := DecodeKey(isIri, document), ReadActor(isIri, document);
    if key.Some? && key.value.id == keyId then key
    else if actor.Some? && actor.value.publicKey.Some? && actor.value.publicKey.value.Object?
            && actor.value.publicKey.value.embedded.id == keyId then
      Some(actor.value.publicKey.value.embedded)
    else None
  }

  lemma ActorDocumentIsRead(isIri: IriTest, actor: Actor)
    requires ValidActor(isIri, actor)
    ensures ReadActor(isIri, EncodeActor(actor)) == Some(actor.(context := None))
  {
    var read := Dict(Members(ActorFields(actor)) - {KContext});
    EncodedActorMembers(actor);
    ContextIsIgnored(EncodeActor(actor), actor);
    ActorIsDecoded(isIri, read, actor.(context := None));
  }

  lemma ContextIsIgnored(document: Value, actor: Actor)
    requires ActorMembers(document, actor)
    ensures ActorMembers(Dict(document.members - {KContext}), actor.(context := None))
  {
  }

  lemma ActorDocumentIsNoKey(isIri: IriTest, actor: Actor)
    ensures DecodeKey(isIri, EncodeActor(actor)) == None
  {
    NoSuchMember(ActorFields(actor), KOwner);
  }

  lemma {:induction false} NoSuchMember(fields: seq<(Key, Option<Value>)>, k: Key)
    requires forall i | 0 <= i < |fields| :: fields[i].0 != k
    ensures k !in Members(fields)
  {
    if fields != [] {
      NoSuchMember(fields[1..], k);
    }
  }

  // The document that shows this key of the actor: the actor's own, or a separate one the actor points to.
  function KeyDocument(actor: Actor, key: CryptographicKey, embedded: bool): Value {
    if embedded then EncodeActor(WithPublicKey(actor, Object(key))) else EncodeKey(key)
  }

  function Published(actor: Actor, key: CryptographicKey, embedded: bool): Actor {
    WithPublicKey(actor, if embedded then Object(key) else Id(key.id))
  }

  /**
   A key set on the actor and served as JSON, embedded or as its own document, is what deliveries are
   signed under and what a remote server resolves: the premise of every accepted delivery.
   */
  lemma PublishedKeyIsResolved(
    isIri: IriTest, resolver: Resolver, actor: Actor, pair: ActorKeyPair, keyId: Iri, embedded: bool)
    requires ValidActor(isIri, actor) && isIri(keyId) && isIri(SECURITY_CONTEXT) && isIri(ACTIVITYSTREAMS_CONTEXT)
    requires var key := CryptographicKey(keyId, actor.id, pair.publicKeyPem);
             && resolver.actor(actor.id) == ResolvedActor(isIri, EncodeActor(Published(actor, key, embedded)), actor.id)
             && resolver.key(keyId) == ResolvedKey(isIri, KeyDocument(actor, key, embedded), keyId)
    ensures var published := Published(actor, CryptographicKey(keyId, actor.id, pair.publicKeyPem), embedded);
            && ValidActor(isIri, published) && SigningKeyId(published, pair) == Ok(keyId)
            && Publishes(resolver, published, pair, published.(context := None))
  {
    var key := CryptographicKey(keyId, actor.id, pair.publicKeyPem);
    var published := Published(actor, key, embedded);
    PublishedIsValid(isIri, actor, key, embedded);
    ActorDocumentIsRead(isIri, published);
    if embedded {
      ActorDocumentIsNoKey(isIri, published);
    } else {
      KeyRoundTrip(isIri, key);
    }
  }

  lemma PublishedIsValid(isIri: IriTest, actor: Actor, key: CryptographicKey, embedded: bool)
    requires ValidActor(isIri, actor) && ValidKey(isIri, key)
    requires isIri(SECURITY_CONTEXT) && isIri(ACTIVITYSTREAMS_CONTEXT)
    ensures ValidActor(isIri, Published(actor, key, embedded))
  {
  }

  /** Whatever a document holds, a resolved actor or key is the one asked for, and no context is taken over. */
  lemma ResolvedIsAskedFor(isIri: IriTest, document: Value, asked: Iri)
    ensures ResolvedActor(isIri, document, asked).Some? ==>
              ResolvedActor(isIri, document, asked).value.id == asked
              && ResolvedActor(isIri, document, asked).value.context == None
    ensures ResolvedKey(isIri, document, asked).Some? ==> ResolvedKey(isIri, document, asked).value.id == asked
  {
  }
}
