/**
 The ActivityStreams vocabulary: every reference is either an identifier or an embedded object.
 The unit enums that only fix a type name carry no information and have no field here.
 */
module Vocab {
  import opened Wrappers

  // An identifier. Which strings are absolute IRIs is a parameter wherever it matters.
  type Iri = string

  const PUBLIC_COLLECTION := "https://www.w3.org/ns/activitystreams#Public"

  datatype Reference<+T> = Id(id: Iri) | Object(embedded: T)

  datatype Context = One(iri: Iri) | Many(iris: seq<Iri>)

  datatype ActorType = Application | Group | Organization | Person | Service

  datatype Endpoints = Endpoints(sharedInbox: Option<Iri>)

  datatype CryptographicKey = CryptographicKey(id: Iri, owner: Iri, publicKeyPem: string)

  datatype Actor = Actor(
    context: Option<Context>,
    kind: ActorType,
    id: Iri,
    inbox: Iri,
    outbox: Iri,
    followers: Option<Iri>,
    preferredUsername: Option<string>,
    name: Option<string>,
    endpoints: Option<Endpoints>,
    publicKey: Option<Reference<CryptographicKey>>)

  datatype Follow = Follow(context: Option<Iri>, id: Iri, actor: Reference<Actor>, target: Reference<Actor>)

  datatype Accept = Accept(context: Option<Iri>, id: Iri, actor: Reference<Actor>, follow: Reference<Follow>)

  datatype Undo = Undo(context: Option<Iri>, id: Iri, actor: Reference<Actor>, follow: Reference<Follow>)

  // `to` and `cc` are the values of a `References<Iri>`.
  datatype Note = Note(
    context: Option<Iri>,
    id: Iri,
    attributedTo: Option<Reference<Actor>>,
    to: seq<Iri>,
    cc: seq<Iri>,
    content: Option<string>,
    mediaType: Option<string>,
    published: Option<string>,
    url: Option<Iri>)

  datatype Create = Create(
    context: Option<Iri>, id: Iri, actor: Reference<Actor>, note: Reference<Note>, to: seq<Iri>, cc: seq<Iri>)

  function ActorId(r: Reference<Actor>): Iri {
    match r
    case Id(id) => id
    case Object(actor) => actor.id
  }

  function FollowId(r: Reference<Follow>): Iri {
    match r
    case Id(id) => id
    case Object(follow) => follow.id
  }

  function SharedInbox(actor: Actor): Option<Iri> {
    if actor.endpoints.Some? then actor.endpoints.value.sharedInbox else None
  }
}
