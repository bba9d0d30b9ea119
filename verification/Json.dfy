/**
 Encoding the vocabulary to JSON values and decoding it again, with the untyped look-ups the inbox
 makes before it decodes.
 */
module Json {
  import opened Wrappers
  import opened Vocab

  /** The member names the vocabulary uses; any other name is `Other`. */
  datatype Key =
    | KContext | KType | KId | KInbox | KOutbox | KFollowers | KPreferredUsername | KName | KEndpoints | KPublicKey
    | KSharedInbox | KOwner | KPublicKeyPem | KActor | KObject | KAttributedTo | KTo | KCc | KContent | KMediaType
    | KPublished | KUrl | Other(name: string)

  datatype Value =
    | Null | Bool(b: bool) | Number(digits: string) | Text(s: string) | Array(items: seq<Value>)
    | Dict(members: map<Key, Value>)

  type IriTest = string -> bool

  function Get(v: Value, k: Key): Option<Value> {
    if v.Dict? && k in v.members then Some(v.members[k]) else None
  }

  function AsText(v: Value): Option<string> {
    if v.Text? then Some(v.s) else None
  }

  predicate HasType(v: Value, name: string) {
    Get(v, KType) == Some(Text(name))
  }

  /******* Encoding *******/

  // The members of a serialised struct; one without a value is skipped.
  function Members(fields: seq<(Key, Option<Value>)>): map<Key, Value> {
    if fields == [] then map[]
    else
      var rest := Members(fields[1..]);
      if fields[0].1.Some? then rest[fields[0].0 := fields[0].1.value] else rest
  }

  ghost predicate DistinctKeys(fields: seq<(Key, Option<Value>)>) {
    forall i, j | 0 <= i < j < |fields| :: fields[i].0 != fields[j].0
  }

  lemma {:induction false} MembersAreFound(fields: seq<(Key, Option<Value>)>)
    requires DistinctKeys(fields)
    ensures forall i | 0 <= i < |fields| :: Get(Dict(Members(fields)), fields[i].0) == fields[i].1
    ensures forall k | k in Members(fields) :: exists i :: 0 <= i < |fields| && fields[i].0 == k
  {
    if fields != [] {
      var rest := fields[1..];
      MembersAreFound(rest);
      assert forall j | 0 <= j < |rest| :: fields[j + 1] == rest[j];
      assert forall j | 0 <= j < |rest| :: rest[j].0 != fields[0].0;
      forall i | 0 <= i < |fields| ensures Get(Dict(Members(fields)), fields[i].0) == fields[i].1 {
        if i > 0 {
          assert fields[i] == rest[i - 1];
        }
      }
      forall k | k in Members(fields) ensures exists i :: 0 <= i < |fields| && fields[i].0 == k {
        if k in Members(rest) {
          var j :| 0 <= j < |rest| && rest[j].0 == k;
          assert fields[j + 1].0 == k;
        } else {
          assert fields[0].0 == k;
        }
      }
    }
  }

  function OptionalText(s: Option<string>): Option<Value> {
    if s.Some? then Some(Text(s.value)) else None
  }

  function Texts(ss: seq<string>): seq<Value> {
    seq(|ss|, i requires 0 <= i < |ss| => Text(ss[i]))
  }

  function EncodeContext(c: Option<Context>): Option<Value> {
    match c
    case None => None
    case Some(One(iri)) => Some(Text(iri))
    case Some(Many(iris)) => Some(Array(Texts(iris)))
  }

  function ActorTypeName(kind: ActorType): string {
    match kind
    case Application => "Application"
    case Group => "Group"
    case Organization => "Organization"
    case Person => "Person"
    case Service => "Service"
  }

  function EncodeEndpoints(e: Option<Endpoints>): Option<Value> {
    if e.Some? then Some(Dict(Members([(KSharedInbox, OptionalText(e.value.sharedInbox))]))) else None
  }

  function EncodeKey(key: CryptographicKey): Value {
    Dict(map[KId := Text(key.id), KType := Text("CryptographicKey"), KOwner := Text(key.owner),
             KPublicKeyPem := Text(key.publicKeyPem)])
  }

  function EncodeKeyReference(r: Option<Reference<CryptographicKey>>): Option<Value> {
    match r
    case None => None
    case Some(Id(id)) => Some(Text(id))
    case Some(Object(key)) => Some(EncodeKey(key))
  }

  function ActorFields(a: Actor): seq<(Key, Option<Value>)> {
    [(KContext, EncodeContext(a.context)), (KType, Some(Text(ActorTypeName(a.kind)))), (KId, Some(Text(a.id))),
     (KInbox, Some(Text(a.inbox))), (KOutbox, Some(Text(a.outbox))), (KFollowers, OptionalText(a.followers)),
     (KPreferredUsername, OptionalText(a.preferredUsername)), (KName, OptionalText(a.name)),
     (KEndpoints, EncodeEndpoints(a.endpoints)), (KPublicKey, EncodeKeyReference(a.publicKey))]
  }

  function EncodeActor(a: Actor): Value {
    Dict(Members(ActorFields(a)))
  }

  function EncodeActorReference(r: Reference<Actor>): Value {
    match r
    case Id(id) => Text(id)
    case Object(actor) => EncodeActor(actor)
  }

  function Activity(name: string, context: Option<Iri>, id: Iri, actor: Reference<Actor>, target: Value)
    : seq<(Key, Option<Value>)>
  {
    [(KContext, OptionalText(context)), (KType, Some(Text(name))), (KId, Some(Text(id))),
     (KActor, Some(EncodeActorReference(actor))), (KObject, Some(target))]
  }

  function EncodeFollow(f: Follow): Value {
    Dict(Members(Activity("Follow", f.context, f.id, f.actor, EncodeActorReference(f.target))))
  }

  function EncodeFollowReference(r: Reference<Follow>): Value {
    match r
    case Id(id) => Text(id)
    case Object(follow) => EncodeFollow(follow)
  }

  function EncodeAccept(a: Accept): Value {
    Dict(Members(Activity("Accept", a.context, a.id, a.actor, EncodeFollowReference(a.follow))))
  }

  function EncodeUndo(u: Undo): Value {
    Dict(Members(Activity("Undo", u.context, u.id, u.actor, EncodeFollowReference(u.follow))))
  }

  // `References`: absent when empty, a scalar for one value, an array for several.
  function EncodeAddresses(addresses: seq<Iri>): Option<Value> {
    if addresses == [] then None
    else if |addresses| == 1 then Some(Text(addresses[0]))
    else Some(Array(Texts(addresses)))
  }

  function NoteFields(n: Note): seq<(Key, Option<Value>)> {
    var attributedTo := if n.attributedTo.Some? then Some(EncodeActorReference(n.attributedTo.value)) else None;
    [(KContext, OptionalText(n.context)), (KType, Some(Text("Note"))), (KId, Some(Text(n.id))),
     (KAttributedTo, attributedTo), (KTo, EncodeAddresses(n.to)), (KCc, EncodeAddresses(n.cc)),
     (KContent, OptionalText(n.content)), (KMediaType, OptionalText(n.mediaType)),
     (KPublished, OptionalText(n.published)), (KUrl, OptionalText(n.url))]
  }

  function EncodeNote(n: Note): Value {
    Dict(Members(NoteFields(n)))
  }

  function EncodeNoteReference(r: Reference<Note>): Value {
    match r
    case Id(id) => Text(id)
    case Object(note) => EncodeNote(note)
  }

  function CreateFields(c: Create): seq<(Key, Option<Value>)> {
    Activity("Create", c.context, c.id, c.actor, EncodeNoteReference(c.note))
    + [(KTo, EncodeAddresses(c.to)), (KCc, EncodeAddresses(c.cc))]
  }

  function EncodeCreate(c: Create): Value {
    Dict(Members(CreateFields(c)))
  }

  /******* Decoding *******/

  function DecodeIri(isIri: IriTest, v: Value): Option<Iri> {
    if v.Text? && isIri(v.s) then Some(v.s) else None
  }

  // A member that must be there.
  function Required<T>(v: Value, k: Key, decode: Value -> Option<T>): Option<T> {
    match Get(v, k)
    case None => None
    case Some(member) => decode(member)
  }

  // A member that may be missing or null; the outer option is failure.
  function Optional<T>(v: Value, k: Key, decode: Value -> Option<T>): Option<Option<T>> {
    match Get(v, k)
    case None => Some(None)
    case Some(member) =>
      if member.Null? then Some(None)
      else match decode(member)
        case None => None
        case Some(value) => Some(Some(value))
  }

  // An identifier if the value is one, and an embedded object otherwise.
  function DecodeReference<T>(isIri: IriTest, v: Value, decode: Value -> Option<T>): Option<Reference<T>> {
    match DecodeIri(isIri, v)
    case Some(id) => Some(Id(id))
    case None =>
      match decode(v)
      case None => None
      case Some(embedded) => Some(Object(embedded))
  }

  predicate AllTexts(items: seq<Value>) {
    forall i | 0 <= i < |items| :: items[i].Text?
  }

  function TextsOf(items: seq<Value>): seq<string>
    requires AllTexts(items)
  {
    seq(|items|, i requires 0 <= i < |items| => items[i].s)
  }

  predicate AllIris(isIri: IriTest, iris: seq<string>) {
    forall i | 0 <= i < |iris| :: isIri(iris[i])
  }

  function DecodeContext(isIri: IriTest, v: Value): Option<Context> {
    match v
    case Text(s) => if isIri(s) then Some(One(s)) else None
    case Array(items) => if AllTexts(items) && AllIris(isIri, TextsOf(items)) then Some(Many(TextsOf(items))) else None
    case _ => None
  }

  function DecodeActorType(v: Value): Option<ActorType> {
    if v == Text("Application") then Some(Application)
    else if v == Text("Group") then Some(Group)
    else if v == Text("Organization") then Some(Organization)
    else if v == Text("Person") then Some(Person)
    else if v == Text("Service") then Some(Service)
    else None
  }

  function DecodeEndpoints(isIri: IriTest, v: Value): Option<Endpoints> {
    if !v.Dict? then None
    else match Optional(v, KSharedInbox, m => DecodeIri(isIri, m))
      case None => None
      case Some(sharedInbox) => Some(Endpoints(sharedInbox))
  }

  function DecodeKey(isIri: IriTest, v: Value): Option<CryptographicKey> {
    var id, owner := Required(v, KId, m => DecodeIri(isIri, m)), Required(v, KOwner, m => DecodeIri(isIri, m));
    var pem := Required(v, KPublicKeyPem, AsText);
    if id.None? || owner.None? || pem.None? || Get(v, KType) !in {None, Some(Text("CryptographicKey"))} then None
    else Some(CryptographicKey(id.value, owner.value, pem.value))
  }

  function DecodeActor(isIri: IriTest, v: Value): Option<Actor> {
    var iri := (m: Value) => DecodeIri(isIri, m);
    var context := Optional(v, KContext, m => DecodeContext(isIri, m));
    var kind := Required(v, KType, DecodeActorType);
    var id, inbox, outbox := Required(v, KId, iri), Required(v, KInbox, iri), Required(v, KOutbox, iri);
    var followers := Optional(v, KFollowers, iri);
    var username, name := Optional(v, KPreferredUsername, AsText), Optional(v, KName, AsText);
    var endpoints := Optional(v, KEndpoints, m => DecodeEndpoints(isIri, m));
    var publicKey := Optional(v, KPublicKey, m => DecodeReference(isIri, m, k => DecodeKey(isIri, k)));
    if context.None? || kind.None? || id.None? || inbox.None? || outbox.None? || followers.None? || username.None?
       || name.None? || endpoints.None? || publicKey.None? then None
    else Some(Actor(context.value, kind.value, id.value, inbox.value, outbox.value, followers.value, username.value,
                    name.value, endpoints.value, publicKey.value))
  }

  function DecodeActorReference(isIri: IriTest, v: Value): Option<Reference<Actor>> {
    DecodeReference(isIri, v, m => DecodeActor(isIri, m))
  }

  function DecodeFollow(isIri: IriTest, v: Value): Option<Follow> {
    var context := Optional(v, KContext, m => DecodeIri(isIri, m));
    var id := Required(v, KId, m => DecodeIri(isIri, m));
    var actor := Required(v, KActor, m => DecodeActorReference(isIri, m));
    var target := Required(v, KObject, m => DecodeActorReference(isIri, m));
    if !HasType(v, "Follow") || context.None? || id.None? || actor.None? || target.None? then None
    else Some(Follow(context.value, id.value, actor.value, target.value))
  }

  function DecodeFollowReference(isIri: IriTest, v: Value): Option<Reference<Follow>> {
    DecodeReference(isIri, v, m => DecodeFollow(isIri, m))
  }

  function DecodeAccept(isIri: IriTest, v: Value): Option<Accept> {
    var context := Optional(v, KContext, m => DecodeIri(isIri, m));
    var id := Required(v, KId, m => DecodeIri(isIri, m));
    var actor := Required(v, KActor, m => DecodeActorReference(isIri, m));
    var follow := Required(v, KObject, m => DecodeFollowReference(isIri, m));
    if !HasType(v, "Accept") || context.None? || id.None? || actor.None? || follow.None? then None
    else Some(Accept(context.value, id.value, actor.value, follow.value))
  }

  function DecodeUndo(isIri: IriTest, v: Value): Option<Undo> {
    var context := Optional(v, KContext, m => DecodeIri(isIri, m));
    var id := Required(v, KId, m => DecodeIri(isIri, m));
    var actor := Required(v, KActor, m => DecodeActorReference(isIri, m));
    var follow := Required(v, KObject, m => DecodeFollowReference(isIri, m));
    if !HasType(v, "Undo") || context.None? || id.None? || actor.None? || follow.None? then None
    else Some(Undo(context.value, id.value, actor.value, follow.value))
  }

  // The compact names of the public collection stand for its full IRI.
  function PublicAlias(address: string): string {
    if address == "Public" || address == "as:Public" then PUBLIC_COLLECTION else address
  }

  function PublicAliases(addresses: seq<string>): seq<string> {
    seq(|addresses|, i requires 0 <= i < |addresses| => PublicAlias(addresses[i]))
  }

  // A missing member is an empty list, but null is an error.
  function DecodeAddresses(isIri: IriTest, v: Value, k: Key): Option<seq<Iri>> {
    match Get(v, k)
    case None => Some([])
    case Some(Text(s)) => if isIri(PublicAlias(s)) then Some([PublicAlias(s)]) else None
    case Some(Array(items)) =>
      if AllTexts(items) && AllIris(isIri, PublicAliases(TextsOf(items))) then Some(PublicAliases(TextsOf(items)))
      else None
    case Some(_) => None
  }

  function DecodeNote(isIri: IriTest, v: Value): Option<Note> {
    var context, url := Optional(v, KContext, m => DecodeIri(isIri, m)), Optional(v, KUrl, m => DecodeIri(isIri, m));
    var id := Required(v, KId, m => DecodeIri(isIri, m));
    var attributedTo := Optional(v, KAttributedTo, m => DecodeActorReference(isIri, m));
    var to, cc := DecodeAddresses(isIri, v, KTo), DecodeAddresses(isIri, v, KCc);
    var content, mediaType := Optional(v, KContent, AsText), Optional(v, KMediaType, AsText);
    var published := Optional(v, KPublished, AsText);
    if !HasType(v, "Note") || context.None? || id.None? || attributedTo.None? || to.None? || cc.None?
       || content.None? || mediaType.None? || published.None? || url.None? then None
    else Some(Note(context.value, id.value, attributedTo.value, to.value, cc.value, content.value, mediaType.value,
                   published.value, url.value))
  }

  function DecodeCreate(isIri: IriTest, v: Value): Option<Create> {
    var context := Optional(v, KContext, m => DecodeIri(isIri, m));
    var id := Required(v, KId, m => DecodeIri(isIri, m));
    var actor := Required(v, KActor, m => DecodeActorReference(isIri, m));
    var note := Required(v, KObject, m => DecodeReference(isIri, m, n => DecodeNote(isIri, n)));
    var to, cc := DecodeAddresses(isIri, v, KTo), DecodeAddresses(isIri, v, KCc);
    if !HasType(v, "Create") || context.None? || id.None? || actor.None? || note.None? || to.None? || cc.None? then None
    else Some(Create(context.value, id.value, actor.value, note.value, to.value, cc.value))
  }

  /******* Which values are well typed *******/

  predicate ValidOption(isIri: IriTest, iri: Option<Iri>) {
    iri.Some? ==> isIri(iri.value)
  }

  predicate ValidContext(isIri: IriTest, c: Option<Context>) {
    match c
    case None => true
    case Some(One(iri)) => isIri(iri)
    case Some(Many(iris)) => AllIris(isIri, iris)
  }

  predicate ValidKey(isIri: IriTest, key: CryptographicKey) {
    isIri(key.id) && isIri(key.owner)
  }

  predicate ValidKeyReference(isIri: IriTest, r: Option<Reference<CryptographicKey>>) {
    match r
    case None => true
    case Some(Id(id)) => isIri(id)
    case Some(Object(key)) => ValidKey(isIri, key)
  }

  predicate ValidActor(isIri: IriTest, a: Actor) {
    && isIri(a.id) && isIri(a.inbox) && isIri(a.outbox)
    && ValidContext(isIri, a.context) && ValidOption(isIri, a.followers)
    && (a.endpoints.Some? ==> ValidOption(isIri, a.endpoints.value.sharedInbox))
    && ValidKeyReference(isIri, a.publicKey)
  }

  predicate ValidActorReference(isIri: IriTest, r: Reference<Actor>) {
    match r
    case Id(id) => isIri(id)
    case Object(actor) => ValidActor(isIri, actor)
  }

  predicate ValidFollow(isIri: IriTest, f: Follow) {
    && isIri(f.id) && ValidOption(isIri, f.context)
    && ValidActorReference(isIri, f.actor) && ValidActorReference(isIri, f.target)
  }

  predicate ValidFollowReference(isIri: IriTest, r: Reference<Follow>) {
    match r
    case Id(id) => isIri(id)
    case Object(follow) => ValidFollow(isIri, follow)
  }

  predicate ValidAccept(isIri: IriTest, a: Accept) {
    && isIri(a.id) && ValidOption(isIri, a.context)
    && ValidActorReference(isIri, a.actor) && ValidFollowReference(isIri, a.follow)
  }

  predicate ValidUndo(isIri: IriTest, u: Undo) {
    && isIri(u.id) && ValidOption(isIri, u.context)
    && ValidActorReference(isIri, u.actor) && ValidFollowReference(isIri, u.follow)
  }

  predicate ValidNote(isIri: IriTest, n: Note) {
    && isIri(n.id) && ValidOption(isIri, n.context) && ValidOption(isIri, n.url)
    && (n.attributedTo.Some? ==> ValidActorReference(isIri, n.attributedTo.value))
    && AllIris(isIri, PublicAliases(n.to)) && AllIris(isIri, PublicAliases(n.cc))
  }

  predicate ValidCreate(isIri: IriTest, c: Create) {
    && isIri(c.id) && ValidOption(isIri, c.context) && ValidActorReference(isIri, c.actor)
    && (match c.note case Id(id) => isIri(id) case Object(note) => ValidNote(isIri, note))
    && AllIris(isIri, PublicAliases(c.to)) && AllIris(isIri, PublicAliases(c.cc))
  }

  function NormalNote(n: Note): Note {
    n.(to := PublicAliases(n.to), cc := PublicAliases(n.cc))
  }

  function NormalCreate(c: Create): Create {
    c.(note := match c.note case Id(id) => Id(id) case Object(note) => Object(NormalNote(note)),
       to := PublicAliases(c.to), cc := PublicAliases(c.cc))
  }

  /******* Round trips *******/

  lemma TextsRoundTrip(ss: seq<string>)
    ensures AllTexts(Texts(ss)) && TextsOf(Texts(ss)) == ss
  {
  }

  lemma KeyRoundTrip(isIri: IriTest, key: CryptographicKey)
    ensures DecodeKey(isIri, EncodeKey(key)) == if ValidKey(isIri, key) then Some(key) else None
  {
  }

  lemma ActorTypeRoundTrip(kind: ActorType)
    ensures DecodeActorType(Text(ActorTypeName(kind))) == Some(kind)
  {
    assert |"Application"| == 11 && |"Group"| == 5 && |"Organization"| == 12 && |"Person"| == 6 && |"Service"| == 7;
  }

  ghost predicate ActorMembers(v: Value, a: Actor) {
    && v.Dict? && Get(v, KType) == Some(Text(ActorTypeName(a.kind)))
    && Get(v, KId) == Some(Text(a.id)) && Get(v, KInbox) == Some(Text(a.inbox))
    && Get(v, KOutbox) == Some(Text(a.outbox))
    && Get(v, KContext) == EncodeContext(a.context) && Get(v, KFollowers) == OptionalText(a.followers)
    && Get(v, KPreferredUsername) == OptionalText(a.preferredUsername) && Get(v, KName) == OptionalText(a.name)
    && Get(v, KEndpoints) == EncodeEndpoints(a.endpoints) && Get(v, KPublicKey) == EncodeKeyReference(a.publicKey)
  }

  lemma MemberIsFound(fields: seq<(Key, Option<Value>)>, i: nat, k: Key, value: Option<Value>)
    requires DistinctKeys(fields) && i < |fields| && fields[i] == (k, value)
    ensures Get(Dict(Members(fields)), k) == value
  {
    MembersAreFound(fields);
  }

  lemma ActorKeysDiffer(a: Actor)
    ensures DistinctKeys(ActorFields(a))
  {
  }

  lemma EncodedActorMembers(a: Actor)
    ensures ActorMembers(EncodeActor(a), a)
  {
    var fields := ActorFields(a);
    ActorKeysDiffer(a);
    MemberIsFound(fields, 0, KContext, EncodeContext(a.context));
    MemberIsFound(fields, 1, KType, Some(Text(ActorTypeName(a.kind))));
    MemberIsFound(fields, 2, KId, Some(Text(a.id)));
    MemberIsFound(fields, 3, KInbox, Some(Text(a.inbox)));
    MemberIsFound(fields, 4, KOutbox, Some(Text(a.outbox)));
    MemberIsFound(fields, 5, KFollowers, OptionalText(a.followers));
    MemberIsFound(fields, 6, KPreferredUsername, OptionalText(a.preferredUsername));
    MemberIsFound(fields, 7, KName, OptionalText(a.name));
    MemberIsFound(fields, 8, KEndpoints, EncodeEndpoints(a.endpoints));
    MemberIsFound(fields, 9, KPublicKey, EncodeKeyReference(a.publicKey));
  }

  lemma ContextRoundTrip(isIri: IriTest, v: Value, c: Option<Context>)
    requires Get(v, KContext) == EncodeContext(c)
    ensures Optional(v, KContext, m => DecodeContext(isIri, m)) == if ValidContext(isIri, c) then Some(c) else None
  {
    if c.Some? && c.value.Many? {
      TextsRoundTrip(c.value.iris);
    }
  }

  lemma EndpointsRoundTrip(isIri: IriTest, v: Value, e: Option<Endpoints>)
    requires Get(v, KEndpoints) == EncodeEndpoints(e)
    ensures Optional(v, KEndpoints, m => DecodeEndpoints(isIri, m))
            == if e.Some? ==> ValidOption(isIri, e.value.sharedInbox) then Some(e) else None
  {
  }

  lemma KeyReferenceRoundTrip(isIri: IriTest, v: Value, r: Option<Reference<CryptographicKey>>)
    requires Get(v, KPublicKey) == EncodeKeyReference(r)
    ensures Optional(v, KPublicKey, m => DecodeReference(isIri, m, k => DecodeKey(isIri, k)))
            == if ValidKeyReference(isIri, r) then Some(r) else None
  {
    if r.Some? && r.value.Object? {
      KeyRoundTrip(isIri, r.value.embedded);
    }
  }

  lemma ActorIsDecoded(isIri: IriTest, v: Value, a: Actor)
    requires ActorMembers(v, a)
    ensures DecodeActor(isIri, v) == if ValidActor(isIri, a) then Some(a) else None
  {
    ContextRoundTrip(isIri, v, a.context);
    EndpointsRoundTrip(isIri, v, a.endpoints);
    KeyReferenceRoundTrip(isIri, v, a.publicKey);
    ActorTypeRoundTrip(a.kind);
  }

  /** Decoding an encoded actor gives it back, and fails exactly when some identifier in it is not an IRI. */
  lemma ActorRoundTrip(isIri: IriTest, a: Actor)
    ensures DecodeActor(isIri, EncodeActor(a)) == if ValidActor(isIri, a) then Some(a) else None
  {
    EncodedActorMembers(a);
    ActorIsDecoded(isIri, EncodeActor(a), a);
  }

  lemma ActorReferenceRoundTrip(isIri: IriTest, r: Reference<Actor>)
    ensures DecodeActorReference(isIri, EncodeActorReference(r))
            == if ValidActorReference(isIri, r) then Some(r) else None
  {
    if r.Object? {
      ActorRoundTrip(isIri, r.embedded);
    }
  }

  ghost predicate ActivityMembers(
    v: Value, name: string, context: Option<Iri>, id: Iri, actor: Reference<Actor>, target: Value)
  {
    && HasType(v, name) && Get(v, KContext) == OptionalText(context) && Get(v, KId) == Some(Text(id))
    && Get(v, KActor) == Some(EncodeActorReference(actor)) && Get(v, KObject) == Some(target)
  }

  lemma ActivityMembersAreFound(
    name: string, context: Option<Iri>, id: Iri, actor: Reference<Actor>, target: Value,
    more: seq<(Key, Option<Value>)>)
    requires DistinctKeys(Activity(name, context, id, actor, target) + more)
    ensures ActivityMembers(
              Dict(Members(Activity(name, context, id, actor, target) + more)), name, context, id, actor, target)
  {
    var fields := Activity(name, context, id, actor, target) + more;
    MembersAreFound(fields);
    assert fields[0].0 == KContext && fields[1].0 == KType && fields[2].0 == KId && fields[3].0 == KActor;
    assert fields[4].0 == KObject;
  }

  lemma FollowRoundTrip(isIri: IriTest, f: Follow)
    ensures DecodeFollow(isIri, EncodeFollow(f)) == if ValidFollow(isIri, f) then Some(f) else None
  {
    var fields := Activity("Follow", f.context, f.id, f.actor, EncodeActorReference(f.target));
    assert fields + [] == fields;
    ActivityMembersAreFound("Follow", f.context, f.id, f.actor, EncodeActorReference(f.target), []);
    ActorReferenceRoundTrip(isIri, f.actor);
    ActorReferenceRoundTrip(isIri, f.target);
  }

  lemma FollowReferenceRoundTrip(isIri: IriTest, r: Reference<Follow>)
    ensures DecodeFollowReference(isIri, EncodeFollowReference(r))
            == if ValidFollowReference(isIri, r) then Some(r) else None
  {
    if r.Object? {
      FollowRoundTrip(isIri, r.embedded);
    }
  }

  lemma AcceptRoundTrip(isIri: IriTest, a: Accept)
    ensures DecodeAccept(isIri, EncodeAccept(a)) == if ValidAccept(isIri, a) then Some(a) else None
  {
    var fields := Activity("Accept", a.context, a.id, a.actor, EncodeFollowReference(a.follow));
    assert fields + [] == fields;
    ActivityMembersAreFound("Accept", a.context, a.id, a.actor, EncodeFollowReference(a.follow), []);
    ActorReferenceRoundTrip(isIri, a.actor);
    FollowReferenceRoundTrip(isIri, a.follow);
  }

  lemma UndoRoundTrip(isIri: IriTest, u: Undo)
    ensures DecodeUndo(isIri, EncodeUndo(u)) == if ValidUndo(isIri, u) then Some(u) else None
  {
    var fields := Activity("Undo", u.context, u.id, u.actor, EncodeFollowReference(u.follow));
    assert fields + [] == fields;
    ActivityMembersAreFound("Undo", u.context, u.id, u.actor, EncodeFollowReference(u.follow), []);
    ActorReferenceRoundTrip(isIri, u.actor);
    FollowReferenceRoundTrip(isIri, u.follow);
  }

  lemma AddressesRoundTrip(isIri: IriTest, v: Value, k: Key, addresses: seq<Iri>)
    requires Get(v, k) == EncodeAddresses(addresses)
    ensures DecodeAddresses(isIri, v, k)
            == if AllIris(isIri, PublicAliases(addresses)) then Some(PublicAliases(addresses)) else None
  {
    TextsRoundTrip(addresses);
    if |addresses| <= 1 {
      assert PublicAliases(addresses) == if addresses == [] then [] else [PublicAlias(addresses[0])];
      assert AllIris(isIri, PublicAliases(addresses)) <==> addresses == [] || isIri(PublicAliases(addresses)[0]);
    }
  }

  ghost predicate NoteMembers(v: Value, n: Note) {
    v.Dict? && NoteHeading(v, n) && NoteContent(v, n)
  }

  ghost predicate NoteHeading(v: Value, n: Note) {
    && HasType(v, "Note") && Get(v, KId) == Some(Text(n.id)) && Get(v, KContext) == OptionalText(n.context)
    && Get(v, KAttributedTo)
       == (if n.attributedTo.Some? then Some(EncodeActorReference(n.attributedTo.value)) else None)
    && Get(v, KTo) == EncodeAddresses(n.to) && Get(v, KCc) == EncodeAddresses(n.cc)
  }

  ghost predicate NoteContent(v: Value, n: Note) {
    && Get(v, KContent) == OptionalText(n.content) && Get(v, KMediaType) == OptionalText(n.mediaType)
    && Get(v, KPublished) == OptionalText(n.published) && Get(v, KUrl) == OptionalText(n.url)
  }

  lemma NoteKeysDiffer(n: Note)
    ensures DistinctKeys(NoteFields(n))
  {
  }

  lemma EncodedNoteMembers(n: Note)
    ensures NoteMembers(EncodeNote(n), n)
  {
    EncodedNoteHeading(n);
    EncodedNoteContent(n);
  }

  lemma EncodedNoteHeading(n: Note)
    ensures NoteHeading(EncodeNote(n), n)
  {
    var fields := NoteFields(n);
    NoteKeysDiffer(n);
    MemberIsFound(fields, 0, KContext, OptionalText(n.context));
    MemberIsFound(fields, 1, KType, Some(Text("Note")));
    MemberIsFound(fields, 2, KId, Some(Text(n.id)));
    MemberIsFound(fields, 3, KAttributedTo,
                  if n.attributedTo.Some? then Some(EncodeActorReference(n.attributedTo.value)) else None);
    MemberIsFound(fields, 4, KTo, EncodeAddresses(n.to));
    MemberIsFound(fields, 5, KCc, EncodeAddresses(n.cc));
  }

  lemma EncodedNoteContent(n: Note)
    ensures NoteContent(EncodeNote(n), n)
  {
    var fields := NoteFields(n);
    NoteKeysDiffer(n);
    MemberIsFound(fields, 6, KContent, OptionalText(n.content));
    MemberIsFound(fields, 7, KMediaType, OptionalText(n.mediaType));
    MemberIsFound(fields, 8, KPublished, OptionalText(n.published));
    MemberIsFound(fields, 9, KUrl, OptionalText(n.url));
  }

  lemma NoteIsDecoded(isIri: IriTest, v: Value, n: Note)
    requires NoteMembers(v, n)
    ensures DecodeNote(isIri, v) == if ValidNote(isIri, n) then Some(NormalNote(n)) else None
  {
    AddressesRoundTrip(isIri, v, KTo, n.to);
    AddressesRoundTrip(isIri, v, KCc, n.cc);
    if n.attributedTo.Some? {
      ActorReferenceRoundTrip(isIri, n.attributedTo.value);
      assert !EncodeActorReference(n.attributedTo.value).Null?;
    }
  }

  /** Decoding an encoded note is exactly the replacement of the public collection's aliases. */
  lemma NoteRoundTrip(isIri: IriTest, n: Note)
    ensures DecodeNote(isIri, EncodeNote(n)) == if ValidNote(isIri, n) then Some(NormalNote(n)) else None
  {
    EncodedNoteMembers(n);
    NoteIsDecoded(isIri, EncodeNote(n), n);
  }

  lemma EncodedCreateMembers(c: Create)
    ensures ActivityMembers(EncodeCreate(c), "Create", c.context, c.id, c.actor, EncodeNoteReference(c.note))
    ensures Get(EncodeCreate(c), KTo) == EncodeAddresses(c.to) && Get(EncodeCreate(c), KCc) == EncodeAddresses(c.cc)
  {
    var fields := CreateFields(c);
    ActivityMembersAreFound("Create", c.context, c.id, c.actor, EncodeNoteReference(c.note),
                            [(KTo, EncodeAddresses(c.to)), (KCc, EncodeAddresses(c.cc))]);
    MembersAreFound(fields);
    assert fields[5].0 == KTo && fields[6].0 == KCc;
  }

  lemma CreateRoundTrip(isIri: IriTest, c: Create)
    ensures DecodeCreate(isIri, EncodeCreate(c)) == if ValidCreate(isIri, c) then Some(NormalCreate(c)) else None
  {
    var v := EncodeCreate(c);
    EncodedCreateMembers(c);
    AddressesRoundTrip(isIri, v, KTo, c.to);
    AddressesRoundTrip(isIri, v, KCc, c.cc);
    ActorReferenceRoundTrip(isIri, c.actor);
    if c.note.Object? {
      NoteRoundTrip(isIri, c.note.embedded);
    }
  }

  /** The replacement is idempotent, and changes nothing exactly when no address is an alias. */
  lemma NormalisationIsIdempotent(n: Note)
    ensures NormalNote(NormalNote(n)) == NormalNote(n)
    ensures NormalNote(n) == n <==> forall address | address in n.to || address in n.cc :: !IsAlias(address)
  {
    AliasesOnce(n.to);
    AliasesOnce(n.cc);
  }

  predicate IsAlias(address: string) {
    address == "Public" || address == "as:Public"
  }

  lemma AliasesOnce(addresses: seq<string>)
    ensures PublicAliases(PublicAliases(addresses)) == PublicAliases(addresses)
    ensures PublicAliases(addresses) == addresses <==> forall a | a in addresses :: !IsAlias(a)
  {
    assert PUBLIC_COLLECTION[0] == 'h' && "Public"[0] == 'P' && "as:Public"[0] == 'a';
    assert forall i | 0 <= i < |addresses| :: addresses[i] in addresses;
    if PublicAliases(addresses) == addresses {
      forall a | a in addresses ensures !IsAlias(a) {
        var i :| 0 <= i < |addresses| && addresses[i] == a;
        assert PublicAliases(addresses)[i] == a;
      }
    }
  }

  /******* Untyped look-ups *******/

  /** Nothing decodes as a type it does not name. */
  lemma DecodedTypes(isIri: IriTest, v: Value)
    ensures DecodeFollow(isIri, v).Some? ==> HasType(v, "Follow")
    ensures DecodeAccept(isIri, v).Some? ==> HasType(v, "Accept")
    ensures DecodeUndo(isIri, v).Some? ==> HasType(v, "Undo")
    ensures DecodeNote(isIri, v).Some? ==> HasType(v, "Note")
    ensures DecodeCreate(isIri, v).Some? ==> HasType(v, "Create")
    ensures DecodeActor(isIri, v).Some? ==>
              exists name :: HasType(v, name) && name in {"Application", "Group", "Organization", "Person", "Service"}
  {
    if DecodeActor(isIri, v).Some? {
      assert HasType(v, Get(v, KType).value.s);
    }
  }

  /** The type of a key may be missing, but not be another one. */
  lemma KeyTypeMayBeMissing(isIri: IriTest, key: CryptographicKey, kind: Value)
    requires ValidKey(isIri, key)
    ensures DecodeKey(isIri, Dict(EncodeKey(key).members - {KType})) == Some(key)
    ensures DecodeKey(isIri, Dict(EncodeKey(key).members[KType := kind]))
            == if kind == Text("CryptographicKey") then Some(key) else None
  {
  }

  /** An optional member that is null is as good as missing; a required one is not. */
  lemma NullIsMissing<T>(members: map<Key, Value>, k: Key, decode: Value -> Option<T>)
    ensures Optional(Dict(members[k := Null]), k, decode) == Optional(Dict(members - {k}), k, decode) == Some(None)
    ensures Required(Dict(members - {k}), k, decode) == None
  {
  }

  /** A single address may be written alone or as a list of one; a missing list is empty and null is refused. */
  lemma OneAddressIsAList(isIri: IriTest, members: map<Key, Value>, k: Key, address: string)
    ensures DecodeAddresses(isIri, Dict(members[k := Text(address)]), k)
            == DecodeAddresses(isIri, Dict(members[k := Array([Text(address)])]), k)
    ensures DecodeAddresses(isIri, Dict(members - {k}), k) == Some([])
    ensures DecodeAddresses(isIri, Dict(members[k := Null]), k) == None
  {
    var items := [Text(address)];
    assert AllTexts(items) && TextsOf(items) == [address];
    assert PublicAliases([address]) == [PublicAlias(address)];
    assert AllIris(isIri, [PublicAlias(address)]) <==> isIri([PublicAlias(address)][0]);
  }

  /** The two short names of the public collection are replaced by its full one, and nothing else is. */
  lemma AliasesMean(address: string)
    ensures PublicAlias(address)
            == if address in {"Public", "as:Public"} then "https://www.w3.org/ns/activitystreams#Public" else address
  {
  }

  // `value_reference_id`: a string, or the id of an object, when it is an IRI.
  function ReferenceId(isIri: IriTest, v: Value): Option<Iri> {
    var text := if v.Text? then Some(v.s) else match Get(v, KId) case None => None case Some(id) => AsText(id);
    if text.Some? && isIri(text.value) then text else None
  }

  function ActivityActorId(isIri: IriTest, v: Value): Option<Iri> {
    match Get(v, KActor)
    case None => None
    case Some(actor) => ReferenceId(isIri, actor)
  }

  function ActivityTargetId(isIri: IriTest, v: Value): Option<Iri> {
    var target :=
      if HasType(v, "Follow") then Get(v, KObject)
      else if HasType(v, "Undo") then match Get(v, KObject) case None => None case Some(follow) => Get(follow, KObject)
      else None;
    match target
    case None => None
    case Some(found) => ReferenceId(isIri, found)
  }

  lemma ActorReferencePeek(isIri: IriTest, v: Value)
    requires DecodeActorReference(isIri, v).Some?
    ensures ReferenceId(isIri, v) == Some(ActorId(DecodeActorReference(isIri, v).value))
  {
  }

  lemma FollowReferencePeek(isIri: IriTest, v: Value)
    requires DecodeFollowReference(isIri, v).Some?
    ensures ReferenceId(isIri, v) == Some(FollowId(DecodeFollowReference(isIri, v).value))
  {
  }

  /** Whenever an activity decodes, the untyped look-ups found the identifiers that the decoded activity names. */
  lemma PeeksAgreeWithDecoding(isIri: IriTest, v: Value)
    ensures DecodeFollow(isIri, v).Some? ==>
              && ActivityActorId(isIri, v) == Some(ActorId(DecodeFollow(isIri, v).value.actor))
              && ActivityTargetId(isIri, v) == Some(ActorId(DecodeFollow(isIri, v).value.target))
    ensures DecodeAccept(isIri, v).Some? ==>
              && ActivityActorId(isIri, v) == Some(ActorId(DecodeAccept(isIri, v).value.actor))
              && Get(v, KObject).Some?
              && ReferenceId(isIri, Get(v, KObject).value) == Some(FollowId(DecodeAccept(isIri, v).value.follow))
    ensures DecodeUndo(isIri, v).Some? ==>
              && ActivityActorId(isIri, v) == Some(ActorId(DecodeUndo(isIri, v).value.actor))
              && (DecodeUndo(isIri, v).value.follow.Object? ==>
                    ActivityTargetId(isIri, v) == Some(ActorId(DecodeUndo(isIri, v).value.follow.embedded.target)))
  {
    if DecodeFollow(isIri, v).Some? {
      ActorReferencePeek(isIri, Get(v, KActor).value);
      ActorReferencePeek(isIri, Get(v, KObject).value);
    }
    if DecodeAccept(isIri, v).Some? {
      ActorReferencePeek(isIri, Get(v, KActor).value);
      FollowReferencePeek(isIri, Get(v, KObject).value);
    }
    if DecodeUndo(isIri, v).Some? {
      ActorReferencePeek(isIri, Get(v, KActor).value);
      var undone := Get(v, KObject).value;
      assert |"Undo"| == 4 && |"Follow"| == 6;
      if DecodeUndo(isIri, v).value.follow.Object? {
        ActorReferencePeek(isIri, Get(undone, KObject).value);
      }
    }
  }
}
