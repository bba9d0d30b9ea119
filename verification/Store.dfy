/** The SQLite store: its tables as values, the meaning of each statement, and the class that runs them. */
module Store {
  import opened Wrappers
  import opened Vocab
  import opened Json
  import opened FollowCore
  import opened Cavage
  import opened Ordering

  datatype StoreError =
    InvalidIri(text: string) | JsonFailure | UnsupportedStoredObjectType(name: string) | ConstraintViolation
    | ActorKeyProvisioning | KeyGeneration

  // `inboxUrl` may be null in the table, although no statement writes null.
  datatype FollowerRow = FollowerRow(inboxUrl: Option<Iri>, sharedInboxUrl: Option<Iri>)

  datatype FollowState = Pending | Accepted

  datatype OutboundRow = OutboundRow(localActorId: string, remoteActorJson: Value, state: FollowState)

  datatype ObjectRow = ObjectRow(objectType: string, objectJson: Value)

  datatype FollowerDeliveryTarget = FollowerDeliveryTarget(actorId: Iri, inbox: Iri, sharedInbox: Option<Iri>)

  datatype Tables = Tables(
    followers: map<(Iri, Iri), FollowerRow>,
    keys: map<Iri, ActorKeyPair>,
    objects: map<Iri, ObjectRow>,
    outboundFollows: map<Iri, OutboundRow>)

  /******* Followers *******/

  function RowOf(follower: Actor): FollowerRow {
    FollowerRow(Some(follower.inbox), SharedInbox(follower))
  }

  function WithFollower(t: Tables, follower: Actor, following: Iri): Tables {
    t.(followers := t.followers[(follower.id, following) := RowOf(follower)])
  }

  function WithoutFollower(t: Tables, follower: Iri, following: Iri): Tables {
    t.(followers := t.followers - {(follower, following)})
  }

  function FollowersOf(t: Tables, following: Iri): set<Iri> {
    set key | key in t.followers && key.1 == following :: key.0
  }

  function DeliverableFollowersOf(t: Tables, following: Iri): set<Iri> {
    set key | key in t.followers && key.1 == following && t.followers[key].inboxUrl.Some? :: key.0
  }

  // Rows are parsed in order and the first bad one is reported.
  function ParseIris(isIri: IriTest, texts: seq<string>): Result<seq<Iri>, StoreError> {
    if texts == [] then Ok([])
    else if !isIri(texts[0]) then Err(InvalidIri(texts[0]))
    else match ParseIris(isIri, texts[1..])
      case Err(e) => Err(e)
      case Ok(rest) => Ok([texts[0]] + rest)
  }

  // What was read before, followed by what reading the rest yields.
  function Prefixed<T>(before: seq<T>, rest: Result<seq<T>, StoreError>): Result<seq<T>, StoreError> {
    match rest
    case Err(e) => Err(e)
    case Ok(items) => Ok(before + items)
  }

  lemma PrefixedMore<T>(before: seq<T>, x: T, rest: Result<seq<T>, StoreError>)
    ensures Prefixed(before + [x], rest) == Prefixed(before, Prefixed([x], rest))
  {
    if rest.Ok? {
      assert (before + [x]) + rest.value == before + ([x] + rest.value);
    }
  }

  lemma PrefixedEnds<T>(items: seq<T>, rest: Result<seq<T>, StoreError>)
    ensures Prefixed([], rest) == rest && Prefixed(items, Ok([])) == Ok(items)
  {
    assert items + [] == items;
    assert rest.Ok? ==> [] + rest.value == rest.value;
  }

  function ListedFollowers(isIri: IriTest, t: Tables, following: Iri): Result<seq<Iri>, StoreError> {
    ParseIris(isIri, Sorted(FollowersOf(t, following)))
  }

  function ParseTarget(isIri: IriTest, actorId: string, row: FollowerRow): Result<FollowerDeliveryTarget, StoreError>
    requires row.inboxUrl.Some?
  {
    if !isIri(actorId) then Err(InvalidIri(actorId))
    else if !isIri(row.inboxUrl.value) then Err(InvalidIri(row.inboxUrl.value))
    else if row.sharedInboxUrl.Some? && !isIri(row.sharedInboxUrl.value) then Err(InvalidIri(row.sharedInboxUrl.value))
    else Ok(FollowerDeliveryTarget(actorId, row.inboxUrl.value, row.sharedInboxUrl))
  }

  // Each of these actors has a row with an inbox.
  predicate AllDeliverable(t: Tables, following: Iri, actors: seq<string>) {
    forall a | a in actors :: (a, following) in t.followers && t.followers[(a, following)].inboxUrl.Some?
  }

  function ParseTargets(isIri: IriTest, t: Tables, following: Iri, actors: seq<string>)
    : Result<seq<FollowerDeliveryTarget>, StoreError>
    requires AllDeliverable(t, following, actors)
  {
    if actors == [] then Ok([])
    else
      match ParseTarget(isIri, actors[0], t.followers[(actors[0], following)])
      case Err(e) => Err(e)
      case Ok(target) =>
        match ParseTargets(isIri, t, following, actors[1..])
        case Err(e) => Err(e)
        case Ok(rest) => Ok([target] + rest)
  }

  // Each target holds what the row of its actor holds.
  predicate TargetsAreRows(t: Tables, following: Iri, targets: seq<FollowerDeliveryTarget>) {
    forall i | 0 <= i < |targets| ::
      && (targets[i].actorId, following) in t.followers
      && t.followers[(targets[i].actorId, following)] == FollowerRow(Some(targets[i].inbox), targets[i].sharedInbox)
  }

  function DeliveryTargets(isIri: IriTest, t: Tables, following: Iri): Result<seq<FollowerDeliveryTarget>, StoreError> {
    var actors := DeliverableFollowersOf(t, following);
    SortedLists(actors);
    ParseTargets(isIri, t, following, Sorted(actors))
  }

  /******* Outbound follows *******/

  // Inserted as pending, or replacing a row that is still pending; an accepted row is left alone.
  function WithPendingFollow(t: Tables, p: PendingFollow): Tables {
    var id := p.followActivity;
    if id in t.outboundFollows && t.outboundFollows[id].state == Accepted then t
    else t.(outboundFollows := t.outboundFollows[id := OutboundRow(p.localActor, EncodeActor(p.remoteActor), Pending)])
  }

  function DecodeRow(isIri: IriTest, id: Iri, row: OutboundRow): Result<PendingFollow, StoreError> {
    if !isIri(row.localActorId) then Err(InvalidIri(row.localActorId))
    else match DecodeActor(isIri, row.remoteActorJson)
      case None => Err(JsonFailure)
      case Some(remote) => Ok(PendingFollow(row.localActorId, remote, id))
  }

  function LoadedPendingFollow(isIri: IriTest, t: Tables, id: Iri): Result<Option<PendingFollow>, StoreError> {
    if id !in t.outboundFollows || t.outboundFollows[id].state != Pending then Ok(None)
    else match DecodeRow(isIri, id, t.outboundFollows[id])
      case Err(e) => Err(e)
      case Ok(p) => Ok(Some(p))
  }

  // The tables after confirming, and whether the row was turned into an accepted one.
  function Confirmed(isIri: IriTest, t: Tables, expected: PendingFollow): (Tables, Result<bool, StoreError>) {
    var id := expected.followActivity;
    match LoadedPendingFollow(isIri, t, id)
    case Err(e) => (t, Err(e))
    case Ok(stored) =>
      if stored != Some(expected) then (t, Ok(false))
      else (t.(outboundFollows := t.outboundFollows[id := t.outboundFollows[id].(state := Accepted)]), Ok(true))
  }

  /******* Notes *******/

  function WithNote(t: Tables, note: Note): Tables {
    t.(objects := t.objects[note.id := ObjectRow("Note", EncodeNote(note))])
  }

  function LoadedNote(isIri: IriTest, t: Tables, id: Iri): Result<Option<Note>, StoreError> {
    if id !in t.objects then Ok(None)
    else if t.objects[id].objectType != "Note" then Err(UnsupportedStoredObjectType(t.objects[id].objectType))
    else match DecodeNote(isIri, t.objects[id].objectJson)
      case None => Err(JsonFailure)
      case Some(note) => Ok(Some(note))
  }

  /******* Keys *******/

  // The key table after loading or provisioning a pair, and the pair. Generating a pair takes no lock, so
  // others may insert rows `meanwhile`; an existing identity is never replaced.
  function Provisioned(
    keys: map<Iri, ActorKeyPair>, actorId: Iri, generated: Option<ActorKeyPair>, meanwhile: map<Iri, ActorKeyPair>)
    : (map<Iri, ActorKeyPair>, Result<ActorKeyPair, StoreError>)
  {
    var later := meanwhile + keys;
    if actorId in keys then (keys, Ok(keys[actorId]))
    else if generated.None? then (later, Err(KeyGeneration))
    else if actorId in later then (later, Ok(later[actorId]))
    else (later[actorId := generated.value], Ok(generated.value))
  }

  /******* The store *******/

  class SqliteStore {
    var followers: map<(Iri, Iri), FollowerRow>
    var keys: map<Iri, ActorKeyPair>
    var objects: map<Iri, ObjectRow>
    var outboundFollows: map<Iri, OutboundRow>
    const isIri: IriTest

    function Contents(): Tables
      reads this
    {
      Tables(followers, keys, objects, outboundFollows)
    }

    constructor OpenInMemory(isIri: IriTest)
      ensures Contents() == Tables(map[], map[], map[], map[]) && this.isIri == isIri
    {
      followers, keys, objects, outboundFollows := map[], map[], map[], map[];
      this.isIri := isIri;
    }

    method StoreFollower(follower: Actor, following: Iri)
      modifies this`followers
      ensures Contents() == WithFollower(old(Contents()), follower, following)
    {
      followers := followers[(follower.id, following) := FollowerRow(Some(follower.inbox), SharedInbox(follower))];
    }

    method RemoveFollower(follower: Iri, following: Iri)
      modifies this`followers
      ensures Contents() == WithoutFollower(old(Contents()), follower, following)
    {
      followers := followers - {(follower, following)};
    }

    method ListFollowers(following: Iri) returns (r: Result<seq<Iri>, StoreError>)
      ensures r == ListedFollowers(isIri, Contents(), following)
      ensures r.Ok? ==> StrictlyIncreasing(r.value) && forall a :: a in r.value <==> (a, following) in followers
      ensures r.Err? ==> exists a :: (a, following) in followers && !isIri(a) && r.error == InvalidIri(a)
    {
      var rows := Sorted(FollowersOf(Contents(), following));
      ListedMeans(isIri, Contents(), following);
      var listed: seq<Iri> := [];
      PrefixedEnds(listed, ParseIris(isIri, rows));
      assert rows[0..] == rows;
      for i := 0 to |rows|
        invariant ParseIris(isIri, rows) == Prefixed(listed, ParseIris(isIri, rows[i..]))
      {
        assert rows[i..][1..] == rows[i + 1..];
        if !isIri(rows[i]) {
          return Err(InvalidIri(rows[i]));
        }
        PrefixedMore(listed, rows[i], ParseIris(isIri, rows[i + 1..]));
        listed := listed + [rows[i]];
      }
      PrefixedEnds(listed, ParseIris(isIri, []));
      return Ok(listed);
    }

    method ListFollowerDeliveryTargets(localActor: Iri) returns (r: Result<seq<FollowerDeliveryTarget>, StoreError>)
      ensures r == DeliveryTargets(isIri, Contents(), localActor)
      ensures r.Ok? ==>
                && TargetsAreRows(Contents(), localActor, r.value)
                && forall i, j | 0 <= i < j < |r.value| ::
                     LexLeq(r.value[i].actorId, r.value[j].actorId) && r.value[i].actorId != r.value[j].actorId
    {
      var rows := Sorted(DeliverableFollowersOf(Contents(), localActor));
      TargetsMean(isIri, Contents(), localActor);
      SortedLists(DeliverableFollowersOf(Contents(), localActor));
      assert AllDeliverable(Contents(), localActor, rows);
      var targets: seq<FollowerDeliveryTarget> := [];
      PrefixedEnds(targets, ParseTargets(isIri, Contents(), localActor, rows));
      assert rows[0..] == rows;
      for i := 0 to |rows|
        invariant ParseTargets(isIri, Contents(), localActor, rows)
                  == Prefixed(targets, ParseTargets(isIri, Contents(), localActor, rows[i..]))
      {
        assert rows[i..][1..] == rows[i + 1..] && rows[i] in rows;
        var target := ParseTarget(isIri, rows[i], followers[(rows[i], localActor)]);
        if target.Err? {
          return Err(target.error);
        }
        PrefixedMore(targets, target.value, ParseTargets(isIri, Contents(), localActor, rows[i + 1..]));
        targets := targets + [target.value];
      }
      PrefixedEnds(targets, ParseTargets(isIri, Contents(), localActor, []));
      return Ok(targets);
    }

    method StorePendingFollow(follow: PendingFollow)
      modifies this`outboundFollows
      ensures Contents() == WithPendingFollow(old(Contents()), follow)
    {
      var id, remoteActorJson := follow.followActivity, EncodeActor(follow.remoteActor);
      if id !in outboundFollows {
        outboundFollows := outboundFollows[id := OutboundRow(follow.localActor, remoteActorJson, Pending)];
      } else if outboundFollows[id].state == Pending {
        outboundFollows := outboundFollows[
          id := outboundFollows[id].(localActorId := follow.localActor, remoteActorJson := remoteActorJson)];
      }
    }

    method LoadPendingFollow(followActivity: Iri) returns (r: Result<Option<PendingFollow>, StoreError>)
      ensures r == LoadedPendingFollow(isIri, Contents(), followActivity)
    {
      r := LoadedPendingFollow(isIri, Contents(), followActivity);
    }

    method ConfirmPendingFollow(expected: PendingFollow) returns (r: Result<bool, StoreError>)
      modifies this`outboundFollows
      ensures (Contents(), r) == Confirmed(isIri, old(Contents()), expected)
    {
      var stored := LoadPendingFollow(expected.followActivity);
      if stored.Err? {
        return Err(stored.error);
      }
      if stored.value != Some(expected) {
        return Ok(false);
      }
      var id, changed := expected.followActivity, 0;
      if id in outboundFollows && outboundFollows[id].state == Pending {
        outboundFollows, changed := outboundFollows[id := outboundFollows[id].(state := Accepted)], 1;
      }
      return Ok(changed == 1);
    }

    method InsertActorKeyPair(actorId: Iri, pair: ActorKeyPair) returns (r: Result<(), StoreError>)
      modifies this`keys
      ensures r == if actorId in old(keys) then Err(ConstraintViolation) else Ok(())
      ensures keys == if r.Ok? then old(keys)[actorId := pair] else old(keys)
    {
      if actorId in keys {
        return Err(ConstraintViolation);
      }
      keys := keys[actorId := pair];
      return Ok(());
    }

    method LoadActorKeyPair(actorId: Iri) returns (r: Option<ActorKeyPair>)
      ensures r == if actorId in keys then Some(keys[actorId]) else None
    {
      r := if actorId in keys then Some(keys[actorId]) else None;
    }

    // `generated` is what generating a pair would yield, if it is needed; others insert `meanwhile`.
    method LoadOrInsertActorKeyPair(actorId: Iri, generated: Option<ActorKeyPair>, meanwhile: map<Iri, ActorKeyPair>)
      returns (r: Result<ActorKeyPair, StoreError>)
      modifies this`keys
      ensures (keys, r) == Provisioned(old(keys), actorId, generated, meanwhile)
    {
      var loaded := LoadActorKeyPair(actorId);
      if loaded.Some? {
        return Ok(loaded.value);
      }
      keys := meanwhile + keys;
      if generated.None? {
        return Err(KeyGeneration);
      }
      var inserted := 0;
      if actorId !in keys {
        keys, inserted := keys[actorId := generated.value], 1;
      }
      if inserted == 1 {
        return Ok(generated.value);
      }
      var stored := LoadActorKeyPair(actorId);
      return if stored.Some? then Ok(stored.value) else Err(ActorKeyProvisioning);
    }

    method StoreNote(note: Note)
      modifies this`objects
      ensures Contents() == WithNote(old(Contents()), note)
    {
      objects := objects[note.id := ObjectRow("Note", EncodeNote(note))];
    }

    method LoadNote(noteId: Iri) returns (r: Result<Option<Note>, StoreError>)
      ensures r == LoadedNote(isIri, Contents(), noteId)
    {
      r := LoadedNote(isIri, Contents(), noteId);
    }
  }

  /******* What the statements mean together *******/

  predicate ValidPending(isIri: IriTest, p: PendingFollow) {
    isIri(p.localActor) && ValidActor(isIri, p.remoteActor)
  }

  /** A stored relationship is loaded back exactly as it was, unless its row was already accepted. */
  lemma LoadAfterStore(isIri: IriTest, t: Tables, p: PendingFollow)
    requires ValidPending(isIri, p)
    ensures LoadedPendingFollow(isIri, WithPendingFollow(t, p), p.followActivity)
            == if p.followActivity in t.outboundFollows && t.outboundFollows[p.followActivity].state == Accepted
               then Ok(None) else Ok(Some(p))
  {
    ActorRoundTrip(isIri, p.remoteActor);
  }

  /**
   Confirming succeeds exactly when the row is pending and decodes to the expected relationship; it
   then only turns that row into an accepted one, so a second confirmation of any relationship with
   the same id cannot succeed, and no later store statement changes the row.
   */
  lemma ConfirmOnce(isIri: IriTest, t: Tables, p: PendingFollow)
    ensures Confirmed(isIri, t, p).1 == Ok(true) <==>
            p.followActivity in t.outboundFollows && t.outboundFollows[p.followActivity].state == Pending
            && DecodeRow(isIri, p.followActivity, t.outboundFollows[p.followActivity]) == Ok(p)
    ensures Confirmed(isIri, t, p).1 != Ok(true) ==> Confirmed(isIri, t, p).0 == t
    ensures Confirmed(isIri, t, p).1 == Ok(true) ==>
              var t' := Confirmed(isIri, t, p).0;
              && t'.outboundFollows
                 == t.outboundFollows[p.followActivity := t.outboundFollows[p.followActivity].(state := Accepted)]
              && t'.followers == t.followers && t'.keys == t.keys && t'.objects == t.objects
              && forall q: PendingFollow | q.followActivity == p.followActivity ::
                   Confirmed(isIri, t', q) == (t', Ok(false)) && WithPendingFollow(t', q) == t'
  {
  }

  /**
   Provisioning leaves the returned pair stored under the actor and every existing row as it was, so
   provisioning again, whatever is generated or inserted then, returns the same pair.
   */
  lemma ProvisionedOnce(
    keys: map<Iri, ActorKeyPair>, actorId: Iri, generated: Option<ActorKeyPair>, meanwhile: map<Iri, ActorKeyPair>,
    again: Option<ActorKeyPair>, later: map<Iri, ActorKeyPair>)
    ensures var (keys', r) := Provisioned(keys, actorId, generated, meanwhile);
            && (forall a | a in keys :: a in keys' && keys'[a] == keys[a])
            && (r.Ok? <==> actorId in keys || generated.Some?)
            && (r.Ok? ==> actorId in keys' && keys'[actorId] == r.value)
            && (actorId in keys ==> keys' == keys)
            && (actorId !in keys ==> keys'.Keys == keys.Keys + meanwhile.Keys + if r.Ok? then {actorId} else {})
            && (actorId !in keys && actorId in meanwhile && generated.Some? ==> r == Ok(meanwhile[actorId]))
            && (actorId !in keys && actorId !in meanwhile && generated.Some? ==> r == Ok(generated.value))
            && (r.Err? ==> r == Err(KeyGeneration))
            && (r.Ok? ==> Provisioned(keys', actorId, again, later) == (keys', r))
  {
  }

  /** Loading a stored note yields it with the public collection's aliases replaced. */
  lemma LoadNoteAfterStore(isIri: IriTest, t: Tables, note: Note)
    requires ValidNote(isIri, note)
    ensures LoadedNote(isIri, WithNote(t, note), note.id) == Ok(Some(NormalNote(note)))
  {
    NoteRoundTrip(isIri, note);
  }

  /** Loading a note: nothing for an unknown id, an error naming the type of another object, or the decoded note. */
  lemma LoadedNoteMeans(isIri: IriTest, t: Tables, id: Iri)
    ensures LoadedNote(isIri, t, id) == Ok(None) <==> id !in t.objects
    ensures id in t.objects && t.objects[id].objectType != "Note" ==>
              LoadedNote(isIri, t, id) == Err(UnsupportedStoredObjectType(t.objects[id].objectType))
    ensures forall note ::
              LoadedNote(isIri, t, id) == Ok(Some(note)) <==>
                && id in t.objects && t.objects[id].objectType == "Note"
                && DecodeNote(isIri, t.objects[id].objectJson) == Some(note)
    ensures LoadedNote(isIri, t, id) == Err(JsonFailure) <==>
              && id in t.objects && t.objects[id].objectType == "Note"
              && DecodeNote(isIri, t.objects[id].objectJson) == None
  {
  }

  function RowTexts(actorId: string, row: FollowerRow): seq<string>
    requires row.inboxUrl.Some?
  {
    [actorId, row.inboxUrl.value] + if row.sharedInboxUrl.Some? then [row.sharedInboxUrl.value] else []
  }

  /** The text a target cannot be read for: the actor's, else the inbox's, else the shared inbox's. */
  lemma ParseTargetMeans(isIri: IriTest, actorId: string, row: FollowerRow)
    requires row.inboxUrl.Some?
    ensures var texts := RowTexts(actorId, row);
            match ParseTarget(isIri, actorId, row)
            case Ok(target) =>
              && (forall i | 0 <= i < |texts| :: isIri(texts[i]))
              && target == FollowerDeliveryTarget(actorId, row.inboxUrl.value, row.sharedInboxUrl)
            case Err(e) =>
              exists i | 0 <= i < |texts| ::
                e == InvalidIri(texts[i]) && !isIri(texts[i]) && forall j | 0 <= j < i :: isIri(texts[j])
  {
    var texts := RowTexts(actorId, row);
    assert texts[0] == actorId && texts[1] == row.inboxUrl.value;
    assert row.sharedInboxUrl.Some? ==> texts[2] == row.sharedInboxUrl.value;
  }

  /******* The follower table over a whole history *******/

  datatype FollowerEvent = Followed(actor: Actor, following: Iri) | Unfollowed(follower: Iri, following: Iri)

  function Apply(t: Tables, e: FollowerEvent): Tables {
    match e
    case Followed(actor, following) => WithFollower(t, actor, following)
    case Unfollowed(follower, following) => WithoutFollower(t, follower, following)
  }

  function Replay(t: Tables, events: seq<FollowerEvent>): Tables {
    if events == [] then t else Apply(Replay(t, events[..|events| - 1]), events[|events| - 1])
  }

  predicate Concerns(e: FollowerEvent, follower: Iri, following: Iri) {
    e.following == following && follower == if e.Followed? then e.actor.id else e.follower
  }

  // The last event about this pair is number `i`.
  ghost predicate IsLast(events: seq<FollowerEvent>, i: int, follower: Iri, following: Iri) {
    && 0 <= i < |events| && Concerns(events[i], follower, following)
    && forall j | i < j < |events| :: !Concerns(events[j], follower, following)
  }

  ghost predicate Follows(events: seq<FollowerEvent>, follower: Iri, following: Iri) {
    exists i :: IsLast(events, i, follower, following) && events[i].Followed?
  }

  /**
   After any history on an empty table a row is there exactly when the last event about its pair is
   a Follow, and it then holds the inboxes the follower had in that last Follow.
   */
  lemma {:induction false} ReplayIsLastEvent(t: Tables, events: seq<FollowerEvent>, follower: Iri, following: Iri)
    requires t.followers == map[]
    ensures (follower, following) in Replay(t, events).followers <==> Follows(events, follower, following)
    ensures forall i | IsLast(events, i, follower, following) && events[i].Followed? ::
              (follower, following) in Replay(t, events).followers
              && Replay(t, events).followers[(follower, following)] == RowOf(events[i].actor)
  {
    if events != [] {
      var n := |events| - 1;
      var before := events[..n];
      ReplayIsLastEvent(t, before, follower, following);
      if Concerns(events[n], follower, following) {
        assert IsLast(events, n, follower, following);
        forall i | IsLast(events, i, follower, following) ensures i == n {
        }
      } else {
        forall i ensures IsLast(events, i, follower, following) <==> IsLast(before, i, follower, following) {
          if IsLast(before, i, follower, following) {
            forall j | i < j < |events| ensures !Concerns(events[j], follower, following) {
              if j < n {
                assert before[j] == events[j];
              }
            }
          }
          if IsLast(events, i, follower, following) {
            assert i < n && forall j | i < j < n :: before[j] == events[j];
          }
        }
      }
    }
  }

  lemma {:induction false} ParsedIrisMean(isIri: IriTest, texts: seq<string>)
    ensures match ParseIris(isIri, texts)
            case Ok(parsed) => parsed == texts
            case Err(e) => exists a :: a in texts && !isIri(a) && e == InvalidIri(a)
  {
    if texts != [] {
      ParsedIrisMean(isIri, texts[1..]);
      assert texts == [texts[0]] + texts[1..];
    }
  }

  lemma ListedMeans(isIri: IriTest, t: Tables, following: Iri)
    ensures match ListedFollowers(isIri, t, following)
            case Ok(listed) => StrictlyIncreasing(listed) && forall a :: a in listed <==> (a, following) in t.followers
            case Err(e) => exists a :: (a, following) in t.followers && !isIri(a) && e == InvalidIri(a)
  {
    var actors := FollowersOf(t, following);
    SortedLists(actors);
    ParsedIrisMean(isIri, Sorted(actors));
    forall a ensures a in actors <==> (a, following) in t.followers {
      FollowersOfMeans(t, following, a);
    }
  }

  lemma {:induction false} ParsedTargetsMean(isIri: IriTest, t: Tables, following: Iri, actors: seq<string>)
    requires AllDeliverable(t, following, actors)
    ensures var r := ParseTargets(isIri, t, following, actors);
            r.Ok? ==>
              && |r.value| == |actors| && TargetsAreRows(t, following, r.value)
              && forall i | 0 <= i < |actors| :: r.value[i].actorId == actors[i]
  {
    if actors != [] {
      ParsedTargetsMean(isIri, t, following, actors[1..]);
    }
  }

  lemma TargetsMean(isIri: IriTest, t: Tables, following: Iri)
    ensures var r := DeliveryTargets(isIri, t, following);
            r.Ok? ==>
              && TargetsAreRows(t, following, r.value)
              && forall i, j | 0 <= i < j < |r.value| ::
                   LexLeq(r.value[i].actorId, r.value[j].actorId) && r.value[i].actorId != r.value[j].actorId
  {
    var actors := DeliverableFollowersOf(t, following);
    SortedLists(actors);
    ParsedTargetsMean(isIri, t, following, Sorted(actors));
  }

  lemma {:induction false} ParseIrisAccepts(isIri: IriTest, texts: seq<string>)
    requires forall i | 0 <= i < |texts| :: isIri(texts[i])
    ensures ParseIris(isIri, texts) == Ok(texts)
  {
    if texts != [] {
      ParseIrisAccepts(isIri, texts[1..]);
      assert texts == [texts[0]] + texts[1..];
    }
  }

  lemma FollowersOfMeans(t: Tables, following: Iri, a: Iri)
    ensures a in FollowersOf(t, following) <==> (a, following) in t.followers
  {
    assert (a, following).0 == a;
  }

  lemma FollowersAreIris(isIri: IriTest, events: seq<FollowerEvent>, following: Iri, actors: seq<string>)
    requires forall i | 0 <= i < |events| && events[i].Followed? :: ValidActor(isIri, events[i].actor)
    requires forall a | a in actors :: Follows(events, a, following)
    ensures ParseIris(isIri, actors) == Ok(actors)
  {
    forall i | 0 <= i < |actors| ensures isIri(actors[i]) {
      assert actors[i] in actors;
      var k :| IsLast(events, k, actors[i], following) && events[k].Followed?;
    }
    ParseIrisAccepts(isIri, actors);
  }

  /** The listing after any history: the actors whose last event is a Follow, in strictly increasing order. */
  lemma ListAfterReplay(isIri: IriTest, t: Tables, events: seq<FollowerEvent>, following: Iri)
    requires t.followers == map[]
    requires forall i | 0 <= i < |events| && events[i].Followed? :: ValidActor(isIri, events[i].actor)
    ensures var listed := ListedFollowers(isIri, Replay(t, events), following);
            && listed.Ok? && StrictlyIncreasing(listed.value)
            && forall a :: a in listed.value <==> Follows(events, a, following)
  {
    var t' := Replay(t, events);
    var actors := FollowersOf(t', following);
    SortedLists(actors);
    forall a ensures a in actors <==> Follows(events, a, following) {
      ReplayIsLastEvent(t, events, a, following);
      FollowersOfMeans(t', following, a);
    }
    FollowersAreIris(isIri, events, following, Sorted(actors));
  }

  lemma {:induction false} ParseTargetsAccepts(isIri: IriTest, t: Tables, following: Iri, actors: seq<string>)
    requires forall a | a in actors ::
               && (a, following) in t.followers && t.followers[(a, following)].inboxUrl.Some?
               && ParseTarget(isIri, a, t.followers[(a, following)]).Ok?
    ensures var r := ParseTargets(isIri, t, following, actors);
            && r.Ok? && |r.value| == |actors|
            && forall i | 0 <= i < |actors| ::
                 Ok(r.value[i]) == ParseTarget(isIri, actors[i], t.followers[(actors[i], following)])
  {
    if actors != [] {
      ParseTargetsAccepts(isIri, t, following, actors[1..]);
    }
  }

  /**
   Delivery targets after any history name the listed followers in the same order, with the inboxes
   of their latest Follow.
   */
  lemma TargetsAfterReplay(isIri: IriTest, t: Tables, events: seq<FollowerEvent>, following: Iri)
    requires t.followers == map[]
    requires forall i | 0 <= i < |events| && events[i].Followed? :: ValidActor(isIri, events[i].actor)
    ensures var targets := DeliveryTargets(isIri, Replay(t, events), following);
            var listed := ListedFollowers(isIri, Replay(t, events), following);
            && targets.Ok? && listed.Ok? && |targets.value| == |listed.value|
            && forall i | 0 <= i < |targets.value| ::
                 exists k :: IsLast(events, k, listed.value[i], following) && events[k].Followed?
                          && targets.value[i] == FollowerDeliveryTarget(
                               listed.value[i], events[k].actor.inbox, SharedInbox(events[k].actor))
  {
    var t' := Replay(t, events);
    ListAfterReplay(isIri, t, events, following);
    FollowersAreTargets(isIri, t, events, following);
    AllAreDeliverable(t', following);
    SortedLists(FollowersOf(t', following));
    var listed := Sorted(FollowersOf(t', following));
    FollowersAreIris(isIri, events, following, listed);
    TargetsAreParsed(isIri, t', events, following, listed);
  }

  lemma FollowersAreTargets(isIri: IriTest, t: Tables, events: seq<FollowerEvent>, following: Iri)
    requires t.followers == map[]
    requires forall i | 0 <= i < |events| && events[i].Followed? :: ValidActor(isIri, events[i].actor)
    ensures forall a | a in FollowersOf(Replay(t, events), following) ::
              TargetOfLastFollow(isIri, Replay(t, events), events, a, following) && Follows(events, a, following)
  {
    forall a | a in FollowersOf(Replay(t, events), following)
      ensures TargetOfLastFollow(isIri, Replay(t, events), events, a, following) && Follows(events, a, following)
    {
      FollowersOfMeans(Replay(t, events), following, a);
      FollowerRowIsRead(isIri, t, events, a, following);
    }
  }

  lemma TargetsAreParsed(isIri: IriTest, t: Tables, events: seq<FollowerEvent>, following: Iri, listed: seq<string>)
    requires forall a | a in listed :: (a, following) in t.followers && t.followers[(a, following)].inboxUrl.Some?
    requires forall a | a in listed :: TargetOfLastFollow(isIri, t, events, a, following)
    ensures var targets := ParseTargets(isIri, t, following, listed);
            && targets.Ok? && |targets.value| == |listed|
            && forall i | 0 <= i < |listed| ::
                 exists k :: IsLast(events, k, listed[i], following) && events[k].Followed?
                          && targets.value[i] == FollowerDeliveryTarget(
                               listed[i], events[k].actor.inbox, SharedInbox(events[k].actor))
  {
    ParseTargetsAccepts(isIri, t, following, listed);
    forall i | 0 <= i < |listed| ensures TargetOfLastFollow(isIri, t, events, listed[i], following) {
      assert listed[i] in listed;
    }
  }

  lemma AllAreDeliverable(t: Tables, following: Iri)
    requires forall a | a in FollowersOf(t, following) ::
               (a, following) in t.followers && t.followers[(a, following)].inboxUrl.Some?
    ensures DeliverableFollowersOf(t, following) == FollowersOf(t, following)
  {
    var actors := FollowersOf(t, following);
    assert forall key | key in t.followers && key.1 == following :: key.0 in actors;
    assert forall a | a in actors :: (a, following).0 == a && (a, following).1 == following;
  }

  ghost predicate TargetOfLastFollow(isIri: IriTest, t: Tables, events: seq<FollowerEvent>, a: Iri, following: Iri) {
    && (a, following) in t.followers && t.followers[(a, following)].inboxUrl.Some?
    && exists k :: IsLast(events, k, a, following) && events[k].Followed?
                && ParseTarget(isIri, a, t.followers[(a, following)])
                   == Ok(FollowerDeliveryTarget(a, events[k].actor.inbox, SharedInbox(events[k].actor)))
  }

  lemma FollowerRowIsRead(isIri: IriTest, t: Tables, events: seq<FollowerEvent>, a: Iri, following: Iri)
    requires t.followers == map[]
    requires forall i | 0 <= i < |events| && events[i].Followed? :: ValidActor(isIri, events[i].actor)
    requires (a, following) in Replay(t, events).followers
    ensures TargetOfLastFollow(isIri, Replay(t, events), events, a, following) && Follows(events, a, following)
  {
    ReplayIsLastEvent(t, events, a, following);
    var k :| IsLast(events, k, a, following) && events[k].Followed?;
    assert a == events[k].actor.id;
  }
}
