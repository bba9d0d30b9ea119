/** Publishing a note: it is stored, its recipients are resolved, and every inbox is attempted. */
module NoteCreation {
  import opened Wrappers
  import opened Vocab
  import opened Store
  import opened NoteDelivery
  import opened Json
  import RequestAuth

  datatype CreateNoteError =
    | ActorDispatcher(message: string)
    | LocalActorNotFound(localActor: Iri)
    | Storage(cause: StoreError)
    | ActorResolver(unresolved: ResolveError)
    | MissingActorKey(owner: Iri)
    | ActivitySender(unsent: RequestAuth.SendError)

  /** What others see of the run, in order. */
  datatype Effect =
    | StoreNote(note: Note)
    | Resolve(actorId: Iri)
    | LoadKey(owner: Iri)
    | Send(inbox: Iri, activity: Create)

  datatype Publication = Publication(result: Result<CreateNoteOutcome, CreateNoteError>, effects: seq<Effect>)

  function Resolves(asked: seq<Iri>): seq<Effect> {
    seq(|asked|, i requires 0 <= i < |asked| => Resolve(asked[i]))
  }

  function Sends(inboxes: seq<Iri>, activity: Create): seq<Effect> {
    seq(|inboxes|, i requires 0 <= i < |inboxes| => Send(inboxes[i], activity))
  }

  function FirstSendError(e: Environment, n: nat): Option<RequestAuth.SendError> {
    if n == 0 then None
    else if FirstSendError(e, n - 1).Some? then FirstSendError(e, n - 1)
    else e.sent(n - 1)
  }

  function Verdict(outcome: CreateNoteOutcome, sendError: Option<RequestAuth.SendError>, failure: Option<ResolveError>)
    : Result<CreateNoteOutcome, CreateNoteError>
  {
    if sendError.Some? then Err(ActivitySender(sendError.value))
    else if failure.Some? then Err(ActorResolver(failure.value))
    else Ok(outcome)
  }

  function Published(localActorId: Iri, input: CreateNoteInput, e: Environment): Publication {
    match e.dispatched
    case Err(message) => Publication(Err(ActorDispatcher(message)), [])
    case Ok(None) => Publication(Err(LocalActorNotFound(localActorId)), [])
    case Ok(Some(local)) =>
      var outcome := Created(local, input);
      if e.stored.Err? then Publication(Err(Storage(e.stored.error)), [StoreNote(outcome.note)])
      else
        var (resolution, asked) := Resolution(outcome.recipients, e);
        if resolution.Err? then Publication(Err(Storage(resolution.error)), [StoreNote(outcome.note)])
        else
          var (inboxes, failure) := resolution.value;
          var before := [StoreNote(outcome.note)] + Resolves(asked);
          if inboxes == [] then Publication(Verdict(outcome, None, failure), before)
          else match e.key
            case Err(cause) => Publication(Err(Storage(cause)), before + [LoadKey(local.id)])
            case Ok(None) => Publication(Err(MissingActorKey(local.id)), before + [LoadKey(local.id)])
            case Ok(Some(_)) =>
              Publication(Verdict(outcome, FirstSendError(e, |inboxes|), failure),
                          before + [LoadKey(local.id)] + Sends(inboxes, outcome.activity))
  }

  method CreateNote(localActorId: Iri, input: CreateNoteInput, e: Environment)
    returns (result: Result<CreateNoteOutcome, CreateNoteError>, effects: seq<Effect>)
    ensures Publication(result, effects) == Published(localActorId, input, e)
  {
    effects := [];
    if e.dispatched.Err? {
      return Err(ActorDispatcher(e.dispatched.error)), effects;
    }
    if e.dispatched.value.None? {
      return Err(LocalActorNotFound(localActorId)), effects;
    }
    var local := e.dispatched.value.value;
    var outcome := CreateNoteOutcomeFor(local, input);
    effects := effects + [StoreNote(outcome.note)];
    if e.stored.Err? {
      return Err(Storage(e.stored.error)), effects;
    }
    var resolution, asked := ResolveNoteRecipients(outcome.recipients, e);
    effects := effects + Resolves(asked);
    if resolution.Err? {
      return Err(Storage(resolution.error)), effects;
    }
    var (inboxes, failure) := resolution.value;
    if inboxes == [] {
      return if failure.Some? then Err(ActorResolver(failure.value)) else Ok(outcome), effects;
    }
    effects := effects + [LoadKey(local.id)];
    if e.key.Err? {
      return Err(Storage(e.key.error)), effects;
    }
    if e.key.value.None? {
      return Err(MissingActorKey(local.id)), effects;
    }
    var firstSendError, sends := SendAll(inboxes, outcome.activity, e);
    effects := effects + sends;
    result := Verdict(outcome, firstSendError, failure);
  }

  // Every inbox is attempted; the first error is kept.
  method SendAll(inboxes: seq<Iri>, activity: Create, e: Environment)
    returns (firstSendError: Option<RequestAuth.SendError>, effects: seq<Effect>)
    ensures firstSendError == FirstSendError(e, |inboxes|) && effects == Sends(inboxes, activity)
  {
    firstSendError, effects := None, [];
    for i := 0 to |inboxes|
      invariant firstSendError == FirstSendError(e, i) && effects == Sends(inboxes, activity)[..i]
    {
      effects := effects + [Send(inboxes[i], activity)];
      var error := e.sent(i);
      if error.Some? && firstSendError.None? {
        firstSendError := error;
      }
    }
  }

  /******* What publishing promises *******/

  // The run got as far as a list of inboxes.
  predicate Resolved(input: CreateNoteInput, e: Environment) {
    && e.dispatched.Ok? && e.dispatched.value.Some? && e.stored.Ok?
    && Resolution(Created(e.dispatched.value.value, input).recipients, e).0.Ok?
  }

  function Outcome(input: CreateNoteInput, e: Environment): CreateNoteOutcome
    requires Resolved(input, e)
  {
    Created(e.dispatched.value.value, input)
  }

  function Inboxes(input: CreateNoteInput, e: Environment): seq<Iri>
    requires Resolved(input, e)
  {
    Resolution(Outcome(input, e).recipients, e).0.value.0
  }

  predicate HasKey(e: Environment) {
    e.key.Ok? && e.key.value.Some?
  }

  function SentTo(effects: seq<Effect>): seq<Iri> {
    if effects == [] then []
    else
      var before, last := SentTo(effects[..|effects| - 1]), effects[|effects| - 1];
      if last.Send? then before + [last.inbox] else before
  }

  lemma {:induction false} SentToConcat(a: seq<Effect>, b: seq<Effect>)
    ensures SentTo(a + b) == SentTo(a) + SentTo(b)
  {
    if b == [] {
      assert a + b == a;
    } else {
      SentToConcat(a, b[..|b| - 1]);
      assert (a + b)[..|a + b| - 1] == a + b[..|b| - 1];
    }
  }

  lemma {:induction false} SentToSends(inboxes: seq<Iri>, activity: Create)
    ensures SentTo(Sends(inboxes, activity)) == inboxes
  {
    if inboxes != [] {
      var n := |inboxes| - 1;
      SentToSends(inboxes[..n], activity);
      assert Sends(inboxes, activity)[..n] == Sends(inboxes[..n], activity);
    }
  }

  lemma {:induction false} NothingSent(effects: seq<Effect>)
    requires forall i | 0 <= i < |effects| :: !effects[i].Send?
    ensures SentTo(effects) == []
  {
    if effects != [] {
      NothingSent(effects[..|effects| - 1]);
    }
  }

  /** The note is stored before anything else is done, and nothing is sent before the key is loaded. */
  lemma NoteIsStoredFirst(localActorId: Iri, input: CreateNoteInput, e: Environment)
    ensures var effects := Published(localActorId, input, e).effects;
            && (forall i | 0 <= i < |effects| :: effects[i].StoreNote? <==> i == 0)
            && (|effects| > 1 ==> e.stored.Ok?)
            && (effects != [] ==>
                  e.dispatched.Ok? && e.dispatched.value.Some?
                    && effects[0].note == Created(e.dispatched.value.value, input).note)
            && (forall i, j | 0 <= i < |effects| && 0 <= j < |effects| && effects[i].Send? && effects[j].LoadKey? ::
                  j < i)
            && (forall i | 0 <= i < |effects| && effects[i].Send? ::
                  HasKey(e) && exists j :: 0 <= j < i && effects[j] == LoadKey(e.dispatched.value.value.id))
            && (forall i | 0 <= i < |effects| && effects[i].Send? ::
                  effects[i].activity.note == Object(effects[0].note))
  {
    var effects := Published(localActorId, input, e).effects;
    forall i | 0 <= i < |effects| && effects[i].Send?
      ensures HasKey(e) && exists j :: 0 <= j < i && effects[j] == LoadKey(e.dispatched.value.value.id)
    {
      var loaded := 1 + |Resolution(Outcome(input, e).recipients, e).1|;
      assert loaded < i && effects[loaded] == LoadKey(e.dispatched.value.value.id);
    }
  }

  lemma OnlyTheSends(before: seq<Effect>, inboxes: seq<Iri>, activity: Create)
    requires forall i | 0 <= i < |before| :: !before[i].Send?
    ensures SentTo(before + Sends(inboxes, activity)) == inboxes && SentTo(before) == []
  {
    NothingSent(before);
    SentToConcat(before, Sends(inboxes, activity));
    SentToSends(inboxes, activity);
  }

  /** Once the key is loaded every inbox is attempted exactly once, in order, with the one activity, whatever fails. */
  lemma EveryInboxIsAttemptedOnce(localActorId: Iri, input: CreateNoteInput, e: Environment)
    ensures var effects := Published(localActorId, input, e).effects;
            if Resolved(input, e) && HasKey(e)
            then SentTo(effects) == Inboxes(input, e) && NoDuplicates(Inboxes(input, e))
            else SentTo(effects) == []
  {
    if Resolved(input, e) {
      InboxesAreDistinct(input, e);
      var outcome, inboxes := Outcome(input, e), Inboxes(input, e);
      var lookedUp := [StoreNote(outcome.note)] + Resolves(Resolution(outcome.recipients, e).1);
      OnlyTheSends(lookedUp, [], outcome.activity);
      OnlyTheSends(lookedUp + [LoadKey(e.dispatched.value.value.id)], inboxes, outcome.activity);
    } else {
      NothingSent(Published(localActorId, input, e).effects);
    }
  }

  lemma InboxesAreDistinct(input: CreateNoteInput, e: Environment)
    requires Resolved(input, e)
    ensures NoDuplicates(Inboxes(input, e))
  {
    var recipients := Outcome(input, e).recipients;
    var ts := Listed(recipients, e, |recipients|).value;
    DistinctMembers(ChosenInboxes(ts) + ResolvedInboxes(recipients, e, ActorIds(ts), |recipients|));
  }

  /**
   What is stored is what is delivered: loading the note and decoding the sent Create give the same note, by
   the same actor, to the same addresses, and it is the note that was asked for with public aliases replaced.
   */
  lemma StoredNoteIsDelivered(isIri: IriTest, t: Tables, local: Actor, input: CreateNoteInput)
    requires ValidCreate(isIri, Created(local, input).activity)
    ensures var outcome := Created(local, input);
            var loaded := LoadedNote(isIri, WithNote(t, outcome.note), input.noteId);
            var received := DecodeCreate(isIri, EncodeCreate(outcome.activity));
            && loaded.Ok? && loaded.value.Some? && received.Some? && received.value.id == input.createId
            && received.value.note == Object(loaded.value.value)
            && received.value.to == loaded.value.value.to == PublicAliases(input.to)
            && received.value.cc == loaded.value.value.cc == PublicAliases(input.cc)
            && Some(received.value.actor) == loaded.value.value.attributedTo
            && ActorId(received.value.actor) == local.id
            && loaded.value.value.content == Some(input.content) && loaded.value.value.id == input.noteId
            && loaded.value.value.mediaType == input.mediaType && loaded.value.value.published == input.published
            && loaded.value.value.url == input.url
            && loaded.value.value.context == received.value.context == Some("https://www.w3.org/ns/activitystreams")
  {
    CreateRoundTrip(isIri, Created(local, input).activity);
    LoadNoteAfterStore(isIri, t, Created(local, input).note);
  }

  lemma {:induction false} FirstSendErrorIsFirst(e: Environment, n: nat)
    ensures FirstSendError(e, n).None? <==> forall i: nat | i < n :: e.sent(i).None?
    ensures FirstSendError(e, n).Some? ==>
              exists i: nat :: i < n && e.sent(i) == FirstSendError(e, n) && forall j: nat | j < i :: e.sent(j).None?
  {
    if n > 0 {
      FirstSendErrorIsFirst(e, n - 1);
    }
  }

  // Every uncovered recipient resolves.
  ghost predicate AllResolve(input: CreateNoteInput, e: Environment)
    requires Resolved(input, e)
  {
    var recipients := Outcome(input, e).recipients;
    forall i | Uncovered(recipients, ActorIds(Listed(recipients, e, |recipients|).value), i) :: e.resolved(i).Ok?
  }

  ghost predicate AllSent(input: CreateNoteInput, e: Environment)
    requires Resolved(input, e)
  {
    HasKey(e) && forall i: nat | i < |Inboxes(input, e)| :: e.sent(i).None?
  }

  /**
   Success is returned exactly when nothing failed: the note was stored, every uncovered recipient
   resolved and, unless nobody has to be reached, the key was there and every inbox was reached. A send
   error outranks a resolution error.
   */
  lemma SuccessMeansNothingFailed(localActorId: Iri, input: CreateNoteInput, e: Environment)
    requires e.dispatched.Ok? && e.dispatched.value.Some? ==>
               ResolvesAsAsked(Created(e.dispatched.value.value, input).recipients, e)
    ensures var result := Published(localActorId, input, e).result;
            && (result.Ok? <==>
                  Resolved(input, e) && AllResolve(input, e) && (Inboxes(input, e) == [] || AllSent(input, e)))
            && (result.Ok? ==> result.value == Outcome(input, e))
            && (result.Err? && result.error.ActivitySender? <==>
                  Resolved(input, e) && HasKey(e) && !AllSent(input, e))
            && (result.Err? && result.error.ActorResolver? <==>
                  Resolved(input, e) && !AllResolve(input, e) && (Inboxes(input, e) == [] || AllSent(input, e)))
  {
    if Resolved(input, e) {
      var recipients := Outcome(input, e).recipients;
      var ts := Listed(recipients, e, |recipients|).value;
      RecipientsAreExact(e.dispatched.value.value, input);
      OnlyUncoveredAreResolved(recipients, e, ts);
      FirstSendErrorIsFirst(e, |Inboxes(input, e)|);
    }
  }

  // An attempted inbox is where this actor receives.
  ghost predicate Reaches(input: CreateNoteInput, e: Environment, a: Iri, inbox: Iri)
    requires Resolved(input, e)
  {
    var recipients := Outcome(input, e).recipients;
    || (exists t :: t in Listed(recipients, e, |recipients|).value && t.actorId == a && ChosenInbox(t) == inbox)
    || (exists i :: 0 <= i < |recipients| && recipients[i] == ActorRecipient(a)
                 && e.resolved(i).Ok? && e.resolved(i).value.inbox == inbox)
  }

  /**
   Every address in to or cc that is not public, the author or the followers collection is covered by an
   inbox that is attempted once the key loads, or its failure to resolve makes the run fail.
   */
  lemma EveryAddressIsCovered(localActorId: Iri, input: CreateNoteInput, e: Environment, a: Iri)
    requires Resolved(input, e) && ResolvesAsAsked(Outcome(input, e).recipients, e)
    requires a in input.to + input.cc && a != PUBLIC_COLLECTION
    requires a != e.dispatched.value.value.id && e.dispatched.value.value.followers != Some(a)
    ensures || (exists inbox :: inbox in Inboxes(input, e) && Reaches(input, e, a, inbox))
            || (Published(localActorId, input, e).result.Err?
                && var recipients := Outcome(input, e).recipients;
                   exists i :: 0 <= i < |recipients| && recipients[i] == ActorRecipient(a) && e.resolved(i).Err?)
  {
    var recipients := Outcome(input, e).recipients;
    var ts := Listed(recipients, e, |recipients|).value;
    RecipientsAreExact(e.dispatched.value.value, input);
    FanOutIsExact(recipients, e, ts);
    var i :| 0 <= i < |recipients| && recipients[i] == ActorRecipient(a);
    if a in ActorIds(ts) {
      var t :| t in ts && t.actorId == a;
      assert ChosenInbox(t) in Inboxes(input, e) && Reaches(input, e, a, ChosenInbox(t));
    } else {
      assert Uncovered(recipients, ActorIds(ts), i);
      if e.resolved(i).Ok? {
        assert e.resolved(i).value.inbox in Inboxes(input, e) && Reaches(input, e, a, e.resolved(i).value.inbox);
      } else {
        SuccessMeansNothingFailed(localActorId, input, e);
      }
    }
  }

  /**
   A note addressed to the followers reaches each of them at the inbox of their latest Follow, shared ones
   preferred.
   */
  lemma FollowersAreReached(
    input: CreateNoteInput, e: Environment, isIri: IriTest, t: Tables, events: seq<FollowerEvent>, follower: Iri)
    requires e.dispatched.Ok? && e.dispatched.value.Some? && e.stored.Ok? && t.followers == map[]
    requires var local := e.dispatched.value.value;
             && ResolvesAsAsked(Created(local, input).recipients, e)
             && Followers(local.id) in Created(local, input).recipients
             && (forall i :: e.targets(i) == DeliveryTargets(isIri, Replay(t, events), local.id))
             && Follows(events, follower, local.id)
    requires forall i | 0 <= i < |events| && events[i].Followed? :: ValidActor(isIri, events[i].actor)
    ensures Resolved(input, e)
    ensures exists k :: IsLast(events, k, follower, e.dispatched.value.value.id) && events[k].Followed?
                     && (if SharedInbox(events[k].actor).Some? then SharedInbox(events[k].actor).value
                         else events[k].actor.inbox)
                        in Inboxes(input, e)
  {
    var local := e.dispatched.value.value;
    var recipients := Created(local, input).recipients;
    var targets := DeliveryTargets(isIri, Replay(t, events), local.id);
    RecipientsAreExact(local, input);
    var i := FollowerIsTarget(isIri, t, events, local.id, follower);
    ListsFollowers(recipients, e, targets, |recipients|);
    FanOutIsExact(recipients, e, targets.value);
    assert ChosenInbox(targets.value[i]) in Inboxes(input, e);
  }

  lemma FollowerIsTarget(
    isIri: IriTest, t: Tables, events: seq<FollowerEvent>, following: Iri, follower: Iri)
    returns (i: nat)
    requires t.followers == map[] && Follows(events, follower, following)
    requires forall i | 0 <= i < |events| && events[i].Followed? :: ValidActor(isIri, events[i].actor)
    ensures var targets := DeliveryTargets(isIri, Replay(t, events), following);
            && targets.Ok? && i < |targets.value|
            && exists k :: IsLast(events, k, follower, following) && events[k].Followed?
                        && targets.value[i]
                           == FollowerDeliveryTarget(follower, events[k].actor.inbox, SharedInbox(events[k].actor))
  {
    TargetsAfterReplay(isIri, t, events, following);
    ListAfterReplay(isIri, t, events, following);
    var listed := ListedFollowers(isIri, Replay(t, events), following).value;
    i :| 0 <= i < |listed| && listed[i] == follower;
  }

  lemma {:induction false} ListsFollowers(
    recipients: seq<NoteRecipient>, e: Environment, targets: Result<seq<FollowerDeliveryTarget>, StoreError>, n: nat)
    requires n <= |recipients| && targets.Ok? && forall i :: e.targets(i) == targets
    requires forall i, j | 0 <= i < n && 0 <= j < n && recipients[i].Followers? && recipients[j].Followers? :: i == j
    ensures Listed(recipients, e, n)
            == Ok(if exists i :: 0 <= i < n && recipients[i].Followers? then targets.value else [])
  {
    if n > 0 {
      ListsFollowers(recipients, e, targets, n - 1);
      if recipients[n - 1].Followers? {
        assert !exists i :: 0 <= i < n - 1 && recipients[i].Followers?;
        assert Listed(recipients, e, n - 1).value + targets.value == targets.value;
      }
    }
  }

  /** What every inbox is sent is the created activity: the requested id and addresses, and the stored note. */
  lemma SentActivityIsCreated(localActorId: Iri, input: CreateNoteInput, e: Environment, i: int)
    requires var effects := Published(localActorId, input, e).effects; 0 <= i < |effects| && effects[i].Send?
    ensures e.dispatched.Ok? && e.dispatched.value.Some?
    ensures var effects, local := Published(localActorId, input, e).effects, e.dispatched.value.value;
            && effects[i].activity == Created(local, input).activity
            && effects[i].activity.id == input.createId && effects[i].activity.actor == Id(local.id)
            && effects[i].activity.to == input.to && effects[i].activity.cc == input.cc
            && effects[i].activity.note == Object(effects[0].note)
  {
  }

  /**
   Everything that happens once the inboxes are known, step by step: the note is stored, each uncovered actor
   is resolved, and if anybody is to be reached the author's key is loaded and, if it is there, the created
   activity goes to each inbox in turn.
   */
  lemma StepsAreExact(localActorId: Iri, input: CreateNoteInput, e: Environment)
    requires Resolved(input, e)
    ensures var effects := Published(localActorId, input, e).effects;
            var outcome, inboxes := Outcome(input, e), Inboxes(input, e);
            var asked := Resolution(outcome.recipients, e).1;
            var n := 1 + |asked|;
            && |effects| == n + (if inboxes == [] then 0 else if HasKey(e) then 1 + |inboxes| else 1)
            && effects[0] == StoreNote(outcome.note)
            && (forall i | 0 <= i < |asked| :: effects[1 + i] == Resolve(asked[i]))
            && (inboxes != [] ==> effects[n] == LoadKey(e.dispatched.value.value.id))
            && (HasKey(e) ==>
                  forall i | 0 <= i < |inboxes| :: effects[n + 1 + i] == Send(inboxes[i], outcome.activity))
  {
    var outcome, inboxes := Outcome(input, e), Inboxes(input, e);
    var asked := Resolution(outcome.recipients, e).1;
    StepsInOrder(StoreNote(outcome.note), asked, LoadKey(e.dispatched.value.value.id), inboxes, outcome.activity);
  }

  lemma StepsInOrder(first: Effect, asked: seq<Iri>, key: Effect, inboxes: seq<Iri>, activity: Create)
    ensures var n, before := 1 + |asked|, [first] + Resolves(asked);
            var effects := before + [key] + Sends(inboxes, activity);
            && |before| == n && |effects| == n + 1 + |inboxes| && before[0] == effects[0] == first && effects[n] == key
            && (forall i | 0 <= i < |asked| :: before[1 + i] == effects[1 + i] == Resolve(asked[i]))
            && (forall i | 0 <= i < |inboxes| :: effects[n + 1 + i] == Send(inboxes[i], activity))
  {
  }

  /** The error a failed run reports: what stopped it, else the first failed send, else the earliest failed look-up. */
  lemma ReportedErrorIsTheFirst(localActorId: Iri, input: CreateNoteInput, e: Environment)
    ensures var result := Published(localActorId, input, e).result;
            match e.dispatched
            case Err(message) => result == Err(ActorDispatcher(message))
            case Ok(None) => result == Err(LocalActorNotFound(localActorId))
            case Ok(Some(local)) =>
              match e.stored
              case Err(cause) => result == Err(Storage(cause))
              case Ok(_) =>
                match Resolution(Created(local, input).recipients, e).0
                case Err(cause) => result == Err(Storage(cause))
                case Ok((inboxes, failure)) =>
                  if inboxes != [] && e.key.Err? then result == Err(Storage(e.key.error))
                  else if inboxes != [] && e.key.value.None? then result == Err(MissingActorKey(local.id))
                  else
                    && (forall i: nat | i < |inboxes| && IsFirstError(e, i) ::
                          result == Err(ActivitySender(e.sent(i).value)))
                    && ((forall i: nat | i < |inboxes| :: e.sent(i).None?) ==>
                          match failure
                          case Some(unresolved) => result == Err(ActorResolver(unresolved))
                          case None => result == Ok(Created(local, input)))
  {
    if Resolved(input, e) {
      var n := |Inboxes(input, e)|;
      FirstSendErrorIsFirst(e, n);
      forall i: nat | i < n && IsFirstError(e, i)
        ensures FirstSendError(e, n) == e.sent(i)
      {
        FirstErrorIsUnique(e, n, i);
      }
    }
  }

  ghost predicate IsFirstError(e: Environment, i: nat) {
    e.sent(i).Some? && forall j: nat | j < i :: e.sent(j).None?
  }

  lemma FirstErrorIsUnique(e: Environment, n: nat, i: nat)
    requires i < n && IsFirstError(e, i)
    ensures FirstSendError(e, n) == e.sent(i)
  {
    FirstSendErrorIsFirst(e, n);
    var k: nat :| k < n && e.sent(k) == FirstSendError(e, n) && forall j: nat | j < k :: e.sent(j).None?;
    assert k == i;
  }
}
