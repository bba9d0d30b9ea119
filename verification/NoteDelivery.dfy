/** Creating a note and delivering it: addresses become recipients, recipients become inboxes. */
module NoteDelivery {
  import opened Wrappers
  import opened Vocab
  import opened Cavage
  import opened FollowCore
  import opened Store
  import RequestAuth

  /******* Lists without repetition *******/

  // The elements in the order of their first occurrence.
  function Distinct<T(==)>(s: seq<T>): seq<T> {
    if s == [] then []
    else
      var before, last := Distinct(s[..|s| - 1]), s[|s| - 1];
      if last in before then before else before + [last]
  }

  predicate NoDuplicates<T(==)>(s: seq<T>) {
    forall i, j | 0 <= i < j < |s| :: s[i] != s[j]
  }

  ghost predicate FirstAt<T>(s: seq<T>, i: int, x: T) {
    0 <= i < |s| && s[i] == x && forall j | 0 <= j < i :: s[j] != x
  }

  lemma DistinctSnoc<T>(s: seq<T>, x: T)
    ensures Distinct(s + [x]) == if x in Distinct(s) then Distinct(s) else Distinct(s) + [x]
  {
    assert (s + [x])[..|s|] == s;
  }

  lemma {:induction false} DistinctMembers<T>(s: seq<T>)
    ensures NoDuplicates(Distinct(s)) && forall x :: x in Distinct(s) <==> x in s
  {
    if s != [] {
      DistinctMembers(s[..|s| - 1]);
      assert s == s[..|s| - 1] + [s[|s| - 1]];
    }
  }

  lemma {:induction false} DistinctPrefix<T>(s: seq<T>, t: seq<T>)
    ensures Distinct(s) <= Distinct(s + t)
  {
    if t == [] {
      assert s + t == s;
    } else {
      DistinctPrefix(s, t[..|t| - 1]);
      assert s + t == (s + t[..|t| - 1]) + [t[|t| - 1]];
      DistinctSnoc(s + t[..|t| - 1], t[|t| - 1]);
    }
  }

  /** Of two listed elements, the one that occurs first in the original comes first. */
  lemma {:induction false} DistinctKeepsOrder<T>(s: seq<T>, i: int, j: int, p: int, q: int)
    requires 0 <= i < |Distinct(s)| && 0 <= j < |Distinct(s)|
    requires FirstAt(s, p, Distinct(s)[i]) && FirstAt(s, q, Distinct(s)[j])
    ensures i < j <==> p < q
  {
    var n := |s| - 1;
    var before := s[..n];
    DistinctMembers(before);
    DistinctMembers(s);
    assert s == before + [s[n]];
    DistinctSnoc(before, s[n]);
    assert p < n ==> FirstAt(before, p, Distinct(s)[i]);
    assert q < n ==> FirstAt(before, q, Distinct(s)[j]);
    if i < |Distinct(before)| && j < |Distinct(before)| {
      OccursEarlier(before, Distinct(before)[i]);
      OccursEarlier(before, Distinct(before)[j]);
      DistinctKeepsOrder(before, i, j, p, q);
    } else if i < |Distinct(before)| {
      OccursEarlier(before, Distinct(before)[i]);
    } else if j < |Distinct(before)| {
      OccursEarlier(before, Distinct(before)[j]);
    }
  }

  lemma OccursEarlier<T>(before: seq<T>, x: T)
    requires x in Distinct(before)
    ensures x in before
  {
    DistinctMembers(before);
  }

  /******* Recipients *******/

  datatype NoteRecipient = Followers(owner: Iri) | ActorRecipient(actorId: Iri)

  datatype CreateNoteInput = CreateNoteInput(
    noteId: Iri, createId: Iri, to: seq<Iri>, cc: seq<Iri>, content: string,
    mediaType: Option<string>, published: Option<string>, url: Option<Iri>)

  datatype CreateNoteOutcome = CreateNoteOutcome(note: Note, activity: Create, recipients: seq<NoteRecipient>)

  // Whom an address stands for; nobody has to be sent what is public or addressed to its own author.
  function RecipientOf(local: Actor, address: Iri): Option<NoteRecipient> {
    if address == PUBLIC_COLLECTION || address == local.id then None
    else if local.followers == Some(address) then Some(Followers(local.id))
    else Some(ActorRecipient(address))
  }

  function Addressed(local: Actor, addresses: seq<Iri>): seq<NoteRecipient> {
    if addresses == [] then []
    else
      var before := Addressed(local, addresses[..|addresses| - 1]);
      var last := RecipientOf(local, addresses[|addresses| - 1]);
      if last.Some? then before + [last.value] else before
  }

  lemma {:induction false} AddressedMembers(local: Actor, addresses: seq<Iri>, r: NoteRecipient)
    ensures r in Addressed(local, addresses) <==> exists a :: a in addresses && RecipientOf(local, a) == Some(r)
  {
    if addresses != [] {
      var n := |addresses| - 1;
      AddressedMembers(local, addresses[..n], r);
      assert addresses == addresses[..n] + [addresses[n]];
    }
  }

  method NoteRecipients(local: Actor, note: Note) returns (recipients: seq<NoteRecipient>)
    ensures recipients == Distinct(Addressed(local, note.to + note.cc))
  {
    recipients := [];
    var addresses := note.to + note.cc;
    for i := 0 to |addresses|
      invariant recipients == Distinct(Addressed(local, addresses[..i]))
    {
      var address := addresses[i];
      assert addresses[..i + 1][..i] == addresses[..i];
      if address == PUBLIC_COLLECTION || address == local.id {
        continue;
      }
      var recipient := if local.followers == Some(address) then Followers(local.id) else ActorRecipient(address);
      DistinctSnoc(Addressed(local, addresses[..i]), recipient);
      if recipient !in recipients {
        recipients := recipients + [recipient];
      }
    }
    assert addresses[..|addresses|] == addresses;
  }

  function Created(local: Actor, input: CreateNoteInput): CreateNoteOutcome {
    var note := Note(
      Some(ACTIVITYSTREAMS_CONTEXT), input.noteId, Some(Id(local.id)), input.to, input.cc,
      Some(input.content), input.mediaType, input.published, input.url);
    CreateNoteOutcome(
      note,
      Create(Some(ACTIVITYSTREAMS_CONTEXT), input.createId, Id(local.id), Object(note), input.to, input.cc),
      Distinct(Addressed(local, input.to + input.cc)))
  }

  method CreateNoteOutcomeFor(local: Actor, input: CreateNoteInput) returns (outcome: CreateNoteOutcome)
    ensures outcome == Created(local, input)
  {
    var actor := Id(local.id);
    var note := Note(Some(ACTIVITYSTREAMS_CONTEXT), input.noteId, None, [], [], None, None, None, None);
    note := note.(attributedTo := Some(actor));
    note := note.(to := input.to, cc := input.cc);
    note := note.(content := Some(input.content), mediaType := input.mediaType);
    note := note.(published := input.published, url := input.url);
    var activity := Create(Some(ACTIVITYSTREAMS_CONTEXT), input.createId, actor, Object(note), [], []);
    activity := activity.(to := note.to, cc := note.cc);
    var recipients := NoteRecipients(local, note);
    outcome := CreateNoteOutcome(note, activity, recipients);
  }

  /**
   The recipients of a note are, without repetition, the followers if their collection is addressed
   and every addressed actor other than the author.
   */
  lemma RecipientsAreExact(local: Actor, input: CreateNoteInput)
    ensures var recipients, addresses := Created(local, input).recipients, input.to + input.cc;
            && NoDuplicates(recipients)
            && (forall owner :: Followers(owner) in recipients <==>
                  owner == local.id && local.followers.Some? && local.followers.value in addresses
                  && local.followers.value != PUBLIC_COLLECTION && local.followers.value != local.id)
            && (forall a :: ActorRecipient(a) in recipients <==>
                  a in addresses && a != PUBLIC_COLLECTION && a != local.id && local.followers != Some(a))
  {
    var addresses := input.to + input.cc;
    DistinctMembers(Addressed(local, addresses));
    forall owner
      ensures Followers(owner) in Created(local, input).recipients <==>
                owner == local.id && local.followers.Some? && local.followers.value in addresses
                && local.followers.value != PUBLIC_COLLECTION && local.followers.value != local.id
    {
      AddressedMembers(local, addresses, Followers(owner));
    }
    forall a
      ensures ActorRecipient(a) in Created(local, input).recipients <==>
                a in addresses && a != PUBLIC_COLLECTION && a != local.id && local.followers != Some(a)
    {
      AddressedMembers(local, addresses, ActorRecipient(a));
    }
  }

  /******* From recipients to inboxes *******/

  datatype ResolveError = ActorUnavailable(actorId: Iri, reason: string)

  /**
   Every answer the rest of the system may give while a note is created: `targets` and `resolved` by
   the number of the recipient they are asked about, `sent` by the number of the inbox.
   */
  datatype Environment = Environment(
    dispatched: Result<Option<Actor>, string>,
    stored: Result<(), StoreError>,
    targets: nat -> Result<seq<FollowerDeliveryTarget>, StoreError>,
    resolved: nat -> Result<Actor, ResolveError>,
    key: Result<Option<ActorKeyPair>, StoreError>,
    sent: nat -> Option<RequestAuth.SendError>)

  function ChosenInbox(t: FollowerDeliveryTarget): Iri {
    if t.sharedInbox.Some? then t.sharedInbox.value else t.inbox
  }

  function ChosenInboxes(ts: seq<FollowerDeliveryTarget>): seq<Iri> {
    seq(|ts|, i requires 0 <= i < |ts| => ChosenInbox(ts[i]))
  }

  function ActorIds(ts: seq<FollowerDeliveryTarget>): set<Iri> {
    set t | t in ts :: t.actorId
  }

  // The follower targets of the first `n` recipients, or the first failure to list them.
  function Listed(recipients: seq<NoteRecipient>, e: Environment, n: nat)
    : Result<seq<FollowerDeliveryTarget>, StoreError>
    requires n <= |recipients|
  {
    if n == 0 then Ok([])
    else
      var before := Listed(recipients, e, n - 1);
      if before.Err? || !recipients[n - 1].Followers? then before
      else match e.targets(n - 1)
        case Err(error) => Err(error)
        case Ok(more) => Ok(before.value + more)
  }

  // The actors known to be reached after the first `n` recipients, starting from the followers.
  function Covered(recipients: seq<NoteRecipient>, e: Environment, followers: set<Iri>, n: nat): set<Iri>
    requires n <= |recipients|
    decreases n, 0
  {
    if n == 0 then followers
    else
      var before := Covered(recipients, e, followers, n - 1);
      if Asked(recipients, e, followers, n - 1) && e.resolved(n - 1).Ok? then before + {e.resolved(n - 1).value.id}
      else before
  }

  predicate Asked(recipients: seq<NoteRecipient>, e: Environment, followers: set<Iri>, i: nat)
    requires i < |recipients|
    decreases i, 1
  {
    recipients[i].ActorRecipient? && recipients[i].actorId !in Covered(recipients, e, followers, i)
  }

  function AskedIds(recipients: seq<NoteRecipient>, e: Environment, followers: set<Iri>, n: nat): seq<Iri>
    requires n <= |recipients|
  {
    if n == 0 then []
    else
      var before := AskedIds(recipients, e, followers, n - 1);
      if Asked(recipients, e, followers, n - 1) then before + [recipients[n - 1].actorId] else before
  }

  function ResolvedInboxes(recipients: seq<NoteRecipient>, e: Environment, followers: set<Iri>, n: nat): seq<Iri>
    requires n <= |recipients|
  {
    if n == 0 then []
    else
      var before := ResolvedInboxes(recipients, e, followers, n - 1);
      if Asked(recipients, e, followers, n - 1) && e.resolved(n - 1).Ok? then before + [e.resolved(n - 1).value.inbox]
      else before
  }

  function FirstFailure(recipients: seq<NoteRecipient>, e: Environment, followers: set<Iri>, n: nat)
    : Option<ResolveError>
    requires n <= |recipients|
  {
    if n == 0 then None
    else
      var before := FirstFailure(recipients, e, followers, n - 1);
      if before.None? && Asked(recipients, e, followers, n - 1) && e.resolved(n - 1).Err?
      then Some(e.resolved(n - 1).error)
      else before
  }

  lemma ChosenInboxesConcat(a: seq<FollowerDeliveryTarget>, b: seq<FollowerDeliveryTarget>)
    ensures ChosenInboxes(a + b) == ChosenInboxes(a) + ChosenInboxes(b)
    ensures ActorIds(a + b) == ActorIds(a) + ActorIds(b)
  {
  }

  // The inboxes gathered from `all`, and the set that tells which were seen.
  ghost predicate Gathered(all: seq<Iri>, inboxes: seq<Iri>, seen: set<Iri>) {
    inboxes == Distinct(all) && forall x :: x in seen <==> x in all
  }

  lemma GatherOne(all: seq<Iri>, inboxes: seq<Iri>, seen: set<Iri>, inbox: Iri)
    requires Gathered(all, inboxes, seen)
    ensures Gathered(all + [inbox], if inbox in seen then inboxes else inboxes + [inbox], seen + {inbox})
  {
    DistinctMembers(all);
    DistinctSnoc(all, inbox);
  }

  lemma GatherOneTarget(
    all: seq<Iri>, ts: seq<FollowerDeliveryTarget>, i: nat, inboxes: seq<Iri>, covered: set<Iri>, seen: set<Iri>)
    requires i < |ts| && GatheredTargets(all, ts[..i], inboxes, covered, seen)
    ensures var inbox := ChosenInbox(ts[i]);
            GatheredTargets(
              all, ts[..i + 1], if inbox in seen then inboxes else inboxes + [inbox], covered + {ts[i].actorId},
              seen + {inbox})
  {
    assert ts[..i + 1] == ts[..i] + [ts[i]];
    ChosenInboxesConcat(ts[..i], [ts[i]]);
    assert all + ChosenInboxes(ts[..i + 1]) == (all + ChosenInboxes(ts[..i])) + [ChosenInbox(ts[i])];
    GatherOne(all + ChosenInboxes(ts[..i]), inboxes, seen, ChosenInbox(ts[i]));
  }

  ghost predicate GatheredTargets(
    all: seq<Iri>, ts: seq<FollowerDeliveryTarget>, inboxes: seq<Iri>, covered: set<Iri>, seen: set<Iri>)
  {
    Gathered(all + ChosenInboxes(ts), inboxes, seen) && covered == ActorIds(ts)
  }

  // Adds the targets of one listing to what has been gathered from `all`.
  method AddTargets(ghost all: seq<Iri>, ts: seq<FollowerDeliveryTarget>, inboxes: seq<Iri>, seen: set<Iri>)
    returns (inboxes': seq<Iri>, actors: set<Iri>, seen': set<Iri>)
    requires Gathered(all, inboxes, seen)
    ensures Gathered(all + ChosenInboxes(ts), inboxes', seen') && actors == ActorIds(ts)
  {
    inboxes', actors, seen' := inboxes, {}, seen;
    assert all + ChosenInboxes(ts[..0]) == all;
    for i := 0 to |ts|
      invariant GatheredTargets(all, ts[..i], inboxes', actors, seen')
    {
      GatherOneTarget(all, ts, i, inboxes', actors, seen');
      actors := actors + {ts[i].actorId};
      var inbox := if ts[i].sharedInbox.Some? then ts[i].sharedInbox.value else ts[i].inbox;
      if inbox !in seen' {
        inboxes' := inboxes' + [inbox];
      }
      seen' := seen' + {inbox};
    }
    assert ts[..|ts|] == ts;
  }

  // The first pass: every follower of every listed collection.
  method AddFollowers(recipients: seq<NoteRecipient>, e: Environment)
    returns (r: Result<(seq<Iri>, set<Iri>, set<Iri>), StoreError>)
    ensures match Listed(recipients, e, |recipients|)
            case Err(error) => r == Err(error)
            case Ok(ts) => r.Ok? && Gathered(ChosenInboxes(ts), r.value.0, r.value.2) && r.value.1 == ActorIds(ts)
  {
    var inboxes: seq<Iri>, covered: set<Iri>, seen: set<Iri> := [], {}, {};
    for i := 0 to |recipients|
      invariant Listed(recipients, e, i).Ok?
      invariant var ts := Listed(recipients, e, i).value;
                Gathered(ChosenInboxes(ts), inboxes, seen) && covered == ActorIds(ts)
    {
      if recipients[i].Followers? {
        var targets := e.targets(i);
        if targets.Err? {
          ListingFails(recipients, e, i);
          return Err(targets.error);
        }
        ghost var before := Listed(recipients, e, i).value;
        ChosenInboxesConcat(before, targets.value);
        var actors;
        inboxes, actors, seen := AddTargets(ChosenInboxes(before), targets.value, inboxes, seen);
        covered := covered + actors;
      }
    }
    return Ok((inboxes, covered, seen));
  }

  // The second pass: every addressed actor not reached yet, in order.
  method AddActors(
    recipients: seq<NoteRecipient>, e: Environment, ghost first: seq<Iri>, followers: set<Iri>, inboxes: seq<Iri>,
    seen: set<Iri>)
    returns (inboxes': seq<Iri>, firstError: Option<ResolveError>, asked: seq<Iri>)
    requires Gathered(first, inboxes, seen)
    ensures inboxes' == Distinct(first + ResolvedInboxes(recipients, e, followers, |recipients|))
    ensures firstError == FirstFailure(recipients, e, followers, |recipients|)
    ensures asked == AskedIds(recipients, e, followers, |recipients|)
  {
    inboxes', firstError, asked := inboxes, None, [];
    var covered, seen' := followers, seen;
    assert first + [] == first;
    for i := 0 to |recipients|
      invariant covered == Covered(recipients, e, followers, i) && asked == AskedIds(recipients, e, followers, i)
      invariant Gathered(first + ResolvedInboxes(recipients, e, followers, i), inboxes', seen')
      invariant firstError == FirstFailure(recipients, e, followers, i)
    {
      if recipients[i].Followers? || recipients[i].actorId in covered {
        continue;
      }
      asked := asked + [recipients[i].actorId];
      match e.resolved(i) {
        case Ok(actor) =>
          GatherOneActor(recipients, e, first, followers, i, inboxes', seen');
          covered := covered + {actor.id};
          if actor.inbox !in seen' {
            inboxes' := inboxes' + [actor.inbox];
          }
          seen' := seen' + {actor.inbox};
        case Err(error) =>
          if firstError.None? {
            firstError := Some(error);
          }
      }
    }
  }

  lemma GatherOneActor(
    recipients: seq<NoteRecipient>, e: Environment, first: seq<Iri>, followers: set<Iri>, i: nat, inboxes: seq<Iri>,
    seen: set<Iri>)
    requires i < |recipients| && Asked(recipients, e, followers, i) && e.resolved(i).Ok?
    requires Gathered(first + ResolvedInboxes(recipients, e, followers, i), inboxes, seen)
    ensures var inbox := e.resolved(i).value.inbox;
            Gathered(first + ResolvedInboxes(recipients, e, followers, i + 1),
                     if inbox in seen then inboxes else inboxes + [inbox], seen + {inbox})
  {
    var before, inbox := ResolvedInboxes(recipients, e, followers, i), e.resolved(i).value.inbox;
    assert first + (before + [inbox]) == (first + before) + [inbox];
    GatherOne(first + before, inboxes, seen, inbox);
  }

  method ResolveNoteRecipients(recipients: seq<NoteRecipient>, e: Environment)
    returns (r: Result<(seq<Iri>, Option<ResolveError>), StoreError>, asked: seq<Iri>)
    ensures (r, asked) == Resolution(recipients, e)
  {
    var listed := AddFollowers(recipients, e);
    if listed.Err? {
      return Err(listed.error), [];
    }
    var (inboxes, covered, seen) := listed.value;
    ghost var first := ChosenInboxes(Listed(recipients, e, |recipients|).value);
    var firstError;
    inboxes, firstError, asked := AddActors(recipients, e, first, covered, inboxes, seen);
    return Ok((inboxes, firstError)), asked;
  }

  lemma {:induction false} ListingFails(recipients: seq<NoteRecipient>, e: Environment, i: nat)
    requires i < |recipients| && Listed(recipients, e, i + 1).Err?
    ensures Listed(recipients, e, |recipients|) == Listed(recipients, e, i + 1)
    decreases |recipients| - i
  {
    if i + 1 < |recipients| {
      ListingFails(recipients, e, i + 1);
    }
  }

  // The inboxes, the first failure and the actors asked about, in terms of the recipients.
  function Resolution(recipients: seq<NoteRecipient>, e: Environment)
    : (Result<(seq<Iri>, Option<ResolveError>), StoreError>, seq<Iri>)
  {
    var n := |recipients|;
    match Listed(recipients, e, n)
    case Err(error) => (Err(error), [])
    case Ok(ts) =>
      var followers := ActorIds(ts);
      (Ok((Distinct(ChosenInboxes(ts) + ResolvedInboxes(recipients, e, followers, n)),
           FirstFailure(recipients, e, followers, n))),
       AskedIds(recipients, e, followers, n))
  }

  /******* The fan-out is exact *******/

  // The resolver's contract: a success is the actor asked for.
  ghost predicate ResolvesAsAsked(recipients: seq<NoteRecipient>, e: Environment) {
    forall i | 0 <= i < |recipients| && recipients[i].ActorRecipient? && e.resolved(i).Ok? ::
      e.resolved(i).value.id == recipients[i].actorId
  }

  // An addressed actor who is not among the followers reached anyway.
  predicate Uncovered(recipients: seq<NoteRecipient>, followers: set<Iri>, i: int) {
    0 <= i < |recipients| && recipients[i].ActorRecipient? && recipients[i].actorId !in followers
  }

  lemma {:induction false} CoveredMeans(
    recipients: seq<NoteRecipient>, e: Environment, followers: set<Iri>, n: nat, a: Iri)
    requires n <= |recipients| && ResolvesAsAsked(recipients, e) && NoDuplicates(recipients)
    ensures followers <= Covered(recipients, e, followers, n)
    ensures a in Covered(recipients, e, followers, n) && a !in followers ==> ActorRecipient(a) in recipients[..n]
  {
    if n > 0 {
      CoveredMeans(recipients, e, followers, n - 1, a);
      assert recipients[..n] == recipients[..n - 1] + [recipients[n - 1]];
    }
  }

  lemma AskedMeans(recipients: seq<NoteRecipient>, e: Environment, followers: set<Iri>, i: nat)
    requires i < |recipients| && ResolvesAsAsked(recipients, e) && NoDuplicates(recipients)
    ensures Asked(recipients, e, followers, i) <==> Uncovered(recipients, followers, i)
  {
    if recipients[i].ActorRecipient? {
      CoveredMeans(recipients, e, followers, i, recipients[i].actorId);
    }
  }

  lemma {:induction false} ResolvedMembers(
    recipients: seq<NoteRecipient>, e: Environment, followers: set<Iri>, n: nat, inbox: Iri)
    requires n <= |recipients| && ResolvesAsAsked(recipients, e) && NoDuplicates(recipients)
    ensures inbox in ResolvedInboxes(recipients, e, followers, n) <==>
            exists i :: 0 <= i < n && Uncovered(recipients, followers, i) && e.resolved(i).Ok?
              && e.resolved(i).value.inbox == inbox
  {
    if n > 0 {
      ResolvedMembers(recipients, e, followers, n - 1, inbox);
      AskedMeans(recipients, e, followers, n - 1);
    }
  }

  lemma {:induction false} AskedMembers(
    recipients: seq<NoteRecipient>, e: Environment, followers: set<Iri>, n: nat, a: Iri)
    requires n <= |recipients| && ResolvesAsAsked(recipients, e) && NoDuplicates(recipients)
    ensures NoDuplicates(AskedIds(recipients, e, followers, n))
    ensures a in AskedIds(recipients, e, followers, n) <==> ActorRecipient(a) in recipients[..n] && a !in followers
  {
    if n > 0 {
      AskedMembers(recipients, e, followers, n - 1, a);
      AskedMeans(recipients, e, followers, n - 1);
      assert recipients[..n] == recipients[..n - 1] + [recipients[n - 1]];
      if recipients[n - 1].ActorRecipient? {
        AskedMembers(recipients, e, followers, n - 1, recipients[n - 1].actorId);
      }
    }
  }

  lemma {:induction false} FirstFailureIsEarliest(
    recipients: seq<NoteRecipient>, e: Environment, followers: set<Iri>, n: nat)
    requires n <= |recipients| && ResolvesAsAsked(recipients, e) && NoDuplicates(recipients)
    ensures var failure := FirstFailure(recipients, e, followers, n);
            if failure.None? then forall i | 0 <= i < n && Uncovered(recipients, followers, i) :: e.resolved(i).Ok?
            else exists i :: 0 <= i < n && EarliestFailure(recipients, e, followers, i, failure.value)
  {
    if n > 0 {
      FirstFailureIsEarliest(recipients, e, followers, n - 1);
      AskedMeans(recipients, e, followers, n - 1);
      if FirstFailure(recipients, e, followers, n - 1).None? && FirstFailure(recipients, e, followers, n).Some? {
        assert EarliestFailure(recipients, e, followers, n - 1, FirstFailure(recipients, e, followers, n).value);
      }
    }
  }

  ghost predicate EarliestFailure(
    recipients: seq<NoteRecipient>, e: Environment, followers: set<Iri>, i: int, error: ResolveError)
  {
    && Uncovered(recipients, followers, i) && e.resolved(i) == Err(error)
    && forall j | 0 <= j < i && Uncovered(recipients, followers, j) :: e.resolved(j).Ok?
  }

  /**
   The inbox list has no duplicates; it begins with the followers' inboxes, shared ones preferred, in
   the order of their listing; it holds those inboxes and the inboxes of the uncovered actors that
   resolve, and nothing else.
   */
  lemma FanOutIsExact(recipients: seq<NoteRecipient>, e: Environment, ts: seq<FollowerDeliveryTarget>)
    requires ResolvesAsAsked(recipients, e) && NoDuplicates(recipients) && Listed(recipients, e, |recipients|) == Ok(ts)
    ensures Resolution(recipients, e).0.Ok?
    ensures var inboxes := Resolution(recipients, e).0.value.0;
            && NoDuplicates(inboxes) && Distinct(ChosenInboxes(ts)) <= inboxes
            && forall inbox :: inbox in inboxes <==>
                 (exists t :: t in ts && ChosenInbox(t) == inbox)
                 || exists i ::
                      Uncovered(recipients, ActorIds(ts), i) && e.resolved(i).Ok? && e.resolved(i).value.inbox == inbox
  {
    var followers, n := ActorIds(ts), |recipients|;
    var first, second := ChosenInboxes(ts), ResolvedInboxes(recipients, e, followers, n);
    DistinctMembers(first + second);
    DistinctPrefix(first, second);
    forall inbox
      ensures inbox in first + second <==>
                (exists t :: t in ts && ChosenInbox(t) == inbox)
                || exists i ::
                     Uncovered(recipients, followers, i) && e.resolved(i).Ok? && e.resolved(i).value.inbox == inbox
    {
      ResolvedMembers(recipients, e, followers, n, inbox);
      ChosenMembers(ts, inbox);
    }
  }

  lemma ChosenMembers(ts: seq<FollowerDeliveryTarget>, inbox: Iri)
    ensures inbox in ChosenInboxes(ts) <==> exists t :: t in ts && ChosenInbox(t) == inbox
  {
    if t :| t in ts && ChosenInbox(t) == inbox {
      var i :| 0 <= i < |ts| && ts[i] == t;
      assert ChosenInboxes(ts)[i] == inbox;
    }
  }

  /** Exactly the uncovered actors are asked about, each once, and the reported failure is the earliest. */
  lemma OnlyUncoveredAreResolved(recipients: seq<NoteRecipient>, e: Environment, ts: seq<FollowerDeliveryTarget>)
    requires ResolvesAsAsked(recipients, e) && NoDuplicates(recipients) && Listed(recipients, e, |recipients|) == Ok(ts)
    ensures var asked := Resolution(recipients, e).1;
            NoDuplicates(asked) && forall a :: a in asked <==> ActorRecipient(a) in recipients && a !in ActorIds(ts)
    ensures var failure := Resolution(recipients, e).0.value.1;
            if failure.None? then forall i | Uncovered(recipients, ActorIds(ts), i) :: e.resolved(i).Ok?
            else exists i :: EarliestFailure(recipients, e, ActorIds(ts), i, failure.value)
  {
    var n := |recipients|;
    assert recipients[..n] == recipients;
    forall a
      ensures NoDuplicates(AskedIds(recipients, e, ActorIds(ts), n))
      ensures a in AskedIds(recipients, e, ActorIds(ts), n) <==> ActorRecipient(a) in recipients && a !in ActorIds(ts)
    {
      AskedMembers(recipients, e, ActorIds(ts), n, a);
    }
    AskedMembers(recipients, e, ActorIds(ts), n, "");
    FirstFailureIsEarliest(recipients, e, ActorIds(ts), n);
  }

  lemma {:induction false} CoveredGrows(
    recipients: seq<NoteRecipient>, e: Environment, followers: set<Iri>, m: nat, n: nat)
    requires m <= n <= |recipients|
    ensures Covered(recipients, e, followers, m) <= Covered(recipients, e, followers, n)
    decreases n - m
  {
    if m < n {
      CoveredGrows(recipients, e, followers, m, n - 1);
    }
  }

  /** Whatever the recipients and the resolver: an actor once reached under its own id is not asked about again. */
  lemma ReachedActorsAreNotAskedAgain(
    recipients: seq<NoteRecipient>, e: Environment, followers: set<Iri>, i: nat, j: nat)
    requires i < j < |recipients| && Asked(recipients, e, followers, i) && e.resolved(i).Ok?
    requires recipients[j] == ActorRecipient(e.resolved(i).value.id)
    ensures !Asked(recipients, e, followers, j)
    ensures AskedIds(recipients, e, followers, j + 1) == AskedIds(recipients, e, followers, j)
  {
    CoveredGrows(recipients, e, followers, i + 1, j);
  }
}
