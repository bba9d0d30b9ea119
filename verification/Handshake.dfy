/**
 Many servers exchanging signed activities over an unreliable network. Handlers are split at every
 storage call, so they interleave; messages may be lost, repeated and reordered; a handler may stop
 anywhere. Actors that no Feder server hosts may sign and send anything.
 */
module Handshake {
  import opened Wrappers
  import opened Vocab
  import opened Json
  import opened FollowCore
  import opened Store
  import opened Inbox
  import Following

  type ServerId = nat

  // Which strings are IRIs, and which server hosts (and signs for) an actor.
  datatype Config = Config(isIri: IriTest, home: map<Iri, ServerId>)

  // A body together with the actor whose key verifies its signature.
  datatype Message = Message(signer: Iri, body: Value)

  datatype Event =
    | StoredFollower(server: ServerId, follower: Actor, following: Iri, followId: Iri)
    | RemovedFollower(server: ServerId, undone: Iri, following: Iri)
    | SentAccept(sender: Iri, accept: Accept)
    | ConfirmReturned(
        server: ServerId, local: Actor, remote: Actor, accept: Accept, pending: PendingFollow,
        result: Result<bool, StoreError>)

  /** Where a running request stands: what it holds while other handlers may run. */
  datatype Handler =
    | Resolved(server: ServerId, local: Actor, remote: Actor, followId: Iri)
    | FollowStored(server: ServerId, local: Actor, activity: Follow)
    | FollowReady(server: ServerId, local: Actor, activity: Follow)
    | SharedTarget(server: ServerId, local: Actor, body: Value, known: Option<PendingFollow>)
    | SenderVerified(server: ServerId, local: Actor, remote: Actor, body: Value, known: Option<PendingFollow>)
    | AcceptLoaded(server: ServerId, local: Actor, remote: Actor, accept: Accept, pending: PendingFollow)
    | FollowerStored(server: ServerId, local: Actor, followed: FollowOutcome)
    | AnswerReady(server: ServerId, local: Actor, followed: FollowOutcome)

  datatype State = State(stores: seq<Tables>, handlers: map<nat, Handler>, wire: set<Message>, log: seq<Event>)

  datatype Step =
    | BeginFollow(h: nat, server: ServerId, local: Actor, remote: Actor, followId: Iri)
    | StorePending(h: nat)
    | LoadFollowKey(h: nat)
    | SendFollow(h: nat)
    | ReceiveShared(h: nat, server: ServerId, local: Actor, body: Value)
    | VerifyShared(h: nat, remote: Actor)
    | ReceivePersonal(h: nat, server: ServerId, local: Actor, remote: Actor, body: Value)
    | Act(h: nat)
    | ConfirmLoaded(h: nat)
    | LoadAnswerKey(h: nat)
    | SendAnswer(h: nat)
    | SendCreate(local: Actor, create: Create)
    | Stop(h: nat)
    | SendForeign(message: Message)

  predicate Hosted(c: Config, st: State, server: ServerId, actor: Actor) {
    server < |st.stores| && actor.id in c.home && c.home[actor.id] == server
  }

  // A signed message whose sender resolves: verification of its request can succeed.
  predicate Verifiable(c: Config, st: State, body: Value, remote: Actor) {
    Message(remote.id, body) in st.wire && ActivityActorId(c.isIri, body) == Some(remote.id)
      && ValidActor(c.isIri, remote)
  }

  predicate Init(c: Config, st: State) {
    && st.handlers == map[] && st.wire == {} && st.log == []
    && forall s | 0 <= s < |st.stores| :: st.stores[s].followers == map[] && st.stores[s].outboundFollows == map[]
  }

  predicate Enabled(c: Config, st: State, step: Step) {
    match step
    case BeginFollow(h, server, local, remote, followId) => h !in st.handlers && Hosted(c, st, server, local)
    case StorePending(h) => h in st.handlers && st.handlers[h].Resolved? && st.handlers[h].server < |st.stores|
    case LoadFollowKey(h) =>
      && h in st.handlers && st.handlers[h].FollowStored? && st.handlers[h].server < |st.stores|
      && st.handlers[h].local.id in st.stores[st.handlers[h].server].keys
    case SendFollow(h) => h in st.handlers && st.handlers[h].FollowReady?
    case ReceiveShared(h, server, local, body) =>
      && h !in st.handlers && Hosted(c, st, server, local)
      && SharedInboxTarget(c.isIri, st.stores[server], body).Ok?
      && SharedInboxTarget(c.isIri, st.stores[server], body).value.Some?
    case VerifyShared(h, remote) =>
      h in st.handlers && st.handlers[h].SharedTarget? && Verifiable(c, st, st.handlers[h].body, remote)
    case ReceivePersonal(h, server, local, remote, body) =>
      h !in st.handlers && Hosted(c, st, server, local) && Verifiable(c, st, body, remote)
    case Act(h) => h in st.handlers && st.handlers[h].SenderVerified? && st.handlers[h].server < |st.stores|
    case ConfirmLoaded(h) => h in st.handlers && st.handlers[h].AcceptLoaded? && st.handlers[h].server < |st.stores|
    case LoadAnswerKey(h) =>
      && h in st.handlers && st.handlers[h].FollowerStored? && st.handlers[h].server < |st.stores|
      && st.handlers[h].local.id in st.stores[st.handlers[h].server].keys
    case SendAnswer(h) => h in st.handlers && st.handlers[h].AnswerReady?
    case SendCreate(local, create) => local.id in c.home
    case Stop(h) => h in st.handlers
    case SendForeign(message) => message.signer !in c.home
  }

  function Put(st: State, h: nat, handler: Handler): State {
    st.(handlers := st.handlers[h := handler])
  }

  function Drop(st: State, h: nat): State {
    st.(handlers := st.handlers - {h})
  }

  // One storage call and the record of it.
  function Commit(st: State, server: ServerId, tables: Tables, event: Event): State
    requires server < |st.stores|
  {
    st.(stores := st.stores[server := tables], log := st.log + [event])
  }

  function Send(st: State, message: Message): State {
    st.(wire := st.wire + {message})
  }

  function Do(c: Config, st: State, step: Step): State
    requires Enabled(c, st, step)
  {
    match step
    case BeginFollow(h, server, local, remote, followId) => Put(st, h, Resolved(server, local, remote, followId))
    case StorePending(h) =>
      var Resolved(server, local, remote, followId) := st.handlers[h];
      var outcome := CreateFollow(local, remote, followId);
      Put(st.(stores := st.stores[server := WithPendingFollow(st.stores[server], outcome.relationship)]), h,
          FollowStored(server, local, outcome.activity))
    case LoadFollowKey(h) =>
      var FollowStored(server, local, activity) := st.handlers[h];
      Put(st, h, FollowReady(server, local, activity))
    case SendFollow(h) =>
      var FollowReady(server, local, activity) := st.handlers[h];
      Drop(Send(st, Message(local.id, EncodeFollow(activity))), h)
    case ReceiveShared(h, server, local, body) =>
      Put(st, h, SharedTarget(server, local, body, SharedInboxTarget(c.isIri, st.stores[server], body).value.value.1))
    case VerifyShared(h, remote) =>
      var SharedTarget(server, local, body, known) := st.handlers[h];
      Put(st, h, SenderVerified(server, local, remote, body, known))
    case ReceivePersonal(h, server, local, remote, body) =>
      Put(st, h, SenderVerified(server, local, remote, body, None))
    case Act(h) => DoAct(c, st, h)
    case ConfirmLoaded(h) => DoConfirm(c, st, h)
    case LoadAnswerKey(h) =>
      var FollowerStored(server, local, followed) := st.handlers[h];
      Put(st, h, AnswerReady(server, local, followed))
    case SendAnswer(h) =>
      var AnswerReady(server, local, followed) := st.handlers[h];
      var sent := Send(st, Message(local.id, EncodeAccept(followed.accept)));
      Drop(sent.(log := st.log + [SentAccept(local.id, followed.accept)]), h)
    case SendCreate(local, create) => Send(st, Message(local.id, EncodeCreate(create)))
    case Stop(h) => Drop(st, h)
    case SendForeign(message) => Send(st, message)
  }

  // Deciding about a verified activity, up to and including its first storage call.
  function DoAct(c: Config, st: State, h: nat): State
    requires h in st.handlers && st.handlers[h].SenderVerified? && st.handlers[h].server < |st.stores|
  {
    var SenderVerified(server, local, remote, body, known) := st.handlers[h];
    var tables := st.stores[server];
    match Decide(c.isIri, body, local, remote)
    case Reply(_) => Drop(st, h)
    case Remove(undone) =>
      Drop(Commit(st, server, WithoutFollower(tables, undone.follower, undone.following),
                  RemovedFollower(server, undone.follower, undone.following)), h)
    case Add(followed) =>
      Put(Commit(st, server, WithFollower(tables, followed.follower, followed.following),
                 StoredFollower(server, followed.follower, followed.following, FollowId(followed.accept.follow))), h,
          FollowerStored(server, local, followed))
    case Confirm(accept) =>
      var loaded := if known.Some? then Ok(known) else LoadedPendingFollow(c.isIri, tables, FollowId(accept.follow));
      if loaded.Err? || loaded.value.None? then Drop(st, h)
      else if loaded.value.value.followActivity != FollowId(accept.follow) then Drop(st, h)
      else Put(st, h, AcceptLoaded(server, local, remote, accept, loaded.value.value))
  }

  function DoConfirm(c: Config, st: State, h: nat): State
    requires h in st.handlers && st.handlers[h].AcceptLoaded? && st.handlers[h].server < |st.stores|
  {
    var AcceptLoaded(server, local, remote, accept, pending) := st.handlers[h];
    if RefuseAccept(local, remote, pending, accept).Some? then Drop(st, h)
    else
      var (tables, result) := Confirmed(c.isIri, st.stores[server], pending);
      Drop(Commit(st, server, tables, ConfirmReturned(server, local, remote, accept, pending, result)), h)
  }

  // A run: states joined by enabled steps, from an initial state.
  ghost predicate Run(c: Config, states: seq<State>, steps: seq<Step>) {
    && |states| == |steps| + 1 && Init(c, states[0])
    && forall i | 0 <= i < |steps| :: Advances(c, states, steps, i)
  }

  predicate Advances(c: Config, states: seq<State>, steps: seq<Step>, i: int)
    requires |states| == |steps| + 1 && 0 <= i < |steps|
  {
    Enabled(c, states[i], steps[i]) && states[i + 1] == Do(c, states[i], steps[i])
  }

  /******* Who answered what *******/

  predicate IsStoring(e: Event, server: ServerId, a: Iri, b: Iri, followId: Iri) {
    e.StoredFollower? && e.server == server && e.follower.id == a && e.following == b && e.followId == followId
  }

  // This server stored `a` as a follower of `b`, for the Follow with this identifier, before event `n`.
  ghost predicate StoredBefore(log: seq<Event>, n: int, server: ServerId, a: Iri, b: Iri, followId: Iri) {
    exists i :: 0 <= i < n && i < |log| && IsStoring(log[i], server, a, b, followId)
  }

  ghost predicate SentBefore(log: seq<Event>, n: int, sender: Iri, accept: Accept) {
    exists i :: 0 <= i < n && i < |log| && log[i] == SentAccept(sender, accept)
  }

  // An outcome of receiving a Follow that is fit to be answered.
  predicate Answers(local: Actor, followed: FollowOutcome) {
    var follow := followed.accept.follow;
    follow.Object? && ActorId(follow.embedded.actor) == followed.follower.id && followed.following == local.id
  }

  // An Accept that was sent answers an embedded Follow, which its sender's own server stored before.
  ghost predicate Stored(c: Config, log: seq<Event>, n: int, sender: Iri, accept: Accept) {
    && sender in c.home && accept.follow.Object?
    && StoredBefore(log, n, c.home[sender], ActorId(accept.follow.embedded.actor), sender, accept.follow.embedded.id)
  }

  ghost predicate SentWereStored(c: Config, log: seq<Event>) {
    forall j | 0 <= j < |log| && log[j].SentAccept? :: Stored(c, log, j, log[j].sender, log[j].accept)
  }

  ghost predicate WireWasSent(c: Config, st: State) {
    forall m | m in st.wire && m.signer in c.home && HasType(m.body, "Accept") ::
      exists accept :: m.body == EncodeAccept(accept) && SentBefore(st.log, |st.log|, m.signer, accept)
  }

  ghost predicate HandlersAreFaithful(c: Config, st: State) {
    forall h | h in st.handlers :: FaithfulHandler(c, st, st.handlers[h])
  }

  ghost predicate FaithfulHandler(c: Config, st: State, handler: Handler) {
    match handler
    case SharedTarget(server, local, _, _) => IsHome(c, server, local)
    case SenderVerified(server, local, remote, body, _) =>
      IsHome(c, server, local) && Message(remote.id, body) in st.wire && ValidActor(c.isIri, remote)
    case AcceptLoaded(_, _, remote, accept, pending) =>
      remote.id in c.home ==> SentBefore(st.log, |st.log|, remote.id, accept)
    case FollowerStored(server, local, followed) =>
      IsHome(c, server, local) && Answers(local, followed) && Stored(c, st.log, |st.log|, local.id, followed.accept)
    case AnswerReady(server, local, followed) =>
      IsHome(c, server, local) && Answers(local, followed) && Stored(c, st.log, |st.log|, local.id, followed.accept)
    case _ => true
  }

  predicate IsHome(c: Config, server: ServerId, actor: Actor) {
    actor.id in c.home && c.home[actor.id] == server
  }

  predicate ConfirmedTrue(e: Event, server: ServerId, followId: Iri) {
    e.ConfirmReturned? && e.server == server && e.result == Ok(true) && e.pending.followActivity == followId
  }

  // Each confirmation passed the checks on an Accept that a hosted remote actor sent before.
  ghost predicate ConfirmsWereAnswered(c: Config, log: seq<Event>) {
    forall k | 0 <= k < |log| && log[k].ConfirmReturned? ::
      && RefuseAccept(log[k].local, log[k].remote, log[k].pending, log[k].accept) == None
      && (log[k].remote.id in c.home ==> SentBefore(log, k, log[k].remote.id, log[k].accept))
  }

  // A row is accepted exactly when it was confirmed, and then it is the confirmed relationship.
  ghost predicate RowsWereConfirmed(c: Config, st: State) {
    && (forall s, id | 0 <= s < |st.stores| && id in st.stores[s].outboundFollows
                       && st.stores[s].outboundFollows[id].state == FollowState.Accepted ::
          exists k :: 0 <= k < |st.log| && ConfirmedTrue(st.log[k], s, id)
                   && DecodeRow(c.isIri, id, st.stores[s].outboundFollows[id]) == Ok(st.log[k].pending))
    && (forall k | 0 <= k < |st.log| && st.log[k].ConfirmReturned? && st.log[k].result == Ok(true) ::
          AcceptedRow(st, st.log[k].server, st.log[k].pending.followActivity))
  }

  predicate AcceptedRow(st: State, server: ServerId, id: Iri) {
    && server < |st.stores| && id in st.stores[server].outboundFollows
    && st.stores[server].outboundFollows[id].state == FollowState.Accepted
  }

  ghost predicate ConfirmedOnce(log: seq<Event>) {
    forall i, j | 0 <= i < j < |log| && log[i].ConfirmReturned? && log[i].result == Ok(true) ::
      !ConfirmedTrue(log[j], log[i].server, log[i].pending.followActivity)
  }

  // The follower events of one server, in order.
  function FollowerEvents(log: seq<Event>, server: ServerId): seq<FollowerEvent> {
    if log == [] then []
    else
      var before, e := FollowerEvents(log[..|log| - 1], server), log[|log| - 1];
      if e.StoredFollower? && e.server == server then before + [Followed(e.follower, e.following)]
      else if e.RemovedFollower? && e.server == server then before + [Unfollowed(e.undone, e.following)]
      else before
  }

  const EMPTY: Tables := Tables(map[], map[], map[], map[])

  ghost predicate FollowersAreReplayed(c: Config, st: State) {
    && (forall s | 0 <= s < |st.stores| :: st.stores[s].followers == Replay(EMPTY, FollowerEvents(st.log, s)).followers)
    && (forall i | 0 <= i < |st.log| && st.log[i].StoredFollower? :: ValidActor(c.isIri, st.log[i].follower))
  }

  ghost predicate Inv(c: Config, st: State) {
    && SentWereStored(c, st.log) && WireWasSent(c, st) && HandlersAreFaithful(c, st) && ConfirmsWereAnswered(c, st.log)
    && RowsWereConfirmed(c, st) && ConfirmedOnce(st.log) && FollowersAreReplayed(c, st)
  }

  /******* What a step does to the stores is what it records *******/

  // `pended` is the relationship stored as pending, the one write that the log does not record.
  predicate Recorded(c: Config, st: State, st': State, pended: Option<(ServerId, PendingFollow)>) {
    if st'.log == st.log then
      match pended
      case None => st'.stores == st.stores
      case Some((server, p)) =>
        server < |st.stores| && st'.stores == st.stores[server := WithPendingFollow(st.stores[server], p)]
    else
      |st'.log| == |st.log| + 1 && st.log <= st'.log && Wrote(c, st.stores, st'.stores, st'.log[|st.log|])
  }

  predicate Wrote(c: Config, stores: seq<Tables>, stores': seq<Tables>, e: Event) {
    match e
    case StoredFollower(server, follower, following, _) =>
      server < |stores| && stores' == stores[server := WithFollower(stores[server], follower, following)]
    case RemovedFollower(server, undone, following) =>
      server < |stores| && stores' == stores[server := WithoutFollower(stores[server], undone, following)]
    case SentAccept(_, _) => stores' == stores
    case ConfirmReturned(server, local, remote, accept, pending, result) =>
      && server < |stores| && RefuseAccept(local, remote, pending, accept) == None
      && stores' == stores[server := Confirmed(c.isIri, stores[server], pending).0]
      && result == Confirmed(c.isIri, stores[server], pending).1
  }

  lemma ActIsRecorded(c: Config, st: State, h: nat)
    requires Enabled(c, st, Act(h))
    ensures Recorded(c, st, DoAct(c, st, h), None) && DoAct(c, st, h).wire == st.wire
  {
    var log' := DoAct(c, st, h).log;
    assert |log'| > |st.log| ==> log'[..|st.log|] == st.log;
  }

  lemma StepIsRecorded(c: Config, st: State, step: Step) returns (pended: Option<(ServerId, PendingFollow)>)
    requires Enabled(c, st, step)
    ensures Recorded(c, st, Do(c, st, step), pended) && st.wire <= Do(c, st, step).wire
  {
    pended := None;
    match step
    case StorePending(h) =>
      var Resolved(server, local, remote, followId) := st.handlers[h];
      pended := Some((server, CreateFollow(local, remote, followId).relationship));
    case Act(h) =>
      ActIsRecorded(c, st, h);
    case ConfirmLoaded(h) =>
      assert DoConfirm(c, st, h).log[..|st.log|] == st.log;
    case _ =>
  }

  // Why a step may record what it does.
  ghost predicate Justified(c: Config, st: State, e: Event) {
    match e
    case StoredFollower(_, follower, following, followId) =>
      ValidActor(c.isIri, follower) && SignedFollow(c, st, follower.id, following, followId)
    case RemovedFollower(_, undone, following) => SignedUndo(c, st, undone, following)
    case SentAccept(sender, accept) => Stored(c, st.log, |st.log|, sender, accept)
    case ConfirmReturned(_, _, remote, accept, _, _) =>
      remote.id in c.home ==> SentBefore(st.log, |st.log|, remote.id, accept)
  }

  // The body is a Follow of `l` by `a` with this identifier.
  predicate IsFollowOf(isIri: IriTest, body: Value, a: Iri, l: Iri, followId: Iri) {
    match DecodeFollow(isIri, body)
    case None => false
    case Some(follow) => follow.id == followId && ActorId(follow.actor) == a && ActorId(follow.target) == l
  }

  // The body is an Undo by `a` of a Follow of `l` by `a`.
  predicate IsUndoOf(isIri: IriTest, body: Value, a: Iri, l: Iri) {
    match DecodeUndo(isIri, body)
    case None => false
    case Some(undo) =>
      && ActorId(undo.actor) == a && undo.follow.Object?
      && ActorId(undo.follow.embedded.actor) == a && ActorId(undo.follow.embedded.target) == l
  }

  ghost predicate SignedFollow(c: Config, st: State, a: Iri, l: Iri, followId: Iri) {
    exists body :: Message(a, body) in st.wire && IsFollowOf(c.isIri, body, a, l, followId)
  }

  ghost predicate SignedUndo(c: Config, st: State, a: Iri, l: Iri) {
    exists body :: Message(a, body) in st.wire && IsUndoOf(c.isIri, body, a, l)
  }

  lemma ActIsJustified(c: Config, st: State, h: nat)
    requires HandlersAreFaithful(c, st) && Enabled(c, st, Act(h))
    ensures |DoAct(c, st, h).log| > |st.log| ==> Justified(c, st, DoAct(c, st, h).log[|st.log|])
  {
    var SenderVerified(server, local, remote, body, known) := st.handlers[h];
    assert FaithfulHandler(c, st, st.handlers[h]);
    DecisionIsFaithful(c.isIri, body, local, remote);
    assert Message(remote.id, body) in st.wire;
  }

  lemma StepIsJustified(c: Config, st: State, step: Step)
    requires HandlersAreFaithful(c, st) && Enabled(c, st, step)
    ensures |Do(c, st, step).log| > |st.log| ==> Justified(c, st, Do(c, st, step).log[|st.log|])
  {
    match step
    case Act(h) => ActIsJustified(c, st, h);
    case ConfirmLoaded(h) => assert FaithfulHandler(c, st, st.handlers[h]);
    case SendAnswer(h) => assert FaithfulHandler(c, st, st.handlers[h]);
    case _ =>
  }

  lemma BeforeIsStable(log: seq<Event>, log': seq<Event>, n: int, n': int)
    requires log <= log' && n <= n'
    ensures forall s, a, b, f :: StoredBefore(log, n, s, a, b, f) ==> StoredBefore(log', n', s, a, b, f)
    ensures forall sender, accept :: SentBefore(log, n, sender, accept) ==> SentBefore(log', n', sender, accept)
  {
    forall s, a, b, f | StoredBefore(log, n, s, a, b, f) ensures StoredBefore(log', n', s, a, b, f) {
      var i :| 0 <= i < n && i < |log| && IsStoring(log[i], s, a, b, f);
      assert log'[i] == log[i];
    }
    forall sender, accept | SentBefore(log, n, sender, accept) ensures SentBefore(log', n', sender, accept) {
      var i :| 0 <= i < n && i < |log| && log[i] == SentAccept(sender, accept);
      assert log'[i] == log[i];
    }
  }

  /******* Every recorded step keeps the invariant on stores and log *******/

  lemma RecordKeepsSent(c: Config, st: State, st': State, pended: Option<(ServerId, PendingFollow)>)
    requires SentWereStored(c, st.log) && Recorded(c, st, st', pended)
    requires |st'.log| > |st.log| ==> Justified(c, st, st'.log[|st.log|])
    ensures SentWereStored(c, st'.log)
  {
    forall j | 0 <= j < |st'.log| && st'.log[j].SentAccept?
      ensures Stored(c, st'.log, j, st'.log[j].sender, st'.log[j].accept)
    {
      if j < |st.log| {
        assert st'.log[j] == st.log[j];
        BeforeIsStable(st.log, st'.log, j, j);
      } else {
        BeforeIsStable(st.log, st'.log, |st.log|, j);
      }
    }
  }

  lemma RecordKeepsConfirms(c: Config, st: State, st': State, pended: Option<(ServerId, PendingFollow)>)
    requires ConfirmsWereAnswered(c, st.log) && Recorded(c, st, st', pended)
    requires |st'.log| > |st.log| ==> Justified(c, st, st'.log[|st.log|])
    ensures ConfirmsWereAnswered(c, st'.log)
  {
    forall k | 0 <= k < |st'.log| && st'.log[k].ConfirmReturned?
      ensures RefuseAccept(st'.log[k].local, st'.log[k].remote, st'.log[k].pending, st'.log[k].accept) == None
      ensures st'.log[k].remote.id in c.home ==> SentBefore(st'.log, k, st'.log[k].remote.id, st'.log[k].accept)
    {
      if k < |st.log| {
        assert st'.log[k] == st.log[k];
        BeforeIsStable(st.log, st'.log, k, k);
      } else {
        BeforeIsStable(st.log, st'.log, |st.log|, k);
      }
    }
  }

  // An accepted row is never changed, and only a confirmation that returns true makes one.
  lemma AcceptedRowsAreStable(
    c: Config, st: State, st': State, pended: Option<(ServerId, PendingFollow)>, server: ServerId, id: Iri)
    requires Recorded(c, st, st', pended)
    ensures AcceptedRow(st, server, id) ==>
              AcceptedRow(st', server, id)
                && st'.stores[server].outboundFollows[id] == st.stores[server].outboundFollows[id]
    ensures AcceptedRow(st', server, id) && !AcceptedRow(st, server, id) ==>
              && |st'.log| > |st.log| && ConfirmedTrue(st'.log[|st.log|], server, id)
              && DecodeRow(c.isIri, id, st'.stores[server].outboundFollows[id]) == Ok(st'.log[|st.log|].pending)
    ensures |st'.log| > |st.log| && ConfirmedTrue(st'.log[|st.log|], server, id) ==>
              !AcceptedRow(st, server, id) && AcceptedRow(st', server, id)
  {
    if |st'.log| > |st.log| && st'.log[|st.log|].ConfirmReturned? {
      ConfirmOnce(c.isIri, st.stores[st'.log[|st.log|].server], st'.log[|st.log|].pending);
    }
  }

  lemma RecordKeepsRows(c: Config, st: State, st': State, pended: Option<(ServerId, PendingFollow)>)
    requires RowsWereConfirmed(c, st) && ConfirmedOnce(st.log) && Recorded(c, st, st', pended)
    ensures RowsWereConfirmed(c, st') && ConfirmedOnce(st'.log)
  {
    forall s, id | 0 <= s < |st'.stores| && id in st'.stores[s].outboundFollows
                   && st'.stores[s].outboundFollows[id].state == FollowState.Accepted
      ensures exists k :: 0 <= k < |st'.log| && ConfirmedTrue(st'.log[k], s, id)
                       && DecodeRow(c.isIri, id, st'.stores[s].outboundFollows[id]) == Ok(st'.log[k].pending)
    {
      AcceptedRowsAreStable(c, st, st', pended, s, id);
      assert AcceptedRow(st', s, id);
      if AcceptedRow(st, s, id) {
        var k :| 0 <= k < |st.log| && ConfirmedTrue(st.log[k], s, id)
                 && DecodeRow(c.isIri, id, st.stores[s].outboundFollows[id]) == Ok(st.log[k].pending);
        assert st'.log[k] == st.log[k];
      }
    }
    forall k | 0 <= k < |st'.log| && st'.log[k].ConfirmReturned? && st'.log[k].result == Ok(true)
      ensures AcceptedRow(st', st'.log[k].server, st'.log[k].pending.followActivity)
      ensures forall i | 0 <= i < k && st'.log[i].ConfirmReturned? && st'.log[i].result == Ok(true) ::
                !ConfirmedTrue(st'.log[k], st'.log[i].server, st'.log[i].pending.followActivity)
    {
      AcceptedRowsAreStable(c, st, st', pended, st'.log[k].server, st'.log[k].pending.followActivity);
      assert forall i | 0 <= i < |st.log| :: st'.log[i] == st.log[i];
    }
  }

  lemma RecordKeepsFollowers(c: Config, st: State, st': State, pended: Option<(ServerId, PendingFollow)>)
    requires FollowersAreReplayed(c, st) && Recorded(c, st, st', pended)
    requires |st'.log| > |st.log| ==> Justified(c, st, st'.log[|st.log|])
    ensures FollowersAreReplayed(c, st')
  {
    if |st'.log| > |st.log| {
      assert st'.log[..|st'.log| - 1] == st.log;
      forall s | 0 <= s < |st'.stores|
        ensures st'.stores[s].followers == Replay(EMPTY, FollowerEvents(st'.log, s)).followers
      {
        ReplayOneMore(FollowerEvents(st.log, s), FollowerEvents(st'.log, s));
      }
    }
  }

  lemma ReplayOneMore(events: seq<FollowerEvent>, events': seq<FollowerEvent>)
    requires events <= events' && |events'| <= |events| + 1
    ensures |events'| > |events| ==> Replay(EMPTY, events') == Apply(Replay(EMPTY, events), events'[|events|])
    ensures |events'| == |events| ==> events' == events
  {
    if |events'| > |events| {
      assert events'[..|events'| - 1] == events;
    }
  }

  /******* Every step keeps the invariant on the network and the handlers *******/

  lemma OtherBodiesAreNotAccepts(f: Follow, create: Create)
    ensures !HasType(EncodeFollow(f), "Accept") && !HasType(EncodeCreate(create), "Accept")
  {
    var fields := Activity("Follow", f.context, f.id, f.actor, EncodeActorReference(f.target));
    assert fields + [] == fields;
    ActivityMembersAreFound("Follow", f.context, f.id, f.actor, EncodeActorReference(f.target), []);
    EncodedCreateMembers(create);
    assert "Follow"[0] == 'F' && "Create"[0] == 'C' && "Accept"[0] == 'A';
  }

  lemma StepKeepsWire(c: Config, st: State, step: Step)
    requires WireWasSent(c, st) && Enabled(c, st, step)
    ensures WireWasSent(c, Do(c, st, step))
  {
    var st' := Do(c, st, step);
    var _ := StepIsRecorded(c, st, step);
    BeforeIsStable(st.log, st'.log, |st.log|, |st'.log|);
    forall m | m in st'.wire && m.signer in c.home && HasType(m.body, "Accept")
      ensures exists accept :: m.body == EncodeAccept(accept) && SentBefore(st'.log, |st'.log|, m.signer, accept)
    {
      if m in st.wire {
        var accept :| m.body == EncodeAccept(accept) && SentBefore(st.log, |st.log|, m.signer, accept);
      } else if step.SendAnswer? {
        var accept := st.handlers[step.h].followed.accept;
        assert st'.log[|st.log|] == SentAccept(m.signer, accept);
      } else if step.SendFollow? {
        OtherBodiesAreNotAccepts(st.handlers[step.h].activity, Create(None, "", Id(""), Id(""), [], []));
      } else if step.SendCreate? {
        OtherBodiesAreNotAccepts(Follow(None, "", Id(""), Id("")), step.create);
      }
    }
  }

  // A verified Accept of a hosted actor decodes to an Accept that actor sent.
  lemma DecodedAcceptWasSent(c: Config, st: State, body: Value, remote: Actor, accept: Accept)
    requires WireWasSent(c, st) && Message(remote.id, body) in st.wire && remote.id in c.home
    requires HasType(body, "Accept") && DecodeAccept(c.isIri, body) == Some(accept)
    ensures SentBefore(st.log, |st.log|, remote.id, accept)
  {
    assert Message(remote.id, body).signer in c.home;
    var sent :| body == EncodeAccept(sent) && SentBefore(st.log, |st.log|, remote.id, sent);
    AcceptRoundTrip(c.isIri, sent);
  }

  // What the decision about a verified activity says of the activity.
  lemma DecisionIsFaithful(isIri: IriTest, body: Value, local: Actor, remote: Actor)
    ensures var decision := Decide(isIri, body, local, remote);
            && (decision.Add? ==>
                  && Answers(local, decision.followed) && decision.followed.follower == remote
                  && IsFollowOf(isIri, body, remote.id, local.id, FollowId(decision.followed.accept.follow)))
            && (decision.Remove? ==>
                  decision.undone == UndoFollowOutcome(remote.id, local.id)
                    && IsUndoOf(isIri, body, remote.id, local.id))
            && (decision.Confirm? ==> HasType(body, "Accept") && DecodeAccept(isIri, body) == Some(decision.accept))
  {
  }

  lemma ActIsFaithful(c: Config, st: State, h: nat)
    requires WireWasSent(c, st) && HandlersAreFaithful(c, st) && Enabled(c, st, Act(h))
    ensures var st' := DoAct(c, st, h); h in st'.handlers ==> FaithfulHandler(c, st', st'.handlers[h])
    ensures var st' := DoAct(c, st, h);
            forall i | i in st'.handlers && i != h :: i in st.handlers && st'.handlers[i] == st.handlers[i]
  {
    var SenderVerified(server, local, remote, body, known) := st.handlers[h];
    assert FaithfulHandler(c, st, st.handlers[h]);
    var st' := DoAct(c, st, h);
    DecisionIsFaithful(c.isIri, body, local, remote);
    match Decide(c.isIri, body, local, remote)
    case Add(followed) =>
      assert IsStoring(st'.log[|st.log|], server, followed.follower.id, local.id, FollowId(followed.accept.follow));
    case Confirm(accept) =>
      if remote.id in c.home {
        DecodedAcceptWasSent(c, st, body, remote, accept);
      }
    case _ =>
  }

  // A handler stays faithful while the log and the network grow.
  lemma FaithIsStable(c: Config, st: State, st': State, handler: Handler)
    requires FaithfulHandler(c, st, handler) && st.log <= st'.log && st.wire <= st'.wire
    ensures FaithfulHandler(c, st', handler)
  {
    BeforeIsStable(st.log, st'.log, |st.log|, |st'.log|);
  }

  // The handler that takes a step, unless that step is deciding about an activity.
  lemma MovedHandlerIsFaithful(c: Config, st: State, step: Step, h: nat)
    requires HandlersAreFaithful(c, st) && Enabled(c, st, step) && !step.Act?
    requires h in Do(c, st, step).handlers && (h in st.handlers ==> st.handlers[h] != Do(c, st, step).handlers[h])
    ensures FaithfulHandler(c, st, Do(c, st, step).handlers[h])
  {
    assert h in st.handlers ==> FaithfulHandler(c, st, st.handlers[h]);
  }

  lemma StepKeepsHandlers(c: Config, st: State, step: Step)
    requires WireWasSent(c, st) && HandlersAreFaithful(c, st) && Enabled(c, st, step)
    ensures HandlersAreFaithful(c, Do(c, st, step))
  {
    var st' := Do(c, st, step);
    var _ := StepIsRecorded(c, st, step);
    forall h | h in st'.handlers ensures FaithfulHandler(c, st', st'.handlers[h]) {
      if h in st.handlers && st.handlers[h] == st'.handlers[h] {
        FaithIsStable(c, st, st', st.handlers[h]);
      } else if step.Act? {
        ActIsFaithful(c, st, step.h);
        assert h == step.h && st' == DoAct(c, st, h);
      } else {
        MovedHandlerIsFaithful(c, st, step, h);
        FaithIsStable(c, st, st', st'.handlers[h]);
      }
    }
  }

  lemma StepKeepsInv(c: Config, st: State, step: Step)
    requires Inv(c, st) && Enabled(c, st, step)
    ensures Inv(c, Do(c, st, step))
  {
    var st' := Do(c, st, step);
    var pended := StepIsRecorded(c, st, step);
    StepIsJustified(c, st, step);
    RecordKeepsSent(c, st, st', pended);
    RecordKeepsConfirms(c, st, st', pended);
    RecordKeepsRows(c, st, st', pended);
    RecordKeepsFollowers(c, st, st', pended);
    StepKeepsWire(c, st, step);
    StepKeepsHandlers(c, st, step);
  }

  lemma {:induction false} RunKeepsInv(c: Config, states: seq<State>, steps: seq<Step>, n: nat)
    requires Run(c, states, steps) && n < |states|
    ensures Inv(c, states[n])
  {
    if n > 0 {
      RunKeepsInv(c, states, steps, n - 1);
      assert Advances(c, states, steps, n - 1);
      StepKeepsInv(c, states[n - 1], steps[n - 1]);
    }
  }

  /******* Main results *******/

  // First the server of `b` stores `a`, then `b` sends an Accept embedding that Follow, then the row is confirmed.
  ghost predicate Handshaken(log: seq<Event>, server: ServerId, remote: ServerId, a: Iri, b: Iri, followId: Iri) {
    exists i, j, k :: 0 <= i < j < k < |log|
      && IsStoring(log[i], remote, a, b, followId)
      && log[j].SentAccept? && log[j].sender == b && log[j].accept.follow.Object?
      && log[j].accept.follow.embedded.id == followId && ActorId(log[j].accept.follow.embedded.actor) == a
      && ConfirmedTrue(log[k], server, followId) && log[k].accept == log[j].accept
  }

  /**
   Handshake safety. In every run, a row that is accepted with a remote actor hosted by a Feder
   server was preceded by that very server storing the local actor as a follower for a Follow with
   the row's identifier, and only then by its sending the Accept that confirmed the row.
   */
  lemma HandshakeSafety(c: Config, states: seq<State>, steps: seq<Step>, n: nat, server: ServerId, id: Iri)
    requires Run(c, states, steps) && n < |states| && AcceptedRow(states[n], server, id)
    ensures var row := DecodeRow(c.isIri, id, states[n].stores[server].outboundFollows[id]);
            && row.Ok?
            && var a, b := row.value.localActor, row.value.remoteActor.id;
               b in c.home ==> Handshaken(states[n].log, server, c.home[b], a, b, id)
  {
    var st := states[n];
    RunKeepsInv(c, states, steps, n);
    var k :| 0 <= k < |st.log| && ConfirmedTrue(st.log[k], server, id)
             && DecodeRow(c.isIri, id, st.stores[server].outboundFollows[id]) == Ok(st.log[k].pending);
    if st.log[k].pending.remoteActor.id in c.home {
      ConfirmedHandshake(c, st.log, server, id, k);
    }
  }

  lemma ConfirmedHandshake(c: Config, log: seq<Event>, server: ServerId, id: Iri, k: nat)
    requires SentWereStored(c, log) && ConfirmsWereAnswered(c, log)
    requires k < |log| && ConfirmedTrue(log[k], server, id) && log[k].pending.remoteActor.id in c.home
    ensures var a, b := log[k].pending.localActor, log[k].pending.remoteActor.id;
            Handshaken(log, server, c.home[b], a, b, id)
  {
    var accept, remote := log[k].accept, log[k].remote;
    var j :| 0 <= j < k && j < |log| && log[j] == SentAccept(remote.id, accept);
    var i := AnswerWasStored(c, log, j);
  }

  lemma AnswerWasStored(c: Config, log: seq<Event>, j: nat) returns (i: nat)
    requires SentWereStored(c, log) && j < |log| && log[j].SentAccept?
    ensures i < j && log[j].accept.follow.Object? && log[j].sender in c.home
    ensures var follow, sender := log[j].accept.follow.embedded, log[j].sender;
            IsStoring(log[i], c.home[sender], ActorId(follow.actor), sender, follow.id)
  {
    var follow, sender := log[j].accept.follow, log[j].sender;
    assert Stored(c, log, j, sender, log[j].accept);
    i :| 0 <= i < j && i < |log|
         && IsStoring(log[i], c.home[sender], ActorId(follow.embedded.actor), sender, follow.embedded.id);
  }

  /**
   Confirmation is linearizable. In every run an accepted row was confirmed exactly once, with the
   relationship that passed the checks, and from then on the row never changes.
   */
  lemma ConfirmationIsLinearizable(c: Config, states: seq<State>, steps: seq<Step>, n: nat, server: ServerId, id: Iri)
    returns (k: nat)
    requires Run(c, states, steps) && n < |states| && AcceptedRow(states[n], server, id)
    ensures var log := states[n].log;
            && k < |log| && ConfirmedTrue(log[k], server, id)
            && (forall j | 0 <= j < |log| && ConfirmedTrue(log[j], server, id) :: j == k)
            && DecodeRow(c.isIri, id, states[n].stores[server].outboundFollows[id]) == Ok(log[k].pending)
            && ReceiveAcceptFollow(log[k].local, log[k].remote, log[k].pending, log[k].accept) == Ok(())
    ensures forall m | n <= m < |states| ::
              AcceptedRow(states[m], server, id)
              && states[m].stores[server].outboundFollows[id] == states[n].stores[server].outboundFollows[id]
  {
    var st := states[n];
    RunKeepsInv(c, states, steps, n);
    k :| 0 <= k < |st.log| && ConfirmedTrue(st.log[k], server, id)
         && DecodeRow(c.isIri, id, st.stores[server].outboundFollows[id]) == Ok(st.log[k].pending);
    forall m | n <= m < |states|
      ensures AcceptedRow(states[m], server, id)
      ensures states[m].stores[server].outboundFollows[id] == st.stores[server].outboundFollows[id]
    {
      RowStaysAccepted(c, states, steps, n, m, server, id);
    }
  }

  lemma {:induction false} RowStaysAccepted(
    c: Config, states: seq<State>, steps: seq<Step>, n: nat, m: nat, server: ServerId, id: Iri)
    requires Run(c, states, steps) && n <= m < |states| && AcceptedRow(states[n], server, id)
    ensures AcceptedRow(states[m], server, id)
    ensures states[m].stores[server].outboundFollows[id] == states[n].stores[server].outboundFollows[id]
    decreases m - n
  {
    if n < m {
      RowStaysAccepted(c, states, steps, n, m - 1, server, id);
      AdvanceKeepsAcceptedRow(c, states, steps, m - 1, server, id);
    }
  }

  lemma AdvanceKeepsAcceptedRow(c: Config, states: seq<State>, steps: seq<Step>, i: nat, server: ServerId, id: Iri)
    requires |states| == |steps| + 1 && i < |steps| && Advances(c, states, steps, i)
             && AcceptedRow(states[i], server, id)
    ensures AcceptedRow(states[i + 1], server, id)
    ensures states[i + 1].stores[server].outboundFollows[id] == states[i].stores[server].outboundFollows[id]
  {
    var pended := StepIsRecorded(c, states[i], steps[i]);
    AcceptedRowsAreStable(c, states[i], states[i + 1], pended, server, id);
  }

  /** A confirmation that returns true found the row pending and equal to the checked relationship. */
  lemma ConfirmComparesAndSets(c: Config, st: State, h: nat)
    requires Enabled(c, st, ConfirmLoaded(h))
    requires RefuseAccept(st.handlers[h].local, st.handlers[h].remote, st.handlers[h].pending, st.handlers[h].accept)
             == None
    ensures var st' := Do(c, st, ConfirmLoaded(h));
            var server, pending := st.handlers[h].server, st.handlers[h].pending;
            && |st'.log| == |st.log| + 1 && st'.log[|st.log|].ConfirmReturned?
            && (st'.log[|st.log|].result == Ok(true) <==>
                  LoadedPendingFollow(c.isIri, st.stores[server], pending.followActivity) == Ok(Some(pending)))
            && (st'.log[|st.log|].result != Ok(true) ==> st'.stores == st.stores)
  {
    ConfirmOnce(c.isIri, st.stores[st.handlers[h].server], st.handlers[h].pending);
  }

  /** In every run each server lists exactly the actors whose last recorded event there is a Follow, in order. */
  lemma FollowersOverRuns(c: Config, states: seq<State>, steps: seq<Step>, n: nat, server: ServerId, following: Iri)
    requires Run(c, states, steps) && n < |states| && server < |states[n].stores|
    ensures var listed := ListedFollowers(c.isIri, states[n].stores[server], following);
            && listed.Ok? && Ordering.StrictlyIncreasing(listed.value)
            && forall a :: a in listed.value <==> Follows(FollowerEvents(states[n].log, server), a, following)
  {
    RunKeepsInv(c, states, steps, n);
    var events := FollowerEvents(states[n].log, server);
    FollowerEventsAreValid(c, states[n].log, server);
    ListAfterReplay(c.isIri, EMPTY, events, following);
    assert FollowersOf(states[n].stores[server], following) == FollowersOf(Replay(EMPTY, events), following);
  }

  lemma {:induction false} FollowerEventsAreValid(c: Config, log: seq<Event>, server: ServerId)
    requires forall i | 0 <= i < |log| && log[i].StoredFollower? :: ValidActor(c.isIri, log[i].follower)
    ensures forall i | 0 <= i < |FollowerEvents(log, server)| && FollowerEvents(log, server)[i].Followed? ::
              ValidActor(c.isIri, FollowerEvents(log, server)[i].actor)
  {
    if log != [] {
      FollowerEventsAreValid(c, log[..|log| - 1], server);
    }
  }

  /**
   A step adds or changes the row of a follower `a` of `l` only when `a` signed a Follow of `l` that reached
   the network, and removes it only when `a` signed an Undo of such a Follow.
   */
  lemma OnlySignersChangeTheirRows(c: Config, st: State, step: Step, server: ServerId, a: Iri, l: Iri)
    requires Inv(c, st) && Enabled(c, st, step) && server < |st.stores|
    requires Differ(st.stores[server].followers, Do(c, st, step).stores[server].followers, (a, l))
    ensures if (a, l) in Do(c, st, step).stores[server].followers then
              exists followId :: SignedFollow(c, st, a, l, followId)
            else SignedUndo(c, st, a, l)
  {
    var _ := StepIsRecorded(c, st, step);
    StepIsJustified(c, st, step);
    RecordedChange(c, st, Do(c, st, step), server, a, l);
  }

  predicate Differ<K, V(==)>(before: map<K, V>, after: map<K, V>, k: K) {
    (k in before) != (k in after) || (k in before && before[k] != after[k])
  }

  lemma RecordedChange(c: Config, st: State, st': State, server: ServerId, a: Iri, l: Iri)
    requires |st'.log| > |st.log| && Justified(c, st, st'.log[|st.log|])
    requires Wrote(c, st.stores, st'.stores, st'.log[|st.log|])
    requires server < |st.stores| && Differ(st.stores[server].followers, st'.stores[server].followers, (a, l))
    ensures if (a, l) in st'.stores[server].followers then exists followId :: SignedFollow(c, st, a, l, followId)
            else SignedUndo(c, st, a, l)
  {
  }

  /******* An undisturbed handler does what the methods do *******/

  // The steps of a handler from its decision to its end, when no other handler runs in between.
  function Alone(c: Config, st: State, h: nat): State
    requires Enabled(c, st, Act(h))
  {
    var decided := DoAct(c, st, h);
    if h !in decided.handlers then decided
    else if decided.handlers[h].AcceptLoaded? then DoConfirm(c, decided, h)
    else if !Enabled(c, decided, LoadAnswerKey(h)) then Drop(decided, h)
    else Do(c, Do(c, decided, LoadAnswerKey(h)), SendAnswer(h))
  }

  ghost predicate DoesAsReceived(c: Config, st: State, st': State, h: nat)
    requires Enabled(c, st, Act(h))
  {
    var SenderVerified(server, local, remote, body, known) := st.handlers[h];
    var received := Received(c.isIri, st.stores[server], local, remote, body, known, true);
    && st'.stores == st.stores[server := received.tables] && st'.handlers == st.handlers - {h}
    && st'.wire == if received.sent.Some? then st.wire + {Message(local.id, EncodeAccept(received.sent.value.0))}
       else st.wire
  }

  lemma UndisturbedAccept(c: Config, st: State, h: nat)
    requires Enabled(c, st, Act(h))
    requires Decide(c.isIri, st.handlers[h].body, st.handlers[h].local, st.handlers[h].remote).Confirm?
    ensures DoesAsReceived(c, st, Alone(c, st, h), h)
  {
    var server := st.handlers[h].server;
    assert st.stores[server := st.stores[server]] == st.stores;
  }

  lemma UndisturbedAnswer(c: Config, st: State, h: nat)
    requires Enabled(c, st, Act(h))
    requires Decide(c.isIri, st.handlers[h].body, st.handlers[h].local, st.handlers[h].remote).Add?
    ensures DoesAsReceived(c, st, Alone(c, st, h), h)
  {
  }

  /**
   The steps of one reception, undisturbed, change the server's tables and the network as receiving the
   activity does.
   */
  lemma UndisturbedReception(c: Config, st: State, h: nat)
    requires Enabled(c, st, Act(h))
    ensures DoesAsReceived(c, st, Alone(c, st, h), h)
  {
    var SenderVerified(server, local, remote, body, known) := st.handlers[h];
    match Decide(c.isIri, body, local, remote)
    case Confirm(accept) => UndisturbedAccept(c, st, h);
    case Add(followed) => UndisturbedAnswer(c, st, h);
    case _ => assert st.stores[server := st.stores[server]] == st.stores;
  }

  /** The steps of following an actor, undisturbed, do what the method does. */
  lemma UndisturbedFollow(c: Config, st: State, h: nat, localActorId: Iri)
    requires Enabled(c, st, StorePending(h)) && st.handlers[h].local.id in st.stores[st.handlers[h].server].keys
    ensures var Resolved(server, local, remote, followId) := st.handlers[h];
            var attempt := Following.Followed(
              st.stores[server], localActorId, Ok(Some(local)), Ok(remote), followId, None);
            var stored := Do(c, st, StorePending(h));
            && Enabled(c, stored, LoadFollowKey(h))
            && var ready := Do(c, stored, LoadFollowKey(h));
               var st' := Do(c, ready, SendFollow(h));
               && st'.stores == st.stores[server := attempt.tables] && st'.handlers == st.handlers - {h}
               && attempt.result.Ok? && st'.wire == st.wire + {Message(local.id, EncodeFollow(attempt.result.value))}
  {
  }
}
