/**
 Any number of callers that load or provision an actor's key pair at once. Each call is split at its
 storage statements, so other calls, other processes and strict inserts may run in between.
 */
module KeyProvisioning {
  import opened Wrappers
  import opened Vocab
  import opened Cavage
  import opened Store

  /** Where a call stands. */
  datatype Call =
    | Started(actor: Iri)
    | Missing(actor: Iri)
    | Generated(actor: Iri, pair: ActorKeyPair)
    | Conflicted(actor: Iri)
    | Returned(actor: Iri, result: Result<ActorKeyPair, StoreError>)

  datatype State = State(keys: map<Iri, ActorKeyPair>, calls: map<nat, Call>)

  datatype Step =
    | Begin(h: nat, actor: Iri)
    | Load(h: nat)
    | Generate(h: nat, generated: Option<ActorKeyPair>)
    | Insert(h: nat)
    | Reload(h: nat)
    | InsertStrictly(actor: Iri, pair: ActorKeyPair)
    | Stop(h: nat)

  predicate Enabled(st: State, step: Step) {
    match step
    case Begin(h, _) => h !in st.calls
    case Load(h) => h in st.calls && st.calls[h].Started?
    case Generate(h, _) => h in st.calls && st.calls[h].Missing?
    case Insert(h) => h in st.calls && st.calls[h].Generated?
    case Reload(h) => h in st.calls && st.calls[h].Conflicted?
    case InsertStrictly(_, _) => true
    case Stop(h) => h in st.calls
  }

  function Do(st: State, step: Step): State
    requires Enabled(st, step)
  {
    match step
    case Begin(h, actor) => Put(st, h, Started(actor))
    case Load(h) =>
      var actor := st.calls[h].actor;
      Put(st, h, if actor in st.keys then Returned(actor, Ok(st.keys[actor])) else Missing(actor))
    case Generate(h, generated) =>
      var actor := st.calls[h].actor;
      Put(st, h, if generated.Some? then Generated(actor, generated.value) else Returned(actor, Err(KeyGeneration)))
    case Insert(h) =>
      var Generated(actor, pair) := st.calls[h];
      if actor in st.keys then Put(st, h, Conflicted(actor))
      else Put(st.(keys := st.keys[actor := pair]), h, Returned(actor, Ok(pair)))
    case Reload(h) =>
      var actor := st.calls[h].actor;
      Put(st, h, Returned(actor, if actor in st.keys then Ok(st.keys[actor]) else Err(ActorKeyProvisioning)))
    case InsertStrictly(actor, pair) => if actor in st.keys then st else st.(keys := st.keys[actor := pair])
    case Stop(h) => st.(calls := st.calls - {h})
  }

  function Put(st: State, h: nat, call: Call): State {
    st.(calls := st.calls[h := call])
  }

  ghost predicate Run(states: seq<State>, steps: seq<Step>) {
    && |states| == |steps| + 1 && states[0].calls == map[]
    && forall i | 0 <= i < |steps| :: Advances(states, steps, i)
  }

  predicate Advances(states: seq<State>, steps: seq<Step>, i: int)
    requires |states| == |steps| + 1 && 0 <= i < |steps|
  {
    Enabled(states[i], steps[i]) && states[i + 1] == Do(states[i], steps[i])
  }

  /******* The invariant *******/

  // The row of an actor holds this pair.
  predicate Holds(st: State, actor: Iri, pair: ActorKeyPair) {
    actor in st.keys && st.keys[actor] == pair
  }

  // A successful call returned the stored pair; a call that lost the race finds a row.
  predicate Sound(st: State, call: Call) {
    match call
    case Conflicted(actor) => actor in st.keys
    case Returned(actor, Ok(pair)) => Holds(st, actor, pair)
    case Returned(actor, Err(error)) => error == KeyGeneration
    case _ => true
  }

  ghost predicate Inv(st: State) {
    forall h | h in st.calls :: Sound(st, st.calls[h])
  }

  ghost predicate Extends(st: State, st': State) {
    forall actor | actor in st.keys :: Holds(st', actor, st.keys[actor])
  }

  lemma StepExtends(st: State, step: Step)
    requires Enabled(st, step)
    ensures Extends(st, Do(st, step))
  {
  }

  lemma StepKeepsInv(st: State, step: Step)
    requires Inv(st) && Enabled(st, step)
    ensures Inv(Do(st, step))
  {
    var st' := Do(st, step);
    StepExtends(st, step);
    forall h | h in st'.calls ensures Sound(st', st'.calls[h]) {
      if h in st.calls {
        assert Sound(st, st.calls[h]);
      }
    }
  }

  lemma {:induction false} RunKeepsInv(states: seq<State>, steps: seq<Step>, n: nat)
    requires Run(states, steps) && n < |states|
    ensures Inv(states[n])
  {
    if n > 0 {
      RunKeepsInv(states, steps, n - 1);
      assert Advances(states, steps, n - 1);
      StepKeepsInv(states[n - 1], steps[n - 1]);
    }
  }

  /******* Main results *******/

  /** In every run, a row once written is never changed or removed. */
  lemma {:induction false} IdentitiesAreNeverReplaced(states: seq<State>, steps: seq<Step>, m: nat, n: nat)
    requires Run(states, steps) && m <= n < |states|
    ensures Extends(states[m], states[n])
    decreases n - m
  {
    if m < n {
      IdentitiesAreNeverReplaced(states, steps, m, n - 1);
      assert Advances(states, steps, n - 1);
      StepExtends(states[n - 1], steps[n - 1]);
    }
  }

  /**
   In every run all successful calls for an actor, whenever they return, return the same pair, which is
   the stored row from then on; and no call ends with the provisioning error.
   */
  lemma ProvisionersAgree(states: seq<State>, steps: seq<Step>, m: nat, n: nat, h: nat, i: nat)
    requires Run(states, steps) && m <= n < |states|
    requires h in states[m].calls && states[m].calls[h].Returned?
    requires i in states[n].calls && states[n].calls[i].Returned?
    ensures states[m].calls[h].result != Err(ActorKeyProvisioning)
    ensures states[m].calls[h].result.Ok? ==>
              Holds(states[n], states[m].calls[h].actor, states[m].calls[h].result.value)
    ensures var one, other := states[m].calls[h], states[n].calls[i];
            one.actor == other.actor && one.result.Ok? && other.result.Ok? ==> one.result == other.result
  {
    RunKeepsInv(states, steps, m);
    RunKeepsInv(states, steps, n);
    IdentitiesAreNeverReplaced(states, steps, m, n);
    assert Sound(states[m], states[m].calls[h]) && Sound(states[n], states[n].calls[i]);
  }

  // The steps one call takes while others only insert rows, at the time the pair is generated.
  function Interrupted(st: State, h: nat, generated: Option<ActorKeyPair>, meanwhile: map<Iri, ActorKeyPair>): State
    requires h in st.calls && st.calls[h].Started?
  {
    var loaded := Do(st, Load(h));
    if loaded.calls[h].Returned? then loaded
    else
      var made := Do(loaded, Generate(h, generated));
      var later := made.(keys := meanwhile + made.keys);
      if later.calls[h].Returned? then later
      else
        var inserted := Do(later, Insert(h));
        if inserted.calls[h].Returned? then inserted else Do(inserted, Reload(h))
  }

  /** The steps of one call, put together, do what the store's method does. */
  lemma InterruptedCall(st: State, h: nat, generated: Option<ActorKeyPair>, meanwhile: map<Iri, ActorKeyPair>)
    requires h in st.calls && st.calls[h].Started?
    ensures var actor := st.calls[h].actor;
            var (keys, result) := Provisioned(st.keys, actor, generated, meanwhile);
            Interrupted(st, h, generated, meanwhile) == State(keys, st.calls[h := Returned(actor, result)])
  {
  }

  /** However far other calls got, a call that lost the race still returns the winner's pair. */
  lemma LoserGetsWinnersPair(st: State, h: nat)
    requires Inv(st) && h in st.calls && st.calls[h].Generated? && st.calls[h].actor in st.keys
    ensures Enabled(st, Insert(h)) && Enabled(Do(st, Insert(h)), Reload(h))
    ensures var st' := Do(Do(st, Insert(h)), Reload(h));
            st'.keys == st.keys && st'.calls[h] == Returned(st.calls[h].actor, Ok(st.keys[st.calls[h].actor]))
  {
  }
}
