/**
 * Bootstrap and recovery of the persistent seed (`enclave/src/seed_persistence.rs`), against one saved object
 * that is created only if absent (`parent/src/seed_persistence.rs`).
 *
 * The enclave's part is a program of phases. `LoadKeys` runs it against any world whatever; `Sys` runs any
 * number of attempts against one create-if-absent object.
 */
module SeedCustody {
  import opened Bytes

  const MAX_CIPHERTEXT_BYTES: nat := 6144

  type Blob = seq<u8>
  type Seed = seq<u8>
  type Address = seq<u8>

  datatype Error =
    | Deadline | StoreFailed | KmsFailed | InvalidCiphertext | SavedSeedExists | SavedSeedMissing
    | OtherInitializer | NotCommitted | BadSeed | IdentityMismatch

  predicate ValidCiphertext(blob: Blob) { 1 <= |blob| <= MAX_CIPHERTEXT_BYTES }

  // ---- The enclave's program ----

  datatype Phase =
    | Loading
    | Generating
    | Creating(blob: Blob)
    | Decrypting(blob: Blob)
    | Restoring(blob: Blob, seed: Seed)
    | Active(blob: Blob, seed: Seed)
    | Failed(error: Error)

  function ToDecrypt(blob: Blob): Phase {
    if ValidCiphertext(blob) then Decrypting(blob) else Failed(InvalidCiphertext)
  }

  /** The pin decides the direction: without one only a missing object goes on, with one only a saved object. */
  function OnLoad(pin: Option<Address>, reply: Result<Option<Blob>, Error>): Phase {
    match (reply, pin)
    case (Err(e), _) => Failed(e)
    case (Ok(Some(blob)), Some(_)) => ToDecrypt(blob)
    case (Ok(Some(_)), None) => Failed(SavedSeedExists)
    case (Ok(None), None) => Generating
    case (Ok(None), Some(_)) => Failed(SavedSeedMissing)
  }

  function OnGenerate(reply: Result<Blob, Error>): Phase {
    match reply
    case Err(e) => Failed(e)
    case Ok(blob) => if ValidCiphertext(blob) then Creating(blob) else Failed(InvalidCiphertext)
  }

  /** Only the blob that this call generated goes on. */
  function OnCreate(blob: Blob, reply: Result<Blob, Error>): Phase {
    match reply
    case Err(e) => Failed(e)
    case Ok(committed) => if committed != blob then Failed(OtherInitializer) else ToDecrypt(committed)
  }

  function OnDecrypt(blob: Blob, reply: Result<Seed, Error>): Phase {
    match reply
    case Err(e) => Failed(e)
    case Ok(seed) => Restoring(blob, seed)
  }

  /** `keys` derives the EVM address of the keys of a seed, or fails. */
  function OnRestore(pin: Option<Address>, blob: Blob, seed: Seed, keys: Seed -> Result<Address, Error>): Phase {
    match keys(seed)
    case Err(e) => Failed(e)
    case Ok(address) => if pin.Some? && address != pin.value then Failed(IdentityMismatch) else Active(blob, seed)
  }

  // ---- One call, whatever the store and the KMS answer ----

  datatype Call = Credentials | Load | Generate | Create(blob: Blob) | Decrypt(blob: Blob)

  /**
   * Every answer the call could get, and whether each check of the deadline passes. `credentials` is the broker's
   * answer to the request for role credentials, and `client` whether a KMS client can be made with them.
   */
  datatype World = World(
    credentials: Result<(), Error>,
    client: Result<(), Error>,
    load: Result<Option<Blob>, Error>,
    generate: Result<Blob, Error>,
    create: Blob -> Result<Blob, Error>,
    decrypt: Blob -> Result<Seed, Error>,
    keys: Seed -> Result<Address, Error>,
    onTime: nat -> bool)

  function Turn(c: Call): nat {
    match c
    case Credentials => 0
    case Load => 1
    case Generate => 2
    case Create(_) => 3
    case Decrypt(_) => 4
  }

  // ---- When each call is made ----

  predicate LoadAsked(w: World) { w.credentials.Ok? && w.client.Ok? && w.onTime(0) }

  /** Only an unpinned call on an empty store generates. */
  predicate GenerateAsked(w: World, pin: Option<Address>) {
    pin.None? && LoadAsked(w) && w.load == Ok(None) && w.onTime(1)
  }

  predicate CreateAsked(w: World, pin: Option<Address>, b: Blob) {
    GenerateAsked(w, pin) && w.generate == Ok(b) && 1 <= |b| <= 6144 && w.onTime(2)
  }

  /** The blob that the call goes on with: the saved one with a pin, its own committed one without. */
  predicate Holds(w: World, pin: Option<Address>, b: Blob) {
    if pin.Some? then LoadAsked(w) && w.load == Ok(Some(b)) && 1 <= |b| <= 6144
    else CreateAsked(w, pin, b) && w.create(b) == Ok(b)
  }

  predicate DecryptAsked(w: World, pin: Option<Address>, b: Blob) { Holds(w, pin, b) && w.onTime(3) }

  /** Each call is made exactly when it is due, in order and at most once. */
  ghost predicate CallsDue(w: World, pin: Option<Address>, calls: seq<Call>) {
    && Credentials in calls
    && (Load in calls <==> LoadAsked(w))
    && (Generate in calls <==> GenerateAsked(w, pin))
    && (forall b :: Create(b) in calls <==> CreateAsked(w, pin, b))
    && (forall b :: Decrypt(b) in calls <==> DecryptAsked(w, pin, b))
    && InTurn(calls)
  }

  /** The first thing that goes wrong before a blob is in hand is the error. */
  ghost predicate RefusedEarly<T>(w: World, pin: Option<Address>, r: Result<T, Error>) {
    && (w.credentials.Err? ==> r == Err(w.credentials.error))
    && (w.credentials.Ok? && w.client.Err? ==> r == Err(w.client.error))
    && (w.credentials.Ok? && w.client.Ok? && !w.onTime(0) ==> r == Err(Deadline))
    && (LoadAsked(w) && w.load.Err? ==> r == Err(w.load.error))
    && (LoadAsked(w) && w.load.Ok? && w.load.value.Some? && pin.None? ==> r == Err(SavedSeedExists))
    && (LoadAsked(w) && w.load == Ok(None) && pin.Some? ==> r == Err(SavedSeedMissing))
    && (LoadAsked(w) && w.load.Ok? && w.load.value.Some? && pin.Some? && BadLength(w.load.value.value) ==>
          r == Err(InvalidCiphertext))
    && (LoadAsked(w) && w.load == Ok(None) && pin.None? && !w.onTime(1) ==> r == Err(Deadline))
    && (GenerateAsked(w, pin) && w.generate.Err? ==> r == Err(w.generate.error))
    && (GenerateAsked(w, pin) && w.generate.Ok? && BadLength(w.generate.value) ==> r == Err(InvalidCiphertext))
    && (GenerateAsked(w, pin) && w.generate.Ok? && !BadLength(w.generate.value) && !w.onTime(2) ==> r == Err(Deadline))
    && (forall b :: CreateAsked(w, pin, b) && w.create(b).Err? ==> r == Err(w.create(b).error))
    && (forall b :: CreateAsked(w, pin, b) && w.create(b).Ok? && w.create(b).value != b ==> r == Err(OtherInitializer))
  }

  predicate BadLength(b: Blob) { |b| == 0 || |b| > 6144 }

  /** What a blob in hand leads to. */
  ghost predicate OpenedAs(w: World, pin: Option<Address>, b: Blob, r: Result<Seed, Error>) {
    if !w.onTime(3) then r == Err(Deadline)
    else if w.decrypt(b).Err? then r == Err(w.decrypt(b).error)
    else if !w.onTime(4) then r == Err(Deadline)
    else match w.keys(w.decrypt(b).value)
         case Err(e) => r == Err(e)
         case Ok(address) =>
           if pin.Some? && address != pin.value then r == Err(IdentityMismatch) else r == w.decrypt(b)
  }

  function EarlyCalls(w: World, pin: Option<Address>): seq<Call> {
    if !LoadAsked(w) then [Credentials]
    else if !GenerateAsked(w, pin) then [Credentials, Load]
    else if w.generate.Err? || !CreateAsked(w, pin, w.generate.value) then [Credentials, Load, Generate]
    else [Credentials, Load, Generate, Create(w.generate.value)]
  }

  /** `held` is the blob in hand, if any. */
  ghost predicate AllCalls(w: World, pin: Option<Address>, held: Option<Blob>, calls: seq<Call>) {
    && (forall b :: held == Some(b) <==> Holds(w, pin, b))
    && calls == EarlyCalls(w, pin) + if held.Some? && w.onTime(3) then [Decrypt(held.value)] else []
  }

  lemma CallsAreDue(w: World, pin: Option<Address>, held: Option<Blob>, calls: seq<Call>)
    requires AllCalls(w, pin, held, calls)
    ensures CallsDue(w, pin, calls)
  {
    var early := EarlyCalls(w, pin);
    EarlyCallsAreDue(w, pin);
    hide EarlyCalls, Holds, CreateAsked, GenerateAsked, LoadAsked;
    assert forall c :: c in calls <==> c in early || (held.Some? && w.onTime(3) && c == Decrypt(held.value));
  }

  predicate InTurn(calls: seq<Call>) { forall i, j :: 0 <= i < j < |calls| ==> Turn(calls[i]) < Turn(calls[j]) }

  lemma EarlyCallsAreDue(w: World, pin: Option<Address>)
    ensures var calls := EarlyCalls(w, pin);
      && Credentials in calls
      && (Load in calls <==> LoadAsked(w))
      && (Generate in calls <==> GenerateAsked(w, pin))
      && (forall b :: Create(b) in calls <==> CreateAsked(w, pin, b))
      && InTurn(calls) && forall c :: c in calls ==> !c.Decrypt?
  {
  }

  lemma CallsOfSuccess(w: World, pin: Option<Address>, held: Option<Blob>, calls: seq<Call>)
    requires AllCalls(w, pin, held, calls)
    ensures held.Some? && w.onTime(3) && pin.Some? ==> calls == [Credentials, Load, Decrypt(held.value)]
    ensures held.Some? && w.onTime(3) && pin.None? ==>
      calls == [Credentials, Load, Generate, Create(held.value), Decrypt(held.value)]
    ensures pin.Some? ==> forall c :: c in calls ==> c.Credentials? || c.Load? || c.Decrypt?
    ensures w.credentials.Err? || w.client.Err? ==> calls == [Credentials]
  {
    if held.Some? { assert Holds(w, pin, held.value); }
  }

  /** The part of `load_keys` that gets hold of a blob. */
  method Fetch(w: World, pin: Option<Address>) returns (r: Result<Blob, Error>, calls: seq<Call>)
    ensures forall b :: r == Ok(b) <==> Holds(w, pin, b)
    ensures RefusedEarly(w, pin, r)
    ensures calls == EarlyCalls(w, pin)
  {
    calls := [Credentials];
    if w.credentials.Err? { return Err(w.credentials.error), calls; }
    if w.client.Err? { return Err(w.client.error), calls; }
    if !w.onTime(0) { return Err(Deadline), calls; }
    calls := calls + [Load];
    var phase := OnLoad(pin, w.load);
    if phase.Generating? {
      if !w.onTime(1) { return Err(Deadline), calls; }
      calls := calls + [Generate];
      phase := OnGenerate(w.generate);
      if phase.Failed? { return Err(phase.error), calls; }
      if !w.onTime(2) { return Err(Deadline), calls; }
      var blob := phase.blob;
      calls := calls + [Create(blob)];
      phase := OnCreate(blob, w.create(blob));
    }
    if phase.Failed? { return Err(phase.error), calls; }
    return Ok(phase.blob), calls;
  }

  /** The part that decrypts it and restores the keys; `asked` says that the KMS was asked. */
  method Open(w: World, pin: Option<Address>, blob: Blob) returns (r: Result<Seed, Error>, asked: bool)
    ensures asked == w.onTime(3) && OpenedAs(w, pin, blob, r)
  {
    asked := w.onTime(3);
    if !asked { return Err(Deadline), asked; }
    var phase := OnDecrypt(blob, w.decrypt(blob));
    if phase.Failed? { return Err(phase.error), asked; }
    if !w.onTime(4) { return Err(Deadline), asked; }
    phase := OnRestore(pin, phase.blob, phase.seed, w.keys);
    if phase.Failed? { return Err(phase.error), asked; }
    return Ok(phase.seed), asked;
  }

  /** `PersistentSeed::load_keys`: `calls` are the external calls it made, in order. */
  method LoadKeys(w: World, pin: Option<Address>) returns (r: Result<Seed, Error>, calls: seq<Call>)
    ensures CallsDue(w, pin, calls)
    ensures RefusedEarly(w, pin, r)
    ensures forall b :: Holds(w, pin, b) ==> OpenedAs(w, pin, b, r)
    // A pinned call never generates or creates.
    ensures pin.Some? ==> forall c :: c in calls ==> c.Credentials? || c.Load? || c.Decrypt?
    // It succeeds only with the saved object, and only for the pinned address.
    ensures pin.Some? && r.Ok? ==>
      && w.load.Ok? && w.load.value.Some?
      && calls == [Credentials, Load, Decrypt(w.load.value.value)]
      && w.decrypt(w.load.value.value) == Ok(r.value) && w.keys(r.value) == Ok(pin.value)
    // An unpinned call succeeds only with the blob it generated itself, on an empty store that then holds it.
    ensures pin.None? && r.Ok? ==>
      && w.load == Ok(None) && w.generate.Ok? && w.create(w.generate.value) == Ok(w.generate.value)
      && calls == [Credentials, Load, Generate, Create(w.generate.value), Decrypt(w.generate.value)]
      && w.decrypt(w.generate.value) == Ok(r.value) && w.keys(r.value).Ok?
    // Another initializer's blob is never decrypted.
    ensures pin.None? ==> forall b :: Decrypt(b) in calls ==> w.generate == Ok(b) && w.create(b) == Ok(b)
    // Without credentials or a client nothing else is asked.
    ensures w.credentials.Err? || w.client.Err? ==> calls == [Credentials]
    // Nothing is generated or sent once the deadline has passed.
    ensures Generate in calls ==> w.onTime(0) && w.onTime(1)
    ensures forall b :: Create(b) in calls ==> w.onTime(0) && w.onTime(1) && w.onTime(2)
    // And nothing else stops it.
    ensures r.Ok? <==> Succeeds(w, pin)
  {
    var fetched;
    fetched, calls := Fetch(w, pin);
    ghost var held := if fetched.Ok? then Some(fetched.value) else None;
    if fetched.Err? {
      r := Err(fetched.error);
    } else {
      var asked;
      r, asked := Open(w, pin, fetched.value);
      if asked { calls := calls + [Decrypt(fetched.value)]; }
    }
    assert AllCalls(w, pin, held, calls);
    CallsAreDue(w, pin, held, calls);
    CallsOfSuccess(w, pin, held, calls);
    SuccessExactly(w, pin, held, r);
    hide EarlyCalls, Succeeds, OpenedAs, Usable;
  }

  lemma SuccessExactly(w: World, pin: Option<Address>, held: Option<Blob>, r: Result<Seed, Error>)
    requires forall b :: held == Some(b) <==> Holds(w, pin, b)
    requires if held.Some? then OpenedAs(w, pin, held.value, r) else r.Err?
    ensures r.Ok? <==> Succeeds(w, pin)
    ensures r.Ok? ==>
      && held.Some? && w.onTime(3) && Holds(w, pin, held.value) && w.decrypt(held.value) == Ok(r.value)
      && w.keys(r.value).Ok? && (pin.Some? ==> w.keys(r.value) == Ok(pin.value))
  {
    if Succeeds(w, pin) { assert Holds(w, pin, if pin.Some? then w.load.value.value else w.generate.value); }
  }

  predicate Usable(w: World, pin: Option<Address>, blob: Blob) {
    && ValidCiphertext(blob) && w.onTime(3) && w.decrypt(blob).Ok? && w.onTime(4)
    && var address := w.keys(w.decrypt(blob).value);
       address.Ok? && (pin.Some? ==> address.value == pin.value)
  }

  predicate Succeeds(w: World, pin: Option<Address>) {
    w.credentials.Ok? && w.client.Ok? && w.onTime(0) && w.load.Ok? &&
    if pin.Some? then w.load.value.Some? && Usable(w, pin, w.load.value.value)
    else
      && w.load.value.None? && w.onTime(1) && w.generate.Ok? && w.onTime(2)
      && w.create(w.generate.value) == Ok(w.generate.value) && Usable(w, pin, w.generate.value)
  }

  // ---- Any number of attempts against one object ----

  datatype Attempt = Attempt(pin: Option<Address>, phase: Phase)

  /**
   * `puts` are create requests that were sent and not yet executed. They outlive the attempt that sent them.
   * `own` is the blob that each attempt generated, `writes` the number of times the object was written.
   */
  datatype Sys = Sys(
    saved: Option<Blob>, puts: set<Blob>, attempts: map<nat, Attempt>, own: map<nat, Blob>, writes: nat)

  datatype Kms = Kms(decrypt: Blob -> Result<Seed, Error>, keys: Seed -> Result<Address, Error>)

  datatype Step =
    | Loaded(a: nat)
    | Generated(a: nat, blob: Blob)
    | Executed(blob: Blob)
    | Created(a: nat)
    | Decrypted(a: nat)
    | Restored(a: nat)
    | GaveUp(a: nat, error: Error)

  predicate Init(s: Sys) {
    s.puts == {} && s.own == map[] && s.writes == 0 && forall a :: a in s.attempts ==> s.attempts[a].phase.Loading?
  }

  /** The broker reads the object back, and the enclave refuses one of a bad length. */
  function Read(saved: Option<Blob>): Result<Option<Blob>, Error> {
    if saved.Some? && !ValidCiphertext(saved.value) then Err(InvalidCiphertext) else Ok(saved)
  }

  /** After its PUT, whatever that returned, the broker answers a create with a GET. */
  function ReadCommitted(saved: Option<Blob>): Result<Blob, Error> {
    if saved.None? then Err(NotCommitted)
    else if ValidCiphertext(saved.value) then Ok(saved.value) else Err(InvalidCiphertext)
  }

  predicate Enabled(s: Sys, step: Step) {
    match step
    case Loaded(a) => a in s.attempts && s.attempts[a].phase.Loading?
    case Generated(a, _) => a in s.attempts && s.attempts[a].phase.Generating?
    case Executed(blob) => blob in s.puts
    case Created(a) => a in s.attempts && s.attempts[a].phase.Creating?
    case Decrypted(a) => a in s.attempts && s.attempts[a].phase.Decrypting?
    case Restored(a) => a in s.attempts && s.attempts[a].phase.Restoring?
    case GaveUp(a, _) => a in s.attempts && !s.attempts[a].phase.Active? && !s.attempts[a].phase.Failed?
  }

  function Enter(s: Sys, a: nat, phase: Phase): Sys
    requires a in s.attempts
  {
    s.(attempts := s.attempts[a := s.attempts[a].(phase := phase)])
  }

  function Apply(s: Sys, step: Step, kms: Kms): Sys
    requires Enabled(s, step)
  {
    match step
    case Loaded(a) => Enter(s, a, OnLoad(s.attempts[a].pin, Read(s.saved)))
    case Generated(a, blob) =>
      var t := Enter(s, a, OnGenerate(Ok(blob))).(own := s.own[a := blob]);
      if ValidCiphertext(blob) then t.(puts := s.puts + {blob}) else t
    case Executed(blob) =>
      if s.saved.None? then s.(saved := Some(blob), puts := s.puts - {blob}, writes := s.writes + 1)
      else s.(puts := s.puts - {blob})
    case Created(a) => Enter(s, a, OnCreate(s.attempts[a].phase.blob, ReadCommitted(s.saved)))
    case Decrypted(a) =>
      var blob := s.attempts[a].phase.blob;
      Enter(s, a, OnDecrypt(blob, kms.decrypt(blob)))
    case Restored(a) =>
      var me := s.attempts[a];
      Enter(s, a, OnRestore(me.pin, me.phase.blob, me.phase.seed, kms.keys))
    case GaveUp(a, error) => Enter(s, a, Failed(error))
  }

  ghost predicate IsRun(states: seq<Sys>, steps: seq<Step>, kms: Kms) {
    && |states| == |steps| + 1
    && Init(states[0])
    && forall i :: 0 <= i < |steps| ==> Enabled(states[i], steps[i]) && states[i + 1] == Apply(states[i], steps[i], kms)
  }

  /** The blob an attempt has read back from the store, once it has one. */
  predicate HasBlob(p: Phase) { p.Decrypting? || p.Restoring? || p.Active? }

  ghost predicate AttemptOk(s: Sys, a: nat, kms: Kms)
    requires a in s.attempts
  {
    var Attempt(pin, p) := s.attempts[a];
    && (HasBlob(p) ==> s.saved == Some(p.blob))
    && (p.Restoring? || p.Active? ==> kms.decrypt(p.blob) == Ok(p.seed))
    && (p.Active? ==> kms.keys(p.seed).Ok? && (pin.Some? ==> kms.keys(p.seed).value == pin.value))
    && (pin.Some? ==> !p.Generating? && !p.Creating? && a !in s.own)
    && (pin.None? && (p.Creating? || HasBlob(p)) ==> a in s.own && s.own[a] == p.blob)
  }

  ghost predicate Inv(s: Sys, kms: Kms) {
    && (forall a :: a in s.attempts ==> AttemptOk(s, a, kms))
    && s.writes <= (if s.saved.None? then 0 else 1)
  }

  lemma StepKeepsInv(s: Sys, step: Step, kms: Kms)
    requires Inv(s, kms) && Enabled(s, step)
    ensures Inv(Apply(s, step, kms), kms)
  {
  }

  lemma {:induction false} RunKeepsInv(states: seq<Sys>, steps: seq<Step>, kms: Kms, i: nat)
    requires IsRun(states, steps, kms) && i < |states|
    ensures Inv(states[i], kms)
  {
    if i > 0 {
      RunKeepsInv(states, steps, kms, i - 1);
      StepKeepsInv(states[i - 1], steps[i - 1], kms);
    }
  }

  /** The object is written at most once, and what it holds is never replaced. */
  lemma {:induction false} NeverReplaced(states: seq<Sys>, steps: seq<Step>, kms: Kms, i: nat, j: nat)
    requires IsRun(states, steps, kms) && i <= j < |states|
    ensures states[j].writes <= 1
    ensures states[i].saved.Some? ==> states[j].saved == states[i].saved
    decreases j
  {
    RunKeepsInv(states, steps, kms, j);
    if i < j { NeverReplaced(states, steps, kms, i, j - 1); }
  }

  /** Every attempt that is active, at any time, holds the seed that the object decrypts to. */
  lemma {:induction false} ActiveAgree(states: seq<Sys>, steps: seq<Step>, kms: Kms, i: nat, a: nat, j: nat, b: nat)
    requires IsRun(states, steps, kms) && i < |states| && j < |states|
    requires a in states[i].attempts && states[i].attempts[a].phase.Active?
    requires b in states[j].attempts && states[j].attempts[b].phase.Active?
    ensures
      var p, q := states[i].attempts[a].phase, states[j].attempts[b].phase;
      && states[i].saved == Some(p.blob) && kms.decrypt(p.blob) == Ok(p.seed)
      && p.seed == q.seed && p.blob == q.blob
  {
    RunKeepsInv(states, steps, kms, i);
    RunKeepsInv(states, steps, kms, j);
    if i <= j { NeverReplaced(states, steps, kms, i, j); } else { NeverReplaced(states, steps, kms, j, i); }
  }

  /** An unpinned attempt never gets past loading on a store that already held an object. */
  lemma {:induction false} BootstrapNeedsEmptyStore(states: seq<Sys>, steps: seq<Step>, kms: Kms, i: nat, a: nat)
    requires IsRun(states, steps, kms) && i < |states| && states[0].saved.Some?
    requires a in states[i].attempts && states[i].attempts[a].pin.None?
    ensures states[i].attempts[a].phase.Loading? || states[i].attempts[a].phase.Failed?
  {
    if i > 0 {
      NeverReplaced(states, steps, kms, 0, i - 1);
      BootstrapNeedsEmptyStore(states, steps, kms, i - 1, a);
    }
  }

  lemma {:induction false} ActiveForGood(states: seq<Sys>, steps: seq<Step>, kms: Kms, i: nat, j: nat, a: nat)
    requires IsRun(states, steps, kms) && i <= j < |states|
    requires a in states[i].attempts && states[i].attempts[a].phase.Active?
    ensures a in states[j].attempts && states[j].attempts[a] == states[i].attempts[a]
    decreases j
  {
    if i < j { ActiveForGood(states, steps, kms, i, j - 1, a); }
  }

  /** Two bootstraps become active only if the KMS gave both the same blob. */
  lemma {:induction false} BootstrapsShareABlob(states: seq<Sys>, steps: seq<Step>, kms: Kms, i: nat, a: nat, b: nat)
    requires IsRun(states, steps, kms) && i < |states|
    requires a in states[i].attempts && states[i].attempts[a].pin.None? && states[i].attempts[a].phase.Active?
    requires b in states[i].attempts && states[i].attempts[b].pin.None? && states[i].attempts[b].phase.Active?
    ensures a in states[i].own && b in states[i].own
    ensures states[i].saved == Some(states[i].own[a]) == Some(states[i].own[b])
  {
    RunKeepsInv(states, steps, kms, i);
  }

  /** The KMS never gives the same blob to two attempts. */
  ghost predicate FreshBlobs(states: seq<Sys>, steps: seq<Step>)
    requires |states| == |steps| + 1
  {
    forall i :: 0 <= i < |steps| && steps[i].Generated? ==>
      forall a :: a in states[i].own ==> states[i].own[a] != steps[i].blob
  }

  ghost predicate OwnBlobsDiffer(s: Sys) {
    forall a, b :: a in s.own && b in s.own && a != b ==> s.own[a] != s.own[b]
  }

  lemma {:induction false} FreshBlobsDiffer(states: seq<Sys>, steps: seq<Step>, kms: Kms, i: nat)
    requires IsRun(states, steps, kms) && FreshBlobs(states, steps) && i < |states|
    ensures OwnBlobsDiffer(states[i])
  {
    if i > 0 {
      FreshBlobsDiffer(states, steps, kms, i - 1);
      var s, step := states[i - 1], steps[i - 1];
      assert states[i - 1 + 1] == Apply(s, step, kms);
      if step.Generated? {
        assert states[i].own == s.own[step.a := step.blob];
      } else {
        assert states[i].own == s.own;
      }
    }
  }

  /** With such a KMS at most one bootstrap ever becomes active, whenever the two are looked at. */
  lemma {:induction false} OneBootstrap(
      states: seq<Sys>, steps: seq<Step>, kms: Kms, i: nat, j: nat, a: nat, b: nat)
    requires IsRun(states, steps, kms) && FreshBlobs(states, steps) && i <= j < |states|
    requires a in states[i].attempts && states[i].attempts[a].pin.None? && states[i].attempts[a].phase.Active?
    requires b in states[j].attempts && states[j].attempts[b].pin.None? && states[j].attempts[b].phase.Active?
    ensures a == b
  {
    ActiveForGood(states, steps, kms, i, j, a);
    BootstrapsShareABlob(states, steps, kms, j, a, b);
    FreshBlobsDiffer(states, steps, kms, j);
  }
}
