/**
 The "My Record Sharing Information" button handler: check that keys exist,
 publish the public key to IPFS unless a shared key is already stored, fetch
 the shareable info and navigate to the QR code screen; any failure inside
 the `try` shows the upload-failed modal.

 It is given twice: `OnPress` follows the handler's control flow, and
 `Run` is a step machine over the workflow's phases; `MachineMatchesHandler`
 shows they agree. The `nextFrame` yields between steps have no effect on
 the outcome and are not modelled.
 */
module Publication {
  import opened Outcomes
  import opened Screen

  /** The replies of the external calls for one run of the handler. */
  datatype Oracles = Oracles(
    keysExist: Reply<bool>,
    sharedKey: Reply<Option<string>>,
    pem: Reply<string>,
    keyHash: Reply<string>,
    persist: Reply<()>,
    sharedInfo: Reply<string>)

  /** A stored shared key counts as present when it is truthy: set and not
      the empty string. */
  predicate Cached(key: Option<string>) {
    key.Some? && key.value != ""
  }

  /** Steps that publish the key; skipped when a shared key is cached. */
  predicate IsPublishCall(c: Call) {
    c.PublicKeyPem? || c.IpfsAdd? || c.SetSharedPublicKey?
  }

  const CachedPath := [KeysExist, SharedPublicKey, MySharedInfo]

  function FullPath(pem: string, hash: string): seq<Call> {
    [KeysExist, SharedPublicKey, PublicKeyPem, IpfsAdd(pem), SetSharedPublicKey(hash), MySharedInfo]
  }

  function QrCodeNavigation(info: string): Navigation {
    Navigation("QRCode", "contact", info)
  }

  /** Every awaited step after the key check resolves, on the branch the
      stored shared key selects. */
  predicate StepsSucceed(o: Oracles) {
    && o.sharedKey.Ok?
    && (Cached(o.sharedKey.value) || (o.pem.Ok? && o.keyHash.Ok? && o.persist.Ok?))
    && o.sharedInfo.Ok?
  }

  /** The `catch` branch. */
  function Failed(s: State, calls: seq<Call>): Effects {
    Effects(OnShareKeyUploadFailed(s), calls, [], None)
  }

  /** Read the shared info and navigate to the QR code screen. */
  function FetchAndNavigate(o: Oracles, s: State, calls: seq<Call>): Effects {
    match o.sharedInfo
    case Fail => Failed(s, calls + [MySharedInfo])
    case Ok(info) => Effects(s, calls + [MySharedInfo], [], Some(QrCodeNavigation(info)))
  }

  /** The handler. A rejected `keysExist()` happens before the `try`, so it
      rejects the handler's own promise and nothing is shown. */
  function OnPress(o: Oracles, s: State): (r: Effects)
    ensures r.calls != [] && r.calls[0] == KeysExist
    ensures r.calls == [KeysExist] <==> !o.keysExist.Ok? || !o.keysExist.value
    ensures r.alerts == if o.keysExist == Ok(false) then [KeysNotPresent] else []
    ensures r.navigation.Some? ==>
      o.sharedInfo.Ok? && r.navigation == Some(QrCodeNavigation(o.sharedInfo.value)) && MySharedInfo in r.calls
    ensures r.state == s || r.state == OnShareKeyUploadFailed(s)
  {
    match o.keysExist
    case Fail => Effects(s, [KeysExist], [], None)
    case Ok(false) => Effects(s, [KeysExist], [KeysNotPresent], None)
    case Ok(true) =>
      var checked := [KeysExist, SharedPublicKey];
      match o.sharedKey
      case Fail => Failed(s, checked)
      case Ok(key) =>
        if Cached(key) then FetchAndNavigate(o, s, checked)
        else PublishAndFetch(o, s, checked)
  }

  /** The branch taken when no shared key is stored: export the PEM, add it
      to IPFS, persist the returned hash, then fetch the shared info. */
  function PublishAndFetch(o: Oracles, s: State, calls: seq<Call>): Effects {
    match o.pem
    case Fail => Failed(s, calls + [PublicKeyPem])
    case Ok(pem) =>
      match o.keyHash
      case Fail => Failed(s, calls + [PublicKeyPem, IpfsAdd(pem)])
      case Ok(hash) =>
        var published := calls + [PublicKeyPem, IpfsAdd(pem), SetSharedPublicKey(hash)];
        match o.persist
        case Fail => Failed(s, published)
        case Ok(_) => FetchAndNavigate(o, s, published)
  }

  // ---------------------------------------------------------------------------
  // The workflow as a step machine

  datatype Phase =
    | CheckingKeys
    | CheckingSharedKey
    | FetchingPem
    | AddingToIpfs(pem: string)
    | PersistingHash(hash: string)
    | FetchingSharedInfo
    | Finished

  datatype Machine = Machine(phase: Phase, effects: Effects)

  /** Phases still to go, at most. */
  function Rank(p: Phase): nat {
    match p
    case CheckingKeys => 6
    case CheckingSharedKey => 5
    case FetchingPem => 4
    case AddingToIpfs(_) => 3
    case PersistingHash(_) => 2
    case FetchingSharedInfo => 1
    case Finished => 0
  }

  /** Perform the call of the current phase and move on. */
  function Step(m: Machine, o: Oracles): (n: Machine)
    requires m.phase != Finished
    ensures Rank(n.phase) < Rank(m.phase)
    ensures |n.effects.calls| == |m.effects.calls| + 1
    ensures n.effects.calls[..|m.effects.calls|] == m.effects.calls
  {
    var fx := m.effects;
    match m.phase
    case CheckingKeys =>
      var fx' := fx.(calls := fx.calls + [KeysExist]);
      (match o.keysExist
       case Fail => Machine(Finished, fx')
       case Ok(false) => Machine(Finished, fx'.(alerts := fx'.alerts + [KeysNotPresent]))
       case Ok(true) => Machine(CheckingSharedKey, fx'))
    case CheckingSharedKey =>
      var fx' := fx.(calls := fx.calls + [SharedPublicKey]);
      (match o.sharedKey
       case Fail => Machine(Finished, Caught(fx'))
       case Ok(key) => Machine(if Cached(key) then FetchingSharedInfo else FetchingPem, fx'))
    case FetchingPem =>
      var fx' := fx.(calls := fx.calls + [PublicKeyPem]);
      (match o.pem
       case Fail => Machine(Finished, Caught(fx'))
       case Ok(pem) => Machine(AddingToIpfs(pem), fx'))
    case AddingToIpfs(pem) =>
      var fx' := fx.(calls := fx.calls + [IpfsAdd(pem)]);
      (match o.keyHash
       case Fail => Machine(Finished, Caught(fx'))
       case Ok(hash) => Machine(PersistingHash(hash), fx'))
    case PersistingHash(hash) =>
      var fx' := fx.(calls := fx.calls + [SetSharedPublicKey(hash)]);
      (match o.persist
       case Fail => Machine(Finished, Caught(fx'))
       case Ok(_) => Machine(FetchingSharedInfo, fx'))
    case FetchingSharedInfo =>
      var fx' := fx.(calls := fx.calls + [MySharedInfo]);
      (match o.sharedInfo
       case Fail => Machine(Finished, Caught(fx'))
       case Ok(info) => Machine(Finished, fx'.(navigation := Some(QrCodeNavigation(info)))))
  }

  /** The `catch` branch applied to accumulated effects. */
  function Caught(fx: Effects): Effects {
    fx.(state := OnShareKeyUploadFailed(fx.state))
  }

  /** Step until the workflow has finished. */
  function Run(m: Machine, o: Oracles): Effects
    decreases Rank(m.phase)
  {
    if m.phase == Finished then m.effects else Run(Step(m, o), o)
  }

  function Start(s: State): Machine {
    Machine(CheckingKeys, Effects(s, [], [], None))
  }

  // ---------------------------------------------------------------------------
  // Properties

  /** Effects accumulated before any alert, navigation or failure. */
  predicate Pristine(fx: Effects) {
    fx.alerts == [] && fx.navigation == None
  }

  lemma RunFromSharedInfo(fx: Effects, o: Oracles)
    requires Pristine(fx)
    ensures Run(Machine(FetchingSharedInfo, fx), o) == FetchAndNavigate(o, fx.state, fx.calls)
  {
    var m := Machine(FetchingSharedInfo, fx);
    assert Run(m, o) == Run(Step(m, o), o);
  }

  lemma RunFromPem(fx: Effects, o: Oracles)
    requires Pristine(fx)
    ensures Run(Machine(FetchingPem, fx), o) == PublishAndFetch(o, fx.state, fx.calls)
  {
    var m3 := Step(Machine(FetchingPem, fx), o);
    assert Run(Machine(FetchingPem, fx), o) == Run(m3, o);
    if m3.phase.AddingToIpfs? {
      var m4 := Step(m3, o);
      assert Run(m3, o) == Run(m4, o);
      if m4.phase.PersistingHash? {
        var m5 := Step(m4, o);
        assert Run(m4, o) == Run(m5, o);
        if m5.phase == FetchingSharedInfo {
          assert m5.effects.calls == fx.calls + [PublicKeyPem, IpfsAdd(o.pem.value), SetSharedPublicKey(o.keyHash.value)];
          RunFromSharedInfo(m5.effects, o);
        }
      }
    }
  }

  /** The step machine and the handler produce the same effects. */
  lemma MachineMatchesHandler(o: Oracles, s: State)
    ensures Run(Start(s), o) == OnPress(o, s)
  {
    var m1 := Step(Start(s), o);
    assert Run(Start(s), o) == Run(m1, o);
    if o.keysExist == Ok(true) {
      var m2 := Step(m1, o);
      assert Run(m1, o) == Run(m2, o);
      var checked := [KeysExist, SharedPublicKey];
      assert m2.effects == Effects(s, checked, [], None) || o.sharedKey.Fail?;
      if o.sharedKey.Ok? {
        if Cached(o.sharedKey.value) {
          RunFromSharedInfo(m2.effects, o);
          assert OnPress(o, s) == FetchAndNavigate(o, s, checked);
        } else {
          RunFromPem(m2.effects, o);
          assert OnPress(o, s) == PublishAndFetch(o, s, checked);
        }
      }
    }
  }

  /** Without keys the handler only shows the "keys not present" alert: no
      other call, no state change, no navigation. */
  lemma KeysMissingOnlyAlerts(o: Oracles, s: State)
    requires o.keysExist == Ok(false)
    ensures var r := OnPress(o, s);
      && r.calls == [KeysExist]
      && r.alerts == [KeysNotPresent]
      && r.state == s
      && r.navigation == None
  {
  }

  /** With a shared key already stored nothing is published: the handler goes
      straight from the key lookup to the shared info. */
  lemma CachedKeySkipsPublish(o: Oracles, s: State)
    requires o.keysExist == Ok(true) && o.sharedKey.Ok? && Cached(o.sharedKey.value)
    ensures var r := OnPress(o, s);
      && r.calls == CachedPath
      && forall c :: c in r.calls ==> !IsPublishCall(c)
  {
  }

  /** With no truthy shared key stored, the key is published: the PEM is
      exported, passed to IPFS, and the returned hash persisted, each step
      reached when the previous one resolved. */
  lemma UncachedKeyPublishes(o: Oracles, s: State)
    requires o.keysExist == Ok(true) && o.sharedKey.Ok? && !Cached(o.sharedKey.value)
    ensures var c := OnPress(o, s).calls;
      && |c| >= 3 && c[..3] == [KeysExist, SharedPublicKey, PublicKeyPem]
      && (o.pem.Ok? ==> IpfsAdd(o.pem.value) in c)
      && (o.pem.Ok? && o.keyHash.Ok? ==> SetSharedPublicKey(o.keyHash.value) in c)
      && (StepsSucceed(o) ==> c == FullPath(o.pem.value, o.keyHash.value))
  {
  }

  /** Calls happen in the handler's order: the trace is a prefix of the cached
      path or of the publishing path, and what is passed on is what the
      previous call returned. */
  lemma CallsFollowPath(o: Oracles, s: State)
    ensures var c := OnPress(o, s).calls;
      && c != []
      && (c <= CachedPath || exists pem, hash :: c <= FullPath(pem, hash))
      && (forall pem :: IpfsAdd(pem) in c ==> o.pem == Ok(pem))
      && (forall hash :: SetSharedPublicKey(hash) in c ==> o.keyHash == Ok(hash))
  {
    var c := OnPress(o, s).calls;
    if !(c <= CachedPath) {
      var pem := if o.pem.Ok? then o.pem.value else "";
      var hash := if o.keyHash.Ok? then o.keyHash.value else "";
      assert c <= FullPath(pem, hash);
    }
  }

  /** No hash is persisted unless both the PEM export and the IPFS upload
      succeeded. */
  lemma NoPersistOnFailure(o: Oracles, s: State)
    requires o.pem == Fail || o.keyHash == Fail
    ensures forall hash :: SetSharedPublicKey(hash) !in OnPress(o, s).calls
  {
  }

  /** Once keys exist, the handler navigates to the QR code screen with the
      shared info exactly when every later step succeeds, and otherwise
      shows the upload-failed modal without navigating. */
  lemma NavigatesIffStepsSucceed(o: Oracles, s: State)
    requires o.keysExist == Ok(true)
    ensures var r := OnPress(o, s);
      && (r.navigation.Some? <==> StepsSucceed(o))
      && (StepsSucceed(o) ==> r.navigation == Some(QrCodeNavigation(o.sharedInfo.value)) && r.state == s)
      && (!StepsSucceed(o) ==> r.state == OnShareKeyUploadFailed(s) && r.navigation == None)
      && r.alerts == []
  {
  }

  /** The handler changes the screen state only by showing the error modal,
      and never navigates without keys. */
  lemma StateChangesOnlyOnFailure(o: Oracles, s: State)
    ensures var r := OnPress(o, s);
      && (r.state == s || (r.state == OnShareKeyUploadFailed(s) && r.navigation == None))
      && (r.navigation.Some? ==> o.keysExist == Ok(true))
  {
  }
}
