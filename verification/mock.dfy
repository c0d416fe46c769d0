/** The deterministic test double (`MockRuntime`): an in-memory state root
    and store, a balance, the in-call and in-transaction flags, and the
    scripted expectations every runtime call is checked against. A failed
    check is a panic (the test fails), distinct from an actor error. */
module Mock {
  import opened Types
  import opened ExitCodes
  import opened Blockstore
  import opened Registry

  // ---------------------------------------------------------------------
  // Expectations

  /** One scripted send. `params` and `sendReturn` stand for whole encoded
      blocks, codec included, so comparing them compares both. */
  datatype ExpectedMessage = ExpectedMessage(
    to: Address,
    methodNum: MethodNum,
    params: Option<Bytes>,
    value: TokenAmount,
    sendReturn: Option<Bytes>,
    exitCode: ExitCode)

  datatype ExpectCreateActor = ExpectCreateActor(codeId: Cid, actorId: ActorId)

  datatype Signature = Signature(sigType: nat, bytes: Bytes)

  /** An expected signature check and the verdict to give: `valid` stands
      for an `Ok(())` result, otherwise an error. */
  datatype ExpectedVerifySig = ExpectedVerifySig(sig: Signature, signer: Address, plaintext: Bytes, valid: bool)

  /** Singletons for the validation kinds and for actor creation and
      deletion; FIFO queues for sends, signature checks and gas charges. */
  datatype Expectations = Expectations(
    validateCallerAny: bool,
    validateCallerAddr: Option<seq<Address>>,
    validateCallerType: Option<seq<Cid>>,
    validateCallerNotType: Option<seq<Cid>>,
    sends: seq<ExpectedMessage>,
    createActor: Option<ExpectCreateActor>,
    deleteActor: Option<bool>,
    verifySigs: seq<ExpectedVerifySig>,
    gasCharges: seq<int>)

  /** `Expectations::default()`: nothing expected. */
  const NoExpectations: Expectations := Expectations(false, None, None, None, [], None, None, [], [])

  // ---------------------------------------------------------------------
  // Runtime state

  datatype MockRuntime<T> = MockRuntime(
    caller: Address,
    callerType: Cid,
    idAddresses: map<Address, Address>,
    actorCodeCids: map<Address, Cid>,
    newActorAddr: Option<Address>,
    state: Option<Cid>,
    store: Store<T>,
    balance: TokenAmount,
    inCall: bool,
    inTransaction: bool,
    expectations: Expectations)

  /** The panic `require_in_call` raises. */
  const OutsideCall := "invalid runtime invocation outside of method call"

  // ---------------------------------------------------------------------
  // Verification and reset

  /** `verify`: panics, naming the first unmet expectation, unless every
      expectation was consumed. The not-type expectation is not checked. */
  function Verify<T>(m: MockRuntime<T>): (r: Outcome<(), MockRuntime<T>>)
    ensures r.Done? <==> m.expectations.(validateCallerNotType := None) == NoExpectations
    ensures r.Done? ==> r.state == m
  {
    var e := m.expectations;
    if e.validateCallerAny then Panic("expected ValidateCallerAny, not received")
    else if e.validateCallerAddr.Some? then Panic("expected ValidateCallerAddr, not received")
    else if e.validateCallerType.Some? then Panic("expected ValidateCallerType, not received")
    else if e.sends != [] then Panic("expected all message to be send")
    else if e.createActor.Some? then Panic("expected actor to be created")
    else if e.deleteActor.Some? then Panic("expected actor to be deleted")
    else if e.verifySigs != [] then Panic("expect_verify_sigs not received")
    else if e.gasCharges != [] then Panic("expect_gas_charge not received")
    else Done((), m)
  }

  /** `reset`: every expectation back to its default. */
  function Reset<T>(m: MockRuntime<T>): (r: MockRuntime<T>)
    ensures Verify(r).Done?
    ensures r.expectations.validateCallerNotType.None?
    ensures r.(expectations := m.expectations) == m
  {
    m.(expectations := NoExpectations)
  }

  // ---------------------------------------------------------------------
  // Registering expectations

  function ExpectSend<T>(m: MockRuntime<T>, msg: ExpectedMessage): (r: MockRuntime<T>)
    ensures r.expectations.sends == m.expectations.sends + [msg]
    ensures r == m.(expectations := r.expectations)
    ensures r.expectations == m.expectations.(sends := r.expectations.sends)
  {
    m.(expectations := m.expectations.(sends := m.expectations.sends + [msg]))
  }

  function ExpectGasCharge<T>(m: MockRuntime<T>, value: int): (r: MockRuntime<T>)
    ensures r.expectations.gasCharges == m.expectations.gasCharges + [value]
    ensures r == m.(expectations := r.expectations)
    ensures r.expectations == m.expectations.(gasCharges := r.expectations.gasCharges)
  {
    m.(expectations := m.expectations.(gasCharges := m.expectations.gasCharges + [value]))
  }

  function ExpectVerifySignature<T>(m: MockRuntime<T>, exp: ExpectedVerifySig): (r: MockRuntime<T>)
    ensures r.expectations.verifySigs == m.expectations.verifySigs + [exp]
    ensures r == m.(expectations := r.expectations)
    ensures r.expectations == m.expectations.(verifySigs := r.expectations.verifySigs)
  {
    m.(expectations := m.expectations.(verifySigs := m.expectations.verifySigs + [exp]))
  }

  /** `expect_validate_caller_addr`: the list must not be empty. */
  function ExpectValidateCallerAddr<T>(m: MockRuntime<T>, addrs: seq<Address>): (r: Outcome<(), MockRuntime<T>>)
    ensures r.Done? <==> addrs != []
    ensures r.Done? ==> r.state == m.(expectations := m.expectations.(validateCallerAddr := Some(addrs)))
  {
    if addrs == [] then Panic("addrs must be non-empty")
    else Done((), m.(expectations := m.expectations.(validateCallerAddr := Some(addrs))))
  }

  /** `expect_validate_caller_type`: the list must not be empty. `verify`
      then fails until the type validation is made with types whose codes
      are exactly this list; that validation completes and leaves no
      expectation behind. */
  function ExpectValidateCallerType<T>(m: MockRuntime<T>, codes: seq<Cid>): (r: Outcome<(), MockRuntime<T>>)
    ensures r.Done? <==> codes != []
    ensures r.Done? ==> r.state == m.(expectations := m.expectations.(validateCallerType := Some(codes)))
    ensures r.Done? ==> Verify(r.state).Panic?
    ensures r.Done? && m.inCall ==> forall types :: CodesOf(types) == codes ==>
              && ValidateType(r.state, types).Done?
              && ValidateType(r.state, types).state == m.(expectations := m.expectations.(validateCallerType := None))
  {
    if codes == [] then Panic("addrs must be non-empty")
    else Done((), m.(expectations := m.expectations.(validateCallerType := Some(codes))))
  }

  /** `expect_validate_caller_not_type`: any list, the empty one included.
      `verify` does not look at it; a later check of a single type succeeds
      exactly when that type's code is in the list, and consumes it. */
  function ExpectValidateCallerNotType<T>(m: MockRuntime<T>, codes: seq<Cid>): (r: MockRuntime<T>)
    ensures Verify(r).Done? <==> Verify(m).Done?
    ensures m.inCall ==> forall t ::
              && ValidateNotType(r, [t]).Done?
              && (ValidateNotType(r, [t]).value.Ok? <==> CodeOf(t) in codes)
              && ValidateNotType(r, [t]).state == m.(expectations := m.expectations.(validateCallerNotType := None))
    ensures r.(expectations := m.expectations) == m
    ensures r.expectations.(validateCallerNotType := m.expectations.validateCallerNotType) == m.expectations
  {
    m.(expectations := m.expectations.(validateCallerNotType := Some(codes)))
  }

  /** `expect_validate_caller_any`: `verify` fails until the validation is made;
      the validation then succeeds and leaves no expectation behind. */
  function ExpectValidateCallerAny<T>(m: MockRuntime<T>): (r: MockRuntime<T>)
    ensures Verify(r).Panic?
    ensures m.inCall ==> ValidateAcceptAny(r) == Done(Ok(()), m.(expectations := m.expectations.(validateCallerAny := false)))
    ensures r.(expectations := m.expectations) == m
    ensures r.expectations.(validateCallerAny := m.expectations.validateCallerAny) == m.expectations
  {
    m.(expectations := m.expectations.(validateCallerAny := true))
  }

  /** `expect_create_actor`: replaces any earlier expectation. `verify`
      fails until this very creation happens; any other creation panics. */
  function ExpectCreateActorCall<T>(m: MockRuntime<T>, codeId: Cid, actorId: ActorId): (r: MockRuntime<T>)
    ensures Verify(r).Panic?
    ensures m.inCall && !m.inTransaction ==>
              && CreateActor(r, codeId, actorId) == Done(Ok(()), m.(expectations := m.expectations.(createActor := None)))
              && forall c: Cid, a: ActorId :: (c, a) != (codeId, actorId) ==> CreateActor(r, c, a).Panic?
    ensures r.(expectations := m.expectations) == m
    ensures r.expectations.(createActor := m.expectations.createActor) == m.expectations
  {
    m.(expectations := m.expectations.(createActor := Some(ExpectCreateActor(codeId, actorId))))
  }

  /** `expect_delete_actor`: replaces any earlier expectation. `verify`
      fails until the deletion happens with this burn flag; the other flag
      panics. */
  function ExpectDeleteActor<T>(m: MockRuntime<T>, burnUnspent: bool): (r: MockRuntime<T>)
    ensures Verify(r).Panic?
    ensures m.inCall && !m.inTransaction ==>
              && DeleteActor(r, burnUnspent) == Done(Ok(()), m.(expectations := m.expectations.(deleteActor := None)))
              && DeleteActor(r, !burnUnspent).Panic?
    ensures r.(expectations := m.expectations) == m
    ensures r.expectations.(deleteActor := m.expectations.deleteActor) == m.expectations
  {
    m.(expectations := m.expectations.(deleteActor := Some(burnUnspent)))
  }

  /** `set_caller`: the caller, its code CID, and that code recorded for the
      caller's address. */
  function SetCaller<T>(m: MockRuntime<T>, codeId: Cid, a: Address): (r: MockRuntime<T>)
    ensures r.caller == a && r.callerType == codeId
    ensures a in r.actorCodeCids && r.actorCodeCids[a] == codeId
    ensures r.actorCodeCids.Keys == m.actorCodeCids.Keys + {a}
    ensures forall b :: b in m.actorCodeCids && b != a ==> r.actorCodeCids[b] == m.actorCodeCids[b]
    ensures r == m.(caller := a, callerType := codeId, actorCodeCids := r.actorCodeCids)
  {
    m.(caller := a, callerType := codeId, actorCodeCids := m.actorCodeCids[a := codeId])
  }

  // ---------------------------------------------------------------------
  // Caller validation

  function ValidateAcceptAny<T>(m: MockRuntime<T>): (r: Outcome<Result<()>, MockRuntime<T>>)
    ensures r.Done? <==> m.inCall && m.expectations.validateCallerAny
    ensures r.Done? ==> r.value.Ok? && r.state == m.(expectations := m.expectations.(validateCallerAny := false))
  {
    if !m.inCall then Panic(OutsideCall)
    else if !m.expectations.validateCallerAny then Panic("unexpected validate-caller-any")
    else Done(Ok(()), m.(expectations := m.expectations.(validateCallerAny := false)))
  }

  /** `validate_immediate_caller_is`: the address list must be the one
      registered; the expectation is consumed whatever the verdict. */
  function ValidateIs<T>(m: MockRuntime<T>, addrs: seq<Address>): (r: Outcome<Result<()>, MockRuntime<T>>)
    ensures r.Done? <==> m.inCall && m.expectations.validateCallerAddr == Some(addrs)
    ensures r.Done? ==>
              && (r.value.Ok? <==> m.caller in addrs)
              && (r.value.Err? ==> r.value.error.code == UsrForbidden)
              && r.state == m.(expectations := m.expectations.(validateCallerAddr := None))
  {
    if !m.inCall then Panic(OutsideCall)
    else if m.expectations.validateCallerAddr.None? then Panic("unexpected validate caller addrs")
    else if m.expectations.validateCallerAddr.value != addrs then Panic("unexpected validate caller addrs")
    else
      var m1 := m.(expectations := m.expectations.(validateCallerAddr := None));
      if m.caller in addrs then Done(Ok(()), m1) else Done(Fail(UsrForbidden), m1)
  }

  /** The code CID registered for `t` (`find_by_type`); every builtin type
      is registered, so the source's unwrap never fails. */
  function CodeOf(t: ActorType): (c: Cid)
    ensures FindByType(t) == Some(c)
    ensures ResolveBuiltin(c) == Some(t)
  {
    EveryTypeRegistered(t);
    var c := FindByType(t).value;
    RegistryBidirectional(c, t);
    c
  }

  /** The code CIDs of `types`, in order. */
  function CodesOf(types: seq<ActorType>): (r: seq<Cid>)
    ensures |r| == |types|
    ensures forall i :: 0 <= i < |types| ==> ResolveBuiltin(r[i]) == Some(types[i])
  {
    seq(|types|, i requires 0 <= i < |types| => CodeOf(types[i]))
  }

  /** `validate_immediate_caller_type`: the types, mapped to their code
      CIDs, must be the registered list; the caller's code CID must be one
      of them. The expectation is consumed whatever the verdict. */
  function ValidateType<T>(m: MockRuntime<T>, types: seq<ActorType>): (r: Outcome<Result<()>, MockRuntime<T>>)
    ensures r.Done? <==> m.inCall && m.expectations.validateCallerType == Some(CodesOf(types))
    ensures r.Done? ==>
              && (r.value.Ok? <==> m.callerType in CodesOf(types))
              && (r.value.Err? ==> r.value.error.code == UsrForbidden)
              && r.state == m.(expectations := m.expectations.(validateCallerType := None))
  {
    if !m.inCall then Panic(OutsideCall)
    else if m.expectations.validateCallerType.None? then Panic("unexpected validate caller code")
    else
      var codes := CodesOf(types);
      if codes != m.expectations.validateCallerType.value then Panic("unexpected validate caller code")
      else
        var m1 := m.(expectations := m.expectations.(validateCallerType := None));
        if m.callerType in codes then Done(Ok(()), m1) else Done(Fail(UsrForbidden), m1)
  }

  /** `validate_immediate_caller_not_type`: succeeds when every given type's
      code CID is among the registered ones; the caller is not consulted. */
  function ValidateNotType<T>(m: MockRuntime<T>, types: seq<ActorType>): (r: Outcome<Result<()>, MockRuntime<T>>)
    ensures r.Done? <==> m.inCall && m.expectations.validateCallerNotType.Some?
    ensures r.Done? ==>
              && (r.value.Ok? <==> forall t :: t in types ==> CodeOf(t) in m.expectations.validateCallerNotType.value)
              && (r.value.Err? ==> r.value.error.code == UsrForbidden)
              && r.state == m.(expectations := m.expectations.(validateCallerNotType := None))
  {
    if !m.inCall then Panic(OutsideCall)
    else if m.expectations.validateCallerNotType.None? then Panic("unexpected validate caller code")
    else
      var m1 := m.(expectations := m.expectations.(validateCallerNotType := None));
      if forall i :: 0 <= i < |types| ==> CodeOf(types[i]) in m.expectations.validateCallerNotType.value then Done(Ok(()), m1)
      else Done(Fail(UsrForbidden), m1)
  }

  // ---------------------------------------------------------------------
  // Addresses and the registry

  /** `get_id_address`: an ID address is its own ID address; others are
      looked up among the registered ones. */
  function GetIdAddress<T>(m: MockRuntime<T>, a: Address): (r: Option<Address>)
    ensures a.Id? ==> r == Some(a)
    ensures !a.Id? ==> (r.Some? <==> a in m.idAddresses) && (r.Some? ==> r.value == m.idAddresses[a])
  {
    if a.Id? then Some(a)
    else if a in m.idAddresses then Some(m.idAddresses[a])
    else None
  }

  /** `resolve_address`: `get_id_address` inside a call. */
  function ResolveAddress<T>(m: MockRuntime<T>, a: Address): (r: Outcome<Option<Address>, MockRuntime<T>>)
    ensures r.Panic? <==> !m.inCall
    ensures r.Done? ==> r.value == GetIdAddress(m, a) && r.state == m
  {
    if !m.inCall then Panic(OutsideCall) else Done(GetIdAddress(m, a), m)
  }

  /** `add_id_address`: the target must be an ID address. */
  function AddIdAddress<T>(m: MockRuntime<T>, source: Address, target: Address): (r: Outcome<(), MockRuntime<T>>)
    ensures r.Done? <==> target.Id?
    ensures r.Done? ==> r.state == m.(idAddresses := m.idAddresses[source := target])
  {
    if !target.Id? then Panic("target must use ID address protocol")
    else Done((), m.(idAddresses := m.idAddresses[source := target]))
  }

  function ResolveBuiltinActorType<T>(m: MockRuntime<T>, code: Cid): (r: Outcome<Option<ActorType>, MockRuntime<T>>)
    ensures r.Panic? <==> !m.inCall
    ensures r.Done? ==> r.state == m && r.value == ResolveBuiltin(code)
  {
    if !m.inCall then Panic(OutsideCall) else Done(ResolveBuiltin(code), m)
  }

  function GetCodeCidForType<T>(m: MockRuntime<T>, t: ActorType): (r: Outcome<Cid, MockRuntime<T>>)
    ensures r.Panic? <==> !m.inCall
    ensures r.Done? ==> r.state == m && ResolveBuiltin(r.value) == Some(t)
  {
    if !m.inCall then Panic(OutsideCall) else Done(CodeOf(t), m)
  }

  /** `get_actor_code_cid`: the registered code of an actor ID. */
  function GetActorCodeCid<T>(m: MockRuntime<T>, id: ActorId): (r: Outcome<Option<Cid>, MockRuntime<T>>)
    ensures r.Panic? <==> !m.inCall
    ensures r.Done? ==> r.state == m && (r.value.Some? <==> Id(id) in m.actorCodeCids)
    ensures r.Done? && r.value.Some? ==> m.actorCodeCids[Id(id)] == r.value.value
  {
    if !m.inCall then Panic(OutsideCall)
    else if Id(id) in m.actorCodeCids then Done(Some(m.actorCodeCids[Id(id)]), m)
    else Done(None, m)
  }

  // ---------------------------------------------------------------------
  // State

  /** `create`: refused once a state root exists. */
  function Create<T>(m: MockRuntime<T>, obj: T, hash: T -> nat): (r: Outcome<Result<()>, MockRuntime<T>>)
    ensures r.Done?
    ensures m.state.Some? ==> r.value == Fail(UsrIllegalState) && r.state == m
    ensures m.state.None? ==>
              && r.value == Ok(())
              && r.state.state == Some(CidOf(obj, hash))
              && r.state.store == Put(m.store, obj, hash)
              && Get(r.state.store, r.state.state.value) == Some(obj)
              && r.state == m.(state := r.state.state, store := r.state.store)
  {
    if m.state.Some? then Done(Fail(UsrIllegalState), m)
    else Done(Ok(()), m.(state := Some(CidOf(obj, hash)), store := Put(m.store, obj, hash)))
  }

  /** `state`: a missing root or block is a panic. */
  function State<T>(m: MockRuntime<T>): (r: Outcome<Result<T>, MockRuntime<T>>)
    ensures r.Panic? <==> m.state.None? || Get(m.store, m.state.value).None?
    ensures r.Done? ==> r.state == m && r.value.Ok? && Get(m.store, m.state.value) == Some(r.value.value)
  {
    if m.state.None? then Panic("no state root")
    else
      match Get(m.store, m.state.value)
      case None => Panic("no block for state root")
      case Some(obj) => Done(Ok(obj), m)
  }

  /** A transaction body for the mock runtime. */
  type Closure<!T, R> = (T, MockRuntime<T>) -> Outcome<Result<R>, (T, MockRuntime<T>)>

  /** `transaction`: a nested one is refused before anything is read;
      otherwise the closure runs with the flag up, the state is written back
      and the root moved only on success, and the flag is lowered after. */
  function Transaction<T, R>(m: MockRuntime<T>, f: Closure<T, R>, hash: T -> nat): (r: Outcome<Result<R>, MockRuntime<T>>)
    ensures m.inTransaction ==> r == Done(Fail(UsrAssertionFailed), m)
    ensures !m.inTransaction && State(m).Panic? ==> r.Panic?
    ensures !m.inTransaction && State(m).Done? ==>
              (r.Done? <==> f(State(m).value.value, m.(inTransaction := true)).Done?)
    ensures r.Done? && !m.inTransaction ==>
              var out := f(State(m).value.value, m.(inTransaction := true));
              && out.Done?
              && r.value == out.value
              && !r.state.inTransaction
              && (out.value.Err? ==> r.state == out.state.1.(inTransaction := false))
              && (out.value.Ok? ==>
                    && r.state.state == Some(CidOf(out.state.0, hash))
                    && r.state.store == Put(out.state.1.store, out.state.0, hash)
                    && Get(r.state.store, r.state.state.value) == Some(out.state.0)
                    && r.state == out.state.1.(inTransaction := false, state := r.state.state, store := r.state.store))
  {
    if m.inTransaction then Done(Fail(UsrAssertionFailed), m)
    else
      match State(m)
      case Panic(why) => Panic(why)
      case Done(current, _) =>
        match f(current.value, m.(inTransaction := true))
        case Panic(why) => Panic(why)
        case Done(res, after) =>
          var m1 := after.1;
          var m2 := if res.Ok? then m1.(state := Some(CidOf(after.0, hash)), store := Put(m1.store, after.0, hash)) else m1;
          Done(res, m2.(inTransaction := false))
  }

  // ---------------------------------------------------------------------
  // Sending

  predicate Matches(exp: ExpectedMessage, to: Address, methodNum: MethodNum, params: Option<Bytes>, value: TokenAmount) {
    exp.to == to && exp.methodNum == methodNum && exp.params == params && exp.value == value
  }

  /** `send`: refused inside a transaction with nothing touched; otherwise
      the head of the send queue is popped and must match the call. The
      balance is then checked: an overdraft fails with
      `SysSenderStateInvalid`, the expectation already consumed; otherwise
      the value is debited and the scripted outcome returned. */
  function Send<T>(m: MockRuntime<T>, to: Address, methodNum: MethodNum, params: Option<Bytes>, value: TokenAmount)
    : (r: Outcome<Result<Option<Bytes>>, MockRuntime<T>>)
    ensures !m.inCall ==> r.Panic?
    ensures m.inCall && m.inTransaction ==> r == Done(Fail(UsrAssertionFailed), m)
    ensures m.inCall && !m.inTransaction ==>
              (r.Done? <==> m.expectations.sends != [] && Matches(m.expectations.sends[0], to, methodNum, params, value))
    ensures r.Done? && !m.inTransaction ==>
              var exp := m.expectations.sends[0];
              && r.state.expectations == m.expectations.(sends := m.expectations.sends[1..])
              && r.state == m.(balance := r.state.balance, expectations := r.state.expectations)
              && (value > m.balance ==> r.value == Fail(SysSenderStateInvalid) && r.state.balance == m.balance)
              && (value <= m.balance ==>
                    && r.state.balance == m.balance - value
                    && r.value == (if exp.exitCode == ExitOk then Ok(exp.sendReturn) else Fail(exp.exitCode)))
    ensures r.Done? && m.balance >= 0 ==> r.state.balance >= 0
  {
    if !m.inCall then Panic(OutsideCall)
    else if m.inTransaction then Done(Fail(UsrAssertionFailed), m)
    else if m.expectations.sends == [] then Panic("unexpected message")
    else
      var exp := m.expectations.sends[0];
      if !Matches(exp, to, methodNum, params, value) then Panic("send does not match the expected message")
      else
        var m1 := m.(expectations := m.expectations.(sends := m.expectations.sends[1..]));
        if value > m1.balance then Done(Fail(SysSenderStateInvalid), m1)
        else
          var m2 := m1.(balance := m1.balance - value);
          if exp.exitCode == ExitOk then Done(Ok(exp.sendReturn), m2) else Done(Fail(exp.exitCode), m2)
  }

  // ---------------------------------------------------------------------
  // Actor lifecycle

  /** `new_actor_address`: hands out the prepared address once. */
  function NewActorAddress<T>(m: MockRuntime<T>): (r: Outcome<Result<Address>, MockRuntime<T>>)
    ensures r.Done? <==> m.inCall && m.newActorAddr.Some?
    ensures r.Done? ==> r.value == Ok(m.newActorAddr.value) && r.state == m.(newActorAddr := None)
  {
    if !m.inCall then Panic(OutsideCall)
    else if m.newActorAddr.None? then Panic("unexpected call to new actor address")
    else Done(Ok(m.newActorAddr.value), m.(newActorAddr := None))
  }

  /** `create_actor`: refused inside a transaction; otherwise it must match
      the registered expectation, which it consumes. */
  function CreateActor<T>(m: MockRuntime<T>, codeId: Cid, actorId: ActorId): (r: Outcome<Result<()>, MockRuntime<T>>)
    ensures !m.inCall ==> r.Panic?
    ensures m.inCall && m.inTransaction ==> r == Done(Fail(UsrAssertionFailed), m)
    ensures m.inCall && !m.inTransaction ==> (r.Done? <==> m.expectations.createActor == Some(ExpectCreateActor(codeId, actorId)))
    ensures r.Done? && !m.inTransaction ==> r.value.Ok? && r.state == m.(expectations := m.expectations.(createActor := None))
  {
    if !m.inCall then Panic(OutsideCall)
    else if m.inTransaction then Done(Fail(UsrAssertionFailed), m)
    else if m.expectations.createActor.None? then Panic("unexpected call to create actor")
    else if m.expectations.createActor.value != ExpectCreateActor(codeId, actorId) then Panic("unexpected actor being created")
    else Done(Ok(()), m.(expectations := m.expectations.(createActor := None)))
  }

  /** `delete_actor`: refused inside a transaction; otherwise it must match
      the registered expectation, which it consumes. */
  function DeleteActor<T>(m: MockRuntime<T>, burnUnspent: bool): (r: Outcome<Result<()>, MockRuntime<T>>)
    ensures !m.inCall ==> r.Panic?
    ensures m.inCall && m.inTransaction ==> r == Done(Fail(UsrAssertionFailed), m)
    ensures m.inCall && !m.inTransaction ==> (r.Done? <==> m.expectations.deleteActor == Some(burnUnspent))
    ensures r.Done? && !m.inTransaction ==> r.value.Ok? && r.state == m.(expectations := m.expectations.(deleteActor := None))
  {
    if !m.inCall then Panic(OutsideCall)
    else if m.inTransaction then Done(Fail(UsrAssertionFailed), m)
    else if m.expectations.deleteActor.None? then Panic("unexpected call to delete actor")
    else if m.expectations.deleteActor.value != burnUnspent then Panic("attempt to delete wrong actor")
    else Done(Ok(()), m.(expectations := m.expectations.(deleteActor := None)))
  }

  // ---------------------------------------------------------------------
  // Gas and signatures

  /** `charge_gas`: the charge must equal the head of the gas queue, which
      it pops. */
  function ChargeGas<T>(m: MockRuntime<T>, value: int): (r: Outcome<(), MockRuntime<T>>)
    ensures r.Done? <==> m.expectations.gasCharges != [] && m.expectations.gasCharges[0] == value
    ensures r.Done? ==> r.state == m.(expectations := m.expectations.(gasCharges := m.expectations.gasCharges[1..]))
  {
    if m.expectations.gasCharges == [] then Panic("unexpected gas charge")
    else if m.expectations.gasCharges[0] != value then Panic("expected gas charge differs")
    else Done((), m.(expectations := m.expectations.(gasCharges := m.expectations.gasCharges[1..])))
  }

  /** `verify_signature`: the check must equal the head of the signature
      queue, which it pops; the scripted verdict is returned. */
  function VerifySignature<T>(m: MockRuntime<T>, sig: Signature, signer: Address, plaintext: Bytes): (r: Outcome<bool, MockRuntime<T>>)
    ensures r.Done? <==>
              && m.expectations.verifySigs != []
              && m.expectations.verifySigs[0].sig == sig
              && m.expectations.verifySigs[0].signer == signer
              && m.expectations.verifySigs[0].plaintext == plaintext
    ensures r.Done? ==>
              && r.value == m.expectations.verifySigs[0].valid
              && r.state == m.(expectations := m.expectations.(verifySigs := m.expectations.verifySigs[1..]))
  {
    if m.expectations.verifySigs == [] then Panic("Unexpected signature verification")
    else
      var exp := m.expectations.verifySigs[0];
      if exp.sig != sig || exp.signer != signer || exp.plaintext != plaintext then Panic("unexpected signature verification")
      else Done(exp.valid, m.(expectations := m.expectations.(verifySigs := m.expectations.verifySigs[1..])))
  }

  // ---------------------------------------------------------------------
  // Invocation

  /** An actor's method dispatch against the mock runtime. */
  type Invoke<!T> = (MockRuntime<T>, MethodNum, Option<Bytes>) -> Outcome<Result<Option<Bytes>>, MockRuntime<T>>

  /** `call`: runs the method with `in_call` up, lowers it afterwards, and
      puts the state root back when the method failed. Nothing else is
      rolled back. */
  function Call<T>(m: MockRuntime<T>, methodNum: MethodNum, params: Option<Bytes>, invoke: Invoke<T>)
    : (r: Outcome<Result<Option<Bytes>>, MockRuntime<T>>)
    ensures r.Panic? <==> invoke(m.(inCall := true), methodNum, params).Panic?
    ensures r.Done? ==>
              var out := invoke(m.(inCall := true), methodNum, params);
              && !r.state.inCall
              && r.value == out.value
              && (r.value.Err? ==> r.state.state == m.state)
              && (r.value.Ok? ==> r.state.state == out.state.state)
              && r.state == out.state.(inCall := false, state := r.state.state)
  {
    match invoke(m.(inCall := true), methodNum, params)
    case Panic(why) => Panic(why)
    case Done(res, after) =>
      var restored := if res.Err? then after.(state := m.state) else after;
      Done(res, restored.(inCall := false))
  }
}
