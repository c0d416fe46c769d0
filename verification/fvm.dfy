/** The production runtime adapter (`FvmRuntime`): the caller-validation and
    in-transaction guards it keeps, its state operations over the host's
    state root, the error mapping it applies to host replies, and the
    dispatch trampoline. Every host syscall is an input: the host's answers
    live in `Host`, and the replies of fallible syscalls are parameters. */
module Fvm {
  import opened Types
  import opened ExitCodes
  import opened Blockstore

  /** Network version 16, from which randomness failures get user codes. */
  const V16: nat := 16

  /** What a completed host send reports about the callee. */
  datatype Receipt = Receipt(exitCode: ExitCode, returnData: Bytes)

  /** Syscalls with effects outside the actor, in the order they were made. */
  datatype HostCall =
    | SendCall(to: Address, methodNum: MethodNum, params: Bytes, value: TokenAmount)
    | CreateActorCall(code: Cid, actor: ActorId)
    | SelfDestructCall(beneficiary: Address)

  /** The host's view of the running actor: its immediate caller, its state
      root and block store, the code and builtin-type lookups, the network
      version, and the effectful syscalls issued so far. */
  datatype Host<T> = Host(
    caller: ActorId,
    root: Cid,
    store: Store<T>,
    actorCodes: map<Address, Cid>,
    builtinTypes: map<Cid, ActorType>,
    networkVersion: nat,
    calls: seq<HostCall>)

  datatype FvmRuntime<T> = FvmRuntime(host: Host<T>, inTransaction: bool, callerValidated: bool)

  /** The runtime the trampoline builds for an invocation: both flags down. */
  function NewRuntime<T>(host: Host<T>): (rt: FvmRuntime<T>)
    ensures rt.host == host
    ensures AssertNotValidated(rt).Ok?
    ensures !rt.inTransaction
  {
    FvmRuntime(host, false, false)
  }

  function Caller<T>(rt: FvmRuntime<T>): Address {
    Id(rt.host.caller)
  }

  /** `rt'` differs from `rt` at most in the state root and the store. */
  ghost predicate OnlyStateChanged<T>(rt: FvmRuntime<T>, rt': FvmRuntime<T>) {
    rt' == rt.(host := rt.host.(root := rt'.host.root, store := rt'.host.store))
  }

  /** `rt` with one more effectful syscall on record. */
  function Issue<T>(rt: FvmRuntime<T>, call: HostCall): FvmRuntime<T> {
    rt.(host := rt.host.(calls := rt.host.calls + [call]))
  }

  // ---------------------------------------------------------------------
  // Caller validation

  function AssertNotValidated<T>(rt: FvmRuntime<T>): (r: Result<()>)
    ensures r.Ok? <==> !rt.callerValidated
    ensures r.Err? ==> r.error.code == UsrAssertionFailed
  {
    if rt.callerValidated then Fail(UsrAssertionFailed) else Ok(())
  }

  function ValidateAcceptAny<T>(rt: FvmRuntime<T>): (r: Outcome<Result<()>, FvmRuntime<T>>)
    ensures r.Done? && r.state.callerValidated
    ensures r.value.Ok? <==> !rt.callerValidated
    ensures r.value.Err? ==> r.value.error.code == UsrAssertionFailed
    ensures r.state == rt.(callerValidated := true)
  {
    match AssertNotValidated(rt)
    case Err(e) => Done(Err(e), rt)
    case Ok(_) => Done(Ok(()), rt.(callerValidated := true))
  }

  function ValidateIs<T>(rt: FvmRuntime<T>, addresses: seq<Address>): (r: Outcome<Result<()>, FvmRuntime<T>>)
    ensures r.Done?
    ensures r.state == rt.(callerValidated := r.state.callerValidated)
    ensures rt.callerValidated ==> r.value == Fail(UsrAssertionFailed) && r.state.callerValidated
    ensures !rt.callerValidated ==>
              && (r.value.Ok? <==> Caller(rt) in addresses)
              && (r.state.callerValidated <==> Caller(rt) in addresses)
              && (r.value.Err? ==> r.value.error.code == UsrForbidden)
  {
    match AssertNotValidated(rt)
    case Err(e) => Done(Err(e), rt)
    case Ok(_) =>
      if Caller(rt) in addresses then Done(Ok(()), rt.(callerValidated := true))
      else Done(Fail(UsrForbidden), rt)
  }

  /** `resolve_builtin_actor_type`: a pass-through to the host, here a read
      of the host's builtin-type table. */
  function ResolveBuiltinActorType<T>(rt: FvmRuntime<T>, code: Cid): Option<ActorType> {
    if code in rt.host.builtinTypes then Some(rt.host.builtinTypes[code]) else None
  }

  /** The builtin type of the caller's code, when the caller has code. */
  function CallerType<T>(rt: FvmRuntime<T>): Option<ActorType> {
    if Caller(rt) in rt.host.actorCodes
    then ResolveBuiltinActorType(rt, rt.host.actorCodes[Caller(rt)])
    else None
  }

  function ValidateType<T>(rt: FvmRuntime<T>, types: seq<ActorType>): (r: Outcome<Result<()>, FvmRuntime<T>>)
    ensures rt.callerValidated ==> r == Done(Fail(UsrAssertionFailed), rt)
    ensures !rt.callerValidated ==> (r.Panic? <==> Caller(rt) !in rt.host.actorCodes)
    ensures r.Done? ==> r.state == rt.(callerValidated := r.state.callerValidated)
    ensures r.Done? && !rt.callerValidated ==>
              && (r.value.Ok? <==> CallerType(rt).Some? && CallerType(rt).value in types)
              && (r.state.callerValidated <==> r.value.Ok?)
              && (r.value.Err? ==> r.value.error.code == UsrForbidden)
  {
    match AssertNotValidated(rt)
    case Err(e) => Done(Err(e), rt)
    case Ok(_) =>
      if Caller(rt) !in rt.host.actorCodes then Panic("failed to lookup caller code")
      else
        var typ := ResolveBuiltinActorType(rt, rt.host.actorCodes[Caller(rt)]);
        if typ.Some? && typ.value in types then Done(Ok(()), rt.(callerValidated := true))
        else Done(Fail(UsrForbidden), rt)
  }

  /** The three validation operations, as one call an actor method makes. */
  datatype Validation =
    | AcceptAny
    | CallerIs(addresses: seq<Address>)
    | CallerOfType(types: seq<ActorType>)

  function Validate<T>(rt: FvmRuntime<T>, v: Validation): (r: Outcome<Result<()>, FvmRuntime<T>>)
    ensures r.Done? ==>
              && r.state == rt.(callerValidated := r.state.callerValidated)
              && (rt.callerValidated ==> r.value == Fail(UsrAssertionFailed))
              && (r.state.callerValidated <==> rt.callerValidated || r.value.Ok?)
  {
    match v
    case AcceptAny => ValidateAcceptAny(rt)
    case CallerIs(addresses) => ValidateIs(rt, addresses)
    case CallerOfType(types) => ValidateType(rt, types)
  }

  /** Runs validations one after the other, recording which succeeded. */
  function ValidateAll<T>(rt: FvmRuntime<T>, vs: seq<Validation>): Outcome<seq<bool>, FvmRuntime<T>>
    decreases |vs|
  {
    if |vs| == 0 then Done([], rt)
    else
      match Validate(rt, vs[0])
      case Panic(why) => Panic(why)
      case Done(res, rt1) =>
        match ValidateAll(rt1, vs[1..])
        case Panic(why) => Panic(why)
        case Done(oks, rt2) => Done([res.Ok?] + oks, rt2)
  }

  function Successes(oks: seq<bool>): nat {
    if |oks| == 0 then 0 else (if oks[0] then 1 else 0) + Successes(oks[1..])
  }

  // ---------------------------------------------------------------------
  // State

  /** `create`: only an actor whose root is still the empty-array CID may
      establish its state. Reading the root and writing the block are taken
      to succeed. */
  function Create<T>(rt: FvmRuntime<T>, obj: T, hash: T -> nat): (r: Outcome<Result<()>, FvmRuntime<T>>)
    ensures r.Done?
    ensures rt.host.root != EmptyArray ==> r.value == Fail(UsrIllegalState) && r.state == rt
    ensures rt.host.root == EmptyArray ==>
              && r.value == Ok(())
              && r.state.host.root != EmptyArray
              && r.state.host.root == CidOf(obj, hash)
              && r.state.host.store == Put(rt.host.store, obj, hash)
              && Get(r.state.host.store, r.state.host.root) == Some(obj)
              && OnlyStateChanged(rt, r.state)
  {
    if rt.host.root != EmptyArray then Done(Fail(UsrIllegalState), rt)
    else
      var store := Put(rt.host.store, obj, hash);
      Done(Ok(()), rt.(host := rt.host.(root := CidOf(obj, hash), store := store)))
  }

  /** `state`: a root with no block behind it is a panic, not an error. */
  function State<T>(rt: FvmRuntime<T>): (r: Outcome<Result<T>, FvmRuntime<T>>)
    ensures r.Panic? <==> Get(rt.host.store, rt.host.root).None?
    ensures r.Done? ==> r.state == rt && r.value.Ok? && Get(rt.host.store, rt.host.root) == Some(r.value.value)
  {
    match Get(rt.host.store, rt.host.root)
    case None => Panic("State does not exist for actor state root")
    case Some(obj) => Done(Ok(obj), rt)
  }

  /** A transaction body: it gets the current state and the runtime, and
      returns its result with the state and runtime it leaves behind. */
  type Closure<!T, R> = (T, FvmRuntime<T>) -> Outcome<Result<R>, (T, FvmRuntime<T>)>

  /** The state the closure of a transaction on `rt` is given. */
  function Current<T>(rt: FvmRuntime<T>): T
    requires Get(rt.host.store, rt.host.root).Some?
  {
    Get(rt.host.store, rt.host.root).value
  }

  /** `transaction`: read the state, run the closure with the in-transaction
      flag up, lower the flag whatever the closure did, and write the state
      back and move the root only when the closure succeeded. Nesting is not
      rejected (see `FvmProperties.TransactionLowersEnclosingGuard`). */
  function Transaction<T, R>(rt: FvmRuntime<T>, f: Closure<T, R>, hash: T -> nat): (r: Outcome<Result<R>, FvmRuntime<T>>)
    ensures Get(rt.host.store, rt.host.root).None? ==> r.Panic?
    ensures Get(rt.host.store, rt.host.root).Some? ==>
              (r.Done? <==> f(Current(rt), rt.(inTransaction := true)).Done?)
    ensures r.Done? ==> !r.state.inTransaction
    ensures r.Done? ==>
              var out := f(Current(rt), rt.(inTransaction := true));
              && out.Done?
              && r.value == out.value
              && (out.value.Err? ==> r.state == out.state.1.(inTransaction := false))
              && (out.value.Ok? ==>
                    && r.state.host.root == CidOf(out.state.0, hash)
                    && r.state.host.store == Put(out.state.1.host.store, out.state.0, hash)
                    && Get(r.state.host.store, r.state.host.root) == Some(out.state.0)
                    && OnlyStateChanged(out.state.1.(inTransaction := false), r.state))
  {
    match Get(rt.host.store, rt.host.root)
    case None => Panic("State does not exist for actor state root")
    case Some(obj) =>
      match f(obj, rt.(inTransaction := true))
      case Panic(why) => Panic(why)
      case Done(res, after) =>
        var rt1 := after.1.(inTransaction := false);
        match res
        case Err(e) => Done(Err(e), rt1)
        case Ok(v) =>
          var store := Put(rt1.host.store, after.0, hash);
          Done(Ok(v), rt1.(host := rt1.host.(root := CidOf(after.0, hash), store := store)))
  }

  /** `Transaction` with the nesting check the mock runtime performs: a
      transaction opened inside another fails before reading any state and
      leaves the enclosing transaction's flag up. */
  function GuardedTransaction<T, R>(rt: FvmRuntime<T>, f: Closure<T, R>, hash: T -> nat): (r: Outcome<Result<R>, FvmRuntime<T>>)
    ensures rt.inTransaction ==> r == Done(Fail(UsrAssertionFailed), rt)
    ensures r.Done? ==> r.state.inTransaction == rt.inTransaction
    ensures !rt.inTransaction ==> r == Transaction(rt, f, hash)
  {
    if rt.inTransaction then Done(Fail(UsrAssertionFailed), rt)
    else Transaction(rt, f, hash)
  }

  // ---------------------------------------------------------------------
  // Sending

  /** The exit code a failed callee's code is surfaced as: codes meaning the
      callee misbehaved become `UsrUnspecified`, other system codes become
      `UsrAssertionFailed`, user codes pass through. */
  function NormalizeExitCode(code: ExitCode): (r: ExitCode)
    ensures !IsSystemError(r)
    ensures code == SysMissingReturn || code == SysIllegalInstruction || code == SysIllegalExitCode ==> r == UsrUnspecified
    ensures IsSystemError(code) && code != SysMissingReturn && code != SysIllegalInstruction && code != SysIllegalExitCode ==> r == UsrAssertionFailed
    ensures !IsSystemError(code) ==> r == code
  {
    if code == SysMissingReturn || code == SysIllegalInstruction || code == SysIllegalExitCode then UsrUnspecified
    else if IsSystemError(code) then UsrAssertionFailed
    else code
  }

  /** The error a failed send syscall is surfaced as. */
  function SendSyscallError(e: ErrorNumber): (r: ActorError)
    ensures !IsSystemError(r.code)
    ensures r.code == UsrUnspecified <==> e == NotFound
    ensures r.code == UsrInsufficientFunds <==> e == InsufficientFunds
    ensures r.code == UsrAssertionFailed <==> e != NotFound && e != InsufficientFunds
  {
    match e
    case NotFound => ActorError(UsrUnspecified)
    case InsufficientFunds => ActorError(UsrInsufficientFunds)
    case LimitExceeded => ActorError(UsrAssertionFailed)
    case _ => ActorError(UsrAssertionFailed)
  }

  /** `send`: refused inside a transaction without reaching the host;
      otherwise issued, and whatever comes back is surfaced with a user-tier
      code only. */
  function Send<T>(rt: FvmRuntime<T>, to: Address, methodNum: MethodNum, params: Bytes, value: TokenAmount,
                   reply: HostResult<Receipt>): (r: Outcome<Result<Bytes>, FvmRuntime<T>>)
    ensures r.Done?
    ensures rt.inTransaction ==> r.value == Fail(UsrAssertionFailed) && r.state == rt
    ensures !rt.inTransaction ==> r.state == Issue(rt, SendCall(to, methodNum, params, value))
    ensures r.value.Ok? <==> !rt.inTransaction && reply.HostOk? && IsSuccess(reply.value.exitCode)
    ensures r.value.Ok? ==> r.value.value == reply.value.returnData
    ensures !rt.inTransaction && reply.HostOk? && !IsSuccess(reply.value.exitCode) ==>
              r.value == Fail(NormalizeExitCode(reply.value.exitCode))
    ensures !rt.inTransaction && reply.HostErr? ==> r.value == Err(SendSyscallError(reply.errno))
    ensures r.value.Err? ==> !IsSystemError(r.value.error.code)
  {
    if rt.inTransaction then Done(Fail(UsrAssertionFailed), rt)
    else
      var rt1 := Issue(rt, SendCall(to, methodNum, params, value));
      match reply
      case HostOk(receipt) =>
        if IsSuccess(receipt.exitCode) then Done(Ok(receipt.returnData), rt1)
        else Done(Fail(NormalizeExitCode(receipt.exitCode)), rt1)
      case HostErr(e) => Done(Err(SendSyscallError(e)), rt1)
  }

  // ---------------------------------------------------------------------
  // Actor lifecycle

  /** `create_actor`: refused inside a transaction; otherwise issued, with an
      illegal-argument reply kept apart from every other failure. */
  function CreateActor<T>(rt: FvmRuntime<T>, code: Cid, actor: ActorId, reply: HostResult<()>): (r: Outcome<Result<()>, FvmRuntime<T>>)
    ensures r.Done?
    ensures rt.inTransaction ==> r == Done(Fail(UsrAssertionFailed), rt)
    ensures !rt.inTransaction ==> r.state == Issue(rt, CreateActorCall(code, actor))
    ensures !rt.inTransaction ==> (r.value.Ok? <==> reply.HostOk?)
    ensures !rt.inTransaction && reply.HostErr? ==>
              r.value.error.code == (if reply.errno == IllegalArgument then UsrIllegalArgument else UsrAssertionFailed)
    ensures r.value.Err? ==> !IsSystemError(r.value.error.code)
  {
    if rt.inTransaction then Done(Fail(UsrAssertionFailed), rt)
    else
      var rt1 := Issue(rt, CreateActorCall(code, actor));
      match reply
      case HostOk(_) => Done(Ok(()), rt1)
      case HostErr(IllegalArgument) => Done(Fail(UsrIllegalArgument), rt1)
      case HostErr(_) => Done(Fail(UsrAssertionFailed), rt1)
  }

  /** `delete_actor`: refused inside a transaction; otherwise the
      self-destruct syscall is issued and its outcome returned. `converted`
      is the syscall's reply already turned into an actor result (that
      conversion is not part of this model). */
  function DeleteActor<T>(rt: FvmRuntime<T>, beneficiary: Address, converted: Result<()>): (r: Outcome<Result<()>, FvmRuntime<T>>)
    ensures r.Done?
    ensures rt.inTransaction ==> r == Done(Fail(UsrAssertionFailed), rt)
    ensures !rt.inTransaction ==> r.state == Issue(rt, SelfDestructCall(beneficiary)) && r.value == converted
  {
    if rt.inTransaction then Done(Fail(UsrAssertionFailed), rt)
    else Done(converted, Issue(rt, SelfDestructCall(beneficiary)))
  }

  // ---------------------------------------------------------------------
  // Randomness

  /** `get_randomness_from_tickets` and `get_randomness_from_beacon` (they
      map failures identically): before network version 16 every failure is
      `SysIllegalInstruction`; from 16 on, an exceeded lookback is an illegal
      argument and anything else an assertion failure. */
  function GetRandomness<T>(rt: FvmRuntime<T>, reply: HostResult<Bytes>): (r: Result<Bytes>)
    ensures reply.HostOk? ==> r == Ok(reply.value)
    ensures reply.HostErr? && rt.host.networkVersion < V16 ==> r == Fail(SysIllegalInstruction)
    ensures reply.HostErr? && rt.host.networkVersion >= V16 ==>
              && r.Err?
              && !IsSystemError(r.error.code)
              && (r.error.code == UsrIllegalArgument <==> reply.errno == LimitExceeded)
              && (reply.errno != LimitExceeded ==> r == Fail(UsrAssertionFailed))
  {
    match reply
    case HostOk(randomness) => Ok(randomness)
    case HostErr(e) =>
      if rt.host.networkVersion < V16 then Fail(SysIllegalInstruction)
      else if e == LimitExceeded then Fail(UsrIllegalArgument)
      else Fail(UsrAssertionFailed)
  }

  // ---------------------------------------------------------------------
  // Trampoline

  /** How an invocation ends for the host. `ReturnedNoData` is the
      `NO_DATA_BLOCK_ID` handle; `ReturnedBlock` a block holding the data. */
  datatype Exit = Aborted(code: ExitCode) | ReturnedNoData | ReturnedBlock(data: Bytes)

  /** An actor's method dispatch. */
  type Invoke<!T> = (FvmRuntime<T>, MethodNum, Bytes) -> Outcome<Result<Bytes>, FvmRuntime<T>>

  /** The entry sequence: a missing parameter block or any panic aborts with
      `UsrAssertionFailed`, a method error aborts with its code, a successful
      method that never validated its caller aborts with
      `UsrAssertionFailed`, and otherwise the return data is handed back. */
  function Trampoline<T>(invoke: Invoke<T>, host: Host<T>, methodNum: MethodNum, params: Option<Bytes>): (e: Exit)
    ensures params.None? ==> e == Aborted(UsrAssertionFailed)
    ensures params.Some? ==>
              var out := invoke(NewRuntime(host), methodNum, params.value);
              && (out.Panic? ==> e == Aborted(UsrAssertionFailed))
              && (out.Done? && out.value.Err? ==> e == Aborted(out.value.error.code))
              && (!e.Aborted? <==> out.Done? && out.value.Ok? && out.state.callerValidated)
              && (e.Aborted? && out.Done? && out.value.Ok? ==> e.code == UsrAssertionFailed)
              && (e == ReturnedNoData ==> out.value.value == [])
              && (e.ReturnedBlock? ==> e.data == out.value.value && e.data != [])
  {
    match params
    case None => Aborted(UsrAssertionFailed)
    case Some(bytes) =>
      match invoke(NewRuntime(host), methodNum, bytes)
      case Panic(_) => Aborted(UsrAssertionFailed)
      case Done(Err(err), _) => Aborted(err.code)
      case Done(Ok(ret), rt) =>
        if !rt.callerValidated then Aborted(UsrAssertionFailed)
        else if ret == [] then ReturnedNoData
        else ReturnedBlock(ret)
  }
}
