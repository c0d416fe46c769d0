/** Where the test double and the production adapter agree and where they
    do not, for runtimes that describe the same invocation. */
module Agreement {
  import opened Types
  import opened ExitCodes
  import opened Blockstore
  import opened Registry
  import Fvm
  import Mock
  import MockProperties

  /** The two runtimes see the same caller with the same code, and the host
      resolves that code as the mock's registry does. */
  predicate SameCaller<T>(rt: Fvm.FvmRuntime<T>, m: Mock.MockRuntime<T>) {
    && m.caller == Fvm.Caller(rt)
    && Fvm.Caller(rt) in rt.host.actorCodes
    && rt.host.actorCodes[Fvm.Caller(rt)] == m.callerType
    && Fvm.ResolveBuiltinActorType(rt, m.callerType) == ResolveBuiltin(m.callerType)
  }

  /** Caller-address validation gives the same verdict in both runtimes
      when the mock was told to expect exactly this check. */
  lemma ValidateIsAgrees<T>(rt: Fvm.FvmRuntime<T>, m: Mock.MockRuntime<T>, addrs: seq<Address>)
    requires !rt.callerValidated && m.inCall
    requires m.caller == Fvm.Caller(rt)
    requires m.expectations.validateCallerAddr == Some(addrs)
    ensures Fvm.ValidateIs(rt, addrs).Done? && Mock.ValidateIs(m, addrs).Done?
    ensures Fvm.ValidateIs(rt, addrs).value == Mock.ValidateIs(m, addrs).value
  {
  }

  /** Caller-type validation gives the same verdict in both runtimes: the
      production adapter asks the host for the caller's type, the mock maps
      the allowed types to code CIDs, and the registry makes the two
      readings coincide. */
  lemma ValidateTypeAgrees<T>(rt: Fvm.FvmRuntime<T>, m: Mock.MockRuntime<T>, types: seq<ActorType>)
    requires !rt.callerValidated && m.inCall
    requires SameCaller(rt, m)
    requires m.expectations.validateCallerType == Some(Mock.CodesOf(types))
    ensures Fvm.ValidateType(rt, types).Done? && Mock.ValidateType(m, types).Done?
    ensures Fvm.ValidateType(rt, types).value == Mock.ValidateType(m, types).value
  {
    MockProperties.MockValidateTypeByResolvedType(m, types);
  }

  /** `create` refuses in both runtimes exactly when state already exists,
      and a successful one leaves the object readable in both. */
  lemma CreateAgrees<T>(rt: Fvm.FvmRuntime<T>, m: Mock.MockRuntime<T>, obj: T, hash: T -> nat)
    requires rt.host.root == EmptyArray <==> m.state.None?
    ensures Fvm.Create(rt, obj, hash).value == Mock.Create(m, obj, hash).value
    ensures Mock.Create(m, obj, hash).value.Ok? ==>
              && Fvm.State(Fvm.Create(rt, obj, hash).state).value == Ok(obj)
              && Mock.State(Mock.Create(m, obj, hash).state).value == Ok(obj)
  {
  }

  /** A failed callee's system-tier exit code reaches the caller unchanged
      in the mock, while the production adapter never surfaces a system
      code: a test scripting such a failure sees a code production cannot
      produce. */
  lemma SendFailureCodesDiverge(m: Mock.MockRuntime<int>, rt: Fvm.FvmRuntime<int>, to: Address, code: ExitCode)
    requires m.inCall && !m.inTransaction && !rt.inTransaction
    requires IsSystemError(code) && code != ExitOk
    requires m.expectations.sends == [Mock.ExpectedMessage(to, 0, None, 0, None, code)]
    requires m.balance >= 0
    ensures Mock.Send(m, to, 0, None, 0).value == Fail(code)
    ensures var p := Fvm.Send(rt, to, 0, [], 0, HostOk(Fvm.Receipt(code, [])));
            p.value.Err? && p.value.error.code != code && !IsSystemError(p.value.error.code)
  {
  }
}
