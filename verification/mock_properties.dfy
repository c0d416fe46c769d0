/** Properties of the test double that relate several calls: the FIFO
    discipline of its queues, what a scripted run leaves behind, the
    balance it keeps, and what an invocation rolls back. */
module MockProperties {
  import opened Types
  import opened ExitCodes
  import opened Blockstore
  import opened Registry
  import opened Mock
  import FvmProperties

  // ---------------------------------------------------------------------
  // Gas charges

  /** Charges `values` one after the other, stopping at the first panic. */
  function ChargeAll<T>(m: MockRuntime<T>, values: seq<int>): Outcome<(), MockRuntime<T>>
    decreases |values|
  {
    if values == [] then Done((), m)
    else
      match ChargeGas(m, values[0])
      case Panic(why) => Panic(why)
      case Done(_, m1) => ChargeAll(m1, values[1..])
  }

  /** Gas charges are consumed first in, first out: a run of charges
      completes exactly when it is a prefix of the expected queue, and it
      leaves the rest of the queue behind. */
  lemma {:induction false} GasChargesFifo<T>(m: MockRuntime<T>, values: seq<int>)
    ensures var q := m.expectations.gasCharges;
            ChargeAll(m, values).Done? <==> |values| <= |q| && q[..|values|] == values
    ensures var q := m.expectations.gasCharges;
            ChargeAll(m, values).Done? ==>
              ChargeAll(m, values).state == m.(expectations := m.expectations.(gasCharges := q[|values|..]))
    decreases |values|
  {
    var q := m.expectations.gasCharges;
    if values != [] {
      var first := ChargeGas(m, values[0]);
      if first.Done? {
        GasChargesFifo(first.state, values[1..]);
        assert first.state.expectations.gasCharges == q[1..];
        if |values| <= |q| {
          assert q[1..][..|values| - 1] == q[..|values|][1..];
          assert q[1..][|values| - 1..] == q[|values|..];
          assert q[..|values|] == [q[0]] + q[..|values|][1..];
          assert values == [values[0]] + values[1..];
        }
      }
    }
  }

  /** The scripted gas charges are met exactly when the code charges the
      registered values in order, and `verify` then finds none left. */
  lemma ScriptedGasChargesMet<T>(m: MockRuntime<T>, values: seq<int>)
    requires m.expectations.gasCharges == []
    ensures var scripted := ExpectAllGas(m, values);
            && ChargeAll(scripted, values).Done?
            && ChargeAll(scripted, values).state.expectations.gasCharges == []
            && ChargeAll(scripted, values).state == m
  {
    var scripted := ExpectAllGas(m, values);
    GasChargesFifo(scripted, values);
    assert scripted.expectations.gasCharges[..|values|] == values;
    assert scripted.expectations.gasCharges[|values|..] == [];
  }

  /** Registers each of `values` as an expected gas charge, in order. */
  function ExpectAllGas<T>(m: MockRuntime<T>, values: seq<int>): (r: MockRuntime<T>)
    ensures r.expectations.gasCharges == m.expectations.gasCharges + values
    ensures r == m.(expectations := m.expectations.(gasCharges := r.expectations.gasCharges))
    decreases |values|
  {
    if values == [] then m
    else
      var r := ExpectAllGas(ExpectGasCharge(m, values[0]), values[1..]);
      assert m.expectations.gasCharges + [values[0]] + values[1..] == m.expectations.gasCharges + values;
      r
  }

  // ---------------------------------------------------------------------
  // Sends

  /** One outgoing message, as the code under test issues it. */
  datatype Outgoing = Outgoing(to: Address, methodNum: MethodNum, params: Option<Bytes>, value: TokenAmount)

  /** Sends `msgs` one after the other, collecting the replies, stopping at
      the first panic. */
  function SendAll<T>(m: MockRuntime<T>, msgs: seq<Outgoing>): Outcome<seq<Result<Option<Bytes>>>, MockRuntime<T>>
    decreases |msgs|
  {
    if msgs == [] then Done([], m)
    else
      var msg := msgs[0];
      match Send(m, msg.to, msg.methodNum, msg.params, msg.value)
      case Panic(why) => Panic(why)
      case Done(reply, m1) =>
        match SendAll(m1, msgs[1..])
        case Panic(why) => Panic(why)
        case Done(replies, m2) => Done([reply] + replies, m2)
  }

  /** The value the sends carry in all. */
  function Total(msgs: seq<Outgoing>): int
    decreases |msgs|
  {
    if msgs == [] then 0 else msgs[0].value + Total(msgs[1..])
  }

  /** The reply a scripted message produces when the balance covers it. */
  function Reply(exp: ExpectedMessage): Result<Option<Bytes>> {
    if exp.exitCode == ExitOk then Ok(exp.sendReturn) else Fail(exp.exitCode)
  }

  function Replies(exps: seq<ExpectedMessage>): seq<Result<Option<Bytes>>>
    decreases |exps|
  {
    if exps == [] then [] else [Reply(exps[0])] + Replies(exps[1..])
  }

  /** Each message is the one scripted at the same position. */
  predicate FollowsScript(exps: seq<ExpectedMessage>, msgs: seq<Outgoing>) {
    |msgs| <= |exps| &&
    forall i :: 0 <= i < |msgs| ==> Matches(exps[i], msgs[i].to, msgs[i].methodNum, msgs[i].params, msgs[i].value)
  }

  /** When the code sends, in order, messages that match the head of the
      script and carry no negative value, and the balance covers them all,
      every send gets its scripted reply, the balance drops by their total,
      and exactly those expectations are consumed. */
  lemma {:induction false} SendsDrainQueue<T>(m: MockRuntime<T>, msgs: seq<Outgoing>)
    requires m.inCall && !m.inTransaction
    requires FollowsScript(m.expectations.sends, msgs)
    requires forall i :: 0 <= i < |msgs| ==> msgs[i].value >= 0
    requires Total(msgs) <= m.balance
    ensures var q := m.expectations.sends;
            SendAll(m, msgs) == Done(Replies(q[..|msgs|]), m.(balance := m.balance - Total(msgs), expectations := m.expectations.(sends := q[|msgs|..])))
    decreases |msgs|
  {
    var q := m.expectations.sends;
    if msgs != [] {
      var msg := msgs[0];
      assert Matches(q[0], msg.to, msg.methodNum, msg.params, msg.value);
      TotalNonNegative(msgs[1..]);
      var first := Send(m, msg.to, msg.methodNum, msg.params, msg.value);
      var m1 := first.state;
      assert first.value == Reply(q[0]) && m1.balance == m.balance - msg.value;
      assert m1.expectations.sends == q[1..];
      assert FollowsScript(q[1..], msgs[1..]) by {
        forall i | 0 <= i < |msgs[1..]|
          ensures Matches(q[1..][i], msgs[1..][i].to, msgs[1..][i].methodNum, msgs[1..][i].params, msgs[1..][i].value)
        {
          assert q[1..][i] == q[i + 1] && msgs[1..][i] == msgs[i + 1];
        }
      }
      SendsDrainQueue(m1, msgs[1..]);
      assert q[..|msgs|][1..] == q[1..][..|msgs| - 1];
      assert q[1..][|msgs| - 1..] == q[|msgs|..];
    }
  }

  lemma {:induction false} TotalNonNegative(msgs: seq<Outgoing>)
    requires forall i :: 0 <= i < |msgs| ==> msgs[i].value >= 0
    ensures Total(msgs) >= 0
    decreases |msgs|
  {
    if msgs != [] {
      assert forall i :: 0 <= i < |msgs[1..]| ==> msgs[1..][i] == msgs[i + 1];
      TotalNonNegative(msgs[1..]);
    }
  }

  /** However the sends go, a balance that starts non-negative stays so: an
      overdraft is refused, never carried out. */
  lemma {:induction false} BalanceNeverNegative<T>(m: MockRuntime<T>, msgs: seq<Outgoing>)
    requires m.balance >= 0
    ensures SendAll(m, msgs).Done? ==> SendAll(m, msgs).state.balance >= 0
    decreases |msgs|
  {
    if msgs != [] {
      var msg := msgs[0];
      var first := Send(m, msg.to, msg.methodNum, msg.params, msg.value);
      if first.Done? {
        BalanceNeverNegative(first.state, msgs[1..]);
      }
    }
  }

  /** A send the balance does not cover fails with
      `SYS_SENDER_STATE_INVALID` and leaves the balance alone, but its
      expectation is gone: sending the same message again panics. */
  lemma InsufficientBalanceConsumesExpectation<T>(m: MockRuntime<T>, exp: ExpectedMessage)
    requires m.inCall && !m.inTransaction
    requires m.expectations.sends == [exp]
    requires exp.value > m.balance
    ensures var r := Send(m, exp.to, exp.methodNum, exp.params, exp.value);
            && r == Done(Fail(SysSenderStateInvalid), m.(expectations := m.expectations.(sends := [])))
            && Send(r.state, exp.to, exp.methodNum, exp.params, exp.value).Panic?
  {
    assert m.expectations.sends[1..] == [];
  }

  // ---------------------------------------------------------------------
  // Scenarios on a sample runtime

  /** A runtime outside any call, with balance 5, no state and nothing
      expected. */
  function SampleMock(): MockRuntime<int> {
    MockRuntime(Id(100), MakeBuiltin("fil/test/account"), map[], map[], None, None, Store(map[]), 5, false, false, NoExpectations)
  }

  /** A method that constructs its state and then fails. */
  function CreateThenFail(m: MockRuntime<int>, methodNum: MethodNum, params: Option<Bytes>): Outcome<Result<Option<Bytes>>, MockRuntime<int>> {
    var created := Create(m, 0, FvmProperties.ZeroHash);
    Done(Fail(UsrIllegalArgument), created.state)
  }

  /** A failed invocation has its state root put back, although the block
      it wrote stays in the store. */
  lemma CallRollsBackState()
    ensures var r := Call(SampleMock(), 2, None, CreateThenFail);
            && r.Done?
            && r.value == Fail(UsrIllegalArgument)
            && r.state.state.None?
            && Get(r.state.store, Blake2b(0)) == Some(0)
            && State(r.state).Panic?
  {
    var inside := SampleMock().(inCall := true);
    assert Create(inside, 0, FvmProperties.ZeroHash).state.store == Put(inside.store, 0, FvmProperties.ZeroHash);
  }

  /** A method that sends 3 to actor 7 and then fails. */
  function SendThenFail(m: MockRuntime<int>, methodNum: MethodNum, params: Option<Bytes>): Outcome<Result<Option<Bytes>>, MockRuntime<int>> {
    match Send(m, Id(7), 0, None, 3)
    case Panic(why) => Panic(why)
    case Done(_, m1) => Done(Fail(UsrIllegalArgument), m1)
  }

  /** A failed invocation keeps the value it sent and the expectations it
      consumed: only the state root is rolled back, so the test's script is
      met although the call failed. */
  lemma CallKeepsFailedInvocationDebits()
    ensures var m := ExpectSend(SampleMock(), ExpectedMessage(Id(7), 0, None, 3, None, ExitOk));
            var r := Call(m, 2, None, SendThenFail);
            && r.Done?
            && r.value == Fail(UsrIllegalArgument)
            && r.state.balance == 2
            && Verify(r.state).Done?
  {
    var m := ExpectSend(SampleMock(), ExpectedMessage(Id(7), 0, None, 3, None, ExitOk));
    var inside := m.(inCall := true);
    var sent := Send(inside, Id(7), 0, None, 3);
    assert sent.Done? && sent.state.balance == 2 && sent.state.expectations == NoExpectations;
  }

  // ---------------------------------------------------------------------
  // Transactions

  /** The closure leaves the state root and the store as it found them. */
  ghost predicate KeepsState<T(!new), R>(f: Mock.Closure<T, R>) {
    forall st, m :: f(st, m).Done? ==> f(st, m).state.1.state == m.state && f(st, m).state.1.store == m.store
  }

  /** For a closure that does not itself write the state, a mock transaction
      is atomic: a failure leaves root and store as they were, a success
      moves the root to the final state's block. */
  lemma MockTransactionAtomic<T(!new), R>(m: MockRuntime<T>, f: Mock.Closure<T, R>, hash: T -> nat)
    requires KeepsState(f)
    ensures var r := Mock.Transaction(m, f, hash);
            r.Done? && !m.inTransaction ==>
              && (r.value.Err? ==> r.state.state == m.state && r.state.store == m.store)
              && (r.value.Ok? ==> State(r.state).Done? && State(r.state).value == Ok(f(State(m).value.value, m.(inTransaction := true)).state.0))
  {
    var r := Mock.Transaction(m, f, hash);
    if r.Done? && !m.inTransaction {
      var out := f(State(m).value.value, m.(inTransaction := true));
      assert out.state.1.state == m.state;
    }
  }

  /** Inside a mock transaction every side effect and every nested
      transaction is refused with an assertion failure and changes nothing,
      so the flag stays raised until the outer transaction ends. */
  lemma MockTransactionRejectsNesting<T, R>(m: MockRuntime<T>, g: Mock.Closure<T, R>, hash: T -> nat, to: Address, methodNum: MethodNum,
                                            params: Option<Bytes>, value: TokenAmount, code: Cid, actor: ActorId, burn: bool)
    requires m.inCall && m.inTransaction
    ensures Mock.Transaction(m, g, hash) == Done(Fail(UsrAssertionFailed), m)
    ensures Mock.Send(m, to, methodNum, params, value) == Done(Fail(UsrAssertionFailed), m)
    ensures Mock.CreateActor(m, code, actor) == Done(Fail(UsrAssertionFailed), m)
    ensures Mock.DeleteActor(m, burn) == Done(Fail(UsrAssertionFailed), m)
  {
  }

  /** State created on a fresh runtime reads back as the object. */
  lemma CreateThenStateRoundTrip<T>(m: MockRuntime<T>, obj: T, hash: T -> nat)
    requires m.state.None?
    ensures var c := Create(m, obj, hash);
            c.value.Ok? && State(c.state) == Done(Ok(obj), c.state)
  {
  }

  // ---------------------------------------------------------------------
  // Expectations

  /** `verify` after `reset` passes, whatever was left unmet before. */
  lemma VerifyAfterReset<T>(m: MockRuntime<T>)
    ensures Verify(Reset(m)) == Done((), Reset(m))
    ensures Reset(Reset(m)) == Reset(m)
  {
  }

  /** `verify` never looks at the not-type expectation: one registered and
      never consumed still passes. */
  lemma VerifyIgnoresNotType<T>(m: MockRuntime<T>, codes: seq<Cid>)
    ensures Verify(ExpectValidateCallerNotType(Reset(m), codes)).Done?
  {
  }

  /** A registered caller-address expectation the method never consumes is
      reported by `verify`; one consumed by a matching validation is not. */
  lemma UnconsumedValidateCallerFailsVerify<T>(m: MockRuntime<T>, addrs: seq<Address>)
    requires addrs != []
    ensures var e := ExpectValidateCallerAddr(Reset(m), addrs);
            && e.Done?
            && Verify(e.state).Panic?
            && (m.inCall ==> ValidateIs(e.state, addrs).Done? && Verify(ValidateIs(e.state, addrs).state).Done?)
  {
  }

  /** A registered send consumed by a matching, covered send leaves nothing
      for `verify` to report. */
  lemma ScriptedSendVerifies<T>(m: MockRuntime<T>, msg: ExpectedMessage)
    requires m.inCall && !m.inTransaction
    requires 0 <= msg.value <= m.balance
    ensures var s := ExpectSend(Reset(m), msg);
            var r := Send(s, msg.to, msg.methodNum, msg.params, msg.value);
            && r.Done?
            && r.value == Reply(msg)
            && Verify(r.state).Done?
  {
  }

  /** Signature checks are one-shot: a scripted check answers once with its
      verdict, and the same check again panics. */
  lemma SignatureCheckConsumed<T>(m: MockRuntime<T>, exp: ExpectedVerifySig)
    ensures var s := ExpectVerifySignature(Reset(m), exp);
            var r := VerifySignature(s, exp.sig, exp.signer, exp.plaintext);
            && r == Done(exp.valid, Reset(m))
            && VerifySignature(r.state, exp.sig, exp.signer, exp.plaintext).Panic?
  {
    var s := ExpectVerifySignature(Reset(m), exp);
    assert s.expectations.verifySigs == [exp];
    assert s.expectations.verifySigs[1..] == [];
  }

  /** Actor creation and deletion are one-shot as well. */
  lemma LifecycleExpectationsConsumed<T>(m: MockRuntime<T>, code: Cid, actor: ActorId, burn: bool)
    requires m.inCall && !m.inTransaction
    ensures var c := CreateActor(ExpectCreateActorCall(Reset(m), code, actor), code, actor);
            && c == Done(Ok(()), Reset(m))
            && CreateActor(c.state, code, actor).Panic?
    ensures var d := DeleteActor(ExpectDeleteActor(Reset(m), burn), burn);
            && d == Done(Ok(()), Reset(m))
            && DeleteActor(d.state, burn).Panic?
  {
  }

  /** The prepared actor address is handed out once. */
  lemma NewActorAddressOnce<T>(m: MockRuntime<T>, a: Address)
    requires m.inCall
    ensures var r := NewActorAddress(m.(newActorAddr := Some(a)));
            && r.value == Ok(a)
            && NewActorAddress(r.state).Panic?
  {
  }

  // ---------------------------------------------------------------------
  // Addresses and types

  /** Every registered ID address is an ID address. */
  predicate IdTargets(idAddresses: map<Address, Address>) {
    forall a :: a in idAddresses ==> idAddresses[a].Id?
  }

  /** Registering addresses keeps every target an ID address, so resolution
      only ever yields ID addresses, and a registered non-ID source resolves
      to its target. */
  lemma AddIdAddressKeepsIdTargets<T>(m: MockRuntime<T>, source: Address, target: Address, probe: Address)
    requires IdTargets(m.idAddresses)
    ensures var r := AddIdAddress(m, source, target);
            r.Done? ==>
              && IdTargets(r.state.idAddresses)
              && (GetIdAddress(r.state, probe).Some? ==> GetIdAddress(r.state, probe).value.Id?)
              && (!source.Id? ==> GetIdAddress(r.state, source) == Some(target))
  {
  }

  /** `get_code_cid_for_type` and `resolve_builtin_actor_type` are inverse
      to each other. */
  lemma CodeCidRoundTrip<T>(m: MockRuntime<T>, t: ActorType, code: Cid)
    requires m.inCall
    ensures ResolveBuiltinActorType(m, GetCodeCidForType(m, t).value).value == Some(t)
    ensures ResolveBuiltinActorType(m, code).value == Some(t) ==> GetCodeCidForType(m, t).value == code
  {
    RegistryBidirectional(code, t);
  }

  /** The mock's type validation, read through the registry: it succeeds
      exactly when the caller's code CID is a builtin code whose type is
      among those allowed. */
  lemma {:induction false} MockValidateTypeByResolvedType<T>(m: MockRuntime<T>, types: seq<ActorType>)
    requires ValidateType(m, types).Done?
    ensures ValidateType(m, types).value.Ok? <==>
              ResolveBuiltin(m.callerType).Some? && ResolveBuiltin(m.callerType).value in types
  {
    var codes := CodesOf(types);
    if m.callerType in codes {
      var i :| 0 <= i < |codes| && codes[i] == m.callerType;
      assert types[i] in types;
    }
    if ResolveBuiltin(m.callerType).Some? && ResolveBuiltin(m.callerType).value in types {
      var i :| 0 <= i < |types| && types[i] == ResolveBuiltin(m.callerType).value;
      RegistryBidirectional(m.callerType, types[i]);
      RegistryBidirectional(codes[i], types[i]);
      assert codes[i] == m.callerType;
    }
  }

  /** The mock's not-type validation never consults the caller: two
      runtimes that differ only in their caller get the same verdict. */
  lemma NotTypeIgnoresCaller<T>(m: MockRuntime<T>, caller: Address, callerType: Cid, types: seq<ActorType>)
    ensures ValidateNotType(m.(caller := caller, callerType := callerType), types).Done? <==> ValidateNotType(m, types).Done?
    ensures ValidateNotType(m, types).Done? ==>
              ValidateNotType(m.(caller := caller, callerType := callerType), types).value == ValidateNotType(m, types).value
  {
  }

  /** `set_caller` records the caller's code, which `get_actor_code_cid`
      then reports for an ID caller. */
  lemma SetCallerRecordsCode<T>(m: MockRuntime<T>, code: Cid, id: ActorId)
    requires m.inCall
    ensures GetActorCodeCid(SetCaller(m, code, Id(id)), id).value == Some(code)
  {
  }
}
