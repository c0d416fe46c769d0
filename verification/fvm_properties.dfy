/** Properties of the production adapter that relate several calls. */
module FvmProperties {
  import opened Types
  import opened ExitCodes
  import opened Blockstore
  import opened Fvm

  // ---------------------------------------------------------------------
  // Exactly-once caller validation

  /** Over any sequence of validation calls in one invocation at most one
      succeeds, none does once the caller is validated, and the flag ends up
      raised exactly when one succeeded or it was raised already. */
  lemma {:induction false} ValidationSucceedsAtMostOnce<T>(rt: FvmRuntime<T>, vs: seq<Validation>)
    ensures ValidateAll(rt, vs).Done? ==>
              var r := ValidateAll(rt, vs);
              && Successes(r.value) <= 1
              && (rt.callerValidated ==> Successes(r.value) == 0)
              && (r.state.callerValidated <==> rt.callerValidated || Successes(r.value) == 1)
              && r.state == rt.(callerValidated := r.state.callerValidated)
    decreases |vs|
  {
    if |vs| > 0 {
      var first := Validate(rt, vs[0]);
      if first.Done? {
        ValidationSucceedsAtMostOnce(first.state, vs[1..]);
        var rest := ValidateAll(first.state, vs[1..]);
        if rest.Done? {
          assert ValidateAll(rt, vs).value == [first.value.Ok?] + rest.value;
          assert Successes([first.value.Ok?] + rest.value) == (if first.value.Ok? then 1 else 0) + Successes(rest.value) by {
            assert ([first.value.Ok?] + rest.value)[1..] == rest.value;
          }
        }
      }
    }
  }

  /** After one successful validation, every further validation fails with
      an assertion failure and the caller stays validated. */
  lemma SecondValidationFails<T>(rt: FvmRuntime<T>, first: Validation, second: Validation)
    requires Validate(rt, first).Done? && Validate(rt, first).value.Ok?
    ensures var rt1 := Validate(rt, first).state;
            && rt1.callerValidated
            && Validate(rt1, second).Done?
            && Validate(rt1, second).value == Fail(UsrAssertionFailed)
            && Validate(rt1, second).state == rt1
  {
  }

  // ---------------------------------------------------------------------
  // Transactions

  /** The closure leaves the state root and the store as it found them. */
  ghost predicate KeepsRoot<T(!new), R>(f: Closure<T, R>) {
    forall st, rt :: f(st, rt).Done? ==>
      f(st, rt).state.1.host.root == rt.host.root && f(st, rt).state.1.host.store == rt.host.store
  }

  /** For a closure that does not itself write the root, a transaction is
      atomic: a failed closure leaves the root and store untouched, and a
      successful one moves the root to the CID of the final state, whose
      block is then stored. */
  lemma TransactionAtomic<T(!new), R>(rt: FvmRuntime<T>, f: Closure<T, R>, hash: T -> nat)
    requires KeepsRoot(f)
    ensures var r := Transaction(rt, f, hash);
            r.Done? ==>
              && !r.state.inTransaction
              && (r.value.Err? ==> r.state.host.root == rt.host.root && r.state.host.store == rt.host.store)
              && (r.value.Ok? ==>
                    && r.state.host.root.Blake2b?
                    && r.state.host.root == CidOf(f(Current(rt), rt.(inTransaction := true)).state.0, hash)
                    && Get(r.state.host.store, r.state.host.root) == Some(f(Current(rt), rt.(inTransaction := true)).state.0))
  {
    var r := Transaction(rt, f, hash);
    if r.Done? {
      var out := f(Current(rt), rt.(inTransaction := true));
      assert out.state.1.host.root == rt.host.root;
    }
  }

  // ---------------------------------------------------------------------
  // Nested transactions (see "Findings" in README.md)

  /** A hash under which every integer state has digest 0; the scenarios
      here and in `MockProperties` use it. */
  function ZeroHash(n: int): nat {
    0
  }

  /** A host whose root holds the state 0. */
  function SampleHost(): Host<int> {
    Host(1, Blake2b(0), Store(map[Blake2b(0) := 0]), map[], map[], V16, [])
  }

  /** A transaction body that changes nothing and succeeds. */
  function Noop(st: int, rt: FvmRuntime<int>): Outcome<Result<()>, (int, FvmRuntime<int>)> {
    Done(Ok(()), (st, rt))
  }

  /** A transaction body that first runs a nested transaction through `open`
      and then sends to actor 7. */
  function NestThenSend(open: (FvmRuntime<int>, Closure<int, ()>, int -> nat) -> Outcome<Result<()>, FvmRuntime<int>>)
    : Closure<int, Bytes>
  {
    (st: int, rt: FvmRuntime<int>) =>
      match open(rt, Noop, ZeroHash)
      case Panic(why) => Panic(why)
      case Done(Err(e), rt1) => Done(Err(e), (st, rt1))
      case Done(Ok(_), rt1) =>
        var sent := Send(rt1, Id(7), 0, [], 0, HostOk(Receipt(ExitOk, [])));
        Done(sent.value, (st, sent.state))
  }

  /** As written, a transaction run inside another returns with the
      in-transaction flag down although the enclosing closure is still
      running. */
  lemma TransactionLowersEnclosingGuard()
    ensures var rt := FvmRuntime(SampleHost(), true, false);
            && rt.inTransaction
            && Transaction(rt, Noop, ZeroHash).Done?
            && !Transaction(rt, Noop, ZeroHash).state.inTransaction
  {
  }

  /** Consequence: a send issued inside a transaction, after a nested
      transaction, reaches the host and succeeds. */
  lemma NestedTransactionReopensSend()
    ensures var r := Transaction(NewRuntime(SampleHost()), NestThenSend(Transaction), ZeroHash);
            && r.Done?
            && r.value.Ok?
            && r.state.host.calls == [SendCall(Id(7), 0, [], 0)]
  {
    var rt := NewRuntime(SampleHost());
    var during := rt.(inTransaction := true);
    assert Get(during.host.store, during.host.root) == Some(0);
    var inner := Transaction(during, Noop, ZeroHash);
    assert inner.Done? && inner.value.Ok? && !inner.state.inTransaction && inner.state.host.calls == [];
    var sent := Send(inner.state, Id(7), 0, [], 0, HostOk(Receipt(ExitOk, [])));
    assert sent.value == Ok([]) && sent.state.host.calls == [SendCall(Id(7), 0, [], 0)];
    assert NestThenSend(Transaction)(0, during) == Done(sent.value, (0, sent.state));
  }

  /** With the nesting check, the same body's nested transaction is refused,
      the flag stays up and no send reaches the host. */
  lemma GuardedNestingKeepsSendClosed()
    ensures var r := GuardedTransaction(NewRuntime(SampleHost()), NestThenSend(GuardedTransaction), ZeroHash);
            && r.Done?
            && r.value == Fail(UsrAssertionFailed)
            && r.state.host.calls == []
            && r.state.host.root == Blake2b(0)
  {
    var rt := NewRuntime(SampleHost()).(inTransaction := true);
    assert GuardedTransaction(rt, Noop, ZeroHash) == Done(Fail(UsrAssertionFailed), rt);
  }

  // ---------------------------------------------------------------------
  // Exit codes

  /** Normalising a code twice changes nothing more: every normalised code
      is a user code, which passes through. A callee that itself relays a
      normalised failure is therefore seen with the same code. */
  lemma NormalizeExitCodeIdempotent(code: ExitCode)
    ensures NormalizeExitCode(NormalizeExitCode(code)) == NormalizeExitCode(code)
    ensures !IsSystemError(code) <==> NormalizeExitCode(code) == code
  {
  }

  /** A callee that fails with the error its own failed send gave it is
      seen by its caller with that very code: surfacing a failure through
      two sends changes it no more than through one. */
  lemma RelayedSendFailureKeepsCode<T>(inner: FvmRuntime<T>, outer: FvmRuntime<T>, to: Address, methodNum: MethodNum,
                                       params: Bytes, value: TokenAmount, code: ExitCode)
    requires !inner.inTransaction && !outer.inTransaction && !IsSuccess(code)
    ensures var seen := Send(inner, to, methodNum, params, value, HostOk(Receipt(code, []))).value;
            && seen.Err?
            && Send(outer, to, methodNum, params, value, HostOk(Receipt(seen.error.code, []))).value == seen
  {
    NormalizeExitCodeIdempotent(code);
  }

  // ---------------------------------------------------------------------
  // Randomness across network versions

  /** The same host reply read before and from network version 16: a
      success is the same randomness, every failure changes from a
      system-tier code to a user-tier one. */
  lemma RandomnessFailuresChangeTierAtV16<T>(before: FvmRuntime<T>, after: FvmRuntime<T>, reply: HostResult<Bytes>)
    requires before.host.networkVersion < V16 <= after.host.networkVersion
    ensures GetRandomness(before, reply) == GetRandomness(after, reply) <==> reply.HostOk?
    ensures reply.HostErr? ==>
              && IsSystemError(GetRandomness(before, reply).error.code)
              && !IsSystemError(GetRandomness(after, reply).error.code)
  {
  }

  // ---------------------------------------------------------------------
  // Trampoline

  /** The dispatch never raises the caller-validated flag. */
  ghost predicate NeverValidates<T(!new)>(invoke: Invoke<T>) {
    forall rt, m, p :: invoke(rt, m, p).Done? ==> invoke(rt, m, p).state.callerValidated == rt.callerValidated
  }

  /** An actor that never validates its caller cannot complete an
      invocation: every run ends in an abort. */
  lemma UnvalidatedInvocationAborts<T(!new)>(invoke: Invoke<T>, host: Host<T>, methodNum: MethodNum, params: Option<Bytes>)
    requires NeverValidates(invoke)
    ensures Trampoline(invoke, host, methodNum, params).Aborted?
  {
    if params.Some? {
      var out := invoke(NewRuntime(host), methodNum, params.value);
      assert out.Done? ==> !out.state.callerValidated;
    }
  }
}
