# Actor runtime: production adapter and test double, in Dafny

This project models the runtime an actor method runs against, in its two
variants:

- `FvmRuntime` (`runtime/src/runtime/fvm.rs`), the production adapter. It
  keeps two flags:
  - `caller_validated` enforces that a method validates its caller exactly
    once;
  - `in_transaction` forbids side effects while a state transaction is open.

  It also reads and writes the actor's state root over a content-addressed
  store, turns host replies and callee exit codes into actor errors, and
  runs the trampoline that decides how an invocation ends.
- `MockRuntime` (`runtime/src/test_utils.rs`), the deterministic test
  double. It has an optional state root over an in-memory store, a balance,
  the `in_call` and `in_transaction` flags, and an `Expectations` record.
  That record holds FIFO queues for sends, signature checks and gas charges,
  and single slots for each validation kind and for actor creation and
  deletion. The double checks every runtime call against these
  expectations, and `call` brackets an invocation.

Every operation is a pure function from a runtime record to
`Outcome<R, S>`. That is either `Done(value, state')` or `Panic(reason)`.
A panic is a Rust `panic!`, `assert!` or `expect`: in a test it fails the
test; in production the trampoline's panic hook aborts with
`USR_ASSERTION_FAILED`. Actor errors are `Err(ActorError(code))` inside
`Done`, so a panic is never confused with an error.

The host is an input. Its answers live in a `Host` record (caller, state
root, store, code and builtin-type lookups, network version). The replies of
fallible syscalls are parameters. The effectful syscalls (send, create
actor, self-destruct) are appended to `Host.calls`, so "the host was not
called" is a provable statement.

CIDs are abstract:
- `Blake2b(digest)` is what a store write returns. The digest comes from a
  hash function that is a parameter.
- `Identity(name)` is what `make_builtin` builds.
- `EmptyArray` is the empty-array CID.

Files:

| file | contents |
|---|---|
| `exit_codes.dfy` | the exit codes used, the system/user tiers |
| `types.dfy` | addresses, actor types, `ActorError`, `Result`, `Outcome`, host error numbers |
| `blockstore.dfy` | CIDs and the content-addressed store |
| `fvm.dfy` | the production adapter |
| `fvm_properties.dfy` | multi-call properties of the adapter, the nested-transaction finding |
| `registry.dfy` | the test builtin-actor registry (`ACTOR_TYPES`) |
| `mock.dfy` | the test double |
| `mock_properties.dfy` | queue discipline, balance, rollback and expectation properties of the double |
| `agreement.dfy` | where the double and the adapter agree and where they differ |

## Model

| member | source | states |
|---|---|---|
| `Blockstore.CidOf` | runtime/src/test_utils.rs:488-490 | a stored object's CID is a Blake2b CID, never the empty-array CID |
| `Blockstore.Put` | runtime/src/test_utils.rs:488-495 | a written object reads back under its CID; every other block is unchanged |
| `Registry.MakeBuiltinInjective` | runtime/src/test_utils.rs:80-85 | distinct names give distinct builtin codes, and no builtin code is ever a state root: neither the empty-array CID nor the CID of a written block |
| `Registry.Lookup` | runtime/src/test_utils.rs:810-813 | the code→type lookup finds a type iff some entry has that code, and what it finds is an entry of the table |
| `Registry.ReverseLookup` | runtime/src/test_utils.rs:815-822 | the type→code search finds a code iff some entry has that type, and what it finds is an entry of the table |
| `Registry.ResolveBuiltin` | runtime/src/test_utils.rs:812 | a code resolves to a type only if `ACTOR_TYPES` pairs them; an unregistered code resolves to nothing |
| `Registry.FindByType` | runtime/src/test_utils.rs:583-589 | the search always finds a code for the type, and `ACTOR_TYPES` pairs the two, so the `unwrap` cannot fail |
| `Registry.LookupsInverse` | runtime/src/test_utils.rs:50-63 | in a table with no repeated code or type, code→type and type→code lookups are inverse |
| `Registry.RegistryBidirectional` | runtime/src/test_utils.rs:50-63 | `ACTOR_TYPES` resolves a code to a type iff the type is found under that code, and every builtin type is registered |
| `Registry.EveryTypeRegistered` | runtime/src/test_utils.rs:815-822 | the type-to-code search never comes back empty, so its unwrap cannot fail |
| `Fvm.NewRuntime` | runtime/src/runtime/fvm.rs:52-61 | a fresh runtime talks to the given host, is outside any transaction, and its first validation is not refused as a repeat |
| `Fvm.AssertNotValidated` | runtime/src/runtime/fvm.rs:64-72 | fails with assertion_failed exactly when the caller was already validated |
| `Fvm.ValidateAcceptAny` | runtime/src/runtime/fvm.rs:113-117 | succeeds iff not yet validated; the flag is raised either way; nothing else changes |
| `Fvm.ValidateIs` | runtime/src/runtime/fvm.rs:119-133 | succeeds and raises the flag iff the caller is in the list; otherwise forbidden with the flag down; once validated, assertion_failed |
| `Fvm.ValidateType` | runtime/src/runtime/fvm.rs:135-153 | panics iff the caller has no code; succeeds and raises the flag iff the caller's resolved builtin type is allowed; otherwise forbidden |
| `FvmProperties.ValidationSucceedsAtMostOnce` | runtime/src/runtime/fvm.rs:64-153 | over any sequence of validations at most one succeeds, none after validation, and the flag ends raised iff one did |
| `FvmProperties.SecondValidationFails` | runtime/src/runtime/fvm.rs:64-72 | after a successful validation, any further one fails with assertion_failed and the flag stays up |
| `Fvm.Create` | runtime/src/runtime/fvm.rs:220-231 | illegal_state with nothing changed unless the root is the empty-array CID; otherwise the root becomes the object's CID, the store is the old store with the object written, nothing else changes, and the object is readable under the new root |
| `Fvm.State` | runtime/src/runtime/fvm.rs:233-239 | panics iff the root has no block; otherwise returns that block and changes nothing |
| `Fvm.Transaction` | runtime/src/runtime/fvm.rs:241-265 | with a readable state it completes iff the closure does; the flag is down on return; an error is propagated with the closure's runtime; on success the closure's value is returned, the final state is written into the closure's store and the root moves to its CID, nothing else changing |
| `FvmProperties.TransactionAtomic` | runtime/src/runtime/fvm.rs:241-265 | for a closure that does not write the root itself, failure leaves root and store as they were and success stores the final state |
| `FvmProperties.TransactionLowersEnclosingGuard` | runtime/src/runtime/fvm.rs:241-265 | a transaction started while one is open returns with the flag down |
| `FvmProperties.NestedTransactionReopensSend` | runtime/src/runtime/fvm.rs:241-280 | after a nested transaction, a send inside the outer transaction reaches the host and succeeds |
| `Fvm.GuardedTransaction` | runtime/src/runtime/fvm.rs:241-265 | a transaction opened inside another fails with assertion_failed and changes nothing; otherwise it is `Fvm.Transaction`; the flag is unchanged across it |
| `FvmProperties.GuardedNestingKeepsSendClosed` | runtime/src/runtime/fvm.rs:241-280 | with the nesting check, the same body is refused, no send reaches the host and the root stays |
| `Fvm.NormalizeExitCode` | runtime/src/runtime/fvm.rs:282-307 | a callee's failure code is surfaced as a user code: missing-return, illegal-instruction and illegal-exit-code become unspecified, other system codes assertion_failed, user codes unchanged |
| `FvmProperties.NormalizeExitCodeIdempotent` | runtime/src/runtime/fvm.rs:282-307 | normalising is idempotent, and leaves a code unchanged iff it is a user code |
| `FvmProperties.RelayedSendFailureKeepsCode` | runtime/src/runtime/fvm.rs:282-307 | a callee that fails with the code its own failed send gave it is seen by its caller with that same code |
| `Fvm.SendSyscallError` | runtime/src/runtime/fvm.rs:309-332 | a send syscall error is unspecified iff not-found, insufficient_funds iff insufficient-funds, assertion_failed otherwise; never system-tier |
| `Fvm.Send` | runtime/src/runtime/fvm.rs:271-334 | in a transaction: assertion_failed, no host call; otherwise exactly one send is issued; Ok iff the host answered with a success receipt (returning its data); a failure receipt gives the callee's code normalised; a syscall error gives its mapped error; an error is never system-tier |
| `Fvm.CreateActor` | runtime/src/runtime/fvm.rs:340-352 | in a transaction: assertion_failed, no host call; otherwise issued once, Ok iff the host succeeded, illegal_argument iff the host said so, else assertion_failed |
| `Fvm.DeleteActor` | runtime/src/runtime/fvm.rs:354-361 | in a transaction: assertion_failed, no host call; otherwise the self-destruct is issued and its outcome returned |
| `Fvm.GetRandomness` | runtime/src/runtime/fvm.rs:167-218 | host randomness is returned as is; a failure before network version 16 is SYS_ILLEGAL_INSTRUCTION; from 16 on it is illegal_argument when the lookback limit was exceeded and assertion_failed otherwise |
| `FvmProperties.RandomnessFailuresChangeTierAtV16` | runtime/src/runtime/fvm.rs:167-218 | the same reply before and from version 16 gives the same result iff it is a success; every failure moves from a system code to a user code |
| `Fvm.Trampoline` | runtime/src/runtime/fvm.rs:427-459 | a bad parameter block or a panic aborts with assertion_failed, a method error aborts with its code, the invocation completes iff the method succeeded and validated its caller, and empty return data yields the no-data handle |
| `FvmProperties.UnvalidatedInvocationAborts` | runtime/src/runtime/fvm.rs:446-451 | an actor that never validates its caller can never complete an invocation |
| `Mock.Verify` | runtime/src/test_utils.rs:160-200 | passes iff every expectation except the not-type one is consumed, and changes nothing |
| `Mock.Reset` | runtime/src/test_utils.rs:156-158 | after a reset `verify` passes; only the expectations change |
| `Mock.ExpectSend` | runtime/src/test_utils.rs:423-444 | appends one message at the back of the send queue; nothing else changes |
| `Mock.ExpectGasCharge` | runtime/src/test_utils.rs:472-479 | appends one charge at the back of the gas queue; nothing else changes |
| `Mock.ExpectVerifySignature` | runtime/src/test_utils.rs:389-395 | appends one check at the back of the signature queue; nothing else changes |
| `Mock.ExpectValidateCallerAddr` | runtime/src/test_utils.rs:383-387 | panics iff the list is empty; otherwise the list becomes the expected one |
| `Mock.ExpectValidateCallerType` | runtime/src/test_utils.rs:397-401 | panics iff the list is empty; otherwise `verify` fails until the type validation is made, and inside a call a validation whose types map to exactly this list completes and leaves the runtime as before the expectation |
| `Mock.ExpectValidateCallerNotType` | runtime/src/test_utils.rs:403-411 | any list is accepted and `verify` is unaffected by it; inside a call, a check of one type then succeeds iff that type's code is in the list, and consumes it |
| `Mock.ExpectValidateCallerAny` | runtime/src/test_utils.rs:413-416 | `verify` fails until the accept-any validation is made; inside a call that validation then succeeds and leaves the runtime as before the expectation |
| `Mock.ExpectCreateActorCall` | runtime/src/test_utils.rs:446-450 | `verify` fails until that creation happens; inside a call, outside a transaction, exactly that creation succeeds and consumes it, and any other panics |
| `Mock.ExpectDeleteActor` | runtime/src/test_utils.rs:418-421 | `verify` fails until the deletion happens; inside a call, outside a transaction, the deletion with that burn flag succeeds and consumes it, and the other flag panics |
| `Mock.SetCaller` | runtime/src/test_utils.rs:316-320 | sets the caller and its code; the code map gains exactly the caller's address, mapped to that code, and every other address keeps its code |
| `Mock.ValidateAcceptAny` | runtime/src/test_utils.rs:526-534 | completes iff inside a call with accept-any expected, and consumes that expectation |
| `Mock.ValidateIs` | runtime/src/test_utils.rs:536-568 | completes iff inside a call with exactly this list expected; Ok iff the caller is listed, forbidden otherwise; the expectation is consumed in both cases |
| `Mock.CodeOf` | runtime/src/test_utils.rs:583-589 | the code found for a type resolves back to that type |
| `Mock.CodesOf` | runtime/src/test_utils.rs:590 | the types mapped to codes position by position, each resolving back to its type |
| `Mock.ValidateType` | runtime/src/test_utils.rs:570-614 | completes iff inside a call with exactly these codes expected; Ok iff the caller's code is among them, forbidden otherwise; consumed in both cases |
| `Mock.ValidateNotType` | runtime/src/test_utils.rs:616-659 | completes iff inside a call with a not-type list expected; Ok iff every given type's code is in that list; consumed in both cases |
| `Mock.GetIdAddress` | runtime/src/test_utils.rs:326-331 | an ID address is its own ID address; another address resolves iff registered, to its registered target |
| `Mock.ResolveAddress` | runtime/src/test_utils.rs:666-672 | panics iff outside a call; otherwise resolves as `get_id_address` and changes nothing |
| `Mock.GetActorCodeCid` | runtime/src/test_utils.rs:674-677 | panics iff outside a call; otherwise the code recorded for the ID address, if any |
| `Mock.AddIdAddress` | runtime/src/test_utils.rs:333-340 | panics iff the target is not an ID address; otherwise only that mapping is set |
| `Mock.ResolveBuiltinActorType` | runtime/src/test_utils.rs:810-813 | panics iff outside a call; otherwise the registry's type for the code |
| `Mock.GetCodeCidForType` | runtime/src/test_utils.rs:815-822 | panics iff outside a call; otherwise a code that resolves back to the given type |
| `Mock.Create` | runtime/src/test_utils.rs:679-685 | illegal_state with nothing changed once state exists; otherwise the root becomes the object's CID, the store is the old store with the object written, nothing else changes, and the object is readable |
| `Mock.State` | runtime/src/test_utils.rs:687-689 | panics iff there is no state root or no block behind it; otherwise returns that block |
| `Mock.Transaction` | runtime/src/test_utils.rs:691-707 | nested: assertion_failed with nothing changed; otherwise, with a readable state, it completes iff the closure does; the flag is down on return; an error keeps the closure's runtime; success writes the final state into the closure's store and moves the root to its CID |
| `Mock.Send` | runtime/src/test_utils.rs:713-763 | outside a call it panics; in a transaction it returns assertion_failed with nothing changed; otherwise it completes iff the queue head matches and pops it; an overdraft gives SYS_SENDER_STATE_INVALID with the balance kept, else the value is debited and the scripted outcome returned; a non-negative balance stays so |
| `Mock.NewActorAddress` | runtime/src/test_utils.rs:765-773 | completes iff inside a call with an address prepared, returns it and clears it |
| `Mock.CreateActor` | runtime/src/test_utils.rs:775-789 | in a transaction: assertion_failed, nothing changed; otherwise completes iff exactly this creation is expected, and consumes it |
| `Mock.DeleteActor` | runtime/src/test_utils.rs:791-808 | in a transaction: assertion_failed, nothing changed; otherwise completes iff exactly this flag is expected, and consumes it |
| `Mock.ChargeGas` | runtime/src/test_utils.rs:828-839 | completes iff the charge equals the head of the gas queue, and pops it |
| `Mock.VerifySignature` | runtime/src/test_utils.rs:847-890 | completes iff signature, signer and plaintext equal the head of the queue; pops it and gives its scripted verdict |
| `Mock.Call` | runtime/src/test_utils.rs:342-356 | panics iff the method panics; `in_call` is up during the method and down after; a failed method gets its state root put back, while every other change it made stays |
| `MockProperties.GasChargesFifo` | runtime/src/test_utils.rs:828-839 | a run of charges completes iff it is a prefix of the expected queue, and leaves exactly the rest |
| `MockProperties.ScriptedGasChargesMet` | runtime/src/test_utils.rs:472-479 | charging exactly the registered values, in order, empties the queue and restores the runtime |
| `MockProperties.SendsDrainQueue` | runtime/src/test_utils.rs:713-763 | sends matching the script, covered by the balance, get their scripted replies in order; the balance drops by their total; exactly those expectations are consumed |
| `MockProperties.BalanceNeverNegative` | runtime/src/test_utils.rs:742-753 | over any run of sends a non-negative balance stays non-negative |
| `MockProperties.InsufficientBalanceConsumesExpectation` | runtime/src/test_utils.rs:730-753 | an overdraft fails with the balance kept, but its expectation is gone and resending panics |
| `MockProperties.CallRollsBackState` | runtime/src/test_utils.rs:342-356 | a method that creates state and then fails leaves no state root, though its block stays in the store |
| `MockProperties.CallKeepsFailedInvocationDebits` | runtime/src/test_utils.rs:342-356 | a method that sends and then fails keeps the debit and the consumed expectation, so `verify` passes |
| `MockProperties.MockTransactionAtomic` | runtime/src/test_utils.rs:691-707 | for a closure that does not write state itself, failure leaves root and store as they were, and success makes the final state readable |
| `MockProperties.MockTransactionRejectsNesting` | runtime/src/test_utils.rs:691-698 | inside a transaction, nested transactions, sends, creations and deletions are all refused with assertion_failed and change nothing |
| `MockProperties.CreateThenStateRoundTrip` | runtime/src/test_utils.rs:679-689 | state created on a fresh runtime reads back as the same object |
| `MockProperties.VerifyAfterReset` | runtime/src/test_utils.rs:156-200 | `verify` passes after `reset`, and `reset` is idempotent |
| `MockProperties.VerifyIgnoresNotType` | runtime/src/test_utils.rs:160-200 | an unconsumed not-type expectation does not fail `verify` |
| `MockProperties.UnconsumedValidateCallerFailsVerify` | runtime/src/test_utils.rs:160-200 | an address expectation never consumed fails `verify`; once consumed by the matching validation, `verify` passes |
| `MockProperties.ScriptedSendVerifies` | runtime/src/test_utils.rs:423-444 | a registered send consumed by a matching, covered send gets its scripted reply and leaves nothing for `verify` |
| `MockProperties.SignatureCheckConsumed` | runtime/src/test_utils.rs:847-890 | a scripted signature check answers once with its verdict; the same check again panics |
| `MockProperties.LifecycleExpectationsConsumed` | runtime/src/test_utils.rs:775-808 | a scripted creation or deletion is answered once; repeating it panics |
| `MockProperties.NewActorAddressOnce` | runtime/src/test_utils.rs:765-773 | the prepared actor address is handed out once; asking again panics |
| `MockProperties.AddIdAddressKeepsIdTargets` | runtime/src/test_utils.rs:326-340 | registrations keep every target an ID address, so resolution yields only ID addresses, and a registered source resolves to its target |
| `MockProperties.CodeCidRoundTrip` | runtime/src/test_utils.rs:810-822 | `get_code_cid_for_type` and `resolve_builtin_actor_type` are inverse to each other |
| `MockProperties.MockValidateTypeByResolvedType` | runtime/src/test_utils.rs:570-614 | the mock's type check passes iff the caller's code resolves to an allowed builtin type |
| `MockProperties.NotTypeIgnoresCaller` | runtime/src/test_utils.rs:616-659 | the not-type check gives the same verdict whoever the caller is |
| `MockProperties.SetCallerRecordsCode` | runtime/src/test_utils.rs:316-320 | after `set_caller`, the caller's code is what `get_actor_code_cid` reports for it |
| `Agreement.ValidateIsAgrees` | runtime/src/runtime/fvm.rs:119-133 | for the same caller, the adapter and the double give the same address-validation verdict |
| `Agreement.ValidateTypeAgrees` | runtime/src/runtime/fvm.rs:135-153 | for the same caller code, resolved alike, the adapter and the double give the same type-validation verdict |
| `Agreement.CreateAgrees` | runtime/src/runtime/fvm.rs:220-231 | `create` refuses in both runtimes under the same condition, and on success the object reads back in both |
| `Agreement.SendFailureCodesDiverge` | runtime/src/test_utils.rs:755-762 | a scripted system-tier failure reaches the caller unchanged in the double, while the adapter would surface a different, user-tier code |

## Left out

- Exit code values come from the shared FVM types crate, which is not part of this model. The constants in `exit_codes.dfy` are that crate's values. Only 4 and 9 are confirmed by comments in `fvm.rs`.
- Error messages are not modelled: `ActorError` carries only its exit code.
- Fvm.Create takes the host's root read, block write and root update to succeed. When one fails the source returns an `illegal_argument` error or passes the host's error on; those error paths are not modelled.
- Fvm.State takes reading and decoding the state block to succeed; only a missing block is modelled (as the panic the source raises).
- Fvm.Transaction takes reading and decoding the state block, writing the new state and setting the new root to succeed; the error paths of those host calls are not modelled.
- Fvm.Trampoline takes writing a non-empty return block to succeed. In the source a failed write panics, which the panic hook turns into an abort with `USR_ASSERTION_FAILED`.
- Registry.MakeBuiltin does not model the panic on a name longer than an identity multihash allows; every registered name is short.
- The `ActorType` datatype is taken to be exactly the eleven builtin types `ACTOR_TYPES` registers. The actor-type enum itself is not part of this model; a variant outside the table would make `find_by_type` panic, and `Registry.EveryTypeRegistered` does not cover it.
- Fvm.DeleteActor: the conversion of the self-destruct syscall's `ErrorNumber` into an actor error through `?` is not modelled. It is an input (`converted`).
- Hashing, CID and multihash construction are not modelled. This covers BLAKE2b, `make_cid*`, CBOR encoding and the derivation of `EMPTY_ARR_CID`. A digest is a parameter `hash: T -> nat`, and the empty-array CID is kept distinct from every digest. In the source, a state whose encoding is the empty array (a tuple struct with no fields) is stored under `EMPTY_ARR_CID` itself, so `create` succeeds again on such an actor (`runtime/src/runtime/fvm.rs:220-231`); `Fvm.Create` refusing once state exists, and the agreement in `Agreement.CreateAgrees`, hold only for states whose encoding is not the empty array.
- `new_bls_addr` is left out because it needs randomness and BLS key construction.
- The mock's `call_fn` is left out because it takes a test closure returning `anyhow::Result`, whose error type is not modelled.
- The mock's plain field accessors and setters are left out because each only returns or stores one field. The readers are `receiver`, `value_received`, `network_version`, `base_fee`, `total_fil_circ_supply` and `get_balance`. The writers are `set_balance`, `set_value`, `set_received`, `set_base_fee`, `set_circulating_supply`, `set_epoch` and `set_address_actor_type` (the latter a single insert into the code map, as `Mock.SetCaller` makes).
- The mock's `current_balance` is left out: it returns the balance after the in-call assertion (`runtime/src/test_utils.rs:661-664`). The balance itself is modelled, and `Mock.Send` reads and debits it.
- The mock's `message` is left out: it returns the runtime itself as the message information after the in-call assertion (`runtime/src/test_utils.rs:516-519`).
- The mock's `add_balance` is left out: it adds the amount to the balance rather than storing it (`runtime/src/test_utils.rs:308-310`); the model starts from a given balance instead.
- The mock's `curr_epoch` is left out: it returns the epoch field after the same in-call assertion the modelled mock operations make (`runtime/src/test_utils.rs:521-524`).
- The mock's `replace_state` is left out: it writes the object into the store and sets the state root without `create`'s check that no state exists (`runtime/src/test_utils.rs:296-298`), so a test can overwrite state that `Mock.Create` would refuse to replace.
- Production syscall pass-throughs are left out because the host is an input. These are `receiver`, `value_received`, `network_version`, `message`, `curr_epoch`, `current_balance`, `resolve_address`, `get_actor_code_cid`, `new_actor_address`, `get_code_cid_for_type`, `total_fil_circ_supply` and `base_fee` (`runtime/src/runtime/fvm.rs:88-111`, `runtime/src/runtime/fvm.rs:155-157`, `runtime/src/runtime/fvm.rs:371-381`). The production `resolve_builtin_actor_type` is the one pass-through the model keeps, as `Fvm.ResolveBuiltinActorType`, a read of the host's builtin-type table, because `Fvm.ValidateType` depends on it.
- Message parameters and return values are `Bytes`, standing for the whole encoded block, codec included: `Mock.Send` compares the expected and actual parameters as a whole, as the source compares both codec and data.
- The production `verify_signature` is left out. It is not a pure pass-through: a host verdict of "invalid" and a host error both become the same "invalid signature" error (`runtime/src/runtime/fvm.rs:388-398`). Signature checking is host work with no state of the adapter's own.
- The production `charge_gas` is left out. It casts the signed charge to `u64` (`runtime/src/runtime/fvm.rs:375-377`), so a negative charge wraps to a huge one. The gas meter is host state.
- The policy object, logging and the panic hook's message are left out. The panic hook's exit code is modelled: a panic in `Fvm.Trampoline` aborts with `USR_ASSERTION_FAILED`.
- Mock.Send, Mock.ValidateIs and Mock.ValidateType do not model message formatting or the Debug output of the assertion macros: a failed assertion is a `Panic` without its text.
- Mock.VerifySignature returns the scripted verdict as a boolean; the `anyhow::Error` a failing check carries is not modelled.
- `ACTOR_TYPES` is an association list in insertion order, not a `BTreeMap`. Codes and types are each distinct (`Registry.ActorTypesOneToOne`), so both lookups give the same answer in either order.
- The SCA and subnet code constants are not in the registry table, so they are left out.
- The interface-derive macro, the interface trait, the crate's re-exports, the singleton constants and the example actor are not part of this model.

## Where the comments and the code differ

The model follows the code:

- The field comment on `in_transaction` says sending is prohibited during a transaction (`runtime/src/runtime/fvm.rs:43-44`), yet the production `transaction` does not reject nesting, and a nested one reopens sending (see Findings). Only the mock rejects nesting.
- The comment in the mock's `validate_immediate_caller_not_type` says the check needs the caller type (`runtime/src/test_utils.rs:622`), yet the check never looks at the caller. It only checks that the given types' codes are among the registered ones (`MockProperties.NotTypeIgnoresCaller`). `verify` does not report an unconsumed not-type expectation.

The code also behaves in ways a test author may not expect; the model follows it there too:

- The mock's `send` pops the expectation before it checks the balance. An overdraft therefore consumes the expectation (`MockProperties.InsufficientBalanceConsumesExpectation`).
- The mock's `call` rolls back only the state root. Debits, consumed expectations and address registrations made by a failed method remain (`MockProperties.CallKeepsFailedInvocationDebits`).
- A mock send relays the scripted exit code as it is, system-tier codes included. The production adapter never surfaces a system code from a callee (`Agreement.SendFailureCodesDiverge`).

## Findings

| source | as written | input that shows it | evidently intended | confidence | as-written member | corrected member |
|---|---|---|---|---|---|---|
| runtime/src/runtime/fvm.rs:241-265 | `transaction` raises `in_transaction` on entry and lowers it on exit, with no check for an enclosing transaction | a transaction body that opens a nested transaction and then sends: the nested one returns with the flag down, and the send reaches the host inside the outer transaction | a nested transaction is refused (as the mock's `transaction` does) so that side effects stay blocked until the outermost transaction ends | medium, not executed | `Fvm.Transaction` (`FvmProperties.TransactionLowersEnclosingGuard`, `FvmProperties.NestedTransactionReopensSend`) | `Fvm.GuardedTransaction` (`FvmProperties.GuardedNestingKeepsSendClosed`) |
