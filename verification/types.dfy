/** Vocabulary shared by both runtime variants: addresses, builtin actor
    types, actor errors, host replies and the outcome of a runtime operation. */
module Types {
  import opened ExitCodes

  type Bytes = seq<bv8>

  /** Token amounts are arbitrary-precision signed integers. */
  type TokenAmount = int

  const U64Limit: nat := 0x1_0000_0000_0000_0000
  type U64 = n: nat | n < U64Limit
  type MethodNum = U64
  type ActorId = U64

  datatype Option<+T> = None | Some(value: T)

  /** A Filecoin address; `Id` is the ID protocol, the others carry key or
      hash material. */
  datatype Address =
    | Id(actor: ActorId)
    | Secp256k1(keyHash: Bytes)
    | Actor(hash: Bytes)
    | Bls(publicKey: Bytes)

  /** The builtin actor types the registry knows. */
  datatype ActorType =
    | System | Init | Cron | Account | Power | Miner | Market
    | PaymentChannel | Multisig | Reward | VerifiedRegistry

  /** An error returned by an actor method. Only the exit code is modelled;
      the human-readable message is not. */
  datatype ActorError = ActorError(code: ExitCode)

  datatype Result<+R> = Ok(value: R) | Err(error: ActorError)

  function Fail<R>(code: ExitCode): Result<R> {
    Err(ActorError(code))
  }

  /** A runtime operation either completes, yielding a value and the runtime
      after it, or panics. A panic ends the whole invocation: in production the
      panic hook aborts with `UsrAssertionFailed`, in a test the test fails. */
  datatype Outcome<+R, +S> = Done(value: R, state: S) | Panic(reason: string)

  /** Syscall error numbers the host may answer with. */
  datatype ErrorNumber =
    | IllegalArgument | IllegalOperation | LimitExceeded | AssertionFailed
    | InsufficientFunds | NotFound | InvalidHandle | IllegalCid | IllegalCodec
    | Serialization | Forbidden | BufferTooSmall

  /** The reply of a host syscall. */
  datatype HostResult<+X> = HostOk(value: X) | HostErr(errno: ErrorNumber)
}
