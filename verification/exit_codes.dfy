/** Exit codes of the Filecoin virtual machine: a 32-bit space split into a
    system tier, reserved for faults the VM itself reports, and a user tier for
    outcomes an actor reports. Values follow fvm_shared's `ExitCode`. */
module ExitCodes {

  /** An exit code is an unsigned 32-bit value. */
  type ExitCode = c: nat | c < 0x1_0000_0000

  const ExitOk: ExitCode := 0

  // System tier
  const SysSenderInvalid: ExitCode := 1
  const SysSenderStateInvalid: ExitCode := 2
  const SysIllegalInstruction: ExitCode := 4
  const SysInvalidReceiver: ExitCode := 5
  const SysInsufficientFunds: ExitCode := 6
  const SysOutOfGas: ExitCode := 7
  const SysIllegalExitCode: ExitCode := 9
  const SysAssertionFailed: ExitCode := 10
  const SysMissingReturn: ExitCode := 11

  /** The first code of the user tier. */
  const FirstUserExitCode: ExitCode := 16

  // User tier
  const UsrIllegalArgument: ExitCode := 16
  const UsrNotFound: ExitCode := 17
  const UsrForbidden: ExitCode := 18
  const UsrInsufficientFunds: ExitCode := 19
  const UsrIllegalState: ExitCode := 20
  const UsrSerialization: ExitCode := 21
  const UsrUnhandledMessage: ExitCode := 22
  const UsrUnspecified: ExitCode := 23
  const UsrAssertionFailed: ExitCode := 24

  predicate IsSuccess(c: ExitCode) {
    c == ExitOk
  }

  /** The system tier, which (as in fvm_shared) includes `ExitOk`. */
  predicate IsSystemError(c: ExitCode) {
    c < FirstUserExitCode
  }
}
