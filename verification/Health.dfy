/** The records of the bridge health store. */
module Health {
  import opened Text

  /** An instant, in any fixed unit. */
  type Time = int

  /** A bridge line; `identity` is what two lines of the same bridge share. */
  datatype Bridge = Bridge(identity: nat, line: string)

  datatype Entry = Entry(
    bridge: Bridge,
    lastOk: Option<Time>,
    lastAttempt: Time,
    lastLatency: nat,  // nanoseconds
    fails: nat,
    okCount: nat,
    channelOkCount: nat,
    lastChannelOk: Option<Time>,
    verifiedCount: nat,
    lastVerified: Option<Time>,
    lastVerificationAttempt: Option<Time>,
    circuitFails: nat,
    lastCircuitObservation: Time,
    sources: set<string>)
  {
    predicate IsRetired() {
      circuitFails == RETIRED_CIRCUIT_FAILS
    }

    predicate IsProvenAlive() {
      fails == 0 && okCount > 0 && !IsRetired()
    }
  }

  const U32_MAX := 0xFFFF_FFFF
  const RETIRED_CIRCUIT_FAILS := U32_MAX

  function SaturatingInc(n: nat): nat {
    if n < U32_MAX then n + 1 else U32_MAX
  }
}
