/** What the Python generators share: one security, its opening price and tick, and the opening time. */
module Sample {
  import opened Bytes

  const LOC: nat := 1
  const SYMBOL: Data := [Ch('T'), Ch('E'), Ch('S'), Ch('T'), Ch(' '), Ch(' '), Ch(' '), Ch(' ')]
  const NSDQ: Data := [Ch('N'), Ch('S'), Ch('D'), Ch('Q')]
  const MID: int := 1000000
  const TICK: int := 100
  const T0: nat := 34200000000000
}
