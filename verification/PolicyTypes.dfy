/** The parsed selection request a client expresses through its username. */
module PolicyTypes {
  import opened Common

  datatype Policy = Policy(
    anyExit: bool,
    countries: seq<string>,
    cities: seq<string>,
    slot: string,
    provider: string,
    session: string,
    ttl: int,
    uniqueBatch: string,
    batchTTL: int,
    recycleBatch: bool,
    healthScope: string,
    excludeIPs: seq<Addr>)

  const EMPTY_POLICY: Policy := Policy(false, [], [], "", "", "", 0, "", 0, false, "", [])
}
