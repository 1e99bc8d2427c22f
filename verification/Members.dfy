/** The membership entities of member.go: what one node records about another. */
module Members {

  /** A point of the ring: `HashToMbits` reduces SHA-1 modulo 2^HashBits, and HashBits is 8. */
  const HASH_SPACE: nat := 256

  type Hash = h: nat | h < HASH_SPACE

  datatype Option<+T> = None | Some(value: T) {
    function GetOr(default: T): T { if Some? then value else default }
  }

  datatype Status = Alive | Suspect | Dead | VoluntaryLeave

  /** `Address-creationTime` in the source; the pair is what identifies one incarnation of a process. */
  datatype NodeId = NodeId(address: string, created: int)

  datatype Member = Member(id: NodeId, status: Status, heartbeat: nat, incarnation: nat,
                           lastUpdated: int, hash: Hash)
  {
    predicate IsAlive() { status == Alive }

    /** Dead and voluntary-leave entries are final: nothing but removal may follow them. */
    predicate IsFinal() { status == Dead || status == VoluntaryLeave }

    function MarkSuspect(now: int): Member { this.(status := Suspect, lastUpdated := now) }

    function MarkDead(now: int): Member { this.(status := Dead, lastUpdated := now) }

    function MarkVoluntaryLeave(now: int): Member { this.(status := VoluntaryLeave, lastUpdated := now) }
  }

  ghost predicate UniqueIds(ms: seq<Member>) {
    forall i, j | 0 <= i < j < |ms| :: ms[i].id != ms[j].id
  }

  ghost predicate SortedByHash(ms: seq<Member>) {
    forall i, j | 0 <= i < j < |ms| :: ms[i].hash <= ms[j].hash
  }

  ghost predicate DistinctHashes(ms: seq<Member>) {
    forall i, j | 0 <= i < j < |ms| :: ms[i].hash != ms[j].hash
  }

  ghost predicate DistinctAliveHashes(ms: seq<Member>) {
    forall i, j | 0 <= i < j < |ms| && ms[i].IsAlive() && ms[j].IsAlive() :: ms[i].hash != ms[j].hash
  }

  ghost predicate AllAlive(ms: seq<Member>) {
    forall i | 0 <= i < |ms| :: ms[i].IsAlive()
  }

  /** What every membership list keeps: sorted by hash, one entry per node. */
  ghost predicate RingList(ms: seq<Member>) {
    SortedByHash(ms) && UniqueIds(ms)
  }
}
