/** Who owns a key: the five placement computations of ring.go and hydfs_operations.go.
    Each loop of the source is a method proved against a function that uses plain list order. */
module Ring {
  import opened Cyclic
  import opened Members

  // ----- index arithmetic -----

  function SuccessorIdx(idx: nat, step: nat, n: nat): nat
    requires n > 0
  {
    (idx + step) % n
  }

  function PredecessorIdx(idx: nat, n: nat): nat
    requires idx < n
  {
    (idx - 1 + n) % n
  }

  // ----- node lookup -----

  /** Position of `id`, or -1. */
  function NodeIndex(ms: seq<Member>, id: NodeId): (r: int)
    ensures -1 <= r < |ms|
    ensures r >= 0 ==> ms[r].id == id
    ensures r == -1 <==> forall i | 0 <= i < |ms| :: ms[i].id != id
  {
    if ms == [] then -1
    else if ms[0].id == id then 0
    else var r := NodeIndex(ms[1..], id);
         assert forall i | 1 <= i < |ms| :: ms[i] == ms[1..][i - 1];
         if r == -1 then -1 else r + 1
  }

  lemma NodeIndexAt(ms: seq<Member>, i: nat)
    requires UniqueIds(ms) && i < |ms|
    ensures NodeIndex(ms, ms[i].id) == i
  {
  }

  method GetNodeIndex(ms: seq<Member>, id: NodeId) returns (r: int)
    ensures r == NodeIndex(ms, id)
  {
    for i := 0 to |ms|
      invariant NodeIndex(ms, id) == (var t := NodeIndex(ms[i..], id); if t == -1 then -1 else t + i)
    {
      assert ms[i..][1..] == ms[i + 1..];
      if ms[i].id == id {
        return i;
      }
    }
    return -1;
  }

  // ----- liveness scans in list order -----

  /** First alive position at or after `i` whose hash is at least `h`, or the length of the list. */
  function FirstAliveAtLeast(ms: seq<Member>, h: nat, i: nat): (r: nat)
    requires i <= |ms|
    ensures i <= r <= |ms|
    ensures r < |ms| ==> ms[r].IsAlive() && ms[r].hash >= h
    ensures forall k | i <= k < r :: !(ms[k].IsAlive() && ms[k].hash >= h)
    decreases |ms| - i
  {
    if i == |ms| || (ms[i].IsAlive() && ms[i].hash >= h) then i else FirstAliveAtLeast(ms, h, i + 1)
  }

  /** Last alive position before `i`, or -1. */
  function LastAliveBelow(ms: seq<Member>, i: nat): (r: int)
    requires i <= |ms|
    ensures -1 <= r < i
    ensures r >= 0 ==> ms[r].IsAlive()
    ensures forall k | r < k < i :: !ms[k].IsAlive()
  {
    if i == 0 then -1 else if ms[i - 1].IsAlive() then i - 1 else LastAliveBelow(ms, i - 1)
  }

  /** The nearest alive predecessor of position `i`: below it in the list, else the last alive one. */
  function PredecessorPos(ms: seq<Member>, i: nat): (r: int)
    requires i < |ms|
    ensures -1 <= r < |ms|
    ensures r >= 0 ==> ms[r].IsAlive()
  {
    var below := LastAliveBelow(ms, i);
    if below >= 0 then below else LastAliveBelow(ms, |ms|)
  }

  // ----- the primary's view -----

  /** A half-open ring interval (start, end]; the whole ring when start equals end. */
  datatype Range = Range(start: Hash, end: Hash)

  predicate IsHashInRange(h: Hash, r: Range) {
    if r.start < r.end then h > r.start && h <= r.end
    else h > r.start || h <= r.end
  }

  function PrimaryRange(ms: seq<Member>, id: NodeId): Option<Range> {
    var i := NodeIndex(ms, id);
    if i == -1 then None
    else var p := PredecessorPos(ms, i);
         if p == -1 then None else Some(Range(ms[p].hash, ms[i].hash))
  }

  /** The source steps backwards with modular indices for at most N steps; the result is the
      predecessor in list order. */
  method GetPrimaryKeyRange(ms: seq<Member>, id: NodeId) returns (r: Option<Range>)
    ensures r == PrimaryRange(ms, id)
  {
    var n := |ms|;
    var myIdx := GetNodeIndex(ms, id);
    if n == 0 || myIdx == -1 {
      return None;
    }
    var predIdx := myIdx;
    var found := false;
    var i := 0;
    while i < n && !found
      invariant 0 <= i <= n && 0 <= predIdx < n
      invariant !found ==> predIdx == Back(myIdx, i, n) && AllDeadBack(ms, myIdx, i)
      invariant found ==> predIdx == PredecessorPos(ms, myIdx)
      decreases n - i, !found
    {
      ModBelow(predIdx - 1 + n, n);
      predIdx := PredecessorIdx(predIdx, n);
      if ms[predIdx].IsAlive() {
        found := true;
        NearestBack(ms, myIdx, i);
      } else {
        i := i + 1;
      }
    }
    if !found {
      NoneBack(ms, myIdx);
      return None;
    }
    return Some(Range(ms[predIdx].hash, ms[myIdx].hash));
  }

  /** The position `i` steps back from `p`, for up to one turn. */
  function Back(p: nat, i: nat, n: nat): int {
    if i <= p then p - i else p - i + n
  }

  /** Nobody is alive up to `i` steps back. */
  ghost predicate AllDeadBack(ms: seq<Member>, p: nat, i: nat)
    requires p < |ms| && i <= |ms|
  {
    (forall k | p - i <= k < p && 0 <= k :: !ms[k].IsAlive()) &&
    (i > p ==> forall k | p - i + |ms| <= k < |ms| :: !ms[k].IsAlive())
  }

  lemma NearestBack(ms: seq<Member>, p: nat, i: nat)
    requires p < |ms| && i < |ms| && AllDeadBack(ms, p, i) && ms[Back(p, i + 1, |ms|)].IsAlive()
    ensures Back(p, i + 1, |ms|) == PredecessorPos(ms, p)
  {
  }

  lemma NoneBack(ms: seq<Member>, p: nat)
    requires p < |ms| && AllDeadBack(ms, p, |ms|)
    ensures PredecessorPos(ms, p) == -1
  {
  }

  // ----- the re-replication view -----

  /** The list read once around the ring from position `p`. */
  function Rotation(ms: seq<Member>, p: nat): (r: seq<Member>)
    requires p <= |ms|
    ensures |r| == |ms|
  {
    ms[p..] + ms[..p]
  }

  /** The `k` members met walking the ring from position `p`, over as many laps as needed. */
  function Window(ms: seq<Member>, p: nat, k: nat): (w: seq<Member>)
    requires p < |ms|
    ensures |w| == k
  {
    if k <= |ms| then Rotation(ms, p)[..k] else Rotation(ms, p) + Window(ms, p, k - |ms|)
  }

  lemma RotationIndex(ms: seq<Member>, p: nat, i: nat)
    requires p < |ms| && i < |ms|
    ensures Rotation(ms, p)[i] == ms[(p + i) % |ms|]
  {
    ModBelow(p + i, |ms|);
  }

  lemma {:induction false} WindowIndex(ms: seq<Member>, p: nat, k: nat, i: nat)
    requires p < |ms| && i < k
    ensures Window(ms, p, k)[i] == ms[(p + i) % |ms|]
  {
    if i < |ms| {
      RotationIndex(ms, p, i);
    } else {
      WindowIndex(ms, p, k - |ms|, i - |ms|);
      ModLap(p + i - |ms|, |ms|);
    }
  }

  function AliveOf(ms: seq<Member>): (r: seq<Member>)
    ensures |r| <= |ms|
  {
    if ms == [] then []
    else
      var last := ms[|ms| - 1];
      AliveOf(ms[..|ms| - 1]) + (if last.IsAlive() then [last] else [])
  }

  lemma {:induction false} AliveOfMembers(ms: seq<Member>, m: Member)
    ensures m in AliveOf(ms) <==> m in ms && m.IsAlive()
  {
    if ms != [] {
      var k := |ms| - 1;
      assert ms == ms[..k] + [ms[k]];
      AliveOfMembers(ms[..k], m);
    }
  }

  function Take<T>(s: seq<T>, k: nat): seq<T> {
    if k <= |s| then s[..k] else s
  }

  /** The next n-1 alive members after position `i` in ring order; none when n is 0. */
  function SuccessorsAt(ms: seq<Member>, i: nat, n: nat): seq<Member>
    requires i < |ms|
  {
    Take(AliveOf(Rotation(ms, i)[1..]), if n == 0 then 0 else n - 1)
  }

  function Successors(ms: seq<Member>, id: NodeId, n: nat): seq<Member> {
    var i := NodeIndex(ms, id);
    if i == -1 then [] else SuccessorsAt(ms, i, n)
  }

  method GetSuccessors(ms: seq<Member>, id: NodeId, n: nat) returns (succ: seq<Member>)
    ensures succ == Successors(ms, id, n)
  {
    var myIdx := GetNodeIndex(ms, id);
    if myIdx == -1 || |ms| == 0 {
      return [];
    }
    ghost var rest := Rotation(ms, myIdx)[1..];
    forall i | 1 <= i < |ms| ensures rest[i - 1] == ms[SuccessorIdx(myIdx, i, |ms|)] {
      RotationIndex(ms, myIdx, i);
    }
    succ := CollectSuccessors(ms, myIdx, n, rest);
  }

  /** The loop of `GetSuccessors`, over whatever the modular indices visit. */
  method CollectSuccessors(ms: seq<Member>, myIdx: nat, n: nat, ghost rest: seq<Member>) returns (succ: seq<Member>)
    requires |ms| == |rest| + 1
    requires forall i | 1 <= i < |ms| :: rest[i - 1] == ms[SuccessorIdx(myIdx, i, |ms|)]
    ensures succ == Take(AliveOf(rest), if n == 0 then 0 else n - 1)
  {
    succ := [];
    var count := 0;
    var i := 1;
    while count < n - 1 && i < |ms|
      invariant 1 <= i <= |ms|
      invariant count == |succ| && (count == 0 || count <= n - 1)
      invariant succ == AliveOf(rest[..i - 1])
    {
      var idx := SuccessorIdx(myIdx, i, |ms|);
      AliveOfNext(rest, i - 1);
      if ms[idx].IsAlive() {
        succ := succ + [ms[idx]];
        count := count + 1;
      }
      i := i + 1;
    }
    AliveOfEnough(rest, i - 1, if n == 0 then 0 else n - 1);
  }

  lemma {:induction false} AliveOfConcat(a: seq<Member>, b: seq<Member>)
    ensures AliveOf(a + b) == AliveOf(a) + AliveOf(b)
  {
    if b == [] {
      assert a + b == a;
    } else {
      var k := |b| - 1;
      assert (a + b)[..|a + b| - 1] == a + b[..k];
      AliveOfConcat(a, b[..k]);
    }
  }

  lemma AliveOfNext(ms: seq<Member>, k: nat)
    requires k < |ms|
    ensures AliveOf(ms[..k + 1]) == AliveOf(ms[..k]) + if ms[k].IsAlive() then [ms[k]] else []
  {
    assert ms[..k + 1][..k] == ms[..k];
  }

  lemma AliveOfSplit(ms: seq<Member>, k: nat)
    requires k <= |ms|
    ensures AliveOf(ms) == AliveOf(ms[..k]) + AliveOf(ms[k..])
  {
    assert ms == ms[..k] + ms[k..];
    AliveOfConcat(ms[..k], ms[k..]);
  }

  /** A scan may stop once it has met `n` alive members or the whole list. */
  lemma AliveOfEnough(ms: seq<Member>, k: nat, n: nat)
    requires k <= |ms| && |AliveOf(ms[..k])| <= n
    requires |AliveOf(ms[..k])| == n || k == |ms|
    ensures Take(AliveOf(ms), n) == AliveOf(ms[..k])
  {
    AliveOfSplit(ms, k);
  }

  // ----- the client's view -----

  /** Position of the primary: the first alive hash at or above `h`, else the first alive one. */
  function PrimaryIndex(ms: seq<Member>, h: Hash): (r: int)
    ensures -1 <= r < |ms|
    ensures r >= 0 ==> ms[r].IsAlive()
  {
    var up := FirstAliveAtLeast(ms, h, 0);
    if up < |ms| then up
    else var first := FirstAliveAtLeast(ms, 0, 0);
         if first < |ms| then first else -1
  }

  function Targets(ms: seq<Member>, h: Hash, rf: nat): seq<Member> {
    var p := PrimaryIndex(ms, h);
    if p == -1 then [] else AliveOf(Window(ms, p, rf))
  }

  /** The two scans of `findTargetNodes` for the primary. */
  method FindPrimary(ms: seq<Member>, h: Hash) returns (primary: int)
    ensures primary == PrimaryIndex(ms, h)
  {
    for i := 0 to |ms|
      invariant FirstAliveAtLeast(ms, h, 0) == FirstAliveAtLeast(ms, h, i)
    {
      if ms[i].IsAlive() && ms[i].hash >= h {
        return i;
      }
    }
    for i := 0 to |ms|
      invariant FirstAliveAtLeast(ms, 0, 0) == FirstAliveAtLeast(ms, 0, i)
    {
      if ms[i].IsAlive() {
        return i;
      }
    }
    return -1;
  }

  method FindTargetNodes(ms: seq<Member>, h: Hash, rf: nat) returns (targets: seq<Member>)
    ensures targets == Targets(ms, h, rf)
  {
    if |ms| == 0 {
      return [];
    }
    var primary := FindPrimary(ms, h);
    if primary == -1 {
      return [];
    }
    forall k | 0 <= k < rf ensures Window(ms, primary, rf)[k] == ms[SuccessorIdx(primary, k, |ms|)] {
      WindowIndex(ms, primary, rf, k);
    }
    targets := CollectTargets(ms, primary, rf, Window(ms, primary, rf));
  }

  /** The last loop of `findTargetNodes`. */
  method CollectTargets(ms: seq<Member>, primary: nat, rf: nat, ghost w: seq<Member>) returns (targets: seq<Member>)
    requires ms != [] && |w| == rf
    requires forall k | 0 <= k < rf :: w[k] == ms[SuccessorIdx(primary, k, |ms|)]
    ensures targets == AliveOf(w)
  {
    targets := [];
    for k := 0 to rf
      invariant targets == AliveOf(w[..k])
    {
      var index := SuccessorIdx(primary, k, |ms|);
      AliveOfNext(w, k);
      if ms[index].IsAlive() {
        targets := targets + [ms[index]];
      }
    }
    assert w[..rf] == w;
  }

  // ----- the garbage collector's view -----

  /** Go's remainder takes the sign of the dividend, so the index can be negative in a ring of fewer than
      RF members. */
  function GoMod(a: int, n: nat): int
    requires n > 0
  {
    if a >= 0 then a % n else -((-a) % n)
  }

  function WindowStart(i: nat, rf: nat, n: nat): int
    requires n > 0
  {
    GoMod(i - rf + n, n)
  }

  /** `Crash`: indexing the list with a negative number. */
  datatype Bounds = Absent | Crash | Between(range: Range)

  function AllKeyRange(ms: seq<Member>, id: NodeId, rf: nat): Bounds {
    var i := NodeIndex(ms, id);
    if i == -1 then Absent
    else
      var p := WindowStart(i, rf, |ms|);
      if p < 0 then Crash else Between(Range(ms[p].hash, ms[i].hash))
  }

  method GetAllKeyRange(ms: seq<Member>, id: NodeId, rf: nat) returns (r: Bounds)
    ensures r == AllKeyRange(ms, id, rf)
  {
    var n := |ms|;
    var myIdx := GetNodeIndex(ms, id);
    if n == 0 || myIdx == -1 {
      return Absent;
    }
    var predIdx := GoMod(myIdx - rf + n, n);
    if predIdx < 0 {
      return Crash;
    }
    return Between(Range(ms[predIdx].hash, ms[myIdx].hash));
  }

  // ----- the trigger -----

  /** Is `c` the k-th position after `i`, or the one before it? */
  predicate Touches(i: nat, k: nat, c: nat, n: nat)
    requires i < n
  {
    SuccessorIdx(i, k, n) == c || PredecessorIdx(i, n) == c
  }

  /** Does node `me` stabilize after `changed` failed or joined? */
  predicate Triggers(ms: seq<Member>, me: NodeId, changed: NodeId, rf: nat) {
    var c, i := NodeIndex(ms, changed), NodeIndex(ms, me);
    c != -1 && i != -1 &&
    exists k | 1 <= k < rf :: Touches(i, k, c, |ms|)
  }

  method HandleReplicationWindowChange(ms: seq<Member>, me: NodeId, changed: NodeId, rf: nat) returns (stabilize: bool)
    ensures stabilize == Triggers(ms, me, changed, rf)
  {
    if |ms| == 0 {
      return false;
    }
    var changedIdx := GetNodeIndex(ms, changed);
    var myIdx := GetNodeIndex(ms, me);
    if changedIdx == -1 || myIdx == -1 {
      return false;
    }
    var i := 1;
    while i < rf
      invariant i >= 1
      invariant forall k | 1 <= k < i && k < rf :: !Touches(myIdx, k, changedIdx, |ms|)
    {
      if Touches(myIdx, i, changedIdx, |ms|) {
        return true;
      }
      i := i + 1;
    }
    return false;
  }
}
