/** The placement views agree: theorems relating the client, the primary, the re-replication
    successors, the garbage collector and the trigger. */
module Placement {
  import opened Cyclic
  import opened Members
  import opened Ring

  // ----- partition -----

  ghost predicate HasAlive(ms: seq<Member>) {
    exists i | 0 <= i < |ms| :: ms[i].IsAlive()
  }

  /** Alive member `j` believes it is the primary of `h`. */
  ghost predicate Owns(ms: seq<Member>, j: int, h: Hash) {
    0 <= j < |ms| && ms[j].IsAlive() &&
    var r := PrimaryRange(ms, ms[j].id);
    r.Some? && IsHashInRange(h, r.value)
  }

  ghost predicate SoleOwner(ms: seq<Member>, j: int, h: Hash) {
    Owns(ms, j, h) && forall k | Owns(ms, k, h) :: k == j
  }

  lemma PrimaryExists(ms: seq<Member>, h: Hash)
    ensures HasAlive(ms) <==> PrimaryIndex(ms, h) >= 0
  {
  }

  /** No hash is orphaned: the client's primary always claims it. */
  lemma PrimaryOwns(ms: seq<Member>, h: Hash)
    requires RingList(ms) && HasAlive(ms)
    ensures Owns(ms, PrimaryIndex(ms, h), h)
  {
    PrimaryExists(ms, h);
    NodeIndexAt(ms, PrimaryIndex(ms, h));
  }

  lemma OwnerIsPrimary(ms: seq<Member>, h: Hash, j: int)
    requires RingList(ms) && DistinctAliveHashes(ms) && Owns(ms, j, h)
    ensures j == PrimaryIndex(ms, h)
  {
    NodeIndexAt(ms, j);
    var p := PredecessorPos(ms, j);
    SortedUpTo(ms, p);
    if LastAliveBelow(ms, j) >= 0 {
      StrictlyBelow(ms, p, j);
      OwnerWithin(ms, h, j, p);
    } else {
      OwnerWraps(ms, h, j, p);
    }
  }

  lemma FirstIs(ms: seq<Member>, h: nat, k: nat)
    requires k < |ms| && ms[k].IsAlive() && ms[k].hash >= h
    requires forall i | 0 <= i < k :: !(ms[i].IsAlive() && ms[i].hash >= h)
    ensures FirstAliveAtLeast(ms, h, 0) == k
  {
  }

  lemma NoneIs(ms: seq<Member>, h: nat)
    requires forall i | 0 <= i < |ms| :: !(ms[i].IsAlive() && ms[i].hash >= h)
    ensures FirstAliveAtLeast(ms, h, 0) == |ms|
  {
  }

  lemma StrictlyBelow(ms: seq<Member>, p: nat, j: nat)
    requires SortedByHash(ms) && DistinctAliveHashes(ms) && p < j < |ms| && ms[p].IsAlive() && ms[j].IsAlive()
    ensures ms[p].hash < ms[j].hash
  {
  }

  /** No hash up to position `p` exceeds the one at `p`. */
  ghost predicate UpTo(ms: seq<Member>, p: nat)
    requires p < |ms|
  {
    forall i | 0 <= i <= p :: ms[i].hash <= ms[p].hash
  }

  lemma SortedUpTo(ms: seq<Member>, p: nat)
    requires SortedByHash(ms) && p < |ms|
    ensures UpTo(ms, p)
  {
  }

  /** The predecessor lies below in the list: nothing alive is in between. */
  lemma OwnerWithin(ms: seq<Member>, h: Hash, j: nat, p: nat)
    requires j < |ms| && ms[j].IsAlive() && p == LastAliveBelow(ms, j) && UpTo(ms, p)
    requires ms[p].hash < h <= ms[j].hash
    ensures j == PrimaryIndex(ms, h)
  {
    FirstIs(ms, h, j);
  }

  /** `j` is the first alive member and its range wraps around. */
  lemma OwnerWraps(ms: seq<Member>, h: Hash, j: nat, p: nat)
    requires j < |ms| && ms[j].IsAlive() && LastAliveBelow(ms, j) == -1
    requires p == LastAliveBelow(ms, |ms|) && UpTo(ms, p)
    requires h > ms[p].hash || h <= ms[j].hash
    ensures j == PrimaryIndex(ms, h)
  {
    if h <= ms[j].hash {
      FirstIs(ms, h, j);
    } else {
      NoneIs(ms, h);
      FirstIs(ms, 0, j);
    }
  }

  /** Two alive members with one hash: the later one claims the whole ring. */
  lemma CollisionOwnsAll(ms: seq<Member>, a: nat, b: nat) returns (k: nat)
    requires RingList(ms) && a < b < |ms|
    requires ms[a].IsAlive() && ms[b].IsAlive() && ms[a].hash == ms[b].hash
    ensures a < k <= b && forall h: Hash :: Owns(ms, k, h)
  {
    k := FirstAliveAtLeast(ms, 0, a + 1);
    NodeIndexAt(ms, k);
    assert PredecessorPos(ms, k) == a;
    assert ms[a].hash <= ms[k].hash <= ms[b].hash;
  }

  lemma RingPartition(ms: seq<Member>)
    requires RingList(ms) && HasAlive(ms)
    ensures DistinctAliveHashes(ms) <==> forall h: Hash :: SoleOwner(ms, PrimaryIndex(ms, h), h)
  {
    if DistinctAliveHashes(ms) {
      forall h: Hash ensures SoleOwner(ms, PrimaryIndex(ms, h), h) {
        PrimaryOwns(ms, h);
        forall k | Owns(ms, k, h) ensures k == PrimaryIndex(ms, h) {
          OwnerIsPrimary(ms, h, k);
        }
      }
    } else {
      var a, b :| 0 <= a < b < |ms| && ms[a].IsAlive() && ms[b].IsAlive() && ms[a].hash == ms[b].hash;
      var k := CollisionOwnsAll(ms, a, b);
      var h := ms[a].hash;
      assert Owns(ms, k, h) && PrimaryIndex(ms, h) <= a;
      assert !SoleOwner(ms, PrimaryIndex(ms, h), h);
    }
  }

  // ----- windows -----

  function DeadCount(ms: seq<Member>): nat {
    |ms| - |AliveOf(ms)|
  }

  lemma WindowDeadBound(ms: seq<Member>, p: nat, k: nat)
    requires p < |ms| && k <= |ms|
    ensures DeadCount(Window(ms, p, k)) <= DeadCount(ms)
  {
    AliveOfSplit(Rotation(ms, p), k);
    AliveOfConcat(ms[p..], ms[..p]);
    AliveOfSplit(ms, p);
  }

  lemma {:induction false} AliveOfAlive(ms: seq<Member>)
    requires AllAlive(ms)
    ensures AliveOf(ms) == ms
  {
    if ms != [] {
      var k := |ms| - 1;
      AliveOfAlive(ms[..k]);
      assert ms == ms[..k] + [ms[k]];
    }
  }

  lemma {:induction false} AliveOfUnique(ms: seq<Member>)
    requires UniqueIds(ms)
    ensures UniqueIds(AliveOf(ms))
  {
    if ms != [] {
      var k := |ms| - 1;
      AliveOfUnique(ms[..k]);
      forall m | m in AliveOf(ms[..k]) ensures m.id != ms[k].id {
        AliveOfMembers(ms[..k], m);
        var i :| 0 <= i < k && ms[i] == m;
      }
    }
  }

  lemma WindowUnique(ms: seq<Member>, p: nat, k: nat)
    requires UniqueIds(ms) && p < |ms| && k <= |ms|
    ensures UniqueIds(Window(ms, p, k))
  {
    var w := Window(ms, p, k);
    forall i, j | 0 <= i < j < k ensures w[i].id != w[j].id {
    }
  }

  // ----- client and re-replication agree -----

  /** The primary followed by the successors it replicates to. */
  function ReplicaGroup(ms: seq<Member>, h: Hash, rf: nat): seq<Member> {
    var p := PrimaryIndex(ms, h);
    if p == -1 then [] else [ms[p]] + Successors(ms, ms[p].id, rf)
  }

  lemma TargetsHead(ms: seq<Member>, h: Hash, rf: nat)
    requires rf >= 1 && PrimaryIndex(ms, h) >= 0
    ensures Targets(ms, h, rf) ==
            [ms[PrimaryIndex(ms, h)]] + AliveOf(Window(ms, PrimaryIndex(ms, h), rf)[1..])
  {
    var w := Window(ms, PrimaryIndex(ms, h), rf);
    AliveOfSplit(w, 1);
    AliveOfAlive(w[..1]);
  }

  lemma TakeKeepsPrefix<T>(a: seq<T>, b: seq<T>, k: nat)
    requires |a| <= k
    ensures a <= Take(a + b, k)
    ensures |a| == k ==> Take(a + b, k) == a
  {
  }

  lemma ClientReplicas(ms: seq<Member>, h: Hash, rf: nat)
    requires UniqueIds(ms) && HasAlive(ms) && 1 <= rf <= |ms|
    ensures Targets(ms, h, rf) <= ReplicaGroup(ms, h, rf)
    ensures |Targets(ms, h, rf)| >= rf - DeadCount(ms)
    ensures AllAlive(ms) ==> Targets(ms, h, rf) == ReplicaGroup(ms, h, rf) && |Targets(ms, h, rf)| == rf
  {
    PrimaryExists(ms, h);
    var p := PrimaryIndex(ms, h);
    NodeIndexAt(ms, p);
    TargetsHead(ms, h, rf);
    WindowDeadBound(ms, p, rf);
    SuccessorsExtendWindow(ms, p, rf);
  }

  lemma SuccessorsExtendWindow(ms: seq<Member>, p: nat, rf: nat)
    requires p < |ms| && 1 <= rf <= |ms|
    ensures AliveOf(Window(ms, p, rf)[1..]) <= SuccessorsAt(ms, p, rf)
    ensures AllAlive(ms) ==> AliveOf(Window(ms, p, rf)[1..]) == SuccessorsAt(ms, p, rf) == Window(ms, p, rf)[1..]
  {
    var rest := Rotation(ms, p)[1..];
    assert Window(ms, p, rf)[1..] == rest[..rf - 1];
    AliveOfSplit(rest, rf - 1);
    TakeKeepsPrefix(AliveOf(rest[..rf - 1]), AliveOf(rest[rf - 1..]), rf - 1);
    if AllAlive(ms) {
      RotationAlive(ms, p);
      AliveOfAlive(rest[..rf - 1]);
    }
  }

  lemma RotationAlive(ms: seq<Member>, p: nat)
    requires AllAlive(ms) && p < |ms|
    ensures AllAlive(Rotation(ms, p))
  {
  }

  /** Walking more than a full turn meets the primary again. */
  lemma TargetsRepeat(ms: seq<Member>, h: Hash, rf: nat)
    requires PrimaryIndex(ms, h) >= 0 && rf > |ms|
    ensures !UniqueIds(Targets(ms, h, rf))
  {
    var p := PrimaryIndex(ms, h);
    TargetsHead(ms, h, rf);
    var w := Window(ms, p, rf);
    assert w[1..][|ms| - 1] == w[|ms|] == ms[p];
    AliveOfMembers(w[1..], ms[p]);
    RepeatsFirst(ms[p], AliveOf(w[1..]));
  }

  lemma RepeatsFirst(m: Member, rest: seq<Member>)
    requires m in rest
    ensures !UniqueIds([m] + rest)
  {
    var i :| 0 <= i < |rest| && rest[i] == m;
    assert ([m] + rest)[0].id == ([m] + rest)[i + 1].id;
  }

  /** The client never names a replica twice exactly when the ring has RF members. */
  lemma TargetsDistinct(ms: seq<Member>, h: Hash, rf: nat)
    requires UniqueIds(ms) && HasAlive(ms) && rf >= 1
    ensures UniqueIds(Targets(ms, h, rf)) <==> rf <= |ms|
  {
    PrimaryExists(ms, h);
    if rf <= |ms| {
      WindowUnique(ms, PrimaryIndex(ms, h), rf);
      AliveOfUnique(Window(ms, PrimaryIndex(ms, h), rf));
    } else {
      TargetsRepeat(ms, h, rf);
    }
  }

  // ----- garbage collection -----

  function LowerBound(ms: seq<Member>, h: Hash, i: nat): (r: nat)
    requires i <= |ms|
    ensures i <= r <= |ms|
    ensures r < |ms| ==> ms[r].hash >= h
    ensures forall k | i <= k < r :: ms[k].hash < h
    decreases |ms| - i
  {
    if i == |ms| || ms[i].hash >= h then i else LowerBound(ms, h, i + 1)
  }

  /** The first list position at or above `h`, whatever its status, wrapping to 0. */
  function HomePos(ms: seq<Member>, h: Hash): (r: nat)
    requires ms != []
    ensures r < |ms|
  {
    var lb := LowerBound(ms, h, 0);
    if lb < |ms| then lb else 0
  }

  /** Steps forward from `a` to `b` on a ring of `n`. */
  function Offset(a: nat, b: nat, n: nat): (r: nat)
    requires a < n && b < n
    ensures r < n
  {
    if a <= b then b - a else b - a + n
  }

  /** Does the garbage collector of `id` keep a file with hash `h`? A crashed one deletes nothing. */
  predicate GcKeeps(ms: seq<Member>, id: NodeId, h: Hash, rf: nat) {
    var r := AllKeyRange(ms, id, rf);
    !r.Between? || IsHashInRange(h, r.range)
  }

  /** How many list positions the window really has: RF, but in a smaller ring RF modulo the ring size. */
  function GcWidth(rf: nat, n: nat): (w: nat)
    requires n > 0
    ensures 1 <= rf <= n ==> w == rf
    ensures 1 <= w <= n
  {
    if 1 <= rf <= n then rf
    else if rf % n == 0 then n
    else rf % n
  }

  /** Where the window starts, when the index is not negative: GcWidth positions before `j`. */
  lemma WindowStartIs(j: nat, rf: nat, n: nat)
    requires j < n && WindowStart(j, rf, n) >= 0
    ensures var a, w := WindowStart(j, rf, n), GcWidth(rf, n);
            a < n && a == if j < w then j - w + n else j - w
  {
    if j - rf + n >= 0 {
      ModBelow(j - rf + n, n);
      if rf > n {
        ModBelow(rf, n);
      } else if rf == 0 {
        ModBelow(j + n, n);
        ModBelow(0, n);
      }
    } else {
      CrashOnlyBetween(j, rf, n);
    }
  }

  /** A window that would start before the list crashes, unless it starts a whole number of turns before. */
  lemma CrashOnlyBetween(j: nat, rf: nat, n: nat)
    requires j < n && j - rf + n < 0 && WindowStart(j, rf, n) >= 0
    ensures WindowStart(j, rf, n) == 0 && rf % n == j
  {
    var q := (rf - j - n) / n;
    assert rf - j - n == q * n + 0;
    assert rf == (q + 1) * n + j;
    ModUnique(rf, n, q + 1, j);
  }

  /** The collector at position `j` indexes with a negative number exactly when RF exceeds the ring size by
      more than `j`, and not by `j` and whole turns. */
  lemma CollectorCrashes(j: nat, rf: nat, n: nat)
    requires j < n
    ensures WindowStart(j, rf, n) < 0 <==> rf > j + n && rf % n != j
  {
    if rf > j + n {
      if rf % n == j {
        assert rf == (rf / n) * n + j;
        assert rf - j - n == (rf / n - 1) * n + 0;
        assert rf / n != 0;
        ModUnique(rf - j - n, n, rf / n - 1, 0);
      } else if WindowStart(j, rf, n) >= 0 {
        CrashOnlyBetween(j, rf, n);
      }
    }
  }

  /** The window starts further down the list at the same hash, as with entries of a server that left and
      joined again: start and end coincide, and the collector takes its range for the whole ring. */
  predicate WholeRing(ms: seq<Member>, j: nat, rf: nat)
    requires j < |ms|
  {
    var a := WindowStart(j, rf, |ms|);
    0 <= a < j && ms[a].hash >= ms[j].hash
  }

  /** Unless its index is negative, a collector keeps exactly the hashes of its window, those whose home is
      fewer than GcWidth steps back; and everything if the window's ends carry one hash. */
  lemma GcWindow(ms: seq<Member>, j: nat, h: Hash, rf: nat)
    requires RingList(ms) && j < |ms|
    ensures WindowStart(j, rf, |ms|) >= 0 ==>
              (GcKeeps(ms, ms[j].id, h, rf) <==>
               WholeRing(ms, j, rf) || Offset(HomePos(ms, h), j, |ms|) < GcWidth(rf, |ms|))
    ensures rf <= |ms| ==> WindowStart(j, rf, |ms|) >= 0
    ensures DistinctHashes(ms) ==> !WholeRing(ms, j, rf)
  {
    NodeIndexAt(ms, j);
    if WindowStart(j, rf, |ms|) >= 0 {
      WindowStartIs(j, rf, |ms|);
      if !WholeRing(ms, j, rf) {
        RangeIsWindow(ms, WindowStart(j, rf, |ms|), j, h, GcWidth(rf, |ms|));
      }
    }
  }

  lemma RangeIsWindow(ms: seq<Member>, a: nat, j: nat, h: Hash, w: nat)
    requires RingList(ms) && a < |ms| && j < |ms| && 1 <= w <= |ms| && (a < j ==> ms[a].hash < ms[j].hash)
    requires a == if j < w then j - w + |ms| else j - w
    ensures IsHashInRange(h, Range(ms[a].hash, ms[j].hash)) <==> Offset(HomePos(ms, h), j, |ms|) < w
  {
    var lb := LowerBound(ms, h, 0);
    assert ms[j].hash >= h <==> lb <= j;
    assert ms[a].hash >= h <==> lb <= a;
    assert ms[a].hash < ms[j].hash <==> a < j;
  }

  /** With everybody alive the collector keeps exactly the files the member is a target of. */
  lemma GcExactWhenAllAlive(ms: seq<Member>, j: nat, h: Hash, rf: nat)
    requires RingList(ms) && AllAlive(ms) && j < |ms| && 1 <= rf <= |ms|
    ensures GcKeeps(ms, ms[j].id, h, rf) <==> WholeRing(ms, j, rf) || ms[j] in Targets(ms, h, rf)
  {
    GcWindow(ms, j, h, rf);
    TargetsAllAlive(ms, h, rf);
    WindowHolds(ms, HomePos(ms, h), rf, j);
  }

  lemma TargetsAllAlive(ms: seq<Member>, h: Hash, rf: nat)
    requires RingList(ms) && AllAlive(ms) && 1 <= rf <= |ms|
    ensures PrimaryIndex(ms, h) == HomePos(ms, h)
    ensures Targets(ms, h, rf) == Window(ms, HomePos(ms, h), rf)
  {
    HomeIsPrimary(ms, h);
    WindowAllAlive(ms, HomePos(ms, h), rf);
  }

  lemma HomeIsPrimary(ms: seq<Member>, h: Hash)
    requires AllAlive(ms) && ms != []
    ensures PrimaryIndex(ms, h) == HomePos(ms, h)
  {
    var lb, up := LowerBound(ms, h, 0), FirstAliveAtLeast(ms, h, 0);
    assert lb < |ms| ==> up <= lb;
    assert up < |ms| ==> lb <= up;
  }

  lemma WindowAllAlive(ms: seq<Member>, p: nat, k: nat)
    requires AllAlive(ms) && p < |ms| && k <= |ms|
    ensures AliveOf(Window(ms, p, k)) == Window(ms, p, k)
  {
    RotationAlive(ms, p);
    AliveOfAlive(Window(ms, p, k));
  }

  lemma WindowHolds(ms: seq<Member>, p: nat, k: nat, j: nat)
    requires UniqueIds(ms) && p < |ms| && j < |ms| && k <= |ms|
    ensures ms[j] in Window(ms, p, k) <==> Offset(p, j, |ms|) < k
  {
    var w, d := Window(ms, p, k), Offset(p, j, |ms|);
    if d < k {
      assert w[d] == ms[j];
    }
    if ms[j] in w {
      var i :| 0 <= i < k && w[i] == ms[j];
      assert i == d;
    }
  }

  // ----- fewer than RF failures -----

  /** Everything between a hash's home and its current primary is down. */
  lemma DeadBeforePrimary(ms: seq<Member>, h: Hash)
    requires RingList(ms) && HasAlive(ms)
    ensures PrimaryIndex(ms, h) >= 0
    ensures Offset(HomePos(ms, h), PrimaryIndex(ms, h), |ms|) <= DeadCount(ms)
  {
    PrimaryExists(ms, h);
    var q, p := HomePos(ms, h), PrimaryIndex(ms, h);
    var d := Offset(q, p, |ms|);
    forall i | 0 <= i < d ensures !Window(ms, q, d)[i].IsAlive() {
      SkippedIsDead(ms, h, i);
    }
    AllDead(Window(ms, q, d));
    WindowDeadBound(ms, q, d);
  }

  lemma SkippedIsDead(ms: seq<Member>, h: Hash, i: nat)
    requires RingList(ms) && PrimaryIndex(ms, h) >= 0
    requires i < Offset(HomePos(ms, h), PrimaryIndex(ms, h), |ms|)
    ensures var q := HomePos(ms, h);
            !(if q + i < |ms| then ms[q + i] else ms[q + i - |ms|]).IsAlive()
  {
  }

  lemma {:induction false} AllDead(ms: seq<Member>)
    requires forall i | 0 <= i < |ms| :: !ms[i].IsAlive()
    ensures AliveOf(ms) == []
  {
    if ms != [] {
      AllDead(ms[..|ms| - 1]);
    }
  }

  /** A file's primary never deletes it while fewer than RF members are down. */
  lemma GcSparesPrimary(ms: seq<Member>, h: Hash, rf: nat)
    requires RingList(ms) && HasAlive(ms) && 1 <= rf <= |ms| && DeadCount(ms) < rf
    ensures PrimaryIndex(ms, h) >= 0 && GcKeeps(ms, ms[PrimaryIndex(ms, h)].id, h, rf)
  {
    DeadBeforePrimary(ms, h);
    GcWindow(ms, PrimaryIndex(ms, h), h, rf);
  }

  /** The collector ignores liveness, so a current target keeps the file exactly when it still lies
      in the window that starts at the file's home position. */
  lemma GcKeepsTarget(ms: seq<Member>, h: Hash, rf: nat, j: nat)
    requires RingList(ms) && j < |ms| && 1 <= rf <= |ms| && ms[j] in Targets(ms, h, rf)
    ensures GcKeeps(ms, ms[j].id, h, rf) <==> WholeRing(ms, j, rf) || ms[j] in Window(ms, HomePos(ms, h), rf)
  {
    GcWindow(ms, j, h, rf);
    WindowHolds(ms, HomePos(ms, h), rf, j);
  }

  /** Same ring, other statuses. */
  ghost predicate SameRing(ms: seq<Member>, ms': seq<Member>) {
    |ms'| == |ms| && forall i | 0 <= i < |ms| :: ms'[i].id == ms[i].id && ms'[i].hash == ms[i].hash
  }

  lemma HomeIgnoresStatus(ms: seq<Member>, ms': seq<Member>, h: Hash)
    requires SameRing(ms, ms') && ms != []
    ensures HomePos(ms', h) == HomePos(ms, h)
  {
    var a, b := LowerBound(ms, h, 0), LowerBound(ms', h, 0);
    assert a < |ms| ==> ms'[a].hash == ms[a].hash;
    assert b < |ms| ==> ms'[b].hash == ms[b].hash;
  }

  /** The same ring after further members went down. */
  ghost predicate Fails(ms: seq<Member>, ms': seq<Member>) {
    SameRing(ms, ms') && forall i | 0 <= i < |ms| :: ms'[i].IsAlive() ==> ms[i].IsAlive()
  }

  /** Of the alive members the primary is the nearest to the hash's home. */
  lemma PrimaryIsNearest(ms: seq<Member>, h: Hash, j: nat)
    requires RingList(ms) && j < |ms| && ms[j].IsAlive()
    ensures PrimaryIndex(ms, h) >= 0
    ensures var q, p := HomePos(ms, h), PrimaryIndex(ms, h);
            Offset(p, j, |ms|) <= Offset(q, j, |ms|)
  {
    PrimaryExists(ms, h);
    var q, p := HomePos(ms, h), PrimaryIndex(ms, h);
    if Offset(q, j, |ms|) < Offset(q, p, |ms|) {
      SkippedIsDead(ms, h, Offset(q, j, |ms|));
    }
  }

  /** While fewer than RF members are down, the primary after further failures was a target before. */
  lemma NewPrimaryWasTarget(ms: seq<Member>, ms': seq<Member>, h: Hash, rf: nat)
    requires RingList(ms) && 1 <= rf <= |ms| && Fails(ms, ms') && DeadCount(ms') < rf
    ensures RingList(ms') && HasAlive(ms')
    ensures PrimaryIndex(ms', h) >= 0 && ms[PrimaryIndex(ms', h)] in Targets(ms, h, rf)
  {
    if !HasAlive(ms') {
      AllDead(ms');
      assert false;
    }
    DeadBeforePrimary(ms', h);
    HomeIgnoresStatus(ms, ms', h);
    var j := PrimaryIndex(ms', h);
    PrimaryIsNearest(ms, h, j);
    WindowHolds(ms, PrimaryIndex(ms, h), rf, j);
    AliveOfMembers(Window(ms, PrimaryIndex(ms, h), rf), ms[j]);
  }
}
