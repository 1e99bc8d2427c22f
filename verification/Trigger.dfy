/** `handleReplicationWindowChange` starts stabilization exactly when the change is visible in the
    node's own view of the ring. */
module Trigger {
  import opened Cyclic
  import opened Members
  import opened Ring
  import opened Placement

  // ----- a dead entry and no entry look the same -----

  function Without(ms: seq<Member>, c: nat): seq<Member>
    requires c < |ms|
  {
    ms[..c] + ms[c + 1..]
  }

  lemma AliveOfDrop(ms: seq<Member>, c: nat)
    requires c < |ms| && !ms[c].IsAlive()
    ensures AliveOf(Without(ms, c)) == AliveOf(ms)
  {
    assert ms == ms[..c] + [ms[c]] + ms[c + 1..];
    AliveOfSkip(ms[..c], ms[c], ms[c + 1..]);
  }

  lemma AliveOfSkip(a: seq<Member>, m: Member, b: seq<Member>)
    requires !m.IsAlive()
    ensures AliveOf(a + [m] + b) == AliveOf(a + b)
  {
    AliveOfConcat(a + [m], b);
    AliveOfConcat(a, [m]);
    AliveOfConcat(a, b);
    AllDead([m]);
  }

  lemma SuccessorsIgnoreDead(ms: seq<Member>, i: nat, c: nat, rf: nat)
    requires UniqueIds(ms) && i < |ms| && c < |ms| && i != c && rf >= 1 && !ms[c].IsAlive()
    ensures Successors(Without(ms, c), ms[i].id, rf) == Successors(ms, ms[i].id, rf)
  {
    var gone := Without(ms, c);
    var i' := Shift(i, c);
    WithoutUnique(ms, c);
    assert gone[i'] == ms[i];
    NodeIndexAt(ms, i);
    NodeIndexAt(gone, i');
    RotationWithout(ms, i, c);
    AliveOfDrop(Rotation(ms, i)[1..], Offset(i, c, |ms|) - 1);
  }

  lemma RotationWithout(ms: seq<Member>, i: nat, c: nat)
    requires i < |ms| && c < |ms| && i != c
    ensures Rotation(Without(ms, c), Shift(i, c))[1..] == Without(Rotation(ms, i)[1..], Offset(i, c, |ms|) - 1)
    ensures Rotation(ms, i)[1..][Offset(i, c, |ms|) - 1] == ms[c]
  {
    if i < c {
      RestAround(ms, i, c, ms[i + 1..c], ms[c + 1..] + ms[..i]);
      GoneAhead(ms, i, c);
    } else {
      RestAround(ms, i, c, ms[i + 1..] + ms[..c], ms[c + 1..i]);
      GoneBehind(ms, i, c);
    }
  }

  /** The walk after `i`, split at `c`. */
  lemma RestAround(ms: seq<Member>, i: nat, c: nat, p: seq<Member>, q: seq<Member>)
    requires i < |ms| && c < |ms| && i != c
    requires i < c ==> p == ms[i + 1..c] && q == ms[c + 1..] + ms[..i]
    requires c < i ==> p == ms[i + 1..] + ms[..c] && q == ms[c + 1..i]
    ensures var rest := Rotation(ms, i)[1..];
            |p| == Offset(i, c, |ms|) - 1 < |rest| && rest[|p|] == ms[c] && Without(rest, |p|) == p + q
  {
    var rest := Rotation(ms, i)[1..];
    assert rest[..|p|] == p;
    assert rest[|p| + 1..] == q;
  }

  lemma GoneAhead(ms: seq<Member>, i: nat, c: nat)
    requires i < c < |ms|
    ensures Rotation(Without(ms, c), i)[1..] == ms[i + 1..c] + (ms[c + 1..] + ms[..i])
  {
    var gone := Without(ms, c);
    assert gone[i..][1..] == ms[i + 1..c] + ms[c + 1..] && gone[..i] == ms[..i];
  }

  lemma GoneBehind(ms: seq<Member>, i: nat, c: nat)
    requires c < i < |ms|
    ensures Rotation(Without(ms, c), i - 1)[1..] == (ms[i + 1..] + ms[..c]) + ms[c + 1..i]
  {
    var gone := Without(ms, c);
    assert gone[i - 1..][1..] == ms[i + 1..] && gone[..i - 1] == ms[..c] + ms[c + 1..i];
  }

  /** An alive position below `i` is still alive below `i` once `c` is cut out. */
  lemma AliveMovesDown(ms: seq<Member>, i: nat, c: nat, k: nat)
    requires i <= |ms| && c < |ms| && k < i && k != c && ms[k].IsAlive()
    ensures var gone, i' := Without(ms, c), if c < i then i - 1 else i;
            0 <= Shift(k, c) < i' <= |gone| && gone[Shift(k, c)] == ms[k] && LastAliveBelow(gone, i') >= Shift(k, c)
  {
    WithoutIndex(ms, c);
  }

  /** And back. */
  lemma AliveMovesUp(ms: seq<Member>, i: nat, c: nat, k: nat)
    requires i <= |ms| && c < |ms| && k < (if c < i then i - 1 else i) && Without(ms, c)[k].IsAlive()
    ensures var k' := if c <= k then k + 1 else k;
            k' < i && k' != c && Shift(k', c) == k && ms[k'] == Without(ms, c)[k] && LastAliveBelow(ms, i) >= k'
  {
  }

  lemma LastAliveIgnoresDead(ms: seq<Member>, i: nat, c: nat)
    requires i <= |ms| && c < |ms| && !ms[c].IsAlive()
    ensures var a, b := LastAliveBelow(ms, i), LastAliveBelow(Without(ms, c), if c < i then i - 1 else i);
            (a >= 0 <==> b >= 0) && (a >= 0 ==> ms[a] == Without(ms, c)[b])
  {
    var a, b := LastAliveBelow(ms, i), LastAliveBelow(Without(ms, c), if c < i then i - 1 else i);
    if a >= 0 {
      AliveMovesDown(ms, i, c, a);
    }
    if b >= 0 {
      AliveMovesUp(ms, i, c, b);
    }
  }

  /** Where position `k` moves when position `c` is cut out. */
  function Shift(k: int, c: int): int { if c < k then k - 1 else k }

  lemma WithoutIndex(ms: seq<Member>, c: nat)
    requires c < |ms|
    ensures forall k {:trigger Shift(k, c)} | 0 <= k < |ms| && k != c :: Without(ms, c)[Shift(k, c)] == ms[k]
  {
  }

  lemma WithoutUnique(ms: seq<Member>, c: nat)
    requires UniqueIds(ms) && c < |ms|
    ensures UniqueIds(Without(ms, c))
  {
  }

  lemma PredecessorIgnoresDead(ms: seq<Member>, i: nat, c: nat)
    requires i < |ms| && c < |ms| && i != c && !ms[c].IsAlive()
    ensures var a, b := PredecessorPos(ms, i), PredecessorPos(Without(ms, c), Shift(i, c));
            (a >= 0 <==> b >= 0) && (a >= 0 ==> ms[a] == Without(ms, c)[b])
  {
    LastAliveIgnoresDead(ms, i, c);
    LastAliveIgnoresDead(ms, |ms|, c);
  }

  lemma RangeIgnoresDead(ms: seq<Member>, i: nat, c: nat)
    requires UniqueIds(ms) && i < |ms| && c < |ms| && i != c && !ms[c].IsAlive()
    ensures PrimaryRange(Without(ms, c), ms[i].id) == PrimaryRange(ms, ms[i].id)
  {
    WithoutIndex(ms, c);
    WithoutUnique(ms, c);
    assert Without(ms, c)[Shift(i, c)] == ms[i];
    NodeIndexAt(ms, i);
    NodeIndexAt(Without(ms, c), Shift(i, c));
    PredecessorIgnoresDead(ms, i, c);
  }

  // ----- what changes when c goes down -----

  /** The trigger, in steps around the ring. */
  lemma TriggerDistance(ms: seq<Member>, i: nat, c: nat, rf: nat)
    requires UniqueIds(ms) && i < |ms| && c < |ms| && i != c && rf >= 2
    ensures Triggers(ms, ms[i].id, ms[c].id, rf) <==>
            Offset(i, c, |ms|) < rf || Offset(i, c, |ms|) == |ms| - 1
  {
    NodeIndexAt(ms, i);
    NodeIndexAt(ms, c);
    var n, d := |ms|, Offset(i, c, |ms|);
    ModBelow(i - 1 + n, n);
    ModBelow(i + d, n);
    if d < rf {
      assert Touches(i, d, c, n);
    }
    if d == n - 1 {
      assert Touches(i, 1, c, n);
    }
    if Triggers(ms, ms[i].id, ms[c].id, rf) {
      var k :| 1 <= k < rf && Touches(i, k, c, n);
      if k < n {
        ModBelow(i + k, n);
      }
    }
  }

  // ----- the walk around the ring, in alive members -----

  /** The alive members met walking from position `i` to position `c`. */
  function Ahead(ms: seq<Member>, i: nat, c: nat): seq<Member>
    requires i < |ms| && c < |ms| && i != c
  {
    AliveOf(Rotation(ms, i)[1..][..Offset(i, c, |ms|) - 1])
  }

  /** The alive members met walking on from `c` until `i` comes round again. */
  function Behind(ms: seq<Member>, i: nat, c: nat): seq<Member>
    requires i < |ms| && c < |ms| && i != c
  {
    AliveOf(Rotation(ms, i)[1..][Offset(i, c, |ms|)..])
  }

  function IfAlive(m: Member): seq<Member> {
    if m.IsAlive() then [m] else []
  }

  lemma AliveOfThree(a: seq<Member>, m: Member, b: seq<Member>)
    ensures AliveOf(a + [m] + b) == AliveOf(a) + IfAlive(m) + AliveOf(b)
  {
    AliveOfConcat(a + [m], b);
    AliveOfConcat(a, [m]);
    assert AliveOf([m]) == IfAlive(m) by { assert [m][..0] == []; }
  }

  /** What `i` sees after itself, with the entry `m` at position `c`. */
  lemma WalkSplit(ms: seq<Member>, i: nat, c: nat, m: Member)
    requires UniqueIds(ms) && i < |ms| && c < |ms| && i != c
    ensures AliveOf(Rotation(ms[c := m], i)[1..]) == Ahead(ms, i, c) + IfAlive(m) + Behind(ms, i, c)
  {
    var rest, k := Rotation(ms, i)[1..], Offset(i, c, |ms|) - 1;
    RotationUpdate(ms, i, c, m);
    assert rest[k := m] == rest[..k] + [m] + rest[k + 1..];
    AliveOfThree(rest[..k], m, rest[k + 1..]);
  }

  lemma RotationUpdate(ms: seq<Member>, i: nat, c: nat, m: Member)
    requires UniqueIds(ms) && i < |ms| && c < |ms| && i != c
    ensures Rotation(ms[c := m], i)[1..] == Rotation(ms, i)[1..][Offset(i, c, |ms|) - 1 := m]
    ensures UniqueIds(Rotation(ms, i)[1..])
  {
  }

  lemma SuccessorsAre(ms: seq<Member>, i: nat, rf: nat)
    requires UniqueIds(ms) && i < |ms| && rf >= 1
    ensures Successors(ms, ms[i].id, rf) == Take(AliveOf(Rotation(ms, i)[1..]), rf - 1)
  {
    NodeIndexAt(ms, i);
  }

  lemma DownUnique(ms: seq<Member>, c: nat, down: Member)
    requires UniqueIds(ms) && c < |ms| && down.id == ms[c].id
    ensures UniqueIds(ms[c := down])
  {
  }

  lemma SkipVisible(s: seq<Member>, k: nat, n: nat)
    requires UniqueIds(s) && k < |s|
    ensures Take(Without(s, k), n) != Take(s, n) <==> k < n
  {
    if k < n {
      assert Take(s, n)[k] == s[k];
      assert s[k] !in Without(s, k);
      assert k < |Take(Without(s, k), n)| ==> Take(Without(s, k), n)[k] in Without(s, k);
    } else {
      assert Take(Without(s, k), n) == s[..n];
    }
  }

  /** The successor list changes exactly when fewer than RF-1 alive members lie before `c`. */
  lemma SuccessorsChange(ms: seq<Member>, i: nat, c: nat, down: Member, rf: nat)
    requires UniqueIds(ms) && i < |ms| && c < |ms| && i != c && rf >= 2
    requires ms[c].IsAlive() && !down.IsAlive() && down.id == ms[c].id
    ensures Successors(ms[c := down], ms[i].id, rf) != Successors(ms, ms[i].id, rf)
            <==> |Ahead(ms, i, c)| < rf - 1
  {
    SuccessorsAre(ms, i, rf);
    DownUnique(ms, c, down);
    SuccessorsAre(ms[c := down], i, rf);
    WalkSplit(ms, i, c, down);
    WalkNow(ms, i, c);
    WalkUnique(ms, i, c);
    TakeShows(Ahead(ms, i, c), ms[c], Behind(ms, i, c), rf - 1);
  }

  lemma WalkNow(ms: seq<Member>, i: nat, c: nat)
    requires UniqueIds(ms) && i < |ms| && c < |ms| && i != c
    ensures AliveOf(Rotation(ms, i)[1..]) == Ahead(ms, i, c) + IfAlive(ms[c]) + Behind(ms, i, c)
  {
    WalkSplit(ms, i, c, ms[c]);
    assert ms[c := ms[c]] == ms;
  }

  lemma TakeShows(a: seq<Member>, m: Member, b: seq<Member>, n: nat)
    requires UniqueIds(a + [m] + b)
    ensures Take(a + [] + b, n) != Take(a + [m] + b, n) <==> |a| < n
  {
    var s := a + [m] + b;
    assert s[..|a|] == a && s[|a| + 1..] == b;
    assert a + [] + b == Without(s, |a|);
    SkipVisible(s, |a|, n);
  }

  lemma WalkUnique(ms: seq<Member>, i: nat, c: nat)
    requires UniqueIds(ms) && i < |ms| && c < |ms| && i != c && ms[c].IsAlive()
    ensures UniqueIds(Ahead(ms, i, c) + [ms[c]] + Behind(ms, i, c))
  {
    RotationUpdate(ms, i, c, ms[c]);
    AliveOfUnique(Rotation(ms, i)[1..]);
    WalkNow(ms, i, c);
  }

  // ----- the range in alive members -----

  /** The range up to `end` from the last of these. */
  function RangeFrom(alive: seq<Member>, end: Hash): Option<Range> {
    if alive == [] then None else Some(Range(alive[|alive| - 1].hash, end))
  }

  lemma {:induction false} LastAliveIs(ms: seq<Member>, i: nat)
    requires i <= |ms|
    ensures LastAliveBelow(ms, i) == -1 <==> AliveOf(ms[..i]) == []
    ensures var k, a := LastAliveBelow(ms, i), AliveOf(ms[..i]);
            k >= 0 ==> a != [] && a[|a| - 1] == ms[k]
  {
    if i > 0 {
      assert ms[..i][..i - 1] == ms[..i - 1];
      LastAliveIs(ms, i - 1);
    }
  }

  /** The range starts at the last alive member of a full turn that begins with the node itself. */
  lemma PrimaryRangeIs(ms: seq<Member>, i: nat)
    requires UniqueIds(ms) && i < |ms|
    ensures PrimaryRange(ms, ms[i].id) == RangeFrom(AliveOf(Rotation(ms, i)), ms[i].hash)
  {
    NodeIndexAt(ms, i);
    LastAliveIs(ms, i);
    LastAliveIs(ms, |ms|);
    assert ms[..|ms|] == ms;
    AliveOfTurn(ms, i);
  }

  lemma AliveOfTurn(ms: seq<Member>, i: nat)
    requires i < |ms|
    ensures var below, turn := AliveOf(ms[..i]), AliveOf(Rotation(ms, i));
            if below == [] then turn == AliveOf(ms)
            else turn != [] && turn[|turn| - 1] == below[|below| - 1]
  {
    AliveOfConcat(ms[i..], ms[..i]);
    AliveOfSplit(ms, i);
  }

  lemma TurnSplit(ms: seq<Member>, i: nat, c: nat, m: Member)
    requires UniqueIds(ms) && i < |ms| && c < |ms| && i != c
    ensures AliveOf(Rotation(ms[c := m], i)) ==
            IfAlive(ms[i]) + (Ahead(ms, i, c) + IfAlive(m) + Behind(ms, i, c))
  {
    AliveOfHead(Rotation(ms[c := m], i));
    WalkSplit(ms, i, c, m);
  }

  lemma AliveOfHead(s: seq<Member>)
    requires s != []
    ensures AliveOf(s) == IfAlive(s[0]) + AliveOf(s[1..])
  {
    assert s == [s[0]] + s[1..];
    AliveOfConcat([s[0]], s[1..]);
    assert [s[0]][..0] == [];
  }

  lemma TurnNow(ms: seq<Member>, i: nat, c: nat)
    requires UniqueIds(ms) && i < |ms| && c < |ms| && i != c
    ensures AliveOf(Rotation(ms, i)) == IfAlive(ms[i]) + (Ahead(ms, i, c) + IfAlive(ms[c]) + Behind(ms, i, c))
  {
    TurnSplit(ms, i, c, ms[c]);
    assert ms[c := ms[c]] == ms;
  }

  /** Before `c` in the turn there are only other alive members, with other hashes. */
  lemma OtherHashes(ms: seq<Member>, i: nat, c: nat)
    requires UniqueIds(ms) && DistinctAliveHashes(ms) && i < |ms| && c < |ms| && i != c && ms[c].IsAlive()
    ensures forall m | m in IfAlive(ms[i]) || m in Ahead(ms, i, c) :: m.hash != ms[c].hash
  {
    var rest, d := Rotation(ms, i)[1..], Offset(i, c, |ms|);
    forall m | m in IfAlive(ms[i]) || m in Ahead(ms, i, c) ensures m.hash != ms[c].hash {
      if m in Ahead(ms, i, c) {
        AliveOfMembers(rest[..d - 1], m);
        var k :| 0 <= k < d - 1 && rest[k] == m;
        AheadOther(ms, i, c, k);
      }
    }
  }

  lemma AheadOther(ms: seq<Member>, i: nat, c: nat, k: nat)
    requires i < |ms| && c < |ms| && i != c && k < Offset(i, c, |ms|) - 1
    ensures exists j: nat :: j < |ms| && j != c && ms[j] == Rotation(ms, i)[1..][k]
  {
    var j := if i + 1 + k < |ms| then i + 1 + k else i + 1 + k - |ms|;
    assert ms[j] == Rotation(ms, i)[1..][k];
  }

  /** The range changes exactly when no alive member lies between `c` and the node. */
  lemma RangeChange(ms: seq<Member>, i: nat, c: nat, down: Member)
    requires UniqueIds(ms) && DistinctAliveHashes(ms) && i < |ms| && c < |ms| && i != c
    requires ms[c].IsAlive() && !down.IsAlive() && down.id == ms[c].id
    ensures PrimaryRange(ms[c := down], ms[i].id) != PrimaryRange(ms, ms[i].id) <==> Behind(ms, i, c) == []
  {
    PrimaryRangeIs(ms, i);
    DownUnique(ms, c, down);
    PrimaryRangeIs(ms[c := down], i);
    TurnSplit(ms, i, c, down);
    TurnNow(ms, i, c);
    OtherHashes(ms, i, c);
    LastDecides(IfAlive(ms[i]), Ahead(ms, i, c), ms[c], Behind(ms, i, c), ms[i].hash);
  }

  lemma LastDecides(x: seq<Member>, a: seq<Member>, m: Member, b: seq<Member>, end: Hash)
    requires forall y | y in x || y in a :: y.hash != m.hash
    ensures RangeFrom(x + (a + [] + b), end) != RangeFrom(x + (a + [m] + b), end) <==> b == []
  {
    if b == [] {
      assert a + [] + b == a;
      LastOf(x, a);
    }
  }

  lemma LastOf(x: seq<Member>, a: seq<Member>)
    ensures x + a != [] ==> (x + a)[|x + a| - 1] in x || (x + a)[|x + a| - 1] in a
  {
  }

  // ----- the trigger against the change -----

  /** The failure or return of the member at `c` shows in the node's own view. */
  predicate Visible(ms: seq<Member>, ms': seq<Member>, id: NodeId, rf: nat) {
    Successors(ms', id, rf) != Successors(ms, id, rf) || PrimaryRange(ms', id) != PrimaryRange(ms, id)
  }

  /** RF or more list positions ahead and not the one before, yet with fewer than RF-1 alive members ahead
      of it or none behind it: dead entries still listed in between hide the change from the trigger. */
  predicate Missed(ms: seq<Member>, i: nat, c: nat, rf: nat)
    requires i < |ms| && c < |ms| && i != c
  {
    rf <= Offset(i, c, |ms|) < |ms| - 1 && (|Ahead(ms, i, c)| < rf - 1 || Behind(ms, i, c) == [])
  }

  /** For every liveness pattern: the trigger fires only for changes in the node's own view, and for all of
      them exactly when none is Missed; with everybody alive none is. It does not matter whether the
      member is listed as dead or not at all, nor whether it fails or joins. */
  lemma TriggerExact(ms: seq<Member>, i: nat, c: nat, down: Member, rf: nat)
    requires UniqueIds(ms) && DistinctAliveHashes(ms) && i < |ms| && c < |ms| && i != c && rf >= 2
    requires ms[c].IsAlive() && !down.IsAlive() && down.id == ms[c].id
    ensures var fires, seen := Triggers(ms, ms[i].id, ms[c].id, rf), Visible(ms, ms[c := down], ms[i].id, rf);
            (fires ==> seen) && (seen && !fires <==> Missed(ms, i, c, rf))
    ensures Visible(ms, Without(ms, c), ms[i].id, rf) <==> Visible(ms, ms[c := down], ms[i].id, rf)
    ensures AllAlive(ms) ==> !Missed(ms, i, c, rf)
  {
    TriggerDistance(ms, i, c, rf);
    SuccessorsChange(ms, i, c, down, rf);
    RangeChange(ms, i, c, down);
    CloseIsVisible(ms, i, c);
    DownUnique(ms, c, down);
    SuccessorsIgnoreDead(ms[c := down], i, c, rf);
    RangeIgnoresDead(ms[c := down], i, c);
    assert Without(ms[c := down], c) == Without(ms, c);
    if AllAlive(ms) {
      AliveWalk(ms, i, c);
    }
  }

  /** There are at most as many alive members as positions. */
  lemma CloseIsVisible(ms: seq<Member>, i: nat, c: nat)
    requires i < |ms| && c < |ms| && i != c
    ensures |Ahead(ms, i, c)| <= Offset(i, c, |ms|) - 1
    ensures |Behind(ms, i, c)| <= |ms| - 1 - Offset(i, c, |ms|)
  {
  }

  lemma AliveWalk(ms: seq<Member>, i: nat, c: nat)
    requires AllAlive(ms) && i < |ms| && c < |ms| && i != c
    ensures |Ahead(ms, i, c)| == Offset(i, c, |ms|) - 1
    ensures |Behind(ms, i, c)| == |ms| - 1 - Offset(i, c, |ms|)
  {
    var rest, d := Rotation(ms, i)[1..], Offset(i, c, |ms|);
    RotationAlive(ms, i);
    AliveOfAlive(rest[..d - 1]);
    AliveOfAlive(rest[d..]);
  }

  /** Five members, RF 3, the second one dead: when the fourth fails, the first one's successor list changes
      and its trigger stays silent. */
  lemma TriggerMisses(ids: seq<NodeId>)
    requires |ids| == 5 && forall i, j | 0 <= i < j < 5 :: ids[i] != ids[j]
    ensures var ms := seq(5, i requires 0 <= i < 5 =>
                            Member(ids[i], if i == 1 then Dead else Alive, 1, 1, 0, 10 * i));
            var ms' := ms[3 := ms[3].MarkDead(0)];
            Successors(ms', ids[0], 3) != Successors(ms, ids[0], 3) && !Triggers(ms', ids[0], ids[3], 3)
  {
    var ms := seq(5, i requires 0 <= i < 5 => Member(ids[i], if i == 1 then Dead else Alive, 1, 1, 0, 10 * i));
    var ms' := ms[3 := ms[3].MarkDead(0)];
    AheadOfFourth(ms);
    SuccessorsChange(ms, 0, 3, ms'[3], 3);
    DownUnique(ms, 3, ms'[3]);
    TriggerDistance(ms', 0, 3, 3);
  }

  lemma AheadOfFourth(ms: seq<Member>)
    requires |ms| == 5 && !ms[1].IsAlive() && ms[2].IsAlive()
    ensures |Ahead(ms, 0, 3)| == 1
  {
    var walk := Rotation(ms, 0)[1..][..2];
    assert walk == [] + [ms[1]] + [ms[2]];
    AliveOfThree([], ms[1], [ms[2]]);
    AliveOfThree([], ms[2], []);
    assert [] + [ms[2]] + [] == [ms[2]];
  }
}
