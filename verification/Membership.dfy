/** The membership list: a slice sorted by hash that stands for a map from IDs to members. */
module Membership {
  import opened Members

  datatype Protocol = GossipProtocol | PingAckProtocol

  datatype Suspicion = WithSuspicion | NoSuspicion

  datatype Config = Config(protocol: Protocol, suspicion: Suspicion)

  datatype Timeouts = Timeouts(suspicion: int, dead: int, cleanUp: int)

  type View = map<NodeId, Member>

  /** Every entry is filed under its own ID. */
  ghost predicate Keyed(v: View) {
    forall id | id in v :: v[id].id == id
  }

  // ----- the map a list stands for -----

  function Contents(ms: seq<Member>): View {
    if ms == [] then map[] else Contents(ms[..|ms| - 1])[ms[|ms| - 1].id := ms[|ms| - 1]]
  }

  ghost predicate Represents(v: View, ms: seq<Member>) {
    (forall m | m in ms :: m.id in v && v[m.id] == m) &&
    (forall id | id in v :: v[id] in ms && v[id].id == id)
  }

  lemma {:induction false} ContentsRepresents(ms: seq<Member>)
    requires UniqueIds(ms)
    ensures Represents(Contents(ms), ms)
  {
    if ms != [] {
      var k := |ms| - 1;
      var v := Contents(ms[..k]);
      ContentsRepresents(ms[..k]);
      assert ms == ms[..k] + [ms[k]];
      forall m | m in ms[..k] ensures m.id != ms[k].id {
        var i :| 0 <= i < k && ms[i] == m;
      }
    }
  }

  lemma RepresentsUnique(v: View, w: View, ms: seq<Member>)
    requires Represents(v, ms) && Represents(w, ms)
    ensures v == w
  {
  }

  lemma FromEntries(v: View, ms: seq<Member>)
    requires UniqueIds(ms) && Represents(v, ms)
    ensures Contents(ms) == v
  {
    ContentsRepresents(ms);
    RepresentsUnique(Contents(ms), v, ms);
  }

  /** Lists with the same entries stand for the same map. */
  lemma SameEntries(a: seq<Member>, b: seq<Member>)
    requires UniqueIds(a) && UniqueIds(b) && forall m :: m in a <==> m in b
    ensures Contents(a) == Contents(b)
  {
    ContentsRepresents(a);
    ContentsRepresents(b);
    RepresentsUnique(Contents(a), Contents(b), a);
  }

  lemma SomeEntry(ms: seq<Member>)
    ensures ms == [] || exists m :: m in ms
  {
    assert ms != [] ==> ms[0] in ms;
  }

  /** With distinct hashes the map determines the list: nodes that agree on members agree on the ring. */
  lemma {:induction false} ListDetermined(a: seq<Member>, b: seq<Member>)
    requires SortedByHash(a) && SortedByHash(b) && DistinctHashes(a) && DistinctHashes(b)
    requires forall m :: m in a <==> m in b
    ensures a == b
  {
    if a == [] {
      SomeEntry(b);
    } else {
      assert a[0] in b;
      assert b[0] in a;
      var j :| 0 <= j < |b| && b[j] == a[0];
      var i :| 0 <= i < |a| && a[i] == b[0];
      assert a[0] == b[0];
      forall m ensures m in a[1..] <==> m in b[1..] {
        if m in a[1..] {
          var k :| 1 <= k < |a| && a[k] == m;
          assert m in a && m != a[0];
        }
        if m in b[1..] {
          var k :| 1 <= k < |b| && b[k] == m;
          assert m in b && m != b[0];
        }
      }
      ListDetermined(a[1..], b[1..]);
    }
  }

  // ----- sorting -----

  function InsertByHash(ms: seq<Member>, m: Member): (r: seq<Member>)
    ensures forall x :: x in r <==> x in ms || x == m
    ensures |r| == |ms| + 1
  {
    if ms == [] || m.hash <= ms[0].hash then [m] + ms
    else
      assert forall x :: x in ms <==> x == ms[0] || x in ms[1..];
      [ms[0]] + InsertByHash(ms[1..], m)
  }

  lemma {:induction false} InsertByHashKeeps(ms: seq<Member>, m: Member)
    requires RingList(ms) && forall i | 0 <= i < |ms| :: ms[i].id != m.id
    ensures RingList(InsertByHash(ms, m))
  {
    if !(ms == [] || m.hash <= ms[0].hash) {
      var r := InsertByHash(ms[1..], m);
      InsertByHashKeeps(ms[1..], m);
      forall i | 0 <= i < |r| ensures ms[0].hash <= r[i].hash && ms[0].id != r[i].id {
        assert r[i] in r;
        assert r[i] in ms[1..] || r[i] == m;
      }
    }
  }

  // ----- one sweep of the failure detector -----

  /** What the sweep does to one member; None removes it. */
  function SweepOne(cfg: Config, t: Timeouts, now: int, self: string, m: Member): (r: Option<Member>)
    ensures r.Some? ==> r.value.id == m.id && r.value.hash == m.hash && r.value.incarnation == m.incarnation
    ensures r.Some? ==> r.value.heartbeat == m.heartbeat
  {
    if cfg.protocol == PingAckProtocol && m.id.address == self then Some(m)
    else
      var elapsed := now - m.lastUpdated;
      match m.status
      case Alive =>
        if elapsed <= t.suspicion then Some(m)
        else if cfg.suspicion == WithSuspicion then Some(m.MarkSuspect(now))
        else if elapsed > t.dead then Some(m.MarkDead(now)) else Some(m)
      case Suspect => if elapsed > t.dead then Some(m.MarkDead(now)) else Some(m)
      case Dead => if elapsed > t.cleanUp then None else Some(m)
      case VoluntaryLeave => Some(m)
  }

  function SweepMap(cfg: Config, t: Timeouts, now: int, self: string, v: View): View {
    map id | id in v && SweepOne(cfg, t, now, self, v[id]).Some? :: SweepOne(cfg, t, now, self, v[id]).value
  }

  predicate Dies(cfg: Config, t: Timeouts, now: int, self: string, m: Member) {
    !m.IsFinal() && SweepOne(cfg, t, now, self, m) == Some(m.MarkDead(now))
  }

  /** The members `handleDeadNode` is called for. */
  function NewlyDead(cfg: Config, t: Timeouts, now: int, self: string, v: View): set<NodeId> {
    set id | id in v && Dies(cfg, t, now, self, v[id])
  }

  // ----- what a sweep means -----

  /** More than `limit` has passed since the last news; under ping/ack a server is not overdue to itself. */
  predicate Overdue(cfg: Config, now: int, self: string, m: Member, limit: int) {
    now - m.lastUpdated > limit && !(cfg.protocol == PingAckProtocol && m.id.address == self)
  }

  /** A suspect is overdue for the dead timeout; without suspicion, a live member for both. */
  predicate DueToDie(cfg: Config, t: Timeouts, now: int, self: string, m: Member) {
    Overdue(cfg, now, self, m, t.dead) &&
    (m.status == Suspect ||
     (m.status == Alive && cfg.suspicion == NoSuspicion && Overdue(cfg, now, self, m, t.suspicion)))
  }

  predicate DueToBeSuspected(cfg: Config, t: Timeouts, now: int, self: string, m: Member) {
    m.status == Alive && cfg.suspicion == WithSuspicion && Overdue(cfg, now, self, m, t.suspicion)
  }

  /** Exactly the dead that are overdue for cleanup are gone; exactly those due to die are dead now, and
      reported; exactly the live ones due to be suspected are suspects now; all others are as they were. */
  ghost predicate SweptRight(cfg: Config, t: Timeouts, now: int, self: string, v: View, v': View, dead: set<NodeId>) {
    v'.Keys <= v.Keys && dead <= v.Keys &&
    forall id | id in v ::
      var m := v[id];
      (id !in v' <==> m.status == Dead && Overdue(cfg, now, self, m, t.cleanUp)) &&
      (id in dead <==> DueToDie(cfg, t, now, self, m)) &&
      (id in v' ==>
         v'[id].status == (if id in dead then Dead
                           else if DueToBeSuspected(cfg, t, now, self, m) then Suspect else m.status) &&
         v'[id] == m.(status := v'[id].status,
                      lastUpdated := if v'[id].status == m.status then m.lastUpdated else now))
  }

  lemma SweepIsRight(cfg: Config, t: Timeouts, now: int, self: string, v: View)
    ensures SweptRight(cfg, t, now, self, v, SweepMap(cfg, t, now, self, v), NewlyDead(cfg, t, now, self, v))
  {
  }

  // ----- sweep after sweep -----

  /** An entry that nothing but sweeps touches, after sweeps at these times. */
  function SweepThrough(cfg: Config, t: Timeouts, self: string, m: Option<Member>, times: seq<int>): Option<Member> {
    if times == [] then m
    else
      var before := SweepThrough(cfg, t, self, m, times[..|times| - 1]);
      if before.None? then None else SweepOne(cfg, t, times[|times| - 1], self, before.value)
  }

  /** How often one of the sweeps reports the entry as newly dead. */
  function Reports(cfg: Config, t: Timeouts, self: string, m: Option<Member>, times: seq<int>): nat {
    if times == [] then 0
    else
      var k := |times| - 1;
      var before := SweepThrough(cfg, t, self, m, times[..k]);
      Reports(cfg, t, self, m, times[..k]) +
      if before.Some? && Dies(cfg, t, times[k], self, before.value) then 1 else 0
  }

  /** The sweep at `i` is the first more than `limit` after `since`, from position `from` on; or none is and
      `i` is their number. */
  ghost predicate FirstLate(times: seq<int>, from: nat, since: int, limit: int, i: nat) {
    from <= i <= |times| && (forall a | from <= a < i :: times[a] - since <= limit) &&
    (i < |times| ==> times[i] - since > limit)
  }

  /** With suspicion: sweep `i` is the first beyond the suspicion timeout, `j` beyond the dead timeout after
      that, `k` beyond the cleanup timeout after that. */
  ghost predicate Timeline(t: Timeouts, m: Member, times: seq<int>, i: nat, j: nat, k: nat) {
    FirstLate(times, 0, m.lastUpdated, t.suspicion, i) &&
    (if i == |times| then j == i else FirstLate(times, i + 1, times[i], t.dead, j)) &&
    (if j == |times| then k == j else FirstLate(times, j + 1, times[j], t.cleanUp, k))
  }

  /** The entry after the first `n` sweeps: as it was up to `i`, suspect up to `j`, dead up to `k`, then gone. */
  function Course(m: Member, times: seq<int>, i: nat, j: nat, k: nat, n: nat): Option<Member>
    requires n <= |times|
  {
    if n <= i then Some(m)
    else if n <= j then Some(m.(status := Suspect, lastUpdated := times[i]))
    else if n <= k then Some(m.(status := Dead, lastUpdated := times[j]))
    else None
  }

  lemma CourseStep(cfg: Config, t: Timeouts, self: string, m: Member, times: seq<int>, i: nat, j: nat, k: nat, n: nat)
    requires cfg.suspicion == WithSuspicion && !(cfg.protocol == PingAckProtocol && m.id.address == self)
    requires m.status == Alive && Timeline(t, m, times, i, j, k) && n < |times|
    ensures var before, after := Course(m, times, i, j, k, n), Course(m, times, i, j, k, n + 1);
            (before.None? ==> after.None?) &&
            (before.Some? ==> after == SweepOne(cfg, t, times[n], self, before.value) &&
                              (Dies(cfg, t, times[n], self, before.value) <==> n == j)) &&
            (before.None? ==> n != j)
  {
  }

  lemma {:induction false} CourseRuns(cfg: Config, t: Timeouts, self: string, m: Member, times: seq<int>,
                                      i: nat, j: nat, k: nat, n: nat)
    requires cfg.suspicion == WithSuspicion && !(cfg.protocol == PingAckProtocol && m.id.address == self)
    requires m.status == Alive && Timeline(t, m, times, i, j, k) && n <= |times|
    ensures SweepThrough(cfg, t, self, Some(m), times[..n]) == Course(m, times, i, j, k, n)
    ensures Reports(cfg, t, self, Some(m), times[..n]) == if j < n then 1 else 0
  {
    if n > 0 {
      assert times[..n][..n - 1] == times[..n - 1];
      CourseRuns(cfg, t, self, m, times, i, j, k, n - 1);
      CourseStep(cfg, t, self, m, times, i, j, k, n - 1);
    }
  }

  /** A live member that nobody tells about is suspected by sweep `i`, declared dead and reported, once, by
      sweep `j`, and removed by sweep `k`; and before that it is what it was. */
  lemma SilenceWithSuspicion(cfg: Config, t: Timeouts, self: string, m: Member, times: seq<int>, i: nat, j: nat, k: nat)
    requires cfg.suspicion == WithSuspicion && !(cfg.protocol == PingAckProtocol && m.id.address == self)
    requires m.status == Alive && Timeline(t, m, times, i, j, k)
    ensures SweepThrough(cfg, t, self, Some(m), times) ==
            if i == |times| then Some(m)
            else if j == |times| then Some(m.(status := Suspect, lastUpdated := times[i]))
            else if k == |times| then Some(m.(status := Dead, lastUpdated := times[j]))
            else None
    ensures Reports(cfg, t, self, Some(m), times) == if j < |times| then 1 else 0
  {
    CourseRuns(cfg, t, self, m, times, i, j, k, |times|);
    assert times[..|times|] == times;
  }

  /** Without suspicion: sweep `j` is the first beyond both timeouts, `k` beyond the cleanup timeout after it. */
  ghost predicate ShortTimeline(t: Timeouts, m: Member, times: seq<int>, j: nat, k: nat) {
    FirstLate(times, 0, m.lastUpdated, if t.suspicion >= t.dead then t.suspicion else t.dead, j) &&
    (if j == |times| then k == j else FirstLate(times, j + 1, times[j], t.cleanUp, k))
  }

  function ShortCourse(m: Member, times: seq<int>, j: nat, k: nat, n: nat): Option<Member>
    requires n <= |times|
  {
    if n <= j then Some(m)
    else if n <= k then Some(m.(status := Dead, lastUpdated := times[j]))
    else None
  }

  lemma ShortCourseStep(cfg: Config, t: Timeouts, self: string, m: Member, times: seq<int>, j: nat, k: nat, n: nat)
    requires cfg.suspicion == NoSuspicion && !(cfg.protocol == PingAckProtocol && m.id.address == self)
    requires m.status == Alive && ShortTimeline(t, m, times, j, k) && n < |times|
    ensures var before, after := ShortCourse(m, times, j, k, n), ShortCourse(m, times, j, k, n + 1);
            (before.None? ==> after.None?) &&
            (before.Some? ==> after == SweepOne(cfg, t, times[n], self, before.value) &&
                              (Dies(cfg, t, times[n], self, before.value) <==> n == j)) &&
            (before.None? ==> n != j)
  {
  }

  lemma {:induction false} ShortCourseRuns(cfg: Config, t: Timeouts, self: string, m: Member, times: seq<int>,
                                           j: nat, k: nat, n: nat)
    requires cfg.suspicion == NoSuspicion && !(cfg.protocol == PingAckProtocol && m.id.address == self)
    requires m.status == Alive && ShortTimeline(t, m, times, j, k) && n <= |times|
    ensures SweepThrough(cfg, t, self, Some(m), times[..n]) == ShortCourse(m, times, j, k, n)
    ensures Reports(cfg, t, self, Some(m), times[..n]) == if j < n then 1 else 0
  {
    if n > 0 {
      assert times[..n][..n - 1] == times[..n - 1];
      ShortCourseRuns(cfg, t, self, m, times, j, k, n - 1);
      ShortCourseStep(cfg, t, self, m, times, j, k, n - 1);
    }
  }

  lemma SilenceWithoutSuspicion(cfg: Config, t: Timeouts, self: string, m: Member, times: seq<int>, j: nat, k: nat)
    requires cfg.suspicion == NoSuspicion && !(cfg.protocol == PingAckProtocol && m.id.address == self)
    requires m.status == Alive && ShortTimeline(t, m, times, j, k)
    ensures SweepThrough(cfg, t, self, Some(m), times) ==
            if j == |times| then Some(m)
            else if k == |times| then Some(m.(status := Dead, lastUpdated := times[j]))
            else None
    ensures Reports(cfg, t, self, Some(m), times) == if j < |times| then 1 else 0
  {
    ShortCourseRuns(cfg, t, self, m, times, j, k, |times|);
    assert times[..|times|] == times;
  }

  /** The list after the sweep, before sorting. */
  function Swept(cfg: Config, t: Timeouts, now: int, self: string, ms: seq<Member>, lo: nat): seq<Member>
    requires lo <= |ms|
    decreases |ms| - lo
  {
    if lo == |ms| then []
    else
      var r := SweepOne(cfg, t, now, self, ms[lo]);
      (if r.None? then [] else [r.value]) + Swept(cfg, t, now, self, ms, lo + 1)
  }

  lemma {:induction false} SweptEntries(cfg: Config, t: Timeouts, now: int, self: string, ms: seq<Member>, lo: nat)
    requires lo <= |ms| && UniqueIds(ms)
    ensures UniqueIds(Swept(cfg, t, now, self, ms, lo))
    ensures forall m :: m in Swept(cfg, t, now, self, ms, lo) <==>
              exists x :: x in ms[lo..] && SweepOne(cfg, t, now, self, x) == Some(m)
    decreases |ms| - lo
  {
    if lo < |ms| {
      var rest := Swept(cfg, t, now, self, ms, lo + 1);
      SweptEntries(cfg, t, now, self, ms, lo + 1);
      var r := SweepOne(cfg, t, now, self, ms[lo]);
      assert ms[lo..] == [ms[lo]] + ms[lo + 1..];
      if r.Some? {
        forall i | 0 <= i < |rest| ensures rest[i].id != r.value.id {
          assert rest[i] in rest;
        }
      }
    }
  }

  lemma SweptContents(cfg: Config, t: Timeouts, now: int, self: string, ms: seq<Member>)
    requires UniqueIds(ms)
    ensures UniqueIds(Swept(cfg, t, now, self, ms, 0))
    ensures Contents(Swept(cfg, t, now, self, ms, 0)) == SweepMap(cfg, t, now, self, Contents(ms))
  {
    SweptEntries(cfg, t, now, self, ms, 0);
    ContentsRepresents(ms);
    SweptRepresents(cfg, t, now, self, Contents(ms), ms);
    FromEntries(SweepMap(cfg, t, now, self, Contents(ms)), Swept(cfg, t, now, self, ms, 0));
  }

  lemma SweptRepresents(cfg: Config, t: Timeouts, now: int, self: string, v: View, ms: seq<Member>)
    requires UniqueIds(ms) && Represents(v, ms)
    ensures Represents(SweepMap(cfg, t, now, self, v), Swept(cfg, t, now, self, ms, 0))
  {
    SweptEntries(cfg, t, now, self, ms, 0);
    assert ms[0..] == ms;
    var w, r := SweepMap(cfg, t, now, self, v), Swept(cfg, t, now, self, ms, 0);
    forall m | m in r ensures m.id in w && w[m.id] == m {
      var x :| x in ms && SweepOne(cfg, t, now, self, x) == Some(m);
      assert v[x.id] == x;
    }
    forall id | id in w ensures w[id] in r && w[id].id == id {
      assert SweepOne(cfg, t, now, self, v[id]) == Some(w[id]);
    }
  }

  // What one pass over the first `i` entries collects.

  ghost function Changes(cfg: Config, t: Timeouts, now: int, self: string, ms: seq<Member>, i: nat): seq<nat>
    requires i <= |ms|
  {
    if i == 0 then []
    else
      var r := SweepOne(cfg, t, now, self, ms[i - 1]);
      Changes(cfg, t, now, self, ms, i - 1) + if r.Some? && r.value != ms[i - 1] then [i - 1] else []
  }

  ghost function Updates(cfg: Config, t: Timeouts, now: int, self: string, ms: seq<Member>, i: nat): seq<Member>
    requires i <= |ms|
  {
    if i == 0 then []
    else
      var r := SweepOne(cfg, t, now, self, ms[i - 1]);
      Updates(cfg, t, now, self, ms, i - 1) + if r.Some? && r.value != ms[i - 1] then [r.value] else []
  }

  ghost function Cuts(cfg: Config, t: Timeouts, now: int, self: string, ms: seq<Member>, i: nat): seq<nat>
    requires i <= |ms|
  {
    if i == 0 then []
    else Cuts(cfg, t, now, self, ms, i - 1) + if SweepOne(cfg, t, now, self, ms[i - 1]).None? then [i - 1] else []
  }

  ghost function Deaths(cfg: Config, t: Timeouts, now: int, self: string, ms: seq<Member>, i: nat): set<NodeId>
    requires i <= |ms|
  {
    if i == 0 then {}
    else Deaths(cfg, t, now, self, ms, i - 1) + if Dies(cfg, t, now, self, ms[i - 1]) then {ms[i - 1].id} else {}
  }

  lemma {:induction false} ChangesAll(cfg: Config, t: Timeouts, now: int, self: string, ms: seq<Member>, i: nat)
    requires i <= |ms|
    ensures forall k | 0 <= k < i && SweepOne(cfg, t, now, self, ms[k]).Some? &&
              SweepOne(cfg, t, now, self, ms[k]).value != ms[k] :: k in Changes(cfg, t, now, self, ms, i)
  {
    if i > 0 {
      ChangesAll(cfg, t, now, self, ms, i - 1);
    }
  }

  lemma {:induction false} ChangesAre(cfg: Config, t: Timeouts, now: int, self: string, ms: seq<Member>, i: nat)
    requires i <= |ms|
    ensures var at, updates := Changes(cfg, t, now, self, ms, i), Updates(cfg, t, now, self, ms, i);
            |at| == |updates| && forall k | 0 <= k < |at| ::
              at[k] < i && SweepOne(cfg, t, now, self, ms[at[k]]) == Some(updates[k])
  {
    if i > 0 {
      ChangesAre(cfg, t, now, self, ms, i - 1);
    }
  }

  lemma ChangesComplete(cfg: Config, t: Timeouts, now: int, self: string, ms: seq<Member>, i: nat)
    requires i <= |ms|
    ensures forall k | 0 <= k < i && SweepOne(cfg, t, now, self, ms[k]).Some? &&
              SweepOne(cfg, t, now, self, ms[k]).value != ms[k] :: k in Changes(cfg, t, now, self, ms, i)
    ensures var at, updates := Changes(cfg, t, now, self, ms, i), Updates(cfg, t, now, self, ms, i);
            |at| == |updates| && forall k | 0 <= k < |at| ::
              at[k] < i && SweepOne(cfg, t, now, self, ms[at[k]]) == Some(updates[k])
  {
    ChangesAll(cfg, t, now, self, ms, i);
    ChangesAre(cfg, t, now, self, ms, i);
  }

  lemma {:induction false} CutsComplete(cfg: Config, t: Timeouts, now: int, self: string, ms: seq<Member>, i: nat)
    requires i <= |ms|
    ensures var cuts := Cuts(cfg, t, now, self, ms, i);
            (forall k | 0 <= k < |cuts| :: cuts[k] < i && SweepOne(cfg, t, now, self, ms[cuts[k]]).None?) &&
            (forall k | 0 <= k < i && SweepOne(cfg, t, now, self, ms[k]).None? :: k in cuts) &&
            (forall k, l | 0 <= k < l < |cuts| :: cuts[k] < cuts[l])
  {
    if i > 0 {
      var before := Cuts(cfg, t, now, self, ms, i - 1);
      CutsComplete(cfg, t, now, self, ms, i - 1);
      if SweepOne(cfg, t, now, self, ms[i - 1]).None? {
        assert Cuts(cfg, t, now, self, ms, i) == before + [i - 1];
      } else {
        assert Cuts(cfg, t, now, self, ms, i) == before;
      }
    }
  }

  lemma {:induction false} DeathsComplete(cfg: Config, t: Timeouts, now: int, self: string, ms: seq<Member>, i: nat)
    requires i <= |ms|
    ensures forall id :: id in Deaths(cfg, t, now, self, ms, i) <==>
              exists m :: m in ms[..i] && m.id == id && Dies(cfg, t, now, self, m)
  {
    if i > 0 {
      DeathsComplete(cfg, t, now, self, ms, i - 1);
      assert ms[..i] == ms[..i - 1] + [ms[i - 1]];
    }
  }

  lemma DeathsAre(cfg: Config, t: Timeouts, now: int, self: string, ms: seq<Member>)
    requires UniqueIds(ms)
    ensures Deaths(cfg, t, now, self, ms, |ms|) == NewlyDead(cfg, t, now, self, Contents(ms))
  {
    DeathsComplete(cfg, t, now, self, ms, |ms|);
    ContentsRepresents(ms);
    assert ms[..|ms|] == ms;
  }

  /** The branches of the sweep's loop body: the entry to keep, and whether the member was declared dead. */
  method Judge(cfg: Config, t: Timeouts, now: int, self: string, m: Member) returns (r: Option<Member>, fatal: bool)
    ensures r == SweepOne(cfg, t, now, self, m) && fatal == Dies(cfg, t, now, self, m)
  {
    r, fatal := Some(m), false;
    if cfg.protocol == PingAckProtocol && m.id.address == self {
      return;
    }
    var elapsed := now - m.lastUpdated;
    if m.status == Alive && elapsed > t.suspicion {
      match cfg.suspicion {
        case WithSuspicion => r := Some(m.MarkSuspect(now));
        case NoSuspicion =>
          if elapsed > t.dead {
            r, fatal := Some(m.MarkDead(now)), true;
          }
      }
    } else if m.status == Suspect && elapsed > t.dead {
      r, fatal := Some(m.MarkDead(now)), true;
    } else if m.status == Dead && elapsed > t.cleanUp {
      r := None;
    }
  }

  // ----- the list object -----

  class MembershipList {
    var nodes: seq<Member>

    ghost predicate Valid()
      reads this
    {
      RingList(nodes)
    }

    constructor ()
      ensures Valid() && nodes == []
    {
      nodes := [];
    }

    /** `sort.Slice` by hash: some sorted list of the same entries. */
    method SortNodes()
      requires UniqueIds(nodes)
      modifies this
      ensures Valid() && (forall m :: m in nodes <==> m in old(nodes))
      ensures |nodes| == |old(nodes)| && Contents(nodes) == Contents(old(nodes))
    {
      var src := nodes;
      nodes := [];
      for i := 0 to |src|
        invariant RingList(nodes) && |nodes| == i
        invariant forall m :: m in nodes <==> m in src[..i]
      {
        forall j | 0 <= j < |nodes| ensures nodes[j].id != src[i].id {
          assert nodes[j] in src[..i];
        }
        InsertByHashKeeps(nodes, src[i]);
        nodes := InsertByHash(nodes, src[i]);
        assert src[..i + 1] == src[..i] + [src[i]];
      }
      assert src[..|src|] == src;
      SameEntries(nodes, src);
    }

    method AddOrUpdate(m: Member)
      requires Valid()
      modifies this
      ensures Valid() && Contents(nodes) == Contents(old(nodes))[m.id := m]
    {
      for i := 0 to |nodes|
        invariant nodes == old(nodes)
        invariant forall k | 0 <= k < i :: nodes[k].id != m.id
      {
        if nodes[i].id == m.id {
          nodes := nodes[i := m];
          ContentsUpdated(old(nodes), i, m);
          SortNodes();
          return;
        }
      }
      nodes := nodes + [m];
      assert nodes[..|nodes| - 1] == old(nodes);
      SortNodes();
    }

    method Remove(id: NodeId)
      requires Valid()
      modifies this
      ensures Valid() && Contents(nodes) == Contents(old(nodes)) - {id}
    {
      for i := 0 to |nodes|
        invariant nodes == old(nodes)
        invariant forall k | 0 <= k < i :: nodes[k].id != id
      {
        if nodes[i].id == id {
          nodes := nodes[..i] + nodes[i + 1..];
          ContentsRemoved(old(nodes), i);
          return;
        }
      }
      ContentsRepresents(nodes);
      assert Contents(nodes) - {id} == Contents(nodes);
    }

    method Snapshot() returns (v: View)
      ensures v == Contents(nodes)
    {
      v := map[];
      for i := 0 to |nodes|
        invariant v == Contents(nodes[..i])
      {
        assert nodes[..i + 1][..i] == nodes[..i];
        v := v[nodes[i].id := nodes[i]];
      }
      assert nodes[..|nodes|] == nodes;
    }

    /** The map after the sweep is the old map with one transition applied per member. */
    method MarkSuspectIfNeeded(cfg: Config, t: Timeouts, now: int, self: string)
      returns (changed: bool, dead: set<NodeId>)
      requires Valid()
      modifies this
      ensures Valid()
      ensures Contents(nodes) == SweepMap(cfg, t, now, self, Contents(old(nodes)))
      ensures !changed ==> nodes == old(nodes)
      ensures dead == NewlyDead(cfg, t, now, self, Contents(old(nodes)))
      ensures SweptRight(cfg, t, now, self, Contents(old(nodes)), Contents(nodes), dead)
    {
      SweepIsRight(cfg, t, now, self, Contents(nodes));
      ghost var src := nodes;
      var updates: seq<Member>, removals: seq<nat>;
      changed, updates, removals, dead := Collect(cfg, t, now, self);
      ghost var at := Changes(cfg, t, now, self, src, |src|);
      ChangesComplete(cfg, t, now, self, src, |src|);
      CutsComplete(cfg, t, now, self, src, |src|);
      ApplyUpdates(updates, at);
      UpdatesApplied(cfg, t, now, self, src, nodes, updates, at);
      ApplyRemovals(cfg, t, now, self, src, removals);
      SweptContents(cfg, t, now, self, src);
      DeathsAre(cfg, t, now, self, src);
      if changed {
        SortNodes();
      } else {
        NothingSwept(cfg, t, now, self, src);
      }
    }

    /** First phase: what to update and which positions to cut. */
    method Collect(cfg: Config, t: Timeouts, now: int, self: string)
      returns (changed: bool, updates: seq<Member>, removals: seq<nat>, dead: set<NodeId>)
      ensures updates == Updates(cfg, t, now, self, nodes, |nodes|)
      ensures removals == Cuts(cfg, t, now, self, nodes, |nodes|)
      ensures dead == Deaths(cfg, t, now, self, nodes, |nodes|)
      ensures changed <==> updates != [] || removals != []
    {
      changed, updates, removals, dead := false, [], [], {};
      for i := 0 to |nodes|
        invariant updates == Updates(cfg, t, now, self, nodes, i)
        invariant removals == Cuts(cfg, t, now, self, nodes, i)
        invariant dead == Deaths(cfg, t, now, self, nodes, i)
        invariant changed <==> updates != [] || removals != []
      {
        var r, fatal := Judge(cfg, t, now, self, nodes[i]);
        if fatal {
          dead := dead + {nodes[i].id};
        }
        if r.None? {
          removals, changed := removals + [i], true;
        } else if r.value != nodes[i] {
          updates, changed := updates + [r.value], true;
        }
      }
    }

    /** Second phase: write each updated member over the entry with its ID. */
    method ApplyUpdates(updates: seq<Member>, ghost at: seq<nat>)
      requires UniqueIds(nodes) && |at| == |updates|
      requires forall k | 0 <= k < |at| :: at[k] < |nodes| && nodes[at[k]].id == updates[k].id
      requires forall k, l | 0 <= k < |at| && 0 <= l < |at| && at[k] == at[l] :: updates[k] == updates[l]
      modifies this
      ensures |nodes| == |old(nodes)| && UniqueIds(nodes)
      ensures forall k | 0 <= k < |at| :: nodes[at[k]] == updates[k]
      ensures forall i | 0 <= i < |nodes| && i !in at :: nodes[i] == old(nodes)[i]
    {
      for k := 0 to |updates|
        invariant |nodes| == |old(nodes)|
        invariant forall i | 0 <= i < |nodes| :: nodes[i].id == old(nodes)[i].id
        invariant forall l | 0 <= l < k :: nodes[at[l]] == updates[l]
        invariant forall i | 0 <= i < |nodes| && i !in at[..k] :: nodes[i] == old(nodes)[i]
      {
        ghost var before := nodes;
        var i := 0;
        while i < |nodes| && nodes[i].id != updates[k].id
          invariant 0 <= i <= at[k] && nodes == before
        {
          i := i + 1;
        }
        nodes := nodes[i := updates[k]];
        assert i == at[k];
        assert at[..k + 1] == at[..k] + [at[k]];
      }
      assert at[..|updates|] == at;
    }

    /** Third phase: cut the listed positions from the highest down. */
    method ApplyRemovals(cfg: Config, t: Timeouts, now: int, self: string, ghost src: seq<Member>, removals: seq<nat>)
      requires |nodes| == |src| && IsCut(cfg, t, now, self, src, removals)
      requires forall i | 0 <= i < |src| && SweepOne(cfg, t, now, self, src[i]).Some? ::
                 nodes[i] == SweepOne(cfg, t, now, self, src[i]).value
      modifies this
      ensures nodes == Swept(cfg, t, now, self, src, 0)
      ensures removals == [] ==> nodes == old(nodes)
    {
      var k := |removals|;
      ghost var cut := |src|;
      while k > 0
        invariant 0 <= k <= |removals|
        invariant cut == CutAt(src, removals, k)
        invariant nodes == old(nodes)[..cut] + Swept(cfg, t, now, self, src, cut)
      {
        k := k - 1;
        var idx := removals[k];
        CutOne(cfg, t, now, self, src, old(nodes), removals, k);
        nodes := nodes[..idx] + nodes[idx + 1..];
        cut := idx;
      }
      SweptKeeps(cfg, t, now, self, src, 0, cut, old(nodes));
    }
  }

  /** `removals` lists, in increasing order, exactly the positions the sweep removes. */
  ghost predicate IsCut(cfg: Config, t: Timeouts, now: int, self: string, ms: seq<Member>, removals: seq<nat>) {
    (forall k | 0 <= k < |removals| :: removals[k] < |ms| && SweepOne(cfg, t, now, self, ms[removals[k]]).None?) &&
    (forall i | 0 <= i < |ms| && SweepOne(cfg, t, now, self, ms[i]).None? :: i in removals) &&
    (forall k, l | 0 <= k < l < |removals| :: removals[k] < removals[l])
  }

  function CutAt(ms: seq<Member>, removals: seq<nat>, k: nat): nat {
    if k < |removals| then removals[k] else |ms|
  }

  /** Cutting the k-th position extends the swept tail down to it. */
  lemma CutOne(cfg: Config, t: Timeouts, now: int, self: string, src: seq<Member>, upd: seq<Member>,
               removals: seq<nat>, k: nat)
    requires |upd| == |src| && IsCut(cfg, t, now, self, src, removals) && k < |removals|
    requires forall i | 0 <= i < |src| && SweepOne(cfg, t, now, self, src[i]).Some? ::
               upd[i] == SweepOne(cfg, t, now, self, src[i]).value
    ensures var cut, idx := CutAt(src, removals, k + 1), removals[k];
            idx < cut <= |src| &&
            var ms := upd[..cut] + Swept(cfg, t, now, self, src, cut);
            ms[..idx] + ms[idx + 1..] == upd[..idx] + Swept(cfg, t, now, self, src, idx)
  {
    var cut, idx := CutAt(src, removals, k + 1), removals[k];
    forall l | 0 <= l < |removals| ensures removals[l] <= idx || removals[l] >= cut {
      assert l <= k || l >= k + 1;
    }
    SweptKeeps(cfg, t, now, self, src, idx + 1, cut, upd);
    CutSlices(upd, Swept(cfg, t, now, self, src, cut), idx, cut);
  }

  lemma CutSlices<T>(s: seq<T>, tail: seq<T>, i: nat, cut: nat)
    requires i < cut <= |s|
    ensures var all := s[..cut] + tail; all[..i] + all[i + 1..] == s[..i] + (s[i + 1..cut] + tail)
  {
  }

  /** After the updates every entry the sweep keeps holds its swept value. */
  lemma UpdatesApplied(cfg: Config, t: Timeouts, now: int, self: string, src: seq<Member>, upd: seq<Member>,
                       updates: seq<Member>, at: seq<nat>)
    requires |upd| == |src| && |at| == |updates| && at == Changes(cfg, t, now, self, src, |src|)
    requires forall k | 0 <= k < |at| ::
               at[k] < |src| && SweepOne(cfg, t, now, self, src[at[k]]) == Some(updates[k]) && upd[at[k]] == updates[k]
    requires forall i | 0 <= i < |src| && i !in at :: upd[i] == src[i]
    ensures forall i | 0 <= i < |src| && SweepOne(cfg, t, now, self, src[i]).Some? ::
              upd[i] == SweepOne(cfg, t, now, self, src[i]).value
  {
    ChangesComplete(cfg, t, now, self, src, |src|);
  }

  lemma NothingSwept(cfg: Config, t: Timeouts, now: int, self: string, src: seq<Member>)
    requires Updates(cfg, t, now, self, src, |src|) == [] && Cuts(cfg, t, now, self, src, |src|) == []
    ensures Swept(cfg, t, now, self, src, 0) == src
  {
    ChangesComplete(cfg, t, now, self, src, |src|);
    CutsComplete(cfg, t, now, self, src, |src|);
    SweptKeeps(cfg, t, now, self, src, 0, |src|, src);
  }

  /** Between two cut positions the swept list is a slice of the updated one. */
  lemma {:induction false} SweptKeeps(cfg: Config, t: Timeouts, now: int, self: string, ms: seq<Member>,
                                      lo: nat, hi: nat, upd: seq<Member>)
    requires lo <= hi <= |ms| == |upd|
    requires forall i | lo <= i < hi :: SweepOne(cfg, t, now, self, ms[i]) == Some(upd[i])
    ensures Swept(cfg, t, now, self, ms, lo) == upd[lo..hi] + Swept(cfg, t, now, self, ms, hi)
    decreases hi - lo
  {
    if lo < hi {
      SweptKeeps(cfg, t, now, self, ms, lo + 1, hi, upd);
      assert upd[lo..hi] == [upd[lo]] + upd[lo + 1..hi];
    }
  }

  lemma ContentsUpdated(ms: seq<Member>, i: nat, m: Member)
    requires UniqueIds(ms) && i < |ms| && ms[i].id == m.id
    ensures UniqueIds(ms[i := m]) && Contents(ms[i := m]) == Contents(ms)[m.id := m]
  {
    ContentsRepresents(ms);
    UpdatedRepresents(Contents(ms), ms, i, m);
    FromEntries(Contents(ms)[m.id := m], ms[i := m]);
  }

  lemma UpdatedRepresents(v: View, ms: seq<Member>, i: nat, m: Member)
    requires UniqueIds(ms) && i < |ms| && ms[i].id == m.id && Represents(v, ms)
    ensures Represents(v[m.id := m], ms[i := m])
  {
    var r := ms[i := m];
    assert r[i] == m;
    forall id | id in v && id != m.id ensures v[id] in r {
      var k :| 0 <= k < |ms| && ms[k] == v[id];
      assert r[k] == v[id];
    }
  }

  lemma ContentsRemoved(ms: seq<Member>, i: nat)
    requires UniqueIds(ms) && i < |ms|
    ensures Contents(ms[..i] + ms[i + 1..]) == Contents(ms) - {ms[i].id}
  {
    ContentsRepresents(ms);
    RemovedRepresents(Contents(ms), ms, i);
    FromEntries(Contents(ms) - {ms[i].id}, ms[..i] + ms[i + 1..]);
  }

  /** Where a position of the cut list was before. */
  function Uncut(k: nat, i: nat): nat { if k < i then k else k + 1 }

  lemma CutEntry(ms: seq<Member>, i: nat, k: nat)
    requires i < |ms| && k < |ms| - 1
    ensures (ms[..i] + ms[i + 1..])[k] == ms[Uncut(k, i)] && Uncut(k, i) != i && Uncut(k, i) < |ms|
  {
  }

  lemma CutUnique(ms: seq<Member>, i: nat)
    requires UniqueIds(ms) && i < |ms|
    ensures UniqueIds(ms[..i] + ms[i + 1..])
  {
    var r := ms[..i] + ms[i + 1..];
    forall a, b | 0 <= a < b < |r| ensures r[a].id != r[b].id {
      CutEntry(ms, i, a);
      CutEntry(ms, i, b);
      assert Uncut(a, i) < Uncut(b, i);
    }
  }

  lemma CutMember(ms: seq<Member>, i: nat, m: Member)
    requires UniqueIds(ms) && i < |ms|
    ensures m in ms[..i] + ms[i + 1..] <==> m in ms && m.id != ms[i].id
  {
    var r := ms[..i] + ms[i + 1..];
    if m in r {
      var k :| 0 <= k < |r| && r[k] == m;
      CutEntry(ms, i, k);
    }
    if m in ms && m.id != ms[i].id {
      var k :| 0 <= k < |ms| && ms[k] == m;
      CutEntry(ms, i, if k < i then k else k - 1);
      assert r[if k < i then k else k - 1] == m;
    }
  }

  lemma RemovedRepresents(v: View, ms: seq<Member>, i: nat)
    requires UniqueIds(ms) && i < |ms| && Represents(v, ms)
    ensures UniqueIds(ms[..i] + ms[i + 1..])
    ensures Represents(v - {ms[i].id}, ms[..i] + ms[i + 1..])
  {
    CutUnique(ms, i);
    var r, w := ms[..i] + ms[i + 1..], v - {ms[i].id};
    forall m | m in r ensures m.id in w && w[m.id] == m {
      CutMember(ms, i, m);
    }
    forall id | id in w ensures w[id] in r && w[id].id == id {
      CutMember(ms, i, w[id]);
    }
  }
}
