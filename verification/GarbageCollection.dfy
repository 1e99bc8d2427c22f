/** Deleting files outside a server's window (ring.go). */
module GarbageCollection {
  import opened Members
  import opened Ring
  import opened Placement
  import opened AppendLog
  import opened Storage
  import opened Cluster
  import opened Stabilization

  /** Files that stay keep their metadata and all their data. */
  ghost predicate KeepsFile(st: Store, st': Store, f: string) {
    f in st.files && f in st'.files && st'.files[f] == st.files[f] &&
    f in st.disk && f in st'.disk && st'.disk[f] == st.disk[f] &&
    forall a | a in st.files[f].appends ::
      a.appendId in st.disk && a.appendId in st'.disk && st'.disk[a.appendId] == st.disk[a.appendId]
  }

  lemma KeepsItself(w: World, st: Store, f: string)
    requires GoodStore(w, st) && f in st.files
    ensures KeepsFile(st, st, f)
  {
  }

  lemma DeleteKeepsOthers(w: World, st: Store, g: string, f: string)
    requires GoodStore(w, st) && g in st.files && f in st.files && f != g
    ensures KeepsFile(st, DeleteFile(st, g), f)
  {
    assert GoodMeta(w, f, st.files[f]) && GoodMeta(w, g, st.files[g]);
  }

  lemma DeleteGood(w: World, st: Store, g: string)
    requires GoodStore(w, st)
    ensures GoodStore(w, DeleteFile(st, g))
  {
    var d := DeleteFile(st, g);
    if g in st.files {
      forall f | f in d.files
        ensures GoodMeta(w, f, d.files[f]) && HasData(d.disk, f) &&
                forall a | a in d.files[f].appends :: HasData(d.disk, a.appendId)
      {
        DeleteKeepsOthers(w, st, g, f);
      }
    }
  }

  lemma {:induction false} CollectExact(w: World, st: Store, r: Range, names: seq<string>)
    requires GoodStore(w, st)
    ensures var d := Collect(st, r, names);
            GoodStore(w, d) &&
            (forall f :: f in d.files <==> f in st.files && (f !in names || IsHashInRange(w.hashOf(f), r))) &&
            forall f | f in d.files :: KeepsFile(st, d, f)
  {
    if names == [] {
      forall f | f in st.files ensures KeepsFile(st, st, f) {
        KeepsItself(w, st, f);
      }
    } else {
      var k := |names| - 1;
      var st1 := Collect(st, r, names[..k]);
      CollectExact(w, st, r, names[..k]);
      assert names == names[..k] + [names[k]];
      if names[k] in st1.files {
        assert GoodMeta(w, names[k], st1.files[names[k]]);
        DeleteGood(w, st1, names[k]);
        forall f | f in st1.files && f != names[k] ensures KeepsFile(st, DeleteFile(st1, names[k]), f) {
          DeleteKeepsOthers(w, st1, names[k], f);
          KeepsThrough(st, st1, DeleteFile(st1, names[k]), f);
        }
      }
    }
  }

  /** The name of the file, or of one of its appends. */
  predicate Belongs(st: Store, f: string, n: string) {
    f in st.files && (n == f || HasAppend(st.files[f].appends, n))
  }

  /** The disk follows the file list: data is there if it was and belongs to no file that is gone, and it is
      what it was. */
  ghost predicate DiskFollows(st: Store, d: Store) {
    (forall n :: n in d.disk <==> n in st.disk && forall f | Belongs(st, f, n) :: f in d.files) &&
    forall n | n in d.disk :: d.disk[n] == st.disk[n]
  }

  lemma DeletedData(st: Store, f: string, n: string)
    requires f in st.files
    ensures n in DeleteFile(st, f).disk <==> n in st.disk && !Belongs(st, f, n)
    ensures n in DeleteFile(st, f).disk ==> DeleteFile(st, f).disk[n] == st.disk[n]
  {
    if HasAppend(st.files[f].appends, n) {
      var i :| 0 <= i < |st.files[f].appends| && st.files[f].appends[i].appendId == n;
      assert st.files[f].appends[i] in st.files[f].appends;
    }
  }

  /** Removing a file removes its base and its appends from the disk, and nothing else. */
  lemma {:induction false} CollectDisk(w: World, st: Store, r: Range, names: seq<string>)
    requires GoodStore(w, st)
    ensures DiskFollows(st, Collect(st, r, names))
  {
    if names != [] {
      var k := |names| - 1;
      var g, st1, d := names[k], Collect(st, r, names[..k]), Collect(st, r, names);
      CollectDisk(w, st, r, names[..k]);
      CollectExact(w, st, r, names[..k]);
      if g in st1.files && d != st1 {
        assert KeepsFile(st, st1, g);
        FollowsOneMore(st, st1, g);
      }
    }
  }

  lemma FollowsOneMore(st: Store, st1: Store, g: string)
    requires DiskFollows(st, st1) && g in st1.files && g in st.files && st1.files[g] == st.files[g]
    ensures DiskFollows(st, DeleteFile(st1, g))
  {
    var d := DeleteFile(st1, g);
    forall n ensures n in d.disk <==> n in st.disk && forall f | Belongs(st, f, n) :: f in d.files {
      DeletedData(st1, g, n);
      assert Belongs(st1, g, n) <==> Belongs(st, g, n);
    }
    forall n | n in d.disk ensures d.disk[n] == st.disk[n] {
      DeletedData(st1, g, n);
    }
  }

  lemma KeepsThrough(a: Store, b: Store, c: Store, f: string)
    requires KeepsFile(a, b, f) && KeepsFile(b, c, f)
    ensures KeepsFile(a, c, f)
  {
  }

  /** The file's home is fewer than GcWidth steps back, or the window's ends carry one hash. */
  predicate InWindow(w: World, ms: seq<Member>, j: nat, f: string, rf: nat)
    requires j < |ms|
  {
    WholeRing(ms, j, rf) || Offset(HomePos(ms, w.hashOf(f)), j, |ms|) < GcWidth(rf, |ms|)
  }

  lemma CollectorDisk(w: World, st: Store, net: Net, ms: seq<Member>, me: NodeId, rf: nat)
    requires GoodStore(w, st)
    ensures DiskFollows(st, CollectGarbage(st, net, ms, me, rf))
  {
    var r := AllKeyRange(ms, me, rf);
    if r.Between? {
      CollectDisk(w, st, r.range, net.listing(me, st.files.Keys));
    }
  }

  /** A run of the collector leaves exactly the files of the server's window, each with all its data. The
      window has RF list positions, fewer in a ring of fewer than RF members; where its index would be
      negative the collector crashes and deletes nothing. */
  lemma CollectorKeepsWindow(w: World, st: Store, net: Net, ms: seq<Member>, j: nat, rf: nat)
    requires GoodStore(w, st) && Iterates(net) && RingList(ms) && j < |ms|
    ensures var d := CollectGarbage(st, net, ms, ms[j].id, rf);
            (WindowStart(j, rf, |ms|) < 0 ==> d == st) &&
            (WindowStart(j, rf, |ms|) >= 0 ==>
               forall f :: f in d.files <==> f in st.files && InWindow(w, ms, j, f, rf)) &&
            DiskFollows(st, d) && forall f | f in d.files :: KeepsFile(st, d, f)
  {
    NodeIndexAt(ms, j);
    var d := CollectGarbage(st, net, ms, ms[j].id, rf);
    if WindowStart(j, rf, |ms|) < 0 {
      forall f | f in d.files ensures KeepsFile(st, d, f) {
        KeepsItself(w, st, f);
      }
    } else {
      var names := net.listing(ms[j].id, st.files.Keys);
      ListingHas(net, ms[j].id, st.files.Keys);
      CollectExact(w, st, AllKeyRange(ms, ms[j].id, rf).range, names);
      CollectDisk(w, st, AllKeyRange(ms, ms[j].id, rf).range, names);
      forall f
        ensures f in d.files <==> f in st.files && InWindow(w, ms, j, f, rf)
      {
        GcWindow(ms, j, w.hashOf(f), rf);
      }
    }
  }

  /** The targets a collector would delete from, exactly: alive, within RF positions of the current
      primary, but not within RF positions of the hash's home, which still counts dead members. */
  lemma DroppedTargets(ms: seq<Member>, h: Hash, j: nat, rf: nat)
    requires RingList(ms) && HasAlive(ms) && j < |ms| && 1 <= rf <= |ms|
    ensures PrimaryIndex(ms, h) >= 0
    ensures ms[j] in Targets(ms, h, rf) && !GcKeeps(ms, ms[j].id, h, rf) <==>
            ms[j].IsAlive() && !WholeRing(ms, j, rf) &&
            Offset(PrimaryIndex(ms, h), j, |ms|) < rf <= Offset(HomePos(ms, h), j, |ms|)
  {
    PrimaryExists(ms, h);
    GcWindow(ms, j, h, rf);
    WindowHolds(ms, PrimaryIndex(ms, h), rf, j);
    AliveOfMembers(Window(ms, PrimaryIndex(ms, h), rf), ms[j]);
  }

  /** It happens: one member of four down, RF 3, and the third copy is on a server that collects it. */
  lemma CollectorDropsTarget(a: NodeId, b: NodeId, c: NodeId, d: NodeId)
    requires a != b && a != c && a != d && b != c && b != d && c != d
    ensures var ms := [Member(a, Dead, 1, 1, 0, 10), Member(b, Alive, 1, 1, 0, 20),
                       Member(c, Alive, 1, 1, 0, 30), Member(d, Alive, 1, 1, 0, 40)];
            RingList(ms) && DistinctHashes(ms) &&
            ms[3] in Targets(ms, 5, 3) && !GcKeeps(ms, d, 5, 3)
  {
    var ms := [Member(a, Dead, 1, 1, 0, 10), Member(b, Alive, 1, 1, 0, 20),
               Member(c, Alive, 1, 1, 0, 30), Member(d, Alive, 1, 1, 0, 40)];
    assert ms[1].IsAlive();
    assert PrimaryIndex(ms, 5) == 1 by { SecondIsPrimary(ms, 5); }
    assert HomePos(ms, 5) == 0;
    DroppedTargets(ms, 5, 3, 3);
  }

  lemma SecondIsPrimary(ms: seq<Member>, h: Hash)
    requires |ms| >= 2 && !ms[0].IsAlive() && ms[1].IsAlive() && ms[1].hash >= h
    ensures PrimaryIndex(ms, h) == 1
  {
    var up := FirstAliveAtLeast(ms, h, 0);
    assert up <= 1;
  }
}
