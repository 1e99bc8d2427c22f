/** The bytes readers get: a merge makes all replicas read alike, and a file pulled back after a loss
    reads as before but with its appends folded into the base. */
module FileContent {
  import opened Members
  import opened Ring
  import opened AppendLog
  import opened Storage
  import opened Cluster
  import opened Stabilization
  import opened Recovery

  /** If the file is listed, its base and its listed appends hold what was written under those names. */
  ghost predicate FaithfulStore(st: Store, f: string, data: string -> Bytes) {
    f in st.files ==>
      f in st.disk && st.disk[f] == data(f) &&
      forall a | a in st.files[f].appends :: a.appendId in st.disk && st.disk[a.appendId] == data(a.appendId)
  }

  ghost predicate Faithful(w: World, c: Stores, f: string, data: string -> Bytes) {
    Good(w, c) && forall n | n in c :: FaithfulStore(c[n], f, data)
  }

  lemma PutFileFaithful(w: World, st: Store, bytes: Bytes, meta: FileMetadata, f: string, data: string -> Bytes)
    requires GoodStore(w, st) && FaithfulStore(st, f, data) && GoodMeta(w, meta.fileName, meta)
    requires meta.fileName == f ==> bytes == data(f)
    ensures FaithfulStore(PutFile(st, bytes, meta), f, data)
  {
    if f in st.files {
      assert GoodMeta(w, f, st.files[f]);
    }
  }

  lemma PutAppendFaithful(w: World, st: Store, bytes: Bytes, a: AppendInfo, f: string, data: string -> Bytes)
    requires GoodStore(w, st) && FaithfulStore(st, f, data) && GoodAppend(w, a.fileName, a)
    requires a.fileName == f ==> bytes == data(a.appendId)
    ensures FaithfulStore(PutAppend(st, bytes, a), f, data)
  {
    if f in st.files {
      assert GoodMeta(w, f, st.files[f]);
      if a.fileName == f {
        InsertEmbeds(st.files[f].appends, a.(size := |bytes|));
      }
    }
  }

  // ----- stabilization keeps contents, whatever calls fail -----

  lemma PushAppendFaithful(w: World, c: Stores, net: Net, me: NodeId, t: NodeId, a: AppendInfo,
                           f: string, data: string -> Bytes)
    requires Faithful(w, c, f, data) && me in c && t != me && a.fileName in c[me].files
    requires a in c[me].files[a.fileName].appends && GoodAppend(w, a.fileName, a)
    ensures var d := PushAppend(c, net, me, t, a); Faithful(w, d, f, data) && d[me] == c[me]
  {
    PushAppendAdvances(w, c, net, me, t, a);
    if t in c && a.appendId in c[me].disk {
      PutAppendFaithful(w, c[t], c[me].disk[a.appendId], a, f, data);
    }
  }

  lemma {:induction false} PushAppendsFaithful(w: World, c: Stores, net: Net, me: NodeId, t: NodeId, g: string,
                                               remote: seq<AppendInfo>, apps: seq<AppendInfo>,
                                               f: string, data: string -> Bytes)
    requires Faithful(w, c, f, data) && me in c && t != me && g in c[me].files
    requires forall a | a in apps :: a in c[me].files[g].appends
    ensures var d := PushAppends(c, net, me, t, remote, apps); Faithful(w, d, f, data) && d[me] == c[me]
  {
    if apps != [] {
      var k := |apps| - 1;
      PushAppendsFaithful(w, c, net, me, t, g, remote, apps[..k], f, data);
      assert apps[k] in apps;
      assert GoodMeta(w, g, c[me].files[g]);
      PushAppendFaithful(w, PushAppends(c, net, me, t, remote, apps[..k]), net, me, t, apps[k], f, data);
    }
  }

  lemma PushBaseFaithful(w: World, c: Stores, net: Net, me: NodeId, t: NodeId, g: string, f: string,
                         data: string -> Bytes)
    requires Faithful(w, c, f, data) && me in c && t != me && g in c[me].files
    ensures var d := PushBase(c, net, me, t, g, c[me].files[g]); Faithful(w, d, f, data) && d[me] == c[me]
  {
    assert GoodMeta(w, g, c[me].files[g]);
    PushBaseAdvances(w, c, net, me, t, g);
    if t in c && g in c[me].disk {
      PutFileFaithful(w, c[t], c[me].disk[g], c[me].files[g], f, data);
    }
  }

  lemma PushFileFaithful(w: World, c: Stores, net: Net, me: NodeId, t: NodeId, known: map<string, FileMetadata>,
                         g: string, f: string, data: string -> Bytes)
    requires Faithful(w, c, f, data) && me in c && t != me
    ensures var d := PushFile(c, net, me, t, known, g); Faithful(w, d, f, data) && d[me] == c[me]
  {
    if g in c[me].files {
      var local := c[me].files[g];
      var outdated := g !in known || local.contentHash != known[g].contentHash;
      var c1 := if outdated then PushBase(c, net, me, t, g, local) else c;
      PushBaseFaithful(w, c, net, me, t, g, f, data);
      PushAppendsFaithful(w, c1, net, me, t, g, if g in known then known[g].appends else [], local.appends, f, data);
    }
  }

  lemma {:induction false} PushFilesFaithful(w: World, c: Stores, net: Net, me: NodeId, t: NodeId,
                                             known: map<string, FileMetadata>, names: seq<string>,
                                             f: string, data: string -> Bytes)
    requires Faithful(w, c, f, data) && me in c && t != me
    ensures var d := PushFiles(c, net, me, t, known, names); Faithful(w, d, f, data) && d[me] == c[me]
  {
    if names != [] {
      var k := |names| - 1;
      PushFilesFaithful(w, c, net, me, t, known, names[..k], f, data);
      PushFileFaithful(w, PushFiles(c, net, me, t, known, names[..k]), net, me, t, known, names[k], f, data);
    }
  }

  lemma {:induction false} PushSuccessorsFaithful(w: World, c: Stores, net: Net, me: NodeId, succs: seq<NodeId>,
                                                  r: Range, names: seq<string>, f: string, data: string -> Bytes)
    requires Faithful(w, c, f, data) && me in c && me !in succs
    ensures var d := PushSuccessors(c, net, me, succs, r, names); Faithful(w, d, f, data) && d[me] == c[me]
  {
    if succs != [] {
      var k := |succs| - 1;
      var c1 := PushSuccessors(c, net, me, succs[..k], r, names);
      PushSuccessorsFaithful(w, c, net, me, succs[..k], r, names, f, data);
      PushFilesFaithful(w, c1, net, me, succs[k], Fetch(c1, net.fetchForPush(succs[k]), succs[k], r), names, f, data);
    }
  }

  /** Downloads touch neither the base nor the listed appends of a file the puller lists. */
  lemma {:induction false} PullAppendsFaithful(w: World, c: Stores, net: Net, me: NodeId, t: NodeId, g: string,
                                               apps: seq<AppendInfo>, f: string, data: string -> Bytes)
    requires Faithful(w, c, f, data) && me in c && f in c[me].files && g in c[me].files
    requires forall a | a in apps :: GoodAppend(w, g, a)
    ensures Faithful(w, PullAppends(c, net, me, t, g, c[me].files[g].appends, apps), f, data)
  {
    PullAppendsAdvances(w, c, net, me, t, g, apps);
    if apps != [] {
      var k, local := |apps| - 1, c[me].files[g].appends;
      var c1 := PullAppends(c, net, me, t, g, local, apps[..k]);
      PullAppendsFaithful(w, c, net, me, t, g, apps[..k], f, data);
      PullAppendsAdvances(w, c, net, me, t, g, apps[..k]);
      assert apps[k] in apps;
      AppendNotServed(w, c1, net, t, apps[k]);
      if !HasAppend(local, apps[k].appendId) {
        ForgetName(w, c1[me], g, apps[k], f, data, net.receive(t, apps[k].appendId));
      }
    }
  }

  lemma ForgetName(w: World, st: Store, g: string, a: AppendInfo, f: string, data: string -> Bytes, o: Outcome)
    requires GoodStore(w, st) && FaithfulStore(st, f, data) && f in st.files && g in st.files && GoodAppend(w, g, a)
    requires !HasAppend(st.files[g].appends, a.appendId)
    ensures FaithfulStore(st.(disk := AfterFailure(st.disk, o, a.appendId)), f, data)
  {
    assert GoodMeta(w, f, st.files[f]);
    forall b | b in st.files[f].appends ensures b.appendId != a.appendId {
      var i :| 0 <= i < |st.files[f].appends| && st.files[f].appends[i] == b;
      assert GoodAppend(w, f, b);
    }
  }

  lemma GainFaithful(w: World, c: Stores, me: NodeId, g: string, remote: FileMetadata, bytes: Bytes,
                     f: string, data: string -> Bytes)
    requires Faithful(w, c, f, data) && me in c && f in c[me].files && g !in c[me].files && GoodMeta(w, g, remote)
    requires bytes != []
    ensures Faithful(w, c[me := Store(c[me].files[g := remote.(appends := [])], c[me].disk[g := bytes])], f, data)
  {
    assert GoodMeta(w, f, c[me].files[f]);
    GainFile(w, c, me, g, remote, bytes);
  }

  lemma MissFaithful(w: World, c: Stores, me: NodeId, g: string, o: Outcome, f: string, data: string -> Bytes)
    requires Faithful(w, c, f, data) && me in c && f in c[me].files && g !in c[me].files && w.kind(g) == None
    ensures Faithful(w, c[me := c[me].(disk := AfterFailure(c[me].disk, o, g))], f, data)
  {
    assert GoodMeta(w, f, c[me].files[f]);
    FailedPull(w, c, me, g, o);
  }

  lemma PullFileFaithful(w: World, c: Stores, net: Net, me: NodeId, t: NodeId, g: string, remote: FileMetadata,
                         f: string, data: string -> Bytes)
    requires Faithful(w, c, f, data) && me in c && f in c[me].files && GoodMeta(w, g, remote)
    ensures Faithful(w, PullFile(c, net, me, t, g, remote), f, data)
  {
    if g in c[me].files {
      PullAppendsFaithful(w, c, net, me, t, g, remote.appends, f, data);
    } else {
      var got := Download(c, net, t, g);
      if got.Some? {
        DownloadNonEmpty(w, c, net, t, g);
        GainFaithful(w, c, me, g, remote, got.value, f, data);
        var c1 := c[me := Store(c[me].files[g := remote.(appends := [])], c[me].disk[g := got.value])];
        PullAppendsFaithful(w, c1, net, me, t, g, remote.appends, f, data);
      } else {
        MissFaithful(w, c, me, g, net.receive(t, g), f, data);
      }
    }
  }

  lemma {:induction false} PullFilesFaithful(w: World, c: Stores, net: Net, me: NodeId, t: NodeId,
                                             metas: map<string, FileMetadata>, names: seq<string>,
                                             f: string, data: string -> Bytes)
    requires Faithful(w, c, f, data) && me in c && f in c[me].files
    requires (forall n | n in metas :: GoodMeta(w, n, metas[n])) && forall n | n in names :: n in metas
    ensures Faithful(w, PullFiles(c, net, me, t, metas, names), f, data)
  {
    if names != [] {
      var k := |names| - 1;
      PullFilesFaithful(w, c, net, me, t, metas, names[..k], f, data);
      PullFilesAdvances(w, c, net, me, t, metas, names[..k]);
      assert names[k] in names;
      PullFileFaithful(w, PullFiles(c, net, me, t, metas, names[..k]), net, me, t, names[k], metas[names[k]], f, data);
    }
  }

  lemma {:induction false} PullSuccessorsFaithful(w: World, c: Stores, net: Net, me: NodeId, succs: seq<NodeId>,
                                                  r: Range, f: string, data: string -> Bytes)
    requires Faithful(w, c, f, data) && me in c && f in c[me].files && Iterates(net)
    ensures Faithful(w, PullSuccessors(c, net, me, succs, r), f, data)
  {
    if succs != [] {
      var k := |succs| - 1;
      var c1 := PullSuccessors(c, net, me, succs[..k], r);
      PullSuccessorsFaithful(w, c, net, me, succs[..k], r, f, data);
      PullSuccessorsAdvances(w, c, net, me, succs[..k], r);
      var metas := Fetch(c1, net.fetchForPull(succs[k]), succs[k], r);
      ListingHas(net, succs[k], metas.Keys);
      PullFilesFaithful(w, c1, net, me, succs[k], metas, net.listing(succs[k], metas.Keys), f, data);
    }
  }

  /** Whatever calls fail, a stabilization run at a holder of the file leaves every copy with the bytes
      that were written. */
  lemma StabilizeFaithful(w: World, c: Stores, net: Net, ms: seq<Member>, me: NodeId, filename: string, rf: nat,
                          f: string, data: string -> Bytes)
    requires Faithful(w, c, f, data) && Running(c, ms, me, rf) && Iterates(net) && f in c[me].files
    ensures Faithful(w, Stabilize(c, net, ms, me, filename, rf), f, data)
  {
    SuccessorsArePeers(c, ms, me, rf);
    var r, succs := PrimaryRange(ms, me).value, SuccessorIds(ms, me, rf);
    var names := Chosen(net, me, c[me].files, r, filename);
    PushSuccessorsFaithful(w, c, net, me, succs, r, names, f, data);
    PullSuccessorsFaithful(w, PushSuccessors(c, net, me, succs, r, names), net, me, succs, r, f, data);
  }

  // ----- after a merge all replicas read alike -----

  lemma SetAppendsFaithful(st: Store, f: string, apps: seq<AppendInfo>, data: string -> Bytes)
    requires FaithfulStore(st, f, data) && f in st.files
    requires forall i | 0 <= i < |apps| :: HasAppend(st.files[f].appends, apps[i].appendId)
    ensures FaithfulStore(SetAppends(st, f, apps), f, data)
  {
    forall a | a in apps ensures a.appendId in st.disk && st.disk[a.appendId] == data(a.appendId) {
      var i :| 0 <= i < |apps| && apps[i] == a;
      var j :| 0 <= j < |st.files[f].appends| && st.files[f].appends[j].appendId == a.appendId;
      assert st.files[f].appends[j] in st.files[f].appends;
    }
  }

  lemma MergeTurnFaithful(w: World, c: Stores, mn: MergeNet, ms: seq<Member>, me: NodeId, t: NodeId, f: string, rf: nat,
                          data: string -> Bytes)
    requires Faithful(w, c, f, data) && Running(c, ms, me, rf) && t in SuccessorIds(ms, me, rf)
    requires mn.check && mn.recheck && mn.update && AllUp(mn.stabilize) && Iterates(mn.stabilize)
    requires f != "" && f in c[me].files && IsHashInRange(w.hashOf(f), PrimaryRange(ms, me).value)
    ensures Faithful(w, Turn(c, mn, ms, me, t, f, c[me].files[f], rf), f, data)
  {
    var local := c[me].files[f];
    var (c2, proceed) := EnsureInSync(c, mn, ms, me, t, f, local, rf);
    SuccessorsArePeers(c, ms, me, rf);
    StabilizeFor(w, c, mn.stabilize, ms, me, f, rf);
    StabilizeFaithful(w, c, mn.stabilize, ms, me, f, rf, f, data);
    if proceed {
      MatchCovers(w, c, c2, me, t, f, local);
      SyncFaithful(w, c2, mn, me, t, f, data);
    }
  }

  lemma SyncFaithful(w: World, c: Stores, mn: MergeNet, me: NodeId, t: NodeId, f: string, data: string -> Bytes)
    requires Faithful(w, c, f, data) && mn.recheck && mn.update && me in c && t in c && t != me
    requires f in c[me].files && f in c[t].files
    requires forall i | 0 <= i < |c[me].files[f].appends| ::
               HasAppend(c[t].files[f].appends, c[me].files[f].appends[i].appendId)
    ensures Faithful(w, SyncOrder(c, mn, t, f, c[me].files[f]), f, data)
  {
    ImposeOrder(w, c, me, t, f);
    SetAppendsFaithful(c[t], f, c[me].files[f].appends, data);
  }

  lemma {:induction false} MergeFaithful(w: World, c: Stores, nets: NodeId -> MergeNet, ms: seq<Member>, me: NodeId,
                                         done: seq<NodeId>, f: string, rf: nat, data: string -> Bytes)
    requires Faithful(w, c, f, data) && Running(c, ms, me, rf) && MergeUp(nets)
    requires forall t | t in done :: t in SuccessorIds(ms, me, rf)
    requires f != "" && f in c[me].files && IsHashInRange(w.hashOf(f), PrimaryRange(ms, me).value)
    ensures Faithful(w, MergeWith(c, nets, ms, me, done, f, c[me].files[f], rf), f, data)
  {
    if done != [] {
      var k := |done| - 1;
      assert done[k] in done;
      MergeFaithful(w, c, nets, ms, me, done[..k], f, rf, data);
      MergeLoop(w, c, nets, ms, me, done[..k], f, rf);
      MergeTurnFaithful(w, MergeWith(c, nets, ms, me, done[..k], f, c[me].files[f], rf), nets(done[k]), ms, me, done[k],
                        f, rf, data);
    }
  }

  lemma {:induction false} SamePathsSameBytes(a: map<string, Bytes>, b: map<string, Bytes>, paths: seq<string>, k: nat)
    requires k <= |paths|
    requires forall i | 0 <= i < |paths| :: paths[i] in a && paths[i] in b && a[paths[i]] == b[paths[i]]
    ensures ReadPaths(a, paths, k) == ReadPaths(b, paths, k)
  {
    if k > 0 {
      SamePathsSameBytes(a, b, paths, k - 1);
    }
  }

  lemma FaithfulPaths(w: World, st: Store, f: string, data: string -> Bytes)
    requires GoodStore(w, st) && FaithfulStore(st, f, data) && f in st.files
    ensures var paths := PathsOf(st.files[f]);
            forall i | 0 <= i < |paths| :: paths[i] in st.disk && st.disk[paths[i]] == data(paths[i])
  {
    assert GoodMeta(w, f, st.files[f]);
    var apps := st.files[f].appends;
    forall i | 0 <= i < |apps|
      ensures apps[i].appendId in st.disk && st.disk[apps[i].appendId] == data(apps[i].appendId)
    {
      assert apps[i] in apps;
    }
  }

  lemma SameIdsReadAlike(w: World, a: Store, b: Store, f: string, data: string -> Bytes)
    requires GoodStore(w, a) && GoodStore(w, b) && FaithfulStore(a, f, data) && FaithfulStore(b, f, data)
    requires f in a.files && f in b.files && Ids(a.files[f].appends) == Ids(b.files[f].appends)
    ensures ReadFile(a, f) == ReadFile(b, f)
  {
    assert GoodMeta(w, f, a.files[f]) && GoodMeta(w, f, b.files[f]);
    FaithfulPaths(w, a, f, data);
    FaithfulPaths(w, b, f, data);
    var paths := PathsOf(a.files[f]);
    assert paths == PathsOf(b.files[f]);
    SamePathsSameBytes(a.disk, b.disk, paths, |paths|);
  }

  /** After a successful merge, a reader gets from every successor the very bytes the primary held
      before, in the primary's append order. */
  lemma ReplicasReadAlike(w: World, c: Stores, nets: NodeId -> MergeNet, ms: seq<Member>, me: NodeId, f: string,
                          rf: nat, data: string -> Bytes)
    requires Faithful(w, c, f, data) && Running(c, ms, me, rf) && MergeUp(nets)
    requires f != "" && f in c[me].files && IsHashInRange(w.hashOf(f), PrimaryRange(ms, me).value)
    ensures var d := ExecuteMerge(c, nets, ms, me, f, rf);
            me in d && ReadFile(d[me], f) == ReadFile(c[me], f) &&
            forall t | t in SuccessorIds(ms, me, rf) :: t in d && ReadFile(d[t], f) == ReadFile(c[me], f)
  {
    var d := ExecuteMerge(c, nets, ms, me, f, rf);
    MergeConverges(w, c, nets, ms, me, f, rf);
    MergeFaithful(w, c, nets, ms, me, SuccessorIds(ms, me, rf), f, rf, data);
    SameIdsReadAlike(w, d[me], c[me], f, data);
    forall t | t in SuccessorIds(ms, me, rf) ensures ReadFile(d[t], f) == ReadFile(c[me], f) {
      SameIdsReadAlike(w, d[t], c[me], f, data);
    }
  }
}
