/** What a merge keeps when any of its calls may fail, and exactly when it leaves a successor listing
    appends whose data it does not have. */
module MergeFaults {
  import opened Members
  import opened Ring
  import opened AppendLog
  import opened Storage
  import opened SyncCheck
  import opened Cluster
  import opened Stabilization
  import opened Convergence
  import opened Recovery

  // ----- what every merge keeps -----

  /** Every server still lists its files, and their bases hold the same bytes. */
  ghost predicate KeepsFiles(c: Stores, d: Stores) {
    forall n | n in c ::
      n in d && forall g | g in c[n].files ::
        g in d[n].files && (g in c[n].disk ==> g in d[n].disk && d[n].disk[g] == c[n].disk[g])
  }

  lemma SyncKeepsFiles(w: World, c0: Stores, c: Stores, mn: MergeNet, t: NodeId, f: string, local: FileMetadata)
    requires KeepsFiles(c0, c) && Named(w, c) && GoodMeta(w, f, local)
    ensures KeepsFiles(c0, SyncOrder(c, mn, t, f, local)) && Named(w, SyncOrder(c, mn, t, f, local))
  {
    if t in c && f in c[t].files {
      var st := SetAppends(c[t], f, local.appends);
      assert GoodMeta(w, f, c[t].files[f]);
      assert NamedStore(w, st);
    }
  }

  lemma TurnKeepsFiles(w: World, c0: Stores, c: Stores, mn: MergeNet, ms: seq<Member>, me: NodeId, t: NodeId, f: string,
                       local: FileMetadata, rf: nat)
    requires KeepsFiles(c0, c) && Named(w, c) && GoodMeta(w, f, local) && me in c && Iterates(mn.stabilize)
    ensures KeepsFiles(c0, Turn(c, mn, ms, me, t, f, local, rf)) && Named(w, Turn(c, mn, ms, me, t, f, local, rf))
  {
    var c2 := EnsureInSync(c, mn, ms, me, t, f, local, rf).0;
    EnsureKeepsFiles(w, c, mn, ms, me, t, f, local, rf);
    KeepsFilesThrough(c0, c, c2);
    SyncKeepsFiles(w, c0, c2, mn, t, f, local);
  }

  lemma EnsureKeepsFiles(w: World, c: Stores, mn: MergeNet, ms: seq<Member>, me: NodeId, t: NodeId, f: string,
                         local: FileMetadata, rf: nat)
    requires Named(w, c) && me in c && Iterates(mn.stabilize)
    ensures var c2 := EnsureInSync(c, mn, ms, me, t, f, local, rf).0; KeepsFiles(c, c2) && Named(w, c2)
  {
    StabilizeLosesNothing(w, c, mn.stabilize, ms, me, f, rf);
    AdvanceKeepsFiles(w, c, Stabilize(c, mn.stabilize, ms, me, f, rf));
    AdvancesSelf(w, c);
    AdvanceKeepsFiles(w, c, c);
    EnsureChoice(c, mn, ms, me, t, f, local, rf);
  }

  lemma AdvanceKeepsFiles(w: World, c: Stores, d: Stores)
    requires Advances(w, c, d)
    ensures KeepsFiles(c, d)
  {
    forall n, g | n in c && g in c[n].files
      ensures g in d[n].files && (g in c[n].disk ==> g in d[n].disk && d[n].disk[g] == c[n].disk[g])
    {
      assert Grows(c[n], d[n]);
    }
  }

  /** The first half of a turn either stabilizes or changes nothing. */
  lemma EnsureChoice(c: Stores, mn: MergeNet, ms: seq<Member>, me: NodeId, t: NodeId, f: string,
                     local: FileMetadata, rf: nat)
    requires me in c && Iterates(mn.stabilize)
    ensures var c2 := EnsureInSync(c, mn, ms, me, t, f, local, rf).0;
            c2 == c || c2 == Stabilize(c, mn.stabilize, ms, me, f, rf)
  {
  }

  lemma KeepsFilesThrough(a: Stores, b: Stores, c: Stores)
    requires KeepsFiles(a, b) && KeepsFiles(b, c)
    ensures KeepsFiles(a, c)
  {
  }

  lemma {:induction false} LoopKeepsFiles(w: World, c: Stores, nets: NodeId -> MergeNet, ms: seq<Member>, me: NodeId,
                                          done: seq<NodeId>, f: string, local: FileMetadata, rf: nat)
    requires Named(w, c) && me in c && GoodMeta(w, f, local) && forall t :: Iterates(nets(t).stabilize)
    ensures var d := MergeWith(c, nets, ms, me, done, f, local, rf); KeepsFiles(c, d) && Named(w, d)
  {
    if done != [] {
      var k := |done| - 1;
      LoopKeepsFiles(w, c, nets, ms, me, done[..k], f, local, rf);
      var c1 := MergeWith(c, nets, ms, me, done[..k], f, local, rf);
      TurnKeepsFiles(w, c, c1, nets(done[k]), ms, me, done[k], f, local, rf);
    }
  }

  /** Whatever calls fail, a merge loses no file on any server, changes no base, and keeps the naming
      convention and the order of every append list. */
  lemma MergeKeepsFiles(w: World, c: Stores, nets: NodeId -> MergeNet, ms: seq<Member>, me: NodeId, f: string, rf: nat)
    requires Named(w, c) && me in c && forall t :: Iterates(nets(t).stabilize)
    ensures var d := ExecuteMerge(c, nets, ms, me, f, rf); KeepsFiles(c, d) && Named(w, d) && d.Keys == c.Keys
  {
    if f in c[me].files {
      LoopKeepsFiles(w, c, nets, ms, me, SuccessorIds(ms, me, rf), f, c[me].files[f], rf);
    }
  }

  // ----- which data a push delivers when calls fail -----

  lemma {:induction false} PushAppendsTouch(c: Stores, net: Net, me: NodeId, t: NodeId, remote: seq<AppendInfo>,
                                            apps: seq<AppendInfo>)
    requires me in c && t != me
    ensures var d := PushAppends(c, net, me, t, remote, apps); forall n | n in c && n != t :: d[n] == c[n]
  {
    if apps != [] {
      PushAppendsTouch(c, net, me, t, remote, apps[..|apps| - 1]);
    }
  }

  lemma {:induction false} PushFilesTouch(c: Stores, net: Net, me: NodeId, t: NodeId, known: map<string, FileMetadata>,
                                          names: seq<string>)
    requires me in c && t != me
    ensures var d := PushFiles(c, net, me, t, known, names); forall n | n in c && n != t :: d[n] == c[n]
  {
    if names != [] {
      var k := |names| - 1;
      PushFilesTouch(c, net, me, t, known, names[..k]);
      PushFileTouch(PushFiles(c, net, me, t, known, names[..k]), net, me, t, known, names[k]);
    }
  }

  lemma PushFileTouch(c: Stores, net: Net, me: NodeId, t: NodeId, known: map<string, FileMetadata>, f: string)
    requires me in c && t != me
    ensures var d := PushFile(c, net, me, t, known, f); forall n | n in c && n != t :: d[n] == c[n]
  {
    if f in c[me].files {
      var local := c[me].files[f];
      var outdated := f !in known || local.contentHash != known[f].contentHash;
      var c1 := if outdated then PushBase(c, net, me, t, f, local) else c;
      PushAppendsTouch(c1, net, me, t, if f in known then known[f].appends else [], local.appends);
    }
  }

  /** A push changes the successors and nobody else. */
  lemma {:induction false} PushSuccessorsTouch(c: Stores, net: Net, me: NodeId, succs: seq<NodeId>, r: Range,
                                               names: seq<string>)
    requires me in c && me !in succs
    ensures var d := PushSuccessors(c, net, me, succs, r, names); forall n | n in c && n !in succs :: d[n] == c[n]
  {
    if succs != [] {
      var k := |succs| - 1;
      var c1 := PushSuccessors(c, net, me, succs[..k], r, names);
      PushSuccessorsTouch(c, net, me, succs[..k], r, names);
      PushFilesTouch(c1, net, me, succs[k], Fetch(c1, net.fetchForPush(succs[k]), succs[k], r), names);
    }
  }

  /** The pusher has the data of every append it lists. */
  ghost predicate Backed(c: Stores, me: NodeId, f: string, apps: seq<AppendInfo>) {
    me in c && forall a | a in apps :: a.fileName == f && HasData(c[me].disk, a.appendId)
  }

  lemma PushAppendData(c: Stores, net: Net, me: NodeId, t: NodeId, f: string, a: AppendInfo, id: string)
    requires me in c && t in c && t != me && f in c[t].files && a.fileName == f && HasData(c[me].disk, a.appendId)
    ensures var d := PushAppend(c, net, me, t, a);
            d[me] == c[me] && f in d[t].files &&
            (HasData(d[t].disk, id) <==> HasData(c[t].disk, id) || (id == a.appendId && net.sendAppend(t, id)))
  {
  }

  /** The target ends with data under `id` if it had some, or the append was missing and its transfer succeeded. */
  lemma {:induction false} PushAppendsData(c: Stores, net: Net, me: NodeId, t: NodeId, f: string,
                                           remote: seq<AppendInfo>, apps: seq<AppendInfo>, id: string)
    requires Backed(c, me, f, apps) && t in c && t != me && f in c[t].files
    ensures var d := PushAppends(c, net, me, t, remote, apps);
            d[me] == c[me] && f in d[t].files &&
            (HasData(d[t].disk, id) <==>
             HasData(c[t].disk, id) || (HasAppend(apps, id) && !HasAppend(remote, id) && net.sendAppend(t, id)))
  {
    if apps != [] {
      var k := |apps| - 1;
      assert apps[k] in apps;
      assert Backed(c, me, f, apps[..k]);
      PushAppendsData(c, net, me, t, f, remote, apps[..k], id);
      PushAppendData(PushAppends(c, net, me, t, remote, apps[..k]), net, me, t, f, apps[k], id);
      HasAppendLast(apps, id);
    }
  }

  lemma HasAppendLast(apps: seq<AppendInfo>, id: string)
    requires apps != []
    ensures var k := |apps| - 1; HasAppend(apps, id) <==> HasAppend(apps[..k], id) || apps[k].appendId == id
  {
    var k := |apps| - 1;
    assert apps == apps[..k] + [apps[k]];
    HasAppendConcat(apps[..k], [apps[k]], id);
    assert [apps[k]][0] == apps[k];
  }

  /** One file to a target that lists it: the base is refused, so only appends move. */
  lemma PushFileData(w: World, c: Stores, net: Net, me: NodeId, t: NodeId, known: map<string, FileMetadata>, f: string,
                     id: string)
    requires Good(w, c) && me in c && t in c && t != me && f in c[me].files && f in c[t].files
    requires f in known ==> known[f] == c[t].files[f]
    ensures var d := PushFile(c, net, me, t, known, f);
            HasData(d[t].disk, id) <==>
            HasData(c[t].disk, id) ||
            (HasAppend(c[me].files[f].appends, id) && !(f in known && HasAppend(c[t].files[f].appends, id)) &&
             net.sendAppend(t, id))
  {
    var local := c[me].files[f];
    assert GoodMeta(w, f, local) && StockedFile(c[me], f);
    assert PushBase(c, net, me, t, f, local) == c by { assert c[t := c[t]] == c; }
    PushAppendsData(c, net, me, t, f, if f in known then known[f].appends else [], local.appends, id);
  }

  lemma ListedHasData(w: World, st: Store, f: string, id: string)
    requires GoodStore(w, st) && f in st.files && HasAppend(st.files[f].appends, id)
    ensures HasData(st.disk, id)
  {
    assert StockedFile(st, f);
    var i :| 0 <= i < |st.files[f].appends| && st.files[f].appends[i].appendId == id;
    assert st.files[f].appends[i] in st.files[f].appends;
  }

  lemma PushToData(w: World, c: Stores, net: Net, me: NodeId, t: NodeId, r: Range, f: string, id: string)
    requires Good(w, c) && me in c && t in c && t != me && f in c[me].files && f in c[t].files
    ensures var d := PushTo(c, net, me, t, r, [f]);
            HasData(d[t].disk, id) <==>
            HasData(c[t].disk, id) || (HasAppend(c[me].files[f].appends, id) && net.sendAppend(t, id))
  {
    var known := Fetch(c, net.fetchForPush(t), t, r);
    PushOneOnly(c, net, me, t, known, f);
    PushFileData(w, c, net, me, t, known, f, id);
    if HasAppend(c[t].files[f].appends, id) {
      ListedHasData(w, c[t], f, id);
    }
  }

  lemma PushOneOnly(c: Stores, net: Net, me: NodeId, t: NodeId, known: map<string, FileMetadata>, f: string)
    requires me in c
    ensures PushFiles(c, net, me, t, known, [f]) == PushFile(c, net, me, t, known, f)
  {
    var names := [f];
    assert names[..|names| - 1] == [];
  }

  lemma {:induction false} PushSuccessorsData(w: World, c: Stores, net: Net, me: NodeId, succs: seq<NodeId>, r: Range,
                                              f: string, t: NodeId, id: string)
    requires Good(w, c) && Peers(c, me, succs) && me in c && t in succs && f in c[me].files && f in c[t].files
    ensures var d := PushSuccessors(c, net, me, succs, r, [f]);
            HasData(d[t].disk, id) <==>
            HasData(c[t].disk, id) || (HasAppend(c[me].files[f].appends, id) && net.sendAppend(t, id))
  {
    var k := |succs| - 1;
    PeersInit(c, me, succs);
    if t == succs[k] {
      LastData(w, c, net, me, succs, r, f, id);
    } else {
      PushSuccessorsData(w, c, net, me, succs[..k], r, f, t, id);
      OnlyLastTouched(c, net, me, succs, r, [f], t);
    }
  }

  lemma PeersInit(c: Stores, me: NodeId, succs: seq<NodeId>)
    requires Peers(c, me, succs) && succs != []
    ensures var k := |succs| - 1;
            Peers(c, me, succs[..k]) && succs[k] in c && succs[k] != me && succs[k] !in succs[..k] &&
            forall t | t in succs && t != succs[k] :: t in succs[..k]
  {
    var k := |succs| - 1;
    assert succs[k] in succs;
    assert succs == succs[..k] + [succs[k]];
  }

  lemma LastData(w: World, c: Stores, net: Net, me: NodeId, succs: seq<NodeId>, r: Range, f: string, id: string)
    requires Good(w, c) && Peers(c, me, succs) && me in c && succs != [] && f in c[me].files
    requires f in c[succs[|succs| - 1]].files
    ensures var t := succs[|succs| - 1];
            HasData(PushSuccessors(c, net, me, succs, r, [f])[t].disk, id) <==>
            HasData(c[t].disk, id) || (HasAppend(c[me].files[f].appends, id) && net.sendAppend(t, id))
  {
    var k := |succs| - 1;
    PeersInit(c, me, succs);
    PushSuccessorsTouch(c, net, me, succs[..k], r, [f]);
    PushSuccessorsAdvances(w, c, net, me, succs[..k], r, [f]);
    PushToData(w, PushSuccessors(c, net, me, succs[..k], r, [f]), net, me, succs[k], r, f, id);
  }

  lemma OnlyLastTouched(c: Stores, net: Net, me: NodeId, succs: seq<NodeId>, r: Range, names: seq<string>, t: NodeId)
    requires me in c && succs != [] && succs[|succs| - 1] != me && t in c && t != succs[|succs| - 1]
    ensures PushSuccessors(c, net, me, succs, r, names)[t] ==
            PushSuccessors(c, net, me, succs[..|succs| - 1], r, names)[t]
  {
    var k := |succs| - 1;
    var c1 := PushSuccessors(c, net, me, succs[..k], r, names);
    PushFilesTouch(c1, net, me, succs[k], Fetch(c1, net.fetchForPush(succs[k]), succs[k], r), names);
  }

  /** A stabilization for `f`, whatever calls fail: a successor that lists `f` has the data of one of the
      node's appends afterwards if it had it before, or if the transfer of that append succeeds. */
  lemma StabilizeData(w: World, c: Stores, net: Net, ms: seq<Member>, me: NodeId, f: string, rf: nat, t: NodeId,
                      id: string)
    requires Good(w, c) && Running(c, ms, me, rf) && Iterates(net) && t in SuccessorIds(ms, me, rf)
    requires f != "" && f in c[me].files && IsHashInRange(w.hashOf(f), PrimaryRange(ms, me).value) && f in c[t].files
    ensures HasData(Stabilize(c, net, ms, me, f, rf)[t].disk, id) <==>
            HasData(c[t].disk, id) || (HasAppend(c[me].files[f].appends, id) && net.sendAppend(t, id))
  {
    var r, succs := PrimaryRange(ms, me).value, SuccessorIds(ms, me, rf);
    SuccessorsArePeers(c, ms, me, rf);
    NamesAgree(w, c, me, r);
    assert f in Names(c, me, r);
    PushSuccessorsData(w, c, net, me, succs, r, f, t, id);
    PushSuccessorsAdvances(w, c, net, me, succs, r, [f]);
    PullSuccessorsAdvances(w, PushSuccessors(c, net, me, succs, r, [f]), net, me, succs, r);
  }

  // ----- which files a push delivers when calls fail -----

  lemma {:induction false} PushAppendsFiles(c: Stores, net: Net, me: NodeId, t: NodeId, remote: seq<AppendInfo>,
                                            apps: seq<AppendInfo>)
    requires me in c && t in c && t != me
    ensures PushAppends(c, net, me, t, remote, apps)[t].files.Keys == c[t].files.Keys
  {
    if apps != [] {
      PushAppendsFiles(c, net, me, t, remote, apps[..|apps| - 1]);
      PushAppendsTouch(c, net, me, t, remote, apps[..|apps| - 1]);
    }
  }

  lemma PushToFiles(w: World, c: Stores, net: Net, me: NodeId, t: NodeId, r: Range, f: string)
    requires Good(w, c) && me in c && t in c && t != me && f in c[me].files
    ensures f in PushTo(c, net, me, t, r, [f])[t].files <==> f in c[t].files || net.sendFile(t, f)
  {
    var known, local := Fetch(c, net.fetchForPush(t), t, r), c[me].files[f];
    assert GoodMeta(w, f, local) && StockedFile(c[me], f);
    PushOneOnly(c, net, me, t, known, f);
    var c1 := if f !in known || local.contentHash != known[f].contentHash then PushBase(c, net, me, t, f, local) else c;
    PushAppendsFiles(c1, net, me, t, if f in known then known[f].appends else [], local.appends);
  }

  lemma {:induction false} PushSuccessorsFiles(w: World, c: Stores, net: Net, me: NodeId, succs: seq<NodeId>, r: Range,
                                               f: string, t: NodeId)
    requires Good(w, c) && Peers(c, me, succs) && me in c && t in succs && f in c[me].files
    ensures f in PushSuccessors(c, net, me, succs, r, [f])[t].files <==> f in c[t].files || net.sendFile(t, f)
  {
    var k := |succs| - 1;
    PeersInit(c, me, succs);
    if t == succs[k] {
      PushSuccessorsTouch(c, net, me, succs[..k], r, [f]);
      PushSuccessorsAdvances(w, c, net, me, succs[..k], r, [f]);
      PushToFiles(w, PushSuccessors(c, net, me, succs[..k], r, [f]), net, me, t, r, f);
    } else {
      PushSuccessorsFiles(w, c, net, me, succs[..k], r, f, t);
      OnlyLastTouched(c, net, me, succs, r, [f], t);
    }
  }

  /** A stabilization for `f`, whatever calls fail: a successor holds `f` afterwards exactly if it did before
      or the transfer to it succeeds. */
  lemma StabilizeFiles(w: World, c: Stores, net: Net, ms: seq<Member>, me: NodeId, f: string, rf: nat, t: NodeId)
    requires Good(w, c) && Running(c, ms, me, rf) && Iterates(net) && t in SuccessorIds(ms, me, rf)
    requires f != "" && f in c[me].files && IsHashInRange(w.hashOf(f), PrimaryRange(ms, me).value)
    ensures f in Stabilize(c, net, ms, me, f, rf)[t].files <==> f in c[t].files || net.sendFile(t, f)
  {
    var r, succs := PrimaryRange(ms, me).value, SuccessorIds(ms, me, rf);
    SuccessorsArePeers(c, ms, me, rf);
    NamesAgree(w, c, me, r);
    assert f in Names(c, me, r);
    PushSuccessorsFiles(w, c, net, me, succs, r, f, t);
    PushSuccessorsAdvances(w, c, net, me, succs, r, [f]);
    PullSuccessorsAdvances(w, PushSuccessors(c, net, me, succs, r, [f]), net, me, succs, r);
  }

  // ----- what a run leaves on the puller's disk -----

  /** No append's data is there that was not there before. */
  ghost predicate NoNewAppends(w: World, before: map<string, Bytes>, after: map<string, Bytes>) {
    forall n | n in after && w.kind(n).Some? :: n in before && after[n] == before[n]
  }

  /** The download of an append fails and leaves nothing under its name, once its stream was opened. */
  lemma FailedAppendGone(w: World, c: Stores, net: Net, me: NodeId, t: NodeId, f: string, a: AppendInfo)
    requires Named(w, c) && me in c && GoodAppend(w, a.fileName, a)
    ensures var d := PullAppend(c, net, me, t, f, a);
            d[me].files == c[me].files && NoNewAppends(w, c[me].disk, d[me].disk) &&
            (net.receive(t, a.appendId) != NoStream ==> a.appendId !in d[me].disk) &&
            forall n | n != a.appendId :: (n in d[me].disk <==> n in c[me].disk) &&
                                          (n in c[me].disk ==> d[me].disk[n] == c[me].disk[n])
  {
    AppendNotServed(w, c, net, t, a);
  }

  lemma {:induction false} PullAppendsNoNew(w: World, c: Stores, net: Net, me: NodeId, t: NodeId, f: string,
                                            apps: seq<AppendInfo>)
    requires Named(w, c) && me in c && f in c[me].files && forall a | a in apps :: GoodAppend(w, f, a)
    ensures NoNewAppends(w, c[me].disk, PullAppends(c, net, me, t, f, c[me].files[f].appends, apps)[me].disk)
  {
    if apps != [] {
      var k, local := |apps| - 1, c[me].files[f].appends;
      PullAppendsNoNew(w, c, net, me, t, f, apps[..k]);
      PullAppendsAdvances(w, c, net, me, t, f, apps[..k]);
      assert apps[k] in apps;
      FailedAppendGone(w, PullAppends(c, net, me, t, f, local, apps[..k]), net, me, t, f, apps[k]);
    }
  }

  lemma PullFileNoNew(w: World, c: Stores, net: Net, me: NodeId, t: NodeId, f: string, remote: FileMetadata)
    requires Named(w, c) && me in c && GoodMeta(w, f, remote)
    ensures NoNewAppends(w, c[me].disk, PullFile(c, net, me, t, f, remote)[me].disk)
  {
    if f in c[me].files {
      PullAppendsNoNew(w, c, net, me, t, f, remote.appends);
    } else {
      var data := Download(c, net, t, f);
      if data.Some? {
        var c1 := c[me := Store(c[me].files[f := remote.(appends := [])], c[me].disk[f := data.value])];
        if Good(w, c) {
          DownloadNonEmpty(w, c, net, t, f);
        }
        GainFile(w, c, me, f, remote, data.value);
        PullAppendsNoNew(w, c1, net, me, t, f, remote.appends);
      }
    }
  }

  lemma {:induction false} PullFilesNoNew(w: World, c: Stores, net: Net, me: NodeId, t: NodeId,
                                          metas: map<string, FileMetadata>, names: seq<string>)
    requires Named(w, c) && me in c
    requires (forall n | n in metas :: GoodMeta(w, n, metas[n])) && forall n | n in names :: n in metas
    ensures NoNewAppends(w, c[me].disk, PullFiles(c, net, me, t, metas, names)[me].disk)
  {
    if names != [] {
      var k := |names| - 1;
      PullFilesNoNew(w, c, net, me, t, metas, names[..k]);
      PullFilesAdvances(w, c, net, me, t, metas, names[..k]);
      assert names[k] in names;
      PullFileNoNew(w, PullFiles(c, net, me, t, metas, names[..k]), net, me, t, names[k], metas[names[k]]);
    }
  }

  lemma {:induction false} PullSuccessorsNoNew(w: World, c: Stores, net: Net, me: NodeId, succs: seq<NodeId>, r: Range)
    requires Named(w, c) && me in c && Iterates(net)
    ensures NoNewAppends(w, c[me].disk, PullSuccessors(c, net, me, succs, r)[me].disk)
  {
    if succs != [] {
      var k := |succs| - 1;
      var c1 := PullSuccessors(c, net, me, succs[..k], r);
      PullSuccessorsNoNew(w, c, net, me, succs[..k], r);
      PullSuccessorsAdvances(w, c, net, me, succs[..k], r);
      var metas := Fetch(c1, net.fetchForPull(succs[k]), succs[k], r);
      ListingHas(net, succs[k], metas.Keys);
      PullFilesNoNew(w, c1, net, me, succs[k], metas, net.listing(succs[k], metas.Keys));
    }
  }

  /** Whatever calls fail, after a stabilization the server that ran it has no append data it did not have:
      the failed downloads leave nothing behind. */
  lemma StabilizeNoNewAppends(w: World, c: Stores, net: Net, ms: seq<Member>, me: NodeId, filename: string, rf: nat)
    requires Named(w, c) && Running(c, ms, me, rf) && Iterates(net)
    ensures NoNewAppends(w, c[me].disk, Stabilize(c, net, ms, me, filename, rf)[me].disk)
  {
    SuccessorsArePeers(c, ms, me, rf);
    var r, succs := PrimaryRange(ms, me).value, SuccessorIds(ms, me, rf);
    var names := Chosen(net, me, c[me].files, r, filename);
    PushSuccessorsTouch(c, net, me, succs, r, names);
    PushSuccessorsAdvances(w, c, net, me, succs, r, names);
    PullSuccessorsNoNew(w, PushSuccessors(c, net, me, succs, r, names), net, me, succs, r);
  }

  /** Every append the other server lists and the puller does not is asked for: afterwards there is nothing
      under its name, once its stream was opened. */
  lemma {:induction false} MissingAppendsTried(w: World, c: Stores, net: Net, me: NodeId, t: NodeId, f: string,
                                               apps: seq<AppendInfo>, id: string)
    requires Named(w, c) && me in c && f in c[me].files && forall a | a in apps :: GoodAppend(w, f, a)
    requires HasAppend(apps, id) && !HasAppend(c[me].files[f].appends, id) && net.receive(t, id) != NoStream
    ensures id !in PullAppends(c, net, me, t, f, c[me].files[f].appends, apps)[me].disk
  {
    var k, local := |apps| - 1, c[me].files[f].appends;
    var c1 := PullAppends(c, net, me, t, f, local, apps[..k]);
    PullAppendsAdvances(w, c, net, me, t, f, apps[..k]);
    assert apps[k] in apps;
    HasAppendLast(apps, id);
    FailedAppendGone(w, c1, net, me, t, f, apps[k]);
    if HasAppend(apps[..k], id) {
      MissingAppendsTried(w, c, net, me, t, f, apps[..k], id);
    }
  }

  /** Where the naming convention is broken and an AppendID is also a file name at the other server, the
      download succeeds: the puller files the append and its data. */
  lemma ServedAppendFiled(c: Stores, net: Net, me: NodeId, t: NodeId, f: string, a: AppendInfo)
    requires me in c && t in c && net.receive(t, a.appendId) == Complete && a.appendId in c[t].files && f in c[me].files
    ensures var d := PullAppend(c, net, me, t, f, a);
            a.appendId in d[me].disk && ReadFile(c[t], a.appendId) == Some(d[me].disk[a.appendId]) &&
            f in d[me].files && HasAppend(d[me].files[f].appends, a.appendId) &&
            forall id :: HasAppend(c[me].files[f].appends, id) ==> HasAppend(d[me].files[f].appends, id)
  {
    forall id ensures HasAppend(AppendTo(c[me].files[f].appends, a), id) <==>
                      HasAppend(c[me].files[f].appends, id) || id == a.appendId
    {
      AppendToIds(c[me].files[f].appends, a, id);
    }
  }

  // ----- when a turn leaves data missing -----

  /** Each of the primary's appends is on the successor's disk before its turn, or its transfer succeeds. */
  ghost predicate WillHold(c: Stores, mn: MergeNet, t: NodeId, local: FileMetadata) {
    t in c && forall a | a in local.appends :: HasData(c[t].disk, a.appendId) || mn.stabilize.sendAppend(t, a.appendId)
  }

  /** The calls that lead to imposing the order get through. */
  predicate Imposes(c: Stores, mn: MergeNet, t: NodeId, f: string) {
    mn.check && mn.recheck && mn.update && t in c && f in c[t].files
  }

  /** Imposing the list keeps the data complete exactly when every append of the list has its data on the
      successor's disk at that moment. */
  lemma ImposedStocked(w: World, c: Stores, mn: MergeNet, me: NodeId, t: NodeId, f: string)
    requires Good(w, c) && me in c && t in c && f in c[me].files && f in c[t].files && mn.recheck && mn.update
    ensures Named(w, SyncOrder(c, mn, t, f, c[me].files[f]))
    ensures Good(w, SyncOrder(c, mn, t, f, c[me].files[f])) <==>
            forall a | a in c[me].files[f].appends :: HasData(c[t].disk, a.appendId)
  {
    var local := c[me].files[f];
    var st := SetAppends(c[t], f, local.appends);
    assert GoodMeta(w, f, local) && GoodMeta(w, f, c[t].files[f]);
    SyncKeepsFiles(w, c, c, mn, t, f, local) by { assert KeepsFiles(c, c); }
    if Ids(local.appends) == Ids(c[t].files[f].appends) {
      forall a | a in local.appends ensures HasData(c[t].disk, a.appendId) {
        IdsCarry(local.appends, c[t].files[f].appends, a);
        ListedHasData(w, c[t], f, a.appendId);
      }
    } else {
      if forall a | a in local.appends :: HasData(c[t].disk, a.appendId) {
        OthersStocked(w, c[t], f, local.appends);
      }
      assert Good(w, c[t := st]) ==> StockedFile(st, f);
    }
  }

  lemma IdsCarry(s: seq<AppendInfo>, t: seq<AppendInfo>, a: AppendInfo)
    requires Ids(s) == Ids(t) && a in s
    ensures HasAppend(t, a.appendId)
  {
    var i :| 0 <= i < |s| && s[i] == a;
    assert Ids(t)[i] == a.appendId;
  }

  lemma OthersStocked(w: World, st: Store, f: string, apps: seq<AppendInfo>)
    requires GoodStore(w, st) && f in st.files && forall a | a in apps :: HasData(st.disk, a.appendId)
    ensures forall g | g in st.files :: StockedFile(SetAppends(st, f, apps), g)
  {
    forall g | g in st.files ensures StockedFile(SetAppends(st, f, apps), g) {
      assert StockedFile(st, g);
    }
  }

  /** One successor's turn, whatever calls fail, from well-formed stores: all listed data is still on disk
      afterwards if and only if the order is not imposed or each of the primary's appends is on the
      successor's disk already or gets there. */
  lemma TurnStaysGood(w: World, c: Stores, mn: MergeNet, ms: seq<Member>, me: NodeId, t: NodeId, f: string, rf: nat)
    requires Good(w, c) && Running(c, ms, me, rf) && Iterates(mn.stabilize) && t in SuccessorIds(ms, me, rf)
    requires f != "" && f in c[me].files && IsHashInRange(w.hashOf(f), PrimaryRange(ms, me).value)
    ensures Good(w, Turn(c, mn, ms, me, t, f, c[me].files[f], rf)) <==>
            (Imposes(c, mn, t, f) ==> WillHold(c, mn, t, c[me].files[f]))
  {
    var local := c[me].files[f];
    var (c2, proceed) := EnsureInSync(c, mn, ms, me, t, f, local, rf);
    EnsureStaysGood(w, c, mn, ms, me, t, f, rf);
    if proceed {
      HeldAfterEnsure(w, c, mn, ms, me, t, f, rf);
      if mn.recheck && mn.update {
        ImposedStocked(w, c2, mn, me, t, f);
      }
    }
  }

  lemma EnsureStaysGood(w: World, c: Stores, mn: MergeNet, ms: seq<Member>, me: NodeId, t: NodeId, f: string, rf: nat)
    requires Good(w, c) && Running(c, ms, me, rf) && Iterates(mn.stabilize) && f in c[me].files && t in c
    ensures var c2 := EnsureInSync(c, mn, ms, me, t, f, c[me].files[f], rf).0;
            Good(w, c2) && f in c2[me].files && c2[me].files[f] == c[me].files[f] &&
            (f in c[t].files ==> f in c2[t].files)
  {
    StabilizeLosesNothing(w, c, mn.stabilize, ms, me, f, rf);
    StabilizeKeepsOwn(w, c, mn.stabilize, ms, me, f, rf);
    EnsureKeepsFiles(w, c, mn, ms, me, t, f, c[me].files[f], rf);
    EnsureChoice(c, mn, ms, me, t, f, c[me].files[f], rf);
  }

  /** The node's own entry does not change, since no append can be pulled. */
  lemma StabilizeKeepsOwn(w: World, c: Stores, net: Net, ms: seq<Member>, me: NodeId, f: string, rf: nat)
    requires Named(w, c) && Running(c, ms, me, rf) && Iterates(net) && f in c[me].files
    ensures var d := Stabilize(c, net, ms, me, f, rf); f in d[me].files && d[me].files[f] == c[me].files[f]
  {
    SuccessorsArePeers(c, ms, me, rf);
    var r, succs := PrimaryRange(ms, me).value, SuccessorIds(ms, me, rf);
    var names := Chosen(net, me, c[me].files, r, f);
    PushSuccessorsTouch(c, net, me, succs, r, names);
    PushSuccessorsAdvances(w, c, net, me, succs, r, names);
    PullSuccessorsKeepsOwn(w, PushSuccessors(c, net, me, succs, r, names), net, me, succs, r, f);
  }

  lemma {:induction false} PullSuccessorsKeepsOwn(w: World, c: Stores, net: Net, me: NodeId, succs: seq<NodeId>,
                                                  r: Range, f: string)
    requires Named(w, c) && me in c && Iterates(net) && f in c[me].files
    ensures var d := PullSuccessors(c, net, me, succs, r); f in d[me].files && d[me].files[f] == c[me].files[f]
  {
    if succs != [] {
      var k := |succs| - 1;
      var c1 := PullSuccessors(c, net, me, succs[..k], r);
      PullSuccessorsKeepsOwn(w, c, net, me, succs[..k], r, f);
      PullSuccessorsAdvances(w, c, net, me, succs[..k], r);
      var metas := Fetch(c1, net.fetchForPull(succs[k]), succs[k], r);
      ListingHas(net, succs[k], metas.Keys);
      PullFilesKeepsOwn(w, c1, net, me, succs[k], metas, net.listing(succs[k], metas.Keys), f);
    }
  }

  lemma PullFileKeepsOwn(w: World, c: Stores, net: Net, me: NodeId, t: NodeId, g: string, remote: FileMetadata,
                         f: string)
    requires Named(w, c) && me in c && f in c[me].files && GoodMeta(w, g, remote)
    ensures var d := PullFile(c, net, me, t, g, remote); f in d[me].files && d[me].files[f] == c[me].files[f]
  {
    PullFileAdvances(w, c, net, me, t, g, remote);
  }

  lemma {:induction false} PullFilesKeepsOwn(w: World, c: Stores, net: Net, me: NodeId, t: NodeId,
                                             metas: map<string, FileMetadata>, names: seq<string>, f: string)
    requires Named(w, c) && me in c && f in c[me].files
    requires (forall n | n in metas :: GoodMeta(w, n, metas[n])) && forall n | n in names :: n in metas
    ensures var d := PullFiles(c, net, me, t, metas, names); f in d[me].files && d[me].files[f] == c[me].files[f]
  {
    if names != [] {
      var k := |names| - 1;
      PullFilesKeepsOwn(w, c, net, me, t, metas, names[..k], f);
      PullFilesAdvances(w, c, net, me, t, metas, names[..k]);
      assert names[k] in names;
      PullFileKeepsOwn(w, PullFiles(c, net, me, t, metas, names[..k]), net, me, t, names[k], metas[names[k]], f);
    }
  }

  /** After the first half of a turn the successor has exactly the data it had or was sent. */
  lemma HeldAfterEnsure(w: World, c: Stores, mn: MergeNet, ms: seq<Member>, me: NodeId, t: NodeId, f: string, rf: nat)
    requires Good(w, c) && Running(c, ms, me, rf) && Iterates(mn.stabilize) && t in SuccessorIds(ms, me, rf)
    requires f != "" && f in c[me].files && IsHashInRange(w.hashOf(f), PrimaryRange(ms, me).value)
    requires mn.check && f in c[t].files
    ensures var local := c[me].files[f];
            (forall a | a in local.appends ::
               HasData(EnsureInSync(c, mn, ms, me, t, f, local, rf).0[t].disk, a.appendId))
            <==> WillHold(c, mn, t, local)
  {
    var local := c[me].files[f];
    var c2 := EnsureInSync(c, mn, ms, me, t, f, local, rf).0;
    forall a | a in local.appends
      ensures HasData(c2[t].disk, a.appendId) <==>
              HasData(c[t].disk, a.appendId) || mn.stabilize.sendAppend(t, a.appendId)
    {
      var i :| 0 <= i < |local.appends| && local.appends[i] == a;
      assert HasAppend(local.appends, a.appendId);
      if Match(local, c[t].files[f]) {
        MatchedHasData(w, c[t], f, local, a);
      } else {
        StabilizeData(w, c, mn.stabilize, ms, me, f, rf, t, a.appendId);
      }
    }
  }

  lemma MatchedHasData(w: World, st: Store, f: string, local: FileMetadata, a: AppendInfo)
    requires GoodStore(w, st) && f in st.files && Match(local, st.files[f]) && a in local.appends
    ensures HasData(st.disk, a.appendId)
  {
    assert GoodMeta(w, f, st.files[f]);
    MatchExact(local, st.files[f]);
    var i :| 0 <= i < |local.appends| && local.appends[i] == a;
    assert Ids(local.appends)[i] in multiset(Ids(st.files[f].appends));
    IdsHold(st.files[f].appends, a.appendId);
    ListedHasData(w, st, f, a.appendId);
  }

  ghost predicate SendsAppends(nets: NodeId -> MergeNet) {
    forall t :: Iterates(nets(t).stabilize) && forall id :: nets(t).stabilize.sendAppend(t, id)
  }

  /** A merge in which every append transfer succeeds, whatever else fails, leaves all listed data on disk. */
  lemma MergeStaysGood(w: World, c: Stores, nets: NodeId -> MergeNet, ms: seq<Member>, me: NodeId, f: string, rf: nat)
    requires Good(w, c) && Running(c, ms, me, rf) && SendsAppends(nets)
    requires f != "" && f in c[me].files && IsHashInRange(w.hashOf(f), PrimaryRange(ms, me).value)
    ensures Good(w, ExecuteMerge(c, nets, ms, me, f, rf))
  {
    LoopStaysGood(w, c, nets, ms, me, SuccessorIds(ms, me, rf), f, rf);
  }

  lemma {:induction false} LoopStaysGood(w: World, c: Stores, nets: NodeId -> MergeNet, ms: seq<Member>, me: NodeId,
                                         done: seq<NodeId>, f: string, rf: nat)
    requires Good(w, c) && Running(c, ms, me, rf) && SendsAppends(nets)
    requires f != "" && f in c[me].files && IsHashInRange(w.hashOf(f), PrimaryRange(ms, me).value)
    requires forall t | t in done :: t in SuccessorIds(ms, me, rf)
    ensures var d := MergeWith(c, nets, ms, me, done, f, c[me].files[f], rf);
            Good(w, d) && d.Keys == c.Keys && f in d[me].files && d[me].files[f] == c[me].files[f]
  {
    if done != [] {
      var k := |done| - 1;
      var t, c1 := done[k], MergeWith(c, nets, ms, me, done[..k], f, c[me].files[f], rf);
      assert t in done;
      LoopStaysGood(w, c, nets, ms, me, done[..k], f, rf);
      SuccessorsArePeers(c, ms, me, rf);
      EnsureStaysGood(w, c1, nets(t), ms, me, t, f, rf);
      TurnStaysGood(w, c1, nets(t), ms, me, t, f, rf);
    }
  }

  /** A turn whose first metadata call fails changes nothing; one whose second or third fails, or that finds the
      file missing, only stabilizes, and that only if the file is missing or differs. */
  lemma FailedCalls(c: Stores, mn: MergeNet, ms: seq<Member>, me: NodeId, t: NodeId, f: string, local: FileMetadata,
                    rf: nat)
    requires me in c && t in c && Iterates(mn.stabilize)
    ensures var d := Turn(c, mn, ms, me, t, f, local, rf);
            (!mn.check ==> d == c) &&
            (mn.check && f !in c[t].files ==> d == Stabilize(c, mn.stabilize, ms, me, f, rf)) &&
            (mn.check && f in c[t].files && !(mn.recheck && mn.update) ==>
               d == if local.contentHash == c[t].files[f].contentHash && |local.appends| == |c[t].files[f].appends| &&
                       (forall a | a in c[t].files[f].appends :: HasAppend(local.appends, a.appendId))
                    then c else Stabilize(c, mn.stabilize, ms, me, f, rf))
  {
    if f in c[t].files {
      var remote := c[t].files[f].appends;
      assert (forall a | a in remote :: HasAppend(local.appends, a.appendId)) <==>
             (forall i | 0 <= i < |remote| :: HasAppend(local.appends, remote[i].appendId));
    }
  }

  /** A stabilization for a name that the node does not hold in its range is one for all files. */
  lemma OtherNameIsAll(c: Stores, net: Net, ms: seq<Member>, me: NodeId, filename: string, rf: nat)
    requires me in c && Iterates(net) && PrimaryRange(ms, me).Some?
    requires filename !in c[me].files || !IsHashInRange(c[me].files[filename].nameHash, PrimaryRange(ms, me).value)
    ensures Stabilize(c, net, ms, me, filename, rf) == Stabilize(c, net, ms, me, "", rf)
  {
  }

  /** Once the lists agree a turn changes nothing, so data that is missing then stays missing. */
  lemma TurnIdle(c: Stores, mn: MergeNet, ms: seq<Member>, me: NodeId, t: NodeId, f: string,
                 local: FileMetadata, rf: nat)
    requires me in c && t in c && Iterates(mn.stabilize) && f in c[t].files
    requires local.contentHash == c[t].files[f].contentHash && Ids(local.appends) == Ids(c[t].files[f].appends)
    ensures Turn(c, mn, ms, me, t, f, local, rf) == c
  {
    forall i | 0 <= i < |c[t].files[f].appends| ensures HasAppend(local.appends, c[t].files[f].appends[i].appendId) {
      assert Ids(local.appends)[i] == Ids(c[t].files[f].appends)[i];
    }
  }
}
