/** What a primary gets back from its successors after losing a file, and what the next merge then does
    to theirs: a download carries base and appends in one piece, and the append list starts empty. */
module LostCopy {
  import opened Members
  import opened Ring
  import opened AppendLog
  import opened Storage
  import opened Cluster
  import opened Stabilization
  import opened Convergence
  import opened Recovery
  import opened FileContent
  import opened MergeFaults

  /** The whole of `src`'s copy is the base of this one. */
  ghost predicate FoldedCopy(st: Store, f: string, src: Store) {
    f in st.files && st.files[f].appends == [] && f in st.disk && Some(st.disk[f]) == ReadFile(src, f)
  }

  /** A reader sees the base alone exactly when no append is listed. */
  lemma BaseAlone(w: World, st: Store, f: string)
    requires GoodStore(w, st) && f in st.files
    ensures f in st.disk && (ReadFile(st, f) == Some(st.disk[f]) <==> st.files[f].appends == [])
  {
    assert GoodMeta(w, f, st.files[f]);
    var paths := PathsOf(st.files[f]);
    if |paths| > 1 {
      ReadExceeds(st.disk, paths, |paths|);
    } else {
      assert ReadPaths(st.disk, paths, 0) == [] && paths[0] == f;
      assert ReadPaths(st.disk, paths, 1) == st.disk[f];
      assert |Ids(st.files[f].appends)| == 0;
    }
  }

  lemma {:induction false} ReadExceeds(disk: map<string, Bytes>, paths: seq<string>, k: nat)
    requires 0 < k <= |paths| && |paths| > 1 && paths[0] in disk
    ensures |ReadPaths(disk, paths, k)| > |disk[paths[0]]|
  {
    if k > 1 {
      ReadExceeds(disk, paths, k - 1);
    }
  }

  // ----- pulling -----

  lemma PullFileCopies(w: World, c: Stores, net: Net, me: NodeId, t: NodeId, f: string, remote: FileMetadata)
    requires Good(w, c) && AllUp(net) && me in c && t in c && f !in c[me].files && f in c[t].files
    requires GoodMeta(w, f, remote)
    ensures FoldedCopy(PullFile(c, net, me, t, f, remote)[me], f, c[t])
  {
    var data := Download(c, net, t, f);
    DownloadNonEmpty(w, c, net, t, f);
    GainFile(w, c, me, f, remote, data.value);
    var c1 := c[me := Store(c[me].files[f := remote.(appends := [])], c[me].disk[f := data.value])];
    PullAppendsAdvances(w, c1, net, me, t, f, remote.appends);
  }

  lemma PullFileKeepsCopy(w: World, c: Stores, net: Net, me: NodeId, t: NodeId, g: string, remote: FileMetadata,
                          f: string, src: Store)
    requires Good(w, c) && me in c && GoodMeta(w, g, remote) && FoldedCopy(c[me], f, src)
    ensures FoldedCopy(PullFile(c, net, me, t, g, remote)[me], f, src)
  {
    PullFileAdvances(w, c, net, me, t, g, remote);
  }

  lemma {:induction false} PullFilesCopies(w: World, c: Stores, net: Net, me: NodeId, t: NodeId,
                                           metas: map<string, FileMetadata>, names: seq<string>, f: string)
    requires Good(w, c) && AllUp(net) && me in c && t in c && me != t && f !in c[me].files && f in names
    requires forall n | n in names :: n in metas && n in c[t].files
    requires forall n | n in metas :: GoodMeta(w, n, metas[n])
    ensures FoldedCopy(PullFiles(c, net, me, t, metas, names)[me], f, c[t])
  {
    var k := |names| - 1;
    var c1 := PullFiles(c, net, me, t, metas, names[..k]);
    assert names == names[..k] + [names[k]];
    assert names[k] in names;
    PullFilesKeeps(w, c, net, me, t, metas, names[..k]);
    if f in names[..k] {
      PullFilesCopies(w, c, net, me, t, metas, names[..k], f);
      PullFileKeepsCopy(w, c1, net, me, t, names[k], metas[names[k]], f, c[t]);
    } else {
      PullFilesEffect(w, c, net, me, t, metas, names[..k]);
      PullFileCopies(w, c1, net, me, t, f, metas[f]);
    }
  }

  lemma PullFromCopies(w: World, c: Stores, net: Net, me: NodeId, t: NodeId, r: Range, f: string)
    requires Good(w, c) && AllUp(net) && Iterates(net) && me in c && t in c && me != t
    requires f !in c[me].files && f in Names(c, t, r)
    ensures FoldedCopy(PullFrom(c, net, me, t, r)[me], f, c[t])
  {
    var metas := Fetch(c, true, t, r);
    ListingHas(net, t, metas.Keys);
    PullFilesCopies(w, c, net, me, t, metas, net.listing(t, metas.Keys), f);
  }

  lemma PullFromKeepsCopy(w: World, c: Stores, net: Net, me: NodeId, t: NodeId, r: Range, f: string, src: Store)
    requires Good(w, c) && AllUp(net) && Iterates(net) && me in c && t in c && me != t && FoldedCopy(c[me], f, src)
    ensures FoldedCopy(PullFrom(c, net, me, t, r)[me], f, src)
  {
    PullFromEffect(w, c, net, me, t, r);
    PullFromAdvances(w, c, net, me, t, r);
  }

  /** The first of the successors that lists the file. */
  ghost predicate FirstHolder(c: Stores, succs: seq<NodeId>, f: string, i: nat) {
    i < |succs| && succs[i] in c && f in c[succs[i]].files &&
    forall k | 0 <= k < i :: succs[k] in c ==> f !in c[succs[k]].files
  }

  lemma {:induction false} NoneHeld(c: Stores, succs: seq<NodeId>, r: Range, f: string)
    requires forall k | 0 <= k < |succs| :: succs[k] in c ==> f !in c[succs[k]].files
    ensures f !in NamesOfAll(c, succs, r)
  {
    if succs != [] {
      NoneHeld(c, succs[..|succs| - 1], r, f);
    }
  }

  /** The puller's copy comes from the first successor that lists the file. */
  lemma {:induction false} PullSuccessorsCopies(w: World, c: Stores, net: Net, me: NodeId, succs: seq<NodeId>, r: Range,
                                                f: string, i: nat)
    requires Good(w, c) && AllUp(net) && Iterates(net) && me in c && Peers(c, me, succs)
    requires f !in c[me].files && IsHashInRange(w.hashOf(f), r) && FirstHolder(c, succs, f, i)
    ensures FoldedCopy(PullSuccessors(c, net, me, succs, r)[me], f, c[succs[i]])
  {
    var k := |succs| - 1;
    PeersInit(c, me, succs);
    if i < k {
      PullSuccessorsCopies(w, c, net, me, succs[..k], r, f, i);
      KeptByLast(w, c, net, me, succs, r, f, c[succs[i]]);
    } else {
      PullSuccessorsAdvances(w, c, net, me, succs[..k], r);
      PullSuccessorsEffect(w, c, net, me, succs[..k], r);
      NoneHeld(c, succs[..k], r, f);
      LastHolderCopied(w, c, PullSuccessors(c, net, me, succs[..k], r), net, me, succs[k], r, f);
    }
  }

  lemma KeptByLast(w: World, c: Stores, net: Net, me: NodeId, succs: seq<NodeId>, r: Range, f: string, src: Store)
    requires Good(w, c) && AllUp(net) && Iterates(net) && me in c && succs != []
    requires succs[|succs| - 1] in c && succs[|succs| - 1] != me
    requires FoldedCopy(PullSuccessors(c, net, me, succs[..|succs| - 1], r)[me], f, src)
    ensures FoldedCopy(PullSuccessors(c, net, me, succs, r)[me], f, src)
  {
    var k := |succs| - 1;
    PullSuccessorsAdvances(w, c, net, me, succs[..k], r);
    PullFromKeepsCopy(w, PullSuccessors(c, net, me, succs[..k], r), net, me, succs[k], r, f, src);
  }

  lemma LastHolderCopied(w: World, c: Stores, c1: Stores, net: Net, me: NodeId, t: NodeId, r: Range, f: string)
    requires Good(w, c1) && AllUp(net) && Iterates(net) && me in c1 && f !in c1[me].files
    requires t in c && t != me && t in c1 && c1[t] == c[t] && f in c[t].files && IsHashInRange(w.hashOf(f), r)
    ensures FoldedCopy(PullFrom(c1, net, me, t, r)[me], f, c[t])
  {
    NamesAgree(w, c1, t, r);
    PullFromCopies(w, c1, net, me, t, r, f);
  }

  // ----- recovery -----

  /** The primary has lost the file, and `i` is the first successor that still lists it. */
  ghost predicate Lost(w: World, c: Stores, ms: seq<Member>, me: NodeId, f: string, rf: nat, i: nat) {
    Running(c, ms, me, rf) && f !in c[me].files && IsHashInRange(w.hashOf(f), PrimaryRange(ms, me).value) &&
    FirstHolder(c, SuccessorIds(ms, me, rf), f, i)
  }

  /** The push leaves the lost file's copies as they were. */
  lemma PushSparesLost(w: World, c: Stores, net: Net, ms: seq<Member>, me: NodeId, f: string, rf: nat, i: nat,
                       data: string -> Bytes)
    requires Faithful(w, c, f, data) && AllUp(net) && Iterates(net) && Lost(w, c, ms, me, f, rf, i)
    ensures var b := Pushed(c, net, ms, me, "", rf);
            Faithful(w, b, f, data) && f !in b[me].files && b.Keys == c.Keys &&
            (forall t | t in SuccessorIds(ms, me, rf) ::
               SameEntry(c[t], b[t], f) && Stabilize(c, net, ms, me, "", rf)[t] == b[t]) &&
            FirstHolder(b, SuccessorIds(ms, me, rf), f, i)
  {
    var r, succs, b := PrimaryRange(ms, me).value, SuccessorIds(ms, me, rf), Pushed(c, net, ms, me, "", rf);
    SuccessorsArePeers(c, ms, me, rf);
    RoundEffect(w, c, net, ms, me, "", rf);
    PushSuccessorsFaithful(w, c, net, me, succs, r, Chosen(net, me, c[me].files, r, ""), f, data);
    HolderStays(c, b, succs, f, i);
  }

  lemma HolderStays(c: Stores, b: Stores, succs: seq<NodeId>, f: string, i: nat)
    requires b.Keys == c.Keys && FirstHolder(c, succs, f, i)
    requires forall t | t in succs :: t in c && SameEntry(c[t], b[t], f)
    ensures FirstHolder(b, succs, f, i)
  {
    forall k | 0 <= k < |succs| ensures SameEntry(c[succs[k]], b[succs[k]], f) {
      assert succs[k] in succs;
    }
  }

  /** After one successful round the primary serves exactly what a reader got from the first successor
      that still had the file, but lists none of its appends. */
  lemma LostFileReturns(w: World, c: Stores, net: Net, ms: seq<Member>, me: NodeId, f: string, rf: nat, i: nat,
                        data: string -> Bytes)
    requires Faithful(w, c, f, data) && AllUp(net) && Iterates(net) && Lost(w, c, ms, me, f, rf, i)
    ensures var d := Stabilize(c, net, ms, me, "", rf);
            me in d && f in d[me].files && d[me].files[f].appends == [] &&
            ReadFile(d[me], f) == ReadFile(c[SuccessorIds(ms, me, rf)[i]], f)
  {
    var r, succs, b := PrimaryRange(ms, me).value, SuccessorIds(ms, me, rf), Pushed(c, net, ms, me, "", rf);
    var t := succs[i];
    PushSparesLost(w, c, net, ms, me, f, rf, i, data);
    SuccessorsArePeers(c, ms, me, rf);
    PullSuccessorsCopies(w, b, net, me, succs, r, f, i);
    assert t in succs && SameEntry(c[t], b[t], f);
    SameIdsReadAlike(w, b[t], c[t], f, data);
    StabilizeLosesNothing(w, c, net, ms, me, "", rf);
    BaseAlone(w, Stabilize(c, net, ms, me, "", rf)[me], f);
  }

  // ----- the merge after a recovery -----

  /** The state after a recovery and the merge that follows it. */
  function RecoverAndMerge(c: Stores, net: Net, nets: NodeId -> MergeNet, ms: seq<Member>, me: NodeId, f: string,
                           rf: nat): Stores
    requires me in c && Iterates(net) && forall t :: Iterates(nets(t).stabilize)
  {
    ExecuteMerge(Stabilize(c, net, ms, me, "", rf), nets, ms, me, f, rf)
  }

  /** The primary keeps what it pulled. */
  lemma PrimaryServesFolded(w: World, c: Stores, net: Net, nets: NodeId -> MergeNet, ms: seq<Member>, me: NodeId,
                            f: string, rf: nat, i: nat, data: string -> Bytes)
    requires Faithful(w, c, f, data) && AllUp(net) && Iterates(net) && MergeUp(nets)
    requires f != "" && Lost(w, c, ms, me, f, rf, i)
    ensures var e := RecoverAndMerge(c, net, nets, ms, me, f, rf);
            me in e && ReadFile(e[me], f) == ReadFile(c[SuccessorIds(ms, me, rf)[i]], f)
  {
    var d, e := Stabilize(c, net, ms, me, "", rf), RecoverAndMerge(c, net, nets, ms, me, f, rf);
    LostFileReturns(w, c, net, ms, me, f, rf, i, data);
    StabilizeLosesNothing(w, c, net, ms, me, "", rf);
    MergeConverges(w, d, nets, ms, me, f, rf);
    MergeKeepsFiles(w, d, nets, ms, me, f, rf);
    BaseAlone(w, d[me], f);
    BaseAlone(w, e[me], f);
  }

  /** A successor that kept the file is left with its base. */
  lemma HolderServesBase(w: World, c: Stores, net: Net, nets: NodeId -> MergeNet, ms: seq<Member>, me: NodeId,
                         f: string, rf: nat, i: nat, data: string -> Bytes, u: NodeId)
    requires Faithful(w, c, f, data) && AllUp(net) && Iterates(net) && MergeUp(nets)
    requires f != "" && Lost(w, c, ms, me, f, rf, i) && u in SuccessorIds(ms, me, rf) && f in c[u].files
    ensures var e := RecoverAndMerge(c, net, nets, ms, me, f, rf);
            u in e && ReadFile(e[u], f) == Some(data(f))
  {
    var d, e := Stabilize(c, net, ms, me, "", rf), RecoverAndMerge(c, net, nets, ms, me, f, rf);
    LostFileReturns(w, c, net, ms, me, f, rf, i, data);
    PushSparesLost(w, c, net, ms, me, f, rf, i, data);
    StabilizeLosesNothing(w, c, net, ms, me, "", rf);
    MergeConverges(w, d, nets, ms, me, f, rf);
    MergeKeepsFiles(w, d, nets, ms, me, f, rf);
    assert SameEntry(c[u], Pushed(c, net, ms, me, "", rf)[u], f);
    assert Replica(e, u, f, d[me].files[f]);
    BaseAlone(w, e[u], f);
  }

  /** If the primary merges a file it has pulled back, the successors that kept the file are told to
      list no appends: they serve the bare base while the primary serves base and appends. The two
      agree exactly when the first successor that had the file listed no appends for it. */
  lemma RecoveredThenMerged(w: World, c: Stores, net: Net, nets: NodeId -> MergeNet, ms: seq<Member>, me: NodeId,
                            f: string, rf: nat, i: nat, data: string -> Bytes)
    requires Faithful(w, c, f, data) && AllUp(net) && Iterates(net) && MergeUp(nets)
    requires f != "" && Lost(w, c, ms, me, f, rf, i)
    ensures var e, t := RecoverAndMerge(c, net, nets, ms, me, f, rf), SuccessorIds(ms, me, rf)[i];
            me in e && ReadFile(e[me], f) == ReadFile(c[t], f) &&
            forall u | u in SuccessorIds(ms, me, rf) && f in c[u].files ::
              u in e && ReadFile(e[u], f) == Some(data(f)) &&
              (ReadFile(e[u], f) == ReadFile(e[me], f) <==> c[t].files[f].appends == [])
  {
    var e, t := RecoverAndMerge(c, net, nets, ms, me, f, rf), SuccessorIds(ms, me, rf)[i];
    PrimaryServesFolded(w, c, net, nets, ms, me, f, rf, i, data);
    BaseAlone(w, c[t], f);
    forall u | u in SuccessorIds(ms, me, rf) && f in c[u].files ensures u in e && ReadFile(e[u], f) == Some(data(f)) {
      HolderServesBase(w, c, net, nets, ms, me, f, rf, i, data, u);
    }
  }
}
