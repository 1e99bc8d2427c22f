/** Merging every file of the primary range in turn (hydfs_operations.go). */
module PeriodicMerge {
  import opened Members
  import opened Ring
  import opened AppendLog
  import opened SyncCheck
  import opened Cluster
  import opened Stabilization
  import opened Convergence
  import opened Recovery

  /** The node's entry for `f` and every exact replica of it are as they were. */
  ghost predicate Undisturbed(c: Stores, d: Stores, me: NodeId, succs: seq<NodeId>, f: string) {
    me in c && me in d && f in c[me].files && f in d[me].files && d[me].files[f] == c[me].files[f] &&
    forall u | u in succs && Replica(c, u, f, c[me].files[f]) :: Replica(d, u, f, c[me].files[f])
  }

  lemma UndisturbedThrough(a: Stores, b: Stores, c: Stores, me: NodeId, succs: seq<NodeId>, f: string)
    requires Undisturbed(a, b, me, succs, f) && Undisturbed(b, c, me, succs, f)
    ensures Undisturbed(a, c, me, succs, f)
  {
  }

  /** A stabilization, for whichever file, disturbs no replica of any other. */
  lemma StabilizeUndisturbed(w: World, c: Stores, net: Net, ms: seq<Member>, me: NodeId, g: string, rf: nat, f: string)
    requires Good(w, c) && Running(c, ms, me, rf) && AllUp(net) && Iterates(net) && f in c[me].files
    ensures Undisturbed(c, Stabilize(c, net, ms, me, g, rf), me, SuccessorIds(ms, me, rf), f)
  {
    RoundEffect(w, c, net, ms, me, g, rf);
    var d, names := Stabilize(c, net, ms, me, g, rf), Chosen(net, me, c[me].files, PrimaryRange(ms, me).value, g);
    forall u | u in SuccessorIds(ms, me, rf) && Replica(c, u, f, c[me].files[f])
      ensures Replica(d, u, f, c[me].files[f])
    {
      if f in names {
        assert Delivered(c[me], c[u], d[u], f);
      } else {
        assert SameEntry(c[u], d[u], f);
      }
    }
  }

  lemma SyncUndisturbed(c: Stores, mn: MergeNet, me: NodeId, t: NodeId, g: string, local: FileMetadata,
                        succs: seq<NodeId>, f: string)
    requires me in c && t != me && f in c[me].files && f != g
    ensures Undisturbed(c, SyncOrder(c, mn, t, g, local), me, succs, f)
  {
  }

  lemma TurnUndisturbed(w: World, c: Stores, mn: MergeNet, ms: seq<Member>, me: NodeId, t: NodeId, g: string,
                        local: FileMetadata, rf: nat, f: string)
    requires Good(w, c) && Running(c, ms, me, rf) && t in SuccessorIds(ms, me, rf) && f in c[me].files && f != g
    requires AllUp(mn.stabilize) && Iterates(mn.stabilize)
    ensures Undisturbed(c, Turn(c, mn, ms, me, t, g, local, rf), me, SuccessorIds(ms, me, rf), f)
  {
    var succs, c2 := SuccessorIds(ms, me, rf), EnsureInSync(c, mn, ms, me, t, g, local, rf).0;
    SuccessorsArePeers(c, ms, me, rf);
    StabilizeUndisturbed(w, c, mn.stabilize, ms, me, g, rf, f);
    assert Undisturbed(c, c, me, succs, f);
    assert Undisturbed(c, c2, me, succs, f);
    SyncUndisturbed(c2, mn, me, t, g, local, succs, f);
    UndisturbedThrough(c, c2, SyncOrder(c2, mn, t, g, local), me, succs, f);
  }

  lemma {:induction false} LoopUndisturbed(w: World, c: Stores, nets: NodeId -> MergeNet, ms: seq<Member>, me: NodeId,
                                           done: seq<NodeId>, g: string, rf: nat, f: string)
    requires Good(w, c) && Running(c, ms, me, rf) && MergeUp(nets) && f in c[me].files && f != g
    requires forall t | t in done :: t in SuccessorIds(ms, me, rf)
    requires g != "" && g in c[me].files && IsHashInRange(w.hashOf(g), PrimaryRange(ms, me).value)
    ensures Undisturbed(c, MergeWith(c, nets, ms, me, done, g, c[me].files[g], rf), me, SuccessorIds(ms, me, rf), f)
  {
    if done != [] {
      var k, local, succs := |done| - 1, c[me].files[g], SuccessorIds(ms, me, rf);
      var c1 := MergeWith(c, nets, ms, me, done[..k], g, local, rf);
      assert done[k] in done;
      LoopUndisturbed(w, c, nets, ms, me, done[..k], g, rf, f);
      MergeLoop(w, c, nets, ms, me, done[..k], g, rf);
      TurnUndisturbed(w, c1, nets(done[k]), ms, me, done[k], g, local, rf, f);
      UndisturbedThrough(c, c1, Turn(c1, nets(done[k]), ms, me, done[k], g, local, rf), me, succs, f);
    }
  }

  /** Every file in `done` has an exact replica on every successor, and the node's own entries stand. */
  ghost predicate AllAligned(w: World, c: Stores, d: Stores, me: NodeId, succs: seq<NodeId>, done: seq<string>) {
    Good(w, d) && d.Keys == c.Keys && me in c &&
    (forall f | f in c[me].files :: f in d[me].files && d[me].files[f] == c[me].files[f]) &&
    forall f, t | f in done && t in succs :: f in c[me].files && Replica(d, t, f, c[me].files[f])
  }

  /** Files of the node in its primary range. */
  ghost predicate Mergeable(w: World, c: Stores, ms: seq<Member>, me: NodeId, names: seq<string>) {
    me in c && PrimaryRange(ms, me).Some? && NoDuplicates(names) &&
    forall f | f in names :: f != "" && f in c[me].files && IsHashInRange(w.hashOf(f), PrimaryRange(ms, me).value)
  }

  lemma OneMore(w: World, c: Stores, d: Stores, nets: NodeId -> MergeNet, ms: seq<Member>, me: NodeId, g: string,
                done: seq<string>, rf: nat)
    requires AllAligned(w, c, d, me, SuccessorIds(ms, me, rf), done) && Running(c, ms, me, rf) && MergeUp(nets)
    requires g !in done && Mergeable(w, c, ms, me, [g])
    ensures AllAligned(w, c, ExecuteMerge(d, nets, ms, me, g, rf), me, SuccessorIds(ms, me, rf), done + [g])
  {
    var e, succs := ExecuteMerge(d, nets, ms, me, g, rf), SuccessorIds(ms, me, rf);
    assert g in [g];
    MergeConverges(w, d, nets, ms, me, g, rf);
    forall f | f in c[me].files && f != g ensures Undisturbed(d, e, me, succs, f) {
      LoopUndisturbed(w, d, nets, ms, me, succs, g, rf, f);
    }
    StillAligned(w, c, d, e, me, succs, done, g);
  }

  lemma StillAligned(w: World, c: Stores, d: Stores, e: Stores, me: NodeId, succs: seq<NodeId>, done: seq<string>,
                     g: string)
    requires AllAligned(w, c, d, me, succs, done) && Good(w, e) && e.Keys == c.Keys
    requires g in c[me].files && g in e[me].files && e[me].files[g] == c[me].files[g]
    requires forall f | f in c[me].files && f != g :: Undisturbed(d, e, me, succs, f)
    requires forall t | t in succs :: Replica(e, t, g, c[me].files[g])
    ensures AllAligned(w, c, e, me, succs, done + [g])
  {
    forall f, t | f in done + [g] && t in succs ensures f in c[me].files && Replica(e, t, f, c[me].files[f]) {
      if f != g {
        assert f in done && Replica(d, t, f, c[me].files[f]);
        assert Undisturbed(d, e, me, succs, f);
      }
    }
  }

  ghost predicate EachUp(nets: string -> NodeId -> MergeNet) {
    AllIterate(nets) && forall f :: MergeUp(nets(f))
  }

  lemma MergeableInit(w: World, c: Stores, ms: seq<Member>, me: NodeId, names: seq<string>)
    requires Mergeable(w, c, ms, me, names) && names != []
    ensures var k := |names| - 1;
            Mergeable(w, c, ms, me, names[..k]) && Mergeable(w, c, ms, me, [names[k]]) && names[k] !in names[..k]
  {
    assert names[|names| - 1] in names;
  }

  lemma {:induction false} EachAligned(w: World, c: Stores, nets: string -> NodeId -> MergeNet, ms: seq<Member>,
                                       me: NodeId, names: seq<string>, rf: nat)
    requires Good(w, c) && Running(c, ms, me, rf) && Mergeable(w, c, ms, me, names) && EachUp(nets)
    ensures AllAligned(w, c, MergeEach(c, nets, ms, me, names, rf), me, SuccessorIds(ms, me, rf), names)
  {
    if names != [] {
      var k := |names| - 1;
      assert names == names[..k] + [names[k]];
      MergeableInit(w, c, ms, me, names);
      EachAligned(w, c, nets, ms, me, names[..k], rf);
      OneMore(w, c, MergeEach(c, nets, ms, me, names[..k], rf), nets(names[k]), ms, me, names[k], names[..k], rf);
    }
  }

  /** After a periodic merge whose calls succeed, every successor holds every file the primary has in its
      range, with exactly the primary's append IDs in its order. */
  lemma MergeAllConverges(w: World, c: Stores, net: Net, nets: string -> NodeId -> MergeNet, ms: seq<Member>,
                          me: NodeId, rf: nat)
    requires Good(w, c) && Running(c, ms, me, rf) && Iterates(net) && EachUp(nets) && "" !in c[me].files
    ensures var d := MergeAllFiles(c, net, nets, ms, me, rf);
            Good(w, d) &&
            forall f, t | f in Names(c, me, PrimaryRange(ms, me).value) && t in SuccessorIds(ms, me, rf) ::
              Replica(d, t, f, c[me].files[f])
  {
    var r := PrimaryRange(ms, me).value;
    var names := RangeList(c[me].files, r, net.listing(me, c[me].files.Keys));
    ListingHas(net, me, c[me].files.Keys);
    RangeListNames(c[me].files, r, net.listing(me, c[me].files.Keys));
    NamesAgree(w, c, me, r);
    EachAligned(w, c, nets, ms, me, names, rf);
  }
}
