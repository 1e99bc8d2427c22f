/** The main results about stored files: two stabilization rounds spread every file, a merge makes the
    replicas identical, and fewer than RF failures lose nothing. */
module Recovery {
  import opened Members
  import opened Ring
  import opened Placement
  import opened Trigger
  import opened AppendLog
  import opened Storage
  import opened SyncCheck
  import opened Cluster
  import opened Stabilization
  import opened Convergence

  /** The servers a run touches: the node is alive in its list, and its successors are all running. */
  ghost predicate Running(c: Stores, ms: seq<Member>, me: NodeId, rf: nat) {
    me in c && UniqueIds(ms) && PrimaryRange(ms, me).Some? &&
    forall t | t in SuccessorIds(ms, me, rf) :: t in c
  }

  lemma SuccessorsArePeers(c: Stores, ms: seq<Member>, me: NodeId, rf: nat)
    requires Running(c, ms, me, rf)
    ensures Peers(c, me, SuccessorIds(ms, me, rf))
  {
    var i := NodeIndex(ms, me);
    var rest := Rotation(ms, i)[1..];
    assert UniqueIds(rest) by { RestUnique(ms, i); }
    AliveOfUnique(rest);
    forall m | m in Successors(ms, me, rf) ensures m.id != me {
      AliveOfMembers(rest, m);
      assert m in AliveOf(rest);
      RestUnique(ms, i);
    }
  }

  lemma RestUnique(ms: seq<Member>, i: nat)
    requires UniqueIds(ms) && i < |ms|
    ensures UniqueIds(Rotation(ms, i)[1..])
    ensures forall m | m in Rotation(ms, i)[1..] :: m.id != ms[i].id
  {
  }

  // ----- one round -----

  lemma NamesAgree(w: World, c: Stores, n: NodeId, r: Range)
    requires Good(w, c) && n in c
    ensures forall f :: f in Names(c, n, r) <==> f in c[n].files && IsHashInRange(w.hashOf(f), r)
  {
    forall f | f in c[n].files ensures c[n].files[f].nameHash == w.hashOf(f) {
      assert GoodMeta(w, f, c[n].files[f]);
    }
  }

  /** The state between push and pull. */
  function Pushed(c: Stores, net: Net, ms: seq<Member>, me: NodeId, filename: string, rf: nat): Stores
    requires me in c && PrimaryRange(ms, me).Some?
  {
    var r := PrimaryRange(ms, me).value;
    PushSuccessors(c, net, me, SuccessorIds(ms, me, rf), r, Chosen(net, me, c[me].files, r, filename))
  }

  /** Push then pull, all calls succeeding: the node keeps its own entries, and every successor has
      been delivered the chosen files and nothing else. */
  lemma RoundEffect(w: World, c: Stores, net: Net, ms: seq<Member>, me: NodeId, filename: string, rf: nat)
    requires Good(w, c) && Running(c, ms, me, rf) && AllUp(net) && Iterates(net)
    ensures var d, r := Stabilize(c, net, ms, me, filename, rf), PrimaryRange(ms, me).value;
            var succs, b := SuccessorIds(ms, me, rf), Pushed(c, net, ms, me, filename, rf);
            var names := Chosen(net, me, c[me].files, r, filename);
            Good(w, b) && Good(w, d) && b[me] == c[me] && Peers(c, me, succs) &&
            (forall f | f in names :: f in c[me].files) &&
            Pulled(c[me], d[me], NamesOfAll(b, succs, r)) &&
            (forall t | t in succs :: d[t] == b[t] && PushedTo(c[me], c[t], d[t], names)) &&
            forall n | n in c && n != me && n !in succs :: d[n] == c[n]
  {
    var r, succs := PrimaryRange(ms, me).value, SuccessorIds(ms, me, rf);
    var names, b := Chosen(net, me, c[me].files, r, filename), Pushed(c, net, ms, me, filename, rf);
    SuccessorsArePeers(c, ms, me, rf);
    ChosenIsPlan(w, c, net, me, r, filename);
    PushSuccessorsEffect(w, c, net, me, succs, r, names);
    PushSuccessorsAdvances(w, c, net, me, succs, r, names);
    PullSuccessorsEffect(w, b, net, me, succs, r);
    PullSuccessorsAdvances(w, b, net, me, succs, r);
  }

  lemma ChosenIsPlan(w: World, c: Stores, net: Net, me: NodeId, r: Range, filename: string)
    requires Good(w, c) && me in c && Iterates(net)
    ensures PushPlan(w, c, me, r, Chosen(net, me, c[me].files, r, filename))
  {
    ChosenLists(net, me, c[me].files, r);
    NamesAgree(w, c, me, r);
  }

  // ----- two rounds -----

  /** Between push and pull each successor has its own names and the node's. */
  lemma PushedRoundNames(w: World, c: Stores, net: Net, ms: seq<Member>, me: NodeId, rf: nat, t: NodeId)
    requires Good(w, c) && Running(c, ms, me, rf) && AllUp(net) && Iterates(net) && t in SuccessorIds(ms, me, rf)
    ensures var b, r := Pushed(c, net, ms, me, "", rf), PrimaryRange(ms, me).value;
            var d := Stabilize(c, net, ms, me, "", rf);
            Names(b, t, r) == Names(d, t, r) == Names(c, t, r) + Names(c, me, r)
  {
    var d, r := Stabilize(c, net, ms, me, "", rf), PrimaryRange(ms, me).value;
    RoundEffect(w, c, net, ms, me, "", rf);
    ChosenLists(net, me, c[me].files, r);
    PushedNames(w, c, d, me, t, r, Chosen(net, me, c[me].files, r, ""));
  }

  lemma PulledRange(w: World, c: Stores, d: Stores, me: NodeId, r: Range, got: set<string>)
    requires Good(w, c) && Good(w, d) && me in c && me in d && Pulled(c[me], d[me], got)
    requires forall f | f in got :: IsHashInRange(w.hashOf(f), r)
    ensures Names(d, me, r) == Names(c, me, r) + got
  {
    NamesAgree(w, c, me, r);
    NamesAgree(w, d, me, r);
  }

  /** Names in range after a full round: the node has everybody's, each successor its own and the node's. */
  lemma RoundNames(w: World, c: Stores, net: Net, ms: seq<Member>, me: NodeId, rf: nat)
    requires Good(w, c) && Running(c, ms, me, rf) && AllUp(net) && Iterates(net)
    ensures var d, r, succs := Stabilize(c, net, ms, me, "", rf), PrimaryRange(ms, me).value, SuccessorIds(ms, me, rf);
            Names(d, me, r) == Names(c, me, r) + NamesOfAll(c, succs, r) &&
            forall t | t in succs :: Names(d, t, r) == Names(c, t, r) + Names(c, me, r)
  {
    var r, succs := PrimaryRange(ms, me).value, SuccessorIds(ms, me, rf);
    var b := Pushed(c, net, ms, me, "", rf);
    forall t | t in succs
      ensures Names(b, t, r) == Names(Stabilize(c, net, ms, me, "", rf), t, r) == Names(c, t, r) + Names(c, me, r)
    {
      PushedRoundNames(w, c, net, ms, me, rf, t);
    }
    OwnRoundNames(w, c, net, ms, me, rf);
    NamesOfAllPlus(c, b, succs, r, Names(c, me, r));
  }

  lemma OwnRoundNames(w: World, c: Stores, net: Net, ms: seq<Member>, me: NodeId, rf: nat)
    requires Good(w, c) && Running(c, ms, me, rf) && AllUp(net) && Iterates(net)
    ensures var r, succs := PrimaryRange(ms, me).value, SuccessorIds(ms, me, rf);
            Names(Stabilize(c, net, ms, me, "", rf), me, r) ==
              Names(c, me, r) + NamesOfAll(Pushed(c, net, ms, me, "", rf), succs, r)
  {
    var r, succs := PrimaryRange(ms, me).value, SuccessorIds(ms, me, rf);
    var b := Pushed(c, net, ms, me, "", rf);
    RoundEffect(w, c, net, ms, me, "", rf);
    NamesOfAllInRange(w, b, succs, r);
    PulledRange(w, c, Stabilize(c, net, ms, me, "", rf), me, r, NamesOfAll(b, succs, r));
  }

  lemma PushedNames(w: World, c: Stores, d: Stores, me: NodeId, t: NodeId, r: Range, names: seq<string>)
    requires Good(w, c) && Good(w, d) && me in c && t in c && t in d && PushedTo(c[me], c[t], d[t], names)
    requires forall f :: f in names <==> f in Names(c, me, r)
    ensures Names(d, t, r) == Names(c, t, r) + Names(c, me, r)
  {
    NamesAgree(w, c, t, r);
    NamesAgree(w, d, t, r);
    NamesAgree(w, c, me, r);
    forall f ensures f in Names(d, t, r) <==> f in Names(c, t, r) || f in Names(c, me, r) {
      if f in names {
        assert Delivered(c[me], c[t], d[t], f);
      } else {
        assert SameEntry(c[t], d[t], f);
      }
    }
  }

  lemma {:induction false} NamesOfAllPlus(c: Stores, b: Stores, succs: seq<NodeId>, r: Range, extra: set<string>)
    requires forall t | t in succs :: Names(b, t, r) == Names(c, t, r) + extra
    ensures NamesOfAll(b, succs, r) + extra == NamesOfAll(c, succs, r) + extra
  {
    if succs != [] {
      var k := |succs| - 1;
      assert succs[k] in succs;
      NamesOfAllPlus(c, b, succs[..k], r, extra);
    }
  }

  lemma {:induction false} NamesOfAllInRange(w: World, b: Stores, succs: seq<NodeId>, r: Range)
    requires Good(w, b) && forall t | t in succs :: t in b
    ensures forall f | f in NamesOfAll(b, succs, r) :: IsHashInRange(w.hashOf(f), r)
  {
    if succs != [] {
      var k := |succs| - 1;
      assert succs[k] in succs;
      NamesOfAllInRange(w, b, succs[..k], r);
      NamesAgree(w, b, succs[k], r);
    }
  }

  lemma {:induction false} NamesOfAllSame(b: Stores, succs: seq<NodeId>, r: Range, u: set<string>)
    requires forall t | t in succs :: Names(b, t, r) <= u
    ensures NamesOfAll(b, succs, r) <= u
  {
    if succs != [] {
      assert succs[|succs| - 1] in succs;
      NamesOfAllSame(b, succs[..|succs| - 1], r, u);
    }
  }

  lemma {:induction false} NamesOfAllHas(c: Stores, succs: seq<NodeId>, r: Range, t: NodeId)
    requires t in succs
    ensures Names(c, t, r) <= NamesOfAll(c, succs, r)
  {
    var k := |succs| - 1;
    if succs[k] != t {
      assert succs == succs[..k] + [succs[k]];
      NamesOfAllHas(c, succs[..k], r, t);
    }
  }

  /** After two consecutive successful rounds at a primary, it and all its successors hold exactly the
      same names in its range: every name any one of them held. */
  lemma TwoRoundsSpread(w: World, c: Stores, n1: Net, n2: Net, ms: seq<Member>, me: NodeId, rf: nat)
    requires Good(w, c) && Running(c, ms, me, rf)
    requires AllUp(n1) && Iterates(n1) && AllUp(n2) && Iterates(n2)
    ensures var d := Stabilize(Stabilize(c, n1, ms, me, "", rf), n2, ms, me, "", rf);
            var r, succs := PrimaryRange(ms, me).value, SuccessorIds(ms, me, rf);
            var all := Names(c, me, r) + NamesOfAll(c, succs, r);
            Names(d, me, r) == all && forall t | t in succs :: Names(d, t, r) == all
  {
    var b := Stabilize(c, n1, ms, me, "", rf);
    var r, succs := PrimaryRange(ms, me).value, SuccessorIds(ms, me, rf);
    StabilizeLosesNothing(w, c, n1, ms, me, "", rf);
    RoundNames(w, c, n1, ms, me, rf);
    RoundNames(w, b, n2, ms, me, rf);
    OneRoundHasAll(c, b, me, succs, r);
  }

  /** After one round the node has all the names, and no successor has others. */
  lemma OneRoundHasAll(c: Stores, b: Stores, me: NodeId, succs: seq<NodeId>, r: Range)
    requires Names(b, me, r) == Names(c, me, r) + NamesOfAll(c, succs, r)
    requires forall t | t in succs :: Names(b, t, r) == Names(c, t, r) + Names(c, me, r)
    ensures NamesOfAll(b, succs, r) <= Names(b, me, r)
    ensures forall t | t in succs :: Names(b, t, r) <= Names(b, me, r)
  {
    forall t | t in succs ensures Names(b, t, r) <= Names(b, me, r) {
      NamesOfAllHas(c, succs, r, t);
    }
    NamesOfAllSame(b, succs, r, Names(b, me, r));
  }

  // ----- merge -----

  /** The successor holds the file with exactly these append IDs in this order. */
  ghost predicate Replica(c: Stores, t: NodeId, f: string, local: FileMetadata) {
    t in c && f in c[t].files && Ids(c[t].files[f].appends) == Ids(local.appends)
  }

  /** A successful stabilization for `f` leaves the node's own entry and every exact replica alone, and
      brings `f`, with all the node's appends, to every successor; exactly so where it was missing. */
  lemma StabilizeFor(w: World, c: Stores, net: Net, ms: seq<Member>, me: NodeId, f: string, rf: nat)
    requires Good(w, c) && Running(c, ms, me, rf) && AllUp(net) && Iterates(net)
    requires f != "" && f in c[me].files && IsHashInRange(w.hashOf(f), PrimaryRange(ms, me).value)
    ensures var d, local := Stabilize(c, net, ms, me, f, rf), c[me].files[f];
            Good(w, d) && d.Keys == c.Keys && f in d[me].files && d[me].files[f] == local &&
            (forall t | t in SuccessorIds(ms, me, rf) :: Delivered(c[me], c[t], d[t], f))
  {
    var r := PrimaryRange(ms, me).value;
    NamesAgree(w, c, me, r);
    assert f in Names(c, me, r);
    assert Chosen(net, me, c[me].files, r, f) == [f];
    RoundEffect(w, c, net, ms, me, f, rf);
    assert f in [f];
  }

  lemma StabilizeKeepsReplicas(w: World, c: Stores, net: Net, ms: seq<Member>, me: NodeId, f: string, rf: nat,
                               t: NodeId)
    requires Good(w, c) && Running(c, ms, me, rf) && AllUp(net) && Iterates(net) && t in SuccessorIds(ms, me, rf)
    requires f != "" && f in c[me].files && IsHashInRange(w.hashOf(f), PrimaryRange(ms, me).value)
    requires f !in c[t].files || Replica(c, t, f, c[me].files[f])
    ensures Replica(Stabilize(c, net, ms, me, f, rf), t, f, c[me].files[f])
  {
    StabilizeFor(w, c, net, ms, me, f, rf);
  }

  ghost predicate MergeUp(nets: NodeId -> MergeNet) {
    forall t :: nets(t).check && nets(t).recheck && nets(t).update && AllUp(nets(t).stabilize) &&
                Iterates(nets(t).stabilize)
  }

  /** Imposing the primary's list on a server that holds all of its appends keeps the store well-formed. */
  lemma ImposeOrder(w: World, c: Stores, me: NodeId, t: NodeId, f: string)
    requires Good(w, c) && me in c && t in c && f in c[me].files && f in c[t].files
    requires forall i | 0 <= i < |c[me].files[f].appends| ::
               HasAppend(c[t].files[f].appends, c[me].files[f].appends[i].appendId)
    ensures Good(w, c[t := SetAppends(c[t], f, c[me].files[f].appends)])
  {
    var apps, st := c[me].files[f].appends, SetAppends(c[t], f, c[me].files[f].appends);
    assert GoodMeta(w, f, c[me].files[f]) && GoodMeta(w, f, c[t].files[f]);
    forall a | a in apps ensures HasData(st.disk, a.appendId) {
      var i :| 0 <= i < |apps| && apps[i] == a;
      var j :| 0 <= j < |c[t].files[f].appends| && c[t].files[f].appends[j].appendId == a.appendId;
      assert c[t].files[f].appends[j] in c[t].files[f].appends;
    }
    forall g | g in st.files ensures GoodMeta(w, g, st.files[g]) {
      assert GoodMeta(w, g, c[t].files[g]);
    }
  }

  /** One successor's turn. */
  lemma MergeTurn(w: World, c: Stores, mn: MergeNet, ms: seq<Member>, me: NodeId, t: NodeId, f: string, rf: nat)
    requires Good(w, c) && Running(c, ms, me, rf) && t in SuccessorIds(ms, me, rf)
    requires mn.check && mn.recheck && mn.update && AllUp(mn.stabilize) && Iterates(mn.stabilize)
    requires f != "" && f in c[me].files && IsHashInRange(w.hashOf(f), PrimaryRange(ms, me).value)
    ensures var local := c[me].files[f];
            var d := Turn(c, mn, ms, me, t, f, local, rf);
            Good(w, d) && d.Keys == c.Keys && f in d[me].files && d[me].files[f] == local && Replica(d, t, f, local) &&
            forall u | u in SuccessorIds(ms, me, rf) && Replica(c, u, f, local) :: Replica(d, u, f, local)
  {
    var local := c[me].files[f];
    var (c2, proceed) := EnsureInSync(c, mn, ms, me, t, f, local, rf);
    SuccessorsArePeers(c, ms, me, rf);
    StabilizeFor(w, c, mn.stabilize, ms, me, f, rf);
    forall u | u in SuccessorIds(ms, me, rf) && (f !in c[u].files || Replica(c, u, f, local))
      ensures Replica(Stabilize(c, mn.stabilize, ms, me, f, rf), u, f, local)
    {
      StabilizeKeepsReplicas(w, c, mn.stabilize, ms, me, f, rf, u);
    }
    if proceed {
      MatchCovers(w, c, c2, me, t, f, local);
      SyncTurn(w, c2, mn, me, t, f, SuccessorIds(ms, me, rf));
    }
  }

  /** Imposing the order makes `t` a replica and disturbs nobody else. */
  lemma SyncTurn(w: World, c: Stores, mn: MergeNet, me: NodeId, t: NodeId, f: string, succs: seq<NodeId>)
    requires Good(w, c) && mn.recheck && mn.update && me in c && t in c && t != me && f in c[me].files &&
             f in c[t].files
    requires forall i | 0 <= i < |c[me].files[f].appends| ::
               HasAppend(c[t].files[f].appends, c[me].files[f].appends[i].appendId)
    ensures var local, d := c[me].files[f], SyncOrder(c, mn, t, f, c[me].files[f]);
            Good(w, d) && d.Keys == c.Keys && d[me] == c[me] && Replica(d, t, f, local) &&
            forall u | u in succs && Replica(c, u, f, local) :: Replica(d, u, f, local)
  {
    ImposeOrder(w, c, me, t, f);
  }

  /** Before the order is imposed, the successor lists every append of the primary. */
  lemma MatchCovers(w: World, c: Stores, c2: Stores, me: NodeId, t: NodeId, f: string, local: FileMetadata)
    requires me in c && t in c && t in c2 && f in c[t].files && f in c2[t].files
    requires Good(w, c)
    requires (c2 == c && Match(local, c[t].files[f])) ||
             (f in c[me].files && local == c[me].files[f] && Delivered(c[me], c[t], c2[t], f))
    ensures forall i | 0 <= i < |local.appends| :: HasAppend(c2[t].files[f].appends, local.appends[i].appendId)
  {
    assert GoodMeta(w, f, c[t].files[f]);
    if c2 == c && Match(local, c[t].files[f]) {
      MatchExact(local, c[t].files[f]);
      forall i | 0 <= i < |local.appends| ensures HasAppend(c2[t].files[f].appends, local.appends[i].appendId) {
        assert Ids(local.appends)[i] in multiset(Ids(c[t].files[f].appends));
        IdsHold(c[t].files[f].appends, local.appends[i].appendId);
      }
    }
  }

  /** The loop's invariant: the primary's entry stands and every successor done so far is a replica. */
  ghost predicate MergedSoFar(w: World, c: Stores, d: Stores, me: NodeId, f: string, done: seq<NodeId>) {
    Good(w, d) && d.Keys == c.Keys && me in c && f in c[me].files &&
    f in d[me].files && d[me].files[f] == c[me].files[f] &&
    forall t | t in done :: Replica(d, t, f, c[me].files[f])
  }

  lemma {:induction false} MergeLoop(w: World, c: Stores, nets: NodeId -> MergeNet, ms: seq<Member>, me: NodeId,
                                     done: seq<NodeId>, f: string, rf: nat)
    requires Good(w, c) && Running(c, ms, me, rf) && MergeUp(nets)
    requires forall t | t in done :: t in SuccessorIds(ms, me, rf)
    requires f != "" && f in c[me].files && IsHashInRange(w.hashOf(f), PrimaryRange(ms, me).value)
    ensures MergedSoFar(w, c, MergeWith(c, nets, ms, me, done, f, c[me].files[f], rf), me, f, done)
  {
    if done != [] {
      var k := |done| - 1;
      assert done == done[..k] + [done[k]];
      assert done[k] in done;
      MergeLoop(w, c, nets, ms, me, done[..k], f, rf);
      var c1 := MergeWith(c, nets, ms, me, done[..k], f, c[me].files[f], rf);
      MergeStep(w, c, c1, nets, ms, me, done[..k], done[k], f, rf);
    }
  }

  lemma MergeStep(w: World, c: Stores, c1: Stores, nets: NodeId -> MergeNet, ms: seq<Member>, me: NodeId,
                  done: seq<NodeId>, t: NodeId, f: string, rf: nat)
    requires MergedSoFar(w, c, c1, me, f, done) && Running(c, ms, me, rf) && MergeUp(nets)
    requires t in SuccessorIds(ms, me, rf) && forall u | u in done :: u in SuccessorIds(ms, me, rf)
    requires f != "" && IsHashInRange(w.hashOf(f), PrimaryRange(ms, me).value)
    ensures var local := c[me].files[f];
            MergedSoFar(w, c, Turn(c1, nets(t), ms, me, t, f, local, rf), me, f, done + [t])
  {
    MergeTurn(w, c1, nets(t), ms, me, t, f, rf);
  }

  /** If all calls succeed, merging an in-range file at its primary leaves every successor holding it
      with exactly the primary's append IDs in the primary's order, whether the successor lacked the
      file, lacked appends, had extra ones or had another order. */
  lemma MergeConverges(w: World, c: Stores, nets: NodeId -> MergeNet, ms: seq<Member>, me: NodeId, f: string, rf: nat)
    requires Good(w, c) && Running(c, ms, me, rf) && MergeUp(nets)
    requires f != "" && f in c[me].files && IsHashInRange(w.hashOf(f), PrimaryRange(ms, me).value)
    ensures var d := ExecuteMerge(c, nets, ms, me, f, rf);
            Good(w, d) && f in d[me].files && d[me].files[f] == c[me].files[f] &&
            forall t | t in SuccessorIds(ms, me, rf) :: Replica(d, t, f, c[me].files[f])
  {
    var succs := SuccessorIds(ms, me, rf);
    MergeLoop(w, c, nets, ms, me, succs, f, rf);
  }

  /** After a successful merge a successor lists exactly the appends the primary listed: whatever only
      a replica had received is gone. */
  lemma MergeKeepsPrimaryAppends(w: World, c: Stores, nets: NodeId -> MergeNet, ms: seq<Member>, me: NodeId, f: string,
                                 rf: nat, t: NodeId, id: string)
    requires Good(w, c) && Running(c, ms, me, rf) && MergeUp(nets) && t in SuccessorIds(ms, me, rf)
    requires f != "" && f in c[me].files && IsHashInRange(w.hashOf(f), PrimaryRange(ms, me).value)
    ensures var d := ExecuteMerge(c, nets, ms, me, f, rf);
            t in d && f in d[t].files &&
            (HasAppend(d[t].files[f].appends, id) <==> HasAppend(c[me].files[f].appends, id))
  {
    MergeConverges(w, c, nets, ms, me, f, rf);
    IdsHold(c[me].files[f].appends, id);
    IdsHold(ExecuteMerge(c, nets, ms, me, f, rf)[t].files[f].appends, id);
  }

  /** The merge a client asks for, at the primary it computes, aligns every target the client computes. */
  lemma ClientMergeAligns(w: World, c: Stores, nets: NodeId -> MergeNet, ms: seq<Member>, f: string, rf: nat)
    requires Good(w, c) && MergeUp(nets) && f != ""
    requires RingList(ms) && HasAlive(ms) && 1 <= rf <= |ms| && AliveRun(c, ms)
    requires var p := PrimaryIndex(ms, w.hashOf(f)); p >= 0 ==> f in c[ms[p].id].files
    ensures var p := PrimaryIndex(ms, w.hashOf(f));
            p >= 0 && ms[p].id in c && f in c[ms[p].id].files &&
            var d := ExecuteMerge(c, nets, ms, ms[p].id, f, rf);
            forall m | m in Targets(ms, w.hashOf(f), rf) :: Replica(d, m.id, f, c[ms[p].id].files[f])
  {
    var h := w.hashOf(f);
    PrimaryExists(ms, h);
    var p := ms[PrimaryIndex(ms, h)].id;
    assert ms[PrimaryIndex(ms, h)] in ms;
    PrimaryOwns(ms, h);
    SuccessorsRun(c, ms, p, rf);
    MergeConverges(w, c, nets, ms, p, f, rf);
    ClientReplicas(ms, h, rf);
    forall m | m in Targets(ms, h, rf) ensures m.id == p || m.id in SuccessorIds(ms, p, rf) {
      TargetInGroup(ms, h, rf, m);
    }
  }

  // ----- failures -----

  /** All the targets hold the file. */
  ghost predicate HeldByTargets(c: Stores, ms: seq<Member>, f: string, h: Hash, rf: nat) {
    forall m | m in Targets(ms, h, rf) :: m.id in c && f in c[m.id].files
  }

  /** If all targets hold a file and then any members go down, while fewer than RF are down altogether, the
      primary the clients now see holds the file, its collector keeps it, and one stabilization there with
      successful calls puts it on every current target. */
  lemma SurvivesFailures(w: World, c: Stores, net: Net, ms: seq<Member>, ms': seq<Member>, f: string, rf: nat)
    requires Good(w, c) && AllUp(net) && Iterates(net)
    requires RingList(ms) && 1 <= rf <= |ms| && Fails(ms, ms') && DeadCount(ms') < rf && AliveRun(c, ms')
    requires HeldByTargets(c, ms, f, w.hashOf(f), rf)
    ensures PrimaryIndex(ms', w.hashOf(f)) >= 0 &&
            var p := ms'[PrimaryIndex(ms', w.hashOf(f))].id;
            f in c[p].files && GcKeeps(ms', p, w.hashOf(f), rf) &&
            var d := Stabilize(c, net, ms', p, "", rf);
            forall m | m in Targets(ms', w.hashOf(f), rf) :: m.id in d && f in d[m.id].files
  {
    var h := w.hashOf(f);
    NewPrimaryWasTarget(ms, ms', h, rf);
    var i := PrimaryIndex(ms', h);
    var p := ms'[i].id;
    assert ms'[i] in ms' && p == ms[i].id;
    GcSparesPrimary(ms', h, rf);
    PrimaryOwns(ms', h);
    SuccessorsRun(c, ms', p, rf);
    StabilizeReachesGroup(w, c, net, ms', p, f, rf);
    ClientReplicas(ms', h, rf);
    forall m | m in Targets(ms', h, rf)
      ensures m.id == p || m.id in SuccessorIds(ms', p, rf)
    {
      TargetInGroup(ms', h, rf, m);
    }
  }

  /** What the new primary does about the failure: it stabilizes if its trigger fires, and else nothing. */
  function AfterTrigger(c: Stores, net: Net, ms: seq<Member>, me: NodeId, changed: NodeId, rf: nat): Stores
    requires me in c && Iterates(net)
  {
    if Triggers(ms, me, changed, rf) then Stabilize(c, net, ms, me, "", rf) else c
  }

  /** If all targets hold a file and one more member fails, while fewer than RF are down altogether, then
      after the reaction of the new primary's trigger all current targets hold it, unless the trigger
      misses the change. */
  lemma FailureRepaired(w: World, c: Stores, net: Net, ms: seq<Member>, j: nat, down: Member, f: string, rf: nat)
    requires Good(w, c) && AllUp(net) && Iterates(net) && RingList(ms) && DistinctAliveHashes(ms)
    requires j < |ms| && ms[j].IsAlive() && !down.IsAlive() && down.id == ms[j].id && down.hash == ms[j].hash
    requires 2 <= rf <= |ms| && DeadCount(ms[j := down]) < rf && AliveRun(c, ms[j := down])
    requires HeldByTargets(c, ms, f, w.hashOf(f), rf)
    requires var p := PrimaryIndex(ms[j := down], w.hashOf(f)); p >= 0 && p != j ==> !Missed(ms, p, j, rf)
    ensures var ms' := ms[j := down];
            var p := PrimaryIndex(ms', w.hashOf(f));
            p >= 0 && ms'[p].id in c &&
            var d := AfterTrigger(c, net, ms', ms'[p].id, down.id, rf);
            forall m | m in Targets(ms', w.hashOf(f), rf) :: m.id in d && f in d[m.id].files
  {
    var ms', h := ms[j := down], w.hashOf(f);
    FailsOne(ms, j, down);
    SurvivesFailures(w, c, net, ms, ms', f, rf);
    var p := PrimaryIndex(ms', h);
    assert ms'[p] in ms';
    TriggerExact(ms, p, j, down, rf);
    TriggerDistance(ms, p, j, rf);
    TriggerDistance(ms', p, j, rf);
    if !Triggers(ms', ms'[p].id, down.id, rf) {
      StillPrimary(ms, ms', h, p);
      forall m | m in Targets(ms', h, rf) ensures m in Targets(ms, h, rf) {
        StillTarget(ms, j, down, h, rf, p, m);
      }
    }
  }

  lemma FailsOne(ms: seq<Member>, j: nat, down: Member)
    requires RingList(ms) && j < |ms| && ms[j].IsAlive() && !down.IsAlive()
    requires down.id == ms[j].id && down.hash == ms[j].hash
    ensures Fails(ms, ms[j := down]) && RingList(ms[j := down])
  {
  }

  /** A primary whose range did not change was the primary before. */
  lemma StillPrimary(ms: seq<Member>, ms': seq<Member>, h: Hash, p: nat)
    requires RingList(ms) && RingList(ms') && DistinctAliveHashes(ms) && Fails(ms, ms')
    requires HasAlive(ms') && p == PrimaryIndex(ms', h) && PrimaryRange(ms', ms'[p].id) == PrimaryRange(ms, ms[p].id)
    ensures p == PrimaryIndex(ms, h)
  {
    PrimaryOwns(ms', h);
    OwnerIsPrimary(ms, h, p);
  }

  lemma StillTarget(ms: seq<Member>, j: nat, down: Member, h: Hash, rf: nat, p: nat, m: Member)
    requires UniqueIds(ms) && j < |ms| && !down.IsAlive() && down.id == ms[j].id && p < |ms| && rf <= |ms|
    requires PrimaryIndex(ms, h) == p == PrimaryIndex(ms[j := down], h) && m in Targets(ms[j := down], h, rf)
    ensures m in Targets(ms, h, rf)
  {
    var ms' := ms[j := down];
    AliveOfMembers(Window(ms', p, rf), m);
    var k := WindowPlace(ms', p, rf, m);
    assert UniqueIds(ms') by { DownUnique(ms, j, down); }
    assert k != j && ms[k] == m;
    WindowHolds(ms', p, rf, k);
    WindowHolds(ms, p, rf, k);
    AliveOfMembers(Window(ms, p, rf), m);
  }

  lemma WindowPlace(ms: seq<Member>, p: nat, k: nat, m: Member) returns (i: nat)
    requires p < |ms| && k <= |ms| && m in Window(ms, p, k)
    ensures i < |ms| && ms[i] == m
  {
    var d :| 0 <= d < k && Window(ms, p, k)[d] == m;
    i := if p + d < |ms| then p + d else p + d - |ms|;
  }

  /** The alive members of the list are running. */
  ghost predicate AliveRun(c: Stores, ms: seq<Member>) {
    forall m | m in ms && m.IsAlive() :: m.id in c
  }

  lemma SuccessorsRun(c: Stores, ms: seq<Member>, me: NodeId, rf: nat)
    requires AliveRun(c, ms)
    ensures forall t | t in SuccessorIds(ms, me, rf) :: t in c
  {
    var i := NodeIndex(ms, me);
    if i >= 0 {
      forall m | m in Successors(ms, me, rf) ensures m in ms && m.IsAlive() {
        AliveOfMembers(Rotation(ms, i)[1..], m);
        assert m in AliveOf(Rotation(ms, i)[1..]);
      }
    }
  }

  lemma TargetInGroup(ms: seq<Member>, h: Hash, rf: nat, m: Member)
    requires UniqueIds(ms) && HasAlive(ms) && 1 <= rf <= |ms| && m in Targets(ms, h, rf)
    requires Targets(ms, h, rf) <= ReplicaGroup(ms, h, rf) && PrimaryIndex(ms, h) >= 0
    ensures var p := ms[PrimaryIndex(ms, h)].id; m.id == p || m.id in SuccessorIds(ms, p, rf)
  {
    var targets := Targets(ms, h, rf);
    var k :| 0 <= k < |targets| && targets[k] == m;
    assert ReplicaGroup(ms, h, rf)[k] == m;
    GroupIds(ms, h, rf, k);
    if k > 0 {
      assert SuccessorIds(ms, ms[PrimaryIndex(ms, h)].id, rf)[k - 1] == m.id;
    }
  }

  /** The replica group by position. */
  lemma GroupIds(ms: seq<Member>, h: Hash, rf: nat, k: nat)
    requires PrimaryIndex(ms, h) >= 0 && k < |ReplicaGroup(ms, h, rf)|
    ensures var p, group := ms[PrimaryIndex(ms, h)].id, ReplicaGroup(ms, h, rf);
            if k == 0 then group[k].id == p
            else k - 1 < |SuccessorIds(ms, p, rf)| && SuccessorIds(ms, p, rf)[k - 1] == group[k].id
  {
  }

  lemma StabilizeReachesGroup(w: World, c: Stores, net: Net, ms: seq<Member>, p: NodeId, f: string, rf: nat)
    requires Good(w, c) && Running(c, ms, p, rf) && AllUp(net) && Iterates(net)
    requires f in c[p].files && IsHashInRange(w.hashOf(f), PrimaryRange(ms, p).value)
    ensures var d := Stabilize(c, net, ms, p, "", rf);
            f in d[p].files && forall t | t in SuccessorIds(ms, p, rf) :: t in d && f in d[t].files
  {
    var r := PrimaryRange(ms, p).value;
    RoundEffect(w, c, net, ms, p, "", rf);
    NamesAgree(w, c, p, r);
    ChosenLists(net, p, c[p].files, r);
    assert f in Names(c, p, r);
    assert f in Chosen(net, p, c[p].files, r, "");
  }
}
