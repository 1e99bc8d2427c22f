/** Concrete states of a two-server ring that show what repair can lose. */
module StorageScenarios {
  import opened Members
  import opened Ring
  import opened Placement
  import opened AppendLog
  import opened Storage
  import opened SyncCheck
  import opened Cluster
  import opened Stabilization
  import opened Recovery
  import opened FileContent
  import opened MergeFaults
  import opened LostCopy

  // ----- networks -----

  ghost function AnyListing(s: set<string>): (r: seq<string>)
    ensures IsListing(r, s)
  {
    if s == {} then []
    else
      var n :| n in s;
      [n] + AnyListing(s - {n})
  }

  /** All calls succeed. */
  ghost function Perfect(): (net: Net)
    ensures AllUp(net) && Iterates(net)
  {
    Net(_ => true, (_, _) => true, (_, _) => true, _ => true, (_, _) => Complete, (_, s) => AnyListing(s))
  }

  /** Metadata calls get through, append transfers do not. */
  ghost function NoAppends(): (net: Net)
    ensures Iterates(net) && forall t, n :: !net.sendAppend(t, n)
  {
    Perfect().(sendAppend := (_, _) => false)
  }

  // ----- the ring -----

  const A: NodeId := NodeId("a", 0)
  const B: NodeId := NodeId("b", 0)

  const RING: seq<Member> := [Member(A, Alive, 1, 1, 0, 10), Member(B, Alive, 1, 1, 0, 200)]

  /** Every name hashes to 5, so A is the primary of all files; "x" is an append of "f". */
  const NAMES: World := World(_ => 5, n => if n == "x" then Some("f") else None)

  const X: AppendInfo := AppendInfo("f", "x", "c", "1", "", 1)

  function File(apps: seq<AppendInfo>): FileMetadata {
    FileMetadata("f", "", 5, "", apps)
  }

  const WITH_X: Store := Store(map["f" := File([X])], map["f" := [1], "x" := [2]])
  const WITHOUT_X: Store := Store(map["f" := File([])], map["f" := [1]])
  const EMPTY_STORE: Store := Store(map[], map[])

  function Written(n: string): Bytes {
    if n == "x" then [2] else [1]
  }

  lemma StoresGood()
    ensures GoodStore(NAMES, WITH_X) && GoodStore(NAMES, WITHOUT_X) && GoodStore(NAMES, EMPTY_STORE)
  {
    assert GoodMeta(NAMES, "f", File([X])) && StockedFile(WITH_X, "f");
    assert GoodMeta(NAMES, "f", File([])) && StockedFile(WITHOUT_X, "f");
  }

  lemma RingIs(c: Stores)
    requires A in c && B in c
    ensures PrimaryRange(RING, A) == Some(Range(200, 10)) && SuccessorIds(RING, A, 2) == [B]
    ensures Running(c, RING, A, 2) && IsHashInRange(NAMES.hashOf("f"), Range(200, 10))
  {
    assert NodeIndex(RING, A) == 0;
    assert LastAliveBelow(RING, 2) == 1;
    var rest := Rotation(RING, 0)[1..];
    assert rest == [RING[1]];
    assert rest[..0] == [];
    assert AliveOf(rest) == [RING[1]];
    assert Successors(RING, A, 2) == [RING[1]];
  }

  // ----- a ring of fewer than RF members -----

  /** Two servers, RF 3: the first one's collector crashes. */
  lemma PairCrashes()
    ensures AllKeyRange(RING, A, 3).Crash?
  {
    assert NodeIndex(RING, A) == 0;
    CollectorCrashes(0, 3, 2);
    assert 3 % 2 == 1;
  }

  // ----- a merge whose transfers fail -----

  const BEHIND: Stores := map[A := WITH_X, B := WITHOUT_X]

  /** The first half of B's turn: the append is not transferred. */
  lemma NotTransferred(bad: MergeNet)
    requires bad.check && Iterates(bad.stabilize) && !bad.stabilize.sendAppend(B, "x")
    ensures Good(NAMES, BEHIND) && Running(BEHIND, RING, A, 2)
    ensures var (c2, proceed) := EnsureInSync(BEHIND, bad, RING, A, B, "f", File([X]), 2);
            proceed && A in c2 && B in c2 && "f" in c2[B].files && c2[B].files["f"] == File([]) &&
            !HasData(c2[B].disk, "x")
  {
    var c2 := Stabilize(BEHIND, bad.stabilize, RING, A, "f", 2);
    StoresGood();
    RingIs(BEHIND);
    NotMatched();
    StabilizeData(NAMES, BEHIND, bad.stabilize, RING, A, "f", 2, B, "x");
    StabilizeLosesNothing(NAMES, BEHIND, bad.stabilize, RING, A, "f", 2);
    StillWithout(c2);
  }

  lemma StillWithout(c2: Stores)
    requires B in c2 && Grows(WITHOUT_X, c2[B]) && GoodStore(NAMES, c2[B]) && !HasData(c2[B].disk, "x")
    ensures "f" in c2[B].files && c2[B].files["f"] == File([])
  {
    NoDataNoEntry(c2[B]);
  }

  lemma NotMatched()
    ensures !Match(File([X]), WITHOUT_X.files["f"])
  {
  }

  /** In these stores "x" is the only append there can be. */
  lemma OnlyX(st: Store, i: nat)
    requires GoodStore(NAMES, st) && "f" in st.files && i < |st.files["f"].appends|
    ensures HasData(st.disk, "x")
  {
    assert GoodMeta(NAMES, "f", st.files["f"]) && StockedFile(st, "f");
    var a := st.files["f"].appends[i];
    assert a in st.files["f"].appends && GoodAppend(NAMES, "f", a);
  }

  lemma NoDataNoEntry(st: Store)
    requires GoodStore(NAMES, st) && "f" in st.files && !HasData(st.disk, "x")
    ensures st.files["f"].appends == []
  {
    if st.files["f"].appends != [] {
      OnlyX(st, 0);
    }
  }

  /** The metadata calls of the turn succeed, the append's transfer does not. */
  ghost function Faulty(): MergeNet {
    MergeNet(true, NoAppends(), true, true)
  }

  /** The primary lists an append the successor lacks; the metadata calls succeed, the transfer does not.
      The successor ends listing an append without its data, and from then on every turn, whatever calls
      succeed, leaves it so. */
  lemma MergeBreaksStore(next: MergeNet)
    requires Iterates(next.stabilize)
    ensures Good(NAMES, BEHIND) && Running(BEHIND, RING, A, 2) && Iterates(Faulty().stabilize)
    ensures var d := Turn(BEHIND, Faulty(), RING, A, B, "f", File([X]), 2);
            A in d && B in d && "f" in d[B].files && d[B].files["f"] == File([X]) &&
            !HasData(d[B].disk, "x") && !Good(NAMES, d) && Turn(d, next, RING, A, B, "f", File([X]), 2) == d
  {
    NotTransferred(Faulty());
    ImposedOnB(EnsureInSync(BEHIND, Faulty(), RING, A, B, "f", File([X]), 2).0, Faulty());
    TurnIdle(Turn(BEHIND, Faulty(), RING, A, B, "f", File([X]), 2), next, RING, A, B, "f", File([X]), 2);
  }

  lemma ImposedOnB(c: Stores, mn: MergeNet)
    requires A in c && B in c && "f" in c[B].files && c[B].files["f"] == File([]) && !HasData(c[B].disk, "x")
    requires mn.recheck && mn.update
    ensures var d := SyncOrder(c, mn, B, "f", File([X]));
            A in d && B in d && "f" in d[B].files && d[B].files["f"] == File([X]) && !HasData(d[B].disk, "x") &&
            !Good(NAMES, d)
  {
    var d := SyncOrder(c, mn, B, "f", File([X]));
    assert Ids(File([X]).appends) != Ids(File([]).appends);
    assert d[B].files["f"] == File([X]);
    assert X in d[B].files["f"].appends && !StockedFile(d[B], "f");
  }

  // ----- a replica-only append -----

  /** Only the successor received the append. After a merge in which every call succeeds nobody lists it. */
  lemma MergeDropsAppend()
    ensures var c := map[A := WITHOUT_X, B := WITH_X];
            var nets := (t: NodeId) => MergeNet(true, Perfect(), true, true);
            Good(NAMES, c) && Running(c, RING, A, 2) && MergeUp(nets) && HasAppend(c[B].files["f"].appends, "x") &&
            var d := ExecuteMerge(c, nets, RING, A, "f", 2);
            A in d && B in d && "f" in d[A].files && "f" in d[B].files &&
            !HasAppend(d[A].files["f"].appends, "x") && !HasAppend(d[B].files["f"].appends, "x")
  {
    var c := map[A := WITHOUT_X, B := WITH_X];
    var nets := (t: NodeId) => MergeNet(true, Perfect(), true, true);
    StoresGood();
    RingIs(c);
    assert X.appendId == "x" && WITH_X.files["f"].appends[0] == X;
    MergeConverges(NAMES, c, nets, RING, A, "f", 2);
    MergeKeepsPrimaryAppends(NAMES, c, nets, RING, A, "f", 2, B, "x");
  }

  // ----- a primary that has just joined -----

  /** A joins with an empty store while B holds the file with one append. After A's first round and merge,
      all calls succeeding, A serves base and append, and B the base alone. */
  lemma JoinThenMergeDiverges()
    ensures var c := map[A := EMPTY_STORE, B := WITH_X];
            var nets := (t: NodeId) => MergeNet(true, Perfect(), true, true);
            Faithful(NAMES, c, "f", Written) && Lost(NAMES, c, RING, A, "f", 2, 0) && MergeUp(nets) &&
            var e := RecoverAndMerge(c, Perfect(), nets, RING, A, "f", 2);
            A in e && B in e && ReadFile(e[A], "f") == Some([1, NEWLINE, 2]) && ReadFile(e[B], "f") == Some([1])
  {
    var c := map[A := EMPTY_STORE, B := WITH_X];
    var nets := (t: NodeId) => MergeNet(true, Perfect(), true, true);
    StoresGood();
    RingIs(c);
    assert FirstHolder(c, [B], "f", 0);
    assert FaithfulStore(WITH_X, "f", Written);
    RecoveredThenMerged(NAMES, c, Perfect(), nets, RING, A, "f", 2, 0, Written);
    WithXReads();
    assert B in SuccessorIds(RING, A, 2);
  }

  lemma WithXReads()
    ensures ReadFile(WITH_X, "f") == Some([1, NEWLINE, 2])
  {
    var disk, paths := WITH_X.disk, PathsOf(File([X]));
    assert paths == ["f", "x"] && disk["f"] == [1] && disk["x"] == [2];
    assert ReadPaths(disk, paths, 0) == [];
    assert ReadPaths(disk, paths, 1) == [1] + [NEWLINE];
    assert ReadPaths(disk, paths, 2) == [1, NEWLINE] + [2];
    assert |paths| == 2 && [1, NEWLINE] + [2] == [1, NEWLINE, 2];
    assert ReadFile(WITH_X, "f") == Some(ReadPaths(disk, paths, 2));
  }
}
