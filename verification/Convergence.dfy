/** What stabilization achieves when its calls succeed. */
module Convergence {
  import opened Members
  import opened Ring
  import opened AppendLog
  import opened Storage
  import opened SyncCheck
  import opened Cluster
  import opened Stabilization

  // ----- what the pusher sends -----

  /** The appends pushed to a server that reported `remote`, as the receiver records them. */
  function ToSend(disk: map<string, Bytes>, remote: seq<AppendInfo>, apps: seq<AppendInfo>): seq<AppendInfo> {
    if apps == [] then []
    else
      var k := |apps| - 1;
      var size := if apps[k].appendId in disk then |disk[apps[k].appendId]| else 0;
      ToSend(disk, remote, apps[..k]) + if HasAppend(remote, apps[k].appendId) then [] else [apps[k].(size := size)]
  }

  lemma {:induction false} ToSendEverything(disk: map<string, Bytes>, apps: seq<AppendInfo>)
    ensures var s := ToSend(disk, [], apps);
            |s| == |apps| && forall i | 0 <= i < |s| :: s[i] == apps[i].(size := s[i].size)
  {
    if apps != [] {
      ToSendEverything(disk, apps[..|apps| - 1]);
    }
  }

  lemma {:induction false} ToSendNothing(disk: map<string, Bytes>, remote: seq<AppendInfo>, apps: seq<AppendInfo>)
    requires forall i | 0 <= i < |apps| :: HasAppend(remote, apps[i].appendId)
    ensures ToSend(disk, remote, apps) == []
  {
    if apps != [] {
      ToSendNothing(disk, remote, apps[..|apps| - 1]);
    }
  }

  lemma {:induction false} ToSendCovers(disk: map<string, Bytes>, remote: seq<AppendInfo>,
                                        apps: seq<AppendInfo>, id: string)
    requires HasAppend(apps, id)
    ensures HasAppend(remote, id) || HasAppend(ToSend(disk, remote, apps), id)
  {
    var k := |apps| - 1;
    var s := ToSend(disk, remote, apps);
    if apps[k].appendId == id {
      if !HasAppend(remote, id) {
        assert s[|s| - 1].appendId == id;
      }
    } else {
      var i :| 0 <= i < |apps| && apps[i].appendId == id;
      assert apps[..k][i].appendId == id;
      ToSendCovers(disk, remote, apps[..k], id);
      HasAppendConcat(ToSend(disk, remote, apps[..k]), s[|ToSend(disk, remote, apps[..k])|..], id);
      assert s == ToSend(disk, remote, apps[..k]) + s[|ToSend(disk, remote, apps[..k])|..];
    }
  }

  /** A file sent to an empty list arrives in exactly the sender's order. */
  lemma SentInOrder(disk: map<string, Bytes>, apps: seq<AppendInfo>)
    requires Ordered(apps)
    ensures Ids(AppendAll([], ToSend(disk, [], apps))) == Ids(apps)
  {
    var s := ToSend(disk, [], apps);
    ToSendEverything(disk, apps);
    assert Ordered(s) by {
      forall i, j | 0 <= i < j < |s| ensures s[i].appendId != s[j].appendId && !Precedes(s[j], s[i]) {
        assert !Precedes(apps[j], apps[i]);
      }
    }
    ReplayExact(s);
  }

  // ----- one file pushed to one server -----

  /** How the target's copy of `f` relates to the source's after a successful push. */
  ghost predicate Delivered(src: Store, before: Store, after: Store, f: string) {
    f in src.files && f in after.files &&
    (forall i | 0 <= i < |src.files[f].appends| ::
       HasAppend(after.files[f].appends, src.files[f].appends[i].appendId)) &&
    (f !in before.files ==>
       Ids(after.files[f].appends) == Ids(src.files[f].appends) &&
       f in src.disk && f in after.disk && after.disk[f] == src.disk[f]) &&
    (f in before.files && Ids(before.files[f].appends) == Ids(src.files[f].appends) ==>
       after.files[f] == before.files[f])
  }

  ghost predicate SameEntry(before: Store, after: Store, g: string) {
    (g in after.files <==> g in before.files) && (g in before.files ==> after.files[g] == before.files[g])
  }

  // What one server holds after successful pushes from a source, store to store.

  function GotAppends(disk: map<string, Bytes>, st: Store, remote: seq<AppendInfo>, apps: seq<AppendInfo>): Store {
    if apps == [] then st
    else
      var k := |apps| - 1;
      var st1 := GotAppends(disk, st, remote, apps[..k]);
      var id := apps[k].appendId;
      if HasAppend(remote, id) || id !in disk || disk[id] == [] then st1 else PutAppend(st1, disk[id], apps[k])
  }

  function GotBase(src: Store, st: Store, known: map<string, FileMetadata>, f: string): Store
    requires f in src.files
  {
    var outdated := f !in known || src.files[f].contentHash != known[f].contentHash;
    if outdated && f in src.disk && src.disk[f] != [] then PutFile(st, src.disk[f], src.files[f]) else st
  }

  function GotFile(src: Store, st: Store, known: map<string, FileMetadata>, f: string): Store {
    if f !in src.files then st
    else GotAppends(src.disk, GotBase(src, st, known, f), if f in known then known[f].appends else [],
                    src.files[f].appends)
  }

  function GotFiles(src: Store, st: Store, known: map<string, FileMetadata>, names: seq<string>): Store {
    if names == [] then st
    else GotFile(src, GotFiles(src, st, known, names[..|names| - 1]), known, names[|names| - 1])
  }

  lemma {:induction false} PushAppendsIs(c: Stores, net: Net, me: NodeId, t: NodeId, remote: seq<AppendInfo>,
                                         apps: seq<AppendInfo>)
    requires AllUp(net) && me in c && t in c && me != t
    ensures PushAppends(c, net, me, t, remote, apps) == c[t := GotAppends(c[me].disk, c[t], remote, apps)]
  {
    if apps == [] {
      assert c == c[t := c[t]];
    } else {
      PushAppendsIs(c, net, me, t, remote, apps[..|apps| - 1]);
    }
  }

  lemma PushFileIs(c: Stores, net: Net, me: NodeId, t: NodeId, known: map<string, FileMetadata>, f: string)
    requires AllUp(net) && me in c && t in c && me != t
    ensures PushFile(c, net, me, t, known, f) == c[t := GotFile(c[me], c[t], known, f)]
  {
    assert c == c[t := c[t]];
    if f in c[me].files {
      var c1 := c[t := GotBase(c[me], c[t], known, f)];
      PushAppendsIs(c1, net, me, t, if f in known then known[f].appends else [], c[me].files[f].appends);
    }
  }

  lemma {:induction false} PushFilesIs(c: Stores, net: Net, me: NodeId, t: NodeId,
                                       known: map<string, FileMetadata>, names: seq<string>)
    requires AllUp(net) && me in c && t in c && me != t
    ensures PushFiles(c, net, me, t, known, names) == c[t := GotFiles(c[me], c[t], known, names)]
  {
    if names == [] {
      assert c == c[t := c[t]];
    } else {
      var k := |names| - 1;
      PushFilesIs(c, net, me, t, known, names[..k]);
      PushFileIs(c[t := GotFiles(c[me], c[t], known, names[..k])], net, me, t, known, names[k]);
    }
  }

  /** Data under file names is left alone. */
  ghost predicate KeepsBases(w: World, st: Store, st': Store) {
    forall g | g in st.disk && w.kind(g) == None :: g in st'.disk && st'.disk[g] == st.disk[g]
  }

  /** Data under other file names is left alone. */
  ghost predicate KeepsOtherBases(w: World, st: Store, st': Store, f: string) {
    forall g | g != f && g in st.disk && w.kind(g) == None :: g in st'.disk && st'.disk[g] == st.disk[g]
  }

  lemma OneAppend(w: World, st: Store, mid: Store, f: string, list: seq<AppendInfo>, a: AppendInfo, data: Bytes)
    requires f in st.files && mid.files == st.files[f := st.files[f].(appends := list)] && KeepsBases(w, st, mid)
    requires GoodAppend(w, f, a)
    ensures var r := PutAppend(mid, data, a);
            r.files == st.files[f := st.files[f].(appends := AppendTo(list, a.(size := |data|)))] &&
            KeepsBases(w, st, r)
  {
  }

  lemma ToSendNext(disk: map<string, Bytes>, remote: seq<AppendInfo>, apps: seq<AppendInfo>, cur: seq<AppendInfo>)
    requires apps != [] && apps[|apps| - 1].appendId in disk
    ensures var a, before := apps[|apps| - 1], AppendAll(cur, ToSend(disk, remote, apps[..|apps| - 1]));
            AppendAll(cur, ToSend(disk, remote, apps)) ==
              if HasAppend(remote, a.appendId) then before else AppendTo(before, a.(size := |disk[a.appendId]|))
  {
    var a, all := apps[|apps| - 1], ToSend(disk, remote, apps);
    var init := ToSend(disk, remote, apps[..|apps| - 1]);
    if HasAppend(remote, a.appendId) {
      assert all == init;
    } else {
      assert all == init + [a.(size := |disk[a.appendId]|)];
      assert all[..|all| - 1] == init;
    }
  }

  lemma {:induction false} GotAppendsEffect(w: World, disk: map<string, Bytes>, st: Store, f: string,
                                            remote: seq<AppendInfo>, apps: seq<AppendInfo>)
    requires f in st.files && forall a | a in apps :: GoodAppend(w, f, a) && HasData(disk, a.appendId)
    ensures var r := GotAppends(disk, st, remote, apps);
            KeepsBases(w, st, r) &&
            r.files == st.files[f := st.files[f].(appends :=
              AppendAll(st.files[f].appends, ToSend(disk, remote, apps)))]
  {
    if apps == [] {
      assert st.files == st.files[f := st.files[f].(appends := st.files[f].appends)];
    } else {
      var k, cur := |apps| - 1, st.files[f].appends;
      var a := apps[k];
      assert a in apps;
      GotAppendsEffect(w, disk, st, f, remote, apps[..k]);
      ToSendNext(disk, remote, apps, cur);
      OneAppend(w, st, GotAppends(disk, st, remote, apps[..k]), f, AppendAll(cur, ToSend(disk, remote, apps[..k])), a,
                disk[a.appendId]);
    }
  }

  ghost predicate Reports(known: map<string, FileMetadata>, st: Store, f: string) {
    (f in known <==> f in st.files) && (f in known ==> known[f] == st.files[f])
  }

  lemma GotKnownFile(w: World, src: Store, st: Store, known: map<string, FileMetadata>, f: string)
    requires GoodStore(w, src) && f in src.files && Reports(known, st, f) && f in known
    ensures var r := GotFile(src, st, known, f);
            Delivered(src, st, r, f) && KeepsBases(w, st, r) && r.files == st.files[f := r.files[f]]
  {
    var local := src.files[f];
    assert GoodMeta(w, f, local);
    assert GotBase(src, st, known, f) == st;
    GotAppendsEffect(w, src.disk, st, f, known[f].appends, local.appends);
    KnownDelivered(src.disk, known[f].appends, local.appends);
  }

  lemma NewBase(w: World, src: Store, st: Store, known: map<string, FileMetadata>, f: string)
    requires GoodStore(w, src) && f in src.files && f !in st.files && f !in known
    ensures GotBase(src, st, known, f) ==
            Store(st.files[f := src.files[f].(appends := [])], st.disk[f := src.disk[f]])
  {
    assert GoodMeta(w, f, src.files[f]) && HasData(src.disk, f);
  }

  lemma GotNewFile(w: World, src: Store, st: Store, known: map<string, FileMetadata>, f: string)
    requires GoodStore(w, src) && f in src.files && Reports(known, st, f) && f !in known
    ensures var r := GotFile(src, st, known, f);
            Delivered(src, st, r, f) && KeepsOtherBases(w, st, r, f) && r.files == st.files[f := r.files[f]]
  {
    var apps, base := src.files[f].appends, GotBase(src, st, known, f);
    var got, r := AppendAll([], ToSend(src.disk, [], apps)), GotAppends(src.disk, base, [], apps);
    NewBase(w, src, st, known, f);
    assert GoodMeta(w, f, src.files[f]) && StockedFile(src, f);
    GotAppendsEffect(w, src.disk, base, f, [], apps);
    SentInOrder(src.disk, apps);
    NewKept(w, src, st, base, r, f, got);
    NewDelivered(src, st, r, f, got);
  }

  lemma NewKept(w: World, src: Store, st: Store, base: Store, r: Store, f: string, got: seq<AppendInfo>)
    requires f in src.files && f !in st.files && f in src.disk && w.kind(f) == None
    requires base == Store(st.files[f := src.files[f].(appends := [])], st.disk[f := src.disk[f]])
    requires KeepsBases(w, base, r) && r.files == base.files[f := base.files[f].(appends := got)]
    ensures KeepsOtherBases(w, st, r, f) && r.files == st.files[f := src.files[f].(appends := got)]
    ensures f in r.disk && r.disk[f] == src.disk[f]
  {
  }

  lemma NewDelivered(src: Store, st: Store, r: Store, f: string, got: seq<AppendInfo>)
    requires f in src.files && f !in st.files && f in r.files && r.files[f] == src.files[f].(appends := got)
    requires Ids(got) == Ids(src.files[f].appends)
    requires f in src.disk && f in r.disk && r.disk[f] == src.disk[f]
    ensures Delivered(src, st, r, f)
  {
    IdsCover(got, src.files[f].appends);
  }

  lemma GotFileEffect(w: World, src: Store, st: Store, known: map<string, FileMetadata>, f: string)
    requires GoodStore(w, src) && f in src.files && Reports(known, st, f)
    ensures var r := GotFile(src, st, known, f);
            Delivered(src, st, r, f) && KeepsOtherBases(w, st, r, f) && r.files == st.files[f := r.files[f]]
  {
    if f in known {
      GotKnownFile(w, src, st, known, f);
    } else {
      GotNewFile(w, src, st, known, f);
    }
  }

  /** Equal ID sequences hold the same IDs. */
  lemma IdsCover(s: seq<AppendInfo>, t: seq<AppendInfo>)
    requires Ids(s) == Ids(t)
    ensures forall i | 0 <= i < |t| :: HasAppend(s, t[i].appendId)
  {
    forall i | 0 <= i < |t| ensures HasAppend(s, t[i].appendId) {
      assert Ids(t)[i] == Ids(s)[i];
    }
  }

  lemma KnownDelivered(disk: map<string, Bytes>, remote: seq<AppendInfo>, apps: seq<AppendInfo>)
    ensures var r := AppendAll(remote, ToSend(disk, remote, apps));
            (forall i | 0 <= i < |apps| :: HasAppend(r, apps[i].appendId)) &&
            (Ids(remote) == Ids(apps) ==> r == remote)
  {
    var sent := ToSend(disk, remote, apps);
    forall i | 0 <= i < |apps| ensures HasAppend(AppendAll(remote, sent), apps[i].appendId) {
      ToSendCovers(disk, remote, apps, apps[i].appendId);
      AppendAllIds(remote, sent, apps[i].appendId);
    }
    if Ids(remote) == Ids(apps) {
      IdsCover(remote, apps);
      ToSendNothing(disk, remote, apps);
    }
  }

  // ----- many files, many servers -----

  lemma {:induction false} GotFilesEffect(w: World, src: Store, st: Store, known: map<string, FileMetadata>,
                                          names: seq<string>)
    requires GoodStore(w, src) && NoDuplicates(names)
    requires forall f | f in names :: f in src.files && Reports(known, st, f)
    ensures PushedTo(src, st, GotFiles(src, st, known, names), names)
  {
    if names != [] {
      var k := |names| - 1;
      var f, mid := names[k], GotFiles(src, st, known, names[..k]);
      var r := GotFile(src, mid, known, f);
      GotFilesEffect(w, src, st, known, names[..k]);
      assert f in names && f !in names[..k];
      assert names == names[..k] + [f];
      assert SameEntry(st, mid, f);
      GotFileEffect(w, src, mid, known, f);
      forall g | g in names ensures Delivered(src, st, r, g) {
        if g == f {
          DeliveredFrom(src, st, mid, r, f);
        } else {
          assert GoodMeta(w, g, src.files[g]);
          DeliveredStays(src, st, mid, r, g);
        }
      }
      forall g | g !in names ensures SameEntry(st, r, g) {
        assert g != f && SameEntry(st, mid, g);
      }
    }
  }

  lemma DeliveredFrom(src: Store, before: Store, mid: Store, after: Store, f: string)
    requires SameEntry(before, mid, f) && Delivered(src, mid, after, f)
    ensures Delivered(src, before, after, f)
  {
  }

  lemma DeliveredStays(src: Store, before: Store, mid: Store, after: Store, g: string)
    requires Delivered(src, before, mid, g) && SameEntry(mid, after, g)
    requires g in mid.disk ==> g in after.disk && after.disk[g] == mid.disk[g]
    ensures Delivered(src, before, after, g)
  {
  }

  /** All pushed names delivered, all other entries as they were. */
  ghost predicate PushedTo(src: Store, before: Store, after: Store, names: seq<string>) {
    (forall f | f in names :: Delivered(src, before, after, f)) &&
    forall g | g !in names :: SameEntry(before, after, g)
  }

  /** The names to push all lie in the primary range that the successors are asked about. */
  ghost predicate PushPlan(w: World, c: Stores, me: NodeId, r: Range, names: seq<string>) {
    me in c && NoDuplicates(names) &&
    forall f | f in names :: f in c[me].files && IsHashInRange(w.hashOf(f), r)
  }

  ghost predicate Peers(c: Stores, me: NodeId, succs: seq<NodeId>) {
    NoDuplicates(succs) && me !in succs && forall t | t in succs :: t in c
  }

  lemma FetchReports(w: World, c: Stores, t: NodeId, r: Range, f: string)
    requires Good(w, c) && t in c && IsHashInRange(w.hashOf(f), r)
    ensures Reports(Fetch(c, true, t, r), c[t], f)
  {
    assert f in c[t].files ==> GoodMeta(w, f, c[t].files[f]);
  }

  lemma PushToEffect(w: World, c: Stores, net: Net, me: NodeId, t: NodeId, r: Range, names: seq<string>)
    requires Good(w, c) && AllUp(net) && PushPlan(w, c, me, r, names) && t in c && t != me
    ensures var d := PushTo(c, net, me, t, r, names);
            d == c[t := d[t]] && PushedTo(c[me], c[t], d[t], names)
  {
    var known := Fetch(c, true, t, r);
    forall f | f in names ensures Reports(known, c[t], f) {
      FetchReports(w, c, t, r, f);
    }
    PushFilesIs(c, net, me, t, known, names);
    GotFilesEffect(w, c[me], c[t], known, names);
  }

  lemma {:induction false} PushSuccessorsEffect(w: World, c: Stores, net: Net, me: NodeId, succs: seq<NodeId>, r: Range,
                                                names: seq<string>)
    requires Good(w, c) && AllUp(net) && PushPlan(w, c, me, r, names) && Peers(c, me, succs)
    ensures var d := PushSuccessors(c, net, me, succs, r, names);
            (forall n | n in c && n !in succs :: d[n] == c[n]) &&
            (forall t | t in succs :: PushedTo(c[me], c[t], d[t], names))
  {
    if succs != [] {
      var k := |succs| - 1;
      var t, c1 := succs[k], PushSuccessors(c, net, me, succs[..k], r, names);
      PushSuccessorsEffect(w, c, net, me, succs[..k], r, names);
      PushSuccessorsAdvances(w, c, net, me, succs[..k], r, names);
      assert succs == succs[..k] + [t];
      assert t in succs && t !in succs[..k] && me !in succs[..k];
      PushToEffect(w, c1, net, me, t, r, names);
    }
  }

  // ----- pull -----

  /** Names in range according to the naming convention. */
  function Names(c: Stores, n: NodeId, r: Range): set<string> {
    if n in c then FilesInRange(c[n].files, r) else {}
  }

  function NamesOfAll(c: Stores, ns: seq<NodeId>, r: Range): set<string> {
    if ns == [] then {} else NamesOfAll(c, ns[..|ns| - 1], r) + Names(c, ns[|ns| - 1], r)
  }

  /** The puller's file table after a pull from `t`: what it had, unchanged, and the listed names. */
  ghost predicate Pulled(before: Store, after: Store, names: set<string>) {
    after.files.Keys == before.files.Keys + names &&
    forall f | f in before.files :: after.files[f] == before.files[f]
  }

  ghost predicate PulledNames(before: Store, after: Store, names: seq<string>) {
    (forall f :: f in after.files <==> f in before.files || f in names) &&
    forall f | f in before.files :: after.files[f] == before.files[f]
  }

  lemma {:induction false} PullFilesEffect(w: World, c: Stores, net: Net, me: NodeId, t: NodeId,
                                           metas: map<string, FileMetadata>, names: seq<string>)
    requires Good(w, c) && AllUp(net) && me in c && t in c && me != t
    requires forall f | f in names :: f in metas && f in c[t].files
    requires forall f | f in metas :: GoodMeta(w, f, metas[f])
    ensures PulledNames(c[me], PullFiles(c, net, me, t, metas, names)[me], names)
  {
    if names != [] {
      var k := |names| - 1;
      var f, c1 := names[k], PullFiles(c, net, me, t, metas, names[..k]);
      PullFilesEffect(w, c, net, me, t, metas, names[..k]);
      assert f in names;
      assert names == names[..k] + [f];
      PullFilesKeeps(w, c, net, me, t, metas, names[..k]);
      PullFileGains(w, c1, net, me, t, f, metas[f]);
      PulledMore(c[me], c1[me], PullFile(c1, net, me, t, f, metas[f])[me], names[..k], f, metas[f].(appends := []));
    }
  }

  lemma PullFilesKeeps(w: World, c: Stores, net: Net, me: NodeId, t: NodeId, metas: map<string, FileMetadata>,
                       names: seq<string>)
    requires Good(w, c) && me in c && t in c && me != t
    requires forall f | f in names :: f in metas
    requires forall f | f in metas :: GoodMeta(w, f, metas[f])
    ensures var d := PullFiles(c, net, me, t, metas, names); Good(w, d) && d[t] == c[t]
  {
    PullFilesAdvances(w, c, net, me, t, metas, names);
  }

  lemma PullFileGains(w: World, c: Stores, net: Net, me: NodeId, t: NodeId, f: string, remote: FileMetadata)
    requires Good(w, c) && AllUp(net) && me in c && t in c && f in c[t].files && GoodMeta(w, f, remote)
    ensures PullFile(c, net, me, t, f, remote)[me].files ==
            if f !in c[me].files then c[me].files[f := remote.(appends := [])] else c[me].files
  {
    PullFileAdvances(w, c, net, me, t, f, remote);
  }

  lemma PulledMore(a: Store, b: Store, c: Store, names: seq<string>, f: string, meta: FileMetadata)
    requires PulledNames(a, b, names)
    requires c.files == if f !in b.files then b.files[f := meta] else b.files
    ensures PulledNames(a, c, names + [f])
  {
  }

  lemma PullFromEffect(w: World, c: Stores, net: Net, me: NodeId, t: NodeId, r: Range)
    requires Good(w, c) && AllUp(net) && Iterates(net) && me in c && t in c && me != t
    ensures Pulled(c[me], PullFrom(c, net, me, t, r)[me], Names(c, t, r))
  {
    var metas := Fetch(c, true, t, r);
    ListingHas(net, t, metas.Keys);
    var names := net.listing(t, metas.Keys);
    forall f | f in metas ensures GoodMeta(w, f, metas[f]) {
    }
    PullFilesEffect(w, c, net, me, t, metas, names);
    assert forall f :: f in names <==> f in Names(c, t, r);
  }

  lemma {:induction false} PullSuccessorsEffect(w: World, c: Stores, net: Net, me: NodeId, succs: seq<NodeId>, r: Range)
    requires Good(w, c) && AllUp(net) && Iterates(net) && me in c && Peers(c, me, succs)
    ensures Pulled(c[me], PullSuccessors(c, net, me, succs, r)[me], NamesOfAll(c, succs, r))
  {
    if succs != [] {
      var k := |succs| - 1;
      var t, c1 := succs[k], PullSuccessors(c, net, me, succs[..k], r);
      PullSuccessorsEffect(w, c, net, me, succs[..k], r);
      PullSuccessorsAdvances(w, c, net, me, succs[..k], r);
      assert t in succs;
      assert c1[t] == c[t];
      PullFromEffect(w, c1, net, me, t, r);
    }
  }
}
