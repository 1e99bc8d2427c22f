/** What stabilization keeps under any faults, and what it achieves when its calls succeed. */
module Stabilization {
  import opened Members
  import opened Ring
  import opened AppendLog
  import opened MetadataStore
  import opened Storage
  import opened Cluster

  /** The naming convention: each name's hash, and for an AppendID the file it belongs to. File names
      are the names of kind None, so no AppendID is a file name. */
  datatype World = World(hashOf: string -> Hash, kind: string -> Option<string>)

  ghost predicate GoodAppend(w: World, f: string, a: AppendInfo) {
    a.fileName == f && w.kind(a.appendId) == Some(f)
  }

  ghost predicate GoodMeta(w: World, f: string, meta: FileMetadata) {
    meta.fileName == f && meta.nameHash == w.hashOf(f) && w.kind(f) == None && Ordered(meta.appends) &&
    forall a | a in meta.appends :: GoodAppend(w, f, a)
  }

  ghost predicate HasData(disk: map<string, Bytes>, name: string) {
    name in disk && disk[name] != []
  }

  /** Listed files and appends follow the convention and are ordered. */
  ghost predicate NamedStore(w: World, st: Store) {
    forall f | f in st.files :: GoodMeta(w, f, st.files[f])
  }

  /** The base and every listed append have their data on disk. */
  ghost predicate StockedFile(st: Store, f: string) {
    f in st.files ==> HasData(st.disk, f) && forall a | a in st.files[f].appends :: HasData(st.disk, a.appendId)
  }

  ghost predicate GoodStore(w: World, st: Store) {
    NamedStore(w, st) && forall f | f in st.files :: StockedFile(st, f)
  }

  ghost predicate Named(w: World, c: Stores) {
    forall n | n in c :: NamedStore(w, c[n])
  }

  ghost predicate Good(w: World, c: Stores) {
    forall n | n in c :: GoodStore(w, c[n])
  }

  // ----- growth -----

  ghost predicate Before(s: seq<AppendInfo>, x: AppendInfo, y: AppendInfo) {
    exists i, j :: 0 <= i < j < |s| && s[i] == x && s[j] == y
  }

  /** `t` still holds every append of `s`, in the same relative order. */
  ghost predicate Embeds(s: seq<AppendInfo>, t: seq<AppendInfo>) {
    (forall a | a in s :: a in t) &&
    forall i, j | 0 <= i < j < |s| :: Before(t, s[i], s[j])
  }

  /** Every file is still there, with the same base and at least the same appends in the same order. */
  ghost predicate Grows(st: Store, st': Store) {
    forall f | f in st.files ::
      f in st'.files && st'.files[f] == st.files[f].(appends := st'.files[f].appends) &&
      Embeds(st.files[f].appends, st'.files[f].appends) &&
      (f in st.disk ==> f in st'.disk && st'.disk[f] == st.disk[f])
  }

  /** Nothing is lost, the convention is kept, and if all data was there it still is. */
  ghost predicate Advances(w: World, c: Stores, d: Stores) {
    Named(w, d) && d.Keys == c.Keys && (forall n | n in c :: Grows(c[n], d[n])) && (Good(w, c) ==> Good(w, d))
  }

  /** A step that changes server `me` only. */
  ghost predicate AdvancesOnly(w: World, c: Stores, d: Stores, me: NodeId) {
    Advances(w, c, d) && me in c && forall n | n in c && n != me :: d[n] == c[n]
  }

  lemma EmbedsSelf(s: seq<AppendInfo>)
    ensures Embeds(s, s)
  {
  }

  lemma EmbedsTransitive(s: seq<AppendInfo>, t: seq<AppendInfo>, u: seq<AppendInfo>)
    requires Embeds(s, t) && Embeds(t, u)
    ensures Embeds(s, u)
  {
    forall i, j | 0 <= i < j < |s| ensures Before(u, s[i], s[j]) {
      assert Before(t, s[i], s[j]);
      var k, l :| 0 <= k < l < |t| && t[k] == s[i] && t[l] == s[j];
      assert Before(u, t[k], t[l]);
    }
  }

  lemma GrowsSelf(st: Store)
    ensures Grows(st, st)
  {
    forall f | f in st.files ensures Embeds(st.files[f].appends, st.files[f].appends) {
      EmbedsSelf(st.files[f].appends);
    }
  }

  lemma GrowsTransitive(a: Store, b: Store, c: Store)
    requires Grows(a, b) && Grows(b, c)
    ensures Grows(a, c)
  {
    forall f | f in a.files ensures Embeds(a.files[f].appends, c.files[f].appends) {
      EmbedsTransitive(a.files[f].appends, b.files[f].appends, c.files[f].appends);
    }
  }

  lemma AdvancesSelf(w: World, c: Stores)
    requires Named(w, c)
    ensures Advances(w, c, c)
  {
    forall n | n in c ensures Grows(c[n], c[n]) {
      GrowsSelf(c[n]);
    }
  }

  lemma AdvancesTransitive(w: World, a: Stores, b: Stores, c: Stores)
    requires Advances(w, a, b) && Advances(w, b, c)
    ensures Advances(w, a, c)
  {
    forall n | n in a ensures Grows(a[n], c[n]) {
      GrowsTransitive(a[n], b[n], c[n]);
    }
  }

  lemma OnlyTransitive(w: World, a: Stores, b: Stores, c: Stores, me: NodeId)
    requires AdvancesOnly(w, a, b, me) && AdvancesOnly(w, b, c, me)
    ensures AdvancesOnly(w, a, c, me)
  {
    AdvancesTransitive(w, a, b, c);
  }

  lemma OnlySelf(w: World, c: Stores, me: NodeId)
    requires Named(w, c) && me in c
    ensures AdvancesOnly(w, c, c, me)
  {
    AdvancesSelf(w, c);
  }

  /** Replacing one store by a grown good one. */
  lemma AdvancesAt(w: World, c: Stores, n: NodeId, st: Store)
    requires Named(w, c) && n in c && NamedStore(w, st) && Grows(c[n], st)
    requires Good(w, c) ==> GoodStore(w, st)
    ensures AdvancesOnly(w, c, c[n := st], n)
  {
    forall m | m in c ensures Grows(c[m], c[n := st][m]) {
      GrowsSelf(c[m]);
    }
  }

  // ----- the handlers -----

  lemma InsertEmbeds(s: seq<AppendInfo>, a: AppendInfo)
    requires Ordered(s)
    ensures Ordered(AppendTo(s, a)) && Embeds(s, AppendTo(s, a))
    ensures forall x | x in AppendTo(s, a) :: x in s || x == a
  {
    var k := AppendToKeeps(s, a);
    if HasAppend(s, a.appendId) {
      EmbedsSelf(s);
    } else {
      var r := s[..k] + [a] + s[k..];
      assert s == s[..k] + s[k..];
      forall i, j | 0 <= i < j < |s| ensures Before(r, s[i], s[j]) {
        var i', j' := if i < k then i else i + 1, if j < k then j else j + 1;
        assert 0 <= i' < j' < |r| && r[i'] == s[i] && r[j'] == s[j];
      }
    }
  }

  lemma PutFileGrows(w: World, st: Store, data: Bytes, meta: FileMetadata)
    requires NamedStore(w, st) && data != [] && GoodMeta(w, meta.fileName, meta)
    ensures NamedStore(w, PutFile(st, data, meta)) && Grows(st, PutFile(st, data, meta))
    ensures GoodStore(w, st) ==> GoodStore(w, PutFile(st, data, meta))
  {
    GrowsSelf(st);
  }

  lemma PutAppendGrows(w: World, st: Store, data: Bytes, a: AppendInfo)
    requires NamedStore(w, st) && data != [] && GoodAppend(w, a.fileName, a)
    ensures NamedStore(w, PutAppend(st, data, a)) && Grows(st, PutAppend(st, data, a))
    ensures GoodStore(w, st) ==> GoodStore(w, PutAppend(st, data, a))
  {
    GrowsSelf(st);
    if a.fileName in st.files {
      var f, x := a.fileName, a.(size := |data|);
      InsertEmbeds(st.files[f].appends, x);
      AppendedIsNamed(w, st, x);
      if GoodStore(w, st) {
        AppendedIsStocked(w, st, data, x);
      }
    }
  }

  lemma AppendedIsNamed(w: World, st: Store, a: AppendInfo)
    requires NamedStore(w, st) && a.fileName in st.files && GoodAppend(w, a.fileName, a)
    ensures NamedStore(w, st.(files := AppendIn(st.files, a.fileName, a)))
  {
    InsertEmbeds(st.files[a.fileName].appends, a);
  }

  lemma AppendedIsStocked(w: World, st: Store, data: Bytes, a: AppendInfo)
    requires GoodStore(w, st) && data != [] && a.fileName in st.files
    ensures var r := Store(AppendIn(st.files, a.fileName, a), st.disk[a.appendId := data]);
            forall f | f in r.files :: StockedFile(r, f)
  {
    var r := Store(AppendIn(st.files, a.fileName, a), st.disk[a.appendId := data]);
    InsertEmbeds(st.files[a.fileName].appends, a);
    forall f | f in r.files ensures StockedFile(r, f) {
      assert StockedFile(st, f);
    }
  }

  // ----- push keeps everything -----

  lemma PushAppendAdvances(w: World, c: Stores, net: Net, me: NodeId, t: NodeId, a: AppendInfo)
    requires Named(w, c) && me in c && GoodAppend(w, a.fileName, a)
    ensures Advances(w, c, PushAppend(c, net, me, t, a))
  {
    AdvancesSelf(w, c);
    var disk := c[me].disk;
    if HasData(disk, a.appendId) && t in c {
      PutAppendGrows(w, c[t], disk[a.appendId], a);
      AdvancesAt(w, c, t, PutAppend(c[t], disk[a.appendId], a));
    }
  }

  lemma {:induction false} PushAppendsAdvances(w: World, c: Stores, net: Net, me: NodeId, t: NodeId,
                                               remote: seq<AppendInfo>, apps: seq<AppendInfo>)
    requires Named(w, c) && me in c && forall a | a in apps :: GoodAppend(w, a.fileName, a)
    ensures Advances(w, c, PushAppends(c, net, me, t, remote, apps))
  {
    AdvancesSelf(w, c);
    if apps != [] {
      var k := |apps| - 1;
      var c1 := PushAppends(c, net, me, t, remote, apps[..k]);
      PushAppendsAdvances(w, c, net, me, t, remote, apps[..k]);
      assert apps[k] in apps;
      PushAppendAdvances(w, c1, net, me, t, apps[k]);
      AdvancesTransitive(w, c, c1, PushAppend(c1, net, me, t, apps[k]));
    }
  }

  lemma PushBaseAdvances(w: World, c: Stores, net: Net, me: NodeId, t: NodeId, f: string)
    requires Named(w, c) && me in c && f in c[me].files
    ensures Advances(w, c, PushBase(c, net, me, t, f, c[me].files[f]))
  {
    AdvancesSelf(w, c);
    var local := c[me].files[f];
    if HasData(c[me].disk, f) && t in c {
      PutFileGrows(w, c[t], c[me].disk[f], local);
      AdvancesAt(w, c, t, PutFile(c[t], c[me].disk[f], local));
    }
  }

  lemma PushFileAdvances(w: World, c: Stores, net: Net, me: NodeId, t: NodeId, known: map<string, FileMetadata>,
                         f: string)
    requires Named(w, c) && me in c
    ensures Advances(w, c, PushFile(c, net, me, t, known, f))
  {
    AdvancesSelf(w, c);
    if f in c[me].files {
      var local := c[me].files[f];
      var outdated := f !in known || local.contentHash != known[f].contentHash;
      var c1 := if outdated then PushBase(c, net, me, t, f, local) else c;
      var remote := if f in known then known[f].appends else [];
      PushBaseAdvances(w, c, net, me, t, f);
      PushAppendsAdvances(w, c1, net, me, t, remote, local.appends);
      AdvancesTransitive(w, c, c1, PushAppends(c1, net, me, t, remote, local.appends));
    }
  }

  lemma {:induction false} PushFilesAdvances(w: World, c: Stores, net: Net, me: NodeId, t: NodeId,
                                             known: map<string, FileMetadata>, names: seq<string>)
    requires Named(w, c) && me in c
    ensures Advances(w, c, PushFiles(c, net, me, t, known, names))
  {
    AdvancesSelf(w, c);
    if names != [] {
      var k := |names| - 1;
      var c1 := PushFiles(c, net, me, t, known, names[..k]);
      PushFilesAdvances(w, c, net, me, t, known, names[..k]);
      PushFileAdvances(w, c1, net, me, t, known, names[k]);
      AdvancesTransitive(w, c, c1, PushFile(c1, net, me, t, known, names[k]));
    }
  }

  lemma {:induction false} PushSuccessorsAdvances(w: World, c: Stores, net: Net, me: NodeId, succs: seq<NodeId>,
                                                  r: Range, names: seq<string>)
    requires Named(w, c) && me in c
    ensures Advances(w, c, PushSuccessors(c, net, me, succs, r, names))
  {
    AdvancesSelf(w, c);
    if succs != [] {
      var k := |succs| - 1;
      var c1 := PushSuccessors(c, net, me, succs[..k], r, names);
      PushSuccessorsAdvances(w, c, net, me, succs[..k], r, names);
      PushFilesAdvances(w, c1, net, me, succs[k], Fetch(c1, net.fetchForPush(succs[k]), succs[k], r), names);
      AdvancesTransitive(w, c, c1, PushTo(c1, net, me, succs[k], r, names));
    }
  }

  // ----- pull keeps everything -----

  lemma {:induction false} ReadNonEmpty(disk: map<string, Bytes>, paths: seq<string>, k: nat)
    requires 0 < k <= |paths| && HasData(disk, paths[0])
    ensures ReadPaths(disk, paths, k) != []
  {
    if k > 1 {
      ReadNonEmpty(disk, paths, k - 1);
    }
  }

  /** Servers answer downloads by file name only, so an AppendID is never found. */
  lemma AppendNotServed(w: World, c: Stores, net: Net, t: NodeId, a: AppendInfo)
    requires Named(w, c) && GoodAppend(w, a.fileName, a)
    ensures Download(c, net, t, a.appendId) == None
  {
  }

  lemma PullAppendAdvances(w: World, c: Stores, net: Net, me: NodeId, t: NodeId, f: string, a: AppendInfo)
    requires Named(w, c) && me in c && f in c[me].files && GoodAppend(w, f, a)
    requires !HasAppend(c[me].files[f].appends, a.appendId)
    ensures var d := PullAppend(c, net, me, t, f, a);
            AdvancesOnly(w, c, d, me) && d[me].files == c[me].files
  {
    AppendNotServed(w, c, net, t, a);
    var st := PullAppend(c, net, me, t, f, a)[me];
    GrowsSelf(c[me]);
    if Good(w, c) {
      UnlistedForgotten(w, c[me], f, a, net.receive(t, a.appendId));
    }
    AdvancesAt(w, c, me, st);
  }

  /** Removing the data of an unlisted append harms no listed file. */
  lemma UnlistedForgotten(w: World, st: Store, f: string, a: AppendInfo, o: Outcome)
    requires GoodStore(w, st) && f in st.files && GoodAppend(w, f, a) && !HasAppend(st.files[f].appends, a.appendId)
    ensures GoodStore(w, st.(disk := AfterFailure(st.disk, o, a.appendId)))
  {
    var r := st.(disk := AfterFailure(st.disk, o, a.appendId));
    forall g | g in st.files ensures StockedFile(r, g) {
      assert GoodMeta(w, g, st.files[g]) && StockedFile(st, g);
      forall b | b in st.files[g].appends ensures b.appendId != a.appendId {
        var i :| 0 <= i < |st.files[g].appends| && st.files[g].appends[i] == b;
        assert GoodAppend(w, g, b);
      }
    }
  }

  lemma {:induction false} PullAppendsAdvances(w: World, c: Stores, net: Net, me: NodeId, t: NodeId, f: string,
                                               apps: seq<AppendInfo>)
    requires Named(w, c) && me in c && f in c[me].files && forall a | a in apps :: GoodAppend(w, f, a)
    ensures var d := PullAppends(c, net, me, t, f, c[me].files[f].appends, apps);
            AdvancesOnly(w, c, d, me) && d[me].files == c[me].files
  {
    OnlySelf(w, c, me);
    if apps != [] {
      var k, local := |apps| - 1, c[me].files[f].appends;
      var c1 := PullAppends(c, net, me, t, f, local, apps[..k]);
      PullAppendsAdvances(w, c, net, me, t, f, apps[..k]);
      assert apps[k] in apps;
      if !HasAppend(local, apps[k].appendId) {
        PullAppendAdvances(w, c1, net, me, t, f, apps[k]);
        OnlyTransitive(w, c, c1, PullAppend(c1, net, me, t, f, apps[k]), me);
      }
    }
  }

  /** One pulled file: only the puller changes; it gains the file when the download succeeds. */
  lemma PullFileAdvances(w: World, c: Stores, net: Net, me: NodeId, t: NodeId, f: string, remote: FileMetadata)
    requires Named(w, c) && me in c && GoodMeta(w, f, remote)
    ensures var d := PullFile(c, net, me, t, f, remote);
            AdvancesOnly(w, c, d, me) &&
            d[me].files == if f !in c[me].files && Download(c, net, t, f).Some?
                           then c[me].files[f := remote.(appends := [])] else c[me].files
  {
    if f in c[me].files {
      PullAppendsAdvances(w, c, net, me, t, f, remote.appends);
    } else {
      var data := Download(c, net, t, f);
      if data.Some? {
        if Good(w, c) {
          DownloadNonEmpty(w, c, net, t, f);
        }
        GainFile(w, c, me, f, remote, data.value);
        var c1 := c[me := Store(c[me].files[f := remote.(appends := [])], c[me].disk[f := data.value])];
        PullAppendsAdvances(w, c1, net, me, t, f, remote.appends);
        OnlyTransitive(w, c, c1, PullAppends(c1, net, me, t, f, [], remote.appends), me);
      } else {
        FailedPull(w, c, me, f, net.receive(t, f));
      }
    }
  }

  lemma DownloadNonEmpty(w: World, c: Stores, net: Net, t: NodeId, f: string)
    requires Good(w, c) && Download(c, net, t, f).Some?
    ensures Download(c, net, t, f).value != []
  {
    assert GoodMeta(w, f, c[t].files[f]) && StockedFile(c[t], f);
    ReadNonEmpty(c[t].disk, PathsOf(c[t].files[f]), |PathsOf(c[t].files[f])|);
  }

  lemma GainFile(w: World, c: Stores, me: NodeId, f: string, remote: FileMetadata, data: Bytes)
    requires Named(w, c) && me in c && f !in c[me].files && GoodMeta(w, f, remote)
    requires Good(w, c) ==> data != []
    ensures AdvancesOnly(w, c, c[me := Store(c[me].files[f := remote.(appends := [])], c[me].disk[f := data])], me)
  {
    var st := Store(c[me].files[f := remote.(appends := [])], c[me].disk[f := data]);
    GrowsSelf(c[me]);
    AdvancesAt(w, c, me, st);
  }

  lemma FailedPull(w: World, c: Stores, me: NodeId, f: string, o: Outcome)
    requires Named(w, c) && me in c && f !in c[me].files && w.kind(f) == None
    ensures AdvancesOnly(w, c, c[me := c[me].(disk := AfterFailure(c[me].disk, o, f))], me)
  {
    GrowsSelf(c[me]);
    AdvancesAt(w, c, me, c[me].(disk := AfterFailure(c[me].disk, o, f)));
  }

  lemma {:induction false} PullFilesAdvances(w: World, c: Stores, net: Net, me: NodeId, t: NodeId,
                                             metas: map<string, FileMetadata>, names: seq<string>)
    requires Named(w, c) && me in c && forall n | n in metas :: GoodMeta(w, n, metas[n])
    requires forall n | n in names :: n in metas
    ensures var d := PullFiles(c, net, me, t, metas, names);
            AdvancesOnly(w, c, d, me)
  {
    OnlySelf(w, c, me);
    if names != [] {
      var k := |names| - 1;
      var c1 := PullFiles(c, net, me, t, metas, names[..k]);
      PullFilesAdvances(w, c, net, me, t, metas, names[..k]);
      assert names[k] in names;
      PullFileAdvances(w, c1, net, me, t, names[k], metas[names[k]]);
      OnlyTransitive(w, c, c1, PullFile(c1, net, me, t, names[k], metas[names[k]]), me);
    }
  }

  lemma PullFromAdvances(w: World, c: Stores, net: Net, me: NodeId, t: NodeId, r: Range)
    requires Named(w, c) && me in c && Iterates(net)
    ensures var d := PullFrom(c, net, me, t, r); AdvancesOnly(w, c, d, me)
  {
    var metas := Fetch(c, net.fetchForPull(t), t, r);
    ListingHas(net, t, metas.Keys);
    PullFilesAdvances(w, c, net, me, t, metas, net.listing(t, metas.Keys));
  }

  lemma {:induction false} PullSuccessorsAdvances(w: World, c: Stores, net: Net, me: NodeId, succs: seq<NodeId>,
                                                  r: Range)
    requires Named(w, c) && me in c && Iterates(net)
    ensures var d := PullSuccessors(c, net, me, succs, r); AdvancesOnly(w, c, d, me)
  {
    OnlySelf(w, c, me);
    if succs != [] {
      var k := |succs| - 1;
      var c1 := PullSuccessors(c, net, me, succs[..k], r);
      PullSuccessorsAdvances(w, c, net, me, succs[..k], r);
      PullFromAdvances(w, c1, net, me, succs[k], r);
      OnlyTransitive(w, c, c1, PullFrom(c1, net, me, succs[k], r), me);
    }
  }

  /** Whatever calls fail, a stabilization run loses no file and no append on any server, keeps every
      base file's bytes and the order of the appends, and leaves a well-formed system. */
  lemma StabilizeLosesNothing(w: World, c: Stores, net: Net, ms: seq<Member>, me: NodeId, filename: string, rf: nat)
    requires Named(w, c) && me in c && Iterates(net)
    ensures Advances(w, c, Stabilize(c, net, ms, me, filename, rf))
  {
    AdvancesSelf(w, c);
    var r := PrimaryRange(ms, me);
    if r.Some? {
      var mine := Chosen(net, me, c[me].files, r.value, filename);
      var succs := SuccessorIds(ms, me, rf);
      var c1 := PushSuccessors(c, net, me, succs, r.value, mine);
      PushSuccessorsAdvances(w, c, net, me, succs, r.value, mine);
      PullSuccessorsAdvances(w, c1, net, me, succs, r.value);
      AdvancesTransitive(w, c, c1, PullSuccessors(c1, net, me, succs, r.value));
    }
  }
}
