/** The stores of all servers and the stabilization and merge procedures that move files between them
    (ring.go, hydfs_operations.go). Calls to other servers are atomic steps that succeed or fail. */
module Cluster {
  import opened Members
  import opened Ring
  import opened AppendLog
  import opened MetadataStore
  import opened Storage
  import opened SyncCheck

  type Stores = map<NodeId, Store>

  /** The fate of every call of one stabilization run, and the order in which maps are iterated. */
  datatype Net = Net(fetchForPush: NodeId -> bool, sendFile: (NodeId, string) -> bool,
                     sendAppend: (NodeId, string) -> bool, fetchForPull: NodeId -> bool,
                     receive: (NodeId, string) -> Outcome, listing: (NodeId, set<string>) -> seq<string>)

  /** The fate of the calls a merge makes to one successor. */
  datatype MergeNet = MergeNet(check: bool, stabilize: Net, recheck: bool, update: bool)

  ghost predicate IsListing(names: seq<string>, s: set<string>) {
    NoDuplicates(names) && forall n :: n in names <==> n in s
  }

  /** Iteration visits every key once, in any order. */
  ghost predicate Iterates(net: Net) {
    forall id, s :: IsListing(net.listing(id, s), s)
  }

  ghost predicate AllUp(net: Net) {
    (forall t :: net.fetchForPush(t) && net.fetchForPull(t)) &&
    (forall t, n :: net.sendFile(t, n) && net.sendAppend(t, n) && net.receive(t, n) == Complete)
  }

  // ----- metadata queries -----

  /** `GetFilesWithinRange` over a metadata map. */
  function FilesInRange(files: map<string, FileMetadata>, r: Range): set<string> {
    set f | f in files && IsHashInRange(files[f].nameHash, r)
  }

  /** `fetchMetadataFromNode`: the answer of `GetFilesMetadata`, or nothing when the call fails. */
  function Fetch(c: Stores, up: bool, t: NodeId, r: Range): map<string, FileMetadata> {
    if up && t in c then map f | f in FilesInRange(c[t].files, r) :: c[t].files[f] else map[]
  }

  // ----- push -----

  /** Push the appends in `apps` that `remote` does not list. */
  function PushAppends(c: Stores, net: Net, me: NodeId, t: NodeId, remote: seq<AppendInfo>,
                       apps: seq<AppendInfo>): (r: Stores)
    requires me in c
    ensures r.Keys == c.Keys
  {
    if apps == [] then c
    else
      var k := |apps| - 1;
      var c1 := PushAppends(c, net, me, t, remote, apps[..k]);
      if HasAppend(remote, apps[k].appendId) then c1 else PushAppend(c1, net, me, t, apps[k])
  }

  /** Without data there is nothing to stream, and the target stays as it is. */
  function PushAppend(c: Stores, net: Net, me: NodeId, t: NodeId, a: AppendInfo): (r: Stores)
    requires me in c
    ensures r.Keys == c.Keys
  {
    var disk := c[me].disk;
    if a.appendId in disk && disk[a.appendId] != [] && t in c && net.sendAppend(t, a.appendId)
    then c[t := PutAppend(c[t], disk[a.appendId], a)] else c
  }

  function PushBase(c: Stores, net: Net, me: NodeId, t: NodeId, f: string, meta: FileMetadata): (r: Stores)
    requires me in c
    ensures r.Keys == c.Keys
  {
    var disk := c[me].disk;
    if f in disk && disk[f] != [] && t in c && net.sendFile(t, f)
    then c[t := PutFile(c[t], disk[f], meta)] else c
  }

  /** One file of the push loop; `known` is what the target reported. */
  function PushFile(c: Stores, net: Net, me: NodeId, t: NodeId, known: map<string, FileMetadata>,
                    f: string): (r: Stores)
    requires me in c
    ensures r.Keys == c.Keys
  {
    if f !in c[me].files then c
    else
      var local := c[me].files[f];
      var outdated := f !in known || local.contentHash != known[f].contentHash;
      var c1 := if outdated then PushBase(c, net, me, t, f, local) else c;
      PushAppends(c1, net, me, t, if f in known then known[f].appends else [], local.appends)
  }

  function PushFiles(c: Stores, net: Net, me: NodeId, t: NodeId, known: map<string, FileMetadata>,
                     names: seq<string>): (r: Stores)
    requires me in c
    ensures r.Keys == c.Keys
  {
    if names == [] then c
    else PushFile(PushFiles(c, net, me, t, known, names[..|names| - 1]), net, me, t, known, names[|names| - 1])
  }

  function PushTo(c: Stores, net: Net, me: NodeId, t: NodeId, r: Range, names: seq<string>): Stores
    requires me in c
  {
    PushFiles(c, net, me, t, Fetch(c, net.fetchForPush(t), t, r), names)
  }

  function PushSuccessors(c: Stores, net: Net, me: NodeId, succs: seq<NodeId>, r: Range,
                          names: seq<string>): (d: Stores)
    requires me in c
    ensures d.Keys == c.Keys
  {
    if succs == [] then c
    else PushTo(PushSuccessors(c, net, me, succs[..|succs| - 1], r, names), net, me, succs[|succs| - 1], r, names)
  }

  // ----- pull -----

  /** `ReceiveFileFromNode`: the content, or None. */
  function Download(c: Stores, net: Net, t: NodeId, name: string): Option<Bytes> {
    if t in c && net.receive(t, name) == Complete then ReadFile(c[t], name) else None
  }

  function PullAppend(c: Stores, net: Net, me: NodeId, t: NodeId, f: string, a: AppendInfo): (r: Stores)
    requires me in c
    ensures r.Keys == c.Keys
  {
    var data := Download(c, net, t, a.appendId);
    if data.Some?
    then c[me := Store(AppendIn(c[me].files, f, a), c[me].disk[a.appendId := data.value])]
    else c[me := c[me].(disk := AfterFailure(c[me].disk, net.receive(t, a.appendId), a.appendId))]
  }

  /** Download the appends in `apps` that were not listed locally. */
  function PullAppends(c: Stores, net: Net, me: NodeId, t: NodeId, f: string, local: seq<AppendInfo>,
                       apps: seq<AppendInfo>): (r: Stores)
    requires me in c
    ensures r.Keys == c.Keys
  {
    if apps == [] then c
    else
      var k := |apps| - 1;
      var c1 := PullAppends(c, net, me, t, f, local, apps[..k]);
      if HasAppend(local, apps[k].appendId) then c1 else PullAppend(c1, net, me, t, f, apps[k])
  }

  /** One file of the pull loop. A downloaded file starts with an empty append list. */
  function PullFile(c: Stores, net: Net, me: NodeId, t: NodeId, f: string, remote: FileMetadata): (r: Stores)
    requires me in c
    ensures r.Keys == c.Keys
  {
    if f in c[me].files then PullAppends(c, net, me, t, f, c[me].files[f].appends, remote.appends)
    else
      var data := Download(c, net, t, f);
      if data.Some?
      then PullAppends(c[me := Store(c[me].files[remote.fileName := remote.(appends := [])],
                                     c[me].disk[f := data.value])],
                       net, me, t, f, [], remote.appends)
      else c[me := c[me].(disk := AfterFailure(c[me].disk, net.receive(t, f), f))]
  }

  function PullFiles(c: Stores, net: Net, me: NodeId, t: NodeId, metas: map<string, FileMetadata>,
                     names: seq<string>): (r: Stores)
    requires me in c && forall n | n in names :: n in metas
    ensures r.Keys == c.Keys
  {
    if names == [] then c
    else
      var k := |names| - 1;
      assert names[k] in names;
      PullFile(PullFiles(c, net, me, t, metas, names[..k]), net, me, t, names[k], metas[names[k]])
  }

  function PullFrom(c: Stores, net: Net, me: NodeId, t: NodeId, r: Range): Stores
    requires me in c && Iterates(net)
  {
    var metas := Fetch(c, net.fetchForPull(t), t, r);
    ListingHas(net, t, metas.Keys);
    PullFiles(c, net, me, t, metas, net.listing(t, metas.Keys))
  }

  lemma ListingHas(net: Net, t: NodeId, s: set<string>)
    requires Iterates(net)
    ensures IsListing(net.listing(t, s), s)
  {
  }

  function PullSuccessors(c: Stores, net: Net, me: NodeId, succs: seq<NodeId>, r: Range): (d: Stores)
    requires me in c && Iterates(net)
    ensures d.Keys == c.Keys
  {
    if succs == [] then c
    else PullFrom(PullSuccessors(c, net, me, succs[..|succs| - 1], r), net, me, succs[|succs| - 1], r)
  }

  // ----- stabilization -----

  function SuccessorIds(ms: seq<Member>, me: NodeId, rf: nat): (ids: seq<NodeId>)
    ensures |ids| == |Successors(ms, me, rf)|
    ensures forall i | 0 <= i < |ids| :: ids[i] == Successors(ms, me, rf)[i].id
  {
    IdsOf(Successors(ms, me, rf))
  }

  function IdsOf(ms: seq<Member>): (ids: seq<NodeId>)
    ensures |ids| == |ms| && forall i | 0 <= i < |ids| :: ids[i] == ms[i].id
  {
    seq(|ms|, i requires 0 <= i < |ms| => ms[i].id)
  }

  /** `GetFilesWithinRange` as a list: the names in range, in iteration order. */
  function RangeList(files: map<string, FileMetadata>, r: Range, order: seq<string>): seq<string> {
    if order == [] then []
    else
      var f := order[|order| - 1];
      RangeList(files, r, order[..|order| - 1]) + if f in FilesInRange(files, r) then [f] else []
  }

  /** The files to push: the named one if it is in range, else all in range. */
  function Chosen(net: Net, me: NodeId, files: map<string, FileMetadata>, r: Range, filename: string): seq<string> {
    if filename != "" && filename in FilesInRange(files, r) then [filename]
    else RangeList(files, r, net.listing(me, files.Keys))
  }

  lemma {:induction false} RangeListNames(files: map<string, FileMetadata>, r: Range, order: seq<string>)
    requires NoDuplicates(order)
    ensures NoDuplicates(RangeList(files, r, order))
    ensures forall f :: f in RangeList(files, r, order) <==> f in order && f in FilesInRange(files, r)
  {
    if order != [] {
      var k := |order| - 1;
      RangeListNames(files, r, order[..k]);
      assert order == order[..k] + [order[k]];
    }
  }

  lemma ChosenLists(net: Net, me: NodeId, files: map<string, FileMetadata>, r: Range)
    requires Iterates(net)
    ensures IsListing(Chosen(net, me, files, r, ""), FilesInRange(files, r))
  {
    ListingHas(net, me, files.Keys);
    RangeListNames(files, r, net.listing(me, files.Keys));
  }

  function Stabilize(c: Stores, net: Net, ms: seq<Member>, me: NodeId, filename: string, rf: nat): (d: Stores)
    requires me in c && Iterates(net)
    ensures d.Keys == c.Keys
  {
    var r := PrimaryRange(ms, me);
    if r.None? then c
    else
      var mine := Chosen(net, me, c[me].files, r.value, filename);
      var succs := SuccessorIds(ms, me, rf);
      PullSuccessors(PushSuccessors(c, net, me, succs, r.value, mine), net, me, succs, r.value)
  }

  // ----- merge -----

  /** The files map `GetFileMetadata` reports for one name. */
  function FetchOne(c: Stores, t: NodeId, f: string): Option<FileMetadata> {
    if t in c && f in c[t].files then Some(c[t].files[f]) else None
  }

  /** Returns whether the order may be synchronized: not when the call failed or the file was missing. */
  function EnsureInSync(c: Stores, mn: MergeNet, ms: seq<Member>, me: NodeId, t: NodeId, f: string,
                        local: FileMetadata, rf: nat): (r: (Stores, bool))
    requires me in c && Iterates(mn.stabilize)
    ensures r.0.Keys == c.Keys
  {
    if !mn.check then (c, false)
    else
      var remote := FetchOne(c, t, f);
      if remote.None? then (Stabilize(c, mn.stabilize, ms, me, f, rf), false)
      else if !Match(local, remote.value) then (Stabilize(c, mn.stabilize, ms, me, f, rf), true)
      else (c, true)
  }

  function SyncOrder(c: Stores, mn: MergeNet, t: NodeId, f: string, local: FileMetadata): (r: Stores)
    ensures r.Keys == c.Keys
  {
    var remote := FetchOne(c, t, f);
    if !mn.recheck || remote.None? || Ids(local.appends) == Ids(remote.value.appends) || !mn.update then c
    else c[t := SetAppends(c[t], f, local.appends)]
  }

  /** What a merge does to one successor. */
  function Turn(c: Stores, mn: MergeNet, ms: seq<Member>, me: NodeId, t: NodeId, f: string, local: FileMetadata,
                rf: nat): (r: Stores)
    requires me in c && Iterates(mn.stabilize)
    ensures r.Keys == c.Keys
  {
    var (c2, proceed) := EnsureInSync(c, mn, ms, me, t, f, local, rf);
    if proceed then SyncOrder(c2, mn, t, f, local) else c2
  }

  function MergeWith(c: Stores, nets: NodeId -> MergeNet, ms: seq<Member>, me: NodeId, succs: seq<NodeId>, f: string,
                     local: FileMetadata, rf: nat): (r: Stores)
    requires me in c && forall t :: Iterates(nets(t).stabilize)
    ensures r.Keys == c.Keys
  {
    if succs == [] then c
    else
      var t := succs[|succs| - 1];
      var c1 := MergeWith(c, nets, ms, me, succs[..|succs| - 1], f, local, rf);
      Turn(c1, nets(t), ms, me, t, f, local, rf)
  }

  function ExecuteMerge(c: Stores, nets: NodeId -> MergeNet, ms: seq<Member>, me: NodeId, f: string,
                        rf: nat): (r: Stores)
    requires me in c && forall t :: Iterates(nets(t).stabilize)
    ensures r.Keys == c.Keys
  {
    if f !in c[me].files then c
    else MergeWith(c, nets, ms, me, SuccessorIds(ms, me, rf), f, c[me].files[f], rf)
  }

  ghost predicate AllIterate(nets: string -> NodeId -> MergeNet) {
    forall f, t :: Iterates(nets(f)(t).stabilize)
  }

  /** The periodic merge: one file after the other, each with its own calls. */
  function MergeEach(c: Stores, nets: string -> NodeId -> MergeNet, ms: seq<Member>, me: NodeId, names: seq<string>,
                     rf: nat): (r: Stores)
    requires me in c && AllIterate(nets)
    ensures r.Keys == c.Keys
  {
    if names == [] then c
    else
      var k := |names| - 1;
      ExecuteMerge(MergeEach(c, nets, ms, me, names[..k], rf), nets(names[k]), ms, me, names[k], rf)
  }

  function MergeAllFiles(c: Stores, net: Net, nets: string -> NodeId -> MergeNet, ms: seq<Member>, me: NodeId,
                         rf: nat): (r: Stores)
    requires me in c && AllIterate(nets)
    ensures r.Keys == c.Keys
  {
    var r := PrimaryRange(ms, me);
    if r.None? then c
    else MergeEach(c, nets, ms, me, RangeList(c[me].files, r.value, net.listing(me, c[me].files.Keys)), rf)
  }

  // ----- garbage collection -----

  /** Deletes one file: its metadata, its base and its append files. */
  function DeleteFile(st: Store, f: string): Store {
    if f !in st.files then st
    else Store(st.files - {f}, st.disk - ({f} + set a | a in st.files[f].appends :: a.appendId))
  }

  function Collect(st: Store, r: Range, names: seq<string>): Store {
    if names == [] then st
    else
      var k := |names| - 1;
      var st1 := Collect(st, r, names[..k]);
      if names[k] in st1.files && !IsHashInRange(st1.files[names[k]].nameHash, r)
      then DeleteFile(st1, names[k]) else st1
  }

  function CollectGarbage(st: Store, net: Net, ms: seq<Member>, me: NodeId, rf: nat): Store {
    var r := AllKeyRange(ms, me, rf);
    if r.Between? then Collect(st, r.range, net.listing(me, st.files.Keys)) else st
  }
}
