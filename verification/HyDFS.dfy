/** The stabilization, merge and collection procedures as the servers run them, on one object that
    holds every server's store (ring.go, hydfs_operations.go, rpc_server.go). */
module HyDFS {
  import opened Members
  import opened Ring
  import opened AppendLog
  import opened MetadataStore
  import opened Storage
  import opened SyncCheck
  import opened Cluster
  import opened Stabilization
  import opened MergeFaults
  import opened GarbageCollection

  class System {
    var nodes: Stores

    constructor (nodes: Stores)
      ensures this.nodes == nodes
    {
      this.nodes := nodes;
    }

    // ----- queries -----

    /** `GetFilesWithinRange`: scan the map in iteration order. */
    method GetFilesWithinRange(files: map<string, FileMetadata>, r: Range, order: seq<string>)
      returns (names: seq<string>)
      requires forall f | f in order :: f in files
      ensures names == RangeList(files, r, order)
    {
      names := [];
      for i := 0 to |order|
        invariant names == RangeList(files, r, order[..i])
      {
        assert order[..i + 1][..i] == order[..i];
        assert order[i] in order;
        var h := files[order[i]].nameHash;
        if r.start < r.end {
          if h > r.start && h <= r.end {
            names := names + [order[i]];
          }
        } else if h > r.start || h <= r.end {
          names := names + [order[i]];
        }
      }
      assert order[..|order|] == order;
    }

    /** `fetchMetadataFromNode` and the handler `GetFilesMetadata` behind it. */
    method FetchMetadataFromNode(up: bool, t: NodeId, r: Range) returns (metas: map<string, FileMetadata>)
      ensures metas == Fetch(nodes, up, t, r)
      ensures forall f :: f in metas <==>
                up && t in nodes && f in nodes[t].files && IsHashInRange(nodes[t].files[f].nameHash, r)
      ensures forall f | f in metas :: metas[f] == nodes[t].files[f]
    {
      metas := map[];
      if !up || t !in nodes {
        return;
      }
      var left := FilesInRange(nodes[t].files, r);
      while left != {}
        invariant left <= FilesInRange(nodes[t].files, r)
        invariant metas.Keys + left == FilesInRange(nodes[t].files, r) && metas.Keys !! left
        invariant forall f | f in metas :: metas[f] == nodes[t].files[f]
        decreases left
      {
        var f :| f in left;
        metas := metas[f := nodes[t].files[f]];
        left := left - {f};
      }
    }

    // ----- push -----

    method PushFilesToSuccessors(me: NodeId, myFiles: seq<string>, successors: seq<NodeId>, r: Range, net: Net)
      requires me in nodes
      modifies this
      ensures nodes == PushSuccessors(old(nodes), net, me, successors, r, myFiles)
    {
      for i := 0 to |successors|
        invariant me in nodes && nodes == PushSuccessors(old(nodes), net, me, successors[..i], r, myFiles)
      {
        assert successors[..i + 1][..i] == successors[..i];
        var t := successors[i];
        var known := FetchMetadataFromNode(net.fetchForPush(t), t, r);
        PushFilesTo(me, t, known, myFiles, net);
      }
      assert successors[..|successors|] == successors;
    }

    method PushFilesTo(me: NodeId, t: NodeId, known: map<string, FileMetadata>, myFiles: seq<string>, net: Net)
      requires me in nodes
      modifies this
      ensures nodes == PushFiles(old(nodes), net, me, t, known, myFiles)
    {
      for i := 0 to |myFiles|
        invariant me in nodes && nodes == PushFiles(old(nodes), net, me, t, known, myFiles[..i])
      {
        assert myFiles[..i + 1][..i] == myFiles[..i];
        PushOneFile(me, t, known, myFiles[i], net);
      }
      assert myFiles[..|myFiles|] == myFiles;
    }

    method PushOneFile(me: NodeId, t: NodeId, known: map<string, FileMetadata>, f: string, net: Net)
      requires me in nodes
      modifies this
      ensures nodes == PushFile(old(nodes), net, me, t, known, f)
    {
      if f !in nodes[me].files {
        return;
      }
      var local := nodes[me].files[f];
      if f !in known || local.contentHash != known[f].contentHash {
        var disk := nodes[me].disk;
        if f in disk && disk[f] != [] && t in nodes && net.sendFile(t, f) {
          nodes := nodes[t := PutFile(nodes[t], disk[f], local)];
        }
      }
      PushMissingAppends(me, t, if f in known then known[f].appends else [], local.appends, net);
    }

    method PushMissingAppends(me: NodeId, t: NodeId, remote: seq<AppendInfo>, apps: seq<AppendInfo>, net: Net)
      requires me in nodes
      modifies this
      ensures nodes == PushAppends(old(nodes), net, me, t, remote, apps)
    {
      for i := 0 to |apps|
        invariant me in nodes && nodes == PushAppends(old(nodes), net, me, t, remote, apps[..i])
      {
        assert apps[..i + 1][..i] == apps[..i];
        if !HasAppend(remote, apps[i].appendId) {
          var disk, id := nodes[me].disk, apps[i].appendId;
          if id in disk && disk[id] != [] && t in nodes && net.sendAppend(t, id) {
            nodes := nodes[t := PutAppend(nodes[t], disk[id], apps[i])];
          }
        }
      }
      assert apps[..|apps|] == apps;
    }

    // ----- pull -----

    method GetFilesFromSuccessors(me: NodeId, successors: seq<NodeId>, r: Range, net: Net)
      requires me in nodes && Iterates(net)
      modifies this
      ensures nodes == PullSuccessors(old(nodes), net, me, successors, r)
    {
      for i := 0 to |successors|
        invariant me in nodes && nodes == PullSuccessors(old(nodes), net, me, successors[..i], r)
      {
        assert successors[..i + 1][..i] == successors[..i];
        var t := successors[i];
        var metas := FetchMetadataFromNode(net.fetchForPull(t), t, r);
        ListingHas(net, t, metas.Keys);
        PullFilesFrom(me, t, metas, net.listing(t, metas.Keys), net);
      }
      assert successors[..|successors|] == successors;
    }

    method PullFilesFrom(me: NodeId, t: NodeId, metas: map<string, FileMetadata>, names: seq<string>, net: Net)
      requires me in nodes && forall n | n in names :: n in metas
      modifies this
      ensures nodes == PullFiles(old(nodes), net, me, t, metas, names)
    {
      for i := 0 to |names|
        invariant me in nodes && nodes == PullFiles(old(nodes), net, me, t, metas, names[..i])
      {
        assert names[..i + 1][..i] == names[..i];
        assert names[i] in names;
        PullOneFile(me, t, names[i], metas[names[i]], net);
      }
      assert names[..|names|] == names;
    }

    method PullOneFile(me: NodeId, t: NodeId, f: string, remote: FileMetadata, net: Net)
      requires me in nodes
      modifies this
      ensures nodes == PullFile(old(nodes), net, me, t, f, remote)
    {
      var local: seq<AppendInfo> := [];
      if f in nodes[me].files {
        local := nodes[me].files[f].appends;
      } else {
        var data := Receive(me, t, f, net);
        if data.None? {
          return;
        }
        var files := nodes[me].files[remote.fileName := remote.(appends := [])];
        nodes := nodes[me := nodes[me].(files := files)];
        assert nodes == old(nodes)[me := Store(files, old(nodes)[me].disk[f := data.value])];
      }
      PullMissingAppends(me, t, f, local, remote.appends, net);
    }

    method PullMissingAppends(me: NodeId, t: NodeId, f: string, local: seq<AppendInfo>, apps: seq<AppendInfo>, net: Net)
      requires me in nodes
      modifies this
      ensures nodes == PullAppends(old(nodes), net, me, t, f, local, apps)
    {
      for i := 0 to |apps|
        invariant me in nodes && nodes == PullAppends(old(nodes), net, me, t, f, local, apps[..i])
      {
        assert apps[..i + 1][..i] == apps[..i];
        if !HasAppend(local, apps[i].appendId) {
          PullOneAppend(me, t, f, apps[i], net);
        }
      }
      assert apps[..|apps|] == apps;
    }

    method PullOneAppend(me: NodeId, t: NodeId, f: string, a: AppendInfo, net: Net)
      requires me in nodes
      modifies this
      ensures nodes == PullAppend(old(nodes), net, me, t, f, a)
    {
      var data := Receive(me, t, a.appendId, net);
      if data.Some? {
        var files := AppendIn(nodes[me].files, f, a);
        nodes := nodes[me := nodes[me].(files := files)];
        assert nodes == old(nodes)[me := Store(files, old(nodes)[me].disk[a.appendId := data.value])];
      }
    }

    /** `ReceiveFileFromNode` into the server's own directory. */
    method Receive(me: NodeId, t: NodeId, name: string, net: Net) returns (data: Option<Bytes>)
      requires me in nodes
      modifies this
      ensures data == Download(old(nodes), net, t, name)
      ensures nodes == old(nodes)[me := old(nodes)[me].(disk :=
                if data.Some? then old(nodes)[me].disk[name := data.value]
                else AfterFailure(old(nodes)[me].disk, net.receive(t, name), name))]
      ensures data.Some? <==> net.receive(t, name) == Complete && t in old(nodes) && name in old(nodes)[t].files
      ensures data.None? && net.receive(t, name) != NoStream ==> name !in nodes[me].disk
      ensures forall n | n != name :: (n in nodes[me].disk <==> n in old(nodes)[me].disk) &&
                                      (n in nodes[me].disk ==> nodes[me].disk[n] == old(nodes)[me].disk[n])
    {
      data := None;
      if t in nodes && net.receive(t, name) == Complete {
        data := ReadFile(nodes[t], name);
      }
      if data.Some? {
        nodes := nodes[me := nodes[me].(disk := nodes[me].disk[name := data.value])];
      } else {
        nodes := nodes[me := nodes[me].(disk := AfterFailure(nodes[me].disk, net.receive(t, name), name))];
      }
    }

    // ----- stabilization -----

    method StabilizeRing(ms: seq<Member>, me: NodeId, filename: string, rf: nat, net: Net)
      requires me in nodes && Iterates(net)
      modifies this
      ensures nodes == Stabilize(old(nodes), net, ms, me, filename, rf)
      ensures forall w | Named(w, old(nodes)) :: Advances(w, old(nodes), nodes)
    {
      forall w | Named(w, nodes) ensures Advances(w, nodes, Stabilize(nodes, net, ms, me, filename, rf)) {
        StabilizeLosesNothing(w, nodes, net, ms, me, filename, rf);
      }
      Stabilized(ms, me, filename, rf, net);
    }

    /** The steps of `stabilizeRing`. */
    method Stabilized(ms: seq<Member>, me: NodeId, filename: string, rf: nat, net: Net)
      requires me in nodes && Iterates(net)
      modifies this
      ensures nodes == Stabilize(old(nodes), net, ms, me, filename, rf)
    {
      var range := GetPrimaryKeyRange(ms, me);
      if range.None? {
        return;
      }
      ListingHas(net, me, nodes[me].files.Keys);
      var allFiles := GetFilesWithinRange(nodes[me].files, range.value, net.listing(me, nodes[me].files.Keys));
      RangeListNames(nodes[me].files, range.value, net.listing(me, nodes[me].files.Keys));
      var myFiles: seq<string> := [];
      if filename != "" {
        for i := 0 to |allFiles|
          invariant myFiles == [] && filename !in allFiles[..i]
        {
          if allFiles[i] == filename {
            myFiles := [filename];
            break;
          }
        }
        assert myFiles == [] ==> allFiles[..|allFiles|] == allFiles;
        if |myFiles| == 0 {
          myFiles := allFiles;
        }
      } else {
        myFiles := allFiles;
      }
      assert myFiles == Chosen(net, me, nodes[me].files, range.value, filename);
      var succs := GetSuccessors(ms, me, rf);
      if |succs| == 0 {
        return;
      }
      PushFilesToSuccessors(me, myFiles, IdsOf(succs), range.value, net);
      GetFilesFromSuccessors(me, IdsOf(succs), range.value, net);
    }

    // ----- merge -----

    method EnsureRemoteFileInSync(ms: seq<Member>, me: NodeId, t: NodeId, f: string, local: FileMetadata, rf: nat,
                                  mn: MergeNet) returns (proceed: bool)
      requires me in nodes && Iterates(mn.stabilize)
      modifies this
      ensures (nodes, proceed) == EnsureInSync(old(nodes), mn, ms, me, t, f, local, rf)
    {
      if !mn.check {
        return false;
      }
      var remote := FetchOne(nodes, t, f);
      if remote.None? {
        StabilizeRing(ms, me, f, rf, mn.stabilize);
        return false;
      }
      var same := FilesAndAppendsMatch(local, remote.value);
      if !same {
        StabilizeRing(ms, me, f, rf, mn.stabilize);
      }
      return true;
    }

    method SyncRemoteAppendOrder(t: NodeId, f: string, local: FileMetadata, localIds: seq<string>, mn: MergeNet)
      requires localIds == Ids(local.appends)
      modifies this
      ensures nodes == SyncOrder(old(nodes), mn, t, f, local)
    {
      if !mn.recheck {
        return;
      }
      var remote := FetchOne(nodes, t, f);
      if remote.None? {
        return;
      }
      var same := OrdersMatch(localIds, remote.value.appends);
      if same {
        return;
      }
      if mn.update {
        nodes := nodes[t := SetAppends(nodes[t], f, local.appends)];
      }
    }

    method ExecuteMerge(ms: seq<Member>, me: NodeId, f: string, rf: nat, nets: NodeId -> MergeNet)
      requires me in nodes && forall t :: Iterates(nets(t).stabilize)
      modifies this
      ensures nodes == Cluster.ExecuteMerge(old(nodes), nets, ms, me, f, rf)
      ensures forall w | Named(w, old(nodes)) :: KeepsFiles(old(nodes), nodes) && Named(w, nodes)
    {
      forall w | Named(w, nodes)
        ensures var d := Cluster.ExecuteMerge(nodes, nets, ms, me, f, rf); KeepsFiles(nodes, d) && Named(w, d)
      {
        MergeKeepsFiles(w, nodes, nets, ms, me, f, rf);
      }
      MergeAll(ms, me, f, rf, nets);
    }

    /** The steps of `executeMerge`. */
    method MergeAll(ms: seq<Member>, me: NodeId, f: string, rf: nat, nets: NodeId -> MergeNet)
      requires me in nodes && forall t :: Iterates(nets(t).stabilize)
      modifies this
      ensures nodes == Cluster.ExecuteMerge(old(nodes), nets, ms, me, f, rf)
    {
      var succs := GetSuccessors(ms, me, rf);
      if |succs| == 0 {
        return;
      }
      if f !in nodes[me].files {
        return;
      }
      var local := nodes[me].files[f];
      var localIds := Ids(local.appends);
      var ids := IdsOf(succs);
      for i := 0 to |ids|
        invariant me in nodes && nodes == MergeWith(old(nodes), nets, ms, me, ids[..i], f, local, rf)
      {
        assert ids[..i + 1][..i] == ids[..i];
        MergeOne(ms, me, ids[i], f, local, localIds, rf, nets(ids[i]));
      }
      assert ids[..|ids|] == ids;
    }

    /** `executeMergeForAllFiles`. */
    method ExecuteMergeForAllFiles(ms: seq<Member>, me: NodeId, rf: nat, net: Net, nets: string -> NodeId -> MergeNet)
      requires me in nodes && Iterates(net) && AllIterate(nets)
      modifies this
      ensures nodes == MergeAllFiles(old(nodes), net, nets, ms, me, rf)
    {
      var range := GetPrimaryKeyRange(ms, me);
      if range.None? {
        return;
      }
      ListingHas(net, me, nodes[me].files.Keys);
      var names := GetFilesWithinRange(nodes[me].files, range.value, net.listing(me, nodes[me].files.Keys));
      MergeListed(ms, me, names, rf, nets);
    }

    method MergeListed(ms: seq<Member>, me: NodeId, names: seq<string>, rf: nat, nets: string -> NodeId -> MergeNet)
      requires me in nodes && AllIterate(nets)
      modifies this
      ensures nodes == MergeEach(old(nodes), nets, ms, me, names, rf)
    {
      for i := 0 to |names|
        invariant me in nodes && nodes == MergeEach(old(nodes), nets, ms, me, names[..i], rf)
      {
        assert names[..i + 1][..i] == names[..i];
        MergeAll(ms, me, names[i], rf, nets(names[i]));
      }
      assert names[..|names|] == names;
    }

    /** One successor's turn. */
    method MergeOne(ms: seq<Member>, me: NodeId, t: NodeId, f: string, local: FileMetadata, localIds: seq<string>,
                    rf: nat, mn: MergeNet)
      requires me in nodes && Iterates(mn.stabilize) && localIds == Ids(local.appends)
      modifies this
      ensures nodes == Turn(old(nodes), mn, ms, me, t, f, local, rf)
    {
      var proceed := EnsureRemoteFileInSync(ms, me, t, f, local, rf, mn);
      if proceed {
        SyncRemoteAppendOrder(t, f, local, localIds, mn);
      }
    }

    // ----- garbage collection -----

    /** The count tells whether anything was deleted; a negative index crashes the process instead. */
    method DeleteFilesOutsideMyRange(ms: seq<Member>, me: NodeId, rf: nat, net: Net)
      returns (deleted: nat, crashed: bool)
      requires me in nodes
      modifies this
      ensures nodes == old(nodes)[me := CollectGarbage(old(nodes)[me], net, ms, me, rf)]
      ensures deleted == 0 ==> nodes == old(nodes)
      ensures crashed <==> AllKeyRange(ms, me, rf).Crash?
      ensures forall w | GoodStore(w, old(nodes)[me]) :: DiskFollows(old(nodes)[me], nodes[me])
    {
      forall w | GoodStore(w, nodes[me]) ensures DiskFollows(nodes[me], CollectGarbage(nodes[me], net, ms, me, rf)) {
        CollectorDisk(w, nodes[me], net, ms, me, rf);
      }
      deleted, crashed := 0, false;
      assert nodes == nodes[me := nodes[me]];
      var bounds := GetAllKeyRange(ms, me, rf);
      match bounds {
        case Absent =>
        case Crash => crashed := true;
        case Between(range) => deleted := DeleteOutside(me, range, net.listing(me, nodes[me].files.Keys));
      }
    }

    method DeleteOutside(me: NodeId, range: Range, names: seq<string>) returns (deleted: nat)
      requires me in nodes
      modifies this
      ensures nodes == old(nodes)[me := Collect(old(nodes)[me], range, names)]
      ensures deleted == 0 ==> nodes == old(nodes)
    {
      deleted := 0;
      assert nodes == nodes[me := nodes[me]];
      for k := 0 to |names|
        invariant me in nodes && nodes == old(nodes)[me := Collect(old(nodes)[me], range, names[..k])]
        invariant deleted == 0 ==> nodes == old(nodes)
      {
        assert names[..k + 1][..k] == names[..k];
        var gone := DeleteIfOutside(me, range, names[k]);
        if gone {
          deleted := deleted + 1;
        }
      }
      assert names[..|names|] == names;
    }

    method DeleteIfOutside(me: NodeId, range: Range, name: string) returns (gone: bool)
      requires me in nodes
      modifies this
      ensures gone <==> name in old(nodes)[me].files && !IsHashInRange(old(nodes)[me].files[name].nameHash, range)
      ensures nodes == if gone then old(nodes)[me := DeleteFile(old(nodes)[me], name)] else old(nodes)
      ensures gone ==> nodes[me].files == old(nodes)[me].files - {name} &&
                       forall n :: n in nodes[me].disk <==>
                         n in old(nodes)[me].disk && !Belongs(old(nodes)[me], name, n)
    {
      if name in nodes[me].files {
        forall n
          ensures n in DeleteFile(nodes[me], name).disk <==> n in nodes[me].disk && !Belongs(nodes[me], name, n)
        {
          DeletedData(nodes[me], name, n);
        }
      }
      gone := false;
      if name in nodes[me].files && !IsHashInRange(nodes[me].files[name].nameHash, range) {
        nodes := nodes[me := DeleteFile(nodes[me], name)];
        gone := true;
      }
    }
  }
}
