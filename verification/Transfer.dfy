/** Streaming transfers: the client's chunking loops and the server's receive loops, composed end to
    end (grpc_client.go, grpc_server.go). */
module Transfer {
  import opened Members
  import opened AppendLog
  import opened MetadataStore
  import opened Storage

  const CHUNK_SIZE: nat := 65536

  /** Unset fields of a chunk are the empty string. */
  datatype FileChunk = FileChunk(data: Bytes, fileName: string, contentHash: string, nameHash: Hash,
                                 creationTime: string)

  datatype AppendChunk = AppendChunk(data: Bytes, fileName: string, appendId: string, clientId: string,
                                     clientTimestamp: string, appendHash: string)

  function Payload(chunks: seq<FileChunk>): Bytes {
    if chunks == [] then [] else Payload(chunks[..|chunks| - 1]) + chunks[|chunks| - 1].data
  }

  function AppendPayload(chunks: seq<AppendChunk>): Bytes {
    if chunks == [] then [] else AppendPayload(chunks[..|chunks| - 1]) + chunks[|chunks| - 1].data
  }

  // ----- sending -----

  /** Pieces of at most 64 KB that add up to the data; only the first carries the metadata. */
  ghost predicate CarriesFile(chunks: seq<FileChunk>, data: Bytes, meta: FileMetadata) {
    Payload(chunks) == data && (chunks == [] <==> data == []) &&
    (forall i | 0 <= i < |chunks| :: 0 < |chunks[i].data| <= CHUNK_SIZE) &&
    (forall i | 0 <= i < |chunks| - 1 :: |chunks[i].data| == CHUNK_SIZE) &&
    (forall i | 0 <= i < |chunks| ::
       chunks[i] == if i == 0 then FileChunk(chunks[i].data, meta.fileName, meta.contentHash, meta.nameHash,
                                        meta.creationTime)
                    else FileChunk(chunks[i].data, "", "", 0, ""))
  }

  ghost predicate CarriesAppend(chunks: seq<AppendChunk>, data: Bytes, a: AppendInfo) {
    AppendPayload(chunks) == data && (chunks == [] <==> data == []) &&
    (forall i | 0 <= i < |chunks| :: 0 < |chunks[i].data| <= CHUNK_SIZE) &&
    (forall i | 0 <= i < |chunks| - 1 :: |chunks[i].data| == CHUNK_SIZE) &&
    (forall i | 0 <= i < |chunks| ::
       chunks[i] == if i == 0 then AppendChunk(chunks[i].data, a.fileName, a.appendId, a.clientId,
                                        a.clientTimestamp, a.appendHash)
                    else AppendChunk(chunks[i].data, "", "", "", "", ""))
  }

  method ChunkFile(data: Bytes, meta: FileMetadata) returns (chunks: seq<FileChunk>)
    ensures CarriesFile(chunks, data, meta)
  {
    chunks := [];
    var isFirstChunk := true;
    var i := 0;
    while i < |data|
      invariant isFirstChunk <==> i == 0
      invariant 0 <= i && CarriesFile(chunks, data[..if i <= |data| then i else |data|], meta)
      invariant i < |data| ==> forall k | 0 <= k < |chunks| :: |chunks[k].data| == CHUNK_SIZE
    {
      var end := if i + CHUNK_SIZE > |data| then |data| else i + CHUNK_SIZE;
      var chunk := FileChunk(data[i..end], "", "", 0, "");
      if isFirstChunk {
        chunk := FileChunk(data[i..end], meta.fileName, meta.contentHash, meta.nameHash, meta.creationTime);
        isFirstChunk := false;
      }
      assert data[..end] == data[..i] + data[i..end];
      assert (chunks + [chunk])[..|chunks|] == chunks;
      chunks := chunks + [chunk];
      i := i + CHUNK_SIZE;
    }
    assert data[..|data|] == data;
  }

  method ChunkAppend(data: Bytes, a: AppendInfo) returns (chunks: seq<AppendChunk>)
    ensures CarriesAppend(chunks, data, a)
  {
    chunks := [];
    var isFirstChunk := true;
    var i := 0;
    while i < |data|
      invariant isFirstChunk <==> i == 0
      invariant 0 <= i && CarriesAppend(chunks, data[..if i <= |data| then i else |data|], a)
      invariant i < |data| ==> forall k | 0 <= k < |chunks| :: |chunks[k].data| == CHUNK_SIZE
    {
      var end := if i + CHUNK_SIZE > |data| then |data| else i + CHUNK_SIZE;
      var chunk := AppendChunk(data[i..end], "", "", "", "", "");
      if isFirstChunk {
        chunk := AppendChunk(data[i..end], a.fileName, a.appendId, a.clientId, a.clientTimestamp, a.appendHash);
        isFirstChunk := false;
      }
      assert data[..end] == data[..i] + data[i..end];
      assert (chunks + [chunk])[..|chunks|] == chunks;
      chunks := chunks + [chunk];
      i := i + CHUNK_SIZE;
    }
    assert data[..|data|] == data;
  }

  // ----- receiving -----

  /** The name is the first non-empty one; the metadata comes from the first chunk with a content hash. */
  function NameOf(chunks: seq<FileChunk>): string {
    if chunks == [] then ""
    else var name := NameOf(chunks[..|chunks| - 1]);
         if name == "" then chunks[|chunks| - 1].fileName else name
  }

  function HeaderOf(chunks: seq<FileChunk>): Option<FileMetadata> {
    if chunks == [] then None
    else
      var last, before := chunks[|chunks| - 1], HeaderOf(chunks[..|chunks| - 1]);
      if before.None? && last.contentHash != ""
      then Some(FileMetadata(NameOf(chunks), last.contentHash, last.nameHash, last.creationTime, []))
      else before
  }

  /** The record comes from the first chunk; without one all its fields are unset. */
  function RecordOf(chunks: seq<AppendChunk>): AppendInfo {
    if chunks == [] then AppendInfo("", "", "", "", "", 0)
    else var c := chunks[0];
         AppendInfo(c.fileName, c.appendId, c.clientId, c.clientTimestamp, c.appendHash, 0)
  }

  /** `Panicked`: the handler dereferences metadata that no chunk carried. */
  datatype UploadStatus = Stored | Refused | Panicked | Failed

  /** What can go wrong below the handlers: the stream breaks off, or the disk refuses the write. */
  datatype Fate = Fate(intact: bool, diskOk: bool)

  class StorageServer {
    const metadata: Metadata
    var disk: map<string, Bytes>

    ghost predicate Valid()
      reads this, metadata
    {
      metadata.Valid()
    }

    ghost function State(): Store
      reads this, metadata
    {
      Store(metadata.files, disk)
    }

    constructor ()
      ensures Valid() && State() == Store(map[], map[]) && fresh(metadata)
    {
      metadata := new Metadata();
      disk := map[];
    }

    /** `chunks` are those that arrive, and `fate` tells whether the stream then ends or breaks off. */
    method FileTransfer(chunks: seq<FileChunk>, fate: Fate) returns (status: UploadStatus)
      requires Valid()
      modifies this`disk, metadata
      ensures Valid()
      ensures status == if !fate.intact then Failed
                        else if NameOf(chunks) in old(metadata.files) then Refused
                        else if HeaderOf(chunks).None? then Panicked
                        else if fate.diskOk then Stored else Failed
      ensures status != Stored ==> State() == old(State())
      ensures status == Stored ==>
                var meta := HeaderOf(chunks).value;
                State() == Store(old(metadata.files)[meta.fileName := meta],
                        old(disk)[meta.fileName := Payload(chunks)])
    {
      var fileName: string := "";
      var fileData: Bytes := [];
      var header: Option<FileMetadata> := None;
      for i := 0 to |chunks|
        invariant fileName == NameOf(chunks[..i]) && header == HeaderOf(chunks[..i]) && fileData == Payload(chunks[..i])
      {
        assert chunks[..i + 1][..i] == chunks[..i];
        if fileName == "" {
          fileName := chunks[i].fileName;
        }
        if header.None? && chunks[i].contentHash != "" {
          header := Some(FileMetadata(fileName, chunks[i].contentHash, chunks[i].nameHash, chunks[i].creationTime, []));
        }
        fileData := fileData + chunks[i].data;
      }
      assert chunks[..|chunks|] == chunks;
      if !fate.intact {
        return Failed;
      }
      var known := metadata.GetFile(fileName);
      if known.Some? {
        return Refused;
      }
      if header.None? {
        return Panicked;
      }
      if !fate.diskOk {
        return Failed;
      }
      disk := disk[header.value.fileName := fileData];
      metadata.AddFile(header.value);
      return Stored;
    }

    method AppendTransfer(chunks: seq<AppendChunk>, fate: Fate) returns (status: UploadStatus)
      requires Valid()
      modifies this`disk, metadata
      ensures Valid()
      ensures var a := RecordOf(chunks);
              status == (if !fate.intact then Failed
                         else if a.fileName !in old(metadata.files) then Refused
                         else if fate.diskOk then Stored else Failed) &&
              State() == if status == Stored then PutAppend(old(State()), AppendPayload(chunks), a) else old(State())
    {
      var first := AppendChunk([], "", "", "", "", "");
      var received := false;
      var data: Bytes := [];
      for i := 0 to |chunks|
        invariant data == AppendPayload(chunks[..i]) && (received <==> i > 0)
        invariant first == if i > 0 then chunks[0] else AppendChunk([], "", "", "", "", "")
      {
        assert chunks[..i + 1][..i] == chunks[..i];
        if !received {
          first := chunks[i];
          received := true;
        }
        data := data + chunks[i].data;
      }
      assert chunks[..|chunks|] == chunks;
      if !fate.intact {
        return Failed;
      }
      var known := metadata.GetFile(first.fileName);
      if known.None? {
        return Refused;
      }
      if !fate.diskOk {
        return Failed;
      }
      var info := AppendInfo(first.fileName, first.appendId, first.clientId, first.clientTimestamp,
                             first.appendHash, |data|);
      disk := disk[first.appendId := data];
      var _ := metadata.AppendToFile(first.fileName, info);
      return Stored;
    }

    /** Streams the base and the appends in metadata order; None when the file is not listed. */
    method GetFile(name: string) returns (stream: Option<seq<FileChunk>>)
      requires Valid()
      ensures stream.None? <==> ReadFile(State(), name) == None
      ensures stream.Some? ==> Some(Payload(stream.value)) == ReadFile(State(), name)
    {
      var meta := metadata.GetFile(name);
      if meta.None? {
        return None;
      }
      var paths := PathsOf(meta.value);
      var out: seq<FileChunk> := [];
      for i := 0 to |paths|
        invariant Payload(out) == ReadPaths(disk, paths, i)
      {
        if paths[i] !in disk {
          continue;
        }
        out := StreamContent(out, disk[paths[i]], name);
        if i < |paths| - 1 {
          out := Extend(out, FileChunk([NEWLINE], name, "", 0, ""));
        }
      }
      return Some(out);
    }

    /** The metadata update of the merge: replaces the append list of a known file. */
    method UpdateAppendOrder(name: string, appends: seq<AppendInfo>) returns (success: bool)
      requires Valid()
      modifies metadata
      ensures Valid()
      ensures success <==> name in old(metadata.files)
      ensures State() == SetAppends(old(State()), name, appends)
      ensures disk == old(disk)
      ensures metadata.files == if name in old(metadata.files)
                                then old(metadata.files)[name := old(metadata.files)[name].(appends := appends)]
                                else old(metadata.files)
    {
      var meta := metadata.GetFile(name);
      if meta.None? {
        return false;
      }
      metadata.AddFile(meta.value.(appends := appends));
      return true;
    }
  }

  /** The read loop over one open file: each read fills at most the 64 KB buffer. */
  method StreamContent(out: seq<FileChunk>, content: Bytes, name: string) returns (r: seq<FileChunk>)
    ensures Payload(r) == Payload(out) + content
  {
    r := out;
    var at := 0;
    while at < |content|
      invariant 0 <= at <= |content|
      invariant Payload(r) == Payload(out) + content[..at]
    {
      var n := if at + CHUNK_SIZE > |content| then |content| - at else CHUNK_SIZE;
      assert content[..at + n] == content[..at] + content[at..at + n];
      r := Extend(r, FileChunk(content[at..at + n], name, "", 0, ""));
      at := at + n;
    }
    assert content[..|content|] == content;
  }

  method Extend(out: seq<FileChunk>, c: FileChunk) returns (r: seq<FileChunk>)
    ensures r == out + [c] && Payload(r) == Payload(out) + c.data
  {
    r := out + [c];
    assert r[..|out|] == out;
  }

  // ----- end to end -----

  /** What the receiver makes of the chunks: without a content hash there is no metadata. */
  lemma {:induction false} HeaderFromFirst(chunks: seq<FileChunk>, data: Bytes, meta: FileMetadata, k: nat)
    requires CarriesFile(chunks, data, meta) && 0 < k <= |chunks|
    ensures NameOf(chunks[..k]) == meta.fileName
    ensures HeaderOf(chunks[..k]) == if meta.contentHash == "" then None else Some(meta.(appends := []))
  {
    assert chunks[..k][..k - 1] == chunks[..k - 1];
    if k > 1 {
      HeaderFromFirst(chunks, data, meta, k - 1);
    }
  }

  /** Sending creates the file at the target with exactly this data, unless it exists, the transfer fails,
      or there is nothing to describe it: empty data sends no chunk, and without a content hash the
      receiver finds no metadata. */
  method SendFileToNode(target: StorageServer, data: Bytes, meta: FileMetadata, fate: Fate) returns (ok: bool)
    requires target.Valid()
    modifies target`disk, target.metadata
    ensures target.Valid()
    ensures ok <==> fate == Fate(true, true) && data != [] && meta.contentHash != "" &&
                    meta.fileName !in old(target.metadata.files)
    ensures target.State() == if ok then PutFile(old(target.State()), data, meta) else old(target.State())
  {
    var chunks := ChunkFile(data, meta);
    if data != [] {
      HeaderFromFirst(chunks, data, meta, |chunks|);
      assert chunks[..|chunks|] == chunks;
    }
    var status := target.FileTransfer(chunks, fate);
    return status == Stored;
  }

  /** Sending adds the append at the target, unless it lacks the file or the transfer fails. Empty data
      sends no chunk, and the receiver takes all fields to be empty. */
  method SendAppendToNode(target: StorageServer, data: Bytes, a: AppendInfo, fate: Fate) returns (ok: bool)
    requires target.Valid()
    modifies target`disk, target.metadata
    ensures target.Valid()
    ensures var sent := if data == [] then AppendInfo("", "", "", "", "", 0) else a;
            (ok <==> fate == Fate(true, true) && sent.fileName in old(target.metadata.files)) &&
            target.State() == if ok then PutAppend(old(target.State()), data, sent) else old(target.State())
  {
    var chunks := ChunkAppend(data, a);
    var status := target.AppendTransfer(chunks, fate);
    return status == Stored;
  }

  /** The receive loop into a local directory: the content under the local name, or an error that leaves
      no local file once one was created. */
  method ReceiveFileFromNode(source: StorageServer, name: string, o: Outcome, disk: map<string, Bytes>, local: string)
    returns (ok: bool, disk': map<string, Bytes>)
    requires source.Valid()
    ensures ok <==> o == Complete && name in source.metadata.files
    ensures disk' == if ok then disk[local := ReadFile(source.State(), name).value] else AfterFailure(disk, o, local)
    ensures !ok && o != NoStream ==> local !in disk'
    ensures !ok && o == NoStream ==> disk' == disk
    ensures forall n | n != local :: (n in disk' <==> n in disk) && (n in disk ==> disk'[n] == disk[n])
  {
    if o == NoStream {
      return false, disk;
    }
    disk' := disk[local := []];
    var stream := source.GetFile(name);
    if stream.None? {
      return false, disk' - {local};
    }
    for i := 0 to |stream.value|
      invariant disk' == disk[local := Payload(stream.value[..i])]
    {
      assert stream.value[..i + 1][..i] == stream.value[..i];
      disk' := disk'[local := disk'[local] + stream.value[i].data];
    }
    assert stream.value[..|stream.value|] == stream.value;
    if o == Broken {
      return false, disk' - {local};
    }
    ok := true;
  }
}
