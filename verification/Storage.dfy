/** One server's files: metadata, disk, and what a transfer does to them. */
module Storage {
  import opened Members
  import opened AppendLog
  import opened MetadataStore

  newtype byte = b: int | 0 <= b < 256

  type Bytes = seq<byte>

  const NEWLINE: byte := 10

  datatype Store = Store(files: map<string, FileMetadata>, disk: map<string, Bytes>)

  // ----- effects of the handlers -----

  /** A file that already exists is refused; a new one starts without appends. */
  function PutFile(st: Store, data: Bytes, meta: FileMetadata): Store {
    if meta.fileName in st.files then st
    else Store(st.files[meta.fileName := meta.(appends := [])], st.disk[meta.fileName := data])
  }

  /** The data is written even when the AppendID is already listed; the size is what arrived. */
  function PutAppend(st: Store, data: Bytes, a: AppendInfo): Store {
    if a.fileName !in st.files then st
    else Store(AppendIn(st.files, a.fileName, a.(size := |data|)), st.disk[a.appendId := data])
  }

  /** Replaces the append list of a known file. */
  function SetAppends(st: Store, name: string, appends: seq<AppendInfo>): Store {
    if name !in st.files then st else st.(files := st.files[name := st.files[name].(appends := appends)])
  }

  function PathsOf(meta: FileMetadata): seq<string> {
    [meta.fileName] + Ids(meta.appends)
  }

  /** The first `k` of the paths: a missing one is skipped together with its separator. */
  function ReadPaths(disk: map<string, Bytes>, paths: seq<string>, k: nat): Bytes
    requires k <= |paths|
  {
    if k == 0 then []
    else ReadPaths(disk, paths, k - 1) +
         (if paths[k - 1] !in disk then []
          else disk[paths[k - 1]] + if k < |paths| then [NEWLINE] else [])
  }

  /** What a reader of `name` gets; None when the metadata does not list it. */
  function ReadFile(st: Store, name: string): Option<Bytes> {
    if name !in st.files then None
    else var paths := PathsOf(st.files[name]);
         Some(ReadPaths(st.disk, paths, |paths|))
  }

  /** How a download ends: `NoStream` before the local file is created, `Broken` after. */
  datatype Outcome = Complete | NoStream | Broken

  /** What a failed download leaves on the local disk: once created, the local file is removed again. */
  function AfterFailure(disk: map<string, Bytes>, o: Outcome, name: string): map<string, Bytes> {
    if o == NoStream then disk else disk - {name}
  }

  // ----- reading back what was written -----

  function Joined(parts: seq<Bytes>): Bytes {
    if |parts| == 0 then []
    else if |parts| == 1 then parts[0]
    else Joined(parts[..|parts| - 1]) + [NEWLINE] + parts[|parts| - 1]
  }

  ghost predicate OnDisk(disk: map<string, Bytes>, paths: seq<string>) {
    forall i | 0 <= i < |paths| :: paths[i] in disk
  }

  function Parts(disk: map<string, Bytes>, paths: seq<string>): (r: seq<Bytes>)
    requires OnDisk(disk, paths)
    ensures |r| == |paths|
  {
    seq(|paths|, i requires 0 <= i < |paths| => disk[paths[i]])
  }

  lemma {:induction false} ReadPathsJoined(disk: map<string, Bytes>, paths: seq<string>, k: nat)
    requires OnDisk(disk, paths) && 0 < k <= |paths|
    ensures ReadPaths(disk, paths, k) ==
            Joined(Parts(disk, paths)[..k]) + if k < |paths| then [NEWLINE] else []
  {
    var parts := Parts(disk, paths);
    assert parts[..k][..k - 1] == parts[..k - 1];
    if k > 1 {
      ReadPathsJoined(disk, paths, k - 1);
    }
  }

  /** The paths that are on the disk. */
  function Present(disk: map<string, Bytes>, paths: seq<string>): (r: seq<string>)
    ensures OnDisk(disk, r)
  {
    if paths == [] then []
    else
      var k := |paths| - 1;
      Present(disk, paths[..k]) + if paths[k] in disk then [paths[k]] else []
  }

  /** Each part followed by a newline. */
  function Lines(parts: seq<Bytes>): Bytes {
    if parts == [] then [] else Lines(parts[..|parts| - 1]) + parts[|parts| - 1] + [NEWLINE]
  }

  lemma {:induction false} LinesJoined(parts: seq<Bytes>)
    requires parts != []
    ensures Lines(parts) == Joined(parts) + [NEWLINE]
  {
    if |parts| > 1 {
      LinesJoined(parts[..|parts| - 1]);
    } else {
      assert Lines(parts[..0]) == [];
    }
  }

  lemma {:induction false} ReadPathsLines(disk: map<string, Bytes>, paths: seq<string>, k: nat)
    requires k < |paths|
    ensures ReadPaths(disk, paths, k) == Lines(Parts(disk, Present(disk, paths[..k])))
  {
    if k > 0 {
      ReadPathsLines(disk, paths, k - 1);
      assert paths[..k][..k - 1] == paths[..k - 1];
      var before, now := Present(disk, paths[..k - 1]), Present(disk, paths[..k]);
      assert paths[..k][k - 1] == paths[k - 1];
      if paths[k - 1] in disk {
        assert now == before + [paths[k - 1]];
        assert Parts(disk, now)[..|now| - 1] == Parts(disk, before);
        assert Lines(Parts(disk, now)) == Lines(Parts(disk, before)) + disk[paths[k - 1]] + [NEWLINE];
        assert ReadPaths(disk, paths, k) == ReadPaths(disk, paths, k - 1) + (disk[paths[k - 1]] + [NEWLINE]);
      } else {
        assert now == before;
        assert ReadPaths(disk, paths, k) == ReadPaths(disk, paths, k - 1) + [];
      }
    }
  }

  /** Parts that are missing are skipped together with their separators: the reader gets the others joined by
      newlines, with one more at the end if the last part is missing and another is not. */
  lemma MissingSkipped(disk: map<string, Bytes>, paths: seq<string>)
    requires paths != []
    ensures var present := Parts(disk, Present(disk, paths));
            ReadPaths(disk, paths, |paths|) ==
              if paths[|paths| - 1] in disk || present == [] then Joined(present) else Joined(present) + [NEWLINE]
  {
    var k := |paths| - 1;
    var before, present := Parts(disk, Present(disk, paths[..k])), Parts(disk, Present(disk, paths));
    ReadPathsLines(disk, paths, k);
    if paths[k] in disk {
      assert present == before + [disk[paths[k]]];
      if before != [] {
        LinesJoined(before);
        assert present[..|present| - 1] == before;
      }
    } else {
      assert present == before;
      if before != [] {
        LinesJoined(before);
      }
    }
  }

  /** An append as it is sent: its record and its data. */
  datatype Sent = Sent(info: AppendInfo, data: Bytes)

  function PutAppends(st: Store, sends: seq<Sent>): Store {
    if sends == [] then st
    else PutAppend(PutAppends(st, sends[..|sends| - 1]), sends[|sends| - 1].data, sends[|sends| - 1].info)
  }

  /** The records as the receiver stores them. */
  function Recorded(sends: seq<Sent>): (r: seq<AppendInfo>)
    ensures |r| == |sends|
  {
    seq(|sends|, i requires 0 <= i < |sends| => sends[i].info.(size := |sends[i].data|))
  }

  /** The data last sent under `id`. */
  function LastData(sends: seq<Sent>, id: string): Option<Bytes> {
    if sends == [] then None
    else if sends[|sends| - 1].info.appendId == id then Some(sends[|sends| - 1].data)
    else LastData(sends[..|sends| - 1], id)
  }

  /** `sends` are appends to `name`, none of which takes the file's own name as its ID. */
  ghost predicate AppendsTo(sends: seq<Sent>, name: string) {
    forall i | 0 <= i < |sends| :: sends[i].info.fileName == name && sends[i].info.appendId != name
  }

  lemma {:induction false} AfterAppends(st: Store, sends: seq<Sent>, name: string)
    requires name in st.files && st.files[name].appends == [] && AppendsTo(sends, name)
    ensures var r := PutAppends(st, sends);
            r.files == st.files[name := st.files[name].(appends := AppendAll([], Recorded(sends)))] &&
            (name in st.disk ==> name in r.disk && r.disk[name] == st.disk[name]) &&
            forall id | LastData(sends, id).Some? :: id in r.disk && r.disk[id] == LastData(sends, id).value
  {
    if sends != [] {
      var k := |sends| - 1;
      AfterAppends(st, sends[..k], name);
      assert Recorded(sends)[..k] == Recorded(sends[..k]);
    }
  }

  lemma {:induction false} LastDataHas(sends: seq<Sent>, id: string)
    ensures LastData(sends, id).Some? <==> HasAppend(Recorded(sends), id)
  {
    if sends != [] {
      var k := |sends| - 1;
      LastDataHas(sends[..k], id);
      var all := Recorded(sends);
      assert all == Recorded(sends[..k]) + [all[k]];
      HasAppendConcat(Recorded(sends[..k]), [all[k]], id);
      assert [all[k]][0] == all[k];
    }
  }

  /** The parts a reader should see: the base, then each listed append's last data. */
  ghost function Expected(data: Bytes, sends: seq<Sent>): seq<Bytes> {
    var listed := AppendAll([], Recorded(sends));
    [data] + seq(|listed|, i requires 0 <= i < |listed| => LastData(sends, listed[i].appendId).GetOr([]))
  }

  /** Create, append in any way, read back: the base and each append in metadata order, joined by
      newlines. */
  lemma StoreRoundTrip(st: Store, data: Bytes, meta: FileMetadata, sends: seq<Sent>)
    requires meta.fileName !in st.files && AppendsTo(sends, meta.fileName)
    ensures ReadFile(PutAppends(PutFile(st, data, meta), sends), meta.fileName) == Some(Joined(Expected(data, sends)))
  {
    var name, created := meta.fileName, PutFile(st, data, meta);
    var r := PutAppends(created, sends);
    AfterAppends(created, sends, name);
    PartsAre(r, name, data, sends);
    ReadIsJoined(r, name, Expected(data, sends));
  }

  lemma PartsAre(r: Store, name: string, data: Bytes, sends: seq<Sent>)
    requires forall id | LastData(sends, id).Some? :: id in r.disk && r.disk[id] == LastData(sends, id).value
    ensures var listed := AppendAll([], Recorded(sends));
            |Expected(data, sends)| == |listed| + 1 && Expected(data, sends)[0] == data &&
            forall i | 0 <= i < |listed| ::
              var id := listed[i].appendId; id in r.disk && r.disk[id] == Expected(data, sends)[i + 1]
  {
    var listed := AppendAll([], Recorded(sends));
    forall i | 0 <= i < |listed|
      ensures var id := listed[i].appendId; id in r.disk && r.disk[id] == Expected(data, sends)[i + 1]
    {
      ListedWasSent(sends, i);
      assert Expected(data, sends)[i + 1] == LastData(sends, listed[i].appendId).GetOr([]);
    }
  }

  lemma ListedWasSent(sends: seq<Sent>, i: nat)
    requires i < |AppendAll([], Recorded(sends))|
    ensures LastData(sends, AppendAll([], Recorded(sends))[i].appendId).Some?
  {
    var id := AppendAll([], Recorded(sends))[i].appendId;
    AppendAllIds([], Recorded(sends), id);
    LastDataHas(sends, id);
  }

  lemma ReadIsJoined(st: Store, name: string, parts: seq<Bytes>)
    requires name in st.files && st.files[name].fileName == name && |parts| == |st.files[name].appends| + 1
    requires name in st.disk && st.disk[name] == parts[0]
    requires forall i | 0 <= i < |st.files[name].appends| ::
               var id := st.files[name].appends[i].appendId; id in st.disk && st.disk[id] == parts[i + 1]
    ensures ReadFile(st, name) == Some(Joined(parts))
  {
    var meta := st.files[name];
    var paths := PathsOf(meta);
    assert paths[1..] == Ids(meta.appends);
    forall i | 0 <= i < |paths| ensures paths[i] in st.disk && st.disk[paths[i]] == parts[i] {
      if i > 0 {
        assert paths[i] == Ids(meta.appends)[i - 1];
      }
    }
    PathsJoined(st.disk, paths, parts);
  }

  lemma PathsJoined(disk: map<string, Bytes>, paths: seq<string>, parts: seq<Bytes>)
    requires |parts| == |paths| > 0 && forall i | 0 <= i < |paths| :: paths[i] in disk && disk[paths[i]] == parts[i]
    ensures ReadPaths(disk, paths, |paths|) == Joined(parts)
  {
    assert Parts(disk, paths) == parts;
    ReadPathsJoined(disk, paths, |paths|);
    assert parts[..|paths|] == parts;
  }

  /** What the reader loses: a second transfer under a listed AppendID replaces the data of the first. */
  lemma ResendReplacesData(st: Store, name: string, a: AppendInfo, first: Bytes, second: Bytes)
    requires name in st.files && a.fileName == name && !HasAppend(st.files[name].appends, a.appendId)
    ensures var r := PutAppend(PutAppend(st, first, a), second, a);
            r.disk[a.appendId] == second && r.files == PutAppend(st, first, a).files
  {
    AppendToIds(st.files[name].appends, a.(size := |first|), a.appendId);
  }
}
