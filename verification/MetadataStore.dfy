/** The metadata map of one server and its per-file locks (metadata.go). */
module MetadataStore {
  import opened Members
  import opened AppendLog

  /** Effect of `AppendToFile` on the map; an absent file is an error and changes nothing. */
  function AppendIn(files: map<string, FileMetadata>, name: string, a: AppendInfo): map<string, FileMetadata> {
    if name in files then files[name := files[name].(appends := AppendTo(files[name].appends, a))] else files
  }

  class Metadata {
    var files: map<string, FileMetadata>
    var locks: set<string>

    /** Every file has its lock and is filed under its own name. */
    ghost predicate Valid()
      reads this
    {
      locks == files.Keys && forall f | f in files :: files[f].fileName == f
    }

    constructor ()
      ensures Valid() && files == map[]
    {
      files := map[];
      locks := {};
    }

    method AddFile(meta: FileMetadata)
      requires Valid()
      modifies this
      ensures Valid() && files == old(files)[meta.fileName := meta]
    {
      files := files[meta.fileName := meta];
      if meta.fileName !in locks {
        locks := locks + {meta.fileName};
      }
    }

    method GetFile(name: string) returns (r: Option<FileMetadata>)
      ensures r == if name in files then Some(files[name]) else None
    {
      if name !in files {
        return None;
      }
      return Some(files[name]);
    }

    method AppendToFile(name: string, a: AppendInfo) returns (ok: bool)
      requires Valid()
      modifies this
      ensures Valid() && files == AppendIn(old(files), name, a)
      ensures ok <==> name in old(files)
      ensures ok && Ordered(old(files)[name].appends) ==> Ordered(files[name].appends)
    {
      if name !in locks {
        return false;
      }
      var meta := files[name];
      if Ordered(meta.appends) {
        ghost var k := AppendToKeeps(meta.appends, a);
      }
      for i := 0 to |meta.appends|
        invariant forall j | 0 <= j < i :: meta.appends[j].appendId != a.appendId
      {
        if meta.appends[i].appendId == a.appendId {
          assert files == AppendIn(files, name, a);
          return true;
        }
      }
      var appends := InsertAppend(meta.appends, a);
      files := files[name := meta.(appends := appends)];
      return true;
    }

    method DeleteFile(name: string) returns (deleted: bool)
      requires Valid()
      modifies this
      ensures Valid() && files == old(files) - {name}
      ensures deleted <==> name in old(files)
    {
      if name !in files {
        return false;
      }
      files := files - {name};
      locks := locks - {name};
      return true;
    }

    /** Go iterates over a map in no fixed order: some listing of the names, each once. */
    method ListFiles() returns (names: seq<string>)
      ensures forall n :: n in names <==> n in files
      ensures forall i, j | 0 <= i < j < |names| :: names[i] != names[j]
    {
      names := [];
      var left := files.Keys;
      while left != {}
        invariant forall n :: n in names <==> n in files && n !in left
        invariant left <= files.Keys
        invariant forall i, j | 0 <= i < j < |names| :: names[i] != names[j]
        decreases left
      {
        var n :| n in left;
        names := names + [n];
        left := left - {n};
      }
    }
  }
}
