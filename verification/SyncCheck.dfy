/** The comparisons `executeMerge` bases its decisions on. */
module SyncCheck {
  import opened AppendLog

  ghost predicate SameAppends(a: seq<AppendInfo>, b: seq<AppendInfo>) {
    multiset(Ids(a)) == multiset(Ids(b))
  }

  /** The source's test: equal hashes, equal lengths, remote IDs among the local ones. */
  predicate Match(local: FileMetadata, remote: FileMetadata) {
    local.contentHash == remote.contentHash && |local.appends| == |remote.appends| &&
    forall i | 0 <= i < |remote.appends| :: HasAppend(local.appends, remote.appends[i].appendId)
  }

  method FilesAndAppendsMatch(local: FileMetadata, remote: FileMetadata) returns (same: bool)
    ensures same == Match(local, remote)
  {
    if local.contentHash != remote.contentHash {
      return false;
    }
    if |local.appends| != |remote.appends| {
      return false;
    }
    var localIds: set<string> := {};
    for i := 0 to |local.appends|
      invariant forall id :: id in localIds <==> HasAppend(local.appends[..i], id)
    {
      forall id
        ensures HasAppend(local.appends[..i + 1], id) <==>
                HasAppend(local.appends[..i], id) || id == local.appends[i].appendId
      {
        assert local.appends[..i + 1] == local.appends[..i] + [local.appends[i]];
        HasAppendConcat(local.appends[..i], [local.appends[i]], id);
        assert [local.appends[i]][0] == local.appends[i];
      }
      localIds := localIds + {local.appends[i].appendId};
    }
    assert local.appends[..|local.appends|] == local.appends;
    for i := 0 to |remote.appends|
      invariant forall k | 0 <= k < i :: HasAppend(local.appends, remote.appends[k].appendId)
    {
      if remote.appends[i].appendId !in localIds {
        return false;
      }
    }
    return true;
  }

  method OrdersMatch(localIds: seq<string>, remote: seq<AppendInfo>) returns (same: bool)
    ensures same <==> localIds == Ids(remote)
  {
    if |localIds| != |remote| {
      return false;
    }
    for i := 0 to |localIds|
      invariant forall k | 0 <= k < i :: localIds[k] == Ids(remote)[k]
    {
      if localIds[i] != remote[i].appendId {
        return false;
      }
    }
    return true;
  }

  // ----- one-sided membership plus equal length is a permutation -----

  function Remove<T>(s: seq<T>, i: nat): seq<T>
    requires i < |s|
  {
    s[..i] + s[i + 1..]
  }

  ghost predicate NoDuplicates<T>(s: seq<T>) {
    forall i, j | 0 <= i < j < |s| :: s[i] != s[j]
  }

  /** Pigeonhole: distinct values drawn from a list of the same length use it up. */
  lemma {:induction false} Pigeonhole<T>(a: seq<T>, b: seq<T>)
    requires |a| == |b| && NoDuplicates(b)
    requires forall i | 0 <= i < |b| :: b[i] in a
    ensures multiset(a) == multiset(b)
  {
    if b != [] {
      var n := |b| - 1;
      var k :| 0 <= k < |a| && a[k] == b[n];
      var a' := Remove(a, k);
      forall i | 0 <= i < n ensures b[..n][i] in a' {
        var j :| 0 <= j < |a| && a[j] == b[i];
        assert j != k && a'[if j < k then j else j - 1] == b[i];
      }
      Pigeonhole(a', b[..n]);
      assert a == a[..k] + [a[k]] + a[k + 1..];
      assert b == b[..n] + [b[n]];
      assert multiset(a) == multiset(a') + multiset{a[k]};
    }
  }

  lemma IdsHold(s: seq<AppendInfo>, id: string)
    ensures HasAppend(s, id) <==> id in Ids(s)
  {
    if HasAppend(s, id) {
      var i :| 0 <= i < |s| && s[i].appendId == id;
      assert Ids(s)[i] == id;
    }
  }

  /** With unique remote IDs the one-sided test is exact. */
  lemma MatchExact(local: FileMetadata, remote: FileMetadata)
    requires UniqueAppends(remote.appends)
    ensures Match(local, remote) <==>
            local.contentHash == remote.contentHash && SameAppends(local.appends, remote.appends)
  {
    var a, b := Ids(local.appends), Ids(remote.appends);
    if Match(local, remote) {
      forall i | 0 <= i < |b| ensures b[i] in a {
        IdsHold(local.appends, b[i]);
      }
      Pigeonhole(a, b);
    }
    if SameAppends(local.appends, remote.appends) {
      assert |multiset(a)| == |a| && |multiset(b)| == |b|;
      assert |a| == |b|;
      forall i | 0 <= i < |b| ensures HasAppend(local.appends, remote.appends[i].appendId) {
        assert b[i] in multiset(b);
        assert b[i] in a;
        IdsHold(local.appends, b[i]);
      }
    }
  }

  /** Without unique IDs the test can accept lists that differ. */
  lemma MatchNeedsUnique(f: FileMetadata, x: AppendInfo, y: AppendInfo)
    requires x.appendId != y.appendId
    ensures Match(f.(appends := [x, y]), f.(appends := [x, x]))
    ensures !SameAppends([x, y], [x, x])
  {
    assert [x, y][0].appendId == x.appendId;
    assert multiset(Ids([x, y]))[y.appendId] == 1 by {
      assert Ids([x, y]) == [x.appendId, y.appendId];
    }
    assert Ids([x, x]) == [x.appendId, x.appendId];
  }

  lemma OrderImpliesAppends(a: seq<AppendInfo>, b: seq<AppendInfo>)
    ensures Ids(a) == Ids(b) ==> SameAppends(a, b)
  {
  }
}
