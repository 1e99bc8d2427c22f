/** File metadata and the per-client partial order of appends (metadata.go). */
module AppendLog {
  import opened Members

  datatype AppendInfo = AppendInfo(fileName: string, appendId: string, clientId: string,
                                   clientTimestamp: string, appendHash: string, size: nat)

  datatype FileMetadata = FileMetadata(fileName: string, contentHash: string, nameHash: Hash,
                                       creationTime: string, appends: seq<AppendInfo>)

  // ----- Go's string order -----

  predicate StrLess(a: string, b: string) {
    b != [] && (a == [] || a[0] < b[0] || (a[0] == b[0] && StrLess(a[1..], b[1..])))
  }

  lemma {:induction false} StrLessTransitive(a: string, b: string, c: string)
    requires StrLess(a, b) && StrLess(b, c)
    ensures StrLess(a, c)
  {
    if a != [] && a[0] == b[0] && b[0] == c[0] {
      StrLessTransitive(a[1..], b[1..], c[1..]);
    }
  }

  lemma {:induction false} StrLessIrreflexive(a: string)
    ensures !StrLess(a, a)
  {
    if a != [] {
      StrLessIrreflexive(a[1..]);
    }
  }

  /** The first difference decides: the smaller character, or the end of the shorter string. */
  lemma {:induction false} StrLessIs(a: string, b: string)
    ensures StrLess(a, b) <==>
            exists i: nat :: i <= |a| && i < |b| && a[..i] == b[..i] && (i == |a| || a[i] < b[i])
  {
    if StrLess(a, b) {
      var i := FirstDifference(a, b);
    }
    if i: nat :| i <= |a| && i < |b| && a[..i] == b[..i] && (i == |a| || a[i] < b[i]) {
      DifferenceDecides(a, b, i);
    }
  }

  lemma {:induction false} FirstDifference(a: string, b: string) returns (i: nat)
    requires StrLess(a, b)
    ensures i <= |a| && i < |b| && a[..i] == b[..i] && (i == |a| || a[i] < b[i])
  {
    if a == [] || a[0] < b[0] {
      i := 0;
    } else {
      var k := FirstDifference(a[1..], b[1..]);
      i := k + 1;
      assert a[..i] == [a[0]] + a[1..][..k] && b[..i] == [b[0]] + b[1..][..k];
    }
  }

  lemma {:induction false} DifferenceDecides(a: string, b: string, i: nat)
    requires i <= |a| && i < |b| && a[..i] == b[..i] && (i == |a| || a[i] < b[i])
    ensures StrLess(a, b)
  {
    if i > 0 {
      assert a[0] == a[..i][0] == b[..i][0] == b[0];
      assert a[1..][..i - 1] == a[..i][1..] == b[..i][1..] == b[1..][..i - 1];
      DifferenceDecides(a[1..], b[1..], i - 1);
    }
  }

  predicate Digits(s: string) {
    forall i | 0 <= i < |s| :: '0' <= s[i] <= '9'
  }

  function Value(s: string): nat
    requires Digits(s)
  {
    if s == [] then 0 else 10 * Value(s[..|s| - 1]) + (s[|s| - 1] as int - '0' as int)
  }

  /** Timestamps are decimal numbers; of one length, as those of our time are, they compare as numbers. */
  lemma {:induction false} TimestampsCompare(a: string, b: string)
    requires Digits(a) && Digits(b) && |a| == |b|
    ensures StrLess(a, b) <==> Value(a) < Value(b)
  {
    if a != [] {
      var k := |a| - 1;
      TimestampsCompare(a[..k], b[..k]);
      TimestampsCompareEqual(a[..k], b[..k]);
      LastDigit(a, b);
    }
  }

  lemma {:induction false} TimestampsCompareEqual(a: string, b: string)
    requires Digits(a) && Digits(b) && |a| == |b|
    ensures Value(a) == Value(b) <==> a == b
  {
    if a != [] {
      var k := |a| - 1;
      TimestampsCompareEqual(a[..k], b[..k]);
      assert a == a[..k] + [a[k]] && b == b[..k] + [b[k]];
    }
  }

  /** Strings of one length compare by all but the last character, and then by that. */
  lemma {:induction false} LastDigit(a: string, b: string)
    requires |a| == |b| > 0
    ensures var k := |a| - 1;
            StrLess(a, b) <==> StrLess(a[..k], b[..k]) || (a[..k] == b[..k] && a[k] < b[k])
  {
    var k := |a| - 1;
    if k > 0 {
      LastDigit(a[1..], b[1..]);
      assert a[1..][..k - 1] == a[..k][1..] && b[1..][..k - 1] == b[..k][1..];
      assert a[..k] == b[..k] <==> a[0] == b[0] && a[..k][1..] == b[..k][1..] by {
        assert a[..k] == [a[0]] + a[..k][1..] && b[..k] == [b[0]] + b[..k][1..];
      }
    }
  }

  // ----- insertion -----

  predicate Precedes(x: AppendInfo, y: AppendInfo) {
    x.clientId == y.clientId && StrLess(x.clientTimestamp, y.clientTimestamp)
  }

  /** Before the first later append of the same client, else at the end. */
  function Insert(s: seq<AppendInfo>, a: AppendInfo): seq<AppendInfo> {
    if s == [] || Precedes(a, s[0]) then [a] + s else [s[0]] + Insert(s[1..], a)
  }

  predicate HasAppend(s: seq<AppendInfo>, id: string) {
    exists i | 0 <= i < |s| :: s[i].appendId == id
  }

  /** `AppendToFile` on the list: a known AppendID changes nothing. */
  function AppendTo(s: seq<AppendInfo>, a: AppendInfo): seq<AppendInfo> {
    if HasAppend(s, a.appendId) then s else Insert(s, a)
  }

  function AppendAll(s: seq<AppendInfo>, calls: seq<AppendInfo>): seq<AppendInfo> {
    if calls == [] then s
    else AppendTo(AppendAll(s, calls[..|calls| - 1]), calls[|calls| - 1])
  }

  function Ids(s: seq<AppendInfo>): (r: seq<string>)
    ensures |r| == |s|
  {
    seq(|s|, i requires 0 <= i < |s| => s[i].appendId)
  }

  method InsertAppend(appends: seq<AppendInfo>, a: AppendInfo) returns (r: seq<AppendInfo>)
    ensures r == Insert(appends, a)
  {
    for i := 0 to |appends|
      invariant Insert(appends, a) == appends[..i] + Insert(appends[i..], a)
    {
      if appends[i].clientId == a.clientId && StrLess(a.clientTimestamp, appends[i].clientTimestamp) {
        return appends[..i] + ([a] + appends[i..]);
      }
      InsertPasses(appends, a, i);
    }
    return appends + [a];
  }

  lemma InsertPasses(s: seq<AppendInfo>, a: AppendInfo, i: nat)
    requires i < |s| && !Precedes(a, s[i])
    ensures s[..i] + Insert(s[i..], a) == s[..i + 1] + Insert(s[i + 1..], a)
  {
    assert s[i..][1..] == s[i + 1..];
    assert s[..i + 1] == s[..i] + [s[i]];
  }

  // ----- the invariant -----

  ghost predicate UniqueAppends(s: seq<AppendInfo>) {
    forall i, j | 0 <= i < j < |s| :: s[i].appendId != s[j].appendId
  }

  /** No append comes after a later one of its own client. */
  ghost predicate ClientSorted(s: seq<AppendInfo>) {
    forall i, j | 0 <= i < j < |s| && s[i].clientId == s[j].clientId ::
      !StrLess(s[j].clientTimestamp, s[i].clientTimestamp)
  }

  ghost predicate Ordered(s: seq<AppendInfo>) {
    UniqueAppends(s) && ClientSorted(s)
  }

  /** Where the new entry lands: everything before it may stay before it, and the entry it was put
      in front of is later. */
  lemma {:induction false} InsertPlace(s: seq<AppendInfo>, a: AppendInfo) returns (k: nat)
    ensures k <= |s| && Insert(s, a) == s[..k] + [a] + s[k..]
    ensures forall i | 0 <= i < k && s[i].clientId == a.clientId :: !StrLess(a.clientTimestamp, s[i].clientTimestamp)
    ensures k < |s| ==> s[k].clientId == a.clientId && StrLess(a.clientTimestamp, s[k].clientTimestamp)
  {
    if s == [] || Precedes(a, s[0]) {
      k := 0;
    } else {
      var k' := InsertPlace(s[1..], a);
      k := k' + 1;
      assert forall i | 0 < i < k :: s[i] == s[1..][i - 1];
    }
  }

  /** One call keeps the invariant, keeps the existing entries in their order, and adds the append
      if its ID is new. */
  lemma AppendToKeeps(s: seq<AppendInfo>, a: AppendInfo) returns (k: nat)
    requires Ordered(s)
    ensures Ordered(AppendTo(s, a))
    ensures k <= |s|
    ensures AppendTo(s, a) == if HasAppend(s, a.appendId) then s else s[..k] + [a] + s[k..]
  {
    k := InsertPlace(s, a);
    if !HasAppend(s, a.appendId) {
      var r := s[..k] + [a] + s[k..];
      forall j | k <= j < |s| ensures !Precedes(s[j], a) {
        if Precedes(s[j], a) {
          StrLessTransitive(s[j].clientTimestamp, a.clientTimestamp, s[k].clientTimestamp);
          StrLessIrreflexive(s[k].clientTimestamp);
        }
      }
      forall i, j | 0 <= i < j < |r| ensures !Precedes(r[j], r[i]) {
        assert i != k ==> r[i] == s[if i < k then i else i - 1];
        assert j != k ==> r[j] == s[if j < k then j else j - 1];
      }
    }
  }

  lemma {:induction false} AppendAllOrdered(s: seq<AppendInfo>, calls: seq<AppendInfo>)
    requires Ordered(s)
    ensures Ordered(AppendAll(s, calls))
  {
    if calls != [] {
      AppendAllOrdered(s, calls[..|calls| - 1]);
      var k := AppendToKeeps(AppendAll(s, calls[..|calls| - 1]), calls[|calls| - 1]);
    }
  }

  lemma HasAppendConcat(s: seq<AppendInfo>, t: seq<AppendInfo>, id: string)
    ensures HasAppend(s + t, id) <==> HasAppend(s, id) || HasAppend(t, id)
  {
    if HasAppend(s, id) {
      var i :| 0 <= i < |s| && s[i].appendId == id;
      assert (s + t)[i].appendId == id;
    }
    if HasAppend(t, id) {
      var i :| 0 <= i < |t| && t[i].appendId == id;
      assert (s + t)[|s| + i].appendId == id;
    }
  }

  lemma AppendToIds(s: seq<AppendInfo>, a: AppendInfo, id: string)
    ensures HasAppend(AppendTo(s, a), id) <==> HasAppend(s, id) || id == a.appendId
  {
    var k := InsertPlace(s, a);
    HasAppendConcat(s[..k] + [a], s[k..], id);
    HasAppendConcat(s[..k], [a], id);
    HasAppendConcat(s[..k], s[k..], id);
    assert s == s[..k] + s[k..];
    assert [a][0] == a;
  }

  /** After any calls the list holds exactly the old IDs and the IDs of the calls. */
  lemma {:induction false} AppendAllIds(s: seq<AppendInfo>, calls: seq<AppendInfo>, id: string)
    ensures HasAppend(AppendAll(s, calls), id) <==> HasAppend(s, id) || HasAppend(calls, id)
  {
    if calls != [] {
      var k := |calls| - 1;
      AppendAllIds(s, calls[..k], id);
      assert calls == calls[..k] + [calls[k]];
      HasAppendConcat(calls[..k], [calls[k]], id);
      assert [calls[k]][0] == calls[k];
      AppendToIds(AppendAll(s, calls[..k]), calls[k], id);
    }
  }

  /** Sending a list entry by entry to an empty file rebuilds it exactly when it is ordered. */
  lemma {:induction false} ReplayExact(s: seq<AppendInfo>)
    ensures AppendAll([], s) == s <==> Ordered(s)
  {
    if Ordered(s) {
      ReplayOrdered(s, |s|);
      assert s[..|s|] == s;
    }
    AppendAllOrdered([], s);
  }

  lemma {:induction false} ReplayOrdered(s: seq<AppendInfo>, n: nat)
    requires Ordered(s) && n <= |s|
    ensures AppendAll([], s[..n]) == s[..n]
  {
    if n > 0 {
      ReplayOrdered(s, n - 1);
      assert s[..n][..n - 1] == s[..n - 1];
      var k := InsertPlace(s[..n - 1], s[n - 1]);
      assert k == n - 1;
    }
  }
}
