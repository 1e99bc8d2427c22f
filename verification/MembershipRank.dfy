/** Gossip computes a maximum: the rank of an entry in either suspicion mode, what merging and sweeping do to
    it, and exactly when the order of arrival shows. */
module MembershipRank {
  import opened Members
  import opened Membership
  import opened MembershipMerge

  /** Unknown below every known entry; final above; otherwise incarnation, then suspicion, then heartbeat. */
  datatype Rank = Unknown | Known(incarnation: nat, suspected: bool, heartbeat: nat) | Final

  function RankOf(m: Option<Member>): Rank {
    match m
    case None => Unknown
    case Some(m) => if m.IsFinal() then Final else Known(m.incarnation, m.status == Suspect, m.heartbeat)
  }

  predicate AtMost(a: Rank, b: Rank) {
    a.Unknown? || b.Final? ||
    (a.Known? && b.Known? &&
     (a.incarnation < b.incarnation ||
      (a.incarnation == b.incarnation &&
       ((!a.suspected && b.suspected) ||
        (a.suspected == b.suspected && a.heartbeat <= b.heartbeat)))))
  }

  function Max(a: Rank, b: Rank): (r: Rank)
    ensures AtMost(a, r) && AtMost(b, r) && (r == a || r == b)
  {
    if AtMost(a, b) then b else a
  }

  lemma AtMostIsOrder(a: Rank, b: Rank, c: Rank)
    ensures AtMost(a, a) && (AtMost(a, b) || AtMost(b, a))
    ensures AtMost(a, b) && AtMost(b, a) ==> a == b
    ensures AtMost(a, b) && AtMost(b, c) ==> AtMost(a, c)
  {
  }

  /** What gossip compares in a mode: without suspicion incarnations are not looked at. */
  function RankIn(mode: Suspicion, m: Option<Member>): Rank {
    match RankOf(m)
    case Unknown => Unknown
    case Known(incarnation, suspected, heartbeat) =>
      Known(if mode == WithSuspicion then incarnation else 0, suspected, heartbeat)
    case Final => Final
  }

  /** Under gossip a dead entry is not taken from others: every node times out by itself. */
  function Contribution(mode: Suspicion, received: Member): Rank {
    if received.status == Dead then Unknown else RankIn(mode, Some(received))
  }

  /** The entry after one received member; a skipped one leaves it as it was. */
  function After(cfg: Config, now: int, self: NodeId, own: nat, local: Option<Member>, received: Member,
                 sender: NodeId): Option<Member>
  {
    var e := MergeEntry(cfg, now, self, own, local, received, sender);
    if e.Some? then e else local
  }

  /** In both modes merging is the maximum of the ranks. */
  lemma MergeIsMax(mode: Suspicion, now: int, self: NodeId, own: nat, local: Option<Member>, received: Member,
                   sender: NodeId)
    requires received.id != self
    ensures RankIn(mode, After(Config(GossipProtocol, mode), now, self, own, local, received, sender)) ==
            Max(RankIn(mode, local), Contribution(mode, received))
  {
  }

  /** The entry itself: an entry that is not below the received one stays, a lower one is replaced. */
  lemma MergeChooses(mode: Suspicion, now: int, self: NodeId, own: nat, local: Option<Member>, received: Member,
                     sender: NodeId)
    requires received.id != self && !RankIn(mode, local).Final? && !Contribution(mode, received).Final?
    ensures After(Config(GossipProtocol, mode), now, self, own, local, received, sender) ==
            if AtMost(Contribution(mode, received), RankIn(mode, local)) then local
            else Some(received.(lastUpdated := now))
  {
  }

  // ----- any order, any repetition -----

  /** One received entry, with the receiver's clock and the sender of the list it came in. */
  datatype Delivery = Delivery(received: Member, now: int, sender: NodeId)

  function AfterAll(mode: Suspicion, self: NodeId, own: nat, local: Option<Member>, ds: seq<Delivery>): Option<Member> {
    if ds == [] then local
    else
      var d, before := ds[|ds| - 1], AfterAll(mode, self, own, local, ds[..|ds| - 1]);
      After(Config(GossipProtocol, mode), d.now, self, own, before, d.received, d.sender)
  }

  ghost predicate About(id: NodeId, hash: Hash, ds: seq<Delivery>) {
    forall d | d in ds :: d.received.id == id && d.received.hash == hash
  }

  ghost predicate Describes(local: Option<Member>, id: NodeId, hash: Hash) {
    local.Some? ==> local.value.id == id && local.value.hash == hash
  }

  /** Equal but for the time of the last update. */
  predicate SameButTime(a: Option<Member>, b: Option<Member>) {
    a.Some? == b.Some? && (a.Some? ==> b.value == a.value.(lastUpdated := b.value.lastUpdated))
  }

  /** The folded rank is the least upper bound of what was there and what was received. */
  lemma {:induction false} FoldIsSupremum(mode: Suspicion, self: NodeId, own: nat, local: Option<Member>,
                                          ds: seq<Delivery>, id: NodeId, hash: Hash, bound: Rank)
    requires id != self && About(id, hash, ds)
    ensures AtMost(RankIn(mode, AfterAll(mode, self, own, local, ds)), bound) <==>
            AtMost(RankIn(mode, local), bound) && forall d | d in ds :: AtMost(Contribution(mode, d.received), bound)
  {
    if ds != [] {
      var k := |ds| - 1;
      var before := AfterAll(mode, self, own, local, ds[..k]);
      assert ds == ds[..k] + [ds[k]];
      FoldIsSupremum(mode, self, own, local, ds[..k], id, hash, bound);
      MergeIsMax(mode, ds[k].now, self, own, before, ds[k].received, ds[k].sender);
      MaxBelow(RankIn(mode, before), Contribution(mode, ds[k].received), bound);
    }
  }

  lemma MaxBelow(a: Rank, b: Rank, bound: Rank)
    ensures AtMost(Max(a, b), bound) <==> AtMost(a, bound) && AtMost(b, bound)
  {
    AtMostIsOrder(a, Max(a, b), bound);
    AtMostIsOrder(b, Max(a, b), bound);
  }

  function Received(ds: seq<Delivery>): set<Member> {
    set d | d in ds :: d.received
  }

  /** The same received entries, as a set. */
  ghost predicate SameReceived(ds: seq<Delivery>, es: seq<Delivery>) {
    Received(ds) == Received(es)
  }

  /** What holds of every entry received one way holds of every entry received the other way. */
  lemma ReceivedElsewhere(ds: seq<Delivery>, es: seq<Delivery>, e: Delivery) returns (d: Delivery)
    requires Received(es) <= Received(ds) && e in es
    ensures d in ds && d.received == e.received
  {
    assert e.received in Received(es);
    d :| d in ds && d.received == e.received;
  }

  lemma RanksBelow(mode: Suspicion, self: NodeId, own: nat, local: Option<Member>, ds: seq<Delivery>,
                   self': NodeId, own': nat, local': Option<Member>, es: seq<Delivery>, id: NodeId, hash: Hash)
    requires id != self && id != self' && About(id, hash, ds) && About(id, hash, es)
    requires RankIn(mode, local) == RankIn(mode, local')
    requires Received(ds) <= Received(es)
    ensures AtMost(RankIn(mode, AfterAll(mode, self, own, local, ds)),
                   RankIn(mode, AfterAll(mode, self', own', local', es)))
  {
    var top := RankIn(mode, AfterAll(mode, self', own', local', es));
    AtMostIsOrder(top, top, top);
    FoldIsSupremum(mode, self', own', local', es, id, hash, top);
    forall d | d in ds ensures AtMost(Contribution(mode, d.received), top) {
      var e := ReceivedElsewhere(es, ds, d);
    }
    FoldIsSupremum(mode, self, own, local, ds, id, hash, top);
  }

  /** Two nodes that started level and saw the same entries about a third one, in any order and with
      any repetition, rank it the same, in both modes. */
  lemma SameRank(mode: Suspicion, self: NodeId, own: nat, local: Option<Member>, ds: seq<Delivery>,
                 self': NodeId, own': nat, local': Option<Member>, es: seq<Delivery>, id: NodeId, hash: Hash)
    requires id != self && id != self' && About(id, hash, ds) && About(id, hash, es)
    requires RankIn(mode, local) == RankIn(mode, local') && SameReceived(ds, es)
    ensures RankIn(mode, AfterAll(mode, self, own, local, ds)) == RankIn(mode, AfterAll(mode, self', own', local', es))
  {
    var a, b := AfterAll(mode, self, own, local, ds), AfterAll(mode, self', own', local', es);
    RanksBelow(mode, self, own, local, ds, self', own', local', es, id, hash);
    RanksBelow(mode, self', own', local', es, self, own, local, ds, id, hash);
    AtMostIsOrder(RankIn(mode, a), RankIn(mode, b), RankIn(mode, a));
  }

  /** With suspicion the entries themselves agree, up to the update time, unless they are final. */
  lemma OrderIndependent(self: NodeId, own: nat, local: Option<Member>, ds: seq<Delivery>,
                         self': NodeId, own': nat, local': Option<Member>, es: seq<Delivery>, id: NodeId, hash: Hash)
    requires id != self && id != self' && About(id, hash, ds) && About(id, hash, es)
    requires RankOf(local) == RankOf(local') && SameReceived(ds, es)
    requires Describes(local, id, hash) && Describes(local', id, hash)
    ensures var a, b := AfterAll(WithSuspicion, self, own, local, ds), AfterAll(WithSuspicion, self', own', local', es);
            RankOf(a) == RankOf(b) && (!RankOf(a).Final? ==> SameButTime(a, b))
  {
    SameRank(WithSuspicion, self, own, local, ds, self', own', local', es, id, hash);
    FoldIdentity(WithSuspicion, self, own, local, ds, id, hash);
    FoldIdentity(WithSuspicion, self', own', local', es, id, hash);
  }

  lemma {:induction false} FoldIdentity(mode: Suspicion, self: NodeId, own: nat, local: Option<Member>,
                                        ds: seq<Delivery>, id: NodeId, hash: Hash)
    requires About(id, hash, ds) && id != self && Describes(local, id, hash)
    ensures Describes(AfterAll(mode, self, own, local, ds), id, hash)
  {
    if ds != [] {
      FoldIdentity(mode, self, own, local, ds[..|ds| - 1], id, hash);
      assert ds[|ds| - 1] in ds;
    }
  }

  // ----- the entries without suspicion -----

  /** Above what the node had, and not below anything received. */
  ghost predicate Leads(local: Option<Member>, ds: seq<Delivery>, d: Delivery) {
    d in ds && !AtMost(Contribution(NoSuspicion, d.received), RankIn(NoSuspicion, local)) &&
    forall e | e in ds :: AtMost(Contribution(NoSuspicion, e.received), Contribution(NoSuspicion, d.received))
  }

  /** No two leading entries differ in incarnation. */
  ghost predicate Unambiguous(local: Option<Member>, ds: seq<Delivery>) {
    forall d, e | Leads(local, ds, d) && Leads(local, ds, e) :: d.received.incarnation == e.received.incarnation
  }

  lemma TopLeads(local: Option<Member>, ds: seq<Delivery>, top: Rank, d: Delivery)
    requires IsTop(local, ds, top) && d in ds
    ensures Leads(local, ds, d) <==>
            RankIn(NoSuspicion, local) != top && Contribution(NoSuspicion, d.received) == top
  {
    var l, r := RankIn(NoSuspicion, local), Contribution(NoSuspicion, d.received);
    AtMostIsOrder(l, top, l);
    AtMostIsOrder(r, top, r);
    if l != top {
      var x :| x in ds && Contribution(NoSuspicion, x.received) == top;
      AtMostIsOrder(top, r, top);
    }
  }

  /** `top` is the highest of the ranks: attained, and above all. */
  ghost predicate IsTop(local: Option<Member>, ds: seq<Delivery>, top: Rank) {
    AtMost(RankIn(NoSuspicion, local), top) &&
    (forall d | d in ds :: AtMost(Contribution(NoSuspicion, d.received), top)) &&
    (RankIn(NoSuspicion, local) == top || exists d :: d in ds && Contribution(NoSuspicion, d.received) == top)
  }

  lemma TopIsRank(self: NodeId, own: nat, local: Option<Member>, ds: seq<Delivery>, id: NodeId, hash: Hash, top: Rank)
    requires id != self && About(id, hash, ds) && IsTop(local, ds, top)
    ensures RankIn(NoSuspicion, AfterAll(NoSuspicion, self, own, local, ds)) == top
  {
    var r := RankIn(NoSuspicion, AfterAll(NoSuspicion, self, own, local, ds));
    AtMostIsOrder(r, top, r);
    FoldIsSupremum(NoSuspicion, self, own, local, ds, id, hash, top);
    FoldIsSupremum(NoSuspicion, self, own, local, ds, id, hash, r);
  }

  /** Once the entry has the highest rank, nothing replaces it. */
  lemma {:induction false} TopStays(self: NodeId, own: nat, local: Option<Member>, ds: seq<Delivery>, id: NodeId,
                                    hash: Hash, top: Rank)
    requires id != self && About(id, hash, ds) && top.Known? && RankIn(NoSuspicion, local) == top
    requires forall d | d in ds :: AtMost(Contribution(NoSuspicion, d.received), top)
    ensures AfterAll(NoSuspicion, self, own, local, ds) == local
  {
    if ds != [] {
      var k := |ds| - 1;
      assert ds[k] in ds;
      TopStays(self, own, local, ds[..k], id, hash, top);
      MergeChooses(NoSuspicion, ds[k].now, self, own, local, ds[k].received, ds[k].sender);
    }
  }

  /** The entry is the one the node had, if that was highest, else one of the highest received. */
  lemma {:induction false} FoldChooses(self: NodeId, own: nat, local: Option<Member>, ds: seq<Delivery>, id: NodeId,
                                       hash: Hash)
    requires id != self && About(id, hash, ds)
    ensures var r := AfterAll(NoSuspicion, self, own, local, ds);
            var top := RankIn(NoSuspicion, r);
            top.Known? && RankIn(NoSuspicion, local) != top ==>
              exists d :: d in ds && Contribution(NoSuspicion, d.received) == top && SameButTime(Some(d.received), r)
  {
    var r := AfterAll(NoSuspicion, self, own, local, ds);
    if ds != [] && RankIn(NoSuspicion, r).Known? && RankIn(NoSuspicion, local) != RankIn(NoSuspicion, r) {
      var k := |ds| - 1;
      var before := AfterAll(NoSuspicion, self, own, local, ds[..k]);
      assert ds[k] in ds;
      FoldChooses(self, own, local, ds[..k], id, hash);
      MergeIsMax(NoSuspicion, ds[k].now, self, own, before, ds[k].received, ds[k].sender);
      AtMostIsOrder(RankIn(NoSuspicion, before), RankIn(NoSuspicion, r), Final);
      MergeChooses(NoSuspicion, ds[k].now, self, own, before, ds[k].received, ds[k].sender);
      if r == before {
        var d :| d in ds[..k] && Contribution(NoSuspicion, d.received) == RankIn(NoSuspicion, r) &&
                 SameButTime(Some(d.received), r);
        assert d in ds;
      }
    }
  }

  /** Enough: whatever orders two nodes saw, unambiguous entries leave them with the same entry. */
  lemma UnambiguousAgrees(self: NodeId, own: nat, local: Option<Member>, ds: seq<Delivery>,
                          self': NodeId, own': nat, es: seq<Delivery>, id: NodeId, hash: Hash, top: Rank)
    requires id != self && id != self' && About(id, hash, ds) && About(id, hash, es) && SameReceived(ds, es)
    requires Describes(local, id, hash) && IsTop(local, ds, top) && !top.Final? && Unambiguous(local, ds)
    ensures SameButTime(AfterAll(NoSuspicion, self, own, local, ds), AfterAll(NoSuspicion, self', own', local, es))
  {
    TopIsRank(self, own, local, ds, id, hash, top);
    SameRank(NoSuspicion, self, own, local, ds, self', own', local, es, id, hash);
    if top.Known? {
      if RankIn(NoSuspicion, local) == top {
        TopElsewhere(ds, es, top);
        TopStays(self, own, local, ds, id, hash, top);
        TopStays(self', own', local, es, id, hash, top);
      } else {
        ChosenAgree(self, own, local, ds, self', own', es, id, hash, top);
      }
    }
  }

  lemma TopElsewhere(ds: seq<Delivery>, es: seq<Delivery>, top: Rank)
    requires SameReceived(ds, es) && forall d | d in ds :: AtMost(Contribution(NoSuspicion, d.received), top)
    ensures forall e | e in es :: AtMost(Contribution(NoSuspicion, e.received), top)
  {
    forall e | e in es ensures AtMost(Contribution(NoSuspicion, e.received), top) {
      var d := ReceivedElsewhere(ds, es, e);
    }
  }

  lemma ChosenAgree(self: NodeId, own: nat, local: Option<Member>, ds: seq<Delivery>,
                    self': NodeId, own': nat, es: seq<Delivery>, id: NodeId, hash: Hash, top: Rank)
    requires id != self && id != self' && About(id, hash, ds) && About(id, hash, es) && SameReceived(ds, es)
    requires top.Known? && RankIn(NoSuspicion, local) != top && Unambiguous(local, ds) && IsTop(local, ds, top)
    requires RankIn(NoSuspicion, AfterAll(NoSuspicion, self, own, local, ds)) == top
    requires RankIn(NoSuspicion, AfterAll(NoSuspicion, self', own', local, es)) == top
    ensures SameButTime(AfterAll(NoSuspicion, self, own, local, ds), AfterAll(NoSuspicion, self', own', local, es))
  {
    var d := ChosenOne(self, own, local, ds, id, hash, top);
    var e := ChosenOne(self', own', local, es, id, hash, top);
    var d' := ReceivedElsewhere(ds, es, e);
    TopLeads(local, ds, top, d);
    TopLeads(local, ds, top, d');
    assert d.received.incarnation == d'.received.incarnation;
    SameKnown(d.received, e.received);
  }

  lemma ChosenOne(self: NodeId, own: nat, local: Option<Member>, ds: seq<Delivery>, id: NodeId, hash: Hash, top: Rank)
    returns (d: Delivery)
    requires id != self && About(id, hash, ds) && top.Known? && RankIn(NoSuspicion, local) != top
    requires RankIn(NoSuspicion, AfterAll(NoSuspicion, self, own, local, ds)) == top
    ensures d in ds && Contribution(NoSuspicion, d.received) == top && !d.received.IsFinal()
    ensures SameButTime(Some(d.received), AfterAll(NoSuspicion, self, own, local, ds))
  {
    FoldChooses(self, own, local, ds, id, hash);
    d :| d in ds && Contribution(NoSuspicion, d.received) == top &&
         SameButTime(Some(d.received), AfterAll(NoSuspicion, self, own, local, ds));
  }

  lemma SameKnown(m: Member, x: Member)
    requires RankIn(NoSuspicion, Some(m)) == RankIn(NoSuspicion, Some(x)) && !m.IsFinal()
    requires m.id == x.id && m.hash == x.hash && m.incarnation == x.incarnation
    ensures SameButTime(Some(m), Some(x))
  {
  }

  /** Seeing a highest entry first fixes it. */
  lemma FirstWins(self: NodeId, own: nat, local: Option<Member>, ds: seq<Delivery>, d: Delivery, id: NodeId, hash: Hash,
                  top: Rank)
    requires id != self && About(id, hash, ds) && d in ds && top.Known? && AtMost(RankIn(NoSuspicion, local), top)
    requires forall e | e in ds :: AtMost(Contribution(NoSuspicion, e.received), top)
    requires RankIn(NoSuspicion, local) != top && Contribution(NoSuspicion, d.received) == top
    ensures SameButTime(Some(d.received), AfterAll(NoSuspicion, self, own, local, [d] + ds))
  {
    var first := Some(d.received.(lastUpdated := d.now));
    AfterAllConcat(NoSuspicion, self, own, local, [d], ds);
    AfterAllOne(NoSuspicion, self, own, local, d);
    AtMostIsOrder(RankIn(NoSuspicion, local), top, RankIn(NoSuspicion, local));
    MergeChooses(NoSuspicion, d.now, self, own, local, d.received, d.sender);
    TopStays(self, own, first, ds, id, hash, top);
  }

  lemma SeenAgainFirst(ds: seq<Delivery>, d: Delivery)
    requires d in ds
    ensures SameReceived(ds, [d] + ds)
  {
    assert forall e :: e in [d] + ds <==> e in ds;
  }

  /** Two highest entries that differ in incarnation: putting one or the other first shows. */
  lemma AmbiguousDisagrees(self: NodeId, own: nat, local: Option<Member>, ds: seq<Delivery>, d: Delivery, e: Delivery,
                           id: NodeId, hash: Hash, top: Rank)
    requires id != self && About(id, hash, ds) && d in ds && e in ds && top.Known?
    requires AtMost(RankIn(NoSuspicion, local), top) && RankIn(NoSuspicion, local) != top
    requires forall x | x in ds :: AtMost(Contribution(NoSuspicion, x.received), top)
    requires Contribution(NoSuspicion, d.received) == top == Contribution(NoSuspicion, e.received)
    requires d.received.incarnation != e.received.incarnation
    ensures SameReceived(ds, [d] + ds) && SameReceived(ds, [e] + ds)
    ensures var r := AfterAll(NoSuspicion, self, own, local, ds);
            !SameButTime(r, AfterAll(NoSuspicion, self, own, local, [d] + ds)) ||
            !SameButTime(r, AfterAll(NoSuspicion, self, own, local, [e] + ds))
  {
    SeenAgainFirst(ds, d);
    SeenAgainFirst(ds, e);
    FirstWins(self, own, local, ds, d, id, hash, top);
    FirstWins(self, own, local, ds, e, id, hash, top);
  }

  lemma AboutElsewhere(ds: seq<Delivery>, es: seq<Delivery>, id: NodeId, hash: Hash)
    requires About(id, hash, ds) && SameReceived(ds, es)
    ensures About(id, hash, es)
  {
    forall e | e in es ensures e.received.id == id && e.received.hash == hash {
      var d := ReceivedElsewhere(ds, es, e);
    }
  }

  /** Two leading entries that differ in incarnation show. */
  lemma AmbiguousShows(self: NodeId, own: nat, local: Option<Member>, ds: seq<Delivery>, id: NodeId, hash: Hash,
                       top: Rank)
    requires id != self && About(id, hash, ds) && IsTop(local, ds, top) && !top.Final? && !Unambiguous(local, ds)
    ensures !Settled(NoSuspicion, self, own, local, ds)
  {
    var d, e :| Leads(local, ds, d) && Leads(local, ds, e) && d.received.incarnation != e.received.incarnation;
    TopLeads(local, ds, top, d);
    TopLeads(local, ds, top, e);
    AmbiguousDisagrees(self, own, local, ds, d, e, id, hash, top);
  }

  // ----- final entries -----

  /** Some received entry is a voluntary leave, the one final state that gossip takes from others. */
  ghost predicate HasLeave(ds: seq<Delivery>) {
    exists d :: d in ds && d.received.status == VoluntaryLeave
  }

  /** `r` is one of the leaves received. */
  ghost predicate IsLeave(ds: seq<Delivery>, r: Option<Member>) {
    exists d :: d in ds && d.received.status == VoluntaryLeave && SameButTime(Some(d.received), r)
  }

  lemma IsLeaveOf(ds: seq<Delivery>, d: Delivery, r: Option<Member>)
    requires d in ds && d.received.status == VoluntaryLeave && SameButTime(Some(d.received), r)
    ensures HasLeave(ds) && IsLeave(ds, r)
  {
  }

  /** A received leave is taken as it is; over a final entry nothing else is taken. */
  lemma AfterFinal(mode: Suspicion, now: int, self: NodeId, own: nat, local: Option<Member>, received: Member,
                   sender: NodeId)
    requires received.id != self
    ensures var r := After(Config(GossipProtocol, mode), now, self, own, local, received, sender);
            if received.status == VoluntaryLeave
            then r == Some(if local.None? then received.(lastUpdated := now) else received)
            else RankOf(local).Final? ==> r == local
  {
  }

  /** The fold ends with one of the received leaves, or with the final entry the node had. */
  lemma {:induction false} FinalFold(mode: Suspicion, self: NodeId, own: nat, local: Option<Member>, ds: seq<Delivery>,
                                     id: NodeId, hash: Hash)
    requires id != self && About(id, hash, ds)
    ensures var r := AfterAll(mode, self, own, local, ds);
            if HasLeave(ds) then IsLeave(ds, r) else RankOf(local).Final? ==> r == local
  {
    if ds != [] {
      var k := |ds| - 1;
      var d, before := ds[k], AfterAll(mode, self, own, local, ds[..k]);
      assert ds == ds[..k] + [d] && d in ds;
      FinalFold(mode, self, own, local, ds[..k], id, hash);
      AfterFinal(mode, d.now, self, own, before, d.received, d.sender);
      if d.received.status == VoluntaryLeave {
        IsLeaveOf(ds, d, AfterAll(mode, self, own, local, ds));
      } else if HasLeave(ds) {
        var x :| x in ds && x.received.status == VoluntaryLeave;
        assert x in ds[..k];
        var y :| y in ds[..k] && y.received.status == VoluntaryLeave && SameButTime(Some(y.received), before);
        IsLeaveOf(ds, y, before);
      } else {
        assert !HasLeave(ds[..k]) by { assert forall x | x in ds[..k] :: x in ds; }
      }
    }
  }

  /** All received leaves are one, up to the update time. */
  ghost predicate LeavesAgree(ds: seq<Delivery>) {
    forall d, e | d in ds && e in ds && d.received.status == VoluntaryLeave == e.received.status ::
      SameButTime(Some(d.received), Some(e.received))
  }

  lemma SameButTimeThrough(a: Option<Member>, b: Option<Member>, c: Option<Member>)
    requires SameButTime(b, a) && SameButTime(b, c)
    ensures SameButTime(a, c)
  {
  }

  lemma LeavesAgreeElsewhere(ds: seq<Delivery>, es: seq<Delivery>, a: Option<Member>, b: Option<Member>)
    requires SameReceived(ds, es) && LeavesAgree(ds) && IsLeave(ds, a) && IsLeave(es, b)
    ensures SameButTime(a, b)
  {
    var d :| d in ds && d.received.status == VoluntaryLeave && SameButTime(Some(d.received), a);
    var e :| e in es && e.received.status == VoluntaryLeave && SameButTime(Some(e.received), b);
    var d' := ReceivedElsewhere(ds, es, e);
    assert SameButTime(Some(d.received), Some(d'.received));
    SameButTimeThrough(a, Some(d.received), Some(e.received));
    SameButTimeThrough(Some(e.received), Some(e.received), a);
    SameButTimeThrough(a, Some(e.received), b);
  }

  lemma LeaveElsewhere(ds: seq<Delivery>, es: seq<Delivery>)
    requires SameReceived(ds, es)
    ensures HasLeave(ds) <==> HasLeave(es)
  {
    if HasLeave(ds) {
      var d :| d in ds && d.received.status == VoluntaryLeave;
      var e := ReceivedElsewhere(es, ds, d);
    }
    if HasLeave(es) {
      var e :| e in es && e.received.status == VoluntaryLeave;
      var d := ReceivedElsewhere(ds, es, e);
    }
  }

  /** Hearing a leave last decides. */
  lemma LastLeaveWins(mode: Suspicion, self: NodeId, own: nat, local: Option<Member>, ds: seq<Delivery>, d: Delivery)
    requires d in ds && d.received.id != self && d.received.status == VoluntaryLeave
    ensures SameReceived(ds, ds + [d])
    ensures SameButTime(Some(d.received), AfterAll(mode, self, own, local, ds + [d]))
  {
    assert forall e :: e in ds + [d] <==> e in ds;
    assert (ds + [d])[..|ds|] == ds;
    AfterFinal(mode, d.now, self, own, AfterAll(mode, self, own, local, ds), d.received, d.sender);
  }

  /** Leaves that differ show. */
  lemma DifferentLeavesShow(mode: Suspicion, self: NodeId, own: nat, local: Option<Member>, ds: seq<Delivery>,
                            id: NodeId, hash: Hash)
    requires id != self && About(id, hash, ds) && !LeavesAgree(ds)
    ensures !Settled(mode, self, own, local, ds)
  {
    var d, e :| d in ds && e in ds && d.received.status == VoluntaryLeave == e.received.status &&
                !SameButTime(Some(d.received), Some(e.received));
    LastLeaveWins(mode, self, own, local, ds, d);
    LastLeaveWins(mode, self, own, local, ds, e);
    var r := AfterAll(mode, self, own, local, ds);
    assert !SameButTime(r, AfterAll(mode, self, own, local, ds + [d])) ||
           !SameButTime(r, AfterAll(mode, self, own, local, ds + [e]));
  }

  // ----- the exact condition -----

  /** Whatever order and repetition of the same entries, the node ends with the same entry. */
  ghost predicate Settled(mode: Suspicion, self: NodeId, own: nat, local: Option<Member>, ds: seq<Delivery>) {
    forall es | SameReceived(ds, es) ::
      SameButTime(AfterAll(mode, self, own, local, ds), AfterAll(mode, self, own, local, es))
  }

  /** A final entry is at hand: the node's own, or a received leave. */
  ghost predicate EndsFinal(local: Option<Member>, ds: seq<Delivery>) {
    RankOf(local).Final? || HasLeave(ds)
  }

  /** With a final entry at hand all received leaves must be one; otherwise suspicion sees to it, and
      without suspicion the leading entries must have one incarnation. */
  ghost predicate OrderFree(mode: Suspicion, local: Option<Member>, ds: seq<Delivery>) {
    if EndsFinal(local, ds) then LeavesAgree(ds) else mode == WithSuspicion || Unambiguous(local, ds)
  }

  /** Without a final entry at hand the fold does not end final. */
  lemma {:induction false} NeverFinal(mode: Suspicion, self: NodeId, own: nat, local: Option<Member>,
                                      ds: seq<Delivery>, id: NodeId, hash: Hash)
    requires id != self && About(id, hash, ds) && !EndsFinal(local, ds)
    ensures !RankOf(AfterAll(mode, self, own, local, ds)).Final?
  {
    if ds != [] {
      var k := |ds| - 1;
      assert forall x | x in ds[..k] :: x in ds;
      assert ds[k] in ds;
      NeverFinal(mode, self, own, local, ds[..k], id, hash);
      MergeIsMax(mode, ds[k].now, self, own, AfterAll(mode, self, own, local, ds[..k]), ds[k].received, ds[k].sender);
    }
  }

  lemma FinalsAgree(mode: Suspicion, self: NodeId, own: nat, local: Option<Member>, ds: seq<Delivery>,
                    self': NodeId, own': nat, es: seq<Delivery>, id: NodeId, hash: Hash)
    requires id != self && id != self' && About(id, hash, ds) && About(id, hash, es) && SameReceived(ds, es)
    requires EndsFinal(local, ds) && LeavesAgree(ds)
    ensures SameButTime(AfterAll(mode, self, own, local, ds), AfterAll(mode, self', own', local, es))
  {
    FinalFold(mode, self, own, local, ds, id, hash);
    FinalFold(mode, self', own', local, es, id, hash);
    LeaveElsewhere(ds, es);
    if HasLeave(ds) {
      LeavesAgreeElsewhere(ds, es, AfterAll(mode, self, own, local, ds), AfterAll(mode, self', own', local, es));
    }
  }

  /** Two nodes that started with the same entry and saw the same ones, in their own orders. */
  lemma OrderFreeAgrees(mode: Suspicion, self: NodeId, own: nat, local: Option<Member>, ds: seq<Delivery>,
                        self': NodeId, own': nat, es: seq<Delivery>, id: NodeId, hash: Hash)
    requires id != self && id != self' && About(id, hash, ds) && About(id, hash, es) && SameReceived(ds, es)
    requires Describes(local, id, hash) && OrderFree(mode, local, ds)
    ensures SameButTime(AfterAll(mode, self, own, local, ds), AfterAll(mode, self', own', local, es))
  {
    if EndsFinal(local, ds) {
      FinalsAgree(mode, self, own, local, ds, self', own', es, id, hash);
    } else {
      NeverFinal(mode, self, own, local, ds, id, hash);
      if mode == WithSuspicion {
        OrderIndependent(self, own, local, ds, self', own', local, es, id, hash);
      } else {
        RankIsTop(self, own, local, ds, id, hash);
        UnambiguousAgrees(self, own, local, ds, self', own', es, id, hash,
                          RankIn(NoSuspicion, AfterAll(NoSuspicion, self, own, local, ds)));
      }
    }
  }

  /** Exactly, in both modes and for every kind of entry: the order of arrival and repetition do not show,
      up to the update time, if and only if the entries are OrderFree. */
  lemma OrderExact(mode: Suspicion, self: NodeId, own: nat, local: Option<Member>, ds: seq<Delivery>, id: NodeId,
                   hash: Hash)
    requires id != self && About(id, hash, ds) && Describes(local, id, hash)
    ensures Settled(mode, self, own, local, ds) <==> OrderFree(mode, local, ds)
  {
    if OrderFree(mode, local, ds) {
      forall es | SameReceived(ds, es)
        ensures SameButTime(AfterAll(mode, self, own, local, ds), AfterAll(mode, self, own, local, es))
      {
        AboutElsewhere(ds, es, id, hash);
        OrderFreeAgrees(mode, self, own, local, ds, self, own, es, id, hash);
      }
    } else if EndsFinal(local, ds) {
      DifferentLeavesShow(mode, self, own, local, ds, id, hash);
    } else {
      NeverFinal(mode, self, own, local, ds, id, hash);
      RankIsTop(self, own, local, ds, id, hash);
      AmbiguousShows(self, own, local, ds, id, hash, RankIn(NoSuspicion, AfterAll(NoSuspicion, self, own, local, ds)));
    }
  }

  /** The simplest case: two live entries about an unknown node, in either order. */
  lemma TwoOrders(now: int, self: NodeId, own: nat, a: Member, b: Member, sender: NodeId)
    requires a.id == b.id != self && a.hash == b.hash && !a.IsFinal() && !b.IsFinal()
    ensures var da, db := Delivery(a, now, sender), Delivery(b, now, sender);
            AfterAll(NoSuspicion, self, own, None, [da, db]) == AfterAll(NoSuspicion, self, own, None, [db, da]) <==>
            a.status != b.status || a.heartbeat != b.heartbeat || a.incarnation == b.incarnation
  {
    AfterTwo(self, own, Delivery(a, now, sender), Delivery(b, now, sender));
    AfterTwo(self, own, Delivery(b, now, sender), Delivery(a, now, sender));
  }

  lemma AfterTwo(self: NodeId, own: nat, d: Delivery, e: Delivery)
    ensures AfterAll(NoSuspicion, self, own, None, [d, e]) ==
            After(Config(GossipProtocol, NoSuspicion), e.now, self, own,
                  After(Config(GossipProtocol, NoSuspicion), d.now, self, own, None, d.received, d.sender),
                  e.received, e.sender)
  {
    assert [d, e][..1] == [d];
    AfterAllOne(NoSuspicion, self, own, None, d);
  }

  // ----- whole lists -----

  /** One received list, as a call of the merge sees it. */
  datatype Parcel = Parcel(list: seq<Member>, sender: NodeId, now: int)

  /** The node after merging every list in turn. */
  function MergeLists(mode: Suspicion, n: Node, ps: seq<Parcel>): Node {
    if ps == [] then n
    else var p := ps[|ps| - 1];
         Merged(Config(GossipProtocol, mode), p.now, p.list, p.sender, MergeLists(mode, n, ps[..|ps| - 1]))
  }

  /** What the lists say about `id`, in order of arrival. */
  function Deliveries(id: NodeId, ps: seq<Parcel>): seq<Delivery> {
    if ps == [] then []
    else Deliveries(id, ps[..|ps| - 1]) + FromList(id, ps[|ps| - 1], 0)
  }

  function FromList(id: NodeId, p: Parcel, i: nat): seq<Delivery>
    requires i <= |p.list|
    decreases |p.list| - i
  {
    if i == |p.list| then []
    else if p.list[i].id == id then [Delivery(p.list[i], p.now, p.sender)] + FromList(id, p, i + 1)
    else FromList(id, p, i + 1)
  }

  ghost predicate ListsUnique(ps: seq<Parcel>) {
    forall i | 0 <= i < |ps| :: UniqueIds(ps[i].list)
  }

  lemma {:induction false} FromListIs(id: NodeId, p: Parcel, i: nat)
    requires UniqueIds(p.list) && i <= |p.list|
    ensures forall k | i <= k < |p.list| && p.list[k].id == id ::
              FromList(id, p, i) == [Delivery(p.list[k], p.now, p.sender)]
    ensures (forall k | i <= k < |p.list| :: p.list[k].id != id) ==> FromList(id, p, i) == []
    decreases |p.list| - i
  {
    if i < |p.list| {
      FromListIs(id, p, i + 1);
    }
  }

  /** Merging whole lists treats each other node's entry on its own: it ends as the fold of what the
      lists say about that node. */
  lemma {:induction false} ListsFold(mode: Suspicion, n: Node, ps: seq<Parcel>, id: NodeId)
    requires ListsUnique(ps) && Keyed(n.members) && id != n.id
    ensures var r := MergeLists(mode, n, ps);
            Keyed(r.members) && r.id == n.id &&
            Lookup(r.members, id) == AfterAll(mode, n.id, n.incarnation, Lookup(n.members, id), Deliveries(id, ps))
  {
    if ps != [] {
      var k := |ps| - 1;
      ListsFold(mode, n, ps[..k], id);
      OneListFolds(mode, MergeLists(mode, n, ps[..k]), ps[k], id, n.incarnation);
      AfterAllConcat(mode, n.id, n.incarnation, Lookup(n.members, id), Deliveries(id, ps[..k]), FromList(id, ps[k], 0));
    }
  }

  lemma OneListFolds(mode: Suspicion, n: Node, p: Parcel, id: NodeId, own: nat)
    requires UniqueIds(p.list) && Keyed(n.members) && id != n.id
    ensures var r := Merged(Config(GossipProtocol, mode), p.now, p.list, p.sender, n);
            Keyed(r.members) && r.id == n.id &&
            Lookup(r.members, id) == AfterAll(mode, n.id, own, Lookup(n.members, id), FromList(id, p, 0))
  {
    var cfg := Config(GossipProtocol, mode);
    var r := Merged(cfg, p.now, p.list, p.sender, n);
    MergePointwise(cfg, p.now, p.list, p.sender, n);
    FromListIs(id, p, 0);
    if Mentions(p.list, id) {
      var i :| 0 <= i < |p.list| && p.list[i].id == id;
      var d := Delivery(p.list[i], p.now, p.sender);
      assert FromList(id, p, 0) == [d];
      assert Lookup(r.members, p.list[i].id) == Outcome(cfg, p.now, n.members, n, p.list[i], p.sender);
      AfterAllOne(mode, n.id, own, Lookup(n.members, id), d);
    }
  }

  lemma AfterAllOne(mode: Suspicion, self: NodeId, own: nat, local: Option<Member>, d: Delivery)
    ensures AfterAll(mode, self, own, local, [d]) ==
            After(Config(GossipProtocol, mode), d.now, self, own, local, d.received, d.sender)
  {
    assert [d][..0] == [];
  }

  lemma {:induction false} AfterAllConcat(mode: Suspicion, self: NodeId, own: nat, local: Option<Member>,
                                          ds: seq<Delivery>, es: seq<Delivery>)
    ensures AfterAll(mode, self, own, local, ds + es) ==
            AfterAll(mode, self, own, AfterAll(mode, self, own, local, ds), es)
  {
    if es == [] {
      assert ds + es == ds;
    } else {
      var k := |es| - 1;
      assert (ds + es)[..|ds + es| - 1] == ds + es[..k];
      AfterAllConcat(mode, self, own, local, ds, es[..k]);
    }
  }

  /** The same entries about `id`, with one hash, reached both nodes, which had not heard of it before. */
  ghost predicate HeardAlike(n: Node, ps: seq<Parcel>, n': Node, ps': seq<Parcel>, id: NodeId, hash: Hash) {
    ListsUnique(ps) && ListsUnique(ps') && Keyed(n.members) && Keyed(n'.members) && id != n.id && id != n'.id &&
    id !in n.members && id !in n'.members &&
    About(id, hash, Deliveries(id, ps)) && About(id, hash, Deliveries(id, ps')) &&
    SameReceived(Deliveries(id, ps), Deliveries(id, ps'))
  }

  /** Two nodes that merged any lists, each in its own order, rank a third node alike as soon as the same
      entries about it reached both, in both modes; and their entries agree up to the update time if these
      are OrderFree. */
  lemma NodesAgree(mode: Suspicion, n: Node, ps: seq<Parcel>, n': Node, ps': seq<Parcel>, id: NodeId, hash: Hash)
    requires HeardAlike(n, ps, n', ps', id, hash)
    ensures var a, b := Lookup(MergeLists(mode, n, ps).members, id), Lookup(MergeLists(mode, n', ps').members, id);
            RankIn(mode, a) == RankIn(mode, b) && (OrderFree(mode, None, Deliveries(id, ps)) ==> SameButTime(a, b))
  {
    var ds, es := Deliveries(id, ps), Deliveries(id, ps');
    ListsFold(mode, n, ps, id);
    ListsFold(mode, n', ps', id);
    SameRank(mode, n.id, n.incarnation, None, ds, n'.id, n'.incarnation, None, es, id, hash);
    if OrderFree(mode, None, ds) {
      OrderFreeAgrees(mode, n.id, n.incarnation, None, ds, n'.id, n'.incarnation, es, id, hash);
    }
  }

  /** The folded rank is the highest: attained and above all. */
  lemma RankIsTop(self: NodeId, own: nat, local: Option<Member>, ds: seq<Delivery>, id: NodeId, hash: Hash)
    requires id != self && About(id, hash, ds)
    ensures var top := RankIn(NoSuspicion, AfterAll(NoSuspicion, self, own, local, ds));
            !top.Final? ==> IsTop(local, ds, top)
  {
    var top := RankIn(NoSuspicion, AfterAll(NoSuspicion, self, own, local, ds));
    AtMostIsOrder(top, RankIn(NoSuspicion, local), top);
    FoldIsSupremum(NoSuspicion, self, own, local, ds, id, hash, top);
    FoldChooses(self, own, local, ds, id, hash);
  }

  // ----- progress -----

  /** In every configuration a dead or left entry about another node stays dead or left. */
  lemma FinalAbsorbs(cfg: Config, now: int, self: NodeId, own: nat, local: Member, received: Member, sender: NodeId)
    requires local.IsFinal() && received.id != self
    ensures After(cfg, now, self, own, Some(local), received, sender).value.IsFinal()
  {
  }

  /** The sweep only ever raises an entry it keeps. */
  lemma SweepRaises(cfg: Config, t: Timeouts, now: int, self: string, m: Member)
    ensures var r := SweepOne(cfg, t, now, self, m);
            r.Some? ==> (m.IsFinal() ==> r == Some(m)) && forall mode :: AtMost(RankIn(mode, Some(m)), RankIn(mode, r))
  {
  }
}
