/** Any interleaving of the phases of `AppendToFile` calls equals running the calls one after the
    other in the order in which they took the file's lock. */
module ConcurrentAppends {
  import opened Members
  import opened AppendLog

  datatype Call = Call(file: string, info: AppendInfo)

  /** Where a call stands. `Read` holds the private copy taken under the map lock, `Inserted` the
      copy with the new entry; a duplicate skips the write. */
  datatype Phase =
    | Start
    | Waiting
    | Locked
    | Read(copy: FileMetadata)
    | Inserted(copy: FileMetadata)
    | Duplicate
    | Written
    | Done
    | Failed

  /** A file's metadata, the call holding its lock, and the history of calls that took the lock. */
  datatype Cell = Cell(meta: FileMetadata, holder: Option<nat>, order: seq<nat>)

  datatype State = State(cells: map<string, Cell>, phases: seq<Phase>)

  predicate InCritical(p: Phase) {
    p.Locked? || p.Read? || p.Inserted? || p.Duplicate? || p.Written?
  }

  predicate Begun(p: Phase) { InCritical(p) || p == Done }

  /** Call `t` on its file runs up to its next shared access. */
  function Advance(cell: Cell, p: Phase, t: nat, info: AppendInfo): (Cell, Phase) {
    match p
    case Start => (cell, Waiting)
    case Waiting =>
      if cell.holder.Some? then (cell, p)
      else (cell.(holder := Some(t), order := cell.order + [t]), Locked)
    case Locked => (cell, Read(cell.meta))
    case Read(copy) =>
      (cell, if HasAppend(copy.appends, info.appendId) then Duplicate
             else Inserted(copy.(appends := Insert(copy.appends, info))))
    case Inserted(copy) => (cell.(meta := copy), Written)
    case Duplicate => (cell.(holder := None), Done)
    case Written => (cell.(holder := None), Done)
    case Done => (cell, p)
    case Failed => (cell, p)
  }

  /** A call on a file without a lock fails at once; otherwise it advances. */
  function Step(calls: seq<Call>, s: State, t: nat): State
    requires |s.phases| == |calls|
  {
    if t >= |calls| then s
    else if calls[t].file !in s.cells then s.(phases := s.phases[t := Failed])
    else var (cell, p) := Advance(s.cells[calls[t].file], s.phases[t], t, calls[t].info);
         State(s.cells[calls[t].file := cell], s.phases[t := p])
  }

  /** The state after the scheduler has picked calls in this order, repetitions allowed. */
  function Run(calls: seq<Call>, s: State, schedule: seq<nat>): (r: State)
    requires |s.phases| == |calls|
    ensures |r.phases| == |calls| && r.cells.Keys == s.cells.Keys
  {
    if schedule == [] then s
    else Step(calls, Run(calls, s, schedule[..|schedule| - 1]), schedule[|schedule| - 1])
  }

  ghost predicate Init(calls: seq<Call>, s: State) {
    |s.phases| == |calls| && (forall t | 0 <= t < |calls| :: s.phases[t] == Start) &&
    forall f | f in s.cells :: s.cells[f].holder == None && s.cells[f].order == []
  }

  // ----- the serial meaning -----

  ghost predicate CallsOn(calls: seq<Call>, f: string, order: seq<nat>) {
    forall i | 0 <= i < |order| :: order[i] < |calls| && calls[order[i]].file == f
  }

  /** The metadata after the calls of `order` ran alone, one by one. */
  ghost function Serial(meta: FileMetadata, calls: seq<Call>, f: string, order: seq<nat>): FileMetadata
    requires CallsOn(calls, f, order)
  {
    meta.(appends := AppendAll(meta.appends, Infos(calls, f, order)))
  }

  ghost function Infos(calls: seq<Call>, f: string, order: seq<nat>): seq<AppendInfo>
    requires CallsOn(calls, f, order)
  {
    seq(|order|, i requires 0 <= i < |order| => calls[order[i]].info)
  }

  lemma SerialSnoc(meta: FileMetadata, calls: seq<Call>, f: string, order: seq<nat>)
    requires CallsOn(calls, f, order) && order != []
    ensures var before, last := order[..|order| - 1], order[|order| - 1];
            CallsOn(calls, f, before) &&
            Serial(meta, calls, f, order) ==
              meta.(appends := AppendTo(Serial(meta, calls, f, before).appends, calls[last].info))
  {
    var all := Infos(calls, f, order);
    assert all[..|all| - 1] == Infos(calls, f, order[..|order| - 1]);
  }

  // ----- the invariant of one file -----

  /** The history lists the calls that took the lock, each once. */
  ghost predicate OrderFits(calls: seq<Call>, phases: seq<Phase>, f: string, order: seq<nat>)
    requires |phases| == |calls|
  {
    CallsOn(calls, f, order) &&
    (forall i | 0 <= i < |order| :: Begun(phases[order[i]])) &&
    (forall t | 0 <= t < |calls| && calls[t].file == f && Begun(phases[t]) :: t in order) &&
    (forall i, j | 0 <= i < j < |order| :: order[i] != order[j])
  }

  /** The holder is the one call inside the critical section, and it was last to take the lock. */
  ghost predicate LockFits(calls: seq<Call>, phases: seq<Phase>, f: string, cell: Cell)
    requires |phases| == |calls|
  {
    (forall t: nat | t < |calls| && calls[t].file == f && InCritical(phases[t]) :: cell.holder == Some(t)) &&
    (cell.holder.Some? ==>
       var t := cell.holder.value;
       t < |calls| && calls[t].file == f && InCritical(phases[t]) &&
       cell.order != [] && cell.order[|cell.order| - 1] == t)
  }

  /** The metadata is the serial result, short of the holder's call until that has been written. */
  ghost predicate ContentFits(meta: FileMetadata, calls: seq<Call>, phases: seq<Phase>, f: string, cell: Cell)
    requires |phases| == |calls| && OrderFits(calls, phases, f, cell.order) && LockFits(calls, phases, f, cell)
  {
    var post := Serial(meta, calls, f, cell.order);
    if cell.holder.None? then cell.meta == post
    else
      var before := cell.order[..|cell.order| - 1];
      var pre := Serial(meta, calls, f, before);
      match phases[cell.holder.value]
      case Locked => cell.meta == pre
      case Read(copy) => cell.meta == pre && copy == pre
      case Inserted(copy) => cell.meta == pre && copy == post
      case Duplicate => cell.meta == post
      case Written => cell.meta == post
      case _ => true
  }

  ghost predicate CellInv(meta: FileMetadata, calls: seq<Call>, phases: seq<Phase>, f: string, cell: Cell)
    requires |phases| == |calls|
  {
    OrderFits(calls, phases, f, cell.order) && LockFits(calls, phases, f, cell) &&
    ContentFits(meta, calls, phases, f, cell)
  }

  ghost predicate Inv(calls: seq<Call>, s0: State, s: State) {
    |s.phases| == |calls| && s.cells.Keys == s0.cells.Keys &&
    forall f | f in s.cells :: CellInv(s0.cells[f].meta, calls, s.phases, f, s.cells[f])
  }

  // ----- preservation -----

  lemma OtherFile(meta: FileMetadata, calls: seq<Call>, phases: seq<Phase>, f: string, cell: Cell, t: nat, p: Phase)
    requires |phases| == |calls| && t < |calls| && calls[t].file != f
    requires CellInv(meta, calls, phases, f, cell)
    ensures CellInv(meta, calls, phases[t := p], f, cell)
  {
  }

  lemma TakeLock(meta: FileMetadata, calls: seq<Call>, phases: seq<Phase>, f: string, cell: Cell, t: nat)
    requires |phases| == |calls| && t < |calls| && calls[t].file == f
    requires CellInv(meta, calls, phases, f, cell) && phases[t].Waiting? && cell.holder == None
    ensures CellInv(meta, calls, phases[t := Locked], f, cell.(holder := Some(t), order := cell.order + [t]))
  {
    var order := cell.order + [t];
    assert order[..|order| - 1] == cell.order;
  }

  lemma ReleaseLock(meta: FileMetadata, calls: seq<Call>, phases: seq<Phase>, f: string, cell: Cell, t: nat)
    requires |phases| == |calls| && t < |calls| && calls[t].file == f
    requires CellInv(meta, calls, phases, f, cell) && (phases[t].Duplicate? || phases[t].Written?)
    ensures CellInv(meta, calls, phases[t := Done], f, cell.(holder := None))
  {
  }

  /** Inside the critical section the holder's phase moves; lock and history stay. */
  lemma PhaseMoves(calls: seq<Call>, phases: seq<Phase>, f: string, cell: Cell, t: nat, p: Phase)
    requires |phases| == |calls| && t < |calls| && calls[t].file == f && InCritical(phases[t]) && InCritical(p)
    requires OrderFits(calls, phases, f, cell.order) && LockFits(calls, phases, f, cell)
    ensures cell.holder == Some(t) && cell.order != []
    ensures OrderFits(calls, phases[t := p], f, cell.order) && LockFits(calls, phases[t := p], f, cell)
  {
  }

  /** And so does the content. */
  lemma KeepLock(meta: FileMetadata, calls: seq<Call>, phases: seq<Phase>, f: string, cell: Cell, t: nat)
    requires |phases| == |calls| && t < |calls| && calls[t].file == f
    requires CellInv(meta, calls, phases, f, cell)
    requires phases[t].Locked? || phases[t].Read? || phases[t].Inserted?
    ensures var (cell', p) := Advance(cell, phases[t], t, calls[t].info);
            CellInv(meta, calls, phases[t := p], f, cell')
  {
    var (cell', p) := Advance(cell, phases[t], t, calls[t].info);
    PhaseMoves(calls, phases, f, cell, t, p);
    SerialSnoc(meta, calls, f, cell.order);
    ContentMoves(meta, calls, phases, f, cell, t, cell', p);
  }

  lemma ContentMoves(meta: FileMetadata, calls: seq<Call>, phases: seq<Phase>, f: string, cell: Cell, t: nat,
                     cell': Cell, p: Phase)
    requires |phases| == |calls| && t < |calls| && cell.holder == Some(t) && cell.order != []
    requires OrderFits(calls, phases, f, cell.order) && LockFits(calls, phases, f, cell)
    requires ContentFits(meta, calls, phases, f, cell)
    requires OrderFits(calls, phases[t := p], f, cell'.order) && LockFits(calls, phases[t := p], f, cell')
    requires phases[t].Locked? || phases[t].Read? || phases[t].Inserted?
    requires (cell', p) == Advance(cell, phases[t], t, calls[t].info)
    requires var before, last := cell.order[..|cell.order| - 1], cell.order[|cell.order| - 1];
             CallsOn(calls, f, before) &&
             Serial(meta, calls, f, cell.order) ==
               meta.(appends := AppendTo(Serial(meta, calls, f, before).appends, calls[last].info))
    ensures ContentFits(meta, calls, phases[t := p], f, cell')
  {
  }

  lemma OwnFile(meta: FileMetadata, calls: seq<Call>, phases: seq<Phase>, f: string, cell: Cell, t: nat)
    requires |phases| == |calls| && t < |calls| && calls[t].file == f
    requires CellInv(meta, calls, phases, f, cell)
    ensures var (cell', p) := Advance(cell, phases[t], t, calls[t].info);
            CellInv(meta, calls, phases[t := p], f, cell')
  {
    match phases[t]
    case Start =>
    case Waiting =>
      if cell.holder == None {
        TakeLock(meta, calls, phases, f, cell, t);
      } else {
        assert phases[t := phases[t]] == phases;
      }
    case Locked => KeepLock(meta, calls, phases, f, cell, t);
    case Read(copy) => KeepLock(meta, calls, phases, f, cell, t);
    case Inserted(copy) => KeepLock(meta, calls, phases, f, cell, t);
    case Duplicate => ReleaseLock(meta, calls, phases, f, cell, t);
    case Written => ReleaseLock(meta, calls, phases, f, cell, t);
    case Done => assert phases[t := phases[t]] == phases;
    case Failed => assert phases[t := phases[t]] == phases;
  }

  lemma StepInv(calls: seq<Call>, s0: State, s: State, t: nat)
    requires Inv(calls, s0, s)
    ensures Inv(calls, s0, Step(calls, s, t))
  {
    if t < |calls| {
      var s' := Step(calls, s, t);
      forall f | f in s'.cells ensures CellInv(s0.cells[f].meta, calls, s'.phases, f, s'.cells[f]) {
        if f == calls[t].file {
          OwnFile(s0.cells[f].meta, calls, s.phases, f, s.cells[f], t);
        } else {
          OtherFile(s0.cells[f].meta, calls, s.phases, f, s.cells[f], t, s'.phases[t]);
        }
      }
    }
  }

  lemma {:induction false} StretchInv(calls: seq<Call>, s0: State, s: State, schedule: seq<nat>)
    requires Inv(calls, s0, s)
    ensures Inv(calls, s0, Run(calls, s, schedule))
  {
    if schedule != [] {
      var k := |schedule| - 1;
      StretchInv(calls, s0, s, schedule[..k]);
      StepInv(calls, s0, Run(calls, s, schedule[..k]), schedule[k]);
    }
  }

  lemma RunInv(calls: seq<Call>, s0: State, schedule: seq<nat>)
    requires Init(calls, s0)
    ensures Inv(calls, s0, Run(calls, s0, schedule))
  {
    StretchInv(calls, s0, s0, schedule);
  }

  /** Whenever a file's lock is free, under any schedule, its metadata is the serial result of the
      calls that have run on it, in lock order, each exactly once. */
  lemma Linearizable(calls: seq<Call>, s0: State, schedule: seq<nat>, f: string)
    requires Init(calls, s0) && f in s0.cells
    ensures var s := Run(calls, s0, schedule);
            OrderFits(calls, s.phases, f, s.cells[f].order) &&
            (s.cells[f].holder == None ==>
               s.cells[f].meta == Serial(s0.cells[f].meta, calls, f, s.cells[f].order))
  {
    RunInv(calls, s0, schedule);
  }

  // ----- real time -----

  /** The lock order is a history: it only grows. */
  lemma {:induction false} HistoryGrows(calls: seq<Call>, s: State, schedule: seq<nat>, f: string)
    requires |s.phases| == |calls| && f in s.cells
    ensures s.cells[f].order <= Run(calls, s, schedule).cells[f].order
  {
    if schedule != [] {
      HistoryGrows(calls, s, schedule[..|schedule| - 1], f);
    }
  }

  lemma Started(calls: seq<Call>, phases: seq<Phase>, f: string, order: seq<nat>, t: nat) returns (i: nat)
    requires |phases| == |calls| && OrderFits(calls, phases, f, order)
    requires t < |calls| && calls[t].file == f && Begun(phases[t])
    ensures i < |order| && order[i] == t
  {
    assert t in order;
    i :| 0 <= i < |order| && order[i] == t;
  }

  /** A call that had taken the lock comes before every call that had not by then. */
  lemma RealTimeOrder(calls: seq<Call>, s0: State, schedule: seq<nat>, more: seq<nat>, f: string, i: nat, j: nat)
    requires Init(calls, s0) && f in s0.cells
    requires var s := Run(calls, s0, schedule);
             var order := Run(calls, s, more).cells[f].order;
             i < |order| && j < |order| && order[i] < |calls| && order[j] < |calls| &&
             Begun(s.phases[order[i]]) && !Begun(s.phases[order[j]])
    ensures i < j
  {
    var s := Run(calls, s0, schedule);
    var s' := Run(calls, s, more);
    RunInv(calls, s0, schedule);
    StretchInv(calls, s0, s, more);
    HistoryGrows(calls, s, more, f);
    var before, order := s.cells[f].order, s'.cells[f].order;
    OrdersFit(calls, s0, s, f);
    OrdersFit(calls, s0, s', f);
    var k := Started(calls, s.phases, f, before, order[i]);
    PrefixFirst(before, order, k, i, j);
  }

  lemma OrdersFit(calls: seq<Call>, s0: State, s: State, f: string)
    requires Inv(calls, s0, s) && f in s.cells
    ensures OrderFits(calls, s.phases, f, s.cells[f].order)
  {
    assert CellInv(s0.cells[f].meta, calls, s.phases, f, s.cells[f]);
  }

  lemma PrefixFirst(before: seq<nat>, order: seq<nat>, k: nat, i: nat, j: nat)
    requires before <= order && k < |before| && i < |order| && j < |order| && before[k] == order[i]
    requires forall a, b | 0 <= a < b < |order| :: order[a] != order[b]
    requires order[j] !in before
    ensures i < j
  {
    assert order[k] == order[i];
    assert k == i;
  }

  /** The serial result holds the append of every call in it. */
  lemma SerialHas(meta: FileMetadata, calls: seq<Call>, f: string, order: seq<nat>, i: nat)
    requires CallsOn(calls, f, order) && i < |order|
    ensures HasAppend(Serial(meta, calls, f, order).appends, calls[order[i]].info.appendId)
  {
    var infos, id := Infos(calls, f, order), calls[order[i]].info.appendId;
    assert infos[i].appendId == id;
    AppendAllIds(meta.appends, infos, id);
  }

  /** Between the lock and the write the content may lack the holder's call, and only that. */
  lemma ContentHas(meta: FileMetadata, calls: seq<Call>, phases: seq<Phase>, f: string, cell: Cell, t: nat)
    requires |phases| == |calls| && CellInv(meta, calls, phases, f, cell)
    requires t < |calls| && calls[t].file == f && phases[t] == Done
    ensures HasAppend(cell.meta.appends, calls[t].info.appendId)
  {
    var order := cell.order;
    var i := Started(calls, phases, f, order, t);
    SerialHas(meta, calls, f, order, i);
    if cell.holder.Some? {
      var before := order[..|order| - 1];
      assert i < |before|;
      assert before[i] == t && CallsOn(calls, f, before);
      SerialHas(meta, calls, f, before, i);
    }
  }

  /** A call that has returned is in the file, whatever else runs. */
  lemma NoAppendLost(calls: seq<Call>, s0: State, schedule: seq<nat>, t: nat)
    requires Init(calls, s0) && t < |calls| && calls[t].file in s0.cells
    requires Run(calls, s0, schedule).phases[t] == Done
    ensures HasAppend(Run(calls, s0, schedule).cells[calls[t].file].meta.appends, calls[t].info.appendId)
  {
    var s, f := Run(calls, s0, schedule), calls[t].file;
    RunInv(calls, s0, schedule);
    ContentHas(s0.cells[f].meta, calls, s.phases, f, s.cells[f], t);
  }

  // ----- progress -----

  /** Steps a call still has to take once it is not kept waiting. */
  function Left(p: Phase): nat {
    match p
    case Start => 6
    case Waiting => 5
    case Locked => 4
    case Read(_) => 3
    case Inserted(_) => 2
    case Duplicate => 1
    case Written => 1
    case Done => 0
    case Failed => 0
  }

  function TotalLeft(phases: seq<Phase>): nat {
    if phases == [] then 0 else TotalLeft(phases[..|phases| - 1]) + Left(phases[|phases| - 1])
  }

  lemma {:induction false} TotalUpdate(phases: seq<Phase>, t: nat, p: Phase)
    requires t < |phases|
    ensures TotalLeft(phases[t := p]) == TotalLeft(phases) - Left(phases[t]) + Left(p)
  {
    var k := |phases| - 1;
    if t == k {
      assert phases[t := p][..k] == phases[..k];
    } else {
      assert phases[t := p][..k] == phases[..k][t := p];
      TotalUpdate(phases[..k], t, p);
    }
  }

  lemma {:induction false} NoneLeft(phases: seq<Phase>)
    requires TotalLeft(phases) == 0
    ensures forall t | 0 <= t < |phases| :: phases[t] == Done || phases[t] == Failed
  {
    if phases != [] {
      NoneLeft(phases[..|phases| - 1]);
      forall t | 0 <= t < |phases| ensures phases[t] == Done || phases[t] == Failed {
        assert t < |phases| - 1 ==> phases[t] == phases[..|phases| - 1][t];
      }
    }
  }

  /** A call on an existing file that is scheduled moves on, unless it waits for a lock that is taken or is
      through. */
  lemma MovesOn(calls: seq<Call>, s: State, t: nat)
    requires |s.phases| == |calls| && t < |calls| && calls[t].file in s.cells
    requires s.phases[t] != Done && s.phases[t] != Failed
    requires s.phases[t] == Waiting ==> s.cells[calls[t].file].holder == None
    ensures Left(Step(calls, s, t).phases[t]) < Left(s.phases[t])
    ensures s.phases[t] == Waiting ==>
              Step(calls, s, t).phases[t] == Locked && Step(calls, s, t).cells[calls[t].file].holder == Some(t)
  {
  }

  /** A step brings the system forward, or changes nothing at all. */
  lemma ForwardOrIdle(calls: seq<Call>, s: State, t: nat)
    requires |s.phases| == |calls|
    ensures Step(calls, s, t) == s || TotalLeft(Step(calls, s, t).phases) < TotalLeft(s.phases) ||
            (t < |calls| && s.phases[t] == Failed) || (t < |calls| && calls[t].file !in s.cells)
  {
    if t < |calls| && calls[t].file in s.cells {
      var (cell, p) := Advance(s.cells[calls[t].file], s.phases[t], t, calls[t].info);
      TotalUpdate(s.phases, t, p);
    }
  }

  ghost predicate AllExist(calls: seq<Call>, s: State) {
    |s.phases| == |calls| && forall t | 0 <= t < |calls| :: calls[t].file in s.cells && s.phases[t] != Failed
  }

  lemma StepExist(calls: seq<Call>, s: State, t: nat)
    requires AllExist(calls, s)
    ensures AllExist(calls, Step(calls, s, t))
    ensures Step(calls, s, t) == s || TotalLeft(Step(calls, s, t).phases) < TotalLeft(s.phases)
  {
    ForwardOrIdle(calls, s, t);
  }

  lemma {:induction false} RunExist(calls: seq<Call>, s: State, schedule: seq<nat>)
    requires AllExist(calls, s)
    ensures AllExist(calls, Run(calls, s, schedule))
    ensures Run(calls, s, schedule) == s || TotalLeft(Run(calls, s, schedule).phases) < TotalLeft(s.phases)
  {
    if schedule != [] {
      var k := |schedule| - 1;
      RunExist(calls, s, schedule[..k]);
      StepExist(calls, Run(calls, s, schedule[..k]), schedule[k]);
    }
  }

  /** If a stretch of scheduling brings nothing forward, no call in it can move. */
  lemma {:induction false} IdleThroughout(calls: seq<Call>, s: State, schedule: seq<nat>, t: nat)
    requires AllExist(calls, s) && Run(calls, s, schedule) == s && t in schedule
    ensures Step(calls, s, t) == s
  {
    var k := |schedule| - 1;
    var before := Run(calls, s, schedule[..k]);
    RunExist(calls, s, schedule[..k]);
    StepExist(calls, before, schedule[k]);
    assert before == s;
    assert schedule == schedule[..k] + [schedule[k]];
    if t != schedule[k] {
      IdleThroughout(calls, s, schedule[..k], t);
    }
  }

  /** No reachable state is stuck: if some call is not through, some call can move. */
  lemma NotStuck(calls: seq<Call>, s0: State, s: State, t: nat) returns (u: nat)
    requires Inv(calls, s0, s) && AllExist(calls, s) && t < |calls| && s.phases[t] != Done
    ensures u < |calls| && Step(calls, s, u) != s
  {
    u := t;
    var f := calls[t].file;
    assert CellInv(s0.cells[f].meta, calls, s.phases, f, s.cells[f]);
    if s.phases[t] == Waiting && s.cells[f].holder.Some? {
      u := s.cells[f].holder.value;
    }
    MovesOn(calls, s, u);
  }

  /** Every call gets a turn. */
  ghost predicate Round(calls: seq<Call>, round: seq<nat>) {
    forall t: nat | t < |calls| :: t in round
  }

  lemma RoundAdvances(calls: seq<Call>, s0: State, s: State, round: seq<nat>)
    requires Inv(calls, s0, s) && AllExist(calls, s) && Round(calls, round) && TotalLeft(s.phases) > 0
    ensures TotalLeft(Run(calls, s, round).phases) < TotalLeft(s.phases)
  {
    RunExist(calls, s, round);
    if Run(calls, s, round) == s {
      var t := SomeLeft(s.phases);
      var u := NotStuck(calls, s0, s, t);
      IdleThroughout(calls, s, round, u);
    }
  }

  lemma {:induction false} SomeLeft(phases: seq<Phase>) returns (t: nat)
    requires TotalLeft(phases) > 0
    ensures t < |phases| && phases[t] != Done && phases[t] != Failed
  {
    var k := |phases| - 1;
    if Left(phases[k]) > 0 {
      t := k;
    } else {
      t := SomeLeft(phases[..k]);
    }
  }

  function Rounds(calls: seq<Call>, s: State, rounds: seq<seq<nat>>): (r: State)
    requires |s.phases| == |calls|
    ensures |r.phases| == |calls|
  {
    if rounds == [] then s else Run(calls, Rounds(calls, s, rounds[..|rounds| - 1]), rounds[|rounds| - 1])
  }

  lemma {:induction false} RoundsAdvance(calls: seq<Call>, s0: State, s: State, rounds: seq<seq<nat>>)
    requires Inv(calls, s0, s) && AllExist(calls, s) && forall i | 0 <= i < |rounds| :: Round(calls, rounds[i])
    ensures var r := Rounds(calls, s, rounds);
            Inv(calls, s0, r) && AllExist(calls, r) &&
            (TotalLeft(r.phases) + |rounds| <= TotalLeft(s.phases) || TotalLeft(r.phases) == 0)
  {
    if rounds != [] {
      var k := |rounds| - 1;
      var before := Rounds(calls, s, rounds[..k]);
      RoundsAdvance(calls, s0, s, rounds[..k]);
      StretchInv(calls, s0, before, rounds[k]);
      RunExist(calls, before, rounds[k]);
      if TotalLeft(before.phases) > 0 {
        RoundAdvances(calls, s0, before, rounds[k]);
      }
    }
  }

  /** From every reachable state, and under every schedule whose rounds give each call a turn, in any order
      and any number of times, all calls on existing files have returned after six rounds for each call. */
  lemma AllReturn(calls: seq<Call>, s0: State, schedule: seq<nat>, rounds: seq<seq<nat>>)
    requires Init(calls, s0) && (forall t | 0 <= t < |calls| :: calls[t].file in s0.cells)
    requires forall i | 0 <= i < |rounds| :: Round(calls, rounds[i])
    requires |rounds| >= 6 * |calls|
    ensures var r := Rounds(calls, Run(calls, s0, schedule), rounds);
            forall t | 0 <= t < |calls| :: r.phases[t] == Done
  {
    var s := Run(calls, s0, schedule);
    RunInv(calls, s0, schedule);
    RunExist(calls, s0, schedule);
    RoundsAdvance(calls, s0, s, rounds);
    AtMostSixEach(s.phases);
    NoneLeft(Rounds(calls, s, rounds).phases);
  }

  lemma {:induction false} AtMostSixEach(phases: seq<Phase>)
    ensures TotalLeft(phases) <= 6 * |phases|
  {
    if phases != [] {
      AtMostSixEach(phases[..|phases| - 1]);
    }
  }

  /** `n` turns in a row for one call. */
  function Turns(calls: seq<Call>, s: State, t: nat, n: nat): (r: State)
    requires |s.phases| == |calls|
    ensures |r.phases| == |calls| && r.cells.Keys == s.cells.Keys
    decreases n
  {
    if n == 0 then s else Turns(calls, Step(calls, s, t), t, n - 1)
  }

  function Again(t: nat, n: nat): seq<nat> {
    seq(n, _ => t)
  }

  /** They are a schedule like any other. */
  lemma {:induction false} TurnsAreRun(calls: seq<Call>, s: State, t: nat, n: nat)
    requires |s.phases| == |calls|
    ensures Turns(calls, s, t, n) == Run(calls, s, Again(t, n))
    decreases n
  {
    if n > 0 {
      TurnsAreRun(calls, Step(calls, s, t), t, n - 1);
      assert Again(t, n) == [t] + Again(t, n - 1);
      RunFirst(calls, s, t, Again(t, n - 1));
    }
  }

  lemma {:induction false} RunFirst(calls: seq<Call>, s: State, t: nat, schedule: seq<nat>)
    requires |s.phases| == |calls|
    ensures Run(calls, s, [t] + schedule) == Run(calls, Step(calls, s, t), schedule)
  {
    var all := [t] + schedule;
    if schedule == [] {
      assert all[..|all| - 1] == [];
      assert all[|all| - 1] == t;
    } else {
      var k := |schedule| - 1;
      assert all[..|all| - 1] == [t] + schedule[..k] && all[|all| - 1] == schedule[k];
      RunFirst(calls, s, t, schedule[..k]);
    }
  }

  /** A call run alone on a file whose lock is free returns after six steps, and the file's list is the old
      one with its append: unchanged if the AppendID was there, else with the append put in. */
  lemma AloneReturns(calls: seq<Call>, s: State, t: nat)
    requires |s.phases| == |calls| && t < |calls| && calls[t].file in s.cells
    requires s.phases[t] == Start && s.cells[calls[t].file].holder == None
    ensures var f, r := calls[t].file, Run(calls, s, Again(t, 6));
            r.phases[t] == Done && r.cells[f].holder == None && r.cells[f].order == s.cells[f].order + [t] &&
            r.cells[f].meta == s.cells[f].meta.(appends := AppendTo(s.cells[f].meta.appends, calls[t].info)) &&
            forall g | g in s.cells && g != f :: r.cells[g] == s.cells[g]
  {
    var f := calls[t].file;
    var s3 := Step(calls, Step(calls, Step(calls, s, t), t), t);
    assert s3.phases[t] == Read(s.cells[f].meta) && s3.cells[f].meta == s.cells[f].meta;
    assert s3.cells[f].order == s.cells[f].order + [t];
    CopyReturns(calls, s3, t);
    TurnsThree(calls, s, t, 3);
    TurnsAreRun(calls, s, t, 6);
  }

  lemma TurnsThree(calls: seq<Call>, s: State, t: nat, n: nat)
    requires |s.phases| == |calls|
    ensures Turns(calls, s, t, n + 3) == Turns(calls, Step(calls, Step(calls, Step(calls, s, t), t), t), t, n)
  {
    var s1 := Step(calls, s, t);
    var s2 := Step(calls, s1, t);
    assert Turns(calls, s, t, n + 3) == Turns(calls, s1, t, n + 2);
    assert Turns(calls, s1, t, n + 2) == Turns(calls, s2, t, n + 1);
  }

  /** From its private copy on, the call writes it back with its append, or leaves it if it was there. */
  lemma CopyReturns(calls: seq<Call>, s: State, t: nat)
    requires |s.phases| == |calls| && t < |calls| && calls[t].file in s.cells
    requires s.phases[t] == Read(s.cells[calls[t].file].meta)
    ensures var f, r := calls[t].file, Turns(calls, s, t, 3);
            r.phases[t] == Done && r.cells[f].holder == None && r.cells[f].order == s.cells[f].order &&
            r.cells[f].meta == s.cells[f].meta.(appends := AppendTo(s.cells[f].meta.appends, calls[t].info)) &&
            forall g | g in s.cells && g != f :: r.cells[g] == s.cells[g]
  {
    TurnsThree(calls, s, t, 0);
    var s2 := Step(calls, Step(calls, s, t), t);
    if HasAppend(s.cells[calls[t].file].meta.appends, calls[t].info.appendId) {
      assert s2.phases[t] == Done;
    } else {
      assert s2.phases[t] == Written;
    }
  }

  /** From any state the holder of a lock, scheduled for its remaining steps, returns and frees the lock. */
  lemma {:induction false} HolderReturns(calls: seq<Call>, s: State, t: nat, n: nat)
    requires |s.phases| == |calls| && t < |calls| && calls[t].file in s.cells
    requires InCritical(s.phases[t]) && n >= Left(s.phases[t])
    ensures var r := Run(calls, s, Again(t, n));
            r.phases[t] == Done && r.cells[calls[t].file].holder == None
  {
    HolderTurns(calls, s, t, n);
    TurnsAreRun(calls, s, t, n);
  }

  lemma {:induction false} HolderTurns(calls: seq<Call>, s: State, t: nat, n: nat)
    requires |s.phases| == |calls| && t < |calls| && calls[t].file in s.cells
    requires InCritical(s.phases[t]) && n >= Left(s.phases[t])
    ensures var r := Turns(calls, s, t, n);
            r.phases[t] == Done && r.cells[calls[t].file].holder == None
    decreases n
  {
    var next := Step(calls, s, t);
    MovesOn(calls, s, t);
    if next.phases[t] == Done {
      DoneStays(calls, next, t, n - 1);
    } else {
      HolderTurns(calls, next, t, n - 1);
    }
  }

  lemma {:induction false} DoneStays(calls: seq<Call>, s: State, t: nat, n: nat)
    requires |s.phases| == |calls| && t < |calls| && calls[t].file in s.cells && s.phases[t] == Done
    ensures Turns(calls, s, t, n) == s
    decreases n
  {
    if n > 0 {
      assert Step(calls, s, t) == s by {
        assert s.phases[t := Done] == s.phases && s.cells[calls[t].file := s.cells[calls[t].file]] == s.cells;
      }
      DoneStays(calls, s, t, n - 1);
    }
  }

  /** A call on a file that does not exist fails at its first turn and changes nothing. */
  lemma {:induction false} MissingFileFails(calls: seq<Call>, s: State, t: nat, n: nat)
    requires |s.phases| == |calls| && t < |calls| && calls[t].file !in s.cells && n > 0
    ensures var r := Run(calls, s, Again(t, n)); r.phases[t] == Failed && r.cells == s.cells
  {
    MissingTurns(calls, s, t, n);
    TurnsAreRun(calls, s, t, n);
  }

  lemma {:induction false} MissingTurns(calls: seq<Call>, s: State, t: nat, n: nat)
    requires |s.phases| == |calls| && t < |calls| && calls[t].file !in s.cells && n > 0
    ensures var r := Turns(calls, s, t, n); r.phases[t] == Failed && r.cells == s.cells
    decreases n
  {
    if n > 1 {
      MissingTurns(calls, Step(calls, s, t), t, n - 1);
    }
  }
}
