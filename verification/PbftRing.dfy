/** The protocol as the source runs it, with each replica's collectors in a ring, and when it refines the table. */
module PbftRing {
  import opened Messages
  import opened OrderedKeys
  import opened ViewChange
  import opened CollectorPool
  import opened Pbft
  import PbftTable
  import C = Collector
  import E = Executor

  type Slots = seq<C.State>

  type Rings = System<Slots>

  ghost predicate Shaped(cfg: Config, s: Rings) {
    s.replicas.Keys == cfg.replicas && forall r :: r in s.replicas ==> |s.replicas[r].pool| == 2 * cfg.capacity
  }

  function SlotFor(cfg: Config, rep: Replica<Slots>, sn: nat): C.State
    requires cfg.capacity >= 1 && |rep.pool| == 2 * cfg.capacity
  {
    rep.pool[SlotOf(cfg.capacity, sn)]
  }

  /** `ProcessProposeMsg`, `ProcessPrepareMsg` and `ProcessCommitMsg`, once the message gets as far as the pool. */
  function Handle(cfg: Config, rep: Replica<Slots>, info: RequestInfo): (rep': Replica<Slots>)
    requires WellFormed(cfg) && |rep.pool| == 2 * cfg.capacity
    ensures |rep'.pool| == 2 * cfg.capacity
  {
    var o := C.Collect(SlotFor(cfg, rep, info.request.sn), info, QuorumOf(cfg));
    Replica(rep.pool[SlotOf(cfg.capacity, info.request.sn) := o.state], React(rep.ctl, info.request, o))
  }

  /** The ordering thread takes one committed request; each number handed to execution renews a slot. */
  function ExecuteNext(cfg: Config, rep: Replica<Slots>): (rep': Replica<Slots>)
    requires WellFormed(cfg) && |rep.pool| == 2 * cfg.capacity
    ensures |rep'.pool| == 2 * cfg.capacity
  {
    var ctl := OrderNext(rep.ctl);
    Replica(AdvanceTo(cfg.capacity, rep.pool, rep.ctl.executor.next, ctl.executor.next, cfg.viewChange), ctl)
  }

  function ViewChangeOf(cfg: Config, rep: Replica<Slots>, stable: nat, view: nat): ViewChangeMessage
    requires cfg.capacity >= 1 && |rep.pool| == 2 * cfg.capacity
  {
    ViewChangeMessage(view, stable, PreparedEntries(cfg.capacity, rep.pool, stable, rep.ctl.highestPrepared))
  }

  function DeliverStep(cfg: Config, s: Rings, id: nat, info: RequestInfo): Rings
    requires WellFormed(cfg) && Shaped(cfg, s) && id in s.replicas
  {
    var o := C.Collect(SlotFor(cfg, s.replicas[id], info.request.sn), info, QuorumOf(cfg));
    s.(replicas := s.replicas[id := Handle(cfg, s.replicas[id], info)], sent := s.sent + Sends(info.request, o, id))
  }

  function ExecuteStep(cfg: Config, s: Rings, id: nat): Rings
    requires WellFormed(cfg) && Shaped(cfg, s) && id in s.replicas
  {
    s.(replicas := s.replicas[id := ExecuteNext(cfg, s.replicas[id])])
  }

  function ViewChangeStep(cfg: Config, s: Rings, id: nat, stable: nat, view: nat): Rings
    requires WellFormed(cfg) && Shaped(cfg, s) && id in s.replicas
  {
    Suspend(s, id)
      .(viewChanges := s.viewChanges + {Record(id, ViewChangeOf(cfg, s.replicas[id], stable, view))})
  }

  function Step(cfg: Config, s: Rings, a: Action): (s': Rings)
    requires WellFormed(cfg) && Shaped(cfg, s)
    ensures Shaped(cfg, s')
  {
    match a
    case Deliver(id, info, accepted) =>
      if Correct(cfg, id) && info.request in s.sent && Reaches(cfg, s.replicas[id].ctl, info.request, accepted)
      then DeliverStep(cfg, s, id, info) else s
    case Execute(id) => if Correct(cfg, id) then ExecuteStep(cfg, s, id) else s
    case StartViewChange(id, stable, counter) =>
      if Correct(cfg, id) then ViewChangeStep(cfg, s, id, stable, cfg.view + counter) else s
    case _ => ControlStep(cfg, s, a)
  }

  /** The system after a run, given as the list of its actions. */
  function Run(cfg: Config, actions: seq<Action>): (s: Rings)
    requires WellFormed(cfg)
    ensures Shaped(cfg, s)
  {
    if actions == [] then Initial(cfg, NewRing(cfg.capacity, cfg.viewChange))
    else Step(cfg, Run(cfg, actions[..|actions| - 1]), actions[|actions| - 1])
  }

  // ----- timely runs

  /** No early message gets as far as a correct replica's pool in this step. */
  ghost predicate TimelyStep(cfg: Config, s: Rings, a: Action) {
    (a.Deliver? && Correct(cfg, a.id) && a.id in s.replicas && a.info.request in s.sent
     && Reaches(cfg, s.replicas[a.id].ctl, a.info.request, a.accepted)) ==>
    !Early(cfg.capacity, Done(s.replicas[a.id].ctl), a.info.request.sn)
  }

  ghost predicate TimelyRun(cfg: Config, actions: seq<Action>)
    requires WellFormed(cfg)
  {
    actions == [] ||
    var init := actions[..|actions| - 1];
    TimelyRun(cfg, init) && TimelyStep(cfg, Run(cfg, init), actions[|actions| - 1])
  }

  /** The ring replica is the table replica: same control state, and every slot holds the table's collector. */
  ghost predicate Matches(cfg: Config, rep: Replica<Slots>, cell: Replica<PbftTable.Cells>)
    requires cfg.capacity >= 1
  {
    && rep.ctl == cell.ctl && rep.ctl.executor.next >= 1
    && Mirrors(cfg.capacity, cfg.viewChange, rep.pool, cell.pool, Done(rep.ctl))
    && Untouched(cfg.capacity, cfg.viewChange, rep.pool, Done(rep.ctl))
  }

  ghost predicate Simulates(cfg: Config, s: Rings, t: PbftTable.Table)
    requires cfg.capacity >= 1
  {
    && s.replicas.Keys == t.replicas.Keys && s.sent == t.sent
    && forall r :: r in s.replicas ==> Matches(cfg, s.replicas[r], t.replicas[r])
  }

  lemma MatchedSlot(cfg: Config, rep: Replica<Slots>, cell: Replica<PbftTable.Cells>, sn: nat)
    requires cfg.capacity >= 1 && Matches(cfg, rep, cell) && SlotFor(cfg, rep, sn).sn == sn
    ensures SlotFor(cfg, rep, sn) == PbftTable.Collecting(cfg, cell, sn)
  {
    if sn <= Done(rep.ctl) + cfg.capacity {
      assert SlotFor(cfg, rep, sn) == Cell(cell.pool, sn, cfg.viewChange);
    } else {
      assert sn !in cell.pool;
    }
  }

  /** A timely message: ring and table give the same answer and stay matched. */
  lemma DeliverMatches(cfg: Config, rep: Replica<Slots>, cell: Replica<PbftTable.Cells>, info: RequestInfo,
                       accepted: bool)
    requires WellFormed(cfg) && Matches(cfg, rep, cell) && Reaches(cfg, rep.ctl, info.request, accepted)
    requires Timely(cfg.capacity, Done(rep.ctl), info.request.sn)
    ensures PbftTable.Collecting(cfg, cell, info.request.sn) == SlotFor(cfg, rep, info.request.sn)
    ensures Matches(cfg, Handle(cfg, rep, info), PbftTable.Handle(cfg, cell, info))
  {
    var sn := info.request.sn;
    SlotMirrors(cfg.capacity, cfg.viewChange, rep.pool, cell.pool, Done(rep.ctl), sn);
    var c := SlotFor(cfg, rep, sn);
    CollectKeepsNumber(c, info, QuorumOf(cfg));
    PutMirrors(cfg.capacity, cfg.viewChange, rep.pool, cell.pool, Done(rep.ctl),
               C.Collect(c, info, QuorumOf(cfg)).state);
  }

  /** A message the ring has no slot for is refused: nothing changes and nothing is sent. */
  lemma RefusedChangesNothing(cfg: Config, rep: Replica<Slots>, info: RequestInfo, id: nat)
    requires WellFormed(cfg) && |rep.pool| == 2 * cfg.capacity
    requires SlotFor(cfg, rep, info.request.sn).sn != info.request.sn
    ensures Handle(cfg, rep, info) == rep
    ensures Sends(info.request, C.Collect(SlotFor(cfg, rep, info.request.sn), info, QuorumOf(cfg)), id) == {}
  {
    var i := SlotOf(cfg.capacity, info.request.sn);
    CollectKeepsNumber(rep.pool[i], info, QuorumOf(cfg));
    assert rep.pool[i := rep.pool[i]] == rep.pool;
    assert rep.ctl.commitQueue + [] == rep.ctl.commitQueue;
  }

  /** One replica replaced by a matching one on both sides, and the same messages sent. */
  lemma ReplaceSimulates(cfg: Config, s: Rings, t: PbftTable.Table, id: nat, rep: Replica<Slots>,
                         cell: Replica<PbftTable.Cells>, more: set<Request>)
    requires cfg.capacity >= 1 && Simulates(cfg, s, t) && id in s.replicas && Matches(cfg, rep, cell)
    ensures Simulates(cfg, s.(replicas := s.replicas[id := rep], sent := s.sent + more),
                      t.(replicas := t.replicas[id := cell], sent := t.sent + more))
  {
  }

  /** A timely message is taken on both sides. */
  lemma TakenSimulates(cfg: Config, s: Rings, t: PbftTable.Table, id: nat, info: RequestInfo, accepted: bool)
    requires WellFormed(cfg) && Shaped(cfg, s) && Simulates(cfg, s, t) && Correct(cfg, id) && info.request in s.sent
    requires PbftTable.Takes(cfg, s.replicas[id].ctl, info.request, accepted)
    ensures Simulates(cfg, DeliverStep(cfg, s, id, info), PbftTable.DeliverStep(cfg, t, id, info))
  {
    var rep, cell := s.replicas[id], t.replicas[id];
    assert Matches(cfg, rep, cell);
    DeliverMatches(cfg, rep, cell, info, accepted);
    var o := C.Collect(SlotFor(cfg, rep, info.request.sn), info, QuorumOf(cfg));
    ReplaceSimulates(cfg, s, t, id, Handle(cfg, rep, info), PbftTable.Handle(cfg, cell, info),
                     Sends(info.request, o, id));
  }

  /** Any other message has no effect on either side. */
  lemma NotTaken(cfg: Config, s: Rings, t: PbftTable.Table, id: nat, info: RequestInfo, accepted: bool)
    requires WellFormed(cfg) && Shaped(cfg, s) && Simulates(cfg, s, t) && Correct(cfg, id) && info.request in s.sent
    requires TimelyStep(cfg, s, Deliver(id, info, accepted))
    requires Reaches(cfg, s.replicas[id].ctl, info.request, accepted)
    requires !PbftTable.Takes(cfg, s.replicas[id].ctl, info.request, accepted)
    ensures DeliverStep(cfg, s, id, info) == s
  {
    var rep := s.replicas[id];
    assert Matches(cfg, rep, t.replicas[id]);
    WhoAnswers(cfg.capacity, rep.pool, Done(rep.ctl), info.request.sn);
    RefusedChangesNothing(cfg, rep, info, id);
    assert s.replicas[id := rep] == s.replicas && s.sent + {} == s.sent;
  }

  lemma SameControl(cfg: Config, s: Rings, t: PbftTable.Table, id: nat)
    requires cfg.capacity >= 1 && Simulates(cfg, s, t) && id in s.replicas
    ensures s.replicas[id].ctl == t.replicas[id].ctl
  {
    assert Matches(cfg, s.replicas[id], t.replicas[id]);
  }

  lemma RingDelivers(cfg: Config, s: Rings, id: nat, info: RequestInfo, accepted: bool)
    requires WellFormed(cfg) && Shaped(cfg, s)
    ensures Step(cfg, s, Deliver(id, info, accepted)) ==
      if Correct(cfg, id) && info.request in s.sent && Reaches(cfg, s.replicas[id].ctl, info.request, accepted)
      then DeliverStep(cfg, s, id, info) else s
  {
  }

  /** What one step does to one correct replica with a ring. */
  lemma RingStepOf(cfg: Config, s: Rings, a: Action, r: nat)
    requires WellFormed(cfg) && Shaped(cfg, s) && Correct(cfg, r)
    ensures var rep := s.replicas[r];
      Step(cfg, s, a).replicas[r] ==
      match a
      case Deliver(id, info, accepted) =>
        if id == r && info.request in s.sent && Reaches(cfg, rep.ctl, info.request, accepted)
        then Handle(cfg, rep, info) else rep
      case Execute(id) => if id == r then ExecuteNext(cfg, rep) else rep
      case StartViewChange(id, stable, counter) =>
        if id == r then rep.(ctl := rep.ctl.(inViewChange := true)) else rep
      case _ => ControlStep(cfg, s, a).replicas[r]
  {
  }

  /** The ring mirrors the cells while `sn` is the next number to execute. */
  ghost predicate Mirrored(cfg: Config, cells: PbftTable.Cells, ring: Slots, sn: nat)
    requires cfg.capacity >= 1
  {
    && sn >= 1 && Mirrors(cfg.capacity, cfg.viewChange, ring, cells, sn - 1)
    && Untouched(cfg.capacity, cfg.viewChange, ring, sn - 1)
  }

  lemma OneMoreMirrored(cfg: Config, cells: PbftTable.Cells, ring: Slots, sn: nat)
    requires cfg.capacity >= 1 && Mirrored(cfg, cells, ring, sn)
    ensures Mirrored(cfg, cells, Advance(cfg.capacity, ring, sn, cfg.viewChange), sn + 1)
  {
    AdvanceMirrors(cfg.capacity, cfg.viewChange, ring, cells, sn - 1);
  }

  lemma AdvanceToMirrored(cfg: Config, cells: PbftTable.Cells, ring: Slots, lo: nat, hi: nat)
    requires cfg.capacity >= 1 && lo <= hi && Mirrored(cfg, cells, ring, lo)
    ensures Mirrored(cfg, cells, AdvanceTo(cfg.capacity, ring, lo, hi, cfg.viewChange), hi)
  {
    forall r: Slots, sn: nat | |r| == 2 * cfg.capacity && Mirrored(cfg, cells, r, sn)
      ensures Mirrored(cfg, cells, Advance(cfg.capacity, r, sn, cfg.viewChange), sn + 1)
    {
      OneMoreMirrored(cfg, cells, r, sn);
    }
    AdvanceKeeps(cfg.capacity, ring, lo, hi, cfg.viewChange, (r: Slots, sn: nat) => Mirrored(cfg, cells, r, sn));
  }

  lemma {:induction false} DrainGrows(e: E.State)
    ensures E.Drain(e).next >= e.next
    decreases |e.candidates|
  {
    if !(e.candidates == map[] || Least(e.candidates.Keys) != e.next) {
      DrainGrows(E.State(e.next + 1, e.candidates - {e.next}, e.delivered + [e.candidates[e.next]]));
    }
  }

  lemma OrderGrows(ctl: Control)
    ensures OrderNext(ctl).executor.next >= ctl.executor.next
  {
    if ctl.commitQueue != [] && ctl.executor.next <= ctl.commitQueue[0].sn {
      DrainGrows(E.AddNewData(ctl.executor, ctl.commitQueue[0]));
    }
  }

  lemma ExecuteMatches(cfg: Config, rep: Replica<Slots>, cell: Replica<PbftTable.Cells>)
    requires WellFormed(cfg) && Matches(cfg, rep, cell)
    ensures Matches(cfg, ExecuteNext(cfg, rep), cell.(ctl := OrderNext(cell.ctl)))
  {
    OrderGrows(rep.ctl);
    AdvanceToMirrored(cfg, cell.pool, rep.pool, rep.ctl.executor.next, OrderNext(rep.ctl).executor.next);
  }

  lemma SetControlSimulates(cfg: Config, s: Rings, t: PbftTable.Table, id: nat, ctl: Control, more: set<Request>)
    requires cfg.capacity >= 1 && Simulates(cfg, s, t) && id in s.replicas
    requires ctl.executor == s.replicas[id].ctl.executor
    ensures Simulates(cfg, SetControl(s, id, ctl, more), SetControl(t, id, ctl, more))
  {
    assert Matches(cfg, s.replicas[id], t.replicas[id]);
    ReplaceSimulates(cfg, s, t, id, s.replicas[id].(ctl := ctl), t.replicas[id].(ctl := ctl), more);
  }

  lemma ProposeSimulates(cfg: Config, s: Rings, t: PbftTable.Table, id: nat, hash: Digest)
    requires WellFormed(cfg) && Simulates(cfg, s, t) && id in s.replicas
    ensures Simulates(cfg, ProposeStep(cfg, s, id, hash), ProposeStep(cfg, t, id, hash))
  {
    assert Matches(cfg, s.replicas[id], t.replicas[id]);
    var step := NewRequest(cfg, id, s.replicas[id].ctl, hash);
    SetControlSimulates(cfg, s, t, id, step.0, step.1);
  }

  lemma SameExecuted(cfg: Config, s: Rings, t: PbftTable.Table, source: nat, checkpoint: nat)
    requires cfg.capacity >= 1 && Simulates(cfg, s, t)
    ensures HasExecuted(cfg, s, source, checkpoint) == HasExecuted(cfg, t, source, checkpoint)
  {
    if source in s.replicas {
      SameControl(cfg, s, t, source);
    }
  }

  lemma SameLent(cfg: Config, s: Rings, t: PbftTable.Table, id: nat, source: nat, lo: nat, hi: nat, batch: seq<Request>)
    requires cfg.capacity >= 1 && Simulates(cfg, s, t)
    ensures Lends(cfg, s, id, source, lo, hi, batch) == Lends(cfg, t, id, source, lo, hi, batch)
  {
    SameExecuted(cfg, s, t, source, hi);
    if source in s.replicas {
      SameControl(cfg, s, t, source);
    }
  }

  lemma SuspendSimulates(cfg: Config, s: Rings, t: PbftTable.Table, id: nat)
    requires WellFormed(cfg) && Simulates(cfg, s, t) && id in s.replicas
    ensures Simulates(cfg, Suspend(s, id), Suspend(t, id))
  {
    SameControl(cfg, s, t, id);
    SetControlSimulates(cfg, s, t, id, s.replicas[id].ctl.(inViewChange := true), {});
  }

  lemma ExecuteSimulates(cfg: Config, s: Rings, t: PbftTable.Table, id: nat)
    requires WellFormed(cfg) && Shaped(cfg, s) && Simulates(cfg, s, t) && id in s.replicas
    ensures Simulates(cfg, ExecuteStep(cfg, s, id), SetControl(t, id, OrderNext(t.replicas[id].ctl), {}))
  {
    var rep, cell := s.replicas[id], t.replicas[id];
    assert Matches(cfg, rep, cell);
    ExecuteMatches(cfg, rep, cell);
    ReplaceSimulates(cfg, s, t, id, ExecuteNext(cfg, rep), cell.(ctl := OrderNext(cell.ctl)), {});
    assert s.sent + {} == s.sent;
  }

  /** The view-change messages play no part in the relation. */
  lemma RecordsAside(cfg: Config, s: Rings, t: PbftTable.Table, records: set<Record>, more: set<Record>)
    requires cfg.capacity >= 1 && Simulates(cfg, s, t)
    ensures Simulates(cfg, s.(viewChanges := records), t.(viewChanges := more))
  {
  }

  lemma DeliverSimulates(cfg: Config, s: Rings, t: PbftTable.Table, id: nat, info: RequestInfo, accepted: bool)
    requires WellFormed(cfg) && Shaped(cfg, s) && Simulates(cfg, s, t)
    requires TimelyStep(cfg, s, Deliver(id, info, accepted))
    ensures var a := Deliver(id, info, accepted); Simulates(cfg, Step(cfg, s, a), PbftTable.Step(cfg, t, a))
  {
    RingDelivers(cfg, s, id, info, accepted);
    PbftTable.TableDelivers(cfg, t, id, info, accepted);
    if Correct(cfg, id) && info.request in s.sent {
      SameControl(cfg, s, t, id);
      if PbftTable.Takes(cfg, s.replicas[id].ctl, info.request, accepted) {
        TakenSimulates(cfg, s, t, id, info, accepted);
      } else if Reaches(cfg, s.replicas[id].ctl, info.request, accepted) {
        NotTaken(cfg, s, t, id, info, accepted);
      }
    }
  }

  lemma RingStarts(cfg: Config, s: Rings, id: nat, stable: nat, counter: nat)
    requires WellFormed(cfg) && Shaped(cfg, s)
    ensures Step(cfg, s, StartViewChange(id, stable, counter)) ==
      if Correct(cfg, id) then ViewChangeStep(cfg, s, id, stable, cfg.view + counter) else s
  {
  }

  lemma StartSimulates(cfg: Config, s: Rings, t: PbftTable.Table, id: nat, stable: nat, view: nat)
    requires WellFormed(cfg) && Shaped(cfg, s) && Simulates(cfg, s, t) && id in s.replicas
    ensures Simulates(cfg, ViewChangeStep(cfg, s, id, stable, view), Suspend(t, id))
  {
    SuspendSimulates(cfg, s, t, id);
    var s', t' := Suspend(s, id), Suspend(t, id);
    RecordsAside(cfg, s', t', ViewChangeStep(cfg, s, id, stable, view).viewChanges, t'.viewChanges);
  }

  lemma RingExecutes(cfg: Config, s: Rings, id: nat)
    requires WellFormed(cfg) && Shaped(cfg, s)
    ensures Step(cfg, s, Execute(id)) == if Correct(cfg, id) then ExecuteStep(cfg, s, id) else s
  {
  }

  lemma ExecuteAction(cfg: Config, s: Rings, t: PbftTable.Table, id: nat)
    requires WellFormed(cfg) && Shaped(cfg, s) && Simulates(cfg, s, t)
    ensures Simulates(cfg, Step(cfg, s, Execute(id)), PbftTable.Step(cfg, t, Execute(id)))
  {
    RingExecutes(cfg, s, id);
    PbftTable.TableExecutes(cfg, t, id);
    if Correct(cfg, id) {
      ExecuteSimulates(cfg, s, t, id);
    }
  }

  lemma StartAction(cfg: Config, s: Rings, t: PbftTable.Table, id: nat, stable: nat, counter: nat)
    requires WellFormed(cfg) && Shaped(cfg, s) && Simulates(cfg, s, t)
    ensures var a := StartViewChange(id, stable, counter); Simulates(cfg, Step(cfg, s, a), PbftTable.Step(cfg, t, a))
  {
    RingStarts(cfg, s, id, stable, counter);
    PbftTable.TableStarts(cfg, t, id, stable, counter);
    if Correct(cfg, id) {
      StartSimulates(cfg, s, t, id, stable, cfg.view + counter);
    }
  }

  lemma ProposeAction(cfg: Config, s: Rings, t: PbftTable.Table, id: nat, hash: Digest, accepted: bool)
    requires WellFormed(cfg) && Shaped(cfg, s) && Simulates(cfg, s, t)
    ensures var a := Propose(id, hash, accepted); Simulates(cfg, ControlStep(cfg, s, a), ControlStep(cfg, t, a))
  {
    if Correct(cfg, id) {
      ProposeSimulates(cfg, s, t, id, hash);
    }
  }

  lemma ResumeAction(cfg: Config, s: Rings, t: PbftTable.Table, id: nat, source: nat, checkpoint: nat)
    requires WellFormed(cfg) && Shaped(cfg, s) && Simulates(cfg, s, t)
    ensures var a := Resume(id, source, checkpoint); Simulates(cfg, ControlStep(cfg, s, a), ControlStep(cfg, t, a))
  {
    ResumeIs(cfg, s, id, source, checkpoint);
    ResumeIs(cfg, t, id, source, checkpoint);
    SameExecuted(cfg, s, t, source, checkpoint);
    if Correct(cfg, id) {
      SameControl(cfg, s, t, id);
      SetControlSimulates(cfg, s, t, id, s.replicas[id].ctl.(inViewChange := false, committable := checkpoint), {});
    }
  }

  lemma TransferAction(cfg: Config, s: Rings, t: PbftTable.Table, id: nat, source: nat, lo: nat, hi: nat,
                       batch: seq<Request>)
    requires WellFormed(cfg) && Shaped(cfg, s) && Simulates(cfg, s, t)
    ensures var a := Transfer(id, source, lo, hi, batch);
      Simulates(cfg, ControlStep(cfg, s, a), ControlStep(cfg, t, a))
  {
    TransferIs(cfg, s, id, source, lo, hi, batch);
    TransferIs(cfg, t, id, source, lo, hi, batch);
    SameLent(cfg, s, t, id, source, lo, hi, batch);
    if Correct(cfg, id) {
      SameControl(cfg, s, t, id);
      SetControlSimulates(cfg, s, t, id, Fetch(s.replicas[id].ctl, batch, hi), {});
    }
  }

  lemma FaultySendAction(cfg: Config, s: Rings, t: PbftTable.Table, msg: Request)
    requires WellFormed(cfg) && Simulates(cfg, s, t)
    ensures Simulates(cfg, ControlStep(cfg, s, FaultySend(msg)), ControlStep(cfg, t, FaultySend(msg)))
  {
  }

  lemma FaultyRecordAction(cfg: Config, s: Rings, t: PbftTable.Table, record: Record)
    requires WellFormed(cfg) && Simulates(cfg, s, t)
    ensures Simulates(cfg, ControlStep(cfg, s, FaultyViewChange(record)), ControlStep(cfg, t, FaultyViewChange(record)))
  {
    RecordsAside(cfg, s, t, s.viewChanges + {record}, t.viewChanges + {record});
  }

  lemma ControlSimulates(cfg: Config, s: Rings, t: PbftTable.Table, a: Action)
    requires WellFormed(cfg) && Shaped(cfg, s) && Simulates(cfg, s, t)
    requires !a.Deliver? && !a.Execute? && !a.StartViewChange?
    ensures Simulates(cfg, ControlStep(cfg, s, a), ControlStep(cfg, t, a))
  {
    match a
    case Propose(id, hash, accepted) => ProposeAction(cfg, s, t, id, hash, accepted);
    case Resume(id, source, checkpoint) => ResumeAction(cfg, s, t, id, source, checkpoint);
    case Transfer(id, source, lo, hi, batch) => TransferAction(cfg, s, t, id, source, lo, hi, batch);
    case FaultySend(msg) => FaultySendAction(cfg, s, t, msg);
    case FaultyViewChange(record) => FaultyRecordAction(cfg, s, t, record);
  }

  lemma RingControls(cfg: Config, s: Rings, a: Action)
    requires WellFormed(cfg) && Shaped(cfg, s) && !a.Deliver? && !a.Execute? && !a.StartViewChange?
    ensures Step(cfg, s, a) == ControlStep(cfg, s, a)
  {
  }

  lemma StepSimulates(cfg: Config, s: Rings, t: PbftTable.Table, a: Action)
    requires WellFormed(cfg) && Shaped(cfg, s) && Simulates(cfg, s, t) && TimelyStep(cfg, s, a)
    ensures Simulates(cfg, Step(cfg, s, a), PbftTable.Step(cfg, t, a))
  {
    match a
    case Deliver(id, info, accepted) => DeliverSimulates(cfg, s, t, id, info, accepted);
    case Execute(id) => ExecuteAction(cfg, s, t, id);
    case StartViewChange(id, stable, counter) => StartAction(cfg, s, t, id, stable, counter);
    case _ =>
      RingControls(cfg, s, a);
      PbftTable.TableControls(cfg, t, a);
      ControlSimulates(cfg, s, t, a);
  }

  /** In every timely run the replicas with rings do, step by step, what the replicas with tables do. */
  lemma {:induction false} RingRefinesTable(cfg: Config, actions: seq<Action>)
    requires WellFormed(cfg) && TimelyRun(cfg, actions)
    ensures Simulates(cfg, Run(cfg, actions), PbftTable.Run(cfg, actions))
  {
    if actions == [] {
      NewRingMirrors(cfg.capacity, cfg.viewChange);
    } else {
      var init, a := actions[..|actions| - 1], actions[|actions| - 1];
      RingRefinesTable(cfg, init);
      StepSimulates(cfg, Run(cfg, init), PbftTable.Run(cfg, init), a);
    }
  }

  lemma SentGrows(cfg: Config, s: Rings, a: Action)
    requires WellFormed(cfg) && Shaped(cfg, s)
    ensures s.sent <= Step(cfg, s, a).sent
  {
  }

  /** A run in which no number above `capacity` is ever mentioned is timely. */
  lemma {:induction false} SmallNumbersTimely(cfg: Config, actions: seq<Action>)
    requires WellFormed(cfg) && forall m :: m in Run(cfg, actions).sent ==> m.sn <= cfg.capacity
    ensures TimelyRun(cfg, actions)
  {
    if actions != [] {
      var init := actions[..|actions| - 1];
      SentGrows(cfg, Run(cfg, init), actions[|actions| - 1]);
      SmallNumbersTimely(cfg, init);
    }
  }

  /**
    * A number above the executed ones is issued exactly when it is in the window and the executed number fits in
    * 32 bits, and then its messages are timely at the primary.
    */
  lemma IssuedInWindow(nextSeq: nat, maxExecuted: nat, maxTxn: nat, capacity: nat)
    requires maxTxn < TWO32 && nextSeq <= MAX64 && capacity > 2 * maxTxn
    ensures var issued, low := AssignNextSeq(nextSeq, maxExecuted, maxTxn), maxExecuted % TWO32;
      && (issued.Some? <==> low <= nextSeq <= low + maxTxn)
      && (maxExecuted < nextSeq ==> (issued.Some? <==> maxExecuted < TWO32 && nextSeq <= maxExecuted + maxTxn))
      && (issued.Some? && maxExecuted <= nextSeq ==> issued.value == nextSeq && Timely(capacity, maxExecuted, nextSeq))
  {
    var low := maxExecuted % TWO32;
    assert maxExecuted < TWO32 ==> low == maxExecuted;
    assert maxExecuted >= TWO32 ==> low + TWO32 <= maxExecuted;
    if nextSeq >= low {
      assert (nextSeq - low) % (MAX64 + 1) == nextSeq - low;
    } else {
      assert (nextSeq - low) % (MAX64 + 1) == nextSeq - low + MAX64 + 1;
    }
  }
}
