/** The logs correct replicas hand to execution, in every run over rings: what is in them, with a correct primary. */
module PbftLog {
  import opened Messages
  import opened OrderedKeys
  import opened CollectorPool
  import opened CollectorSafety
  import opened Pbft
  import opened PbftRing
  import C = Collector
  import E = Executor

  // ----- everything handed to execution was proposed for its number

  /** Everything buffered or delivered is known, and sits under its own number. */
  ghost predicate ExecIn(e: E.State, known: iset<Request>) {
    && e.next == |e.delivered| + 1
    && (forall i :: 0 <= i < |e.delivered| ==> e.delivered[i] in known && e.delivered[i].sn == i + 1)
    && (forall n :: n in e.candidates ==> e.candidates[n] in known && e.candidates[n].sn == n)
  }

  lemma {:induction false} DrainIn(e: E.State, known: iset<Request>)
    requires ExecIn(e, known)
    ensures ExecIn(E.Drain(e), known)
    decreases |e.candidates|
  {
    if !(e.candidates == map[] || Least(e.candidates.Keys) != e.next) {
      DrainIn(E.State(e.next + 1, e.candidates - {e.next}, e.delivered + [e.candidates[e.next]]), known);
    }
  }

  lemma OrderIn(e: E.State, r: Request, known: iset<Request>)
    requires ExecIn(e, known) && r in known
    ensures ExecIn(E.Order(e, r), known)
  {
    if e.next <= r.sn {
      DrainIn(E.AddNewData(e, r), known);
    }
  }

  lemma ExecMore(e: E.State, known: iset<Request>, more: iset<Request>)
    requires ExecIn(e, known) && known <= more
    ensures ExecIn(e, more)
  {
  }

  /** The proposals of the primary for one number. */
  ghost function Proposals(cfg: Config, sent: set<Request>, sn: nat): set<Request> {
    set m | m in sent && m.kind == PrePrepare && m.view == cfg.view && m.sn == sn && m.sender == cfg.primary
  }

  /** The digest of the request was proposed for its number. */
  ghost predicate Backed(cfg: Config, sent: set<Request>, q: Request) {
    exists m :: m in Proposals(cfg, sent, q.sn) && m.hash == q.hash
  }

  /** Proposals, and fetched requests whose digests were proposed for their numbers. */
  ghost function Known(cfg: Config, sent: set<Request>, fetched: set<Request>): iset<Request> {
    iset q: Request | Backed(cfg, sent, q) && (q in fetched || q in Proposals(cfg, sent, q.sn))
  }

  ghost predicate SlotStored(cfg: Config, sent: set<Request>, c: C.State) {
    Shape(c) && StoredIn(c.main, c.others, Proposals(cfg, sent, c.sn))
  }

  ghost predicate PoolStored(cfg: Config, sent: set<Request>, pool: Slots) {
    forall i :: 0 <= i < |pool| ==> SlotStored(cfg, sent, pool[i])
  }

  ghost predicate QueueOk(cfg: Config, sent: set<Request>, ctl: Control) {
    && (forall q :: q in ctl.commitQueue ==> q in Known(cfg, sent, ctl.fetched))
    && ExecIn(ctl.executor, Known(cfg, sent, ctl.fetched))
  }

  ghost predicate LogOk(cfg: Config, sent: set<Request>, rep: Replica<Slots>) {
    PoolStored(cfg, sent, rep.pool) && QueueOk(cfg, sent, rep.ctl)
  }

  ghost predicate LogsOk(cfg: Config, s: Rings) {
    forall r :: r in s.replicas && Correct(cfg, r) ==> LogOk(cfg, s.sent, s.replicas[r])
  }

  /** More messages sent leave a log sound. */
  lemma LogFrame(cfg: Config, sent: set<Request>, more: set<Request>, rep: Replica<Slots>)
    requires LogOk(cfg, sent, rep)
    ensures LogOk(cfg, sent + more, rep)
  {
    forall i | 0 <= i < |rep.pool| ensures SlotStored(cfg, sent + more, rep.pool[i]) {
      assert SlotStored(cfg, sent, rep.pool[i]);
      assert Proposals(cfg, sent, rep.pool[i].sn) <= Proposals(cfg, sent + more, rep.pool[i].sn);
    }
    KnownMore(cfg, sent, sent + more, rep.ctl.fetched, rep.ctl.fetched);
    ExecMore(rep.ctl.executor, Known(cfg, sent, rep.ctl.fetched), Known(cfg, sent + more, rep.ctl.fetched));
  }

  lemma KnownMore(cfg: Config, sent: set<Request>, sent': set<Request>, fetched: set<Request>, fetched': set<Request>)
    requires sent <= sent' && fetched <= fetched'
    ensures Known(cfg, sent, fetched) <= Known(cfg, sent', fetched')
  {
    forall q | q in Known(cfg, sent, fetched) ensures q in Known(cfg, sent', fetched') {
      assert Proposals(cfg, sent, q.sn) <= Proposals(cfg, sent', q.sn);
      var m :| m in Proposals(cfg, sent, q.sn) && m.hash == q.hash;
      assert m in Proposals(cfg, sent', q.sn);
    }
  }

  /** A message: the slot stays sound, and only a stored proposal is passed on. */
  lemma SlotStep(cfg: Config, sent: set<Request>, c: C.State, info: RequestInfo, quorum: nat)
    requires SlotStored(cfg, sent, c) && info.request in sent && info.request.view == cfg.view
    requires info.request.kind == PrePrepare ==> info.request.sender == cfg.primary
    ensures var o := C.Collect(c, info, quorum);
      SlotStored(cfg, sent, o.state) && (o.handed.Some? ==> o.handed.value in Proposals(cfg, sent, o.handed.value.sn))
  {
    CollectShape(c, info, quorum);
    CollectStored(c, info, quorum, Proposals(cfg, sent, c.sn));
    CollectKeepsNumber(c, info, quorum);
  }

  lemma HandleKeepsLog(cfg: Config, sent: set<Request>, rep: Replica<Slots>, info: RequestInfo)
    requires WellFormed(cfg) && |rep.pool| == 2 * cfg.capacity && LogOk(cfg, sent, rep)
    requires info.request in sent && info.request.view == cfg.view
    requires info.request.kind == PrePrepare ==> info.request.sender == cfg.primary
    ensures LogOk(cfg, sent, Handle(cfg, rep, info))
  {
    var c := SlotFor(cfg, rep, info.request.sn);
    SlotStep(cfg, sent, c, info, QuorumOf(cfg));
    var o := C.Collect(c, info, QuorumOf(cfg));
    assert o.handed.Some? ==> o.handed.value in Known(cfg, sent, rep.ctl.fetched);
  }

  lemma {:induction false} AdvanceKeepsStored(cfg: Config, sent: set<Request>, pool: Slots, lo: nat, hi: nat)
    requires cfg.capacity >= 1 && |pool| == 2 * cfg.capacity && PoolStored(cfg, sent, pool)
    ensures PoolStored(cfg, sent, AdvanceTo(cfg.capacity, pool, lo, hi, cfg.viewChange))
    decreases hi
  {
    if lo < hi {
      AdvanceKeepsStored(cfg, sent, pool, lo, hi - 1);
    }
  }

  lemma ExecuteKeepsLog(cfg: Config, sent: set<Request>, rep: Replica<Slots>)
    requires WellFormed(cfg) && |rep.pool| == 2 * cfg.capacity && LogOk(cfg, sent, rep)
    ensures LogOk(cfg, sent, ExecuteNext(cfg, rep))
  {
    AdvanceKeepsStored(cfg, sent, rep.pool, rep.ctl.executor.next, OrderNext(rep.ctl).executor.next);
    if rep.ctl.commitQueue != [] {
      OrderIn(rep.ctl.executor, rep.ctl.commitQueue[0], Known(cfg, sent, rep.ctl.fetched));
    }
  }

  /** The fetched requests carry the numbers that were asked for. */
  predicate InSequence(a: Action) {
    a.Transfer? ==> forall k :: 0 <= k < |a.batch| ==> a.batch[k].sn == a.lo + 1 + k
  }

  /** A batch with the digests of part of a sound log, under the numbers of that part, is known. */
  lemma BatchKnown(cfg: Config, sent: set<Request>, ctl: Control, lo: nat, hi: nat, batch: seq<Request>,
                   fetched: set<Request>)
    requires QueueOk(cfg, sent, ctl) && lo <= hi <= |ctl.executor.delivered|
    requires SameDigests(batch, ctl.executor.delivered[lo..hi]) && (forall q :: q in batch ==> q in fetched)
    requires forall k :: 0 <= k < |batch| ==> batch[k].sn == lo + 1 + k
    ensures forall q :: q in batch ==> q in Known(cfg, sent, fetched)
  {
    forall q | q in batch ensures q in Known(cfg, sent, fetched) {
      var k :| 0 <= k < |batch| && batch[k] == q;
      var p := ctl.executor.delivered[lo + k];
      assert ctl.executor.delivered[lo..hi][k] == p && p in Known(cfg, sent, ctl.fetched);
      assert q.hash == p.hash && q.sn == p.sn;
    }
  }

  lemma QueueFetched(cfg: Config, sent: set<Request>, ctl: Control, batch: seq<Request>, hi: nat)
    requires QueueOk(cfg, sent, ctl)
    requires forall q :: q in batch ==> q in Known(cfg, sent, Fetch(ctl, batch, hi).fetched)
    ensures QueueOk(cfg, sent, Fetch(ctl, batch, hi))
  {
    var ctl' := Fetch(ctl, batch, hi);
    KnownMore(cfg, sent, sent, ctl.fetched, ctl'.fetched);
    ExecMore(ctl.executor, Known(cfg, sent, ctl.fetched), Known(cfg, sent, ctl'.fetched));
  }

  /** A control step: queues grow only by what a correct replica has delivered. */
  lemma ControlKeepsLog(cfg: Config, s: Rings, a: Action, r: nat)
    requires WellFormed(cfg) && Shaped(cfg, s) && LogsOk(cfg, s) && Correct(cfg, r) && InSequence(a)
    ensures LogOk(cfg, s.sent, ControlStep(cfg, s, a).replicas[r])
  {
    assert LogOk(cfg, s.sent, s.replicas[r]);
    ControlOf(cfg, s, a, r);
    if a.Transfer? && a.id == r && Lends(cfg, s, a.id, a.source, a.lo, a.hi, a.batch) {
      assert LogOk(cfg, s.sent, s.replicas[a.source]);
      var ctl := s.replicas[r].ctl;
      BatchKnown(cfg, s.sent, s.replicas[a.source].ctl, a.lo, a.hi, a.batch, Fetch(ctl, a.batch, a.hi).fetched);
      QueueFetched(cfg, s.sent, ctl, a.batch, a.hi);
    }
  }

  lemma StepKeepsLog(cfg: Config, s: Rings, a: Action, r: nat)
    requires WellFormed(cfg) && Shaped(cfg, s) && LogsOk(cfg, s) && Correct(cfg, r) && InSequence(a)
    ensures LogOk(cfg, s.sent, Step(cfg, s, a).replicas[r])
  {
    assert LogOk(cfg, s.sent, s.replicas[r]);
    RingStepOf(cfg, s, a, r);
    match a
    case Deliver(id, info, accepted) =>
      if r == id && info.request in s.sent && Reaches(cfg, s.replicas[id].ctl, info.request, accepted) {
        HandleKeepsLog(cfg, s.sent, s.replicas[r], info);
      }
    case Execute(id) => ExecuteKeepsLog(cfg, s.sent, s.replicas[r]);
    case StartViewChange(id, stable, counter) =>
    case _ => ControlKeepsLog(cfg, s, a, r);
  }

  lemma StepKeepsLogs(cfg: Config, s: Rings, a: Action)
    requires WellFormed(cfg) && Shaped(cfg, s) && LogsOk(cfg, s) && InSequence(a)
    ensures LogsOk(cfg, Step(cfg, s, a))
  {
    var s' := Step(cfg, s, a);
    SentGrows(cfg, s, a);
    assert s'.sent == s.sent + s'.sent;
    forall r | r in s'.replicas && Correct(cfg, r) ensures LogOk(cfg, s'.sent, s'.replicas[r]) {
      StepKeepsLog(cfg, s, a, r);
      LogFrame(cfg, s.sent, s'.sent, s'.replicas[r]);
    }
  }

  lemma {:induction false} LogsAlwaysOk(cfg: Config, actions: seq<Action>)
    requires WellFormed(cfg) && forall a :: a in actions ==> InSequence(a)
    ensures LogsOk(cfg, Run(cfg, actions))
  {
    if actions != [] {
      assert actions[|actions| - 1] in actions;
      var init, a := actions[..|actions| - 1], actions[|actions| - 1];
      LogsAlwaysOk(cfg, init);
      StepKeepsLogs(cfg, Run(cfg, init), a);
    }
  }

  function Delivered(s: Rings, r: nat): seq<Request>
    requires r in s.replicas
  {
    s.replicas[r].ctl.executor.delivered
  }

  /** Position i of the log holds a request of the replica's own, not one that came by state transfer. */
  ghost predicate Own(s: Rings, r: nat, i: nat)
    requires r in s.replicas
  {
    i < |Delivered(s, r)| && Delivered(s, r)[i] !in s.replicas[r].ctl.fetched
  }

  /**
    * For any primary, in every run whose fetched requests carry the numbers asked for: the digest at position i of a
    * correct replica's log was proposed for number i + 1, and a request of its own is that proposal.
    */
  lemma DeliveredWasProposed(cfg: Config, actions: seq<Action>, r: nat, i: nat) returns (m: Request)
    requires WellFormed(cfg) && Correct(cfg, r) && i < |Delivered(Run(cfg, actions), r)|
    requires forall a :: a in actions ==> InSequence(a)
    ensures m in Proposals(cfg, Run(cfg, actions).sent, i + 1) && m.hash == Delivered(Run(cfg, actions), r)[i].hash
    ensures Own(Run(cfg, actions), r, i) ==> m == Delivered(Run(cfg, actions), r)[i]
  {
    LogsAlwaysOk(cfg, actions);
    var s := Run(cfg, actions);
    assert LogOk(cfg, s.sent, s.replicas[r]);
    var q := Delivered(s, r)[i];
    if Own(s, r, i) {
      m := q;
    } else {
      m :| m in Proposals(cfg, s.sent, q.sn) && m.hash == q.hash;
    }
  }

  // ----- a correct primary

  predicate FromPrimary(cfg: Config, m: Request) {
    m.kind == PrePrepare && m.sender == cfg.primary
  }

  /** A correct primary proposes each number once, in increasing order. */
  ghost predicate PrimaryOnce(cfg: Config, s: Rings)
    requires cfg.primary in s.replicas
  {
    && (forall m :: m in s.sent && FromPrimary(cfg, m) ==> m.sn < s.replicas[cfg.primary].ctl.nextSeq)
    && (forall m, m' :: m in s.sent && m' in s.sent && FromPrimary(cfg, m) && FromPrimary(cfg, m') && m.sn == m'.sn ==>
          m == m')
  }

  /** Delivering a message sends no proposal and takes no number. */
  lemma DeliverKeepsPrimary(cfg: Config, s: Rings, id: nat, info: RequestInfo)
    requires WellFormed(cfg) && Shaped(cfg, s) && PrimaryOnce(cfg, s) && Correct(cfg, id)
    ensures PrimaryOnce(cfg, DeliverStep(cfg, s, id, info))
  {
    var s' := DeliverStep(cfg, s, id, info);
    assert forall m :: m in s'.sent && FromPrimary(cfg, m) ==> m in s.sent;
    assert s'.replicas[cfg.primary].ctl.nextSeq == s.replicas[cfg.primary].ctl.nextSeq;
  }

  lemma ProposeKeepsPrimary(cfg: Config, s: Rings, id: nat, hash: Digest)
    requires WellFormed(cfg) && Shaped(cfg, s) && Correct(cfg, cfg.primary) && PrimaryOnce(cfg, s) && Correct(cfg, id)
    ensures PrimaryOnce(cfg, ProposeStep(cfg, s, id, hash))
  {
    var step := NewRequest(cfg, id, s.replicas[id].ctl, hash);
    assert step.0.nextSeq >= s.replicas[id].ctl.nextSeq;
    assert forall q :: q in step.1 ==>
      id == cfg.primary && q.kind == PrePrepare && q.sn == s.replicas[id].ctl.nextSeq && step.0.nextSeq == q.sn + 1;
  }

  /** Steps that send no proposal of the primary and leave its counter alone. */
  lemma QuietKeepsPrimary(cfg: Config, s: Rings, s': Rings)
    requires cfg.primary in s.replicas && cfg.primary in s'.replicas && PrimaryOnce(cfg, s)
    requires forall m :: m in s'.sent && FromPrimary(cfg, m) ==> m in s.sent
    requires s'.replicas[cfg.primary].ctl.nextSeq == s.replicas[cfg.primary].ctl.nextSeq
    ensures PrimaryOnce(cfg, s')
  {
  }

  lemma ControlIsQuiet(cfg: Config, s: Rings, a: Action)
    requires WellFormed(cfg) && Shaped(cfg, s) && Correct(cfg, cfg.primary) && !a.Propose?
    ensures var s' := ControlStep(cfg, s, a);
      && (forall m :: m in s'.sent && FromPrimary(cfg, m) ==> m in s.sent)
      && s'.replicas[cfg.primary].ctl.nextSeq == s.replicas[cfg.primary].ctl.nextSeq
  {
  }

  lemma StepKeepsPrimary(cfg: Config, s: Rings, a: Action)
    requires WellFormed(cfg) && Shaped(cfg, s) && Correct(cfg, cfg.primary) && PrimaryOnce(cfg, s)
    ensures PrimaryOnce(cfg, Step(cfg, s, a))
  {
    match a
    case Deliver(id, info, accepted) =>
      RingDelivers(cfg, s, id, info, accepted);
      if Correct(cfg, id) {
        DeliverKeepsPrimary(cfg, s, id, info);
      }
    case Propose(id, hash, accepted) =>
      if accepted && Correct(cfg, id) {
        ProposeKeepsPrimary(cfg, s, id, hash);
      }
    case Execute(id) => QuietKeepsPrimary(cfg, s, Step(cfg, s, a));
    case StartViewChange(id, stable, counter) =>
      RingStarts(cfg, s, id, stable, counter);
      QuietKeepsPrimary(cfg, s, Step(cfg, s, a));
    case _ =>
      ControlIsQuiet(cfg, s, a);
      QuietKeepsPrimary(cfg, s, ControlStep(cfg, s, a));
  }

  lemma {:induction false} PrimaryAlwaysOnce(cfg: Config, actions: seq<Action>)
    requires WellFormed(cfg) && Correct(cfg, cfg.primary)
    ensures PrimaryOnce(cfg, Run(cfg, actions))
  {
    if actions != [] {
      PrimaryAlwaysOnce(cfg, actions[..|actions| - 1]);
      StepKeepsPrimary(cfg, Run(cfg, actions[..|actions| - 1]), actions[|actions| - 1]);
    }
  }

  function DigestsOf(log: seq<Request>): (ds: seq<Digest>)
    ensures |ds| == |log| && forall i :: 0 <= i < |log| ==> ds[i] == log[i].hash
  {
    seq(|log|, i requires 0 <= i < |log| => log[i].hash)
  }

  /**
    * Replicated log. With a correct primary and up to f faulty backups, in every run whose fetched requests carry the
    * numbers asked for, early messages, view changes and state transfer included: one of the digest sequences two
    * correct replicas have handed to execution is a prefix of the other, and what they did not fetch are the same
    * requests.
    */
  lemma ReplicatedLog(cfg: Config, actions: seq<Action>, r1: nat, r2: nat)
    requires WellFormed(cfg) && Correct(cfg, cfg.primary) && Correct(cfg, r1) && Correct(cfg, r2)
    requires forall a :: a in actions ==> InSequence(a)
    ensures var s := Run(cfg, actions);
      var a, b := Delivered(s, r1), Delivered(s, r2);
      && (DigestsOf(a) <= DigestsOf(b) || DigestsOf(b) <= DigestsOf(a))
      && forall i :: 0 <= i < |a| && i < |b| && Own(s, r1, i) && Own(s, r2, i) ==> a[i] == b[i]
  {
    PrimaryAlwaysOnce(cfg, actions);
    var s := Run(cfg, actions);
    var a, b := Delivered(s, r1), Delivered(s, r2);
    forall i | 0 <= i < |a| && i < |b|
      ensures a[i].hash == b[i].hash && (Own(s, r1, i) && Own(s, r2, i) ==> a[i] == b[i])
    {
      var m1 := DeliveredWasProposed(cfg, actions, r1, i);
      var m2 := DeliveredWasProposed(cfg, actions, r2, i);
      assert m1 == m2;
    }
  }
}
