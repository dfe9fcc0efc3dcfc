/**
  * The ordering protocol within one view: what replicas do apart from where they keep their collectors.
  * Correct replicas run the message handlers, faulty ones send anything under their own id, and the network
  * is the set of messages ever sent.
  */
module Pbft {
  import opened Messages
  import opened Quorum
  import opened ViewChange
  import opened OrderedKeys
  import C = Collector
  import E = Executor

  datatype Config = Config(
    replicas: set<nat>, faulty: set<nat>, primary: nat, view: nat, viewChange: bool, maxTxn: nat, capacity: nat)

  predicate WellFormed(cfg: Config) {
    && cfg.replicas != {} && |cfg.replicas| % 3 == 1
    && cfg.faulty <= cfg.replicas && |cfg.faulty| <= MaxMalicious(|cfg.replicas|)
    && cfg.primary in cfg.replicas && cfg.capacity >= 1
  }

  function QuorumOf(cfg: Config): nat
    requires WellFormed(cfg)
  {
    MinDataReceive(|cfg.replicas|)
  }

  predicate Correct(cfg: Config, r: nat) {
    r in cfg.replicas && r !in cfg.faulty
  }

  /**
    * A replica apart from its collectors: the primary's counter, the prepared mark, the ordering stage of the
    * executor, what came by state transfer, and the last checkpoint seen to be committable.
    */
  datatype Control = Control(
    nextSeq: nat, highestPrepared: nat, inViewChange: bool,
    commitQueue: seq<Request>, executor: E.State, fetched: set<Request>, committable: nat)

  /** `pool` holds the collectors. */
  datatype Replica<+P> = Replica(pool: P, ctl: Control)

  datatype Record = Record(sender: nat, msg: ViewChangeMessage)

  datatype System<+P> = System(replicas: map<nat, Replica<P>>, sent: set<Request>, viewChanges: set<Record>)

  /** `accepted` stands for signature, payload and duplicate checks, whose outcome is arbitrary. */
  datatype Action =
    | Propose(id: nat, hash: Digest, accepted: bool)
    | Deliver(id: nat, info: RequestInfo, accepted: bool)
    | Execute(id: nat)
    | StartViewChange(id: nat, stable: nat, counter: nat)
    | Resume(id: nat, source: nat, checkpoint: nat)
    | Transfer(id: nat, source: nat, lo: nat, hi: nat, batch: seq<Request>)
    | FaultySend(msg: Request)
    | FaultyViewChange(record: Record)

  const TWO32: nat := 0x1_0000_0000

  /** `AssignNextSeq`: 32-bit executed number, 64-bit unsigned difference. */
  function AssignNextSeq(nextSeq: nat, maxExecuted: nat, maxTxn: nat): Option<nat> {
    if (nextSeq - maxExecuted % TWO32) % (MAX64 + 1) > maxTxn then None else Some(nextSeq)
  }

  /** `GetMaxPendingExecutedSeq`: the last number handed to execution. */
  function Done(ctl: Control): nat {
    if ctl.executor.next == 0 then 0 else ctl.executor.next - 1
  }

  /** `IsValidMsg`: the current view, and not behind execution. */
  predicate IsValidMsg(cfg: Config, ctl: Control, m: Request) {
    m.view == cfg.view && m.sn >= Done(ctl)
  }

  /** The message gets as far as the collector pool. */
  predicate Reaches(cfg: Config, ctl: Control, m: Request, accepted: bool) {
    && accepted && !ctl.inViewChange && IsValidMsg(cfg, ctl, m)
    && (m.kind == PrePrepare ==> m.sender == cfg.primary)
  }

  /** The vote a state change sends out. */
  function Broadcast(m: Request, r: nat): set<Request> {
    match m.kind
    case PrePrepare => {Request(Prepare, m.view, m.sn, m.hash, r)}
    case Prepare => {Request(Commit, m.view, m.sn, m.hash, r)}
    case Commit => {}
  }

  /** What the handlers do with the collector's answer. */
  function React(ctl: Control, m: Request, o: C.Outcome): Control {
    ctl.(commitQueue := ctl.commitQueue + if o.handed.Some? then [o.handed.value] else [],
         highestPrepared :=
           if o.ret >= 0 && o.changed && m.kind == Prepare then Max(ctl.highestPrepared, m.sn) else ctl.highestPrepared)
  }

  function Sends(m: Request, o: C.Outcome, id: nat): set<Request> {
    if o.ret >= 0 && o.changed then Broadcast(m, id) else {}
  }

  /** `ProcessNewRequest` at the primary. */
  function NewRequest(cfg: Config, id: nat, ctl: Control, hash: Digest): (Control, set<Request>) {
    if id != cfg.primary || ctl.inViewChange then (ctl, {})
    else
      match AssignNextSeq(ctl.nextSeq, (ctl.executor.next + MAX64) % (MAX64 + 1), cfg.maxTxn)
      case None => (ctl, {})
      case Some(sn) => (ctl.(nextSeq := ctl.nextSeq + 1), {Request(PrePrepare, cfg.view, sn, hash, id)})
  }

  function OrderNext(ctl: Control): Control {
    if ctl.commitQueue == [] then ctl
    else ctl.(commitQueue := ctl.commitQueue[1..], executor := E.Order(ctl.executor, ctl.commitQueue[0]))
  }

  /** State transfer: the fetched batch goes to the executor, and its end becomes the prepared mark. */
  function Fetch(ctl: Control, batch: seq<Request>, hi: nat): Control {
    ctl.(commitQueue := ctl.commitQueue + batch, highestPrepared := hi, fetched := ctl.fetched + set q | q in batch)
  }

  predicate SameDigests(a: seq<Request>, b: seq<Request>) {
    |a| == |b| && forall i :: 0 <= i < |a| ==> a[i].hash == b[i].hash
  }

  /** f + 1 votes for a checkpoint include one of a correct replica, which has executed that far. */
  predicate HasExecuted<P>(cfg: Config, s: System<P>, source: nat, checkpoint: nat) {
    Correct(cfg, source) && source in s.replicas && checkpoint <= |s.replicas[source].ctl.executor.delivered|
  }

  /**
    * Whoever answers the fetch: the digests of the batch are those a correct replica has executed. Nothing else
    * of the requests, their numbers included, is looked at.
    */
  predicate Lends<P>(cfg: Config, s: System<P>, id: nat, source: nat, lo: nat, hi: nat, batch: seq<Request>) {
    && Correct(cfg, id) && id in s.replicas && HasExecuted(cfg, s, source, hi) && lo <= hi
    && SameDigests(batch, s.replicas[source].ctl.executor.delivered[lo..hi])
  }

  /** `MonitoringCheckpointState` returns to the old view when another checkpoint has become committable. */
  predicate Resumes<P>(cfg: Config, s: System<P>, id: nat, source: nat, checkpoint: nat) {
    && Correct(cfg, id) && id in s.replicas && HasExecuted(cfg, s, source, checkpoint)
    && checkpoint > 0 && checkpoint != s.replicas[id].ctl.committable
  }

  function SetControl<P>(s: System<P>, id: nat, ctl: Control, more: set<Request>): System<P>
    requires id in s.replicas
  {
    s.(replicas := s.replicas[id := s.replicas[id].(ctl := ctl)], sent := s.sent + more)
  }

  function ProposeStep<P>(cfg: Config, s: System<P>, id: nat, hash: Digest): System<P>
    requires id in s.replicas
  {
    var (ctl, out) := NewRequest(cfg, id, s.replicas[id].ctl, hash);
    SetControl(s, id, ctl, out)
  }

  function ResumeStep<P>(s: System<P>, id: nat, checkpoint: nat): System<P>
    requires id in s.replicas
  {
    SetControl(s, id, s.replicas[id].ctl.(inViewChange := false, committable := checkpoint), {})
  }

  function Suspend<P>(s: System<P>, id: nat): System<P>
    requires id in s.replicas
  {
    SetControl(s, id, s.replicas[id].ctl.(inViewChange := true), {})
  }

  /** The steps that leave every collector alone; an action that is not possible changes nothing. */
  function ControlStep<P>(cfg: Config, s: System<P>, a: Action): (s': System<P>)
    ensures s'.replicas.Keys == s.replicas.Keys
  {
    match a
    case Propose(id, hash, accepted) =>
      if accepted && Correct(cfg, id) && id in s.replicas then ProposeStep(cfg, s, id, hash) else s
    case Resume(id, source, checkpoint) =>
      if Resumes(cfg, s, id, source, checkpoint) then ResumeStep(s, id, checkpoint) else s
    case Transfer(id, source, lo, hi, batch) =>
      if Lends(cfg, s, id, source, lo, hi, batch)
      then SetControl(s, id, Fetch(s.replicas[id].ctl, batch, hi), {}) else s
    case FaultySend(msg) => if msg.sender in cfg.faulty then s.(sent := s.sent + {msg}) else s
    case FaultyViewChange(record) =>
      if record.sender in cfg.faulty then s.(viewChanges := s.viewChanges + {record}) else s
    case _ => s
  }

  lemma ResumeIs<P>(cfg: Config, s: System<P>, id: nat, source: nat, checkpoint: nat)
    ensures ControlStep(cfg, s, Resume(id, source, checkpoint)) ==
      if Resumes(cfg, s, id, source, checkpoint) then ResumeStep(s, id, checkpoint) else s
  {
  }

  lemma TransferIs<P>(cfg: Config, s: System<P>, id: nat, source: nat, lo: nat, hi: nat, batch: seq<Request>)
    ensures ControlStep(cfg, s, Transfer(id, source, lo, hi, batch)) ==
      if Lends(cfg, s, id, source, lo, hi, batch)
      then SetControl(s, id, Fetch(s.replicas[id].ctl, batch, hi), {}) else s
  {
  }

  /** A control step seen from a correct replica: its queue grows only by what it fetches. */
  lemma ControlOf<P>(cfg: Config, s: System<P>, a: Action, r: nat)
    requires Correct(cfg, r) && r in s.replicas
    ensures var rep, rep' := s.replicas[r], ControlStep(cfg, s, a).replicas[r];
      && rep'.pool == rep.pool && rep'.ctl.executor == rep.ctl.executor
      && (if a.Transfer? && a.id == r && Lends(cfg, s, a.id, a.source, a.lo, a.hi, a.batch)
          then rep'.ctl == Fetch(rep.ctl, a.batch, a.hi)
          else rep'.ctl.commitQueue == rep.ctl.commitQueue && rep'.ctl.fetched == rep.ctl.fetched)
  {
  }

  function InitialControl(): Control {
    Control(1, 0, false, [], E.INITIAL, {}, 0)
  }

  function Initial<P>(cfg: Config, pool: P): System<P> {
    System(map r | r in cfg.replicas :: Replica(pool, InitialControl()), {}, {})
  }
}
