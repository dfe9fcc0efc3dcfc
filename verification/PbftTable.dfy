/**
  * The protocol with an unbounded map of collectors that takes messages up to `capacity` numbers ahead of
  * execution: the specification of the protocol over the ring of collectors.
  */
module PbftTable {
  import opened Messages
  import opened Pbft
  import C = Collector

  type Cells = map<nat, C.State>

  type Table = System<Cells>

  function Collecting(cfg: Config, rep: Replica<Cells>, sn: nat): C.State {
    if sn in rep.pool then rep.pool[sn] else C.Fresh(sn, cfg.viewChange)
  }

  predicate Takes(cfg: Config, ctl: Control, m: Request, accepted: bool) {
    Reaches(cfg, ctl, m, accepted) && m.sn <= Done(ctl) + cfg.capacity
  }

  function Handle(cfg: Config, rep: Replica<Cells>, info: RequestInfo): Replica<Cells>
    requires WellFormed(cfg)
  {
    var o := C.Collect(Collecting(cfg, rep, info.request.sn), info, QuorumOf(cfg));
    Replica(rep.pool[info.request.sn := o.state], React(rep.ctl, info.request, o))
  }

  function DeliverStep(cfg: Config, s: Table, id: nat, info: RequestInfo): Table
    requires WellFormed(cfg) && id in s.replicas
  {
    var o := C.Collect(Collecting(cfg, s.replicas[id], info.request.sn), info, QuorumOf(cfg));
    s.(replicas := s.replicas[id := Handle(cfg, s.replicas[id], info)], sent := s.sent + Sends(info.request, o, id))
  }

  function Step(cfg: Config, s: Table, a: Action): (s': Table)
    requires WellFormed(cfg)
    ensures s'.replicas.Keys == s.replicas.Keys
  {
    match a
    case Deliver(id, info, accepted) =>
      if Correct(cfg, id) && id in s.replicas && info.request in s.sent
         && Takes(cfg, s.replicas[id].ctl, info.request, accepted)
      then DeliverStep(cfg, s, id, info) else s
    case Execute(id) =>
      if Correct(cfg, id) && id in s.replicas then SetControl(s, id, OrderNext(s.replicas[id].ctl), {}) else s
    case StartViewChange(id, stable, counter) =>
      if Correct(cfg, id) && id in s.replicas then Suspend(s, id) else s
    case _ => ControlStep(cfg, s, a)
  }

  /** The system after a run, given as the list of its actions. */
  function Run(cfg: Config, actions: seq<Action>): (s: Table)
    requires WellFormed(cfg)
    ensures s.replicas.Keys == cfg.replicas
  {
    if actions == [] then Initial(cfg, map[])
    else Step(cfg, Run(cfg, actions[..|actions| - 1]), actions[|actions| - 1])
  }

  // ----- the steps, one by one

  lemma TableDelivers(cfg: Config, t: Table, id: nat, info: RequestInfo, accepted: bool)
    requires WellFormed(cfg) && t.replicas.Keys == cfg.replicas
    ensures Step(cfg, t, Deliver(id, info, accepted)) ==
      if Correct(cfg, id) && info.request in t.sent && Takes(cfg, t.replicas[id].ctl, info.request, accepted)
      then DeliverStep(cfg, t, id, info) else t
  {
  }

  /** What one step does to one correct replica. */
  lemma TableStepOf(cfg: Config, t: Table, a: Action, r: nat)
    requires WellFormed(cfg) && t.replicas.Keys == cfg.replicas && Correct(cfg, r)
    ensures var rep := t.replicas[r];
      Step(cfg, t, a).replicas[r] ==
      match a
      case Deliver(id, info, accepted) =>
        if id == r && info.request in t.sent && Takes(cfg, rep.ctl, info.request, accepted)
        then Handle(cfg, rep, info) else rep
      case Execute(id) => if id == r then rep.(ctl := OrderNext(rep.ctl)) else rep
      case StartViewChange(id, stable, counter) =>
        if id == r then rep.(ctl := rep.ctl.(inViewChange := true)) else rep
      case _ => ControlStep(cfg, t, a).replicas[r]
  {
  }

  lemma TableStarts(cfg: Config, t: Table, id: nat, stable: nat, counter: nat)
    requires WellFormed(cfg) && t.replicas.Keys == cfg.replicas
    ensures Step(cfg, t, StartViewChange(id, stable, counter)) ==
      if Correct(cfg, id) then Suspend(t, id) else t
  {
  }

  lemma TableControls(cfg: Config, t: Table, a: Action)
    requires WellFormed(cfg) && !a.Deliver? && !a.Execute? && !a.StartViewChange?
    ensures Step(cfg, t, a) == ControlStep(cfg, t, a)
  {
  }

  lemma TableExecutes(cfg: Config, t: Table, id: nat)
    requires WellFormed(cfg) && t.replicas.Keys == cfg.replicas
    ensures Step(cfg, t, Execute(id)) ==
      if Correct(cfg, id) then SetControl(t, id, OrderNext(t.replicas[id].ctl), {}) else t
  {
  }
}
