/** Which request a correct replica executes in a timely run, read off the messages it took; for any primary. */
module PbftExecution {
  import opened Messages
  import opened CollectorSafety
  import opened Pbft
  import opened PbftTable
  import opened PbftSafety
  import opened PbftAgreement
  import H = CollectorHistory
  import L = PbftLog
  import R = PbftRing
  import C = Collector

  /** The message was taken by replica r in the last step. */
  ghost predicate TookLast(cfg: Config, s: R.Rings, a: Action, r: nat, sn: nat)
    requires WellFormed(cfg) && R.Shaped(cfg, s) && Correct(cfg, r)
  {
    && a.Deliver? && a.id == r && a.info.request in s.sent && a.info.request.sn == sn
    && Takes(cfg, s.replicas[r].ctl, a.info.request, a.accepted)
  }

  /** The messages for one number that replica r took, in order. */
  ghost function Taken(cfg: Config, actions: seq<Action>, r: nat, sn: nat): seq<RequestInfo>
    requires WellFormed(cfg) && Correct(cfg, r)
  {
    if actions == [] then []
    else
      var init, a := actions[..|actions| - 1], actions[|actions| - 1];
      Taken(cfg, init, r, sn) + if TookLast(cfg, R.Run(cfg, init), a, r, sn) then [a.info] else []
  }

  lemma {:induction false} TakenInView(cfg: Config, actions: seq<Action>, r: nat, sn: nat)
    requires WellFormed(cfg) && Correct(cfg, r)
    ensures H.OneView(Taken(cfg, actions, r, sn), cfg.view)
  {
    if actions != [] {
      TakenInView(cfg, actions[..|actions| - 1], r, sn);
    }
  }

  ghost predicate TookCell(cfg: Config, t: Table, a: Action, r: nat, sn: nat)
    requires r in t.replicas
  {
    && a.Deliver? && a.id == r && a.info.request in t.sent && a.info.request.sn == sn
    && Takes(cfg, t.replicas[r].ctl, a.info.request, a.accepted)
  }

  /** One step of the table, seen from one cell: the collector takes the message, or stays as it is. */
  lemma CellStepIs(cfg: Config, t: Table, a: Action, r: nat, sn: nat)
    requires WellFormed(cfg) && t.replicas.Keys == cfg.replicas && Correct(cfg, r)
    ensures var c, c' := Collecting(cfg, t.replicas[r], sn), Collecting(cfg, Step(cfg, t, a).replicas[r], sn);
      if TookCell(cfg, t, a, r, sn) then c' == C.Collect(c, a.info, QuorumOf(cfg)).state else c' == c
  {
    TableStepOf(cfg, t, a, r);
    if !a.Deliver? {
      SamePools(cfg, t, a, r);
    }
  }

  lemma TookSame(cfg: Config, s: R.Rings, t: Table, a: Action, r: nat, sn: nat)
    requires WellFormed(cfg) && R.Shaped(cfg, s) && R.Simulates(cfg, s, t) && Correct(cfg, r)
    ensures TookLast(cfg, s, a, r, sn) <==> TookCell(cfg, t, a, r, sn)
  {
    R.SameControl(cfg, s, t, r);
  }

  lemma HistoryStep(cfg: Config, t: Table, a: Action, r: nat, sn: nat, es: seq<RequestInfo>)
    requires WellFormed(cfg) && t.replicas.Keys == cfg.replicas && Correct(cfg, r)
    requires Collecting(cfg, t.replicas[r], sn) == H.Run(sn, es, QuorumOf(cfg))
    ensures Collecting(cfg, Step(cfg, t, a).replicas[r], sn)
         == H.Run(sn, es + (if TookCell(cfg, t, a, r, sn) then [a.info] else []), QuorumOf(cfg))
  {
    CellStepIs(cfg, t, a, r, sn);
    if TookCell(cfg, t, a, r, sn) {
      H.RunAppend(sn, es, a.info, QuorumOf(cfg));
    } else {
      assert es + [] == es;
    }
  }

  /** In a timely run the table's collector is what the messages taken make of a fresh one. */
  lemma {:induction false} CellIsHistory(cfg: Config, actions: seq<Action>, r: nat, sn: nat)
    requires WellFormed(cfg) && cfg.viewChange && R.TimelyRun(cfg, actions) && Correct(cfg, r)
    ensures Collecting(cfg, Run(cfg, actions).replicas[r], sn) == H.Run(sn, Taken(cfg, actions, r, sn), QuorumOf(cfg))
  {
    if actions != [] {
      var init, a := actions[..|actions| - 1], actions[|actions| - 1];
      CellIsHistory(cfg, init, r, sn);
      R.RingRefinesTable(cfg, init);
      TookSame(cfg, R.Run(cfg, init), Run(cfg, init), a, r, sn);
      HistoryStep(cfg, Run(cfg, init), a, r, sn, Taken(cfg, init, r, sn));
    }
  }

  // ----- what the executor gets

  /** The requests this replica's collectors have passed to its executor, and those that came by state transfer. */
  ghost function Passed(cfg: Config, rep: Replica<Cells>): iset<Request> {
    iset q: Request | Collecting(cfg, rep, q.sn).main == C.Taken(q) || q in rep.ctl.fetched
  }

  ghost predicate CellStored(cfg: Config, sent: set<Request>, rep: Replica<Cells>, sn: nat) {
    Collecting(cfg, rep, sn).sn == sn && L.SlotStored(cfg, sent, Collecting(cfg, rep, sn))
  }

  ghost predicate CellsStored(cfg: Config, sent: set<Request>, rep: Replica<Cells>) {
    forall sn :: CellStored(cfg, sent, rep, sn)
  }

  ghost predicate HandedOn(cfg: Config, rep: Replica<Cells>) {
    && (forall q :: q in rep.ctl.commitQueue ==> q in Passed(cfg, rep))
    && L.ExecIn(rep.ctl.executor, Passed(cfg, rep))
  }

  ghost predicate TableLogs(cfg: Config, t: Table) {
    && t.replicas.Keys == cfg.replicas
    && forall r :: Correct(cfg, r) ==> CellsStored(cfg, t.sent, t.replicas[r]) && HandedOn(cfg, t.replicas[r])
  }

  lemma PassedMore(cfg: Config, rep: Replica<Cells>, rep': Replica<Cells>)
    requires HandedOn(cfg, rep) && Passed(cfg, rep) <= Passed(cfg, rep') && rep'.ctl.executor == rep.ctl.executor
    requires forall q :: q in rep'.ctl.commitQueue ==> q in rep.ctl.commitQueue || q in Passed(cfg, rep')
    ensures HandedOn(cfg, rep')
  {
    L.ExecMore(rep.ctl.executor, Passed(cfg, rep), Passed(cfg, rep'));
  }

  /** Taking a message passes on at most the stored proposal, and passed requests stay passed. */
  lemma HandleKeeps(cfg: Config, sent: set<Request>, rep: Replica<Cells>, info: RequestInfo)
    requires WellFormed(cfg) && CellsStored(cfg, sent, rep) && HandedOn(cfg, rep)
    requires info.request in sent && info.request.view == cfg.view
    requires info.request.kind == PrePrepare ==> info.request.sender == cfg.primary
    ensures CellsStored(cfg, sent, Handle(cfg, rep, info)) && HandedOn(cfg, Handle(cfg, rep, info))
  {
    var n := info.request.sn;
    var c, rep' := Collecting(cfg, rep, n), Handle(cfg, rep, info);
    var o := C.Collect(c, info, QuorumOf(cfg));
    assert CellStored(cfg, sent, rep, n);
    L.SlotStep(cfg, sent, c, info, QuorumOf(cfg));
    CollectShape(c, info, QuorumOf(cfg));
    forall sn ensures CellStored(cfg, sent, rep', sn) {
      assert CellStored(cfg, sent, rep, sn);
    }
    forall q | q in Passed(cfg, rep) ensures q in Passed(cfg, rep') {
      assert q.sn == n && q !in rep.ctl.fetched ==> c.main == C.Taken(q);
    }
    assert o.handed.Some? ==> o.handed.value in Passed(cfg, rep');
    PassedMore(cfg, rep, rep');
  }

  lemma StoredMore(cfg: Config, sent: set<Request>, more: set<Request>, rep: Replica<Cells>)
    requires CellsStored(cfg, sent, rep)
    ensures CellsStored(cfg, sent + more, rep)
  {
    forall sn ensures CellStored(cfg, sent + more, rep, sn) {
      assert CellStored(cfg, sent, rep, sn);
      assert L.Proposals(cfg, sent, sn) <= L.Proposals(cfg, sent + more, sn);
    }
  }

  /** The same cells, and control state with more behind it. */
  lemma ControlKeeps(cfg: Config, sent: set<Request>, rep: Replica<Cells>, ctl: Control)
    requires CellsStored(cfg, sent, rep) && HandedOn(cfg, rep)
    requires ctl.executor == rep.ctl.executor && rep.ctl.fetched <= ctl.fetched
    requires forall q :: q in ctl.commitQueue ==> q in rep.ctl.commitQueue || q in ctl.fetched
    ensures CellsStored(cfg, sent, rep.(ctl := ctl)) && HandedOn(cfg, rep.(ctl := ctl))
  {
    var rep' := rep.(ctl := ctl);
    forall sn ensures CellStored(cfg, sent, rep', sn) {
      assert CellStored(cfg, sent, rep, sn);
    }
    forall q | q in Passed(cfg, rep) ensures q in Passed(cfg, rep') {
      assert Collecting(cfg, rep', q.sn) == Collecting(cfg, rep, q.sn);
    }
    PassedMore(cfg, rep, rep');
  }

  lemma OrderKeeps(cfg: Config, sent: set<Request>, rep: Replica<Cells>)
    requires CellsStored(cfg, sent, rep) && HandedOn(cfg, rep)
    ensures var rep' := rep.(ctl := OrderNext(rep.ctl));
      CellsStored(cfg, sent, rep') && HandedOn(cfg, rep')
  {
    if rep.ctl.commitQueue != [] {
      var rep' := rep.(ctl := OrderNext(rep.ctl));
      forall sn ensures CellStored(cfg, sent, rep', sn) {
        assert CellStored(cfg, sent, rep, sn);
      }
      forall q ensures q in Passed(cfg, rep') <==> q in Passed(cfg, rep) {
        assert Collecting(cfg, rep', q.sn) == Collecting(cfg, rep, q.sn);
      }
      L.OrderIn(rep.ctl.executor, rep.ctl.commitQueue[0], Passed(cfg, rep));
      assert Passed(cfg, rep') == Passed(cfg, rep);
    }
  }

  lemma ControlKeepsTable(cfg: Config, t: Table, a: Action, r: nat)
    requires WellFormed(cfg) && TableLogs(cfg, t) && Correct(cfg, r)
    ensures var rep := ControlStep(cfg, t, a).replicas[r]; CellsStored(cfg, t.sent, rep) && HandedOn(cfg, rep)
  {
    var rep, ctl := t.replicas[r], ControlStep(cfg, t, a).replicas[r].ctl;
    ControlOf(cfg, t, a, r);
    assert ControlStep(cfg, t, a).replicas[r] == rep.(ctl := ctl);
    ControlKeeps(cfg, t.sent, rep, ctl);
  }

  lemma StepKeepsTable(cfg: Config, t: Table, a: Action, r: nat)
    requires WellFormed(cfg) && TableLogs(cfg, t) && Correct(cfg, r)
    ensures var rep := Step(cfg, t, a).replicas[r]; CellsStored(cfg, t.sent, rep) && HandedOn(cfg, rep)
  {
    var rep := t.replicas[r];
    TableStepOf(cfg, t, a, r);
    match a
    case Deliver(id, info, accepted) =>
      if id == r && info.request in t.sent && Takes(cfg, rep.ctl, info.request, accepted) {
        HandleKeeps(cfg, t.sent, rep, info);
      }
    case Execute(id) => OrderKeeps(cfg, t.sent, rep);
    case StartViewChange(id, stable, counter) => ControlKeeps(cfg, t.sent, rep, rep.ctl.(inViewChange := true));
    case _ => ControlKeepsTable(cfg, t, a, r);
  }

  lemma TableSentGrows(cfg: Config, t: Table, a: Action)
    requires WellFormed(cfg)
    ensures t.sent <= Step(cfg, t, a).sent
  {
  }

  lemma {:induction false} TableLogsAlways(cfg: Config, actions: seq<Action>)
    requires WellFormed(cfg)
    ensures TableLogs(cfg, Run(cfg, actions))
  {
    if actions != [] {
      var init, a := actions[..|actions| - 1], actions[|actions| - 1];
      TableLogsAlways(cfg, init);
      var t, t' := Run(cfg, init), Run(cfg, actions);
      TableSentGrows(cfg, t, a);
      assert t'.sent == t.sent + t'.sent;
      forall r | Correct(cfg, r) ensures CellsStored(cfg, t'.sent, t'.replicas[r]) && HandedOn(cfg, t'.replicas[r]) {
        StepKeepsTable(cfg, t, a, r);
        StoredMore(cfg, t.sent, t'.sent, t'.replicas[r]);
      }
    }
  }

  // ----- what is executed

  lemma SameExecutor(cfg: Config, actions: seq<Action>, r: nat)
    requires WellFormed(cfg) && R.TimelyRun(cfg, actions) && Correct(cfg, r)
    ensures R.Run(cfg, actions).replicas[r].ctl == Run(cfg, actions).replicas[r].ctl
  {
    R.RingRefinesTable(cfg, actions);
    R.SameControl(cfg, R.Run(cfg, actions), Run(cfg, actions), r);
  }

  /** A request that did not come by state transfer was passed on by the replica's own collector for its number. */
  lemma OwnWasPassed(cfg: Config, actions: seq<Action>, r: nat, i: nat)
    requires WellFormed(cfg) && R.TimelyRun(cfg, actions) && Correct(cfg, r) && L.Own(R.Run(cfg, actions), r, i)
    ensures Collecting(cfg, Run(cfg, actions).replicas[r], i + 1).main
         == C.Taken(L.Delivered(R.Run(cfg, actions), r)[i])
  {
    SameExecutor(cfg, actions, r);
    TableLogsAlways(cfg, actions);
    assert HandedOn(cfg, Run(cfg, actions).replicas[r]);
  }

  /**
    * For any primary, in every timely run: the request a correct replica executes for number i + 1 is decided by
    * the messages it took for that number. With k the prepare that settled the digest and m the commit that
    * made it execute, it is the earliest proposal for that digest before k, or else the first one after k; it
    * carries the digest exactly when `FollowsPrepared`.
    */
  lemma ExecutedExactly(cfg: Config, actions: seq<Action>, r: nat, i: nat) returns (k: nat, m: nat)
    requires WellFormed(cfg) && cfg.viewChange && R.TimelyRun(cfg, actions) && Correct(cfg, r)
    requires L.Own(R.Run(cfg, actions), r, i)
    ensures var q, es := L.Delivered(R.Run(cfg, actions), r)[i], Taken(cfg, actions, r, i + 1);
      && k < m && H.PreparedAt(i + 1, es, QuorumOf(cfg), k) && H.ExecutedAt(i + 1, es, QuorumOf(cfg), m)
      && H.ChoiceAt(i + 1, es, k, m).Held? && q == H.ChoiceAt(i + 1, es, k, m).info.request
      && (q.hash == es[k].request.hash <==> H.FollowsPrepared(i + 1, es, k, m))
      && Prepared(cfg, Run(cfg, actions), r, i + 1, es[k].request.hash)
  {
    OwnWasPassed(cfg, actions, r, i);
    CellIsHistory(cfg, actions, r, i + 1);
    TakenInView(cfg, actions, r, i + 1);
    k, m := H.ExecutedDigest(i + 1, Taken(cfg, actions, r, i + 1), QuorumOf(cfg), cfg.view);
  }

  /**
    * For any primary, in every timely run: the digest settled on is the same at any two correct replicas, and both
    * execute it exactly when each had a proposal for it in time. Otherwise they execute the same digest exactly when
    * neither had and the first late proposals agree.
    */
  lemma SameDigestExactly(cfg: Config, actions: seq<Action>, r1: nat, r2: nat, i: nat)
    returns (k1: nat, m1: nat, k2: nat, m2: nat)
    requires WellFormed(cfg) && cfg.viewChange && R.TimelyRun(cfg, actions) && Correct(cfg, r1) && Correct(cfg, r2)
    requires L.Own(R.Run(cfg, actions), r1, i) && L.Own(R.Run(cfg, actions), r2, i)
    ensures var s := R.Run(cfg, actions);
      var d1, d2 := L.Delivered(s, r1)[i].hash, L.Delivered(s, r2)[i].hash;
      var es1, es2 := Taken(cfg, actions, r1, i + 1), Taken(cfg, actions, r2, i + 1);
      && k1 < m1 && H.PreparedAt(i + 1, es1, QuorumOf(cfg), k1) && H.ExecutedAt(i + 1, es1, QuorumOf(cfg), m1)
      && k2 < m2 && H.PreparedAt(i + 1, es2, QuorumOf(cfg), k2) && H.ExecutedAt(i + 1, es2, QuorumOf(cfg), m2)
      && es1[k1].request.hash == es2[k2].request.hash
      && var f1, f2 := H.FollowsPrepared(i + 1, es1, k1, m1), H.FollowsPrepared(i + 1, es2, k2, m2);
      && (d1 == d2 == es1[k1].request.hash <==> f1 && f2)
      && (d1 == d2 <==> f1 == f2 && (f1 || FirstLate(es1, i + 1, k1, m1) == FirstLate(es2, i + 1, k2, m2)))
  {
    k1, m1 := ExecutedExactly(cfg, actions, r1, i);
    k2, m2 := ExecutedExactly(cfg, actions, r2, i);
    CellsAlwaysOk(cfg, actions);
    var es1, es2 := Taken(cfg, actions, r1, i + 1), Taken(cfg, actions, r2, i + 1);
    PreparedUnique(cfg, Run(cfg, actions), r1, r2, i + 1, es1[k1].request.hash, es2[k2].request.hash);
    LateChoice(es1, i + 1, k1, m1);
    LateChoice(es2, i + 1, k2, m2);
  }

  /** The digest of the first proposal between requests k and m. */
  ghost function FirstLate(es: seq<RequestInfo>, sn: nat, k: nat, m: nat): Option<Digest>
    requires k < m <= |es|
  {
    var late := H.Of(es[k + 1..m], sn, PrePrepare);
    if late == [] then None else Some(late[0].request.hash)
  }

  lemma LateChoice(es: seq<RequestInfo>, sn: nat, k: nat, m: nat)
    requires k < m <= |es| && H.ChoiceAt(sn, es, k, m).Held?
    ensures !H.FollowsPrepared(sn, es, k, m) ==>
      FirstLate(es, sn, k, m) == Some(H.ChoiceAt(sn, es, k, m).info.request.hash)
  {
    var early, d := H.Of(es[..k], sn, PrePrepare), es[k].request.hash;
    C.WithHashMembers(early, d);
    if C.WithHash(early, d) != [] {
      assert C.WithHash(early, d)[0] in C.WithHash(early, d);
    }
  }
}
