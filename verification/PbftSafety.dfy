/** What votes prove in every reachable state of the table machine, for a correct or a faulty primary. */
module PbftSafety {
  import opened Messages
  import opened Quorum
  import opened Pbft
  import opened PbftTable
  import opened CollectorSafety
  import C = Collector

  /** Every counted vote was sent by the replica it is counted for. */
  ghost predicate VotesSent(cfg: Config, sent: set<Request>, kind: Kind, sn: nat, votes: map<Digest, set<nat>>) {
    forall d, p :: p in C.Votes(votes, d) ==> Request(kind, cfg.view, sn, d, p) in sent
  }

  /** A correct replica sends at most one prepare for a number, and only once a proposal is stored. */
  ghost predicate PrepareOnce(cfg: Config, sent: set<Request>, r: nat, sn: nat, c: C.State) {
    forall d :: Request(Prepare, cfg.view, sn, d, r) in sent ==>
      && C.Rank(c.status) >= C.Rank(C.ReadyPrepare)
      && forall e :: Request(Prepare, cfg.view, sn, e, r) in sent ==> d == e
  }

  /** A correct replica that sent a commit holds a quorum of prepares for its digest. */
  ghost predicate Committed(c: C.State, d: Digest, quorum: nat) {
    && C.Rank(c.status) >= C.Rank(C.ReadyCommit)
    && |C.Votes(c.prepares, d)| >= quorum
    && (c.viewChange ==> c.proofs != [] && c.proofs[0].request.hash == d)
  }

  ghost predicate CommitOnce(cfg: Config, sent: set<Request>, r: nat, sn: nat, c: C.State)
    requires WellFormed(cfg)
  {
    forall d :: Request(Commit, cfg.view, sn, d, r) in sent ==>
      && Committed(c, d, QuorumOf(cfg))
      && forall e :: Request(Commit, cfg.view, sn, e, r) in sent ==> d == e
  }

  /** The local invariant of replica `r` for number `sn`, relative to what has been sent. */
  ghost predicate CellOk(cfg: Config, sent: set<Request>, r: nat, sn: nat, c: C.State)
    requires WellFormed(cfg)
  {
    && Inv(c, QuorumOf(cfg)) && c.sn == sn && c.viewChange == cfg.viewChange && (c.view == 0 || c.view == cfg.view)
    && VotesSent(cfg, sent, Prepare, sn, c.prepares)
    && VotesSent(cfg, sent, Commit, sn, c.commits)
    && PrepareOnce(cfg, sent, r, sn, c)
    && CommitOnce(cfg, sent, r, sn, c)
  }

  ghost predicate SendersKnown(cfg: Config, sent: set<Request>) {
    forall m :: m in sent ==> m.sender in cfg.replicas
  }

  ghost predicate CellsOk(cfg: Config, s: Table)
    requires WellFormed(cfg)
  {
    && s.replicas.Keys == cfg.replicas
    && SendersKnown(cfg, s.sent)
    && forall r, sn :: Correct(cfg, r) ==> CellOk(cfg, s.sent, r, sn, Collecting(cfg, s.replicas[r], sn))
  }

  /** New messages leave a cell intact unless they are votes of its own replica for its own number. */
  lemma CellFrame(cfg: Config, sent: set<Request>, more: set<Request>, r: nat, sn: nat, c: C.State)
    requires WellFormed(cfg) && CellOk(cfg, sent, r, sn, c)
    requires forall m :: m in more ==> m.kind == PrePrepare || m.sender != r || m.sn != sn
    ensures CellOk(cfg, sent + more, r, sn, c)
  {
  }

  lemma VotesStep(cfg: Config, sent: set<Request>, c: C.State, m: Request, quorum: nat, o: C.Outcome)
    requires m in sent && m.view == cfg.view && Effect(c, m, quorum, o)
    requires VotesSent(cfg, sent, Prepare, c.sn, c.prepares) && VotesSent(cfg, sent, Commit, c.sn, c.commits)
    ensures VotesSent(cfg, sent, Prepare, c.sn, o.state.prepares) && VotesSent(cfg, sent, Commit, c.sn, o.state.commits)
  {
    assert m == Request(m.kind, cfg.view, m.sn, m.hash, m.sender);
  }

  lemma CommittedStays(c: C.State, m: Request, quorum: nat, o: C.Outcome, d: Digest)
    requires Effect(c, m, quorum, o) && Committed(c, d, quorum)
    ensures Committed(o.state, d, quorum)
  {
    VotesGrow(c.prepares, m.hash, m.sender, d);
  }

  lemma CommitOnceStep(cfg: Config, sent: set<Request>, r: nat, c: C.State, m: Request, o: C.Outcome)
    requires WellFormed(cfg) && CommitOnce(cfg, sent, r, c.sn, c) && m.view == cfg.view
    requires Effect(c, m, QuorumOf(cfg), o)
    ensures CommitOnce(cfg, sent + Sends(m, o, r), r, c.sn, o.state)
  {
    forall d | Request(Commit, cfg.view, c.sn, d, r) in sent
      ensures Committed(o.state, d, QuorumOf(cfg))
    {
      CommittedStays(c, m, QuorumOf(cfg), o, d);
    }
  }

  lemma PrepareOnceStep(cfg: Config, sent: set<Request>, r: nat, c: C.State, m: Request, quorum: nat, o: C.Outcome)
    requires PrepareOnce(cfg, sent, r, c.sn, c) && m.view == cfg.view && Effect(c, m, quorum, o)
    ensures PrepareOnce(cfg, sent + Sends(m, o, r), r, c.sn, o.state)
  {
  }

  /** A correct replica processing a sent message keeps its cell, together with the vote it sends. */
  lemma CellStep(cfg: Config, sent: set<Request>, r: nat, c: C.State, m: Request, o: C.Outcome)
    requires WellFormed(cfg) && CellOk(cfg, sent, r, c.sn, c)
    requires m in sent && m.view == cfg.view
    requires Effect(c, m, QuorumOf(cfg), o) && Inv(o.state, QuorumOf(cfg))
    ensures CellOk(cfg, sent + Sends(m, o, r), r, c.sn, o.state)
  {
    VotesStep(cfg, sent, c, m, QuorumOf(cfg), o);
    CommitOnceStep(cfg, sent, r, c, m, o);
    PrepareOnceStep(cfg, sent, r, c, m, QuorumOf(cfg), o);
  }

  /** One message taken, seen from one cell of one correct replica. */
  lemma DeliverCell(cfg: Config, s: Table, id: nat, info: RequestInfo, r: nat, sn: nat)
    requires WellFormed(cfg) && CellsOk(cfg, s) && Correct(cfg, id) && Correct(cfg, r)
    requires info.request in s.sent && info.request.view == cfg.view
    ensures var c := Collecting(cfg, s.replicas[id], info.request.sn);
      var o := C.Collect(c, info, QuorumOf(cfg));
      CellOk(cfg, s.sent + Sends(info.request, o, id), r, sn,
             if r == id && sn == info.request.sn then o.state else Collecting(cfg, s.replicas[r], sn))
  {
    var m := info.request;
    var c := Collecting(cfg, s.replicas[id], m.sn);
    assert CellOk(cfg, s.sent, id, m.sn, c);
    CollectEffect(c, info, QuorumOf(cfg));
    CollectKeeps(c, info, QuorumOf(cfg));
    var o := C.Collect(c, info, QuorumOf(cfg));
    if r == id && sn == m.sn {
      CellStep(cfg, s.sent, r, c, m, o);
    } else {
      CellFrame(cfg, s.sent, Sends(m, o, id), r, sn, Collecting(cfg, s.replicas[r], sn));
    }
  }

  lemma DeliverKeepsCells(cfg: Config, s: Table, id: nat, info: RequestInfo, accepted: bool)
    requires WellFormed(cfg) && CellsOk(cfg, s) && Correct(cfg, id) && info.request in s.sent
    requires Takes(cfg, s.replicas[id].ctl, info.request, accepted)
    ensures CellsOk(cfg, Step(cfg, s, Deliver(id, info, accepted)))
  {
    var s' := Step(cfg, s, Deliver(id, info, accepted));
    forall r, sn | Correct(cfg, r)
      ensures CellOk(cfg, s'.sent, r, sn, Collecting(cfg, s'.replicas[r], sn))
    {
      DeliverCell(cfg, s, id, info, r, sn);
    }
  }

  /** Steps that leave every collector alone and send nothing but proposals and faulty messages. */
  lemma OtherStepKeepsCells(cfg: Config, s: Table, s': Table)
    requires WellFormed(cfg) && CellsOk(cfg, s) && s'.replicas.Keys == cfg.replicas && s.sent <= s'.sent
    requires forall m :: m in s'.sent - s.sent ==>
      m.sender in cfg.replicas && (m.kind == PrePrepare || m.sender in cfg.faulty)
    requires forall r :: Correct(cfg, r) ==> s'.replicas[r].pool == s.replicas[r].pool
    ensures CellsOk(cfg, s')
  {
    assert s'.sent == s.sent + (s'.sent - s.sent);
    forall r, sn | Correct(cfg, r)
      ensures CellOk(cfg, s'.sent, r, sn, Collecting(cfg, s'.replicas[r], sn))
    {
      CellFrame(cfg, s.sent, s'.sent - s.sent, r, sn, Collecting(cfg, s.replicas[r], sn));
    }
  }

  /** A control step sends only proposals of its own replica and faulty messages. */
  lemma ControlSends<P>(cfg: Config, s: System<P>, a: Action)
    requires WellFormed(cfg) && s.replicas.Keys == cfg.replicas
    ensures var s' := ControlStep(cfg, s, a);
      && s.sent <= s'.sent
      && (forall m :: m in s'.sent - s.sent ==>
            m.sender in cfg.replicas && (m.kind == PrePrepare || m.sender in cfg.faulty))
      && (forall r :: r in cfg.replicas ==> s'.replicas[r].pool == s.replicas[r].pool)
  {
  }

  lemma StepKeepsCells(cfg: Config, s: Table, a: Action)
    requires WellFormed(cfg) && CellsOk(cfg, s)
    ensures CellsOk(cfg, Step(cfg, s, a))
  {
    if a.Deliver? {
      TableDelivers(cfg, s, a.id, a.info, a.accepted);
      if Correct(cfg, a.id) && a.info.request in s.sent
         && Takes(cfg, s.replicas[a.id].ctl, a.info.request, a.accepted) {
        DeliverKeepsCells(cfg, s, a.id, a.info, a.accepted);
      }
    } else if a.Execute? || a.StartViewChange? {
      OtherStepKeepsCells(cfg, s, Step(cfg, s, a));
    } else {
      ControlSends(cfg, s, a);
      OtherStepKeepsCells(cfg, s, ControlStep(cfg, s, a));
    }
  }

  lemma InitialCells(cfg: Config)
    requires WellFormed(cfg)
    ensures CellsOk(cfg, Initial(cfg, map[]))
  {
    forall r, sn | Correct(cfg, r)
      ensures CellOk(cfg, {}, r, sn, Collecting(cfg, Initial(cfg, map[]).replicas[r], sn))
    {
      FreshInv(sn, cfg.viewChange, QuorumOf(cfg));
    }
  }

  /** The cells of all correct replicas are sound in every reachable state. */
  lemma {:induction false} CellsAlwaysOk(cfg: Config, actions: seq<Action>)
    requires WellFormed(cfg)
    ensures CellsOk(cfg, Run(cfg, actions))
  {
    if actions == [] {
      InitialCells(cfg);
    } else {
      CellsAlwaysOk(cfg, actions[..|actions| - 1]);
      StepKeepsCells(cfg, Run(cfg, actions[..|actions| - 1]), actions[|actions| - 1]);
    }
  }

  /** A quorum of votes counted by a correct replica comes from known replicas. */
  lemma VotersKnown(cfg: Config, sent: set<Request>, kind: Kind, sn: nat, votes: map<Digest, set<nat>>, d: Digest)
    requires SendersKnown(cfg, sent) && VotesSent(cfg, sent, kind, sn, votes)
    ensures C.Votes(votes, d) <= cfg.replicas
  {
    forall p | p in C.Votes(votes, d) ensures p in cfg.replicas {
      assert Request(kind, cfg.view, sn, d, p) in sent;
    }
  }

  ghost predicate Prepared(cfg: Config, s: Table, r: nat, sn: nat, d: Digest)
    requires WellFormed(cfg) && r in s.replicas
  {
    |C.Votes(Collecting(cfg, s.replicas[r], sn).prepares, d)| >= QuorumOf(cfg)
  }

  ghost predicate CommitCertified(cfg: Config, s: Table, r: nat, sn: nat, d: Digest)
    requires WellFormed(cfg) && r in s.replicas
  {
    |C.Votes(Collecting(cfg, s.replicas[r], sn).commits, d)| >= QuorumOf(cfg)
  }

  /** The replica's collector for this number has reached READY_EXECUTE or gone on to EXECUTED. */
  ghost predicate Reached(cfg: Config, s: Table, r: nat, sn: nat)
    requires r in s.replicas
  {
    C.Rank(Collecting(cfg, s.replicas[r], sn).status) >= C.Rank(C.ReadyExecute)
  }

  /** Two prepare quorums for one number, counted by any correct replicas, are for one digest. */
  lemma PreparedUnique(cfg: Config, s: Table, r1: nat, r2: nat, sn: nat, d1: Digest, d2: Digest)
    requires WellFormed(cfg) && CellsOk(cfg, s) && Correct(cfg, r1) && Correct(cfg, r2)
    requires Prepared(cfg, s, r1, sn, d1) && Prepared(cfg, s, r2, sn, d2)
    ensures d1 == d2
  {
    var c1, c2 := Collecting(cfg, s.replicas[r1], sn), Collecting(cfg, s.replicas[r2], sn);
    assert CellOk(cfg, s.sent, r1, sn, c1) && CellOk(cfg, s.sent, r2, sn, c2);
    VotersKnown(cfg, s.sent, Prepare, sn, c1.prepares, d1);
    VotersKnown(cfg, s.sent, Prepare, sn, c2.prepares, d2);
    var p := SharedCorrect(cfg.replicas, cfg.faulty, C.Votes(c1.prepares, d1), C.Votes(c2.prepares, d2));
    assert CellOk(cfg, s.sent, p, sn, Collecting(cfg, s.replicas[p], sn));
    assert Request(Prepare, cfg.view, sn, d1, p) in s.sent && Request(Prepare, cfg.view, sn, d2, p) in s.sent;
  }

  /** A commit quorum contains a correct replica whose own cell prepared that digest. */
  lemma CommitHasPreparer(cfg: Config, s: Table, r: nat, sn: nat, d: Digest) returns (p: nat)
    requires WellFormed(cfg) && CellsOk(cfg, s) && Correct(cfg, r) && CommitCertified(cfg, s, r, sn, d)
    ensures Correct(cfg, p) && Committed(Collecting(cfg, s.replicas[p], sn), d, QuorumOf(cfg))
  {
    var c := Collecting(cfg, s.replicas[r], sn);
    assert CellOk(cfg, s.sent, r, sn, c);
    VotersKnown(cfg, s.sent, Commit, sn, c.commits, d);
    var votes := C.Votes(c.commits, d);
    p := SharedCorrect(cfg.replicas, cfg.faulty, votes, votes);
    assert CellOk(cfg, s.sent, p, sn, Collecting(cfg, s.replicas[p], sn));
    assert Request(Commit, cfg.view, sn, d, p) in s.sent;
  }

  /** A commit quorum and a prepare quorum for one number are for one digest. */
  lemma CommitMatchesPrepared(cfg: Config, s: Table, r1: nat, r2: nat, sn: nat, d1: Digest, d2: Digest)
    requires WellFormed(cfg) && CellsOk(cfg, s) && Correct(cfg, r1) && Correct(cfg, r2)
    requires CommitCertified(cfg, s, r1, sn, d1) && Prepared(cfg, s, r2, sn, d2)
    ensures d1 == d2
  {
    var p := CommitHasPreparer(cfg, s, r1, sn, d1);
    PreparedUnique(cfg, s, p, r2, sn, d1, d2);
  }

  /** `d` is the one digest with a commit quorum, and the one with a prepare quorum, at this replica. */
  ghost predicate OnlyQuorum(cfg: Config, s: Table, r: nat, sn: nat, d: Digest)
    requires WellFormed(cfg) && r in s.replicas
  {
    && (forall e :: CommitCertified(cfg, s, r, sn, e) <==> e == d)
    && (forall e :: Prepared(cfg, s, r, sn, e) <==> e == d)
  }

  /** A correct replica that reached execution has both quorums. */
  lemma ReachedHasQuorums(cfg: Config, s: Table, r: nat, sn: nat) returns (p: Digest, d: Digest)
    requires WellFormed(cfg) && CellsOk(cfg, s) && Correct(cfg, r) && Reached(cfg, s, r, sn)
    ensures Prepared(cfg, s, r, sn, p) && CommitCertified(cfg, s, r, sn, d)
  {
    var c := Collecting(cfg, s.replicas[r], sn);
    assert CellOk(cfg, s.sent, r, sn, c);
    p :| |C.Votes(c.prepares, p)| >= QuorumOf(cfg);
    d :| |C.Votes(c.commits, d)| >= QuorumOf(cfg);
  }

  /** At a correct replica that reached execution, only the digest certified elsewhere has a quorum. */
  lemma OneDigest(cfg: Config, s: Table, r1: nat, r: nat, sn: nat, d: Digest)
    requires WellFormed(cfg) && CellsOk(cfg, s) && Correct(cfg, r1) && Correct(cfg, r)
    requires CommitCertified(cfg, s, r1, sn, d) && Reached(cfg, s, r, sn)
    ensures OnlyQuorum(cfg, s, r, sn, d)
  {
    var x, y := ReachedHasQuorums(cfg, s, r, sn);
    forall e | Prepared(cfg, s, r, sn, e) ensures e == d {
      CommitMatchesPrepared(cfg, s, r1, r, sn, d, e);
    }
    forall e | CommitCertified(cfg, s, r, sn, e) ensures e == d {
      CommitMatchesPrepared(cfg, s, r, r, sn, e, x);
    }
  }
}
