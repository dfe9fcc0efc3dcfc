/** Agreement between correct replicas, at any two moments of a timely run. */
module PbftAgreement {
  import opened Messages
  import opened Quorum
  import opened CollectorSafety
  import opened Pbft
  import opened PbftTable
  import opened PbftSafety
  import R = PbftRing
  import C = Collector

  // ----- what a table cell keeps

  /** Nothing a collector has learned is lost. */
  ghost predicate Later(c: C.State, c': C.State) {
    && C.Rank(c.status) <= C.Rank(c'.status)
    && (forall d :: C.Votes(c.prepares, d) <= C.Votes(c'.prepares, d))
    && (forall d :: C.Votes(c.commits, d) <= C.Votes(c'.commits, d))
    && (C.Rank(c.status) >= C.Rank(C.ReadyCommit) ==> c'.proofs == c.proofs)
  }

  lemma EffectLater(c: C.State, m: Request, quorum: nat, o: C.Outcome)
    requires Effect(c, m, quorum, o)
    ensures Later(c, o.state)
  {
    forall d ensures C.Votes(c.prepares, d) <= C.Votes(o.state.prepares, d) {
      VotesGrow(c.prepares, m.hash, m.sender, d);
    }
    forall d ensures C.Votes(c.commits, d) <= C.Votes(o.state.commits, d) {
      VotesGrow(c.commits, m.hash, m.sender, d);
    }
  }

  lemma TakenLater(cfg: Config, s: Table, info: RequestInfo, r: nat, sn: nat, id: nat)
    requires WellFormed(cfg) && CellsOk(cfg, s) && Correct(cfg, r) && Correct(cfg, id) && info.request.view == cfg.view
    ensures Later(Collecting(cfg, s.replicas[r], sn), Collecting(cfg, DeliverStep(cfg, s, id, info).replicas[r], sn))
  {
    if id == r && info.request.sn == sn {
      var c := Collecting(cfg, s.replicas[r], sn);
      assert CellOk(cfg, s.sent, r, sn, c);
      CollectEffect(c, info, QuorumOf(cfg));
      EffectLater(c, info.request, QuorumOf(cfg), C.Collect(c, info, QuorumOf(cfg)));
    }
  }

  lemma SamePools(cfg: Config, s: Table, a: Action, r: nat)
    requires WellFormed(cfg) && s.replicas.Keys == cfg.replicas && Correct(cfg, r) && !a.Deliver?
    ensures Step(cfg, s, a).replicas[r].pool == s.replicas[r].pool
  {
  }

  lemma StepLater(cfg: Config, s: Table, a: Action, r: nat, sn: nat)
    requires WellFormed(cfg) && CellsOk(cfg, s) && Correct(cfg, r)
    ensures Later(Collecting(cfg, s.replicas[r], sn), Collecting(cfg, Step(cfg, s, a).replicas[r], sn))
  {
    if a.Deliver? {
      TableDelivers(cfg, s, a.id, a.info, a.accepted);
      if Correct(cfg, a.id) && a.info.request.view == cfg.view {
        TakenLater(cfg, s, a.info, r, sn, a.id);
      }
    } else {
      SamePools(cfg, s, a, r);
    }
  }

  lemma {:induction false} CellLater(cfg: Config, actions: seq<Action>, i: nat, r: nat, sn: nat)
    requires WellFormed(cfg) && Correct(cfg, r) && i <= |actions|
    ensures Later(Collecting(cfg, Run(cfg, actions[..i]).replicas[r], sn),
                  Collecting(cfg, Run(cfg, actions).replicas[r], sn))
  {
    if i == |actions| {
      assert actions[..i] == actions;
    } else {
      var init := actions[..|actions| - 1];
      assert init[..i] == actions[..i];
      CellLater(cfg, init, i, r, sn);
      CellsAlwaysOk(cfg, init);
      StepLater(cfg, Run(cfg, init), actions[|actions| - 1], r, sn);
    }
  }

  lemma QuorumStays(a: set<nat>, b: set<nat>, quorum: nat)
    requires a <= b && |a| >= quorum
    ensures |b| >= quorum
  {
    SubsetSize(a, b);
  }

  // ----- rings

  /** The replica's slot for this number holds this number's collector. */
  ghost predicate Holds(cfg: Config, s: R.Rings, r: nat, sn: nat)
    requires WellFormed(cfg) && R.Shaped(cfg, s)
  {
    Correct(cfg, r) && R.SlotFor(cfg, s.replicas[r], sn).sn == sn
  }

  ghost predicate PreparesFor(cfg: Config, s: R.Rings, r: nat, sn: nat, d: Digest)
    requires WellFormed(cfg) && R.Shaped(cfg, s)
  {
    Holds(cfg, s, r, sn) && |C.Votes(R.SlotFor(cfg, s.replicas[r], sn).prepares, d)| >= QuorumOf(cfg)
  }

  ghost predicate CommitsFor(cfg: Config, s: R.Rings, r: nat, sn: nat, d: Digest)
    requires WellFormed(cfg) && R.Shaped(cfg, s)
  {
    Holds(cfg, s, r, sn) && |C.Votes(R.SlotFor(cfg, s.replicas[r], sn).commits, d)| >= QuorumOf(cfg)
  }

  /** The collector has reached READY_EXECUTE or gone on to EXECUTED. */
  ghost predicate Executes(cfg: Config, s: R.Rings, r: nat, sn: nat)
    requires WellFormed(cfg) && R.Shaped(cfg, s)
  {
    Holds(cfg, s, r, sn) && C.Rank(R.SlotFor(cfg, s.replicas[r], sn).status) >= C.Rank(C.ReadyExecute)
  }

  /** `d` is the one digest with a commit quorum, and the one with a prepare quorum. */
  ghost predicate Certifies(cfg: Config, s: R.Rings, r: nat, sn: nat, d: Digest)
    requires WellFormed(cfg) && R.Shaped(cfg, s)
  {
    && (forall e :: CommitsFor(cfg, s, r, sn, e) <==> e == d)
    && (forall e :: PreparesFor(cfg, s, r, sn, e) <==> e == d)
  }

  lemma {:induction false} TimelyPrefix(cfg: Config, actions: seq<Action>, i: nat)
    requires WellFormed(cfg) && R.TimelyRun(cfg, actions) && i <= |actions|
    ensures R.TimelyRun(cfg, actions[..i])
  {
    if i == |actions| {
      assert actions[..i] == actions;
    } else {
      var init := actions[..|actions| - 1];
      assert init[..i] == actions[..i];
      TimelyPrefix(cfg, init, i);
    }
  }

  lemma MatchedIn(cfg: Config, s: R.Rings, t: Table, r: nat, sn: nat)
    requires WellFormed(cfg) && R.Shaped(cfg, s) && R.Simulates(cfg, s, t) && Holds(cfg, s, r, sn)
    ensures R.SlotFor(cfg, s.replicas[r], sn) == Collecting(cfg, t.replicas[r], sn)
  {
    R.MatchedSlot(cfg, s.replicas[r], t.replicas[r], sn);
  }

  /** In a timely run a slot holds what the table has for its number. */
  lemma SlotIsCell(cfg: Config, actions: seq<Action>, i: nat, r: nat, sn: nat)
    requires WellFormed(cfg) && R.TimelyRun(cfg, actions) && i <= |actions|
    requires Holds(cfg, R.Run(cfg, actions[..i]), r, sn)
    ensures R.SlotFor(cfg, R.Run(cfg, actions[..i]).replicas[r], sn)
         == Collecting(cfg, Run(cfg, actions[..i]).replicas[r], sn)
  {
    TimelyPrefix(cfg, actions, i);
    R.RingRefinesTable(cfg, actions[..i]);
    MatchedIn(cfg, R.Run(cfg, actions[..i]), Run(cfg, actions[..i]), r, sn);
  }

  /** A prepare quorum of one moment is still there in the table at the end; so is a commit quorum. */
  lemma StillPrepared(cfg: Config, actions: seq<Action>, i: nat, r: nat, sn: nat, d: Digest)
    requires WellFormed(cfg) && R.TimelyRun(cfg, actions) && i <= |actions|
    requires Holds(cfg, R.Run(cfg, actions[..i]), r, sn)
    ensures PreparesFor(cfg, R.Run(cfg, actions[..i]), r, sn, d) ==> Prepared(cfg, Run(cfg, actions), r, sn, d)
    ensures CommitsFor(cfg, R.Run(cfg, actions[..i]), r, sn, d) ==> CommitCertified(cfg, Run(cfg, actions), r, sn, d)
  {
    SlotIsCell(cfg, actions, i, r, sn);
    CellLater(cfg, actions, i, r, sn);
    var c := Collecting(cfg, Run(cfg, actions[..i]).replicas[r], sn);
    var c' := Collecting(cfg, Run(cfg, actions).replicas[r], sn);
    if PreparesFor(cfg, R.Run(cfg, actions[..i]), r, sn, d) {
      QuorumStays(C.Votes(c.prepares, d), C.Votes(c'.prepares, d), QuorumOf(cfg));
    }
    if CommitsFor(cfg, R.Run(cfg, actions[..i]), r, sn, d) {
      QuorumStays(C.Votes(c.commits, d), C.Votes(c'.commits, d), QuorumOf(cfg));
    }
  }

  /** Prepare quorums for one number at any two correct replicas, at any two moments, are for one digest. */
  lemma OnePrepared(cfg: Config, actions: seq<Action>, i: nat, j: nat, r1: nat, r2: nat, sn: nat, d1: Digest,
                    d2: Digest)
    requires WellFormed(cfg) && R.TimelyRun(cfg, actions) && i <= |actions| && j <= |actions|
    requires PreparesFor(cfg, R.Run(cfg, actions[..i]), r1, sn, d1)
    requires PreparesFor(cfg, R.Run(cfg, actions[..j]), r2, sn, d2)
    ensures d1 == d2
  {
    StillPrepared(cfg, actions, i, r1, sn, d1);
    StillPrepared(cfg, actions, j, r2, sn, d2);
    CellsAlwaysOk(cfg, actions);
    PreparedUnique(cfg, Run(cfg, actions), r1, r2, sn, d1, d2);
  }

  /** A correct replica that executes a number has one digest with quorums for it. */
  lemma ExecutesOne(cfg: Config, actions: seq<Action>, i: nat, r: nat, sn: nat) returns (d: Digest)
    requires WellFormed(cfg) && R.TimelyRun(cfg, actions) && i <= |actions|
    requires Executes(cfg, R.Run(cfg, actions[..i]), r, sn)
    ensures Certifies(cfg, R.Run(cfg, actions[..i]), r, sn, d)
  {
    var t := Run(cfg, actions[..i]);
    SlotIsCell(cfg, actions, i, r, sn);
    CellsAlwaysOk(cfg, actions[..i]);
    var p;
    p, d := ReachedHasQuorums(cfg, t, r, sn);
    OneDigest(cfg, t, r, r, sn, d);
    assert forall e :: CommitCertified(cfg, t, r, sn, e) <==> CommitsFor(cfg, R.Run(cfg, actions[..i]), r, sn, e);
    assert forall e :: Prepared(cfg, t, r, sn, e) <==> PreparesFor(cfg, R.Run(cfg, actions[..i]), r, sn, e);
  }

  /**
    * Agreement. In every timely run, whoever the primary is: when two correct replicas execute a number, each at
    * its own moment, one digest holds the commit quorum at both, and no other digest has a prepare or commit
    * quorum at either.
    */
  lemma Agreement(cfg: Config, actions: seq<Action>, i: nat, j: nat, r1: nat, r2: nat, sn: nat) returns (d: Digest)
    requires WellFormed(cfg) && R.TimelyRun(cfg, actions) && i <= |actions| && j <= |actions|
    requires Executes(cfg, R.Run(cfg, actions[..i]), r1, sn) && Executes(cfg, R.Run(cfg, actions[..j]), r2, sn)
    ensures Certifies(cfg, R.Run(cfg, actions[..i]), r1, sn, d)
    ensures Certifies(cfg, R.Run(cfg, actions[..j]), r2, sn, d)
  {
    d := ExecutesOne(cfg, actions, i, r1, sn);
    var e := ExecutesOne(cfg, actions, j, r2, sn);
    assert PreparesFor(cfg, R.Run(cfg, actions[..i]), r1, sn, d);
    assert PreparesFor(cfg, R.Run(cfg, actions[..j]), r2, sn, e);
    OnePrepared(cfg, actions, i, j, r1, r2, sn, d, e);
  }
}
