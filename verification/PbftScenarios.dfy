/** Runs of four replicas in which what one might expect of the protocol fails. */
module PbftScenarios {
  import opened Messages
  import opened OrderedKeys
  import opened Modular
  import opened CollectorPool
  import opened Pbft
  import opened PbftRing
  import opened PbftAgreement
    import opened Script
  import C = Collector
  import E = Executor

  const SCENE: Config := Four({1})

  lemma SceneHolds()
    ensures Scene(SCENE) && SCENE.capacity == 4 && forall r :: Correct(SCENE, r) <==> r in {2, 3, 4}
  {
    FourFormed({1});
  }

  ghost predicate Opening(cfg: Config, p: seq<Rings>)
    requires Scene(cfg)
  {
    && Path(cfg, p) && p[0] == Run(cfg, [])
    && forall r :: Correct(cfg, r) ==>
         Last(p).replicas[r] == Replica(NewRing(cfg.capacity, true), InitialControl())
  }

  /** Nothing has happened but what the faulty replica sent. */
  lemma Open(cfg: Config, msgs: seq<Request>) returns (p: seq<Rings>)
    requires Scene(cfg) && forall m :: m in msgs ==> m.sender in cfg.faulty
    ensures Opening(cfg, p) && (forall m :: m in Last(p).sent <==> m in msgs) && Last(p).viewChanges == {}
  {
    var start := [Run(cfg, [])];
    assert Path(cfg, start) by {
      forall i ensures Link(cfg, start, i) {}
    }
    p := SendAll(cfg, start, msgs);
  }

  lemma FreshSeat(cfg: Config, p: seq<Rings>, r: nat, sn: nat)
    requires Scene(cfg) && Opening(cfg, p) && Correct(cfg, r) && sn < 2 * cfg.capacity
    ensures Seat(cfg, Last(p), r, sn, C.Idle, C.Vacant, map[], map[])
    ensures SlotFor(cfg, Last(p).replicas[r], sn) == C.Fresh(sn, true)
  {
    Quotient(sn, 2 * cfg.capacity, 0, sn);
    assert NewRing(cfg.capacity, true)[sn] == C.Fresh(sn, true);
  }

  function Votes3(sn: nat, d: Digest): seq<Request> {
    [Msg(PrePrepare, sn, d, 1), Msg(Prepare, sn, d, 1), Msg(Commit, sn, d, 1)]
  }

  // ----- two digests executed for one number

  ghost predicate Settled(s: Rings, r: nat, d: Digest, voters: set<nat>)
    requires Scene(SCENE) && Shaped(SCENE, s)
  {
    Seat(SCENE, s, r, 5, C.Executed, C.Taken(Msg(PrePrepare, 5, d, 1)), map[d := voters], map[d := voters])
  }

  ghost predicate IdleAt(s: Rings, r: nat, sn: nat)
    requires Scene(SCENE) && Shaped(SCENE, s)
  {
    Seat(SCENE, s, r, sn, C.Idle, C.Vacant, map[], map[])
  }

  /** Number 1 is untouched, replica 4 has seen nothing for number 5, and replica 3 has executed nothing. */
  ghost predicate Untried(s: Rings)
    requires Scene(SCENE) && Shaped(SCENE, s)
  {
    && IdleAt(s, 2, 1) && IdleAt(s, 3, 1) && IdleAt(s, 4, 5)
    && s.replicas[3].ctl.commitQueue == [] && s.replicas[3].ctl.executor == E.INITIAL
    && forall m :: m in Votes3(1, "x") + Votes3(5, "b") ==> m in s.sent
  }

  lemma OpenBoth() returns (p: seq<Rings>)
    requires Scene(SCENE)
    ensures Path(SCENE, p) && p[0] == Run(SCENE, []) && Untried(Last(p)) && IdleAt(Last(p), 2, 5)
    ensures IdleAt(Last(p), 3, 5)
    ensures forall m :: m in Votes3(5, "a") ==> m in Last(p).sent
  {
    SceneHolds();
    p := Open(SCENE, Votes3(5, "a") + (Votes3(1, "x") + Votes3(5, "b")));
    FreshSeat(SCENE, p, 2, 1);
    FreshSeat(SCENE, p, 3, 1);
    FreshSeat(SCENE, p, 2, 5);
    FreshSeat(SCENE, p, 3, 5);
    FreshSeat(SCENE, p, 4, 5);
  }

  /** Replicas 2 and 3 take number 5 early, and prepare digest a for it. */
  lemma EarlyPrepared() returns (p: seq<Rings>)
    requires Scene(SCENE)
    ensures Path(SCENE, p) && p[0] == Run(SCENE, []) && Untried(Last(p))
    ensures forall v :: v in {1, 2, 3} ==> Msg(Commit, 5, "a", v) in Last(p).sent
    ensures Seat(SCENE, Last(p), 2, 5, C.ReadyCommit, C.Held(Info(PrePrepare, 5, "a", 1)), map["a" := {1, 2, 3}], map[])
  {
    SceneHolds();
    var p0 := OpenBoth();
    var msgs := Votes3(5, "a");
    assert msgs[0] in msgs && msgs[1] in msgs && msgs[2] in msgs;
    p := Round(SCENE, p0, 5, "a", 1, 2, 3);
    UntriedKept(Last(p0), Last(p));
  }

  lemma UntriedKept(s: Rings, s': Rings)
    requires Scene(SCENE) && Shaped(SCENE, s) && Shaped(SCENE, s') && Untried(s) && Kept(SCENE, s, s', 2, 3, 5)
    ensures Untried(s')
  {
    SceneHolds();
    assert SlotOf(4, 1) == 1 && SlotOf(4, 5) == 5;
    KeptSeat(SCENE, s, s', 2, 3, 5, 2, 1, C.Idle, C.Vacant, map[], map[]);
    KeptSeat(SCENE, s, s', 2, 3, 5, 3, 1, C.Idle, C.Vacant, map[], map[]);
    KeptSeat(SCENE, s, s', 2, 3, 5, 4, 5, C.Idle, C.Vacant, map[], map[]);
    assert KeptReplica(SCENE, s.replicas[3], s'.replicas[3], true, 5);
  }

  /** Replica 2 executes digest a for number 5. */
  lemma FirstDigest() returns (p: seq<Rings>)
    requires Scene(SCENE)
    ensures Path(SCENE, p) && p[0] == Run(SCENE, []) && Settled(Last(p), 2, "a", {1, 2, 3}) && Untried(Last(p))
  {
    SceneHolds();
    var p0 := EarlyPrepared();
    p := TakeCommits(SCENE, p0, 2, 5, "a", Info(PrePrepare, 5, "a", 1), map["a" := {1, 2, 3}], 1, 2, 3);
    assert SlotOf(4, 1) == 1 && SlotOf(4, 5) == 5;
  }

  /** Number 1 is prepared at replicas 2 and 3. */
  lemma PrepareOne(p: seq<Rings>) returns (p': seq<Rings>)
    requires Scene(SCENE) && Path(SCENE, p) && Settled(Last(p), 2, "a", {1, 2, 3})
    requires Msg(PrePrepare, 1, "x", 1) in Last(p).sent && Msg(Prepare, 1, "x", 1) in Last(p).sent
    requires Seat(SCENE, Last(p), 2, 1, C.Idle, C.Vacant, map[], map[])
    requires Seat(SCENE, Last(p), 3, 1, C.Idle, C.Vacant, map[], map[])
    requires Seat(SCENE, Last(p), 4, 5, C.Idle, C.Vacant, map[], map[])
    ensures Path(SCENE, p') && p'[0] == p[0] && Last(p).sent <= Last(p').sent
    ensures Settled(Last(p'), 2, "a", {1, 2, 3}) && Seat(SCENE, Last(p'), 4, 5, C.Idle, C.Vacant, map[], map[])
    ensures Seat(SCENE, Last(p'), 3, 1, C.ReadyCommit, C.Held(Info(PrePrepare, 1, "x", 1)),
                 map["x" := {1, 2, 3}], map[])
    ensures Msg(Commit, 1, "x", 2) in Last(p').sent && Msg(Commit, 1, "x", 3) in Last(p').sent
    ensures Last(p').replicas[3].ctl.commitQueue == Last(p).replicas[3].ctl.commitQueue
    ensures Last(p').replicas[3].ctl.executor == Last(p).replicas[3].ctl.executor
  {
    assert SlotOf(SCENE.capacity, 5) == 5 && SlotOf(SCENE.capacity, 1) == 1;
    p' := Round(SCENE, p, 1, "x", 1, 2, 3);
    KeptSeat(SCENE, Last(p), Last(p'), 2, 3, 1, 4, 5, C.Idle, C.Vacant, map[], map[]);
    KeptSeat(SCENE, Last(p), Last(p'), 2, 3, 1, 2, 5, C.Executed, C.Taken(Msg(PrePrepare, 5, "a", 1)),
             map["a" := {1, 2, 3}], map["a" := {1, 2, 3}]);
    assert KeptReplica(SCENE, Last(p).replicas[3], Last(p').replicas[3], true, 1);
  }

  /** Number 1 is committed at replica 3. */
  lemma CommitOne(p: seq<Rings>) returns (p': seq<Rings>)
    requires Scene(SCENE) && Path(SCENE, p) && Settled(Last(p), 2, "a", {1, 2, 3})
    requires Seat(SCENE, Last(p), 4, 5, C.Idle, C.Vacant, map[], map[])
    requires Seat(SCENE, Last(p), 3, 1, C.ReadyCommit, C.Held(Info(PrePrepare, 1, "x", 1)),
                  map["x" := {1, 2, 3}], map[])
    requires Msg(Commit, 1, "x", 1) in Last(p).sent && Msg(Commit, 1, "x", 2) in Last(p).sent
    requires Msg(Commit, 1, "x", 3) in Last(p).sent
    requires Last(p).replicas[3].ctl.commitQueue == [] && Last(p).replicas[3].ctl.executor == E.INITIAL
    ensures Path(SCENE, p') && p'[0] == p[0] && Last(p).sent <= Last(p').sent
    ensures Settled(Last(p'), 2, "a", {1, 2, 3}) && Seat(SCENE, Last(p'), 4, 5, C.Idle, C.Vacant, map[], map[])
    ensures SlotFor(SCENE, Last(p').replicas[3], 1).sn == 1 && !Last(p').replicas[3].ctl.inViewChange
    ensures Last(p').replicas[3].ctl.commitQueue == [Msg(PrePrepare, 1, "x", 1)]
    ensures Last(p').replicas[3].ctl.executor == E.INITIAL
  {
    p' := TakeCommits(SCENE, p, 3, 1, "x", Info(PrePrepare, 1, "x", 1), map["x" := {1, 2, 3}], 1, 2, 3);
  }

  /** Number 1 is executed at replica 3, which thereby forgets what it did for number 5. */
  lemma Forgetting(p: seq<Rings>) returns (p': seq<Rings>)
    requires Scene(SCENE) && Path(SCENE, p) && Settled(Last(p), 2, "a", {1, 2, 3})
    requires Seat(SCENE, Last(p), 4, 5, C.Idle, C.Vacant, map[], map[]) && Correct(SCENE, 3)
    requires SlotFor(SCENE, Last(p).replicas[3], 1).sn == 1 && !Last(p).replicas[3].ctl.inViewChange
    requires Last(p).replicas[3].ctl.commitQueue == [Msg(PrePrepare, 1, "x", 1)]
    requires Last(p).replicas[3].ctl.executor == E.INITIAL
    ensures Path(SCENE, p') && p'[0] == p[0] && Last(p').sent == Last(p).sent && Settled(Last(p'), 2, "a", {1, 2, 3})
    ensures Seat(SCENE, Last(p'), 3, 5, C.Idle, C.Vacant, map[], map[])
    ensures Seat(SCENE, Last(p'), 4, 5, C.Idle, C.Vacant, map[], map[])
  {
    p' := ExecuteOne(SCENE, p, 3, Msg(PrePrepare, 1, "x", 1));
    assert SlotFor(SCENE, Last(p').replicas[3], 5) == C.Fresh(5, true);
  }

  /** Replicas 3 and 4 agree on digest b for number 5. */
  lemma SecondDigest(p: seq<Rings>) returns (p': seq<Rings>)
    requires Scene(SCENE) && Path(SCENE, p) && Settled(Last(p), 2, "a", {1, 2, 3})
    requires forall m :: m in Votes3(5, "b") ==> m in Last(p).sent
    requires Seat(SCENE, Last(p), 3, 5, C.Idle, C.Vacant, map[], map[])
    requires Seat(SCENE, Last(p), 4, 5, C.Idle, C.Vacant, map[], map[])
    ensures Path(SCENE, p') && p'[0] == p[0]
    ensures Settled(Last(p'), 2, "a", {1, 2, 3}) && Settled(Last(p'), 4, "b", {1, 3, 4})
  {
    var p1 := Round(SCENE, p, 5, "b", 1, 3, 4);
    assert KeptReplica(SCENE, Last(p).replicas[2], Last(p1).replicas[2], false, 5);
    p' := TakeCommits(SCENE, p1, 4, 5, "b", Info(PrePrepare, 5, "b", 1), map["b" := {1, 3, 4}], 1, 3, 4);
  }

  lemma SettledMeans(s: Rings, r: nat, d: Digest, voters: set<nat>)
    requires Scene(SCENE) && Shaped(SCENE, s) && Settled(s, r, d, voters) && |voters| >= 3
    ensures Executes(SCENE, s, r, 5) && CommitsFor(SCENE, s, r, 5, d)
  {
  }

  lemma BothDigests() returns (p: seq<Rings>)
    requires Scene(SCENE)
    ensures Path(SCENE, p) && p[0] == Run(SCENE, [])
    ensures Settled(Last(p), 2, "a", {1, 2, 3}) && Settled(Last(p), 4, "b", {1, 3, 4})
  {
    SceneHolds();
    var p1 := FirstDigest();
    assert forall m :: m in Votes3(1, "x") || m in Votes3(5, "b") ==> m in Votes3(1, "x") + Votes3(5, "b");
    assert Votes3(1, "x")[0] in Votes3(1, "x") && Votes3(1, "x")[1] in Votes3(1, "x");
    assert Votes3(1, "x")[2] in Votes3(1, "x");
    var p2 := PrepareOne(p1);
    var p3 := CommitOne(p2);
    var p4 := Forgetting(p3);
    p := SecondDigest(p4);
  }

  /**
    * Disagreement without timeliness: a run in which two correct replicas execute number 5 with commit quorums
    * for different digests. Replica 3 takes the early proposal a, prepares and commits it, executes number 1,
    * which renews its slot for 5, and then prepares and commits b.
    */
  lemma EarlyDisagreement() returns (acts: seq<Action>)
    ensures WellFormed(SCENE)
    ensures Executes(SCENE, Run(SCENE, acts), 2, 5) && CommitsFor(SCENE, Run(SCENE, acts), 2, 5, "a")
    ensures Executes(SCENE, Run(SCENE, acts), 4, 5) && CommitsFor(SCENE, Run(SCENE, acts), 4, 5, "b")
  {
    SceneHolds();
    var p := BothDigests();
    Growing(1, 2, 3);
    Growing(1, 3, 4);
    SettledMeans(Last(p), 2, "a", {1, 2, 3});
    SettledMeans(Last(p), 4, "b", {1, 3, 4});
    acts := PathIsRun(SCENE, p);
  }

  // ----- two logs that differ

  ghost predicate Waits(cfg: Config, s: Rings, r: nat)
    requires Scene(cfg) && Shaped(cfg, s)
  {
    Correct(cfg, r) && s.replicas[r].ctl == InitialControl() && Lane(cfg, s.replicas[r], 1)
  }

  lemma OpenWaiting(cfg: Config, msgs: seq<Request>) returns (p: seq<Rings>)
    requires Scene(cfg) && (forall m :: m in msgs ==> m.sender in cfg.faulty)
    requires Correct(cfg, 2) && Correct(cfg, 3) && Correct(cfg, 4)
    ensures Path(cfg, p) && p[0] == Run(cfg, []) && (forall m :: m in Last(p).sent <==> m in msgs)
    ensures Last(p).viewChanges == {} && Waits(cfg, Last(p), 2) && Waits(cfg, Last(p), 3) && Waits(cfg, Last(p), 4)
  {
    p := Open(cfg, msgs);
    FirstLane(cfg, Last(p).replicas[2]);
    FirstLane(cfg, Last(p).replicas[3]);
    FirstLane(cfg, Last(p).replicas[4]);
  }

  lemma VotesSent(sn: nat, d: Digest, sent: set<Request>)
    requires forall m :: m in Votes3(sn, d) ==> m in sent
    ensures Msg(PrePrepare, sn, d, 1) in sent && Msg(Prepare, sn, d, 1) in sent && Msg(Commit, sn, d, 1) in sent
  {
    var msgs := Votes3(sn, d);
    assert msgs[0] in msgs && msgs[1] in msgs && msgs[2] in msgs;
  }

  /** Replica 4 has a proposal for a, sees b prepared, and takes a proposal for c. */
  lemma LateAtFour(p: seq<Rings>) returns (p': seq<Rings>)
    requires Scene(SCENE) && Path(SCENE, p) && Waits(SCENE, Last(p), 4)
    requires forall v :: v in {1, 2, 3} ==> Msg(Prepare, 1, "b", v) in Last(p).sent
    requires Msg(PrePrepare, 1, "a", 1) in Last(p).sent && Msg(PrePrepare, 1, "c", 1) in Last(p).sent
    ensures Path(SCENE, p') && p'[0] == p[0] && Kept(SCENE, Last(p), Last(p'), 4, 4, 1)
    ensures Seat(SCENE, Last(p'), 4, 1, C.ReadyCommit, C.Held(Info(PrePrepare, 1, "c", 1)),
                 map["b" := {1, 2, 3}], map[])
  {
    LaneSeat(SCENE, Last(p), 4, 1, 1);
    var p1 := TakeProposal(SCENE, p, 4, 1, "a");
    ChangedKept(SCENE, Last(p), Last(p1), 4, 1, {Msg(Prepare, 1, "a", 4)}, 4, 4);
    var p2 := TakePrepares(SCENE, p1, 4, 1, "b", Info(PrePrepare, 1, "a", 1), 1, 2, 3);
    ChangedKept(SCENE, Last(p1), Last(p2), 4, 1, {Msg(Commit, 1, "b", 4)}, 4, 4);
    KeptTwice(SCENE, Last(p), Last(p1), Last(p2), 4, 4, 1);
    p' := TakeLateProposal(SCENE, p2, 4, 1, "c", map["b" := {1, 2, 3}]);
    ChangedKept(SCENE, Last(p2), Last(p'), 4, 1, {}, 4, 4);
    KeptTwice(SCENE, Last(p), Last(p2), Last(p'), 4, 4, 1);
  }

  lemma OpenLog() returns (p: seq<Rings>)
    requires Scene(SCENE)
    ensures Path(SCENE, p) && p[0] == Run(SCENE, [])
    ensures Waits(SCENE, Last(p), 2) && Waits(SCENE, Last(p), 3) && Waits(SCENE, Last(p), 4)
    ensures forall m :: m in Last(p).sent ==> m.sn == 1
    ensures Msg(PrePrepare, 1, "b", 1) in Last(p).sent && Msg(Prepare, 1, "b", 1) in Last(p).sent
    ensures Msg(Commit, 1, "b", 1) in Last(p).sent
    ensures Msg(PrePrepare, 1, "a", 1) in Last(p).sent && Msg(PrePrepare, 1, "c", 1) in Last(p).sent
  {
    var more := [Msg(PrePrepare, 1, "a", 1), Msg(PrePrepare, 1, "c", 1)];
    SceneHolds();
    p := OpenWaiting(SCENE, Votes3(1, "b") + more);
    assert more[0] in more && more[1] in more;
    VotesSent(1, "b", Last(p).sent);
  }

  /** Replicas 2 and 3 have executed b for number 1; replica 4 has seen nothing. */
  lemma FirstLog() returns (p: seq<Rings>)
    requires Scene(SCENE)
    ensures Path(SCENE, p) && p[0] == Run(SCENE, []) && Waits(SCENE, Last(p), 4) && 2 in Last(p).replicas
    ensures forall m :: m in Last(p).sent ==> m.sn == 1
    ensures forall v :: v in {1, 2, 3} ==>
      Msg(Prepare, 1, "b", v) in Last(p).sent && Msg(Commit, 1, "b", v) in Last(p).sent
    ensures Msg(PrePrepare, 1, "a", 1) in Last(p).sent && Msg(PrePrepare, 1, "c", 1) in Last(p).sent
    ensures Last(p).replicas[2].ctl.executor.delivered == [Msg(PrePrepare, 1, "b", 1)]
  {
    var p0 := OpenLog();
    p := OrderPair(SCENE, p0, 1, "b", 1, 2, 3);
    assert [] + [Msg(PrePrepare, 1, "b", 1)] == [Msg(PrePrepare, 1, "b", 1)];
  }

  lemma BothLogs() returns (p: seq<Rings>)
    requires Scene(SCENE)
    ensures Path(SCENE, p) && p[0] == Run(SCENE, []) && 2 in Last(p).replicas && 4 in Last(p).replicas
    ensures forall m :: m in Last(p).sent ==> m.sn == 1
    ensures Last(p).replicas[2].ctl.executor.delivered == [Msg(PrePrepare, 1, "b", 1)]
    ensures Last(p).replicas[4].ctl.executor.delivered == [Msg(PrePrepare, 1, "c", 1)]
  {
    SceneHolds();
    var p1 := FirstLog();
    var p2 := LateAtFour(p1);
    OthersKept(SCENE, Last(p1), Last(p2), 4, 4, 1);
    assert KeptReplica(SCENE, Last(p1).replicas[4], Last(p2).replicas[4], true, 1);
    p := FinishNext(SCENE, p2, 4, 1, "b", Info(PrePrepare, 1, "c", 1), map["b" := {1, 2, 3}], 1, 2, 3);
    assert [] + [Msg(PrePrepare, 1, "c", 1)] == [Msg(PrePrepare, 1, "c", 1)];
  }

  /** A timely run under a faulty primary in which the logs of two correct replicas differ. */
  lemma LogsDiffer() returns (acts: seq<Action>)
    ensures WellFormed(SCENE) && TimelyRun(SCENE, acts)
    ensures Run(SCENE, acts).replicas[2].ctl.executor.delivered == [Msg(PrePrepare, 1, "b", 1)]
    ensures Run(SCENE, acts).replicas[4].ctl.executor.delivered == [Msg(PrePrepare, 1, "c", 1)]
  {
    SceneHolds();
    var p := BothLogs();
    acts := PathIsRun(SCENE, p);
    SmallNumbersTimely(SCENE, acts);
  }

  // ----- state transfer under other numbers

  const HONEST: Config := Four({4})

  lemma HonestHolds()
    ensures Scene(HONEST) && HONEST.capacity == 4 && HONEST.maxTxn == 1
    ensures forall r :: Correct(HONEST, r) <==> r in {1, 2, 3}
  {
    FourFormed({4});
  }

  /** Replica 1 proposes the next number. */
  lemma ProposeNext(p: seq<Rings>, sn: nat, d: Digest) returns (p': seq<Rings>)
    requires Scene(HONEST) && Path(HONEST, p) && 1 <= sn <= 2
    requires var ctl := Last(p).replicas[1].ctl; ctl.nextSeq == ctl.executor.next == sn && !ctl.inViewChange
    ensures Path(HONEST, p') && p'[0] == p[0]
    ensures Last(p') == Last(p).(sent := Last(p).sent + {Msg(PrePrepare, sn, d, 1)},
      replicas := Last(p).replicas[1 := Last(p).replicas[1].(ctl := Last(p).replicas[1].ctl.(nextSeq := sn + 1))])
  {
    HonestHolds();
    var ctl := Last(p).replicas[1].ctl;
    assert (ctl.executor.next + MAX64) % (MAX64 + 1) == sn - 1;
    assert NewRequest(HONEST, 1, ctl, d) == (ctl.(nextSeq := sn + 1), {Msg(PrePrepare, sn, d, 1)});
    Extend(HONEST, p, Propose(1, d, true));
    p' := p + [Step(HONEST, Last(p), Propose(1, d, true))];
  }

  /** Replicas 1 and 2 are at number sn, and replica 3 has seen nothing. */
  ghost predicate Abreast(s: Rings, sn: nat)
    requires Scene(HONEST) && Shaped(HONEST, s)
  {
    && Correct(HONEST, 1) && Correct(HONEST, 2) && Correct(HONEST, 3)
    && s.replicas[1].ctl.nextSeq == sn && s.replicas[3].ctl == InitialControl()
    && Lane(HONEST, s.replicas[1], sn) && Lane(HONEST, s.replicas[2], sn)
  }

  /** Replica 1 proposes, and with the votes of replica 4 replicas 1 and 2 order and execute the number. */
  lemma OrderBoth(p: seq<Rings>, sn: nat, d: Digest) returns (p': seq<Rings>)
    requires Scene(HONEST) && Path(HONEST, p) && 1 <= sn <= 2 && Abreast(Last(p), sn)
    requires Msg(Prepare, sn, d, 4) in Last(p).sent && Msg(Commit, sn, d, 4) in Last(p).sent
    ensures Path(HONEST, p') && p'[0] == p[0] && Abreast(Last(p'), sn + 1) && Last(p).sent <= Last(p').sent
    ensures forall m :: m in Last(p').sent ==> m in Last(p).sent || m.sn == sn
    ensures Last(p').replicas[2].ctl.executor.delivered
         == Last(p).replicas[2].ctl.executor.delivered + [Msg(PrePrepare, sn, d, 1)]
  {
    var p1 := ProposeNext(p, sn, d);
    LaneSame(HONEST, Last(p).replicas[1], Last(p1).replicas[1], sn);
    p' := OrderPair(HONEST, p1, sn, d, 4, 1, 2);
    LaneOn(HONEST, Last(p1).replicas[1], Last(p').replicas[1], Msg(PrePrepare, sn, d, 1), {4, 1, 2});
    LaneOn(HONEST, Last(p1).replicas[2], Last(p').replicas[2], Msg(PrePrepare, sn, d, 1), {4, 1, 2});
  }

  lemma OpenAbreast() returns (p: seq<Rings>)
    requires Scene(HONEST)
    ensures Path(HONEST, p) && p[0] == Run(HONEST, []) && Abreast(Last(p), 1)
    ensures Last(p).replicas[2].ctl.executor.delivered == [] && forall m :: m in Last(p).sent ==> m.sn <= 2
    ensures Msg(Prepare, 1, "a", 4) in Last(p).sent && Msg(Commit, 1, "a", 4) in Last(p).sent
    ensures Msg(Prepare, 2, "b", 4) in Last(p).sent && Msg(Commit, 2, "b", 4) in Last(p).sent
  {
    HonestHolds();
    var msgs := [Msg(Prepare, 1, "a", 4), Msg(Commit, 1, "a", 4), Msg(Prepare, 2, "b", 4), Msg(Commit, 2, "b", 4)];
    p := Open(HONEST, msgs);
    assert msgs[0] in msgs && msgs[1] in msgs && msgs[2] in msgs && msgs[3] in msgs;
    FirstLane(HONEST, Last(p).replicas[1]);
    FirstLane(HONEST, Last(p).replicas[2]);
  }

  /** The digests a and b, each under the other's number. */
  const SWAPPED: seq<Request> := [Msg(PrePrepare, 2, "a", 1), Msg(PrePrepare, 1, "b", 1)]

  lemma OrderSwapped()
    ensures var e := E.Order(E.Order(E.INITIAL, SWAPPED[0]), SWAPPED[1]);
      e.delivered == [Msg(PrePrepare, 1, "b", 1), Msg(PrePrepare, 2, "a", 1)]
  {
    var q2, q1 := SWAPPED[0], SWAPPED[1];
    var e1 := E.AddNewData(E.INITIAL, q2);
    assert e1.candidates.Keys == {2} && E.Drain(e1) == e1;
    var e2 := E.AddNewData(e1, q1);
    assert e2 == E.State(1, map[2 := q2, 1 := q1], []) && e2.candidates.Keys == {1, 2};
    assert Least(e2.candidates.Keys) == 1;
    var e3 := E.State(2, e2.candidates - {1}, [q1]);
    assert e3.candidates == map[2 := q2] && e3.candidates.Keys == {2} && Least(e3.candidates.Keys) == 2;
    var e4 := E.State(3, e3.candidates - {2}, [q1, q2]);
    assert e4.candidates == map[] && [] + [q1] == [q1] && [q1] + [q2] == [q1, q2];
    assert E.Drain(e2) == E.Drain(e3) && E.Drain(e3) == E.Drain(e4) && E.Drain(e4) == e4;
  }

  /** Replica 3, which has executed nothing, fetches both requests and executes them. */
  lemma FetchSwapped(p: seq<Rings>) returns (p': seq<Rings>)
    requires Scene(HONEST) && Path(HONEST, p) && Abreast(Last(p), 3)
    requires Last(p).replicas[2].ctl.executor.delivered == [Msg(PrePrepare, 1, "a", 1), Msg(PrePrepare, 2, "b", 1)]
    ensures Path(HONEST, p') && p'[0] == p[0] && Last(p').sent == Last(p).sent
    ensures Last(p').replicas[2] == Last(p).replicas[2]
    ensures Last(p').replicas[3].ctl.executor.delivered == [Msg(PrePrepare, 1, "b", 1), Msg(PrePrepare, 2, "a", 1)]
  {
    HonestHolds();
    var s := Last(p);
    var log := s.replicas[2].ctl.executor.delivered;
    assert log[0..2] == log;
    assert Lends(HONEST, s, 3, 2, 0, 2, SWAPPED);
    TransferIs(HONEST, s, 3, 2, 0, 2, SWAPPED);
    Extend(HONEST, p, Transfer(3, 2, 0, 2, SWAPPED));
    var p1 := p + [Step(HONEST, s, Transfer(3, 2, 0, 2, SWAPPED))];
    assert Last(p1).replicas[3].ctl.commitQueue == SWAPPED;
    p' := ExecuteSwapped(p1);
  }

  lemma ExecuteSwapped(p: seq<Rings>) returns (p': seq<Rings>)
    requires Scene(HONEST) && Path(HONEST, p) && Correct(HONEST, 3)
    requires Last(p).replicas[3].ctl.commitQueue == SWAPPED && Last(p).replicas[3].ctl.executor == E.INITIAL
    ensures Path(HONEST, p') && p'[0] == p[0] && Last(p').sent == Last(p).sent
    ensures forall r :: r in Last(p).replicas && r != 3 ==> Last(p').replicas[r] == Last(p).replicas[r]
    ensures Last(p').replicas[3].ctl.executor.delivered == [Msg(PrePrepare, 1, "b", 1), Msg(PrePrepare, 2, "a", 1)]
  {
    RingExecutes(HONEST, Last(p), 3);
    Extend(HONEST, p, Execute(3));
    var p1 := p + [Step(HONEST, Last(p), Execute(3))];
    RingExecutes(HONEST, Last(p1), 3);
    Extend(HONEST, p1, Execute(3));
    p' := p1 + [Step(HONEST, Last(p1), Execute(3))];
    OrderSwapped();
    assert SWAPPED[1..] == [SWAPPED[1]];
  }

  lemma SwappedPath() returns (p: seq<Rings>)
    requires Scene(HONEST)
    ensures Path(HONEST, p) && p[0] == Run(HONEST, []) && (forall m :: m in Last(p).sent ==> m.sn <= 2)
    ensures Last(p).replicas[2].ctl.executor.delivered == [Msg(PrePrepare, 1, "a", 1), Msg(PrePrepare, 2, "b", 1)]
    ensures Last(p).replicas[3].ctl.executor.delivered == [Msg(PrePrepare, 1, "b", 1), Msg(PrePrepare, 2, "a", 1)]
  {
    HonestHolds();
    var p0 := OpenAbreast();
    var p1 := OrderBoth(p0, 1, "a");
    var p2 := OrderBoth(p1, 2, "b");
    assert [] + [Msg(PrePrepare, 1, "a", 1)] + [Msg(PrePrepare, 2, "b", 1)]
        == [Msg(PrePrepare, 1, "a", 1), Msg(PrePrepare, 2, "b", 1)];
    p := FetchSwapped(p2);
  }

  /**
    * A timely run under a correct primary in which the logs of two correct replicas differ: replica 2 has executed
    * a and b; replica 3 fetches the two requests from somebody who numbered them the other way round.
    */
  lemma TransferDiverges() returns (acts: seq<Action>)
    ensures WellFormed(HONEST) && Correct(HONEST, HONEST.primary) && TimelyRun(HONEST, acts)
    ensures Run(HONEST, acts).replicas[2].ctl.executor.delivered
         == [Msg(PrePrepare, 1, "a", 1), Msg(PrePrepare, 2, "b", 1)]
    ensures Run(HONEST, acts).replicas[3].ctl.executor.delivered
         == [Msg(PrePrepare, 1, "b", 1), Msg(PrePrepare, 2, "a", 1)]
  {
    HonestHolds();
    var p := SwappedPath();
    acts := PathIsRun(HONEST, p);
    SmallNumbersTimely(HONEST, acts);
  }
}
