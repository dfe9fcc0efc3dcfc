/** Runs of four replicas in which a view change loses a committed digest; replica 1, the primary, is faulty. */
module PbftLost {
  import opened Messages
  import opened OrderedKeys
  import opened CollectorPool
  import opened ViewChange
  import opened Pbft
  import opened PbftRing
  import opened PbftViewChange
  import opened PbftScenarios
  import opened Script
  import A = PbftAgreement
  import N = NewView
  import C = Collector

  /** Four replicas with rings of eight slots, of which the primary is faulty. */
  ghost predicate Stage(cfg: Config) {
    && Scene(cfg) && cfg.capacity == 4 && 1 in cfg.faulty
    && Correct(cfg, 2) && Correct(cfg, 3) && Correct(cfg, 4)
  }

  // ----- view-change messages

  /** The view-change message a replica would send now, for view 2 and with no stable checkpoint. */
  function Rec(cfg: Config, s: Rings, r: nat): Record
    requires Stage(cfg) && Shaped(cfg, s) && r in s.replicas
  {
    Record(r, ViewChangeOf(cfg, s.replicas[r], 0, 2))
  }

  /** A view-change message for view 2 with nothing in it. */
  function Empty(sender: nat): Record {
    Record(sender, ViewChangeMessage(2, 0, []))
  }

  lemma Announce(cfg: Config, p: seq<Rings>, r: nat) returns (p': seq<Rings>)
    requires Stage(cfg) && Path(cfg, p) && Correct(cfg, r)
    ensures Path(cfg, p') && p'[0] == p[0]
    ensures var s := Last(p);
      Last(p') == s.(viewChanges := s.viewChanges + {Rec(cfg, s, r)},
        replicas := s.replicas[r := s.replicas[r].(ctl := s.replicas[r].ctl.(inViewChange := true))])
  {
    RingStarts(cfg, Last(p), r, 0, 1);
    assert Last(p).sent + {} == Last(p).sent;
    Extend(cfg, p, StartViewChange(r, 0, 1));
    p' := p + [Step(cfg, Last(p), StartViewChange(r, 0, 1))];
  }

  lemma FaultyAnnounce(cfg: Config, p: seq<Rings>) returns (p': seq<Rings>)
    requires Stage(cfg) && Path(cfg, p)
    ensures Path(cfg, p') && p'[0] == p[0]
    ensures Last(p') == Last(p).(viewChanges := Last(p).viewChanges + {Empty(1)})
  {
    RingControls(cfg, Last(p), FaultyViewChange(Empty(1)));
    Extend(cfg, p, FaultyViewChange(Empty(1)));
    p' := p + [Step(cfg, Last(p), FaultyViewChange(Empty(1)))];
  }

  /** Replica r returns to the old view: checkpoint 1, which replica 2 has executed, has become committable. */
  lemma Return(cfg: Config, p: seq<Rings>, r: nat) returns (p': seq<Rings>)
    requires Stage(cfg) && Path(cfg, p) && Correct(cfg, r)
    requires |Last(p).replicas[2].ctl.executor.delivered| >= 1 && Last(p).replicas[r].ctl.committable == 0
    ensures Path(cfg, p') && p'[0] == p[0]
    ensures var s := Last(p);
      Last(p') == s.(replicas :=
        s.replicas[r := s.replicas[r].(ctl := s.replicas[r].ctl.(inViewChange := false, committable := 1))])
  {
    RingControls(cfg, Last(p), Resume(r, 2, 1));
    ResumeIs(cfg, Last(p), r, 2, 1);
    assert Last(p).sent + {} == Last(p).sent;
    Extend(cfg, p, Resume(r, 2, 1));
    p' := p + [Step(cfg, Last(p), Resume(r, 2, 1))];
  }

  /** The collectors are sound, so a message that lists its own slots only is valid. */
  lemma OwnValid(cfg: Config, s: Rings, r: nat, verify: RequestInfo -> bool)
    requires Stage(cfg) && Shaped(cfg, s) && Correct(cfg, r) && PoolInv(cfg, s.replicas[r].pool)
    requires OwnSlots(cfg, s.replicas[r], 0) && forall q :: verify(q)
    ensures N.ValidViewChange(1, Rec(cfg, s, r).msg, true, verify, 3)
  {
    OwnMessageIs(cfg, s.replicas[r], 0, 2, verify);
  }

  lemma {:induction false} PathInv(cfg: Config, p: seq<Rings>, r: nat)
    requires WellFormed(cfg) && Path(cfg, p) && Correct(cfg, r) && Shaped(cfg, p[0])
    requires PoolInv(cfg, p[0].replicas[r].pool)
    ensures PoolInv(cfg, Last(p).replicas[r].pool)
    decreases |p|
  {
    if |p| > 1 {
      var init, a := LastStep(cfg, p);
      PathInv(cfg, init, r);
      StepKeepsInv(cfg, Last(init), a, r);
    }
  }

  /** The message has entries above its checkpoint only, and none for the number. */
  ghost predicate Skips(rec: Record, sn: nat) {
    rec.msg.stable == 0 && forall e :: e in rec.msg.prepared ==> e.sn > 0 && e.sn != sn
  }

  lemma RecSkips(cfg: Config, s: Rings, r: nat, sn: nat)
    requires Stage(cfg) && Shaped(cfg, s) && r in s.replicas && !Listed(cfg, s.replicas[r], 0, sn)
    ensures Skips(Rec(cfg, s, r), sn)
  {
    forall e | e in Rec(cfg, s, r).msg.prepared ensures e.sn > 0 && e.sn != sn {
      EntryMembers(cfg.capacity, s.replicas[r].pool, 0, s.replicas[r].ctl.highestPrepared, e);
    }
  }

  /**
    * What `CommittedSurvives` asks of the digest and of the messages, apart from when these were sent, and no COMMIT
    * for the number in the redo list.
    */
  ghost predicate Lost(cfg: Config, acts: seq<Action>, j: nat, sn: nat, d: Digest, records: seq<Record>,
                       verify: RequestInfo -> bool, self: nat)
  {
    && WellFormed(cfg) && TimelyRun(cfg, acts) && j <= |acts| && 0 < sn <= MAX64
    && A.CommitsFor(cfg, Run(cfg, acts[..j]), 2, sn, d)
    && NewViewSet(cfg, Run(cfg, acts), records, verify) && Proved(Flatten(MessagesOf(records)))
    && (forall rec :: rec in records ==> rec.msg.stable < sn) && FaultyEntriesAgree(cfg, records, sn, d)
    && forall x :: Request(Commit, 2, sn, x, self) !in RedoList(MessagesOf(records), 2, self, {})
  }

  lemma AllProved(records: seq<Record>, verify: RequestInfo -> bool, sn: nat)
    requires forall rec :: rec in records ==> Skips(rec, sn) && N.ValidViewChange(1, rec.msg, true, verify, 3)
    ensures Proved(Flatten(MessagesOf(records)))
  {
    forall e | e in Flatten(MessagesOf(records)) ensures e.proofs != [] {
      var rec := EntrySource(records, e);
      assert Skips(rec, sn);
    }
  }

  /** Messages without an entry for a number make a redo list without a COMMIT for it. */
  lemma NotCarried(records: seq<Record>, sn: nat, self: nat, x: Digest)
    requires records != [] && 0 < sn <= MAX64 && Proved(Flatten(MessagesOf(records)))
    requires forall rec :: rec in records ==> Skips(rec, sn)
    ensures Request(Commit, 2, sn, x, self) !in RedoList(MessagesOf(records), 2, self, {})
  {
    var msgs := MessagesOf(records);
    MessagesAbove(records, sn);
    forall e | e in Flatten(msgs) ensures e.sn != sn {
      var rec := EntrySource(records, e);
      assert Skips(rec, sn);
    }
    RedoCarries(msgs, 2, self, {}, sn, x);
  }

  /** Three valid messages on record, none with an entry for the number. */
  ghost predicate NoneLists(cfg: Config, s: Rings, x: Record, y: Record, z: Record, sn: nat,
                             verify: RequestInfo -> bool)
  {
    && x.sender != y.sender && y.sender != z.sender && x.sender != z.sender
    && forall rec :: rec in [x, y, z] ==> Skipping(s, rec, sn, verify)
  }

  ghost predicate Skipping(s: Rings, rec: Record, sn: nat, verify: RequestInfo -> bool) {
    rec in s.viewChanges && Skips(rec, sn) && N.ValidViewChange(1, rec.msg, true, verify, 3)
  }

  lemma MakesSet(cfg: Config, s: Rings, x: Record, y: Record, z: Record, sn: nat, verify: RequestInfo -> bool)
    requires Stage(cfg) && NoneLists(cfg, s, x, y, z, sn, verify)
    ensures NewViewSet(cfg, s, [x, y, z], verify) && Proved(Flatten(MessagesOf([x, y, z])))
    ensures forall rec :: rec in [x, y, z] ==> Skips(rec, sn)
  {
    var records := [x, y, z];
    ThreeSenders(x, y, z);
    forall rec | rec in records
      ensures rec in s.viewChanges && Skips(rec, sn) && N.ValidViewChange(1, rec.msg, true, verify, 3)
    {
      assert Skipping(s, rec, sn, verify);
    }
    AllProved(records, verify, sn);
  }

  lemma LostBy(cfg: Config, acts: seq<Action>, j: nat, sn: nat, d: Digest, x: Record, y: Record, z: Record,
               verify: RequestInfo -> bool, self: nat)
    requires Stage(cfg) && TimelyRun(cfg, acts) && j <= |acts| && 0 < sn <= MAX64
    requires A.CommitsFor(cfg, Run(cfg, acts[..j]), 2, sn, d)
    requires NoneLists(cfg, Run(cfg, acts), x, y, z, sn, verify)
    ensures Lost(cfg, acts, j, sn, d, [x, y, z], verify, self)
  {
    MakesSet(cfg, Run(cfg, acts), x, y, z, sn, verify);
    forall e: Digest ensures Request(Commit, 2, sn, e, self) !in RedoList(MessagesOf([x, y, z]), 2, self, {}) {
      NotCarried([x, y, z], sn, self, e);
    }
    SkipAgree(cfg, [x, y, z], sn, d);
  }

  lemma SkipAgree(cfg: Config, records: seq<Record>, sn: nat, d: Digest)
    requires sn > 0 && forall rec :: rec in records ==> Skips(rec, sn)
    ensures FaultyEntriesAgree(cfg, records, sn, d) && forall rec :: rec in records ==> rec.msg.stable < sn
  {
  }

  lemma ThreeSenders(x: Record, y: Record, z: Record)
    requires x.sender != y.sender && y.sender != z.sender && x.sender != z.sender
    ensures |SendersOf([x, y, z])| == 3
  {
    var records := [x, y, z];
    assert records[0] in records && records[1] in records && records[2] in records;
    assert SendersOf(records) == {x.sender, y.sender, z.sender};
    Growing(x.sender, y.sender, z.sender);
  }

  lemma CommittedAt(cfg: Config, s: Rings, r: nat, sn: nat, q: Request, voters: set<nat>)
    requires Stage(cfg) && Shaped(cfg, s) && Correct(cfg, r) && |voters| >= 3
    requires At(SlotFor(cfg, s.replicas[r], sn), sn, C.Executed, C.Taken(q),
                map[q.hash := voters], map[q.hash := voters])
    ensures A.CommitsFor(cfg, s, r, sn, q.hash)
  {
  }

  // ----- committed after the messages were sent

  /** Replica 1 has sent proposals and votes for d as number 1 and e as number 2. */
  lemma OpenTwo(cfg: Config) returns (p: seq<Rings>)
    requires Stage(cfg)
    ensures Path(cfg, p) && p[0] == Run(cfg, []) && Last(p).viewChanges == {}
    ensures Waits(cfg, Last(p), 2) && Waits(cfg, Last(p), 3) && Waits(cfg, Last(p), 4)
    ensures forall m :: m in Last(p).sent ==> m.sn <= 2
    ensures Msg(PrePrepare, 1, "d", 1) in Last(p).sent && Msg(Prepare, 1, "d", 1) in Last(p).sent
    ensures Msg(Commit, 1, "d", 1) in Last(p).sent
    ensures Msg(PrePrepare, 2, "e", 1) in Last(p).sent && Msg(Prepare, 2, "e", 1) in Last(p).sent
    ensures Msg(Commit, 2, "e", 1) in Last(p).sent
  {
    p := OpenWaiting(cfg, Votes3(1, "d") + Votes3(2, "e"));
    PbftScenarios.VotesSent(1, "d", Last(p).sent);
    PbftScenarios.VotesSent(2, "e", Last(p).sent);
  }

  lemma NearTwo(cfg: Config, s: Rings, sent: set<Request>)
    requires Stage(cfg) && Shaped(cfg, s) && forall m :: m in sent ==> m.sn <= 2
    ensures Near(cfg, s, sent)
  {
  }

  lemma StartInv(cfg: Config, r: nat)
    requires WellFormed(cfg) && Correct(cfg, r)
    ensures PoolInv(cfg, Run(cfg, []).replicas[r].pool)
  {
    PoolsAlwaysInv(cfg, [], r);
  }

  /** Replica r has executed number 1 and prepared nothing else. */
  ghost predicate FirstAt(cfg: Config, s: Rings, r: nat)
    requires Stage(cfg) && Shaped(cfg, s)
  {
    && Correct(cfg, r) && Lane(cfg, s.replicas[r], 2) && SlotFor(cfg, s.replicas[r], 1).sn == 1
    && s.replicas[r].ctl.highestPrepared == 1 && s.replicas[r].ctl.committable == 0
    && s.replicas[r].ctl.executor.delivered == [Msg(PrePrepare, 1, "d", 1)]
  }

  lemma PassedFirst(cfg: Config, s: Rings, s': Rings, r: nat, voters: set<nat>)
    requires Stage(cfg) && Shaped(cfg, s) && Shaped(cfg, s') && Waits(cfg, s, r)
    requires Passed(cfg, s.replicas[r], s'.replicas[r], Msg(PrePrepare, 1, "d", 1), voters)
    ensures FirstAt(cfg, s', r)
  {
    LaneOn(cfg, s.replicas[r], s'.replicas[r], Msg(PrePrepare, 1, "d", 1), voters);
    assert [] + [Msg(PrePrepare, 1, "d", 1)] == [Msg(PrePrepare, 1, "d", 1)];
  }

  lemma FirstRecord(cfg: Config, s: Rings, r: nat, verify: RequestInfo -> bool)
    requires Stage(cfg) && Shaped(cfg, s) && FirstAt(cfg, s, r) && PoolInv(cfg, s.replicas[r].pool)
    requires forall q :: verify(q)
    ensures N.ValidViewChange(1, Rec(cfg, s, r).msg, true, verify, 3) && Skips(Rec(cfg, s, r), 2)
  {
    assert OwnSlots(cfg, s.replicas[r], 0);
    OwnValid(cfg, s, r, verify);
    RecSkips(cfg, s, r, 2);
  }

  /** Messages for number 2 have been sent, and none for a later one. */
  ghost predicate Second(s: Rings) {
    && (forall m :: m in s.sent ==> m.sn <= 2)
    && Msg(PrePrepare, 2, "e", 1) in s.sent && Msg(Prepare, 2, "e", 1) in s.sent && Msg(Commit, 2, "e", 1) in s.sent
  }

  /** Number 1 is executed at replica 2 and at another one. */
  lemma FirstDone(cfg: Config, y: nat) returns (p: seq<Rings>)
    requires Stage(cfg) && y in {3, 4}
    ensures Path(cfg, p) && p[0] == Run(cfg, []) && Last(p).viewChanges == {} && Second(Last(p))
    ensures FirstAt(cfg, Last(p), 2) && FirstAt(cfg, Last(p), y) && (y == 4 ==> Waits(cfg, Last(p), 3))
    ensures PoolInv(cfg, Last(p).replicas[2].pool) && PoolInv(cfg, Last(p).replicas[y].pool)
  {
    var p0 := OpenTwo(cfg);
    p := OrderPair(cfg, p0, 1, "d", 1, 2, y);
    PassedFirst(cfg, Last(p0), Last(p), 2, {1, 2, y});
    PassedFirst(cfg, Last(p0), Last(p), y, {1, 2, y});
    StartInv(cfg, 2);
    StartInv(cfg, y);
    PathInv(cfg, p, 2);
    PathInv(cfg, p, y);
  }

  /** Replicas 2 and 3 send their messages, and replica 1 sends one too. */
  lemma Away(cfg: Config, p: seq<Rings>) returns (p': seq<Rings>)
    requires Stage(cfg) && Path(cfg, p) && Last(p).viewChanges == {}
    ensures Path(cfg, p') && p'[0] == p[0] && Last(p').sent == Last(p).sent
    ensures Last(p').viewChanges == {Rec(cfg, Last(p), 2), Rec(cfg, Last(p), 3), Empty(1)}
    ensures forall r :: r in {2, 3} ==>
      Last(p').replicas[r] == Last(p).replicas[r].(ctl := Last(p).replicas[r].ctl.(inViewChange := true))
  {
    var p1 := Announce(cfg, p, 2);
    var p2 := Announce(cfg, p1, 3);
    p' := FaultyAnnounce(cfg, p2);
    assert Rec(cfg, Last(p1), 3) == Rec(cfg, Last(p), 3);
  }

  /** Both return to the old view. */
  lemma Back(cfg: Config, p: seq<Rings>) returns (p': seq<Rings>)
    requires Stage(cfg) && Path(cfg, p) && |Last(p).replicas[2].ctl.executor.delivered| >= 1
    requires Last(p).replicas[2].ctl.committable == 0 && Last(p).replicas[3].ctl.committable == 0
    ensures Path(cfg, p') && p'[0] == p[0]
    ensures Last(p').sent == Last(p).sent && Last(p').viewChanges == Last(p).viewChanges
    ensures forall r :: r in {2, 3} ==>
      var rep := Last(p).replicas[r];
      Last(p').replicas[r] == rep.(ctl := rep.ctl.(inViewChange := false, committable := 1))
  {
    var p1 := Return(cfg, p, 2);
    p' := Return(cfg, p1, 3);
  }

  lemma AwayAndBack(cfg: Config, p: seq<Rings>) returns (p': seq<Rings>)
    requires Stage(cfg) && Path(cfg, p) && Last(p).viewChanges == {}
    requires FirstAt(cfg, Last(p), 2) && FirstAt(cfg, Last(p), 3)
    ensures Path(cfg, p') && p'[0] == p[0] && Last(p').sent == Last(p).sent
    ensures Last(p').viewChanges == {Rec(cfg, Last(p), 2), Rec(cfg, Last(p), 3), Empty(1)}
    ensures Lane(cfg, Last(p').replicas[2], 2) && Lane(cfg, Last(p').replicas[3], 2)
  {
    var p1 := Away(cfg, p);
    p' := Back(cfg, p1);
    LaneSame(cfg, Last(p).replicas[2], Last(p').replicas[2], 2);
    LaneSame(cfg, Last(p).replicas[3], Last(p').replicas[3], 2);
  }

  /** They order number 2. */
  lemma SecondDone(cfg: Config, p: seq<Rings>) returns (p': seq<Rings>)
    requires Stage(cfg) && Path(cfg, p) && Second(Last(p))
    requires Lane(cfg, Last(p).replicas[2], 2) && Lane(cfg, Last(p).replicas[3], 2)
    ensures Path(cfg, p') && p'[0] == p[0] && A.CommitsFor(cfg, Last(p'), 2, 2, "e")
    ensures Last(p').viewChanges == Last(p).viewChanges && forall m :: m in Last(p').sent ==> m.sn <= 2
  {
    p' := OrderPair(cfg, p, 2, "e", 1, 2, 3);
    Growing(1, 2, 3);
    CommittedAt(cfg, Last(p'), 2, 2, Msg(PrePrepare, 2, "e", 1), {1, 2, 3});
  }

  lemma LaterPath(cfg: Config, verify: RequestInfo -> bool) returns (p: seq<Rings>, y: Record, z: Record)
    requires Stage(cfg) && forall q :: verify(q)
    ensures Path(cfg, p) && p[0] == Run(cfg, []) && (forall m :: m in Last(p).sent ==> m.sn <= 2)
    ensures A.CommitsFor(cfg, Last(p), 2, 2, "e")
    ensures NoneLists(cfg, Last(p), Empty(1), y, z, 2, verify)
  {
    var p1 := FirstDone(cfg, 3);
    y, z := Rec(cfg, Last(p1), 2), Rec(cfg, Last(p1), 3);
    FirstRecord(cfg, Last(p1), 2, verify);
    FirstRecord(cfg, Last(p1), 3, verify);
    var p2 := AwayAndBack(cfg, p1);
    p := SecondDone(cfg, p2);
    assert Skipping(Last(p), Empty(1), 2, verify) && Skipping(Last(p), y, 2, verify) && Skipping(Last(p), z, 2, verify);
  }

  lemma LaterCommitLostIn(cfg: Config, verify: RequestInfo -> bool, self: nat)
    returns (acts: seq<Action>, records: seq<Record>)
    requires Stage(cfg) && forall q :: verify(q)
    ensures Lost(cfg, acts, |acts|, 2, "e", records, verify, self)
  {
    var p, y, z := LaterPath(cfg, verify);
    NearTwo(cfg, p[0], Last(p).sent);
    acts := Follow(cfg, [], p);
    assert acts[..|acts|] == acts;
    records := [Empty(1), y, z];
    LostBy(cfg, acts, |acts|, 2, "e", Empty(1), y, z, verify, self);
  }

  /**
    * With a checkpoint at every number. Replicas 2 and 3 execute number 1 and send their view-change messages; the
    * checkpoint becomes committable and they return to the old view, where they prepare, commit and execute e for
    * number 2. With a message of replica 1 theirs are valid and a quorum, and the redo list has no COMMIT for 2.
    */
  lemma LaterCommitLost(verify: RequestInfo -> bool, self: nat) returns (acts: seq<Action>, records: seq<Record>)
    requires forall q :: verify(q)
    ensures Lost(SCENE, acts, |acts|, 2, "e", records, verify, self)
  {
    SceneHolds();
    acts, records := LaterCommitLostIn(SCENE, verify, self);
  }

  // ----- the mark lowered by state transfer

  /** Number 2 is prepared at replicas 2 and 3, and committed at replica 2; replica 3 has not executed number 1. */
  lemma AheadAtThree(cfg: Config) returns (p: seq<Rings>)
    requires Stage(cfg)
    ensures Path(cfg, p) && p[0] == Run(cfg, []) && Last(p).viewChanges == {} && Second(Last(p))
    ensures A.CommitsFor(cfg, Last(p), 2, 2, "e") && FirstAt(cfg, Last(p), 4)
    ensures Last(p).replicas[2].ctl.executor.delivered == [Msg(PrePrepare, 1, "d", 1)]
    ensures Unused(cfg, Last(p).replicas[3], 1) && PoolInv(cfg, Last(p).replicas[4].pool)
    ensures Msg(Commit, 2, "e", 3) in Last(p).sent && Last(p).replicas[3].ctl.highestPrepared == 2
  {
    var p1 := FirstDone(cfg, 4);
    LaneSeat(cfg, Last(p1), 2, 2, 2);
    LaneSeat(cfg, Last(p1), 3, 1, 2);
    var p2 := Round(cfg, p1, 2, "e", 1, 2, 3);
    AheadKept(cfg, Last(p1), Last(p2));
    p := TakeCommits(cfg, p2, 2, 2, "e", Info(PrePrepare, 2, "e", 1), map["e" := {1, 2, 3}], 1, 2, 3);
    Growing(1, 2, 3);
    CommittedAt(cfg, Last(p), 2, 2, Msg(PrePrepare, 2, "e", 1), {1, 2, 3});
  }

  lemma AheadKept(cfg: Config, s: Rings, s': Rings)
    requires Stage(cfg) && Shaped(cfg, s) && Shaped(cfg, s') && Kept(cfg, s, s', 2, 3, 2) && Waits(cfg, s, 3)
    ensures Unused(cfg, s'.replicas[3], 1) && s'.replicas[4] == s.replicas[4]
    ensures s'.replicas[2].ctl.executor == s.replicas[2].ctl.executor
  {
    OthersKept(cfg, s, s', 2, 3, 2);
    assert KeptReplica(cfg, s.replicas[2], s'.replicas[2], true, 2);
    assert KeptReplica(cfg, s.replicas[3], s'.replicas[3], true, 2);
    DistinctSlots(4, 1, 2);
    assert Unused(cfg, s.replicas[3], 1);
  }

  /** Replica 3 fetches number 1, which lowers its mark to 1. */
  lemma Lowering(cfg: Config, p: seq<Rings>) returns (p': seq<Rings>)
    requires Stage(cfg) && Path(cfg, p)
    requires Last(p).replicas[2].ctl.executor.delivered == [Msg(PrePrepare, 1, "d", 1)]
    ensures Path(cfg, p') && p'[0] == p[0] && Last(p').sent == Last(p).sent
    ensures Last(p').viewChanges == Last(p).viewChanges && Last(p').replicas[4] == Last(p).replicas[4]
    ensures Last(p').replicas[3].pool == Last(p).replicas[3].pool
    ensures Last(p').replicas[3].ctl.highestPrepared == 1
  {
    var s, batch := Last(p), [Msg(PrePrepare, 1, "d", 1)];
    assert batch[0..1] == batch;
    TransferIs(cfg, s, 3, 2, 0, 1, batch);
    RingControls(cfg, s, Transfer(3, 2, 0, 1, batch));
    assert s.sent + {} == s.sent;
    Extend(cfg, p, Transfer(3, 2, 0, 1, batch));
    p' := p + [Step(cfg, s, Transfer(3, 2, 0, 1, batch))];
  }

  lemma LoweredRecord(cfg: Config, s: Rings, verify: RequestInfo -> bool)
    requires Stage(cfg) && Shaped(cfg, s) && PoolInv(cfg, s.replicas[3].pool) && Unused(cfg, s.replicas[3], 1)
    requires s.replicas[3].ctl.highestPrepared == 1 && forall q :: verify(q)
    ensures N.ValidViewChange(1, Rec(cfg, s, 3).msg, true, verify, 3) && Skips(Rec(cfg, s, 3), 2)
  {
    assert OwnSlots(cfg, s.replicas[3], 0);
    OwnValid(cfg, s, 3, verify);
    RecSkips(cfg, s, 3, 2);
  }

  /** Replicas 1, 3 and 4 send their messages. */
  lemma LoweredEnd(cfg: Config, p: seq<Rings>, verify: RequestInfo -> bool)
    returns (p': seq<Rings>, y: Record, z: Record)
    requires Stage(cfg) && Path(cfg, p) && FirstAt(cfg, Last(p), 4) && Unused(cfg, Last(p).replicas[3], 1)
    requires Last(p).replicas[2].ctl.executor.delivered == [Msg(PrePrepare, 1, "d", 1)] && forall q :: verify(q)
    requires PoolInv(cfg, Last(p).replicas[3].pool) && PoolInv(cfg, Last(p).replicas[4].pool)
    ensures Path(cfg, p') && p'[0] == p[0] && Last(p').sent == Last(p).sent
    ensures NoneLists(cfg, Last(p'), Empty(1), y, z, 2, verify) && y.sender == 3 && z.sender == 4
  {
    var p1 := Lowering(cfg, p);
    y, z := Rec(cfg, Last(p1), 3), Rec(cfg, Last(p), 4);
    LoweredRecord(cfg, Last(p1), verify);
    FirstRecord(cfg, Last(p), 4, verify);
    var p2 := Announce(cfg, p1, 3);
    var p3 := Announce(cfg, p2, 4);
    p' := FaultyAnnounce(cfg, p3);
    assert Rec(cfg, Last(p2), 4) == z;
    assert Skipping(Last(p'), Empty(1), 2, verify);
    assert Skipping(Last(p'), y, 2, verify) && Skipping(Last(p'), z, 2, verify);
  }

  lemma LoweredRun(cfg: Config, verify: RequestInfo -> bool)
    returns (acts: seq<Action>, j: nat, y: Record, z: Record)
    requires Stage(cfg) && forall q :: verify(q)
    ensures TimelyRun(cfg, acts) && NoneLists(cfg, Run(cfg, acts), Empty(1), y, z, 2, verify) && j <= |acts|
    ensures AheadMoment(cfg, acts[..j])
  {
    var acts1, p := AheadRun(cfg);
    var p';
    p', y, z := LoweredEnd(cfg, p, verify);
    NearTwo(cfg, p'[0], Last(p').sent);
    acts := Follow(cfg, acts1, p');
    j := |acts1|;
    AheadStays(cfg, acts1, acts);
  }

  lemma AheadStays(cfg: Config, first: seq<Action>, acts: seq<Action>)
    requires WellFormed(cfg) && first <= acts && AheadMoment(cfg, first)
    ensures |first| <= |acts| && AheadMoment(cfg, acts[..|first|])
  {
    assert acts[..|first|] == first;
  }

  /** Number 2 is committed, with the vote of replica 3, and nobody has sent a view-change message. */
  ghost predicate AheadMoment(cfg: Config, acts: seq<Action>)
    requires WellFormed(cfg)
  {
    var s := Run(cfg, acts);
    A.CommitsFor(cfg, s, 2, 2, "e") && s.viewChanges == {} && Msg(Commit, 2, "e", 3) in s.sent
  }

  lemma AheadRun(cfg: Config) returns (acts: seq<Action>, p: seq<Rings>)
    requires Stage(cfg)
    ensures TimelyRun(cfg, acts) && Path(cfg, p) && |p| == 1 && p[0] == Run(cfg, acts)
    ensures AheadMoment(cfg, acts) && Second(Last(p)) && FirstAt(cfg, Last(p), 4) && Unused(cfg, Last(p).replicas[3], 1)
    ensures Last(p).replicas[2].ctl.executor.delivered == [Msg(PrePrepare, 1, "d", 1)]
    ensures PoolInv(cfg, Last(p).replicas[3].pool) && PoolInv(cfg, Last(p).replicas[4].pool)
  {
    var p0 := AheadAtThree(cfg);
    StartInv(cfg, 3);
    PathInv(cfg, p0, 3);
    NearTwo(cfg, p0[0], Last(p0).sent);
    acts := Follow(cfg, [], p0);
    p := Single(cfg, Last(p0));
  }

  lemma LoweredMarkLostIn(cfg: Config, verify: RequestInfo -> bool, self: nat)
    returns (acts: seq<Action>, j: nat, records: seq<Record>)
    requires Stage(cfg) && forall q :: verify(q)
    ensures Lost(cfg, acts, j, 2, "e", records, verify, self) && Run(cfg, acts[..j]).viewChanges == {}
    ensures Msg(Commit, 2, "e", 3) in Run(cfg, acts[..j]).sent
  {
    var y, z;
    acts, j, y, z := LoweredRun(cfg, verify);
    records := [Empty(1), y, z];
    LostBy(cfg, acts, j, 2, "e", Empty(1), y, z, verify, self);
  }

  lemma Single(cfg: Config, s: Rings) returns (p: seq<Rings>)
    requires WellFormed(cfg) && Shaped(cfg, s)
    ensures p == [s] && Path(cfg, p)
  {
    p := [s];
    forall i ensures Link(cfg, p, i) {}
  }

  /**
    * Replica 3 prepares and commits e for number 2 before it has executed number 1; replica 2 holds the commit quorum.
    * No view-change message has been sent. Then replica 3 fetches number 1, which sets its mark to 1: its message does
    * not list number 2, and nor do those of replicas 1 and 4.
    */
  lemma LoweredMarkLost(verify: RequestInfo -> bool, self: nat)
    returns (acts: seq<Action>, j: nat, records: seq<Record>)
    requires forall q :: verify(q)
    ensures Lost(SCENE, acts, j, 2, "e", records, verify, self) && Run(SCENE, acts[..j]).viewChanges == {}
    ensures Msg(Commit, 2, "e", 3) in Run(SCENE, acts[..j]).sent
  {
    SceneHolds();
    acts, j, records := LoweredMarkLostIn(SCENE, verify, self);
  }

  // ----- the slot used again

  /** The slot of a number still holds its collector, prepared or further. */
  ghost predicate Held(cfg: Config, rep: Replica<Slots>, n: nat)
    requires cfg.capacity >= 1 && |rep.pool| == 2 * cfg.capacity
  {
    SlotFor(cfg, rep, n).sn == n && C.Rank(SlotFor(cfg, rep, n).status) >= C.Rank(C.ReadyCommit)
  }

  /** Numbers 1 to k are executed; of those the last `capacity` are still held. */
  ghost predicate Even(cfg: Config, rep: Replica<Slots>, k: nat)
    requires cfg.capacity >= 1 && |rep.pool| == 2 * cfg.capacity
  {
    && Lane(cfg, rep, k + 1) && rep.ctl.highestPrepared == k
    && forall n :: 1 <= n <= k < n + cfg.capacity ==> Held(cfg, rep, n)
  }

  lemma EvenOn(cfg: Config, rep: Replica<Slots>, rep': Replica<Slots>, k: nat, q: Request, voters: set<nat>)
    requires Stage(cfg) && |rep.pool| == |rep'.pool| == 2 * cfg.capacity && Even(cfg, rep, k) && q.sn == k + 1
    requires Passed(cfg, rep, rep', q, voters)
    ensures Even(cfg, rep', k + 1)
  {
    LaneOn(cfg, rep, rep', q, voters);
    forall n | 1 <= n <= k + 1 < n + cfg.capacity ensures Held(cfg, rep', n) {
      if n <= k {
        assert Held(cfg, rep, n);
        DistinctSlots(cfg.capacity, n, k + 1);
        DistinctSlots(cfg.capacity, n, k + 1 + cfg.capacity);
        assert Elsewhere(cfg.capacity, n, k + 1);
        assert SlotKept(cfg, rep, rep', n);
      }
    }
  }

  ghost predicate Level(cfg: Config, s: Rings, k: nat)
    requires Stage(cfg) && Shaped(cfg, s)
  {
    && s.viewChanges == {} && (forall m :: m in s.sent ==> m.sn <= k)
    && Even(cfg, s.replicas[2], k) && Even(cfg, s.replicas[3], k) && Even(cfg, s.replicas[4], k)
  }

  lemma SendVotes(cfg: Config, s: Rings, sn: nat) returns (p: seq<Rings>)
    requires Stage(cfg) && Shaped(cfg, s)
    ensures Path(cfg, p) && p[0] == s && Last(p) == s.(sent := s.sent + set m | m in Votes3(sn, "d"))
    ensures Msg(PrePrepare, sn, "d", 1) in Last(p).sent && Msg(Prepare, sn, "d", 1) in Last(p).sent
    ensures Msg(Commit, sn, "d", 1) in Last(p).sent
  {
    var p0 := Single(cfg, s);
    p := SendAll(cfg, p0, Votes3(sn, "d"));
    PbftScenarios.VotesSent(sn, "d", Last(p).sent);
  }

  lemma OrderThree(cfg: Config, s: Rings, sn: nat) returns (p: seq<Rings>)
    requires Stage(cfg) && Shaped(cfg, s)
    requires Lane(cfg, s.replicas[2], sn) && Lane(cfg, s.replicas[3], sn) && Lane(cfg, s.replicas[4], sn)
    ensures Path(cfg, p) && p[0] == s && Last(p).viewChanges == s.viewChanges
    ensures forall m :: m in Last(p).sent ==> m in s.sent || m.sn == sn
    ensures Passed(cfg, s.replicas[2], Last(p).replicas[2], Msg(PrePrepare, sn, "d", 1), {1, 2, 3})
    ensures Passed(cfg, s.replicas[3], Last(p).replicas[3], Msg(PrePrepare, sn, "d", 1), {1, 2, 3})
    ensures Passed(cfg, s.replicas[4], Last(p).replicas[4], Msg(PrePrepare, sn, "d", 1), {1, 2, 3})
  {
    var p0 := SendVotes(cfg, s, sn);
    var p1 := OrderPair(cfg, p0, sn, "d", 1, 2, 3);
    p := OrderAlone(cfg, p1, sn, "d", 4, 1, 2, 3);
  }

  /** All three correct replicas order and execute the next number. */
  lemma OrderAll(cfg: Config, s: Rings, k: nat) returns (p: seq<Rings>)
    requires Stage(cfg) && Shaped(cfg, s) && Level(cfg, s, k)
    ensures Path(cfg, p) && p[0] == s && Level(cfg, Last(p), k + 1)
    ensures A.CommitsFor(cfg, Last(p), 2, k + 1, "d")
  {
    var q := Msg(PrePrepare, k + 1, "d", 1);
    p := OrderThree(cfg, s, k + 1);
    EvenOn(cfg, s.replicas[2], Last(p).replicas[2], k, q, {1, 2, 3});
    EvenOn(cfg, s.replicas[3], Last(p).replicas[3], k, q, {1, 2, 3});
    EvenOn(cfg, s.replicas[4], Last(p).replicas[4], k, q, {1, 2, 3});
    Growing(1, 2, 3);
    CommittedAt(cfg, Last(p), 2, k + 1, q, {1, 2, 3});
  }

  lemma LevelNear(cfg: Config, s: Rings, k: nat, sent: set<Request>)
    requires Stage(cfg) && Shaped(cfg, s) && Level(cfg, s, k) && forall m :: m in sent ==> m.sn <= k + 1
    requires forall r :: Correct(cfg, r) ==> r in {2, 3, 4}
    ensures Near(cfg, s, sent)
  {
  }

  /** A timely run to level k. */
  ghost predicate Stands(cfg: Config, acts: seq<Action>, k: nat)
    requires Stage(cfg)
  {
    TimelyRun(cfg, acts) && Level(cfg, Run(cfg, acts), k)
  }

  lemma ClimbOne(cfg: Config, acts: seq<Action>, k: nat) returns (acts': seq<Action>)
    requires Stage(cfg) && (forall r :: Correct(cfg, r) ==> r in {2, 3, 4}) && Stands(cfg, acts, k)
    ensures acts <= acts' && Stands(cfg, acts', k + 1) && A.CommitsFor(cfg, Run(cfg, acts'), 2, k + 1, "d")
  {
    var p := OrderAll(cfg, Run(cfg, acts), k);
    LevelNear(cfg, p[0], k, Last(p).sent);
    acts' := Follow(cfg, acts, p);
  }

  lemma {:induction false} Climb(cfg: Config, acts: seq<Action>, k: nat, top: nat) returns (acts': seq<Action>)
    requires Stage(cfg) && (forall r :: Correct(cfg, r) ==> r in {2, 3, 4}) && Stands(cfg, acts, k) && k <= top
    ensures acts <= acts' && Stands(cfg, acts', top)
    decreases top - k
  {
    if k < top {
      var acts1 := ClimbOne(cfg, acts, k);
      acts' := Climb(cfg, acts1, k + 1, top);
    } else {
      acts' := acts;
    }
  }

  lemma FirstUp(cfg: Config) returns (acts: seq<Action>)
    requires Stage(cfg) && forall r :: Correct(cfg, r) ==> r in {2, 3, 4}
    ensures Stands(cfg, acts, 1) && Moment(cfg, acts)
  {
    StartLevel(cfg);
    acts := ClimbOne(cfg, [], 0);
  }

  /** Number 1 is committed, and nobody has sent a view-change message. */
  ghost predicate Moment(cfg: Config, acts: seq<Action>)
    requires WellFormed(cfg)
  {
    A.CommitsFor(cfg, Run(cfg, acts), 2, 1, "d") && Run(cfg, acts).viewChanges == {}
  }

  lemma StartLevel(cfg: Config)
    requires Stage(cfg)
    ensures Stands(cfg, [], 0)
  {
    FirstLane(cfg, Run(cfg, []).replicas[2]);
    FirstLane(cfg, Run(cfg, []).replicas[3]);
    FirstLane(cfg, Run(cfg, []).replicas[4]);
  }

  /** After five numbers the slot of number 1 is that of number 9, which is unused. */
  lemma RecycledRecord(cfg: Config, s: Rings, r: nat, verify: RequestInfo -> bool)
    requires Stage(cfg) && Shaped(cfg, s) && Correct(cfg, r) && Even(cfg, s.replicas[r], 5)
    requires PoolInv(cfg, s.replicas[r].pool) && forall q :: verify(q)
    ensures N.ValidViewChange(1, Rec(cfg, s, r).msg, true, verify, 3) && Skips(Rec(cfg, s, r), 1)
  {
    var rep := s.replicas[r];
    assert SlotOf(4, 1) == SlotOf(4, 9) && Unused(cfg, rep, 9);
    assert !Listed(cfg, rep, 0, 1);
    forall n | Listed(cfg, rep, 0, n) ensures SlotFor(cfg, rep, n).sn == n {
      assert Held(cfg, rep, n);
    }
    OwnValid(cfg, s, r, verify);
    RecSkips(cfg, s, r, 1);
  }

  lemma AnnounceAll(cfg: Config, s: Rings) returns (p: seq<Rings>)
    requires Stage(cfg) && Shaped(cfg, s)
    ensures Path(cfg, p) && p[0] == s && Last(p).sent == s.sent
    ensures Last(p).viewChanges == s.viewChanges + {Rec(cfg, s, 2), Rec(cfg, s, 3), Rec(cfg, s, 4)}
  {
    var p0 := Single(cfg, s);
    var p1 := Announce(cfg, p0, 2);
    var p2 := Announce(cfg, p1, 3);
    p := Announce(cfg, p2, 4);
    assert Rec(cfg, Last(p1), 3) == Rec(cfg, s, 3) && Rec(cfg, Last(p2), 4) == Rec(cfg, s, 4);
  }

  lemma RecycledEnd(cfg: Config, acts: seq<Action>, verify: RequestInfo -> bool)
    returns (acts': seq<Action>, x: Record, y: Record, z: Record)
    requires Stage(cfg) && (forall r :: Correct(cfg, r) ==> r in {2, 3, 4}) && forall q :: verify(q)
    requires Stands(cfg, acts, 5)
    ensures acts <= acts' && TimelyRun(cfg, acts') && NoneLists(cfg, Run(cfg, acts'), x, y, z, 1, verify)
    ensures x.sender == 2 && y.sender == 3 && z.sender == 4
  {
    var s := Run(cfg, acts);
    PoolsAlwaysInv(cfg, acts, 2);
    PoolsAlwaysInv(cfg, acts, 3);
    PoolsAlwaysInv(cfg, acts, 4);
    var p := AnnounceRecycled(cfg, s, verify);
    LevelNear(cfg, s, 5, s.sent);
    acts' := Follow(cfg, acts, p);
    x, y, z := Rec(cfg, s, 2), Rec(cfg, s, 3), Rec(cfg, s, 4);
  }

  lemma AnnounceRecycled(cfg: Config, s: Rings, verify: RequestInfo -> bool) returns (p: seq<Rings>)
    requires Stage(cfg) && Shaped(cfg, s) && Level(cfg, s, 5) && forall q :: verify(q)
    requires PoolInv(cfg, s.replicas[2].pool) && PoolInv(cfg, s.replicas[3].pool) && PoolInv(cfg, s.replicas[4].pool)
    ensures Path(cfg, p) && p[0] == s && Last(p).sent == s.sent
    ensures NoneLists(cfg, Last(p), Rec(cfg, s, 2), Rec(cfg, s, 3), Rec(cfg, s, 4), 1, verify)
  {
    RecycledRecord(cfg, s, 2, verify);
    RecycledRecord(cfg, s, 3, verify);
    RecycledRecord(cfg, s, 4, verify);
    p := AnnounceAll(cfg, s);
    var x, y, z := Rec(cfg, s, 2), Rec(cfg, s, 3), Rec(cfg, s, 4);
    assert Skipping(Last(p), x, 1, verify) && Skipping(Last(p), y, 1, verify) && Skipping(Last(p), z, 1, verify);
  }

  lemma RecycledRun(cfg: Config, verify: RequestInfo -> bool)
    returns (j: nat, acts: seq<Action>, x: Record, y: Record, z: Record)
    requires Stage(cfg) && (forall r :: Correct(cfg, r) ==> r in {2, 3, 4}) && forall q :: verify(q)
    ensures j <= |acts| && Moment(cfg, acts[..j])
    ensures TimelyRun(cfg, acts) && NoneLists(cfg, Run(cfg, acts), x, y, z, 1, verify)
    ensures x.sender == 2 && y.sender == 3 && z.sender == 4
  {
    var first, before := ClimbFive(cfg);
    acts, x, y, z := RecycledEnd(cfg, before, verify);
    j := |first|;
    MomentStays(cfg, first, before, acts);
  }

  lemma MomentStays(cfg: Config, first: seq<Action>, before: seq<Action>, acts: seq<Action>)
    requires WellFormed(cfg) && first <= before && before <= acts && Moment(cfg, first)
    ensures |first| <= |acts| && Moment(cfg, acts[..|first|])
  {
    assert acts[..|first|] == first;
  }

  lemma ClimbFive(cfg: Config) returns (first: seq<Action>, acts: seq<Action>)
    requires Stage(cfg) && forall r :: Correct(cfg, r) ==> r in {2, 3, 4}
    ensures first <= acts && Moment(cfg, first) && Stands(cfg, acts, 5)
  {
    first := FirstUp(cfg);
    acts := Climb(cfg, first, 1, 5);
  }

  lemma RecycledSlotLostIn(cfg: Config, verify: RequestInfo -> bool, self: nat)
    returns (acts: seq<Action>, j: nat, records: seq<Record>)
    requires Stage(cfg) && (forall r :: Correct(cfg, r) ==> r in {2, 3, 4}) && forall q :: verify(q)
    ensures Lost(cfg, acts, j, 1, "d", records, verify, self) && Run(cfg, acts[..j]).viewChanges == {}
    ensures |records| == 3 && forall rec :: rec in records ==> Correct(cfg, rec.sender)
  {
    var x, y, z;
    j, acts, x, y, z := RecycledRun(cfg, verify);
    records := [x, y, z];
    LostBy(cfg, acts, j, 1, "d", x, y, z, verify, self);
    CorrectSenders(cfg, x, y, z);
  }

  lemma CorrectSenders(cfg: Config, x: Record, y: Record, z: Record)
    requires Stage(cfg) && x.sender == 2 && y.sender == 3 && z.sender == 4
    ensures forall rec :: rec in [x, y, z] ==> Correct(cfg, rec.sender)
  {
  }

  /**
    * Replicas 2, 3 and 4 all commit and execute d for number 1, and four more numbers; nobody has sent a view-change
    * message before. The slot of number 1 now holds the collector of number 9, so none of their messages, which are
    * valid, lists number 1, although no checkpoint is stable.
    */
  lemma RecycledSlotLost(verify: RequestInfo -> bool, self: nat)
    returns (acts: seq<Action>, j: nat, records: seq<Record>)
    requires forall q :: verify(q)
    ensures Lost(SCENE, acts, j, 1, "d", records, verify, self) && Run(SCENE, acts[..j]).viewChanges == {}
    ensures |records| == 3 && forall rec :: rec in records ==> Correct(SCENE, rec.sender)
  {
    SceneHolds();
    acts, j, records := RecycledSlotLostIn(SCENE, verify, self);
  }

  lemma RefusedRecord(cfg: Config, s: Rings, r: nat, verify: RequestInfo -> bool)
    requires Stage(cfg) && Shaped(cfg, s) && Correct(cfg, r) && Even(cfg, s.replicas[r], 9)
    requires PoolInv(cfg, s.replicas[r].pool) && forall q :: verify(q)
    ensures !N.ValidViewChange(1, Rec(cfg, s, r).msg, true, verify, 3)
  {
    var rep := s.replicas[r];
    assert SlotOf(4, 1) == SlotOf(4, 9) && Held(cfg, rep, 9);
    assert Listed(cfg, rep, 0, 1) && SlotFor(cfg, rep, 1).sn != 1;
    OwnMessageIs(cfg, rep, 0, 2, verify);
  }

  lemma RefusedIn(cfg: Config, verify: RequestInfo -> bool) returns (acts: seq<Action>)
    requires Stage(cfg) && (forall r :: Correct(cfg, r) ==> r in {2, 3, 4}) && forall q :: verify(q)
    ensures TimelyRun(cfg, acts) && !N.ValidViewChange(1, Rec(cfg, Run(cfg, acts), 2).msg, true, verify, 3)
  {
    StartLevel(cfg);
    acts := Climb(cfg, [], 0, 9);
    PoolsAlwaysInv(cfg, acts, 2);
    RefusedRecord(cfg, Run(cfg, acts), 2, verify);
  }

  /**
    * After nine numbers without a stable checkpoint the message a correct replica would send is not valid: its entry
    * for number 1 has the proofs of number 9.
    */
  lemma OwnMessageRefused(verify: RequestInfo -> bool) returns (acts: seq<Action>)
    requires forall q :: verify(q)
    ensures WellFormed(SCENE) && TimelyRun(SCENE, acts)
    ensures var msg := ViewChangeOf(SCENE, Run(SCENE, acts).replicas[2], 0, 2);
      !N.ValidViewChange(SCENE.view, msg, true, verify, QuorumOf(SCENE))
  {
    SceneHolds();
    acts := RefusedIn(SCENE, verify);
  }
}
