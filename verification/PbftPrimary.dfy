/** Every quorum is for something the primary proposed; with a correct primary that settles agreement in every run. */
module PbftPrimary {
  import opened Messages
  import opened Quorum
  import opened CollectorPool
  import opened CollectorSafety
  import opened Pbft
  import opened PbftSafety
  import opened PbftRing
  import opened PbftLog
  import A = PbftAgreement
  import C = Collector

  ghost predicate SlotVotes(cfg: Config, sent: set<Request>, c: C.State) {
    && Shape(c) && (c.view == 0 || c.view == cfg.view)
    && VotesSent(cfg, sent, Prepare, c.sn, c.prepares) && VotesSent(cfg, sent, Commit, c.sn, c.commits)
  }

  ghost predicate PoolVotes(cfg: Config, sent: set<Request>, pool: Slots) {
    forall i :: 0 <= i < |pool| ==> SlotVotes(cfg, sent, pool[i])
  }

  /** A correct replica votes only for what the primary proposed. */
  ghost predicate Follows(cfg: Config, sent: set<Request>) {
    forall m :: m in sent && Correct(cfg, m.sender) && m.kind != PrePrepare ==>
      Request(PrePrepare, cfg.view, m.sn, m.hash, cfg.primary) in sent
  }

  ghost predicate VotesOk(cfg: Config, s: Rings) {
    && SendersKnown(cfg, s.sent) && Follows(cfg, s.sent)
    && forall r :: r in s.replicas && Correct(cfg, r) ==> PoolVotes(cfg, s.sent, s.replicas[r].pool)
  }

  /** Behind a quorum of counted votes there is a correct voter, and so a proposal. */
  lemma CountedWasProposed(cfg: Config, sent: set<Request>, kind: Kind, sn: nat, votes: map<Digest, set<nat>>,
                           d: Digest)
    requires WellFormed(cfg) && SendersKnown(cfg, sent) && Follows(cfg, sent) && kind != PrePrepare
    requires VotesSent(cfg, sent, kind, sn, votes) && |C.Votes(votes, d)| >= QuorumOf(cfg)
    ensures Request(PrePrepare, cfg.view, sn, d, cfg.primary) in sent
  {
    VotersKnown(cfg, sent, kind, sn, votes, d);
    var p := SharedCorrect(cfg.replicas, cfg.faulty, C.Votes(votes, d), C.Votes(votes, d));
    assert Request(kind, cfg.view, sn, d, p) in sent;
  }

  lemma PoolVotesMore(cfg: Config, sent: set<Request>, more: set<Request>, pool: Slots)
    requires PoolVotes(cfg, sent, pool)
    ensures PoolVotes(cfg, sent + more, pool)
  {
    forall i | 0 <= i < |pool| ensures SlotVotes(cfg, sent + more, pool[i]) {
      assert SlotVotes(cfg, sent, pool[i]);
    }
  }

  /** One message at one slot: its votes were sent, and what goes out follows a proposal. */
  lemma SlotStep(cfg: Config, sent: set<Request>, c: C.State, info: RequestInfo, id: nat)
    requires WellFormed(cfg) && SendersKnown(cfg, sent) && Follows(cfg, sent) && SlotVotes(cfg, sent, c)
    requires Correct(cfg, id)
    requires info.request in sent && info.request.view == cfg.view
    requires info.request.kind == PrePrepare ==> info.request.sender == cfg.primary
    ensures var o := C.Collect(c, info, QuorumOf(cfg));
      && SlotVotes(cfg, sent, o.state)
      && forall m :: m in Sends(info.request, o, id) ==>
           m.sender == id && m.kind != PrePrepare && Request(PrePrepare, cfg.view, m.sn, m.hash, cfg.primary) in sent
  {
    var m, o := info.request, C.Collect(c, info, QuorumOf(cfg));
    CollectEffect(c, info, QuorumOf(cfg));
    CollectShape(c, info, QuorumOf(cfg));
    VotesStep(cfg, sent, c, m, QuorumOf(cfg), o);
    assert m == Request(m.kind, m.view, m.sn, m.hash, m.sender);
    if o.changed && m.kind == Prepare {
      CountedWasProposed(cfg, sent, Prepare, c.sn, o.state.prepares, m.hash);
    }
  }

  lemma DeliverKeepsVotes(cfg: Config, s: Rings, id: nat, info: RequestInfo)
    requires WellFormed(cfg) && Shaped(cfg, s) && VotesOk(cfg, s) && Correct(cfg, id)
    requires info.request in s.sent && info.request.view == cfg.view
    requires info.request.kind == PrePrepare ==> info.request.sender == cfg.primary
    ensures VotesOk(cfg, DeliverStep(cfg, s, id, info))
  {
    var c := SlotFor(cfg, s.replicas[id], info.request.sn);
    assert PoolVotes(cfg, s.sent, s.replicas[id].pool);
    SlotStep(cfg, s.sent, c, info, id);
    var o := C.Collect(c, info, QuorumOf(cfg));
    var s', more := DeliverStep(cfg, s, id, info), Sends(info.request, o, id);
    forall r | r in s.replicas && Correct(cfg, r) ensures PoolVotes(cfg, s'.sent, s'.replicas[r].pool) {
      assert PoolVotes(cfg, s.sent, s'.replicas[r].pool);
      PoolVotesMore(cfg, s.sent, more, s'.replicas[r].pool);
    }
  }

  lemma {:induction false} AdvanceKeepsVotes(cfg: Config, sent: set<Request>, pool: Slots, lo: nat, hi: nat)
    requires cfg.capacity >= 1 && |pool| == 2 * cfg.capacity && PoolVotes(cfg, sent, pool)
    ensures PoolVotes(cfg, sent, AdvanceTo(cfg.capacity, pool, lo, hi, cfg.viewChange))
    decreases hi
  {
    if lo < hi {
      AdvanceKeepsVotes(cfg, sent, pool, lo, hi - 1);
    }
  }

  /** Steps that keep every pool and send only proposals and faulty messages. */
  lemma SamePoolsKeepVotes(cfg: Config, s: Rings, s': Rings)
    requires VotesOk(cfg, s) && s.sent <= s'.sent && s'.replicas.Keys == s.replicas.Keys
    requires forall m :: m in s'.sent - s.sent ==>
      m.sender in cfg.replicas && (m.kind == PrePrepare || m.sender in cfg.faulty)
    requires forall r :: r in s.replicas ==> s'.replicas[r].pool == s.replicas[r].pool
    ensures VotesOk(cfg, s')
  {
    assert s'.sent == s.sent + s'.sent;
    forall r | r in s.replicas && Correct(cfg, r) ensures PoolVotes(cfg, s'.sent, s'.replicas[r].pool) {
      PoolVotesMore(cfg, s.sent, s'.sent, s.replicas[r].pool);
    }
  }

  lemma ExecuteKeepsVotes(cfg: Config, s: Rings, id: nat)
    requires WellFormed(cfg) && Shaped(cfg, s) && VotesOk(cfg, s) && id in s.replicas
    ensures VotesOk(cfg, ExecuteStep(cfg, s, id))
  {
    if Correct(cfg, id) {
      AdvanceKeepsVotes(cfg, s.sent, s.replicas[id].pool, s.replicas[id].ctl.executor.next,
                        OrderNext(s.replicas[id].ctl).executor.next);
    }
  }

  lemma ControlKeepsVotes(cfg: Config, s: Rings, a: Action)
    requires WellFormed(cfg) && Shaped(cfg, s) && VotesOk(cfg, s)
    ensures VotesOk(cfg, ControlStep(cfg, s, a))
  {
    ControlSends(cfg, s, a);
    SamePoolsKeepVotes(cfg, s, ControlStep(cfg, s, a));
  }

  lemma StepKeepsVotes(cfg: Config, s: Rings, a: Action)
    requires WellFormed(cfg) && Shaped(cfg, s) && VotesOk(cfg, s)
    ensures VotesOk(cfg, Step(cfg, s, a))
  {
    match a
    case Deliver(id, info, accepted) =>
      RingDelivers(cfg, s, id, info, accepted);
      if Correct(cfg, id) && info.request in s.sent && Reaches(cfg, s.replicas[id].ctl, info.request, accepted) {
        DeliverKeepsVotes(cfg, s, id, info);
      }
    case Execute(id) =>
      RingExecutes(cfg, s, id);
      if Correct(cfg, id) {
        ExecuteKeepsVotes(cfg, s, id);
      }
    case StartViewChange(id, stable, counter) =>
      RingStarts(cfg, s, id, stable, counter);
      if Correct(cfg, id) {
        SamePoolsKeepVotes(cfg, s, ViewChangeStep(cfg, s, id, stable, cfg.view + counter));
      }
    case _ =>
      RingControls(cfg, s, a);
      ControlKeepsVotes(cfg, s, a);
  }

  lemma {:induction false} VotesAlwaysOk(cfg: Config, actions: seq<Action>)
    requires WellFormed(cfg)
    ensures VotesOk(cfg, Run(cfg, actions))
  {
    if actions != [] {
      VotesAlwaysOk(cfg, actions[..|actions| - 1]);
      StepKeepsVotes(cfg, Run(cfg, actions[..|actions| - 1]), actions[|actions| - 1]);
    }
  }

  lemma {:induction false} SentByThen(cfg: Config, actions: seq<Action>, i: nat)
    requires WellFormed(cfg) && i <= |actions|
    ensures Run(cfg, actions[..i]).sent <= Run(cfg, actions).sent
  {
    if i == |actions| {
      assert actions[..i] == actions;
    } else {
      var init := actions[..|actions| - 1];
      assert init[..i] == actions[..i];
      SentByThen(cfg, init, i);
      SentGrows(cfg, Run(cfg, init), actions[|actions| - 1]);
    }
  }

  /** In every run, for any primary: a quorum for a number at a correct replica is for a digest proposed for it. */
  lemma QuorumWasProposed(cfg: Config, actions: seq<Action>, r: nat, sn: nat, d: Digest)
    requires WellFormed(cfg)
    requires A.PreparesFor(cfg, Run(cfg, actions), r, sn, d) || A.CommitsFor(cfg, Run(cfg, actions), r, sn, d)
    ensures Request(PrePrepare, cfg.view, sn, d, cfg.primary) in Run(cfg, actions).sent
  {
    VotesAlwaysOk(cfg, actions);
    var s := Run(cfg, actions);
    var c := SlotFor(cfg, s.replicas[r], sn);
    assert PoolVotes(cfg, s.sent, s.replicas[r].pool);
    assert SlotVotes(cfg, s.sent, c);
    if A.PreparesFor(cfg, s, r, sn, d) {
      CountedWasProposed(cfg, s.sent, Prepare, sn, c.prepares, d);
    } else {
      CountedWasProposed(cfg, s.sent, Commit, sn, c.commits, d);
    }
  }

  /**
    * With a correct primary agreement needs no timeliness: in every run, all quorums for a number, at any correct
    * replicas and any moments, are for one digest.
    */
  lemma AgreementUnderPrimary(cfg: Config, actions: seq<Action>, i: nat, j: nat, r1: nat, r2: nat, sn: nat,
                              d1: Digest, d2: Digest)
    requires WellFormed(cfg) && Correct(cfg, cfg.primary) && i <= |actions| && j <= |actions|
    requires var s := Run(cfg, actions[..i]); A.PreparesFor(cfg, s, r1, sn, d1) || A.CommitsFor(cfg, s, r1, sn, d1)
    requires var s := Run(cfg, actions[..j]); A.PreparesFor(cfg, s, r2, sn, d2) || A.CommitsFor(cfg, s, r2, sn, d2)
    ensures d1 == d2
  {
    QuorumWasProposed(cfg, actions[..i], r1, sn, d1);
    QuorumWasProposed(cfg, actions[..j], r2, sn, d2);
    SentByThen(cfg, actions, i);
    SentByThen(cfg, actions, j);
    PrimaryAlwaysOnce(cfg, actions);
    assert FromPrimary(cfg, Request(PrePrepare, cfg.view, sn, d1, cfg.primary));
    assert FromPrimary(cfg, Request(PrePrepare, cfg.view, sn, d2, cfg.primary));
  }
}
