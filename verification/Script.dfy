/** Running concrete scenarios, message by message. */
module Script {
  import opened Messages
  import opened OrderedKeys
  import opened Modular
  import opened CollectorPool
  import opened Pbft
  import opened PbftRing
  import C = Collector
  import E = Executor

  /** Sending a commit raises the prepared mark. */
  ghost function Mark(high: nat, sn: nat, sent: set<Request>): nat {
    if exists m :: m in sent && m.kind == Commit then Max(high, sn) else high
  }

  /** Replica `id` alone has changed: one slot, its queue and its mark; and messages were sent. */
  ghost predicate Changed(cfg: Config, s: Rings, s': Rings, id: nat, sn: nat, sent: set<Request>, queue: seq<Request>)
    requires WellFormed(cfg) && Shaped(cfg, s) && Shaped(cfg, s') && id in s.replicas
  {
    && s'.sent == s.sent + sent && s'.viewChanges == s.viewChanges
    && (forall r :: r in s.replicas && r != id ==> s'.replicas[r] == s.replicas[r])
    && (forall n: nat :: SlotOf(cfg.capacity, n) != SlotOf(cfg.capacity, sn) ==>
          SlotFor(cfg, s'.replicas[id], n) == SlotFor(cfg, s.replicas[id], n))
    && var ctl := s.replicas[id].ctl;
      s'.replicas[id].ctl ==
      ctl.(commitQueue := ctl.commitQueue + queue, highestPrepared := Mark(ctl.highestPrepared, sn, sent))
  }

  // ----- paths of states

  ghost predicate Next(cfg: Config, s: Rings, s': Rings)
    requires WellFormed(cfg)
  {
    Shaped(cfg, s) && exists a :: s' == Step(cfg, s, a)
  }

  ghost predicate Path(cfg: Config, p: seq<Rings>)
    requires WellFormed(cfg)
  {
    p != [] && Shaped(cfg, p[|p| - 1]) && forall i :: Link(cfg, p, i)
  }

  ghost predicate Link(cfg: Config, p: seq<Rings>, i: int)
    requires WellFormed(cfg)
  {
    0 < i < |p| ==> Next(cfg, p[i - 1], p[i])
  }

  function Last(p: seq<Rings>): Rings
    requires p != []
  {
    p[|p| - 1]
  }

  lemma Extend(cfg: Config, p: seq<Rings>, a: Action)
    requires WellFormed(cfg) && Path(cfg, p)
    ensures Path(cfg, p + [Step(cfg, Last(p), a)]) && Last(p + [Step(cfg, Last(p), a)]) == Step(cfg, Last(p), a)
  {
    var p' := p + [Step(cfg, Last(p), a)];
    forall i ensures Link(cfg, p', i) {
      assert Link(cfg, p, i);
      assert 0 < i < |p| ==> p'[i - 1] == p[i - 1] && p'[i] == p[i];
    }
  }

  lemma RunNext(cfg: Config, acts: seq<Action>, a: Action)
    requires WellFormed(cfg)
    ensures Run(cfg, acts + [a]) == Step(cfg, Run(cfg, acts), a)
  {
    assert (acts + [a])[..|acts|] == acts;
  }

  /** The end of a path from the initial state is reachable. */
  lemma {:induction false} PathIsRun(cfg: Config, p: seq<Rings>) returns (acts: seq<Action>)
    requires WellFormed(cfg) && Path(cfg, p) && p[0] == Run(cfg, [])
    ensures Run(cfg, acts) == Last(p)
    decreases |p|
  {
    if |p| == 1 {
      acts := [];
    } else {
      var init, a := LastStep(cfg, p);
      var acts1 := PathIsRun(cfg, init);
      RunNext(cfg, acts1, a);
      acts := acts1 + [a];
    }
  }

  // ----- one message

  lemma GiveStep(cfg: Config, s: Rings, id: nat, e: RequestInfo)
    requires WellFormed(cfg) && Shaped(cfg, s) && Correct(cfg, id) && e.request in s.sent
    requires Reaches(cfg, s.replicas[id].ctl, e.request, true)
    ensures var s' := Step(cfg, s, Deliver(id, e, true));
      var o := C.Collect(SlotFor(cfg, s.replicas[id], e.request.sn), e, QuorumOf(cfg));
      && SlotFor(cfg, s'.replicas[id], e.request.sn) == o.state
      && Changed(cfg, s, s', id, e.request.sn, Sends(e.request, o, id), if o.handed.Some? then [o.handed.value] else [])
  {
    RingDelivers(cfg, s, id, e, true);
    var o := C.Collect(SlotFor(cfg, s.replicas[id], e.request.sn), e, QuorumOf(cfg));
    MarkIs(s.replicas[id].ctl, e.request, o, id);
  }

  lemma MarkIs(ctl: Control, m: Request, o: C.Outcome, id: nat)
    ensures React(ctl, m, o).highestPrepared == Mark(ctl.highestPrepared, m.sn, Sends(m, o, id))
  {
    if o.ret >= 0 && o.changed && m.kind == Prepare {
      assert Request(Commit, m.view, m.sn, m.hash, id) in Sends(m, o, id);
    }
  }

  /** A sent message that reaches the pool is delivered. */
  lemma Give(cfg: Config, p: seq<Rings>, id: nat, e: RequestInfo) returns (p': seq<Rings>, o: C.Outcome)
    requires WellFormed(cfg) && Path(cfg, p) && Correct(cfg, id) && e.request in Last(p).sent
    requires Reaches(cfg, Last(p).replicas[id].ctl, e.request, true)
    ensures Path(cfg, p') && p'[0] == p[0]
    ensures o == C.Collect(SlotFor(cfg, Last(p).replicas[id], e.request.sn), e, QuorumOf(cfg))
    ensures SlotFor(cfg, Last(p').replicas[id], e.request.sn) == o.state
    ensures Changed(cfg, Last(p), Last(p'), id, e.request.sn, Sends(e.request, o, id),
                    if o.handed.Some? then [o.handed.value] else [])
  {
    GiveStep(cfg, Last(p), id, e);
    Extend(cfg, p, Deliver(id, e, true));
    p' := p + [Step(cfg, Last(p), Deliver(id, e, true))];
    o := C.Collect(SlotFor(cfg, Last(p).replicas[id], e.request.sn), e, QuorumOf(cfg));
  }

  lemma MarkTwice(high: nat, sn: nat, a: set<Request>, b: set<Request>)
    ensures Mark(Mark(high, sn, a), sn, b) == Mark(high, sn, a + b)
  {
    if m :| m in a && m.kind == Commit {
      assert m in a + b;
    } else if m :| m in b && m.kind == Commit {
      assert m in a + b;
    }
  }

  lemma ChangedTwice(cfg: Config, s: Rings, s1: Rings, s2: Rings, id: nat, sn: nat,
                     a: set<Request>, b: set<Request>, p: seq<Request>, q: seq<Request>)
    requires WellFormed(cfg) && Shaped(cfg, s) && Shaped(cfg, s1) && Shaped(cfg, s2) && id in s.replicas
    requires Changed(cfg, s, s1, id, sn, a, p) && Changed(cfg, s1, s2, id, sn, b, q)
    ensures Changed(cfg, s, s2, id, sn, a + b, p + q)
  {
    MarkTwice(s.replicas[id].ctl.highestPrepared, sn, a, b);
    assert s.replicas[id].ctl.commitQueue + (p + q) == (s.replicas[id].ctl.commitQueue + p) + q;
  }

  lemma SendOne(cfg: Config, s: Rings, m: Request)
    requires WellFormed(cfg) && Shaped(cfg, s) && m.sender in cfg.faulty
    ensures Step(cfg, s, FaultySend(m)) == s.(sent := s.sent + {m})
  {
  }

  /** Messages of faulty replicas. */
  lemma {:induction false} SendAll(cfg: Config, p: seq<Rings>, msgs: seq<Request>) returns (p': seq<Rings>)
    requires WellFormed(cfg) && Path(cfg, p) && forall m :: m in msgs ==> m.sender in cfg.faulty
    ensures Path(cfg, p') && p'[0] == p[0] && Last(p') == Last(p).(sent := Last(p).sent + set m | m in msgs)
    decreases |msgs|
  {
    if msgs == [] {
      assert Last(p).sent + (set m | m in msgs) == Last(p).sent;
      return p;
    }
    var init, last := msgs[..|msgs| - 1], msgs[|msgs| - 1];
    assert msgs == init + [last];
    var p1 := SendAll(cfg, p, init);
    Extend(cfg, p1, FaultySend(last));
    SendOne(cfg, Last(p1), last);
    p' := p1 + [Step(cfg, Last(p1), FaultySend(last))];
    assert (set m | m in msgs) == (set m | m in init) + {last};
    assert Last(p).sent + (set m | m in init) + {last} == Last(p).sent + set m | m in msgs;
  }

  // ----- four replicas, primary 1, view 1, a ring of 8 slots

  function Four(faulty: set<nat>): Config {
    Config({1, 2, 3, 4}, faulty, 1, 1, true, 1, 4)
  }

  lemma FourFormed(faulty: set<nat>)
    requires faulty == {1} || faulty == {4}
    ensures WellFormed(Four(faulty)) && QuorumOf(Four(faulty)) == 3
    ensures forall r :: Correct(Four(faulty), r) <==> r in {1, 2, 3, 4} && r !in faulty
  {
    assert |{1, 2, 3, 4}| == 4 && |faulty| == 1;
  }

  function Msg(kind: Kind, sn: nat, d: Digest, sender: nat): Request {
    Request(kind, 1, sn, d, sender)
  }

  function Info(kind: Kind, sn: nat, d: Digest, sender: nat): RequestInfo {
    RequestInfo(Msg(kind, sn, d, sender), "s")
  }

  /** What is known of a collector. */
  ghost predicate At(c: C.State, sn: nat, status: C.Status, main: C.MainCell,
                     prepares: map<Digest, set<nat>>, commits: map<Digest, set<nat>>)
  {
    && c.sn == sn && c.viewChange && c.status == status && c.committed == (status == C.Executed) && c.main == main
    && c.others == [] && c.prepares == prepares && c.commits == commits && c.view <= 1
    && c.prepared == (C.Rank(status) > C.Rank(C.ReadyPrepare))
  }

  lemma AfterProposal(c: C.State, sn: nat, d: Digest)
    requires At(c, sn, C.Idle, C.Vacant, map[], map[])
    ensures var e := Info(PrePrepare, sn, d, 1);
      var o := C.Collect(c, e, 3);
      At(o.state, sn, C.ReadyPrepare, C.Held(e), map[], map[]) && o.ret == 0 && o.changed && o.handed == None
  {
  }

  /** A proposal that comes after the collector settled on a digest it had no proposal for. */
  lemma AfterLateProposal(c: C.State, sn: nat, d: Digest, prepares: map<Digest, set<nat>>)
    requires At(c, sn, C.ReadyCommit, C.Vacant, prepares, map[])
    ensures var e := Info(PrePrepare, sn, d, 1);
      var o := C.Collect(c, e, 3);
      At(o.state, sn, C.ReadyCommit, C.Held(e), prepares, map[]) && o.ret == 0 && !o.changed && o.handed == None
  {
  }

  function VotesOf(d: Digest, voters: set<nat>): map<Digest, set<nat>> {
    if voters == {} then map[] else map[d := voters]
  }

  lemma AfterPrepare(c: C.State, sn: nat, d: Digest, main: RequestInfo, voters: set<nat>, sender: nat)
    requires At(c, sn, C.ReadyPrepare, C.Held(main), VotesOf(d, voters), map[])
    ensures var o := C.Collect(c, Info(Prepare, sn, d, sender), 3);
      && o.ret == 0 && o.handed == None && o.changed == (|voters + {sender}| >= 3)
      && At(o.state, sn, if |voters + {sender}| >= 3 then C.ReadyCommit else C.ReadyPrepare,
            if |voters + {sender}| >= 3 && main.request.hash != d then C.Vacant else C.Held(main),
            VotesOf(d, voters + {sender}), map[])
  {
  }

  lemma AfterCommit(c: C.State, sn: nat, d: Digest, main: RequestInfo, prepares: map<Digest, set<nat>>,
                    voters: set<nat>, sender: nat)
    requires At(c, sn, C.ReadyCommit, C.Held(main), prepares, VotesOf(d, voters))
    ensures var o := C.Collect(c, Info(Commit, sn, d, sender), 3);
      && o.handed == (if |voters + {sender}| >= 3 then Some(main.request) else None)
      && At(o.state, sn, if |voters + {sender}| >= 3 then C.Executed else C.ReadyCommit,
            if |voters + {sender}| >= 3 then C.Taken(main.request) else C.Held(main),
            prepares, VotesOf(d, voters + {sender}))
  {
  }

  // ----- rounds of messages

  ghost predicate Seat(cfg: Config, s: Rings, r: nat, sn: nat, status: C.Status, main: C.MainCell,
                       prepares: map<Digest, set<nat>>, commits: map<Digest, set<nat>>)
    requires WellFormed(cfg) && Shaped(cfg, s)
  {
    && Correct(cfg, r) && At(SlotFor(cfg, s.replicas[r], sn), sn, status, main, prepares, commits)
    && !s.replicas[r].ctl.inViewChange && Done(s.replicas[r].ctl) <= sn
  }

  /** Primary 1, view 1, a quorum of three, view changes on. */
  ghost predicate Scene(cfg: Config) {
    WellFormed(cfg) && QuorumOf(cfg) == 3 && cfg.view == cfg.primary == 1 && cfg.viewChange
  }

  lemma TakeProposal(cfg: Config, p: seq<Rings>, r: nat, sn: nat, d: Digest) returns (p': seq<Rings>)
    requires Scene(cfg) && Path(cfg, p)
    requires Seat(cfg, Last(p), r, sn, C.Idle, C.Vacant, map[], map[]) && Msg(PrePrepare, sn, d, 1) in Last(p).sent
    ensures Path(cfg, p') && p'[0] == p[0]
    ensures Seat(cfg, Last(p'), r, sn, C.ReadyPrepare, C.Held(Info(PrePrepare, sn, d, 1)), map[], map[])
    ensures Changed(cfg, Last(p), Last(p'), r, sn, {Msg(Prepare, sn, d, r)}, [])
  {
    AfterProposal(SlotFor(cfg, Last(p).replicas[r], sn), sn, d);
    var o;
    p', o := Give(cfg, p, r, Info(PrePrepare, sn, d, 1));
  }

  /** A proposal that comes after the collector settled on a digest it had no proposal for. */
  lemma TakeLateProposal(cfg: Config, p: seq<Rings>, r: nat, sn: nat, d: Digest, prepares: map<Digest, set<nat>>)
    returns (p': seq<Rings>)
    requires Scene(cfg) && Path(cfg, p) && Msg(PrePrepare, sn, d, 1) in Last(p).sent
    requires Seat(cfg, Last(p), r, sn, C.ReadyCommit, C.Vacant, prepares, map[])
    ensures Path(cfg, p') && p'[0] == p[0]
    ensures Seat(cfg, Last(p'), r, sn, C.ReadyCommit, C.Held(Info(PrePrepare, sn, d, 1)), prepares, map[])
    ensures Changed(cfg, Last(p), Last(p'), r, sn, {}, [])
  {
    AfterLateProposal(SlotFor(cfg, Last(p).replicas[r], sn), sn, d, prepares);
    var o;
    p', o := Give(cfg, p, r, Info(PrePrepare, sn, d, 1));
  }

  lemma TakePrepare(cfg: Config, p: seq<Rings>, r: nat, sn: nat, d: Digest, main: RequestInfo, voters: set<nat>, x: nat)
    returns (p': seq<Rings>)
    requires Scene(cfg) && Path(cfg, p) && Msg(Prepare, sn, d, x) in Last(p).sent
    requires Seat(cfg, Last(p), r, sn, C.ReadyPrepare, C.Held(main), VotesOf(d, voters), map[])
    ensures Path(cfg, p') && p'[0] == p[0]
    ensures var done := |voters + {x}| >= 3;
      && Seat(cfg, Last(p'), r, sn, if done then C.ReadyCommit else C.ReadyPrepare,
              if done && main.request.hash != d then C.Vacant else C.Held(main), VotesOf(d, voters + {x}), map[])
      && Changed(cfg, Last(p), Last(p'), r, sn, if done then {Msg(Commit, sn, d, r)} else {}, [])
  {
    AfterPrepare(SlotFor(cfg, Last(p).replicas[r], sn), sn, d, main, voters, x);
    var o;
    p', o := Give(cfg, p, r, Info(Prepare, sn, d, x));
  }

  lemma TakeCommit(cfg: Config, p: seq<Rings>, r: nat, sn: nat, d: Digest, main: RequestInfo,
                   prepares: map<Digest, set<nat>>, voters: set<nat>, x: nat)
    returns (p': seq<Rings>)
    requires Scene(cfg) && Path(cfg, p) && Msg(Commit, sn, d, x) in Last(p).sent
    requires Seat(cfg, Last(p), r, sn, C.ReadyCommit, C.Held(main), prepares, VotesOf(d, voters))
    ensures Path(cfg, p') && p'[0] == p[0]
    ensures var done := |voters + {x}| >= 3;
      && Seat(cfg, Last(p'), r, sn, if done then C.Executed else C.ReadyCommit,
              if done then C.Taken(main.request) else C.Held(main), prepares, VotesOf(d, voters + {x}))
      && Changed(cfg, Last(p), Last(p'), r, sn, {}, if done then [main.request] else [])
  {
    AfterCommit(SlotFor(cfg, Last(p).replicas[r], sn), sn, d, main, prepares, voters, x);
    var o;
    p', o := Give(cfg, p, r, Info(Commit, sn, d, x));
  }

  lemma Nothing(a: set<Request>, q: seq<Request>)
    ensures {} + a == a && [] + q == q
  {
  }

  lemma Growing(x: nat, y: nat, z: nat)
    requires x != y && y != z && x != z
    ensures {} + {x} == {x} && {x} + {y} == {x, y} && {x, y} + {z} == {x, y, z}
    ensures |{x}| == 1 && |{x, y}| == 2 && |{x, y, z}| == 3
  {
    assert {x, y, z} - {z} == {x, y} && {x, y} - {y} == {x};
  }

  /** Two more prepares, short of a quorum. */
  lemma TakeTwoPrepares(cfg: Config, p: seq<Rings>, r: nat, sn: nat, d: Digest, main: RequestInfo, x: nat, y: nat)
    returns (p': seq<Rings>)
    requires Scene(cfg) && Path(cfg, p) && x != y
    requires Msg(Prepare, sn, d, x) in Last(p).sent && Msg(Prepare, sn, d, y) in Last(p).sent
    requires Seat(cfg, Last(p), r, sn, C.ReadyPrepare, C.Held(main), map[], map[])
    ensures Path(cfg, p') && p'[0] == p[0]
    ensures Seat(cfg, Last(p'), r, sn, C.ReadyPrepare, C.Held(main), VotesOf(d, {x, y}), map[])
    ensures Changed(cfg, Last(p), Last(p'), r, sn, {}, [])
  {
    assert {} + {x} == {x} && {x} + {y} == {x, y} && |{x}| == 1 && |{x, y}| == 2;
    var p1 := TakePrepare(cfg, p, r, sn, d, main, {}, x);
    p' := TakePrepare(cfg, p1, r, sn, d, main, {x}, y);
    ChangedTwice(cfg, Last(p), Last(p1), Last(p'), r, sn, {}, {}, [], []);
    Nothing({}, []);
  }

  /** Prepares from three replicas. */
  lemma TakePrepares(cfg: Config, p: seq<Rings>, r: nat, sn: nat, d: Digest, main: RequestInfo, x: nat, y: nat, z: nat)
    returns (p': seq<Rings>)
    requires Scene(cfg) && Path(cfg, p) && x != y && y != z && x != z
    requires Msg(Prepare, sn, d, x) in Last(p).sent && Msg(Prepare, sn, d, y) in Last(p).sent
    requires Msg(Prepare, sn, d, z) in Last(p).sent
    requires Seat(cfg, Last(p), r, sn, C.ReadyPrepare, C.Held(main), map[], map[])
    ensures Path(cfg, p') && p'[0] == p[0]
    ensures Seat(cfg, Last(p'), r, sn, C.ReadyCommit, if main.request.hash != d then C.Vacant else C.Held(main),
                 map[d := {x, y, z}], map[])
    ensures Changed(cfg, Last(p), Last(p'), r, sn, {Msg(Commit, sn, d, r)}, [])
  {
    Growing(x, y, z);
    var p2 := TakeTwoPrepares(cfg, p, r, sn, d, main, x, y);
    p' := TakePrepare(cfg, p2, r, sn, d, main, {x, y}, z);
    ChangedTwice(cfg, Last(p), Last(p2), Last(p'), r, sn, {}, {Msg(Commit, sn, d, r)}, [], []);
    Nothing({Msg(Commit, sn, d, r)}, []);
  }

  lemma TakeTwoCommits(cfg: Config, p: seq<Rings>, r: nat, sn: nat, d: Digest, main: RequestInfo,
                       prepares: map<Digest, set<nat>>, x: nat, y: nat)
    returns (p': seq<Rings>)
    requires Scene(cfg) && Path(cfg, p) && x != y
    requires Msg(Commit, sn, d, x) in Last(p).sent && Msg(Commit, sn, d, y) in Last(p).sent
    requires Seat(cfg, Last(p), r, sn, C.ReadyCommit, C.Held(main), prepares, map[])
    ensures Path(cfg, p') && p'[0] == p[0]
    ensures Seat(cfg, Last(p'), r, sn, C.ReadyCommit, C.Held(main), prepares, VotesOf(d, {x, y}))
    ensures Changed(cfg, Last(p), Last(p'), r, sn, {}, [])
  {
    assert {} + {x} == {x} && {x} + {y} == {x, y} && |{x}| == 1 && |{x, y}| == 2;
    var p1 := TakeCommit(cfg, p, r, sn, d, main, prepares, {}, x);
    p' := TakeCommit(cfg, p1, r, sn, d, main, prepares, {x}, y);
    ChangedTwice(cfg, Last(p), Last(p1), Last(p'), r, sn, {}, {}, [], []);
    Nothing({}, []);
  }

  /** Commits from three replicas. */
  lemma TakeCommits(cfg: Config, p: seq<Rings>, r: nat, sn: nat, d: Digest, main: RequestInfo,
                    prepares: map<Digest, set<nat>>, x: nat, y: nat, z: nat)
    returns (p': seq<Rings>)
    requires Scene(cfg) && Path(cfg, p) && x != y && y != z && x != z
    requires Msg(Commit, sn, d, x) in Last(p).sent && Msg(Commit, sn, d, y) in Last(p).sent
    requires Msg(Commit, sn, d, z) in Last(p).sent
    requires Seat(cfg, Last(p), r, sn, C.ReadyCommit, C.Held(main), prepares, map[])
    ensures Path(cfg, p') && p'[0] == p[0]
    ensures Seat(cfg, Last(p'), r, sn, C.Executed, C.Taken(main.request), prepares, map[d := {x, y, z}])
    ensures Changed(cfg, Last(p), Last(p'), r, sn, {}, [main.request])
  {
    Growing(x, y, z);
    var p2 := TakeTwoCommits(cfg, p, r, sn, d, main, prepares, x, y);
    p' := TakeCommit(cfg, p2, r, sn, d, main, prepares, {x, y}, z);
    ChangedTwice(cfg, Last(p), Last(p2), Last(p'), r, sn, {}, {}, [], [main.request]);
    Nothing({}, [main.request]);
  }

  // ----- two replicas at a time

  /** Only these replicas changed, and of them only one slot and the mark; nothing sent is lost. */
  ghost predicate Kept(cfg: Config, s: Rings, s': Rings, x: nat, y: nat, sn: nat)
    requires WellFormed(cfg) && Shaped(cfg, s) && Shaped(cfg, s')
  {
    && s.sent <= s'.sent && s'.viewChanges == s.viewChanges && (forall m :: m in s'.sent ==> m in s.sent || m.sn == sn)
    && forall r :: r in s.replicas ==> KeptReplica(cfg, s.replicas[r], s'.replicas[r], r == x || r == y, sn)
  }

  ghost predicate KeptReplica(cfg: Config, rep: Replica<Slots>, rep': Replica<Slots>, free: bool, sn: nat)
    requires cfg.capacity >= 1 && |rep.pool| == |rep'.pool| == 2 * cfg.capacity
  {
    if !free then rep' == rep
    else
      && (forall n: nat :: SlotOf(cfg.capacity, n) != SlotOf(cfg.capacity, sn) ==>
            SlotFor(cfg, rep', n) == SlotFor(cfg, rep, n))
      && rep'.ctl == rep.ctl.(highestPrepared := rep'.ctl.highestPrepared)
      && rep'.ctl.highestPrepared in {rep.ctl.highestPrepared, Max(rep.ctl.highestPrepared, sn)}
  }

  lemma KeptTwice(cfg: Config, s: Rings, s1: Rings, s2: Rings, x: nat, y: nat, sn: nat)
    requires WellFormed(cfg) && Shaped(cfg, s) && Shaped(cfg, s1) && Shaped(cfg, s2)
    requires Kept(cfg, s, s1, x, y, sn) && Kept(cfg, s1, s2, x, y, sn)
    ensures Kept(cfg, s, s2, x, y, sn)
  {
    forall r | r in s.replicas
      ensures KeptReplica(cfg, s.replicas[r], s2.replicas[r], r == x || r == y, sn)
    {
      assert KeptReplica(cfg, s.replicas[r], s1.replicas[r], r == x || r == y, sn);
      assert KeptReplica(cfg, s1.replicas[r], s2.replicas[r], r == x || r == y, sn);
    }
  }

  lemma ChangedKept(cfg: Config, s: Rings, s': Rings, id: nat, sn: nat, sent: set<Request>, x: nat, y: nat)
    requires WellFormed(cfg) && Shaped(cfg, s) && Shaped(cfg, s') && id in s.replicas && (id == x || id == y)
    requires Changed(cfg, s, s', id, sn, sent, []) && forall m :: m in sent ==> m.sn == sn
    ensures Kept(cfg, s, s', x, y, sn)
  {
    assert s.replicas[id].ctl.commitQueue + [] == s.replicas[id].ctl.commitQueue;
  }

  /** A seat for another slot, or of another replica, is kept. */
  lemma KeptSeat(cfg: Config, s: Rings, s': Rings, x: nat, y: nat, sn: nat, r: nat, n: nat, status: C.Status,
                 main: C.MainCell, prepares: map<Digest, set<nat>>, commits: map<Digest, set<nat>>)
    requires WellFormed(cfg) && Shaped(cfg, s) && Shaped(cfg, s') && Kept(cfg, s, s', x, y, sn)
    requires Seat(cfg, s, r, n, status, main, prepares, commits)
    requires SlotOf(cfg.capacity, n) != SlotOf(cfg.capacity, sn) || (r != x && r != y)
    ensures Seat(cfg, s', r, n, status, main, prepares, commits)
  {
    assert KeptReplica(cfg, s.replicas[r], s'.replicas[r], r == x || r == y, sn);
  }

  /** Both replicas take the proposal. */
  lemma BothPropose(cfg: Config, p: seq<Rings>, sn: nat, d: Digest, x: nat, y: nat) returns (p': seq<Rings>)
    requires Scene(cfg) && Path(cfg, p) && x != y && Msg(PrePrepare, sn, d, 1) in Last(p).sent
    requires Seat(cfg, Last(p), x, sn, C.Idle, C.Vacant, map[], map[])
    requires Seat(cfg, Last(p), y, sn, C.Idle, C.Vacant, map[], map[])
    ensures Path(cfg, p') && p'[0] == p[0] && Kept(cfg, Last(p), Last(p'), x, y, sn)
    ensures Seat(cfg, Last(p'), x, sn, C.ReadyPrepare, C.Held(Info(PrePrepare, sn, d, 1)), map[], map[])
    ensures Seat(cfg, Last(p'), y, sn, C.ReadyPrepare, C.Held(Info(PrePrepare, sn, d, 1)), map[], map[])
    ensures Msg(Prepare, sn, d, x) in Last(p').sent && Msg(Prepare, sn, d, y) in Last(p').sent
  {
    var p1 := TakeProposal(cfg, p, x, sn, d);
    ChangedKept(cfg, Last(p), Last(p1), x, sn, {Msg(Prepare, sn, d, x)}, x, y);
    p' := TakeProposal(cfg, p1, y, sn, d);
    ChangedKept(cfg, Last(p1), Last(p'), y, sn, {Msg(Prepare, sn, d, y)}, x, y);
    KeptTwice(cfg, Last(p), Last(p1), Last(p'), x, y, sn);
  }

  /** Both replicas get as far as sending their commits; replica v votes with them. */
  lemma Round(cfg: Config, p: seq<Rings>, sn: nat, d: Digest, v: nat, x: nat, y: nat) returns (p': seq<Rings>)
    requires Scene(cfg) && Path(cfg, p) && x != y && x != v && y != v
    requires Msg(PrePrepare, sn, d, 1) in Last(p).sent && Msg(Prepare, sn, d, v) in Last(p).sent
    requires Seat(cfg, Last(p), x, sn, C.Idle, C.Vacant, map[], map[])
    requires Seat(cfg, Last(p), y, sn, C.Idle, C.Vacant, map[], map[])
    ensures Path(cfg, p') && p'[0] == p[0] && Kept(cfg, Last(p), Last(p'), x, y, sn)
    ensures var main := C.Held(Info(PrePrepare, sn, d, 1));
      && Seat(cfg, Last(p'), x, sn, C.ReadyCommit, main, map[d := {v, x, y}], map[])
      && Seat(cfg, Last(p'), y, sn, C.ReadyCommit, main, map[d := {v, x, y}], map[])
    ensures Msg(Prepare, sn, d, x) in Last(p').sent && Msg(Prepare, sn, d, y) in Last(p').sent
    ensures Msg(Commit, sn, d, x) in Last(p').sent && Msg(Commit, sn, d, y) in Last(p').sent
    ensures forall r :: r in {x, y} ==>
      Last(p').replicas[r].ctl.highestPrepared == Max(Last(p).replicas[r].ctl.highestPrepared, sn)
  {
    var main := Info(PrePrepare, sn, d, 1);
    var p1 := BothPropose(cfg, p, sn, d, x, y);
    var p2 := PrepareOne(cfg, p1, sn, d, v, x, y, x);
    KeptTwice(cfg, Last(p), Last(p1), Last(p2), x, y, sn);
    p' := PrepareOne(cfg, p2, sn, d, v, x, y, y);
    KeptTwice(cfg, Last(p), Last(p2), Last(p'), x, y, sn);
    KeptMark(cfg, Last(p), Last(p1), x, y, sn, x);
    KeptMark(cfg, Last(p), Last(p2), x, y, sn, y);
  }

  lemma KeptMark(cfg: Config, s: Rings, s': Rings, x: nat, y: nat, sn: nat, r: nat)
    requires WellFormed(cfg) && Shaped(cfg, s) && Shaped(cfg, s') && Kept(cfg, s, s', x, y, sn) && r in s.replicas
    ensures s'.replicas[r].ctl.highestPrepared
         in {s.replicas[r].ctl.highestPrepared, Max(s.replicas[r].ctl.highestPrepared, sn)}
  {
    assert KeptReplica(cfg, s.replicas[r], s'.replicas[r], r == x || r == y, sn);
  }

  /** Replica r, one of x and y, takes the prepares of v, x and y. */
  lemma PrepareOne(cfg: Config, p: seq<Rings>, sn: nat, d: Digest, v: nat, x: nat, y: nat, r: nat)
    returns (p': seq<Rings>)
    requires Scene(cfg) && Path(cfg, p) && x != y && x != v && y != v && (r == x || r == y)
    requires Msg(Prepare, sn, d, v) in Last(p).sent && Msg(Prepare, sn, d, x) in Last(p).sent
    requires Msg(Prepare, sn, d, y) in Last(p).sent
    requires Seat(cfg, Last(p), r, sn, C.ReadyPrepare, C.Held(Info(PrePrepare, sn, d, 1)), map[], map[])
    ensures Path(cfg, p') && p'[0] == p[0] && Kept(cfg, Last(p), Last(p'), x, y, sn)
    ensures Seat(cfg, Last(p'), r, sn, C.ReadyCommit, C.Held(Info(PrePrepare, sn, d, 1)), map[d := {v, x, y}], map[])
    ensures Msg(Commit, sn, d, r) in Last(p').sent
    ensures Last(p').replicas[r].ctl.highestPrepared == Max(Last(p).replicas[r].ctl.highestPrepared, sn)
    ensures forall r' :: r' in Last(p).replicas && r' != r ==> Last(p').replicas[r'] == Last(p).replicas[r']
  {
    p' := TakePrepares(cfg, p, r, sn, d, Info(PrePrepare, sn, d, 1), v, x, y);
    var sent := {Msg(Commit, sn, d, r)};
    assert Msg(Commit, sn, d, r) in sent;
    ChangedKept(cfg, Last(p), Last(p'), r, sn, sent, x, y);
  }

  // ----- execution

  lemma OrderOne(e: E.State, q: Request)
    requires e.candidates == map[] && e.next == q.sn
    ensures E.Order(e, q) == E.State(q.sn + 1, map[], e.delivered + [q])
  {
    var e' := E.AddNewData(e, q);
    assert e'.candidates.Keys == {q.sn} && Least(e'.candidates.Keys) == q.sn;
    assert e'.candidates - {q.sn} == map[];
    assert E.Drain(e') == E.Drain(E.State(q.sn + 1, map[], e.delivered + [q]));
  }

  ghost predicate NextUp(ctl: Control, sn: nat) {
    ctl.commitQueue == [] && ctl.executor.candidates == map[] && ctl.executor.next == sn >= 1
  }

  /** The next request is executed: the slot one capacity ahead is renewed. */
  lemma ExecuteOneStep(cfg: Config, s: Rings, r: nat, q: Request)
    requires WellFormed(cfg) && Shaped(cfg, s) && Correct(cfg, r) && SlotFor(cfg, s.replicas[r], q.sn).sn == q.sn
    requires s.replicas[r].ctl.commitQueue == [q] && NextUp(s.replicas[r].ctl.(commitQueue := []), q.sn)
    ensures var n, rep := q.sn + cfg.capacity, s.replicas[r];
      var pool := rep.pool[SlotOf(cfg.capacity, n) := C.Fresh(n, cfg.viewChange)];
      var ctl := rep.ctl.(commitQueue := [], executor := E.State(q.sn + 1, map[], rep.ctl.executor.delivered + [q]));
      Step(cfg, s, Execute(r)) == s.(replicas := s.replicas[r := Replica(pool, ctl)])
  {
    var rep := s.replicas[r];
    OrderOne(rep.ctl.executor, q);
    RingExecutes(cfg, s, r);
    assert AdvanceTo(cfg.capacity, rep.pool, q.sn, q.sn, cfg.viewChange) == rep.pool;
    assert AdvanceTo(cfg.capacity, rep.pool, q.sn, q.sn + 1, cfg.viewChange)
        == Advance(cfg.capacity, rep.pool, q.sn, cfg.viewChange);
  }

  lemma ExecuteOne(cfg: Config, p: seq<Rings>, r: nat, q: Request) returns (p': seq<Rings>)
    requires WellFormed(cfg) && Path(cfg, p) && Correct(cfg, r) && SlotFor(cfg, Last(p).replicas[r], q.sn).sn == q.sn
    requires Last(p).replicas[r].ctl.commitQueue == [q] && NextUp(Last(p).replicas[r].ctl.(commitQueue := []), q.sn)
    ensures Path(cfg, p') && p'[0] == p[0]
    ensures var n, rep := q.sn + cfg.capacity, Last(p).replicas[r];
      var pool := rep.pool[SlotOf(cfg.capacity, n) := C.Fresh(n, cfg.viewChange)];
      var ctl := rep.ctl.(commitQueue := [], executor := E.State(q.sn + 1, map[], rep.ctl.executor.delivered + [q]));
      Last(p') == Last(p).(replicas := Last(p).replicas[r := Replica(pool, ctl)])
  {
    ExecuteOneStep(cfg, Last(p), r, q);
    Extend(cfg, p, Execute(r));
    p' := p + [Step(cfg, Last(p), Execute(r))];
  }

  /** Replica r has executed the next number; apart from that only one slot ahead is renewed. */
  ghost predicate Finished(cfg: Config, rep: Replica<Slots>, rep': Replica<Slots>, q: Request,
                           prepares: map<Digest, set<nat>>, commits: map<Digest, set<nat>>)
    requires cfg.capacity >= 1 && |rep.pool| == |rep'.pool| == 2 * cfg.capacity
  {
    && rep'.ctl == rep.ctl.(executor := E.State(q.sn + 1, map[], rep.ctl.executor.delivered + [q]))
    && At(SlotFor(cfg, rep', q.sn), q.sn, C.Executed, C.Taken(q), prepares, commits)
    && SlotFor(cfg, rep', q.sn + cfg.capacity) == C.Fresh(q.sn + cfg.capacity, cfg.viewChange)
    && forall n: nat :: Elsewhere(cfg.capacity, n, q.sn) ==> SlotKept(cfg, rep, rep', n)
  }

  ghost predicate SlotKept(cfg: Config, rep: Replica<Slots>, rep': Replica<Slots>, n: nat)
    requires cfg.capacity >= 1 && |rep.pool| == |rep'.pool| == 2 * cfg.capacity
  {
    SlotFor(cfg, rep', n) == SlotFor(cfg, rep, n)
  }

  /** A slot other than that of the number and that of the number one capacity ahead. */
  ghost predicate Elsewhere(capacity: nat, n: nat, sn: nat)
    requires capacity >= 1
  {
    SlotOf(capacity, n) != SlotOf(capacity, sn) && SlotOf(capacity, n) != SlotOf(capacity, sn + capacity)
  }

  lemma FinishedBy(cfg: Config, s: Rings, s1: Rings, r: nat, q: Request, rep': Replica<Slots>,
                   prepares: map<Digest, set<nat>>, commits: map<Digest, set<nat>>)
    requires WellFormed(cfg) && cfg.viewChange && Shaped(cfg, s) && Shaped(cfg, s1) && Correct(cfg, r)
    requires Changed(cfg, s, s1, r, q.sn, {}, [q]) && s.replicas[r].ctl.commitQueue == []
    requires At(SlotFor(cfg, s1.replicas[r], q.sn), q.sn, C.Executed, C.Taken(q), prepares, commits)
    requires var n, rep := q.sn + cfg.capacity, s1.replicas[r];
      && rep'.pool == rep.pool[SlotOf(cfg.capacity, n) := C.Fresh(n, cfg.viewChange)]
      && rep'.ctl
         == rep.ctl.(commitQueue := [], executor := E.State(q.sn + 1, map[], rep.ctl.executor.delivered + [q]))
    ensures Finished(cfg, s.replicas[r], rep', q, prepares, commits)
  {
    DistinctSlots(cfg.capacity, q.sn, q.sn + cfg.capacity);
  }

  lemma QueueOne(cfg: Config, s: Rings, s': Rings, r: nat, q: Request)
    requires WellFormed(cfg) && Shaped(cfg, s) && Shaped(cfg, s') && Correct(cfg, r)
    requires Changed(cfg, s, s', r, q.sn, {}, [q]) && NextUp(s.replicas[r].ctl, q.sn)
    ensures s'.replicas[r].ctl == s.replicas[r].ctl.(commitQueue := [q]) && s'.sent == s.sent
  {
    assert [] + [q] == [q] && s.sent + {} == s.sent;
  }

  /** Commits from three replicas, and the request is executed as the next of the log. */
  lemma FinishNext(cfg: Config, p: seq<Rings>, r: nat, sn: nat, d: Digest, main: RequestInfo,
                   prepares: map<Digest, set<nat>>, x: nat, y: nat, z: nat)
    returns (p': seq<Rings>)
    requires Scene(cfg) && Path(cfg, p) && x != y && y != z && x != z && main.request.sn == sn
    requires Msg(Commit, sn, d, x) in Last(p).sent && Msg(Commit, sn, d, y) in Last(p).sent
    requires Msg(Commit, sn, d, z) in Last(p).sent
    requires Seat(cfg, Last(p), r, sn, C.ReadyCommit, C.Held(main), prepares, map[])
    requires NextUp(Last(p).replicas[r].ctl, sn)
    ensures Path(cfg, p') && p'[0] == p[0] && Last(p').sent == Last(p).sent
    ensures Last(p').viewChanges == Last(p).viewChanges
    ensures forall r' :: r' in Last(p).replicas && r' != r ==> Last(p').replicas[r'] == Last(p).replicas[r']
    ensures Finished(cfg, Last(p).replicas[r], Last(p').replicas[r], main.request, prepares, map[d := {x, y, z}])
  {
    var p1 := TakeCommits(cfg, p, r, sn, d, main, prepares, x, y, z);
    QueueOne(cfg, Last(p), Last(p1), r, main.request);
    p' := ExecuteOne(cfg, p1, r, main.request);
    FinishedBy(cfg, Last(p), Last(p1), r, main.request, Last(p').replicas[r], prepares, map[d := {x, y, z}]);
  }

  // ----- number by number

  /** The numbers below sn are executed, and nothing has happened for the next `capacity` numbers. */
  ghost predicate Lane(cfg: Config, rep: Replica<Slots>, sn: nat)
    requires cfg.capacity >= 1 && |rep.pool| == 2 * cfg.capacity
  {
    && NextUp(rep.ctl, sn) && !rep.ctl.inViewChange
    && forall n :: sn <= n < sn + cfg.capacity ==> Unused(cfg, rep, n)
  }

  ghost predicate Unused(cfg: Config, rep: Replica<Slots>, n: nat)
    requires cfg.capacity >= 1 && |rep.pool| == 2 * cfg.capacity
  {
    At(SlotFor(cfg, rep, n), n, C.Idle, C.Vacant, map[], map[])
  }

  lemma LaneSeat(cfg: Config, s: Rings, r: nat, sn: nat, n: nat)
    requires WellFormed(cfg) && Shaped(cfg, s) && Correct(cfg, r)
    requires Lane(cfg, s.replicas[r], sn) && sn <= n < sn + cfg.capacity
    ensures Seat(cfg, s, r, n, C.Idle, C.Vacant, map[], map[])
  {
    assert Unused(cfg, s.replicas[r], n);
  }

  /** The replica has taken the number through all phases and executed it; nothing else has changed. */
  ghost predicate Passed(cfg: Config, rep: Replica<Slots>, rep': Replica<Slots>, q: Request, voters: set<nat>)
    requires cfg.capacity >= 1 && |rep.pool| == |rep'.pool| == 2 * cfg.capacity
  {
    && rep'.ctl == rep.ctl.(executor := E.State(q.sn + 1, map[], rep.ctl.executor.delivered + [q]),
                            highestPrepared := Max(rep.ctl.highestPrepared, q.sn))
    && At(SlotFor(cfg, rep', q.sn), q.sn, C.Executed, C.Taken(q), map[q.hash := voters], map[q.hash := voters])
    && SlotFor(cfg, rep', q.sn + cfg.capacity) == C.Fresh(q.sn + cfg.capacity, cfg.viewChange)
    && forall n: nat :: Elsewhere(cfg.capacity, n, q.sn) ==> SlotKept(cfg, rep, rep', n)
  }

  lemma PassedBy(cfg: Config, rep: Replica<Slots>, rep1: Replica<Slots>, rep2: Replica<Slots>, q: Request,
                 voters: set<nat>)
    requires WellFormed(cfg) && |rep.pool| == |rep1.pool| == |rep2.pool| == 2 * cfg.capacity
    requires KeptReplica(cfg, rep, rep1, true, q.sn)
    requires rep1.ctl.highestPrepared == Max(rep.ctl.highestPrepared, q.sn)
    requires Finished(cfg, rep1, rep2, q, map[q.hash := voters], map[q.hash := voters])
    ensures Passed(cfg, rep, rep2, q, voters)
  {
    forall n: nat | Elsewhere(cfg.capacity, n, q.sn) ensures SlotKept(cfg, rep, rep2, n) {
      assert SlotKept(cfg, rep1, rep2, n);
    }
  }

  /** After that the next number is up. */
  lemma LaneOn(cfg: Config, rep: Replica<Slots>, rep': Replica<Slots>, q: Request, voters: set<nat>)
    requires WellFormed(cfg) && cfg.viewChange && |rep.pool| == |rep'.pool| == 2 * cfg.capacity
    requires Lane(cfg, rep, q.sn) && Passed(cfg, rep, rep', q, voters)
    ensures Lane(cfg, rep', q.sn + 1)
  {
    forall n | q.sn + 1 <= n < q.sn + 1 + cfg.capacity ensures Unused(cfg, rep', n) {
      DistinctSlots(cfg.capacity, q.sn, n);
      if n < q.sn + cfg.capacity {
        DistinctSlots(cfg.capacity, n, q.sn + cfg.capacity);
        assert Elsewhere(cfg.capacity, n, q.sn) && Unused(cfg, rep, n);
        assert SlotKept(cfg, rep, rep', n);
      }
    }
  }

  /** Both replicas finish a number they have prepared. */
  lemma FinishPair(cfg: Config, p: seq<Rings>, sn: nat, d: Digest, v: nat, x: nat, y: nat) returns (p': seq<Rings>)
    requires Scene(cfg) && Path(cfg, p) && x != y && x != v && y != v
    requires Msg(Commit, sn, d, v) in Last(p).sent && Msg(Commit, sn, d, x) in Last(p).sent
    requires Msg(Commit, sn, d, y) in Last(p).sent
    requires Seat(cfg, Last(p), x, sn, C.ReadyCommit, C.Held(Info(PrePrepare, sn, d, 1)), map[d := {v, x, y}], map[])
    requires Seat(cfg, Last(p), y, sn, C.ReadyCommit, C.Held(Info(PrePrepare, sn, d, 1)), map[d := {v, x, y}], map[])
    requires NextUp(Last(p).replicas[x].ctl, sn) && NextUp(Last(p).replicas[y].ctl, sn)
    ensures Path(cfg, p') && p'[0] == p[0] && Last(p').sent == Last(p).sent
    ensures Last(p').viewChanges == Last(p).viewChanges
    ensures forall r :: r in Last(p).replicas && r != x && r != y ==> Last(p').replicas[r] == Last(p).replicas[r]
    ensures Finished(cfg, Last(p).replicas[x], Last(p').replicas[x], Msg(PrePrepare, sn, d, 1),
                     map[d := {v, x, y}], map[d := {v, x, y}])
    ensures Finished(cfg, Last(p).replicas[y], Last(p').replicas[y], Msg(PrePrepare, sn, d, 1),
                     map[d := {v, x, y}], map[d := {v, x, y}])
  {
    var main, votes := Info(PrePrepare, sn, d, 1), map[d := {v, x, y}];
    var p1 := FinishNext(cfg, p, x, sn, d, main, votes, v, x, y);
    p' := FinishNext(cfg, p1, y, sn, d, main, votes, v, x, y);
  }

  /** Two replicas order and execute the next number, with the votes of a third. */
  lemma OrderPair(cfg: Config, p: seq<Rings>, sn: nat, d: Digest, v: nat, x: nat, y: nat) returns (p': seq<Rings>)
    requires Scene(cfg) && Path(cfg, p) && x != y && x != v && y != v && Correct(cfg, x) && Correct(cfg, y)
    requires Msg(PrePrepare, sn, d, 1) in Last(p).sent && Msg(Prepare, sn, d, v) in Last(p).sent
    requires Msg(Commit, sn, d, v) in Last(p).sent
    requires Lane(cfg, Last(p).replicas[x], sn) && Lane(cfg, Last(p).replicas[y], sn)
    ensures Path(cfg, p') && p'[0] == p[0] && Last(p').viewChanges == Last(p).viewChanges
    ensures Last(p).sent <= Last(p').sent && forall m :: m in Last(p').sent ==> m in Last(p).sent || m.sn == sn
    ensures forall r :: r in Last(p).replicas && r != x && r != y ==> Last(p').replicas[r] == Last(p).replicas[r]
    ensures Passed(cfg, Last(p).replicas[x], Last(p').replicas[x], Msg(PrePrepare, sn, d, 1), {v, x, y})
    ensures Passed(cfg, Last(p).replicas[y], Last(p').replicas[y], Msg(PrePrepare, sn, d, 1), {v, x, y})
    ensures forall u :: u in {v, x, y} ==>
      Msg(Prepare, sn, d, u) in Last(p').sent && Msg(Commit, sn, d, u) in Last(p').sent
  {
    LaneSeat(cfg, Last(p), x, sn, sn);
    LaneSeat(cfg, Last(p), y, sn, sn);
    var p1 := Round(cfg, p, sn, d, v, x, y);
    var rx, ry, x1, y1 := Last(p).replicas[x], Last(p).replicas[y], Last(p1).replicas[x], Last(p1).replicas[y];
    assert KeptReplica(cfg, rx, x1, true, sn) && KeptReplica(cfg, ry, y1, true, sn);
    p' := FinishPair(cfg, p1, sn, d, v, x, y);
    PassedBy(cfg, rx, x1, Last(p').replicas[x], Msg(PrePrepare, sn, d, 1), {v, x, y});
    PassedBy(cfg, ry, y1, Last(p').replicas[y], Msg(PrePrepare, sn, d, 1), {v, x, y});
    OthersKept(cfg, Last(p), Last(p1), x, y, sn);
  }

  /** One replica orders and executes the next number, with the votes of three others. */
  lemma OrderAlone(cfg: Config, p: seq<Rings>, sn: nat, d: Digest, r: nat, x: nat, y: nat, z: nat)
    returns (p': seq<Rings>)
    requires Scene(cfg) && Path(cfg, p) && x != y && y != z && x != z && Correct(cfg, r)
    requires Msg(PrePrepare, sn, d, 1) in Last(p).sent && forall u :: u in {x, y, z} ==>
      Msg(Prepare, sn, d, u) in Last(p).sent && Msg(Commit, sn, d, u) in Last(p).sent
    requires Lane(cfg, Last(p).replicas[r], sn)
    ensures Path(cfg, p') && p'[0] == p[0] && Last(p').viewChanges == Last(p).viewChanges
    ensures Last(p).sent <= Last(p').sent && forall m :: m in Last(p').sent ==> m in Last(p).sent || m.sn == sn
    ensures forall r' :: r' in Last(p).replicas && r' != r ==> Last(p').replicas[r'] == Last(p).replicas[r']
    ensures Passed(cfg, Last(p).replicas[r], Last(p').replicas[r], Msg(PrePrepare, sn, d, 1), {x, y, z})
  {
    LaneSeat(cfg, Last(p), r, sn, sn);
    var p2 := PrepareAlone(cfg, p, sn, d, r, x, y, z);
    assert KeptReplica(cfg, Last(p).replicas[r], Last(p2).replicas[r], true, sn);
    p' := FinishNext(cfg, p2, r, sn, d, Info(PrePrepare, sn, d, 1), map[d := {x, y, z}], x, y, z);
    PassedBy(cfg, Last(p).replicas[r], Last(p2).replicas[r], Last(p').replicas[r], Msg(PrePrepare, sn, d, 1),
             {x, y, z});
    OthersKept(cfg, Last(p), Last(p2), r, r, sn);
  }

  lemma PrepareAlone(cfg: Config, p: seq<Rings>, sn: nat, d: Digest, r: nat, x: nat, y: nat, z: nat)
    returns (p': seq<Rings>)
    requires Scene(cfg) && Path(cfg, p) && x != y && y != z && x != z
    requires Msg(PrePrepare, sn, d, 1) in Last(p).sent && Msg(Prepare, sn, d, x) in Last(p).sent
    requires Msg(Prepare, sn, d, y) in Last(p).sent && Msg(Prepare, sn, d, z) in Last(p).sent
    requires Seat(cfg, Last(p), r, sn, C.Idle, C.Vacant, map[], map[])
    ensures Path(cfg, p') && p'[0] == p[0] && Kept(cfg, Last(p), Last(p'), r, r, sn)
    ensures Seat(cfg, Last(p'), r, sn, C.ReadyCommit, C.Held(Info(PrePrepare, sn, d, 1)), map[d := {x, y, z}], map[])
    ensures Last(p').replicas[r].ctl.highestPrepared == Max(Last(p).replicas[r].ctl.highestPrepared, sn)
  {
    var p1 := TakeProposal(cfg, p, r, sn, d);
    ChangedKept(cfg, Last(p), Last(p1), r, sn, {Msg(Prepare, sn, d, r)}, r, r);
    p' := TakePrepares(cfg, p1, r, sn, d, Info(PrePrepare, sn, d, 1), x, y, z);
    var sent := {Msg(Commit, sn, d, r)};
    assert Msg(Commit, sn, d, r) in sent;
    ChangedKept(cfg, Last(p1), Last(p'), r, sn, sent, r, r);
    KeptTwice(cfg, Last(p), Last(p1), Last(p'), r, r, sn);
    KeptMark(cfg, Last(p), Last(p1), r, r, sn, r);
  }

  lemma OthersKept(cfg: Config, s: Rings, s': Rings, x: nat, y: nat, sn: nat)
    requires WellFormed(cfg) && Shaped(cfg, s) && Shaped(cfg, s') && Kept(cfg, s, s', x, y, sn)
    ensures forall r :: r in s.replicas && r != x && r != y ==> s'.replicas[r] == s.replicas[r]
  {
    forall r | r in s.replicas && r != x && r != y ensures s'.replicas[r] == s.replicas[r] {
      assert KeptReplica(cfg, s.replicas[r], s'.replicas[r], r == x || r == y, sn);
    }
  }

  lemma LaneSame(cfg: Config, rep: Replica<Slots>, rep': Replica<Slots>, sn: nat)
    requires cfg.capacity >= 1 && |rep.pool| == 2 * cfg.capacity && Lane(cfg, rep, sn) && rep'.pool == rep.pool
    requires NextUp(rep'.ctl, sn) && !rep'.ctl.inViewChange
    ensures Lane(cfg, rep', sn)
  {
    forall n | sn <= n < sn + cfg.capacity ensures Unused(cfg, rep', n) {
      assert Unused(cfg, rep, n);
    }
  }

  lemma FirstLane(cfg: Config, rep: Replica<Slots>)
    requires WellFormed(cfg) && cfg.viewChange && rep.pool == NewRing(cfg.capacity, true)
    requires NextUp(rep.ctl, 1) && !rep.ctl.inViewChange
    ensures Lane(cfg, rep, 1)
  {
    forall n | 1 <= n < 1 + cfg.capacity ensures Unused(cfg, rep, n) {
      Quotient(n, 2 * cfg.capacity, 0, n);
      assert NewRing(cfg.capacity, true)[n] == C.Fresh(n, true);
    }
  }

  // ----- timely runs from paths

  lemma DoneGrows(cfg: Config, s: Rings, a: Action, r: nat)
    requires WellFormed(cfg) && Shaped(cfg, s) && Correct(cfg, r)
    ensures Done(s.replicas[r].ctl) <= Done(Step(cfg, s, a).replicas[r].ctl)
  {
    RingStepOf(cfg, s, a, r);
    match a
    case Deliver(id, info, accepted) =>
    case Execute(id) => OrderGrows(s.replicas[r].ctl);
    case StartViewChange(id, stable, counter) =>
    case _ => ControlOf(cfg, s, a, r);
  }

  /** No message is further ahead of a correct replica's execution than its ring goes. */
  ghost predicate Near(cfg: Config, s: Rings, sent: set<Request>)
    requires Shaped(cfg, s)
  {
    forall r, m :: Correct(cfg, r) && m in sent ==> m.sn <= Done(s.replicas[r].ctl) + cfg.capacity
  }

  /** A path along which no message is too far ahead continues a timely run. */
  lemma {:induction false} Follow(cfg: Config, acts: seq<Action>, p: seq<Rings>) returns (acts': seq<Action>)
    requires WellFormed(cfg) && TimelyRun(cfg, acts) && Path(cfg, p) && p[0] == Run(cfg, acts)
    requires Near(cfg, p[0], Last(p).sent)
    ensures acts <= acts' && TimelyRun(cfg, acts') && Run(cfg, acts') == Last(p)
    ensures Advanced(cfg, p[0], Last(p))
    decreases |p|
  {
    if |p| == 1 {
      acts' := acts;
    } else {
      var init, a := LastStep(cfg, p);
      NearBefore(cfg, p[0], Last(init), a);
      var acts1 := Follow(cfg, acts, init);
      NearStep(cfg, p[0], Last(init), a);
      TimelyMore(cfg, acts1, a);
      acts' := acts1 + [a];
    }
  }

  ghost predicate Advanced(cfg: Config, s: Rings, s': Rings)
    requires Shaped(cfg, s) && Shaped(cfg, s')
  {
    forall r :: Correct(cfg, r) ==> Done(s.replicas[r].ctl) <= Done(s'.replicas[r].ctl)
  }

  lemma NearBefore(cfg: Config, start: Rings, s: Rings, a: Action)
    requires WellFormed(cfg) && Shaped(cfg, start) && Shaped(cfg, s) && Near(cfg, start, Step(cfg, s, a).sent)
    ensures Near(cfg, start, s.sent)
  {
    SentGrows(cfg, s, a);
  }

  lemma NearStep(cfg: Config, start: Rings, s: Rings, a: Action)
    requires WellFormed(cfg) && Shaped(cfg, start) && Shaped(cfg, s) && Advanced(cfg, start, s)
    requires Near(cfg, start, s.sent)
    ensures TimelyStep(cfg, s, a) && Advanced(cfg, start, Step(cfg, s, a))
  {
    forall r | Correct(cfg, r) ensures Done(start.replicas[r].ctl) <= Done(Step(cfg, s, a).replicas[r].ctl) {
      DoneGrows(cfg, s, a, r);
    }
  }

  lemma LastStep(cfg: Config, p: seq<Rings>) returns (init: seq<Rings>, a: Action)
    requires WellFormed(cfg) && Path(cfg, p) && |p| > 1
    ensures |init| == |p| - 1 && init[0] == p[0] && Path(cfg, init) && Last(p) == Step(cfg, Last(init), a)
  {
    init := p[..|p| - 1];
    assert Link(cfg, p, |p| - 1);
    forall i ensures Link(cfg, init, i) {
      assert Link(cfg, p, i);
      assert 0 < i < |init| ==> init[i - 1] == p[i - 1] && init[i] == p[i];
    }
    assert Next(cfg, Last(init), p[|p| - 1]);
    a :| p[|p| - 1] == Step(cfg, Last(init), a);
  }

  lemma TimelyMore(cfg: Config, acts: seq<Action>, a: Action)
    requires WellFormed(cfg) && TimelyRun(cfg, acts) && TimelyStep(cfg, Run(cfg, acts), a)
    ensures TimelyRun(cfg, acts + [a]) && Run(cfg, acts + [a]) == Step(cfg, Run(cfg, acts), a)
  {
    RunNext(cfg, acts, a);
    assert (acts + [a])[..|acts|] == acts;
  }
}
