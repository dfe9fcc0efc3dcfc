/** The message handlers as the source runs them, proved to be the steps of the protocol over rings. */
module Handlers {
  import opened Messages
  import opened OrderedKeys
  import opened CollectorPool
  import opened ViewChange
  import opened Pbft
  import opened PbftRing
  import C = Collector
  import E = Executor

  /** `CollectorResultCode`. */
  datatype ResultCode = INVALID | OK | STATE_CHANGED

  /** What the protocol does with one message: the new replica and what it sends. */
  function Respond(cfg: Config, id: nat, rep: Replica<Slots>, info: RequestInfo, accepted: bool)
    : (r: (Replica<Slots>, set<Request>))
    requires WellFormed(cfg) && |rep.pool| == 2 * cfg.capacity
    ensures |r.0.pool| == 2 * cfg.capacity
  {
    if !Reaches(cfg, rep.ctl, info.request, accepted) then (rep, {})
    else
      (Handle(cfg, rep, info),
       Sends(info.request, C.Collect(SlotFor(cfg, rep, info.request.sn), info, QuorumOf(cfg)), id))
  }

  /** Several messages, oldest first. */
  function RespondAll(cfg: Config, id: nat, rep: Replica<Slots>, msgs: seq<(RequestInfo, bool)>)
    : (r: (Replica<Slots>, set<Request>))
    requires WellFormed(cfg) && |rep.pool| == 2 * cfg.capacity
    ensures |r.0.pool| == 2 * cfg.capacity
  {
    if msgs == [] then (rep, {})
    else
      var (rep1, sent1) := RespondAll(cfg, id, rep, msgs[..|msgs| - 1]);
      var (rep2, sent2) := Respond(cfg, id, rep1, msgs[|msgs| - 1].0, msgs[|msgs| - 1].1);
      (rep2, sent1 + sent2)
  }

  lemma RespondLast(cfg: Config, id: nat, rep: Replica<Slots>, msgs: seq<(RequestInfo, bool)>, info: RequestInfo,
                    accepted: bool)
    requires WellFormed(cfg) && |rep.pool| == 2 * cfg.capacity
    ensures var (rep1, sent1) := RespondAll(cfg, id, rep, msgs);
      var (rep2, sent2) := Respond(cfg, id, rep1, info, accepted);
      RespondAll(cfg, id, rep, msgs + [(info, accepted)]) == (rep2, sent1 + sent2)
  {
    var all := msgs + [(info, accepted)];
    assert all[..|all| - 1] == msgs && all[|all| - 1] == (info, accepted);
  }

  /** Responding is the delivery step of the machine. */
  lemma RespondIsStep(cfg: Config, s: Rings, id: nat, info: RequestInfo, accepted: bool)
    requires WellFormed(cfg) && Shaped(cfg, s) && Correct(cfg, id) && info.request in s.sent
    ensures var r := Respond(cfg, id, s.replicas[id], info, accepted);
      Step(cfg, s, Deliver(id, info, accepted)) == s.(replicas := s.replicas[id := r.0], sent := s.sent + r.1)
  {
    RingDelivers(cfg, s, id, info, accepted);
    assert s.replicas[id := s.replicas[id]] == s.replicas && s.sent + {} == s.sent;
  }

  /** The messages as actions of the machine, in order. */
  function Deliveries(id: nat, msgs: seq<(RequestInfo, bool)>): (acts: seq<Action>) {
    seq(|msgs|, i requires 0 <= i < |msgs| => Deliver(id, msgs[i].0, msgs[i].1))
  }

  /** The system with this replica's part replaced and these messages sent. */
  function With(s: Rings, id: nat, r: (Replica<Slots>, set<Request>)): Rings {
    s.(replicas := s.replicas[id := r.0], sent := s.sent + r.1)
  }

  lemma DeliverNext(cfg: Config, s: Rings, s1: Rings, id: nat, msgs: seq<(RequestInfo, bool)>, info: RequestInfo,
                    accepted: bool)
    requires WellFormed(cfg) && Shaped(cfg, s) && Shaped(cfg, s1) && Correct(cfg, id) && info.request in s.sent
    requires s1 == With(s, id, RespondAll(cfg, id, s.replicas[id], msgs))
    ensures Step(cfg, s1, Deliver(id, info, accepted))
         == With(s, id, RespondAll(cfg, id, s.replicas[id], msgs + [(info, accepted)]))
  {
    RespondIsStep(cfg, s1, id, info, accepted);
    RespondLast(cfg, id, s.replicas[id], msgs, info, accepted);
    var r1 := RespondAll(cfg, id, s.replicas[id], msgs);
    var r2 := Respond(cfg, id, r1.0, info, accepted);
    assert (s.sent + r1.1) + r2.1 == s.sent + (r1.1 + r2.1);
  }

  lemma RunLast(cfg: Config, acts: seq<Action>, a: Action)
    requires WellFormed(cfg)
    ensures Run(cfg, acts + [a]) == Step(cfg, Run(cfg, acts), a)
  {
    assert (acts + [a])[..|acts|] == acts;
  }

  /** Delivering the first n messages one after the other, from state s on, is responding to them. */
  ghost predicate Delivered(cfg: Config, acts: seq<Action>, s: Rings, id: nat, msgs: seq<(RequestInfo, bool)>, n: nat)
    requires WellFormed(cfg) && Shaped(cfg, s) && id in cfg.replicas && n <= |msgs|
  {
    Run(cfg, acts + Deliveries(id, msgs[..n])) == With(s, id, RespondAll(cfg, id, s.replicas[id], msgs[..n]))
  }

  lemma DeliveredNone(cfg: Config, acts: seq<Action>, s: Rings, id: nat, msgs: seq<(RequestInfo, bool)>)
    requires WellFormed(cfg) && id in cfg.replicas && s == Run(cfg, acts)
    ensures Delivered(cfg, acts, s, id, msgs, 0)
  {
    assert acts + Deliveries(id, msgs[..0]) == acts;
    assert s.replicas[id := s.replicas[id]] == s.replicas && s.sent + {} == s.sent;
  }

  lemma DeliveriesNext(acts: seq<Action>, id: nat, msgs: seq<(RequestInfo, bool)>, n: nat)
    requires n < |msgs|
    ensures msgs[..n + 1] == msgs[..n] + [(msgs[n].0, msgs[n].1)]
    ensures acts + Deliveries(id, msgs[..n + 1])
         == acts + Deliveries(id, msgs[..n]) + [Deliver(id, msgs[n].0, msgs[n].1)]
  {
  }

  lemma RunNext(cfg: Config, before: seq<Action>, s: Rings, id: nat, msgs: seq<(RequestInfo, bool)>, info: RequestInfo,
                accepted: bool)
    requires WellFormed(cfg) && Shaped(cfg, s) && Correct(cfg, id) && info.request in s.sent
    requires Run(cfg, before) == With(s, id, RespondAll(cfg, id, s.replicas[id], msgs))
    ensures Run(cfg, before + [Deliver(id, info, accepted)])
         == With(s, id, RespondAll(cfg, id, s.replicas[id], msgs + [(info, accepted)]))
  {
    RunLast(cfg, before, Deliver(id, info, accepted));
    DeliverNext(cfg, s, Run(cfg, before), id, msgs, info, accepted);
  }

  lemma DeliveredNext(cfg: Config, acts: seq<Action>, s: Rings, id: nat, msgs: seq<(RequestInfo, bool)>, n: nat)
    requires WellFormed(cfg) && Shaped(cfg, s) && Correct(cfg, id) && n < |msgs| && msgs[n].0.request in s.sent
    requires Delivered(cfg, acts, s, id, msgs, n)
    ensures Delivered(cfg, acts, s, id, msgs, n + 1)
  {
    DeliveriesNext(acts, id, msgs, n);
    RunNext(cfg, acts + Deliveries(id, msgs[..n]), s, id, msgs[..n], msgs[n].0, msgs[n].1);
  }

  lemma {:induction false} DeliveredUpTo(cfg: Config, acts: seq<Action>, s: Rings, id: nat,
                                         msgs: seq<(RequestInfo, bool)>, n: nat)
    requires WellFormed(cfg) && Shaped(cfg, s) && Correct(cfg, id) && n <= |msgs|
    requires Delivered(cfg, acts, s, id, msgs, 0) && forall m :: m in msgs ==> m.0.request in s.sent
    ensures Delivered(cfg, acts, s, id, msgs, n)
  {
    if n > 0 {
      var k := n - 1;
      DeliveredUpTo(cfg, acts, s, id, msgs, k);
      assert msgs[k] in msgs;
      DeliveredNext(cfg, acts, s, id, msgs, k);
    }
  }

  /** Responding to several messages is delivering them one after the other. */
  lemma RespondAllIsRun(cfg: Config, acts: seq<Action>, id: nat, msgs: seq<(RequestInfo, bool)>)
    requires WellFormed(cfg) && Correct(cfg, id) && forall m :: m in msgs ==> m.0.request in Run(cfg, acts).sent
    ensures Run(cfg, acts + Deliveries(id, msgs))
         == With(Run(cfg, acts), id, RespondAll(cfg, id, Run(cfg, acts).replicas[id], msgs))
  {
    var s := Run(cfg, acts);
    DeliveredNone(cfg, acts, s, id, msgs);
    DeliveredUpTo(cfg, acts, s, id, msgs, |msgs|);
    assert msgs[..|msgs|] == msgs;
  }

  class MessageManager {
    const cfg: Config
    const pool: LockFreeCollectorPool
    const executor: E.TransactionExecutor
    var nextSeq: nat
    var highestPrepared: nat
    var commitQueue: seq<Request>
    ghost var fetched: set<Request>
    ghost var committable: nat

    ghost predicate Valid()
      reads this, pool, pool.slots, pool.slots[..]
    {
      WellFormed(cfg) && pool.Valid() && pool.capacity == cfg.capacity && pool.viewChange == cfg.viewChange
    }

    /** The replica's protocol state, outside a view change. */
    ghost function View(): (rep: Replica<Slots>)
      reads this, pool, executor
    {
      Replica(pool.contents,
              Control(nextSeq, highestPrepared, false, commitQueue, executor.View(), fetched, committable))
    }

    /** The pool is sized from the limit on transactions in progress. */
    constructor (cfg: Config)
      requires WellFormed(cfg)
      ensures Valid() && this.cfg == cfg.(capacity := pool.capacity) && pool.capacity > 2 * cfg.maxTxn
      ensures View() == Replica(NewRing(pool.capacity, cfg.viewChange), InitialControl())
      ensures fresh(pool) && fresh(pool.slots) && fresh(pool.slots[..]) && fresh(executor)
    {
      var p := new LockFreeCollectorPool(cfg.maxTxn, cfg.viewChange);
      var e := new E.TransactionExecutor();
      pool, executor, this.cfg := p, e, cfg.(capacity := p.capacity);
      nextSeq, highestPrepared, commitQueue, fetched, committable := 1, 0, [], {}, 0;
    }

    /** A number is taken only when it is issued. */
    method AssignNextSeq() returns (sn: Option<nat>)
      modifies this`nextSeq
      ensures sn == Pbft.AssignNextSeq(old(nextSeq), (executor.nextExecuteSeq + MAX64) % (MAX64 + 1), cfg.maxTxn)
      ensures nextSeq == if sn.Some? then old(nextSeq) + 1 else old(nextSeq)
    {
      var maxExecuted := (executor.nextExecuteSeq + MAX64) % (MAX64 + 1) % TWO32;
      if (nextSeq - maxExecuted) % (MAX64 + 1) > cfg.maxTxn {
        return None;
      }
      sn := Some(nextSeq);
      nextSeq := nextSeq + 1;
    }

    /** The slot's collector answers, and what it hands over joins the commit queue. */
    method AddConsensusMsg(info: RequestInfo) returns (code: ResultCode)
      requires Valid()
      modifies this`commitQueue, pool`contents, pool.slots[..]
      ensures Valid() && pool.slots[..] == old(pool.slots[..])
      ensures IsValidMsg(cfg, old(View()).ctl, info.request) <==>
        info.request.view == cfg.view && executor.nextExecuteSeq <= info.request.sn + 1
      ensures !IsValidMsg(cfg, old(View()).ctl, info.request) ==> code == INVALID && View() == old(View())
      ensures IsValidMsg(cfg, old(View()).ctl, info.request) ==>
        var o := C.Collect(SlotFor(cfg, old(View()), info.request.sn), info, QuorumOf(cfg));
        && View() == Handle(cfg, old(View()), info).(ctl := React(old(View()).ctl, info.request, o.(changed := false)))
        && code == if o.ret < 0 then INVALID else if o.changed then STATE_CHANGED else OK
    {
      var sn := info.request.sn;
      if info.request.view != cfg.view || sn + 1 < executor.nextExecuteSeq {
        return INVALID;
      }
      var ret, changed, handed := pool.AddRequest(info, QuorumOf(cfg));
      assert commitQueue + [] == commitQueue;
      if handed.Some? {
        commitQueue := commitQueue + [handed.value];
      }
      code := if ret < 0 then INVALID else if changed then STATE_CHANGED else OK;
    }

    /** One pass of the ordering thread: the oldest committed request goes to the executor, and slots are renewed. */
    method OrderOne()
      requires Valid()
      modifies this`commitQueue, executor, pool`contents, pool.slots
      ensures Valid() && View() == ExecuteNext(cfg, old(View()))
    {
      if commitQueue != [] {
        var message, first := commitQueue[0], executor.nextExecuteSeq;
        commitQueue := commitQueue[1..];
        executor.OrderMessage(message);
        pool.UpdateTo(first, executor.nextExecuteSeq);
      }
    }

    /** `SendViewChangeMsg`: the entries of the view-change message. */
    method PreparedMessages(stable: nat) returns (entries: seq<PreparedMsg>)
      requires Valid()
      ensures entries == PreparedEntries(cfg.capacity, pool.contents, stable, highestPrepared)
    {
      entries := [];
      var i := stable + 1;
      while i <= highestPrepared
        invariant stable < i && (i <= highestPrepared + 1 || i == stable + 1)
        invariant entries == PreparedEntries(cfg.capacity, pool.contents, stable, i - 1)
        decreases highestPrepared + 1 - i
      {
        var c := pool.GetCollector(i);
        if C.Rank(c.status) >= C.Rank(C.ReadyCommit) {
          entries := entries + [PreparedMsg(i, c.proofs)];
        }
        i := i + 1;
      }
      NoneAbove(pool.contents, stable, i - 1);
    }

    lemma NoneAbove(ring: Slots, low: nat, high: nat)
      requires cfg.capacity >= 1 && |ring| == 2 * cfg.capacity
      requires high == highestPrepared || (high == low && highestPrepared <= low)
      ensures PreparedEntries(cfg.capacity, ring, low, high)
           == PreparedEntries(cfg.capacity, ring, low, highestPrepared)
    {
    }
  }

  class Commitment {
    const id: nat
    const manager: MessageManager

    constructor (id: nat, manager: MessageManager)
      ensures this.id == id && this.manager == manager
    {
      this.id, this.manager := id, manager;
    }

    /**
      * `admitted`: the message is signed and the request not executed yet; `accepted`: the checks of its signature,
      * by the user function and for duplicates. A request for the primary is passed on before these.
      */
    method ProcessNewRequest(hash: Digest, admitted: bool, accepted: bool)
      returns (ret: int, sent: set<Request>, forward: Option<nat>)
      modifies manager`nextSeq
      ensures admitted && accepted ==>
        (manager.View().ctl, sent) == NewRequest(manager.cfg, id, old(manager.View()).ctl, hash)
      ensures !(admitted && accepted) ==> manager.View() == old(manager.View()) && sent == {}
      ensures manager.View().pool == old(manager.View()).pool && (ret == 0 <==> sent != {})
      ensures forward == if admitted && id != manager.cfg.primary then Some(manager.cfg.primary) else None
    {
      if !admitted {
        return -2, {}, None;
      }
      if id != manager.cfg.primary {
        return -3, {}, Some(manager.cfg.primary);
      }
      if !accepted {
        return -2, {}, None;
      }
      var sn := manager.AssignNextSeq();
      if sn == None {
        return -2, {}, None;
      }
      return 0, {Request(PrePrepare, manager.cfg.view, sn.value, hash, id)}, None;
    }

    method ProcessProposeMsg(info: RequestInfo, accepted: bool) returns (ret: int, sent: set<Request>)
      requires manager.Valid() && info.request.kind == PrePrepare
      modifies manager, manager.pool, manager.pool.slots[..]
      ensures manager.Valid() && manager.pool.slots[..] == old(manager.pool.slots[..])
      ensures (manager.View(), sent) == Respond(manager.cfg, id, old(manager.View()), info, accepted)
      ensures ret == 0 || (ret == -2 && sent == {})
    {
      var m := info.request;
      if !accepted || m.sender != manager.cfg.primary {
        return -2, {};
      }
      var code := manager.AddConsensusMsg(info);
      sent := if code == STATE_CHANGED then {Request(Prepare, m.view, m.sn, m.hash, id)} else {};
      ret := if code == INVALID then -2 else 0;
    }

    method ProcessPrepareMsg(info: RequestInfo, accepted: bool) returns (ret: int, sent: set<Request>)
      requires manager.Valid() && info.request.kind == Prepare
      modifies manager, manager.pool, manager.pool.slots[..]
      ensures manager.Valid() && manager.pool.slots[..] == old(manager.pool.slots[..])
      ensures (manager.View(), sent) == Respond(manager.cfg, id, old(manager.View()), info, accepted)
      ensures ret == 0 || (ret == -2 && sent == {})
    {
      var m := info.request;
      sent := {};
      if !accepted {
        return -2, {};
      }
      var code := manager.AddConsensusMsg(info);
      if code == STATE_CHANGED {
        if manager.highestPrepared < m.sn {
          manager.highestPrepared := m.sn;
        }
        sent := {Request(Commit, m.view, m.sn, m.hash, id)};
      }
      ret := if code == INVALID then -2 else 0;
    }

    method ProcessCommitMsg(info: RequestInfo, accepted: bool) returns (ret: int, sent: set<Request>)
      requires manager.Valid() && info.request.kind == Commit
      modifies manager, manager.pool, manager.pool.slots[..]
      ensures manager.Valid() && manager.pool.slots[..] == old(manager.pool.slots[..])
      ensures (manager.View(), sent) == Respond(manager.cfg, id, old(manager.View()), info, accepted)
      ensures (ret == 0 || ret == -2) && sent == {}
    {
      if !accepted {
        return -2, {};
      }
      var code := manager.AddConsensusMsg(info);
      return if code == INVALID then -2 else 0, {};
    }

    method InternalConsensusCommit(info: RequestInfo, accepted: bool) returns (ret: int, sent: set<Request>)
      requires manager.Valid()
      modifies manager, manager.pool, manager.pool.slots[..]
      ensures manager.Valid() && manager.pool.slots[..] == old(manager.pool.slots[..])
      ensures (manager.View(), sent) == Respond(manager.cfg, id, old(manager.View()), info, accepted)
    {
      match info.request.kind
      case PrePrepare => ret, sent := ProcessProposeMsg(info, accepted);
      case Prepare => ret, sent := ProcessPrepareMsg(info, accepted);
      case Commit => ret, sent := ProcessCommitMsg(info, accepted);
    }
  }

  /** `ConsensusManagerPBFT`: during a view change ordering messages wait; afterwards they are handled first. */
  class ConsensusManager {
    const commitment: Commitment
    var inViewChange: bool
    var pending: seq<(RequestInfo, bool)>

    constructor (commitment: Commitment)
      ensures this.commitment == commitment && !inViewChange && pending == []
    {
      this.commitment, inViewChange, pending := commitment, false, [];
    }

    method ConsensusCommit(info: RequestInfo, accepted: bool) returns (ret: int, sent: set<Request>)
      requires commitment.manager.Valid()
      modifies this`pending, commitment.manager, commitment.manager.pool, commitment.manager.pool.slots[..]
      ensures commitment.manager.Valid()
      ensures inViewChange ==>
        && pending == old(pending) + [(info, accepted)] && sent == {}
        && commitment.manager.View() == old(commitment.manager.View())
      ensures !inViewChange ==>
        && pending == []
        && (commitment.manager.View(), sent)
           == RespondAll(commitment.manager.cfg, commitment.id, old(commitment.manager.View()),
                         old(pending) + [(info, accepted)])
    {
      if inViewChange {
        pending := pending + [(info, accepted)];
        return 0, {};
      }
      ghost var start := commitment.manager.View();
      ghost var cfg, id := commitment.manager.cfg, commitment.id;
      sent := {};
      var all := pending;
      for i := 0 to |all|
        invariant commitment.manager.Valid()
        invariant commitment.manager.pool.slots[..] == old(commitment.manager.pool.slots[..])
        invariant (commitment.manager.View(), sent) == RespondAll(cfg, id, start, all[..i])
      {
        assert all[..i + 1] == all[..i] + [(all[i].0, all[i].1)];
        RespondLast(cfg, id, start, all[..i], all[i].0, all[i].1);
        var r, more := commitment.InternalConsensusCommit(all[i].0, all[i].1);
        sent := sent + more;
      }
      assert all[..|all|] == all;
      RespondLast(cfg, id, start, all, info, accepted);
      pending := [];
      var more;
      ret, more := commitment.InternalConsensusCommit(info, accepted);
      sent := sent + more;
    }
  }
}
