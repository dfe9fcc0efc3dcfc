/** What every request a collector accepts keeps true, and what its history decides. */
module CollectorSafety {
  import opened Messages
  import opened Collector

  function Senders(infos: seq<RequestInfo>): set<nat> {
    set i | i in infos :: i.request.sender
  }

  /** The kept proofs are prepares for one digest, from at least `quorum` distinct senders. */
  ghost predicate Certified(proofs: seq<RequestInfo>, prepares: map<Digest, set<nat>>, quorum: nat) {
    && proofs != []
    && var d := proofs[0].request.hash;
    && (forall p :: p in proofs ==> p.request.hash == d)
    && Senders(proofs) == Votes(prepares, d)
    && |Votes(prepares, d)| >= quorum
  }

  ghost predicate HasQuorum(votes: map<Digest, set<nat>>, quorum: nat) {
    exists d :: |Votes(votes, d)| >= quorum
  }

  /** How status, flags and main request go together. */
  predicate Shape(c: State) {
    && c.status != ReadyExecute
    && (c.status == Idle ==> c.main == Vacant && c.others == [])
    && (c.status == ReadyPrepare ==> c.main.Held?)
    && (c.prepared <==> c.viewChange && Rank(c.status) >= Rank(ReadyCommit))
    && (c.committed ==> c.status == Executed)
    && (c.committed <==> c.main.Taken?)
  }

  ghost predicate Inv(c: State, quorum: nat) {
    && Shape(c)
    && (Rank(c.status) >= Rank(ReadyCommit) ==> HasQuorum(c.prepares, quorum))
    && (Rank(c.status) >= Rank(ReadyExecute) ==> HasQuorum(c.commits, quorum))
    && (c.prepared ==> Certified(c.proofs, c.prepares, quorum))
    && PreparesFor(c.proofs, c.sn)
    && (c.viewChange && !c.prepared ==> ProofsMatchVotes(c.proofs, c.prepares))
  }

  ghost predicate ProofsMatchVotes(proofs: seq<RequestInfo>, prepares: map<Digest, set<nat>>) {
    forall d :: Senders(WithHash(proofs, d)) == Votes(prepares, d)
  }

  ghost predicate PreparesFor(proofs: seq<RequestInfo>, sn: nat) {
    forall p :: p in proofs ==> p.request.kind == Prepare && p.request.sn == sn
  }

  lemma FreshInv(sn: nat, viewChange: bool, quorum: nat)
    ensures Inv(Fresh(sn, viewChange), quorum)
  {
  }

  ghost predicate ShapeStep(c: State, o: Outcome) {
    && Shape(o.state) && o.state.sn == c.sn && o.state.viewChange == c.viewChange
    && Rank(c.status) <= Rank(o.state.status)
    && (o.handed.Some? ==> !c.committed && o.state.committed && o.state.main == Taken(o.handed.value))
    && (c.main.Taken? ==> o.state == c && o.handed == None)
  }

  lemma ProposalShape(c: State, info: RequestInfo, quorum: nat)
    requires Shape(c) && !c.committed && c.status != Executed
    ensures ShapeStep(c, AddProposal(c, info, quorum))
  {
  }

  lemma PrepareShape(c: State, info: RequestInfo, quorum: nat)
    requires Shape(c) && !c.committed && c.status != Executed
    ensures ShapeStep(c, if c.viewChange then AddPrepareProof(c, info, quorum) else AddPrepareVote(c, info, quorum))
  {
  }

  lemma CommitShape(c: State, info: RequestInfo, quorum: nat)
    requires Shape(c) && !c.committed && c.status != Executed
    ensures ShapeStep(c, AddCommitVote(c, info, quorum))
  {
  }

  lemma CollectShape(c: State, info: RequestInfo, quorum: nat)
    requires Shape(c)
    ensures ShapeStep(c, Collect(c, info, quorum))
  {
    if !(c.committed || c.status == Executed || c.sn != info.request.sn) {
      match info.request.kind
      case PrePrepare => ProposalShape(c, info, quorum);
      case Prepare => PrepareShape(c, info, quorum);
      case Commit => CommitShape(c, info, quorum);
    }
  }

  /** At least as many proofs as distinct senders: the size check before a view change holds. */
  lemma {:induction false} ProofCount(infos: seq<RequestInfo>)
    ensures |infos| >= |Senders(infos)|
  {
    if infos != [] {
      var init, last := infos[..|infos| - 1], infos[|infos| - 1];
      ProofCount(init);
      assert infos == init + [last];
      assert Senders(infos) == Senders(init) + {last.request.sender};
    }
  }

  lemma SendersAppend(infos: seq<RequestInfo>, last: RequestInfo, d: Digest)
    ensures Senders(WithHash(infos + [last], d))
         == Senders(WithHash(infos, d)) + (if last.request.hash == d then {last.request.sender} else {})
  {
    assert (infos + [last])[..|infos|] == infos;
    var old_ := WithHash(infos, d);
    if last.request.hash == d {
      assert WithHash(infos + [last], d) == old_ + [last];
    } else {
      assert WithHash(infos + [last], d) == old_;
    }
  }

  lemma VoteAppend(proofs: seq<RequestInfo>, prepares: map<Digest, set<nat>>, info: RequestInfo)
    requires ProofsMatchVotes(proofs, prepares)
    ensures ProofsMatchVotes(proofs + [info], Vote(prepares, info.request.hash, info.request.sender))
  {
    forall d ensures Senders(WithHash(proofs + [info], d))
                  == Votes(Vote(prepares, info.request.hash, info.request.sender), d) {
      SendersAppend(proofs, info, d);
    }
  }

  /** The proofs kept when `info` completes a quorum form a certificate for its digest. */
  lemma KeptProofsCertify(proofs: seq<RequestInfo>, prepares: map<Digest, set<nat>>, info: RequestInfo, quorum: nat)
    requires ProofsMatchVotes(proofs, prepares)
    requires |Vote(prepares, info.request.hash, info.request.sender)[info.request.hash]| >= quorum
    ensures var d := info.request.hash;
      Certified(WithHash(proofs + [info], d), Vote(prepares, d, info.request.sender), quorum)
  {
    var d := info.request.hash;
    var kept := WithHash(proofs + [info], d);
    VoteAppend(proofs, prepares, info);
    assert (proofs + [info])[..|proofs|] == proofs;
    assert kept == WithHash(proofs, d) + [info];
    WithHashMembers(proofs, d);
    assert kept[0] in kept;
  }

  lemma KeptProofsFor(proofs: seq<RequestInfo>, info: RequestInfo, sn: nat, d: Digest)
    requires PreparesFor(proofs, sn) && info.request.kind == Prepare && info.request.sn == sn
    ensures PreparesFor(proofs + [info], sn) && PreparesFor(WithHash(proofs + [info], d), sn)
  {
    WithHashMembers(proofs + [info], d);
  }

  /** The fields a prepare changes under view change. */
  lemma PrepareProofEffect(c: State, info: RequestInfo, quorum: nat)
    requires Rank(c.status) <= Rank(ReadyPrepare) && !c.prepared
    ensures var d, c' := info.request.hash, AddPrepareProof(c, info, quorum).state;
      var votes := Vote(c.prepares, d, info.request.sender);
      && c'.prepares == votes && c'.commits == c.commits && c'.sn == c.sn && c'.viewChange == c.viewChange
      && (c'.prepared <==> c.status == ReadyPrepare && quorum <= |votes[d]|)
      && c'.status == (if c'.prepared then ReadyCommit else c.status)
      && c'.proofs == if c'.prepared then WithHash(c.proofs + [info], d) else c.proofs + [info]
  {
  }

  lemma WinningPrepareKeeps(c: State, c': State, info: RequestInfo, quorum: nat)
    requires Shape(c') && c'.sn == c.sn && c'.status == ReadyCommit
    requires ProofsMatchVotes(c.proofs, c.prepares) && PreparesFor(c.proofs, c.sn)
    requires info.request.kind == Prepare && info.request.sn == c.sn
    requires c'.prepared && c'.prepares == Vote(c.prepares, info.request.hash, info.request.sender)
    requires c'.proofs == WithHash(c.proofs + [info], info.request.hash)
    requires quorum <= |c'.prepares[info.request.hash]|
    ensures Inv(c', quorum)
  {
    KeptProofsCertify(c.proofs, c.prepares, info, quorum);
    KeptProofsFor(c.proofs, info, c.sn, info.request.hash);
    assert |Votes(c'.prepares, info.request.hash)| >= quorum;
  }

  /** Adding a prepare under view change keeps the invariant; on a quorum the proofs certify its digest. */
  lemma PrepareProofKeeps(c: State, info: RequestInfo, quorum: nat)
    requires quorum >= 1 && Inv(c, quorum) && c.viewChange
    requires info.request.kind == Prepare && info.request.sn == c.sn
    ensures Inv(AddPrepareProof(c, info, quorum).state, quorum)
  {
    if Rank(c.status) <= Rank(ReadyPrepare) {
      PrepareShape(c, info, quorum);
      PrepareProofEffect(c, info, quorum);
      var c' := AddPrepareProof(c, info, quorum).state;
      if c'.prepared {
        WinningPrepareKeeps(c, c', info, quorum);
      } else {
        VoteAppend(c.proofs, c.prepares, info);
      }
    }
  }

  lemma CommitVoteKeeps(c: State, info: RequestInfo, quorum: nat)
    requires quorum >= 1 && Inv(c, quorum) && c.status != Executed
    ensures Inv(AddCommitVote(c, info, quorum).state, quorum)
  {
    var c' := AddCommitVote(c, info, quorum).state;
    if c'.status == Executed {
      assert |Votes(c'.commits, info.request.hash)| >= quorum;
    }
  }

  lemma PrepareVoteKeeps(c: State, info: RequestInfo, quorum: nat)
    requires quorum >= 1 && Inv(c, quorum) && !c.viewChange
    ensures Inv(AddPrepareVote(c, info, quorum).state, quorum)
  {
    var c' := AddPrepareVote(c, info, quorum).state;
    if c.status == ReadyPrepare {
      if c'.status == ReadyCommit {
        assert |Votes(c'.prepares, info.request.hash)| >= quorum;
      }
    } else if Rank(c.status) >= Rank(ReadyCommit) {
      var d :| |Votes(c.prepares, d)| >= quorum;
      VotesGrow(c.prepares, info.request.hash, info.request.sender, d);
    }
  }

  lemma VotesGrow(m: map<Digest, set<nat>>, d: Digest, sender: nat, e: Digest)
    ensures Votes(m, e) <= Votes(Vote(m, d, sender), e)
    ensures |Votes(m, e)| <= |Votes(Vote(m, d, sender), e)|
  {
    var now := Votes(Vote(m, d, sender), e);
    assert now == Votes(m, e) + (now - Votes(m, e));
  }

  /**
    * The collector invariant holds after every request; the status never moves back; at most one
    * request is ever handed to the executor, and only together with the move to `Executed`.
    */
  lemma CollectKeeps(c: State, info: RequestInfo, quorum: nat)
    requires quorum >= 1 && Inv(c, quorum)
    ensures var o := Collect(c, info, quorum);
      && Inv(o.state, quorum)
      && Rank(c.status) <= Rank(o.state.status)
      && (o.handed.Some? ==> !c.committed && o.state.committed && o.state.main == Taken(o.handed.value))
      && (c.main.Taken? ==> o.state == c && o.handed == None)
  {
    CollectShape(c, info, quorum);
    if !(c.committed || c.status == Executed || c.sn != info.request.sn) {
      match info.request.kind
      case PrePrepare =>
      case Prepare =>
        if c.viewChange { PrepareProofKeeps(c, info, quorum); } else { PrepareVoteKeeps(c, info, quorum); }
      case Commit => CommitVoteKeeps(c, info, quorum);
    }
  }

  /** The part of one step that the protocol relies on, without how it comes about. */
  ghost predicate Effect(c: State, m: Request, quorum: nat, o: Outcome) {
    && o.state.sn == c.sn && o.state.viewChange == c.viewChange
    && (o.state.view == c.view || o.state.view == m.view)
    && Rank(c.status) <= Rank(o.state.status)
    && (o.state.prepares == c.prepares
        || (m.kind == Prepare && m.sn == c.sn && o.state.prepares == Vote(c.prepares, m.hash, m.sender)))
    && (o.state.commits == c.commits
        || (m.kind == Commit && m.sn == c.sn && o.state.commits == Vote(c.commits, m.hash, m.sender)))
    && (Rank(c.status) >= Rank(ReadyCommit) ==> o.state.proofs == c.proofs)
    && (o.changed && m.kind == PrePrepare ==> c.status == Idle && o.state.status == ReadyPrepare)
    && (o.changed && m.kind == Prepare ==>
          && c.status == ReadyPrepare && o.state.status == ReadyCommit
          && |Votes(o.state.prepares, m.hash)| >= quorum
          && (c.viewChange ==> o.state.proofs != [] && o.state.proofs[0].request.hash == m.hash))
    && (Rank(c.status) < Rank(ReadyCommit) <= Rank(o.state.status) ==> o.changed && m.kind == Prepare && o.ret >= 0)
    && (o.changed ==> m.sn == c.sn && o.ret >= 0)
  }

  lemma ProposalEffect(c: State, info: RequestInfo, quorum: nat)
    requires Shape(c) && !c.committed && c.status != Executed && info.request.kind == PrePrepare
    requires info.request.sn == c.sn && (c.view == 0 || c.view == info.request.view)
    ensures Effect(c, info.request, quorum, AddProposal(c, info, quorum))
  {
  }

  lemma PrepareEffect(c: State, info: RequestInfo, quorum: nat)
    requires Shape(c) && !c.committed && c.status != Executed && info.request.kind == Prepare
    requires info.request.sn == c.sn
    ensures Effect(c, info.request, quorum,
                   if c.viewChange then AddPrepareProof(c, info, quorum) else AddPrepareVote(c, info, quorum))
  {
    if c.viewChange && Rank(c.status) <= Rank(ReadyPrepare) {
      var d := info.request.hash;
      var kept := WithHash(c.proofs + [info], d);
      assert (c.proofs + [info])[..|c.proofs|] == c.proofs;
      assert kept == WithHash(c.proofs, d) + [info];
      WithHashMembers(c.proofs, d);
      assert kept[0].request.hash == d by { assert kept[0] in kept; }
      PrepareProofEffect(c, info, quorum);
    }
  }

  lemma CommitEffect(c: State, info: RequestInfo, quorum: nat)
    requires Shape(c) && !c.committed && c.status != Executed && info.request.kind == Commit
    requires info.request.sn == c.sn
    ensures Effect(c, info.request, quorum, AddCommitVote(c, info, quorum))
  {
  }

  lemma CollectEffect(c: State, info: RequestInfo, quorum: nat)
    requires Shape(c) && (c.view == 0 || c.view == info.request.view)
    ensures Effect(c, info.request, quorum, Collect(c, info, quorum))
  {
    if !(c.committed || c.status == Executed || c.sn != info.request.sn) {
      match info.request.kind
      case PrePrepare => ProposalEffect(c, info, quorum);
      case Prepare => PrepareEffect(c, info, quorum);
      case Commit => CommitEffect(c, info, quorum);
    }
  }

  /** All proposals the collector holds or has passed on are among `known`. */
  ghost predicate StoredIn(main: MainCell, others: seq<RequestInfo>, known: set<Request>) {
    && (main.Held? ==> main.info.request in known)
    && (main.Taken? ==> main.request in known)
    && forall i :: i in others ==> i.request in known
  }

  lemma AdoptStored(c: State, d: Digest, known: set<Request>)
    requires StoredIn(c.main, c.others, known)
    ensures StoredIn(AdoptProposal(c, d).main, AdoptProposal(c, d).others, known)
  {
    var matching := WithHash(c.others, d);
    WithHashMembers(c.others, d);
    if matching != [] {
      assert matching[0] in matching;
    }
  }

  lemma PrepareStored(c: State, info: RequestInfo, quorum: nat, known: set<Request>)
    requires StoredIn(c.main, c.others, known)
    ensures var c' := AddPrepareProof(c, info, quorum).state; StoredIn(c'.main, c'.others, known)
  {
    var d := info.request.hash;
    var votes := Vote(c.prepares, d, info.request.sender);
    AdoptStored(c.(proofs := WithHash(c.proofs + [info], d), prepares := votes, status := ReadyCommit,
                   prepared := true),
                d, known);
  }

  lemma CommitStored(c: State, info: RequestInfo, quorum: nat, known: set<Request>)
    requires StoredIn(c.main, c.others, known)
    ensures var o := AddCommitVote(c, info, quorum);
      StoredIn(o.state.main, o.state.others, known) && (o.handed.Some? ==> o.handed.value in known)
  {
  }

  /** Nothing is stored or handed over but proposals that were received for this number. */
  lemma CollectStored(c: State, info: RequestInfo, quorum: nat, known: set<Request>)
    requires StoredIn(c.main, c.others, known)
    requires info.request.kind == PrePrepare && info.request.sn == c.sn ==> info.request in known
    ensures var o := Collect(c, info, quorum);
      StoredIn(o.state.main, o.state.others, known) && (o.handed.Some? ==> o.handed.value in known)
  {
    match info.request.kind
    case PrePrepare =>
    case Prepare => PrepareStored(c, info, quorum, known);
    case Commit => CommitStored(c, info, quorum, known);
  }
}
