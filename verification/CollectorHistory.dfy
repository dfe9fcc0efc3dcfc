/** Which request a collector executes, read off the list of requests it was given. */
module CollectorHistory {
  import opened Messages
  import opened Collector
  import opened CollectorSafety

  /** The collector after a list of requests, oldest first, with view change enabled. */
  function Run(sn: nat, events: seq<RequestInfo>, quorum: nat): State {
    if events == [] then Fresh(sn, true)
    else Collect(Run(sn, events[..|events| - 1], quorum), events[|events| - 1], quorum).state
  }

  /** The requests of one kind for this sequence number, in arrival order. */
  function Of(events: seq<RequestInfo>, sn: nat, kind: Kind): seq<RequestInfo> {
    if events == [] then []
    else
      var last := events[|events| - 1];
      Of(events[..|events| - 1], sn, kind)
        + if last.request.kind == kind && last.request.sn == sn then [last] else []
  }

  ghost predicate OneView(events: seq<RequestInfo>, view: nat) {
    forall e :: e in events ==> e.request.view == view
  }

  /** No digest is prepared yet: the first proposal is the main one, the rest are set aside. */
  ghost predicate Waiting(c: State, proposals: seq<RequestInfo>, prepares: seq<RequestInfo>) {
    && Rank(c.status) <= Rank(ReadyPrepare)
    && (c.status == Idle <==> proposals == [])
    && c.main == (if proposals == [] then Vacant else Held(proposals[0]))
    && c.others == (if proposals == [] then [] else proposals[1..])
    && c.proofs == prepares
  }

  /** The main request after digest `d` is prepared: an earlier match, else the next proposal to come. */
  function Choice(before: seq<RequestInfo>, after: seq<RequestInfo>, d: Digest): MainCell {
    if WithHash(before, d) != [] then Held(WithHash(before, d)[0])
    else if after == [] then Vacant
    else Held(after[0])
  }

  ghost predicate PreparedAt(sn: nat, events: seq<RequestInfo>, quorum: nat, k: nat) {
    && k < |events|
    && events[k].request.kind == Prepare && events[k].request.sn == sn
    && !Run(sn, events[..k], quorum).prepared
    && Run(sn, events[..k + 1], quorum).prepared
  }

  function Given(cell: MainCell): MainCell {
    if cell.Held? then Taken(cell.info.request) else cell
  }

  function ChoiceAt(sn: nat, events: seq<RequestInfo>, k: nat, m: nat): MainCell
    requires k < m <= |events|
  {
    Choice(Of(events[..k], sn, PrePrepare), Of(events[k + 1..m], sn, PrePrepare), events[k].request.hash)
  }

  /** State c has settled on the digest of request k; m is where it executed, or the end. */
  ghost predicate Settled(sn: nat, events: seq<RequestInfo>, c: State, k: nat, m: nat) {
    && k < m <= |events|
    && c.prepared && c.proofs == WithHash(Of(events[..k + 1], sn, Prepare), events[k].request.hash)
    && (c.status == ReadyCommit ==> m == |events| && c.main == ChoiceAt(sn, events, k, m))
    && (c.status == Executed ==>
          && m < |events| && events[m].request.kind == Commit
          && c.main == Given(ChoiceAt(sn, events, k, m)))
  }

  /** Request m is the commit that made the collector execute. */
  ghost predicate ExecutedAt(sn: nat, events: seq<RequestInfo>, quorum: nat, m: nat) {
    && m < |events|
    && events[m].request.kind == Commit && events[m].request.sn == sn
    && Run(sn, events[..m], quorum).status != Executed
    && Run(sn, events[..m + 1], quorum).status == Executed
  }

  ghost predicate Decided(sn: nat, events: seq<RequestInfo>, quorum: nat, k: nat, m: nat) {
    && PreparedAt(sn, events, quorum, k) && Settled(sn, events, Run(sn, events, quorum), k, m)
    && (Run(sn, events, quorum).status == Executed ==> ExecutedAt(sn, events, quorum, m))
  }

  ghost predicate Ready(c: State, sn: nat, view: nat) {
    Shape(c) && c.sn == sn && c.viewChange && (c.view == 0 || c.view == view)
  }

  lemma CollectReady(c: State, e: RequestInfo, sn: nat, quorum: nat, view: nat)
    requires quorum >= 1 && Ready(c, sn, view) && e.request.view == view
    ensures Ready(Collect(c, e, quorum).state, sn, view)
  {
    CollectShape(c, e, quorum);
    CollectEffect(c, e, quorum);
  }

  lemma {:induction false} RunReady(sn: nat, events: seq<RequestInfo>, quorum: nat, view: nat)
    requires quorum >= 1 && OneView(events, view)
    ensures Ready(Run(sn, events, quorum), sn, view)
  {
    if events != [] {
      RunReady(sn, events[..|events| - 1], quorum, view);
      CollectReady(Run(sn, events[..|events| - 1], quorum), events[|events| - 1], sn, quorum, view);
    }
  }

  /** Adopting a proposal leaves the earliest stored match as the main request, or none. */
  lemma AdoptPicksEarliest(c: State, proposals: seq<RequestInfo>, d: Digest)
    requires proposals != [] && c.main == Held(proposals[0]) && c.others == proposals[1..]
    ensures AdoptProposal(c, d).main == Choice(proposals, [], d)
  {
    assert proposals == proposals[..1] + proposals[1..];
    WithHashAppend(proposals[..1], proposals[1..], d);
    assert proposals[..1][..0] == [];
  }

  function If(e: RequestInfo, sn: nat, kind: Kind): seq<RequestInfo> {
    if e.request.kind == kind && e.request.sn == sn then [e] else []
  }

  /** One more prepare while no digest is prepared. */
  lemma PrepareWaiting(c: State, e: RequestInfo, quorum: nat, proposals: seq<RequestInfo>, prepares: seq<RequestInfo>)
    requires Shape(c) && c.viewChange && Waiting(c, proposals, prepares)
    ensures var c', d := AddPrepareProof(c, e, quorum).state, e.request.hash;
      if c'.prepared then
        c'.status == ReadyCommit && c'.proofs == WithHash(prepares + [e], d) && c'.main == Choice(proposals, [], d)
      else
        Waiting(c', proposals, prepares + [e])
  {
    var c' := AddPrepareProof(c, e, quorum).state;
    if c'.prepared {
      AdoptPicksEarliest(c.(proofs := c'.proofs, prepares := c'.prepares, status := ReadyCommit, prepared := true),
                         proposals, e.request.hash);
    }
  }

  lemma OtherWaiting(c: State, e: RequestInfo, sn: nat, quorum: nat, view: nat,
                     proposals: seq<RequestInfo>, prepares: seq<RequestInfo>)
    requires Ready(c, sn, view) && e.request.view == view && Waiting(c, proposals, prepares)
    requires e.request.kind != Prepare || e.request.sn != sn
    ensures var c' := Collect(c, e, quorum).state;
      !c'.prepared && Waiting(c', proposals + If(e, sn, PrePrepare), prepares + If(e, sn, Prepare))
  {
    if e.request.sn == sn && e.request.kind == PrePrepare {
      ProposalWaiting(c, e, quorum, proposals, prepares);
    }
  }

  lemma ProposalWaiting(c: State, e: RequestInfo, quorum: nat, proposals: seq<RequestInfo>, prepares: seq<RequestInfo>)
    requires Shape(c) && c.viewChange && (c.view == 0 || c.view == e.request.view) && Waiting(c, proposals, prepares)
    ensures var c' := AddProposal(c, e, quorum).state; !c'.prepared && Waiting(c', proposals + [e], prepares)
  {
  }

  /** One more request while no digest is prepared. */
  lemma CollectWaiting(c: State, e: RequestInfo, sn: nat, quorum: nat, view: nat,
                       proposals: seq<RequestInfo>, prepares: seq<RequestInfo>)
    requires Ready(c, sn, view) && e.request.view == view && Waiting(c, proposals, prepares)
    ensures WaitingStep(Collect(c, e, quorum).state, e, sn, proposals, prepares)
  {
    if e.request.sn == sn && e.request.kind == Prepare {
      PrepareWaiting(c, e, quorum, proposals, prepares);
    } else {
      OtherWaiting(c, e, sn, quorum, view, proposals, prepares);
    }
  }

  ghost predicate WaitingStep(c: State, e: RequestInfo, sn: nat, proposals: seq<RequestInfo>,
                              prepares: seq<RequestInfo>) {
    if c.prepared then
      && e.request.kind == Prepare && e.request.sn == sn && c.status == ReadyCommit
      && c.proofs == WithHash(prepares + [e], e.request.hash) && c.main == Choice(proposals, [], e.request.hash)
    else
      Waiting(c, proposals + If(e, sn, PrePrepare), prepares + If(e, sn, Prepare))
  }

  /** One more commit after digest `d` is prepared. */
  lemma CommitDecided(c: State, e: RequestInfo, quorum: nat)
    requires Shape(c) && c.status == ReadyCommit
    ensures var c' := AddCommitVote(c, e, quorum).state;
      && c'.prepared == c.prepared && c'.proofs == c.proofs
      && (c'.status == Executed || (c'.status == ReadyCommit && c'.main == c.main))
      && (c'.status == Executed ==> c'.main == Given(c.main))
  {
  }

  ghost predicate DecidedStep(c: State, c': State, e: RequestInfo, sn: nat,
                              early: seq<RequestInfo>, late: seq<RequestInfo>, d: Digest) {
    && c'.prepared && c'.proofs == c.proofs
    && (c.status == Executed ==> c' == c)
    && (c'.status == ReadyCommit ==> c'.main == Choice(early, late + If(e, sn, PrePrepare), d))
    && (c.status == ReadyCommit && c'.status == Executed ==>
          e.request.kind == Commit && e.request.sn == sn && c'.main == Given(Choice(early, late, d)))
  }

  /** One more request after digest `d` is prepared. */
  lemma CollectDecided(c: State, e: RequestInfo, sn: nat, quorum: nat, view: nat,
                       early: seq<RequestInfo>, late: seq<RequestInfo>, d: Digest)
    requires Ready(c, sn, view) && e.request.view == view && c.prepared
    requires c.status == ReadyCommit ==> c.main == Choice(early, late, d)
    ensures DecidedStep(c, Collect(c, e, quorum).state, e, sn, early, late, d)
  {
    if c.status != Executed && e.request.sn == sn && e.request.kind == Commit {
      CommitDecided(c, e, quorum);
    }
  }

  lemma OfAppend(events: seq<RequestInfo>, e: RequestInfo, sn: nat, kind: Kind)
    ensures Of(events + [e], sn, kind) == Of(events, sn, kind) + If(e, sn, kind)
  {
    assert (events + [e])[..|events|] == events;
  }

  lemma RunAppend(sn: nat, events: seq<RequestInfo>, e: RequestInfo, quorum: nat)
    ensures Run(sn, events + [e], quorum) == Collect(Run(sn, events, quorum), e, quorum).state
  {
    assert (events + [e])[..|events|] == events;
  }

  lemma StepWaiting(sn: nat, events: seq<RequestInfo>, e: RequestInfo, quorum: nat, view: nat)
    requires quorum >= 1 && OneView(events + [e], view)
    requires !Run(sn, events, quorum).prepared
    requires Waiting(Run(sn, events, quorum), Of(events, sn, PrePrepare), Of(events, sn, Prepare))
    ensures var all := events + [e]; var c := Run(sn, all, quorum);
      if c.prepared then Decided(sn, all, quorum, |events|, |all|)
      else Waiting(c, Of(all, sn, PrePrepare), Of(all, sn, Prepare))
  {
    assert e in events + [e];
    RunReady(sn, events, quorum, view);
    RunAppend(sn, events, e, quorum);
    CollectWaiting(Run(sn, events, quorum), e, sn, quorum, view, Of(events, sn, PrePrepare), Of(events, sn, Prepare));
    OfAppend(events, e, sn, PrePrepare);
    OfAppend(events, e, sn, Prepare);
    if Run(sn, events + [e], quorum).prepared {
      PreparedNow(sn, events, e, quorum);
      SettledNow(sn, events, e, Run(sn, events + [e], quorum));
    }
  }

  lemma LastSlices(events: seq<RequestInfo>, e: RequestInfo)
    ensures var all, k := events + [e], |events|;
      all[..k] == events && all[..k + 1] == all && all[k] == e && all[k + 1..k + 1] == []
  {
  }

  lemma PreparedNow(sn: nat, events: seq<RequestInfo>, e: RequestInfo, quorum: nat)
    requires Run(sn, events + [e], quorum).prepared && !Run(sn, events, quorum).prepared
    requires e.request.kind == Prepare && e.request.sn == sn
    ensures PreparedAt(sn, events + [e], quorum, |events|)
  {
    LastSlices(events, e);
  }

  lemma ChoiceNow(sn: nat, events: seq<RequestInfo>, e: RequestInfo)
    ensures ChoiceAt(sn, events + [e], |events|, |events| + 1)
         == Choice(Of(events, sn, PrePrepare), [], e.request.hash)
  {
    LastSlices(events, e);
    assert Of([], sn, PrePrepare) == [];
  }

  lemma PreparesNow(sn: nat, events: seq<RequestInfo>, e: RequestInfo)
    requires e.request.kind == Prepare && e.request.sn == sn
    ensures Of((events + [e])[..|events| + 1], sn, Prepare) == Of(events, sn, Prepare) + [e]
  {
    LastSlices(events, e);
    OfAppend(events, e, sn, Prepare);
  }

  /** A state whose last request made its digest prepared. */
  lemma SettledNow(sn: nat, events: seq<RequestInfo>, e: RequestInfo, c: State)
    requires c.prepared && WaitingStep(c, e, sn, Of(events, sn, PrePrepare), Of(events, sn, Prepare))
    ensures Settled(sn, events + [e], c, |events|, |events| + 1)
  {
    ChoiceNow(sn, events, e);
    PreparesNow(sn, events, e);
  }

  /** What was decided at index k stays decided there, and the choice is extended by a later proposal. */
  lemma ChoiceAppend(sn: nat, events: seq<RequestInfo>, e: RequestInfo, k: nat, m: nat)
    requires k < m <= |events|
    ensures ChoiceAt(sn, events + [e], k, m) == ChoiceAt(sn, events, k, m)
    ensures m == |events| ==>
      ChoiceAt(sn, events + [e], k, m + 1)
        == Choice(Of(events[..k], sn, PrePrepare), Of(events[k + 1..m], sn, PrePrepare) + If(e, sn, PrePrepare),
                  events[k].request.hash)
  {
    var all := events + [e];
    assert all[..k] == events[..k] && all[k] == events[k] && all[k + 1..m] == events[k + 1..m];
    if m == |events| {
      assert all[k + 1..m + 1] == events[k + 1..m] + [e];
      OfAppend(events[k + 1..m], e, sn, PrePrepare);
    }
  }

  lemma PreparedAppend(sn: nat, events: seq<RequestInfo>, e: RequestInfo, quorum: nat, k: nat)
    requires PreparedAt(sn, events, quorum, k)
    ensures PreparedAt(sn, events + [e], quorum, k) && (events + [e])[..k + 1] == events[..k + 1]
  {
    assert (events + [e])[..k] == events[..k] && (events + [e])[..k + 1] == events[..k + 1];
  }

  lemma StepDecided(sn: nat, events: seq<RequestInfo>, e: RequestInfo, quorum: nat, view: nat, k: nat, m: nat)
    returns (m': nat)
    requires quorum >= 1 && OneView(events + [e], view)
    requires Decided(sn, events, quorum, k, m)
    ensures Decided(sn, events + [e], quorum, k, m')
  {
    assert e in events + [e];
    RunReady(sn, events, quorum, view);
    RunAppend(sn, events, e, quorum);
    var early, late := Of(events[..k], sn, PrePrepare), Of(events[k + 1..m], sn, PrePrepare);
    var c, c' := Run(sn, events, quorum), Run(sn, events + [e], quorum);
    CollectDecided(c, e, sn, quorum, view, early, late, events[k].request.hash);
    ReadyStatus(c, sn, view);
    RunReady(sn, events + [e], quorum, view);
    ReadyStatus(c', sn, view);
    PreparedAppend(sn, events, e, quorum, k);
    m' := SettledLater(sn, events, e, k, m, c, c');
    if c.status == Executed {
      ExecutedAppend(sn, events, e, quorum, m);
    } else if c'.status == Executed {
      LastSlices(events, e);
    }
  }

  lemma ExecutedAppend(sn: nat, events: seq<RequestInfo>, e: RequestInfo, quorum: nat, m: nat)
    requires ExecutedAt(sn, events, quorum, m)
    ensures ExecutedAt(sn, events + [e], quorum, m)
  {
    assert (events + [e])[..m] == events[..m] && (events + [e])[..m + 1] == events[..m + 1];
  }

  lemma ReadyStatus(c: State, sn: nat, view: nat)
    requires Ready(c, sn, view) && c.prepared
    ensures c.status == ReadyCommit || c.status == Executed
  {
  }

  lemma SettledLater(sn: nat, events: seq<RequestInfo>, e: RequestInfo, k: nat, m: nat, c: State, c': State)
    returns (m': nat)
    requires Settled(sn, events, c, k, m)
    requires (c.status == ReadyCommit || c.status == Executed) && (c'.status == ReadyCommit || c'.status == Executed)
    requires DecidedStep(c, c', e, sn, Of(events[..k], sn, PrePrepare), Of(events[k + 1..m], sn, PrePrepare),
                         events[k].request.hash)
    ensures Settled(sn, events + [e], c', k, m')
    ensures c'.status == Executed ==> m' == if c.status == Executed then m else |events|
  {
    assert (events + [e])[..k + 1] == events[..k + 1];
    ChoiceAppend(sn, events, e, k, m);
    if c.status == Executed {
      m' := m;
    } else {
      m' := if c'.status == Executed then |events| else |events| + 1;
    }
  }

  /** Every run in one view is either still waiting or decided at one prepare (index k) and one commit (index m). */
  lemma {:induction false} History(sn: nat, events: seq<RequestInfo>, quorum: nat, view: nat) returns (k: nat, m: nat)
    requires quorum >= 1 && OneView(events, view)
    ensures var c := Run(sn, events, quorum);
      if c.prepared then Decided(sn, events, quorum, k, m)
      else Waiting(c, Of(events, sn, PrePrepare), Of(events, sn, Prepare))
  {
    k, m := 0, 0;
    if events != [] {
      var init, e := events[..|events| - 1], events[|events| - 1];
      assert events == init + [e];
      k, m := History(sn, init, quorum, view);
      if Run(sn, init, quorum).prepared {
        m := StepDecided(sn, init, e, quorum, view, k, m);
      } else {
        StepWaiting(sn, init, e, quorum, view);
        k, m := |init|, |events|;
      }
    }
  }

  lemma {:induction false} RunInv(sn: nat, events: seq<RequestInfo>, quorum: nat)
    requires quorum >= 1
    ensures Inv(Run(sn, events, quorum), quorum)
  {
    if events != [] {
      RunInv(sn, events[..|events| - 1], quorum);
      CollectKeeps(Run(sn, events[..|events| - 1], quorum), events[|events| - 1], quorum);
    }
  }

  /** The proofs kept once a digest is prepared are all the prepares received for it up to that moment. */
  lemma KeptProofs(sn: nat, events: seq<RequestInfo>, quorum: nat, view: nat) returns (k: nat)
    requires quorum >= 1 && OneView(events, view) && Run(sn, events, quorum).prepared
    ensures PreparedAt(sn, events, quorum, k)
    ensures var c := Run(sn, events, quorum);
      && c.proofs == WithHash(Of(events[..k + 1], sn, Prepare), events[k].request.hash)
      && |c.proofs| >= quorum
      && forall p :: p in c.proofs ==> p.request.sn == sn
  {
    var m;
    k, m := History(sn, events, quorum, view);
    RunInv(sn, events, quorum);
    ProofCount(Run(sn, events, quorum).proofs);
  }

  /** A proposal with the digest of request k came before it, or is the first to come between k and m. */
  ghost predicate FollowsPrepared(sn: nat, events: seq<RequestInfo>, k: nat, m: nat)
    requires k < m <= |events|
  {
    var early, late := Of(events[..k], sn, PrePrepare), Of(events[k + 1..m], sn, PrePrepare);
    var d := events[k].request.hash;
    (exists p :: p in early && p.request.hash == d) || (late != [] && late[0].request.hash == d)
  }

  /**
    * What is executed, read off the requests: k is where the digest was prepared, m where the collector executed.
    * The executed request is the earliest stored proposal for that digest, or else the first proposal after k; so
    * it carries the prepared digest exactly when `FollowsPrepared`.
    */
  lemma ExecutedDigest(sn: nat, events: seq<RequestInfo>, quorum: nat, view: nat) returns (k: nat, m: nat)
    requires quorum >= 1 && OneView(events, view) && Run(sn, events, quorum).main.Taken?
    ensures k < m && PreparedAt(sn, events, quorum, k) && ExecutedAt(sn, events, quorum, m)
    ensures ChoiceAt(sn, events, k, m).Held?
    ensures Run(sn, events, quorum).main.request == ChoiceAt(sn, events, k, m).info.request
    ensures Run(sn, events, quorum).main.request.hash == events[k].request.hash <==> FollowsPrepared(sn, events, k, m)
    ensures |Votes(Run(sn, events, quorum).prepares, events[k].request.hash)| >= quorum
  {
    RunReady(sn, events, quorum, view);
    k, m := History(sn, events, quorum, view);
    var early, d := Of(events[..k], sn, PrePrepare), events[k].request.hash;
    WithHashMembers(early, d);
    if WithHash(early, d) != [] {
      assert WithHash(early, d)[0] in WithHash(early, d);
    }
    RunInv(sn, events, quorum);
    var proofs := Run(sn, events, quorum).proofs;
    WithHashMembers(Of(events[..k + 1], sn, Prepare), d);
    assert proofs[0] in proofs;
  }
}
