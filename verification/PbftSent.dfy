/** Exactly which votes a correct replica sends, where its prepared mark is, and what it passes to execution. */
module PbftSent {
  import opened Messages
  import opened Pbft
  import opened PbftTable
  import opened PbftExecution
  import C = Collector
  import E = Executor
  import H = CollectorHistory
  import R = PbftRing
  import V = CollectorVotes

  // ----- one step

  /** The votes of a correct replica are those it sends itself on taking a message. */
  lemma SentStep(cfg: Config, t: Table, a: Action, m: Request)
    requires WellFormed(cfg) && t.replicas.Keys == cfg.replicas && Correct(cfg, m.sender) && m.kind != PrePrepare
    ensures m in Step(cfg, t, a).sent <==>
      || m in t.sent
      || (&& a.Deliver? && TookCell(cfg, t, a, m.sender, a.info.request.sn)
          && m in Sends(a.info.request, C.Collect(Collecting(cfg, t.replicas[m.sender], a.info.request.sn), a.info,
                                                  QuorumOf(cfg)), m.sender))
  {
    if a.Deliver? {
      TableDelivers(cfg, t, a.id, a.info, a.accepted);
    }
  }

  lemma RunAppend(vc: bool, sn: nat, es: seq<RequestInfo>, e: RequestInfo, quorum: nat)
    ensures V.Run(vc, sn, es + [e], quorum) == C.Collect(V.Run(vc, sn, es, quorum), e, quorum).state
  {
    assert (es + [e])[..|es|] == es;
  }

  lemma RunStep(cfg: Config, t: Table, a: Action, r: nat, sn: nat, es: seq<RequestInfo>)
    requires WellFormed(cfg) && t.replicas.Keys == cfg.replicas && Correct(cfg, r)
    requires Collecting(cfg, t.replicas[r], sn) == V.Run(cfg.viewChange, sn, es, QuorumOf(cfg))
    ensures Collecting(cfg, Step(cfg, t, a).replicas[r], sn)
         == V.Run(cfg.viewChange, sn, es + (if TookCell(cfg, t, a, r, sn) then [a.info] else []), QuorumOf(cfg))
  {
    CellStepIs(cfg, t, a, r, sn);
    if TookCell(cfg, t, a, r, sn) {
      RunAppend(cfg.viewChange, sn, es, a.info, QuorumOf(cfg));
    } else {
      assert es + [] == es;
    }
  }

  /** In a timely run the table's collector is what the messages taken make of a fresh one. */
  lemma {:induction false} CellIsRun(cfg: Config, actions: seq<Action>, r: nat, sn: nat)
    requires WellFormed(cfg) && R.TimelyRun(cfg, actions) && Correct(cfg, r)
    ensures Collecting(cfg, Run(cfg, actions).replicas[r], sn)
         == V.Run(cfg.viewChange, sn, Taken(cfg, actions, r, sn), QuorumOf(cfg))
  {
    if actions != [] {
      var init, a := actions[..|actions| - 1], actions[|actions| - 1];
      CellIsRun(cfg, init, r, sn);
      R.RingRefinesTable(cfg, init);
      TookSame(cfg, R.Run(cfg, init), Run(cfg, init), a, r, sn);
      RunStep(cfg, Run(cfg, init), a, r, sn, Taken(cfg, init, r, sn));
    }
  }

  // ----- which votes

  /** A deciding prepare for this digest was taken. */
  ghost predicate Decided(es: seq<RequestInfo>, sn: nat, quorum: nat, d: Digest) {
    exists k: nat :: V.FirstPrepare(es, sn, quorum, k) && es[k].request.hash == d
  }

  /** The first proposal taken was for this digest. */
  ghost predicate Offered(es: seq<RequestInfo>, sn: nat, d: Digest) {
    exists i: nat :: V.FirstProposal(es, sn, i) && es[i].request.hash == d
  }

  lemma DecidedNext(es: seq<RequestInfo>, e: RequestInfo, sn: nat, quorum: nat, d: Digest)
    ensures Decided(es + [e], sn, quorum, d) <==>
      Decided(es, sn, quorum, d) || (V.FirstPrepare(es + [e], sn, quorum, |es|) && e.request.hash == d)
  {
    var all := es + [e];
    forall k: nat | k < |es|
      ensures V.PrepareDecides(all, sn, quorum, k) <==> V.PrepareDecides(es, sn, quorum, k) {
      V.PreparePrefix(es, e, sn, quorum, k);
    }
    if Decided(es, sn, quorum, d) {
      var k: nat :| V.FirstPrepare(es, sn, quorum, k) && es[k].request.hash == d;
      assert V.FirstPrepare(all, sn, quorum, k) && all[k].request.hash == d;
    }
    if Decided(all, sn, quorum, d) {
      var k: nat :| V.FirstPrepare(all, sn, quorum, k) && all[k].request.hash == d;
      if k < |es| {
        assert V.FirstPrepare(es, sn, quorum, k) && es[k].request.hash == d;
      }
    }
    if V.FirstPrepare(all, sn, quorum, |es|) && e.request.hash == d {
      assert all[|es|].request.hash == d;
    }
  }

  lemma FirstProposalPrefix(es: seq<RequestInfo>, e: RequestInfo, sn: nat, i: nat)
    requires i < |es|
    ensures V.FirstProposal(es + [e], sn, i) <==> V.FirstProposal(es, sn, i)
  {
    var all := es + [e];
    forall j | 0 <= j < i ensures all[j] == es[j] {
    }
    if V.FirstProposal(all, sn, i) {
      forall j | 0 <= j < i ensures !V.Is(es[j], sn, PrePrepare) {
        assert !V.Is(all[j], sn, PrePrepare);
      }
    }
  }

  lemma FirstProposalLast(es: seq<RequestInfo>, e: RequestInfo, sn: nat)
    ensures V.FirstProposal(es + [e], sn, |es|) <==> !V.Proposed(es, sn) && V.Is(e, sn, PrePrepare)
  {
    var all := es + [e];
    if V.FirstProposal(all, sn, |es|) {
      forall p | p in es ensures !V.Is(p, sn, PrePrepare) {
        var j :| 0 <= j < |es| && es[j] == p;
        assert !V.Is(all[j], sn, PrePrepare);
      }
    }
    if !V.Proposed(es, sn) {
      forall j | 0 <= j < |es| ensures !V.Is(all[j], sn, PrePrepare) {
        assert es[j] in es;
      }
    }
  }

  lemma OfferedNext(es: seq<RequestInfo>, e: RequestInfo, sn: nat, d: Digest)
    ensures Offered(es + [e], sn, d) <==>
      Offered(es, sn, d) || (!V.Proposed(es, sn) && V.Is(e, sn, PrePrepare) && e.request.hash == d)
  {
    var all := es + [e];
    FirstProposalLast(es, e, sn);
    if Offered(es, sn, d) {
      var i: nat :| V.FirstProposal(es, sn, i) && es[i].request.hash == d;
      FirstProposalPrefix(es, e, sn, i);
      assert V.FirstProposal(all, sn, i) && all[i].request.hash == d;
    }
    if Offered(all, sn, d) {
      var i: nat :| V.FirstProposal(all, sn, i) && all[i].request.hash == d;
      if i < |es| {
        FirstProposalPrefix(es, e, sn, i);
        assert V.FirstProposal(es, sn, i) && es[i].request.hash == d;
      }
    }
    if !V.Proposed(es, sn) && V.Is(e, sn, PrePrepare) && e.request.hash == d {
      assert V.FirstProposal(all, sn, |es|) && all[|es|].request.hash == d;
    }
  }

  // ----- over a run

  /** When a prepare or a proposal changes the status of a collector whose messages are of one view. */
  lemma ChangesExactly(cfg: Config, es: seq<RequestInfo>, e: RequestInfo)
    requires WellFormed(cfg) && H.OneView(es + [e], cfg.view)
    ensures var sn, quorum := e.request.sn, QuorumOf(cfg);
      var o := C.Collect(V.Run(cfg.viewChange, sn, es, quorum), e, quorum);
      && (V.Is(e, sn, Prepare) ==> (o.ret >= 0 && o.changed <==> V.FirstPrepare(es + [e], sn, quorum, |es|)))
      && (V.Is(e, sn, PrePrepare) ==> (o.ret >= 0 && o.changed <==> !V.Proposed(es, sn)))
  {
    var sn, quorum := e.request.sn, QuorumOf(cfg);
    V.AnswersExactly(cfg.viewChange, sn, es, e, quorum);
    NoneAfterCommit(es, e, sn, quorum);
    if V.Is(e, sn, PrePrepare) && V.Proposed(es, sn) && !V.AnyCommit(es, sn, quorum) {
      LaterUnchanged(cfg, es, e);
    }
  }

  lemma LaterUnchanged(cfg: Config, es: seq<RequestInfo>, e: RequestInfo)
    requires WellFormed(cfg) && H.OneView(es + [e], cfg.view) && e.request.kind == PrePrepare
    requires V.Proposed(es, e.request.sn) && !V.AnyCommit(es, e.request.sn, QuorumOf(cfg))
    ensures !C.Collect(V.Run(cfg.viewChange, e.request.sn, es, QuorumOf(cfg)), e, QuorumOf(cfg)).changed
  {
    V.ProposalAnswers(cfg.viewChange, e.request.sn, es, e, QuorumOf(cfg));
    assert e in es + [e];
    forall i | 0 <= i < |es| ensures !V.Overtakes(es, e, i) {
      assert es[i] in es + [e];
    }
  }

  lemma SendsOf(m: Request, o: C.Outcome, r: nat, d: Digest)
    ensures var sends, now := Sends(m, o, r), o.ret >= 0 && o.changed && m.hash == d;
      && (Request(Commit, m.view, m.sn, d, r) in sends <==> now && m.kind == Prepare)
      && (Request(Prepare, m.view, m.sn, d, r) in sends <==> now && m.kind == PrePrepare)
      && forall x :: x in sends ==> x.sn == m.sn && x.sender == r && x.view == m.view && x.kind != PrePrepare
  {
  }

  /** What a collector sends on taking this message, in one view. */
  lemma SendsExactly(cfg: Config, es: seq<RequestInfo>, e: RequestInfo, r: nat, d: Digest)
    requires WellFormed(cfg) && H.OneView(es + [e], cfg.view)
    ensures var sn, quorum := e.request.sn, QuorumOf(cfg);
      var sends := Sends(e.request, C.Collect(V.Run(cfg.viewChange, sn, es, quorum), e, quorum), r);
      && (Request(Commit, cfg.view, sn, d, r) in sends <==>
            V.FirstPrepare(es + [e], sn, quorum, |es|) && e.request.hash == d)
      && (Request(Prepare, cfg.view, sn, d, r) in sends <==>
            !V.Proposed(es, sn) && V.Is(e, sn, PrePrepare) && e.request.hash == d)
      && forall m :: m in sends ==> m.sn == sn && m.sender == r && m.view == cfg.view && m.kind != PrePrepare
  {
    var sn, quorum := e.request.sn, QuorumOf(cfg);
    assert e in es + [e];
    ChangesExactly(cfg, es, e);
    SendsOf(e.request, C.Collect(V.Run(cfg.viewChange, sn, es, quorum), e, quorum), r, d);
    V.PrepareLast(es, e, sn, quorum);
  }

  /** After a deciding commit nothing is decided or proposed for the first time. */
  lemma NoneAfterCommit(es: seq<RequestInfo>, e: RequestInfo, sn: nat, quorum: nat)
    ensures V.AnyCommit(es, sn, quorum) ==>
      V.Proposed(es, sn) && !V.FirstPrepare(es + [e], sn, quorum, |es|)
  {
    if V.AnyCommit(es, sn, quorum) {
      var m: nat :| V.CommitDecides(es, sn, quorum, m);
      V.PrepareAmong(es, sn, quorum, m);
      var k: nat :| k < m && V.PrepareDecides(es, sn, quorum, k);
      var p :| p in es[..k] && V.Is(p, sn, PrePrepare);
      assert p in es;
      V.PreparePrefix(es, e, sn, quorum, k);
    }
  }

  /** What the messages a correct replica took for a number have made it send. */
  ghost predicate Voted(cfg: Config, sent: set<Request>, es: seq<RequestInfo>, r: nat, sn: nat, d: Digest)
    requires WellFormed(cfg)
  {
    && (Request(Commit, cfg.view, sn, d, r) in sent <==> Decided(es, sn, QuorumOf(cfg), d))
    && (Request(Prepare, cfg.view, sn, d, r) in sent <==> Offered(es, sn, d))
  }

  lemma VotedNext(cfg: Config, sent: set<Request>, sent': set<Request>, es: seq<RequestInfo>, e: RequestInfo, r: nat,
                  d: Digest)
    requires WellFormed(cfg) && H.OneView(es + [e], cfg.view) && Voted(cfg, sent, es, r, e.request.sn, d)
    requires var o := C.Collect(V.Run(cfg.viewChange, e.request.sn, es, QuorumOf(cfg)), e, QuorumOf(cfg));
      forall kind | kind != PrePrepare ::
        var m := Request(kind, cfg.view, e.request.sn, d, r);
        m in sent' <==> m in sent || m in Sends(e.request, o, r)
    ensures Voted(cfg, sent', es + [e], r, e.request.sn, d)
  {
    SendsExactly(cfg, es, e, r, d);
    DecidedNext(es, e, e.request.sn, QuorumOf(cfg), d);
    OfferedNext(es, e, e.request.sn, d);
  }

  lemma VotedStep(cfg: Config, t: Table, a: Action, r: nat, sn: nat, d: Digest, es: seq<RequestInfo>,
                  others: seq<RequestInfo>)
    requires WellFormed(cfg) && t.replicas.Keys == cfg.replicas && Correct(cfg, r)
    requires Voted(cfg, t.sent, es, r, sn, d) && H.OneView(es, cfg.view) && H.OneView(others, cfg.view)
    requires Collecting(cfg, t.replicas[r], sn) == V.Run(cfg.viewChange, sn, es, QuorumOf(cfg))
    requires a.Deliver? ==>
      var n := a.info.request.sn;
      Collecting(cfg, t.replicas[r], n) == V.Run(cfg.viewChange, n, others, QuorumOf(cfg))
    ensures Voted(cfg, Step(cfg, t, a).sent, es + (if TookCell(cfg, t, a, r, sn) then [a.info] else []), r, sn, d)
  {
    SentStep(cfg, t, a, Request(Commit, cfg.view, sn, d, r));
    SentStep(cfg, t, a, Request(Prepare, cfg.view, sn, d, r));
    if TookCell(cfg, t, a, r, sn) {
      VotedNext(cfg, t.sent, Step(cfg, t, a).sent, es, a.info, r, d);
    } else {
      assert es + [] == es;
      if a.Deliver? && TookCell(cfg, t, a, r, a.info.request.sn) {
        SendsExactly(cfg, others, a.info, r, d);
      }
    }
  }

  /**
    * In every timely run a correct replica has sent a COMMIT for a digest if and only if, of the messages it took for
    * the number, the first prepare that decides carries it, and a PREPARE if and only if the first proposal does: no
    * vote is withheld and none is sent without cause.
    */
  lemma {:induction false} SentExactly(cfg: Config, actions: seq<Action>, r: nat, sn: nat, d: Digest)
    requires WellFormed(cfg) && R.TimelyRun(cfg, actions) && Correct(cfg, r)
    ensures Voted(cfg, R.Run(cfg, actions).sent, Taken(cfg, actions, r, sn), r, sn, d)
  {
    TableSent(cfg, actions, r, sn, d);
    R.RingRefinesTable(cfg, actions);
  }

  lemma {:induction false} TableSent(cfg: Config, actions: seq<Action>, r: nat, sn: nat, d: Digest)
    requires WellFormed(cfg) && R.TimelyRun(cfg, actions) && Correct(cfg, r)
    ensures Voted(cfg, Run(cfg, actions).sent, Taken(cfg, actions, r, sn), r, sn, d)
  {
    if actions != [] {
      var init, a := actions[..|actions| - 1], actions[|actions| - 1];
      TableSent(cfg, init, r, sn, d);
      R.RingRefinesTable(cfg, init);
      TookSame(cfg, R.Run(cfg, init), Run(cfg, init), a, r, sn);
      var n := if a.Deliver? then a.info.request.sn else sn;
      CellIsRun(cfg, init, r, sn);
      CellIsRun(cfg, init, r, n);
      TakenInView(cfg, init, r, sn);
      TakenInView(cfg, init, r, n);
      VotedStep(cfg, Run(cfg, init), a, r, sn, d, Taken(cfg, init, r, sn), Taken(cfg, init, r, n));
    }
  }

  // ----- the prepared mark

  /** The mark is the greatest number the replica has sent a COMMIT for, 0 if none. */
  ghost predicate MarkOk(ctl: Control, sent: set<Request>, r: nat) {
    && (forall m :: m in sent && m.sender == r && m.kind == Commit ==> m.sn <= ctl.highestPrepared)
    && (ctl.highestPrepared == 0 ||
        exists m :: m in sent && m.sender == r && m.kind == Commit && m.sn == ctl.highestPrepared)
  }

  lemma MarkReacts(ctl: Control, sent: set<Request>, m: Request, o: C.Outcome, r: nat)
    requires MarkOk(ctl, sent, r)
    ensures MarkOk(React(ctl, m, o), sent + Sends(m, o, r), r)
  {
    var sent' := sent + Sends(m, o, r);
    if o.ret >= 0 && o.changed && m.kind == Prepare {
      assert Request(Commit, m.view, m.sn, m.hash, r) in sent';
    }
    if ctl.highestPrepared != 0 {
      var w :| w in sent && w.sender == r && w.kind == Commit && w.sn == ctl.highestPrepared;
      assert w in sent';
    }
  }

  lemma MarkGrows(ctl: Control, ctl': Control, sent: set<Request>, sent': set<Request>, r: nat)
    requires MarkOk(ctl, sent, r) && ctl'.highestPrepared == ctl.highestPrepared && sent <= sent'
    requires forall m :: m in sent' && m !in sent ==> m.sender != r || m.kind != Commit
    ensures MarkOk(ctl', sent', r)
  {
    if ctl.highestPrepared != 0 {
      var w :| w in sent && w.sender == r && w.kind == Commit && w.sn == ctl.highestPrepared;
      assert w in sent';
    }
  }

  lemma ControlSent(cfg: Config, s: R.Rings, a: Action, r: nat)
    requires Correct(cfg, r) && r in s.replicas
    ensures var s' := ControlStep(cfg, s, a);
      && s.sent <= s'.sent
      && (forall m :: m in s'.sent && m !in s.sent && m.sender == r ==> a.Propose? && a.id == r && m.kind == PrePrepare)
      && (s.replicas[r].ctl.inViewChange ==> forall m :: m in s'.sent && m.sender == r ==> m in s.sent)
      && (!(a.Transfer? && a.id == r) ==>
            s'.replicas[r].ctl.highestPrepared == s.replicas[r].ctl.highestPrepared)
      && (!(a.Resume? && a.id == r) && s.replicas[r].ctl.inViewChange ==> s'.replicas[r].ctl.inViewChange)
  {
  }

  /** A step in which replica r takes no message: it sends nothing but a proposal, and its mark stays. */
  lemma OtherStep(cfg: Config, s: R.Rings, a: Action, r: nat)
    requires WellFormed(cfg) && R.Shaped(cfg, s) && Correct(cfg, r) && !(a.Deliver? && a.id == r)
    ensures var s' := R.Step(cfg, s, a);
      && s.sent <= s'.sent
      && (forall m :: m in s'.sent && m !in s.sent && m.sender == r ==> m.kind == PrePrepare)
      && (s.replicas[r].ctl.inViewChange ==> forall m :: m in s'.sent && m.sender == r ==> m in s.sent)
      && (!(a.Transfer? && a.id == r) ==>
            s'.replicas[r].ctl.highestPrepared == s.replicas[r].ctl.highestPrepared)
      && (!(a.Resume? && a.id == r) && s.replicas[r].ctl.inViewChange ==> s'.replicas[r].ctl.inViewChange)
  {
    if !a.Deliver? && !a.Execute? && !a.StartViewChange? {
      ControlSent(cfg, s, a, r);
    } else {
      R.RingStepOf(cfg, s, a, r);
      if a.Deliver? {
        R.RingDelivers(cfg, s, a.id, a.info, a.accepted);
      }
    }
  }

  lemma MarkStep(cfg: Config, s: R.Rings, a: Action, r: nat)
    requires WellFormed(cfg) && R.Shaped(cfg, s) && Correct(cfg, r) && MarkOk(s.replicas[r].ctl, s.sent, r)
    requires !(a.Transfer? && a.id == r)
    ensures MarkOk(R.Step(cfg, s, a).replicas[r].ctl, R.Step(cfg, s, a).sent, r)
  {
    if a.Deliver? && a.id == r {
      R.RingDelivers(cfg, s, a.id, a.info, a.accepted);
      MarkReacts(s.replicas[r].ctl, s.sent, a.info.request,
                 C.Collect(R.SlotFor(cfg, s.replicas[r], a.info.request.sn), a.info, QuorumOf(cfg)), r);
    } else {
      OtherStep(cfg, s, a, r);
      var s' := R.Step(cfg, s, a);
      MarkGrows(s.replicas[r].ctl, s'.replicas[r].ctl, s.sent, s'.sent, r);
    }
  }

  /** In every run without state transfer to it a correct replica's mark is the greatest number it sent a COMMIT for. */
  lemma {:induction false} MarkExactly(cfg: Config, actions: seq<Action>, r: nat)
    requires WellFormed(cfg) && Correct(cfg, r) && forall a :: a in actions ==> !(a.Transfer? && a.id == r)
    ensures MarkOk(R.Run(cfg, actions).replicas[r].ctl, R.Run(cfg, actions).sent, r)
  {
    if actions != [] {
      var init, a := actions[..|actions| - 1], actions[|actions| - 1];
      assert a in actions;
      MarkExactly(cfg, init, r);
      MarkStep(cfg, R.Run(cfg, init), a, r);
    }
  }

  // ----- during a view change

  /** In s' replica r is in a view change and has sent what it had in s. */
  ghost predicate Quiet(s: R.Rings, s': R.Rings, r: nat) {
    && r in s'.replicas && s'.replicas[r].ctl.inViewChange
    && forall m: Request :: m.sender == r ==> (m in s'.sent <==> m in s.sent)
  }

  lemma QuietStep(cfg: Config, s0: R.Rings, s: R.Rings, a: Action, r: nat)
    requires WellFormed(cfg) && R.Shaped(cfg, s) && Correct(cfg, r) && Quiet(s0, s, r)
    requires !(a.Resume? && a.id == r)
    ensures Quiet(s0, R.Step(cfg, s, a), r)
  {
    if a.Deliver? && a.id == r {
      R.RingDelivers(cfg, s, a.id, a.info, a.accepted);
    } else {
      OtherStep(cfg, s, a, r);
    }
  }

  lemma QuietStart(cfg: Config, s: R.Rings, r: nat, stable: nat, counter: nat)
    requires WellFormed(cfg) && R.Shaped(cfg, s) && Correct(cfg, r)
    ensures Quiet(s, R.Step(cfg, s, StartViewChange(r, stable, counter)), r)
  {
  }

  lemma QuietRun(cfg: Config, s: R.Rings, before: seq<Action>, a: Action, r: nat)
    requires WellFormed(cfg) && Correct(cfg, r) && Quiet(s, R.Run(cfg, before), r) && !(a.Resume? && a.id == r)
    ensures Quiet(s, R.Run(cfg, before + [a]), r)
  {
    assert (before + [a])[..|before|] == before;
    QuietStep(cfg, s, R.Run(cfg, before), a, r);
  }

  lemma QuietFirst(cfg: Config, pre: seq<Action>, r: nat, stable: nat, counter: nat)
    requires WellFormed(cfg) && Correct(cfg, r)
    ensures Quiet(R.Run(cfg, pre), R.Run(cfg, pre + [StartViewChange(r, stable, counter)]), r)
  {
    var a := StartViewChange(r, stable, counter);
    assert (pre + [a])[..|pre|] == pre;
    QuietStart(cfg, R.Run(cfg, pre), r, stable, counter);
  }

  lemma {:induction false} QuietAfter(cfg: Config, s: R.Rings, first: seq<Action>, post: seq<Action>, r: nat)
    requires WellFormed(cfg) && Correct(cfg, r) && Quiet(s, R.Run(cfg, first), r)
    requires forall a :: a in post ==> !(a.Resume? && a.id == r)
    ensures Quiet(s, R.Run(cfg, first + post), r)
  {
    if post == [] {
      assert first + post == first;
    } else {
      var init, a := post[..|post| - 1], post[|post| - 1];
      assert a in post && first + post == first + init + [a];
      QuietAfter(cfg, s, first, init, r);
      QuietRun(cfg, s, first + init, a, r);
    }
  }

  /** A correct replica that started a view change sends no ordering message until it resumes the view. */
  lemma SilentInViewChange(cfg: Config, pre: seq<Action>, post: seq<Action>, r: nat, stable: nat, counter: nat)
    requires WellFormed(cfg) && Correct(cfg, r) && forall a :: a in post ==> !(a.Resume? && a.id == r)
    ensures Quiet(R.Run(cfg, pre), R.Run(cfg, pre + [StartViewChange(r, stable, counter)] + post), r)
  {
    QuietFirst(cfg, pre, r, stable, counter);
    QuietAfter(cfg, R.Run(cfg, pre), pre + [StartViewChange(r, stable, counter)], post, r);
  }

  // ----- what goes to execution

  /** What one action puts into the queue of replica r: a request its collector hands over, or a fetched batch. */
  ghost function Puts(cfg: Config, s: R.Rings, a: Action, r: nat): seq<Request>
    requires WellFormed(cfg) && R.Shaped(cfg, s) && Correct(cfg, r)
  {
    if a.Deliver? && a.id == r && a.info.request in s.sent
       && Reaches(cfg, s.replicas[r].ctl, a.info.request, a.accepted) then
      var o := C.Collect(R.SlotFor(cfg, s.replicas[r], a.info.request.sn), a.info, QuorumOf(cfg));
      if o.handed.Some? then [o.handed.value] else []
    else if a.Transfer? && a.id == r && Lends(cfg, s, a.id, a.source, a.lo, a.hi, a.batch) then a.batch
    else []
  }

  /** Everything put into the queue of replica r so far, in order. */
  ghost function Queued(cfg: Config, actions: seq<Action>, r: nat): seq<Request>
    requires WellFormed(cfg) && Correct(cfg, r)
  {
    if actions == [] then []
    else
      var init := actions[..|actions| - 1];
      Queued(cfg, init, r) + Puts(cfg, R.Run(cfg, init), actions[|actions| - 1], r)
  }

  /** The first n requests queued have gone to the executor, in order, and the others wait, in order. */
  ghost predicate Passed(ctl: Control, queued: seq<Request>, n: nat) {
    n <= |queued| && ctl.executor == E.Run(queued[..n]) && ctl.commitQueue == queued[n..]
  }

  lemma PassedPut(ctl: Control, ctl': Control, queued: seq<Request>, more: seq<Request>, n: nat)
    requires Passed(ctl, queued, n) && ctl'.executor == ctl.executor && ctl'.commitQueue == ctl.commitQueue + more
    ensures Passed(ctl', queued + more, n)
  {
    assert (queued + more)[..n] == queued[..n] && (queued + more)[n..] == queued[n..] + more;
  }

  lemma PassedOn(ctl: Control, queued: seq<Request>, n: nat)
    requires Passed(ctl, queued, n)
    ensures Passed(OrderNext(ctl), queued, if n < |queued| then n + 1 else n)
  {
    if n < |queued| {
      assert queued[..n + 1][..n] == queued[..n] && queued[n..][1..] == queued[n + 1..];
    }
  }

  /** One step of the machine either passes one request on or puts some into the queue. */
  lemma QueueStep(cfg: Config, s: R.Rings, a: Action, r: nat)
    requires WellFormed(cfg) && R.Shaped(cfg, s) && Correct(cfg, r)
    ensures var ctl, ctl' := s.replicas[r].ctl, R.Step(cfg, s, a).replicas[r].ctl;
      if a == Execute(r) then
        ctl'.executor == OrderNext(ctl).executor && ctl'.commitQueue == OrderNext(ctl).commitQueue
      else ctl'.executor == ctl.executor && ctl'.commitQueue == ctl.commitQueue + Puts(cfg, s, a, r)
  {
    R.RingStepOf(cfg, s, a, r);
    if !a.Deliver? && !a.Execute? && !a.StartViewChange? {
      ControlOf(cfg, s, a, r);
    }
  }

  /**
    * In every run the executor of a correct replica has got, in order, some first part of what its collectors handed
    * over and what it fetched, and the rest waits in order: nothing is lost, doubled or overtaken.
    */
  lemma {:induction false} QueueExactly(cfg: Config, actions: seq<Action>, r: nat) returns (n: nat)
    requires WellFormed(cfg) && Correct(cfg, r)
    ensures Passed(R.Run(cfg, actions).replicas[r].ctl, Queued(cfg, actions, r), n)
  {
    if actions == [] {
      n := 0;
    } else {
      var init, a := actions[..|actions| - 1], actions[|actions| - 1];
      n := QueueExactly(cfg, init, r);
      var s, queued := R.Run(cfg, init), Queued(cfg, init, r);
      QueueStep(cfg, s, a, r);
      var ctl, ctl' := s.replicas[r].ctl, R.Step(cfg, s, a).replicas[r].ctl;
      n := QueueNext(ctl, ctl', queued, Puts(cfg, s, a, r), a == Execute(r), n);
    }
  }

  lemma QueueNext(ctl: Control, ctl': Control, queued: seq<Request>, puts: seq<Request>, executes: bool, n: nat)
    returns (n': nat)
    requires Passed(ctl, queued, n)
    requires if executes then
        puts == [] && ctl'.executor == OrderNext(ctl).executor && ctl'.commitQueue == OrderNext(ctl).commitQueue
      else ctl'.executor == ctl.executor && ctl'.commitQueue == ctl.commitQueue + puts
    ensures Passed(ctl', queued + puts, n')
  {
    if executes {
      assert queued + puts == queued;
      PassedOn(ctl, queued, n);
      n' := if n < |queued| then n + 1 else n;
    } else {
      PassedPut(ctl, ctl', queued, puts, n);
      n' := n;
    }
  }
}
