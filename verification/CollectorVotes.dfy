/**
  * What a collector counts and when it moves on, read off the requests it was given and nothing else: no vote is
  * lost because it arrived before the proposal or before the prepares.
  */
module CollectorVotes {
  import opened Messages
  import opened Collector
  import opened CollectorSafety
  import H = CollectorHistory

  /** The collector after a list of requests, oldest first, with view change enabled or not. */
  function Run(vc: bool, sn: nat, events: seq<RequestInfo>, quorum: nat): State {
    if events == [] then Fresh(sn, vc)
    else Collect(Run(vc, sn, events[..|events| - 1], quorum), events[|events| - 1], quorum).state
  }

  ghost predicate Is(e: RequestInfo, sn: nat, kind: Kind) {
    e.request.kind == kind && e.request.sn == sn
  }

  /** Who sent a request of this kind for this number and digest. */
  ghost function Cast(events: seq<RequestInfo>, sn: nat, kind: Kind, d: Digest): set<nat> {
    set e | e in events && Is(e, sn, kind) && e.request.hash == d :: e.request.sender
  }

  ghost predicate Proposed(events: seq<RequestInfo>, sn: nat) {
    exists e :: e in events && Is(e, sn, PrePrepare)
  }

  /** Request k is a prepare with which, a proposal having come, a quorum has prepared its digest. */
  ghost predicate PrepareDecides(events: seq<RequestInfo>, sn: nat, quorum: nat, k: nat) {
    && k < |events| && Is(events[k], sn, Prepare)
    && Proposed(events[..k], sn) && |Cast(events[..k + 1], sn, Prepare, events[k].request.hash)| >= quorum
  }

  ghost predicate AnyPrepare(events: seq<RequestInfo>, sn: nat, quorum: nat) {
    exists k: nat :: PrepareDecides(events, sn, quorum, k)
  }

  /** Request m is a commit with which, some digest being prepared, a quorum has committed its digest. */
  ghost predicate CommitDecides(events: seq<RequestInfo>, sn: nat, quorum: nat, m: nat) {
    && m < |events| && Is(events[m], sn, Commit)
    && AnyPrepare(events[..m], sn, quorum) && |Cast(events[..m + 1], sn, Commit, events[m].request.hash)| >= quorum
  }

  ghost predicate AnyCommit(events: seq<RequestInfo>, sn: nat, quorum: nat) {
    exists m: nat :: CommitDecides(events, sn, quorum, m)
  }

  ghost predicate Counted(votes: map<Digest, set<nat>>, events: seq<RequestInfo>, sn: nat, kind: Kind) {
    forall d :: Votes(votes, d) == Cast(events, sn, kind, d)
  }

  /** The status follows from three facts: a proposal came, a prepare decided, a commit decided. */
  ghost predicate Agrees(c: State, vc: bool, sn: nat, proposed: bool, prepared: bool, executed: bool) {
    && Shape(c) && c.sn == sn && c.viewChange == vc
    && (c.status == Idle <==> !proposed)
    && (c.status == ReadyCommit || c.status == Executed <==> prepared)
    && (c.status == Executed <==> executed)
  }

  /** With view change the prepares are closed once a digest is prepared, otherwise at execution like the commits. */
  ghost predicate Open(c: State, kind: Kind) {
    c.status != Executed && (kind == Prepare && c.viewChange ==> c.status != ReadyCommit)
  }

  function Table(c: State, kind: Kind): map<Digest, set<nat>> {
    if kind == Prepare then c.prepares else c.commits
  }

  /** The whole bookkeeping of a collector as a function of the requests. */
  ghost predicate Tally(c: State, vc: bool, events: seq<RequestInfo>, sn: nat, quorum: nat) {
    && Agrees(c, vc, sn, Proposed(events, sn), AnyPrepare(events, sn, quorum), AnyCommit(events, sn, quorum))
    && (Open(c, Prepare) ==> Counted(c.prepares, events, sn, Prepare))
    && (Open(c, Commit) ==> Counted(c.commits, events, sn, Commit))
  }

  // ----- one more request

  lemma CastNext(events: seq<RequestInfo>, e: RequestInfo, sn: nat, kind: Kind, d: Digest)
    ensures Cast(events + [e], sn, kind, d)
         == Cast(events, sn, kind, d) + if Is(e, sn, kind) && e.request.hash == d then {e.request.sender} else {}
  {
  }

  lemma CountedNext(votes: map<Digest, set<nat>>, events: seq<RequestInfo>, e: RequestInfo, sn: nat, kind: Kind)
    requires Counted(votes, events, sn, kind)
    ensures Counted(if Is(e, sn, kind) then Vote(votes, e.request.hash, e.request.sender) else votes, events + [e], sn,
                    kind)
  {
    forall d ensures Votes(if Is(e, sn, kind) then Vote(votes, e.request.hash, e.request.sender) else votes, d)
                  == Cast(events + [e], sn, kind, d) {
      CastNext(events, e, sn, kind, d);
    }
  }

  lemma ProposedNext(events: seq<RequestInfo>, e: RequestInfo, sn: nat)
    ensures Proposed(events + [e], sn) <==> Proposed(events, sn) || Is(e, sn, PrePrepare)
  {
    if Proposed(events, sn) {
      var p :| p in events && Is(p, sn, PrePrepare);
      assert p in events + [e];
    }
    assert e in events + [e];
  }

  lemma PreparePrefix(events: seq<RequestInfo>, e: RequestInfo, sn: nat, quorum: nat, k: nat)
    requires k < |events|
    ensures PrepareDecides(events + [e], sn, quorum, k) <==> PrepareDecides(events, sn, quorum, k)
  {
    assert (events + [e])[..k] == events[..k] && (events + [e])[..k + 1] == events[..k + 1];
  }

  lemma PrepareLast(events: seq<RequestInfo>, e: RequestInfo, sn: nat, quorum: nat)
    ensures PrepareDecides(events + [e], sn, quorum, |events|) <==>
      && Is(e, sn, Prepare) && Proposed(events, sn)
      && |Cast(events + [e], sn, Prepare, e.request.hash)| >= quorum
  {
    assert (events + [e])[..|events|] == events && (events + [e])[..|events| + 1] == events + [e];
  }

  lemma AnyPrepareNext(events: seq<RequestInfo>, e: RequestInfo, sn: nat, quorum: nat)
    ensures AnyPrepare(events + [e], sn, quorum) <==>
      AnyPrepare(events, sn, quorum) || PrepareDecides(events + [e], sn, quorum, |events|)
  {
    if AnyPrepare(events, sn, quorum) {
      var k: nat :| PrepareDecides(events, sn, quorum, k);
      PreparePrefix(events, e, sn, quorum, k);
    }
    if AnyPrepare(events + [e], sn, quorum) {
      var k: nat :| PrepareDecides(events + [e], sn, quorum, k);
      if k < |events| {
        PreparePrefix(events, e, sn, quorum, k);
      }
    }
  }

  lemma CommitPrefix(events: seq<RequestInfo>, e: RequestInfo, sn: nat, quorum: nat, m: nat)
    requires m < |events|
    ensures CommitDecides(events + [e], sn, quorum, m) <==> CommitDecides(events, sn, quorum, m)
  {
    assert (events + [e])[..m] == events[..m] && (events + [e])[..m + 1] == events[..m + 1];
  }

  lemma CommitLast(events: seq<RequestInfo>, e: RequestInfo, sn: nat, quorum: nat)
    ensures CommitDecides(events + [e], sn, quorum, |events|) <==>
      && Is(e, sn, Commit) && AnyPrepare(events, sn, quorum)
      && |Cast(events + [e], sn, Commit, e.request.hash)| >= quorum
  {
    assert (events + [e])[..|events|] == events && (events + [e])[..|events| + 1] == events + [e];
  }

  lemma AnyCommitNext(events: seq<RequestInfo>, e: RequestInfo, sn: nat, quorum: nat)
    ensures AnyCommit(events + [e], sn, quorum) <==>
      AnyCommit(events, sn, quorum) || CommitDecides(events + [e], sn, quorum, |events|)
  {
    if AnyCommit(events, sn, quorum) {
      var m: nat :| CommitDecides(events, sn, quorum, m);
      CommitPrefix(events, e, sn, quorum, m);
    }
    if AnyCommit(events + [e], sn, quorum) {
      var m: nat :| CommitDecides(events + [e], sn, quorum, m);
      if m < |events| {
        CommitPrefix(events, e, sn, quorum, m);
      }
    }
  }

  // ----- every step keeps the tally

  /** What the next request changes in what is read off the requests. */
  lemma Next(events: seq<RequestInfo>, e: RequestInfo, sn: nat, quorum: nat)
    ensures Proposed(events + [e], sn) <==> Proposed(events, sn) || Is(e, sn, PrePrepare)
    ensures AnyPrepare(events + [e], sn, quorum) <==>
      || AnyPrepare(events, sn, quorum)
      || (&& Is(e, sn, Prepare) && Proposed(events, sn)
          && |Cast(events + [e], sn, Prepare, e.request.hash)| >= quorum)
    ensures AnyCommit(events + [e], sn, quorum) <==>
      || AnyCommit(events, sn, quorum)
      || (&& Is(e, sn, Commit) && AnyPrepare(events, sn, quorum)
          && |Cast(events + [e], sn, Commit, e.request.hash)| >= quorum)
  {
    ProposedNext(events, e, sn);
    PrepareLast(events, e, sn, quorum);
    AnyPrepareNext(events, e, sn, quorum);
    CommitLast(events, e, sn, quorum);
    AnyCommitNext(events, e, sn, quorum);
  }

  /** How many have now voted for the digest of `e`, in a table. */
  function Now(votes: map<Digest, set<nat>>, e: RequestInfo): nat {
    |Vote(votes, e.request.hash, e.request.sender)[e.request.hash]|
  }

  /** What a request for this number makes of a collector that has not executed. */
  ghost predicate Advances(c: State, e: RequestInfo, quorum: nat, c': State) {
    var kind := e.request.kind;
    && c'.status ==
       (match kind
        case PrePrepare => if c.status == Idle then ReadyPrepare else c.status
        case Prepare => if c.status == ReadyPrepare && Now(c.prepares, e) >= quorum then ReadyCommit else c.status
        case Commit => if c.status == ReadyCommit && Now(c.commits, e) >= quorum then Executed else c.status)
    && c'.prepares ==
       (if kind == Prepare && Open(c, Prepare) then Vote(c.prepares, e.request.hash, e.request.sender) else c.prepares)
    && c'.commits == (if kind == Commit then Vote(c.commits, e.request.hash, e.request.sender) else c.commits)
  }

  lemma ProposalAdvances(c: State, e: RequestInfo, quorum: nat)
    requires Shape(c) && c.status != Executed && e.request.kind == PrePrepare
    ensures Advances(c, e, quorum, AddProposal(c, e, quorum).state)
  {
  }

  lemma ProofAdvances(c: State, e: RequestInfo, quorum: nat)
    requires Shape(c) && c.status != Executed && e.request.kind == Prepare && c.viewChange
    ensures Advances(c, e, quorum, AddPrepareProof(c, e, quorum).state)
  {
  }

  lemma VoteAdvances(c: State, e: RequestInfo, quorum: nat)
    requires Shape(c) && c.status != Executed && e.request.kind == Prepare && !c.viewChange
    ensures Advances(c, e, quorum, AddPrepareVote(c, e, quorum).state)
  {
  }

  lemma CommitAdvances(c: State, e: RequestInfo, quorum: nat)
    requires Shape(c) && c.status != Executed && e.request.kind == Commit
    ensures Advances(c, e, quorum, AddCommitVote(c, e, quorum).state)
  {
  }

  ghost predicate Steps(c: State, e: RequestInfo, quorum: nat, c': State) {
    && Shape(c) && Shape(c') && c'.sn == c.sn && c'.viewChange == c.viewChange
    && if c.status == Executed || e.request.sn != c.sn then c' == c else Advances(c, e, quorum, c')
  }

  lemma CollectSteps(c: State, e: RequestInfo, quorum: nat)
    requires Shape(c)
    ensures Steps(c, e, quorum, Collect(c, e, quorum).state)
  {
    CollectShape(c, e, quorum);
    if c.status != Executed && e.request.sn == c.sn {
      match e.request.kind
      case PrePrepare => ProposalAdvances(c, e, quorum);
      case Prepare =>
        if c.viewChange {
          ProofAdvances(c, e, quorum);
        } else {
          VoteAdvances(c, e, quorum);
        }
      case Commit => CommitAdvances(c, e, quorum);
    }
  }

  lemma CountsNext(c: State, c': State, vc: bool, events: seq<RequestInfo>, e: RequestInfo, sn: nat, quorum: nat,
                   kind: Kind)
    requires Tally(c, vc, events, sn, quorum) && Steps(c, e, quorum, c') && kind != PrePrepare && Open(c, kind)
    ensures Counted(Table(c', kind), events + [e], sn, kind)
  {
    CountedNext(Table(c, kind), events, e, sn, kind);
  }

  lemma NowCounted(votes: map<Digest, set<nat>>, events: seq<RequestInfo>, e: RequestInfo, sn: nat, kind: Kind)
    requires Counted(votes, events, sn, kind) && Is(e, sn, kind)
    ensures Now(votes, e) == |Cast(events + [e], sn, kind, e.request.hash)|
  {
    CastNext(events, e, sn, kind, e.request.hash);
  }

  lemma AgreesNext(c: State, c': State, vc: bool, events: seq<RequestInfo>, e: RequestInfo, sn: nat, quorum: nat)
    requires Tally(c, vc, events, sn, quorum) && Steps(c, e, quorum, c')
    ensures var all := events + [e];
      Agrees(c', vc, sn, Proposed(all, sn), AnyPrepare(all, sn, quorum), AnyCommit(all, sn, quorum))
  {
    Next(events, e, sn, quorum);
    if Is(e, sn, Commit) && Open(c, Commit) {
      NowCounted(c.commits, events, e, sn, Commit);
    } else if Is(e, sn, Prepare) && Open(c, Prepare) {
      NowCounted(c.prepares, events, e, sn, Prepare);
    }
  }

  lemma TallyNext(c: State, c': State, vc: bool, events: seq<RequestInfo>, e: RequestInfo, sn: nat, quorum: nat)
    requires Tally(c, vc, events, sn, quorum) && Steps(c, e, quorum, c')
    ensures Tally(c', vc, events + [e], sn, quorum)
  {
    AgreesNext(c, c', vc, events, e, sn, quorum);
    if Open(c', Prepare) {
      CountsNext(c, c', vc, events, e, sn, quorum, Prepare);
    }
    if Open(c', Commit) {
      CountsNext(c, c', vc, events, e, sn, quorum, Commit);
    }
  }

  lemma {:induction false} TallyAlways(vc: bool, sn: nat, events: seq<RequestInfo>, quorum: nat)
    ensures Tally(Run(vc, sn, events, quorum), vc, events, sn, quorum)
  {
    if events == [] {
    } else {
      var init, e := events[..|events| - 1], events[|events| - 1];
      assert events == init + [e];
      TallyAlways(vc, sn, init, quorum);
      CollectSteps(Run(vc, sn, init, quorum), e, quorum);
      TallyNext(Run(vc, sn, init, quorum), Run(vc, sn, events, quorum), vc, init, e, sn, quorum);
    }
  }

  // ----- what is counted, and until when

  /** Request i closes the votes of this kind: the first prepare or the first commit that decides. */
  ghost predicate Closes(vc: bool, kind: Kind, events: seq<RequestInfo>, sn: nat, quorum: nat, i: nat) {
    if kind == Prepare && vc then PrepareDecides(events, sn, quorum, i) else CommitDecides(events, sn, quorum, i)
  }

  ghost predicate FirstCloses(vc: bool, kind: Kind, events: seq<RequestInfo>, sn: nat, quorum: nat, i: nat) {
    Closes(vc, kind, events, sn, quorum, i) && forall j: nat :: j < i ==> !Closes(vc, kind, events, sn, quorum, j)
  }

  ghost predicate Closed(vc: bool, kind: Kind, events: seq<RequestInfo>, sn: nat, quorum: nat) {
    exists i: nat :: Closes(vc, kind, events, sn, quorum, i)
  }

  /** A table is open exactly while nothing has closed it. */
  lemma OpenExactly(c: State, vc: bool, kind: Kind, events: seq<RequestInfo>, sn: nat, quorum: nat)
    requires Tally(c, vc, events, sn, quorum)
    ensures Open(c, kind) <==> !Closed(vc, kind, events, sn, quorum)
  {
    if kind == Prepare && vc {
      if AnyPrepare(events, sn, quorum) {
        var k: nat :| PrepareDecides(events, sn, quorum, k);
        assert Closes(vc, kind, events, sn, quorum, k);
      }
    } else {
      if AnyCommit(events, sn, quorum) {
        var m: nat :| CommitDecides(events, sn, quorum, m);
        assert Closes(vc, kind, events, sn, quorum, m);
      }
    }
  }

  lemma ClosedPrefix(vc: bool, kind: Kind, events: seq<RequestInfo>, sn: nat, quorum: nat, n: nat)
    requires n <= |events|
    ensures Closed(vc, kind, events[..n], sn, quorum) <==>
      exists i: nat :: i < n && Closes(vc, kind, events, sn, quorum, i)
  {
    forall i: nat | i < n
      ensures Closes(vc, kind, events[..n], sn, quorum, i) <==> Closes(vc, kind, events, sn, quorum, i) {
      assert events[..n][..i] == events[..i] && events[..n][..i + 1] == events[..i + 1];
    }
  }

  lemma RunNext(vc: bool, sn: nat, events: seq<RequestInfo>, quorum: nat, n: nat)
    requires n < |events|
    ensures Run(vc, sn, events[..n + 1], quorum) == Collect(Run(vc, sn, events[..n], quorum), events[n], quorum).state
    ensures events[..n + 1] == events[..n] + [events[n]]
  {
    assert events[..n + 1][..n] == events[..n];
  }

  /** While it is open a table takes the next request into account; once closed it stays as it is. */
  lemma TableStep(vc: bool, kind: Kind, sn: nat, events: seq<RequestInfo>, quorum: nat, n: nat)
    requires n < |events| && kind != PrePrepare
    ensures var table := Table(Run(vc, sn, events[..n + 1], quorum), kind);
      if Closed(vc, kind, events[..n], sn, quorum) then table == Table(Run(vc, sn, events[..n], quorum), kind)
      else Counted(table, events[..n + 1], sn, kind)
  {
    RunNext(vc, sn, events, quorum, n);
    TallyAlways(vc, sn, events[..n], quorum);
    var c, c' := Run(vc, sn, events[..n], quorum), Run(vc, sn, events[..n + 1], quorum);
    CollectSteps(c, events[n], quorum);
    TableNext(c, c', vc, kind, events[..n], events[n], sn, quorum);
  }

  lemma TableNext(c: State, c': State, vc: bool, kind: Kind, events: seq<RequestInfo>, e: RequestInfo, sn: nat,
                  quorum: nat)
    requires Tally(c, vc, events, sn, quorum) && Steps(c, e, quorum, c') && kind != PrePrepare
    ensures if Closed(vc, kind, events, sn, quorum) then Table(c', kind) == Table(c, kind)
            else Counted(Table(c', kind), events + [e], sn, kind)
  {
    OpenExactly(c, vc, kind, events, sn, quorum);
    if Open(c, kind) {
      CountsNext(c, c', vc, events, e, sn, quorum, kind);
    }
  }

  function TableAt(vc: bool, kind: Kind, sn: nat, events: seq<RequestInfo>, quorum: nat, n: nat)
    : map<Digest, set<nat>>
  {
    if n <= |events| then Table(Run(vc, sn, events[..n], quorum), kind) else map[]
  }

  lemma ClosedStep(vc: bool, kind: Kind, sn: nat, events: seq<RequestInfo>, quorum: nat, i: nat, n: nat)
    requires kind != PrePrepare && Closes(vc, kind, events, sn, quorum, i) && i < n < |events|
    ensures TableAt(vc, kind, sn, events, quorum, n + 1) == TableAt(vc, kind, sn, events, quorum, n)
  {
    ClosedPrefix(vc, kind, events, sn, quorum, n);
    TableStep(vc, kind, sn, events, quorum, n);
  }

  lemma ClosingStep(vc: bool, kind: Kind, sn: nat, events: seq<RequestInfo>, quorum: nat, i: nat)
    requires kind != PrePrepare && FirstCloses(vc, kind, events, sn, quorum, i)
    ensures i < |events| && Counted(TableAt(vc, kind, sn, events, quorum, i + 1), events[..i + 1], sn, kind)
  {
    ClosedPrefix(vc, kind, events, sn, quorum, i);
    TableStep(vc, kind, sn, events, quorum, i);
  }

  ghost predicate Same<T>(f: nat -> T, n: nat) {
    f(n + 1) == f(n)
  }

  /** What no step from `low` to `high` changes is the same at both. */
  lemma {:induction false} Constant<T>(f: nat -> T, low: nat, high: nat)
    requires low <= high && forall n: nat :: low <= n < high ==> Same(f, n)
    ensures f(high) == f(low)
    decreases high - low
  {
    if low < high {
      assert Same(f, low);
      Constant(f, low + 1, high);
    }
  }

  lemma ClosedSteps(vc: bool, kind: Kind, sn: nat, events: seq<RequestInfo>, quorum: nat, i: nat,
                    f: nat -> map<Digest, set<nat>>)
    requires kind != PrePrepare && Closes(vc, kind, events, sn, quorum, i)
    requires forall n: nat :: f(n) == TableAt(vc, kind, sn, events, quorum, n)
    ensures forall n: nat :: i < n < |events| ==> Same(f, n)
  {
    forall n: nat | i < n < |events| ensures Same(f, n) {
      ClosedStep(vc, kind, sn, events, quorum, i, n);
    }
  }

  lemma ClosedTable(vc: bool, kind: Kind, sn: nat, events: seq<RequestInfo>, quorum: nat, i: nat)
    requires kind != PrePrepare && Closes(vc, kind, events, sn, quorum, i)
    ensures TableAt(vc, kind, sn, events, quorum, |events|) == TableAt(vc, kind, sn, events, quorum, i + 1)
  {
    var f: nat -> map<Digest, set<nat>> := (n: nat) => TableAt(vc, kind, sn, events, quorum, n);
    ClosedSteps(vc, kind, sn, events, quorum, i, f);
    Constant(f, i + 1, |events|);
  }

  /**
    * A vote table holds, for every digest, exactly the senders of all its votes so far, however early they came,
    * up to and including the vote that closed it.
    */
  lemma VotesExactly(vc: bool, kind: Kind, sn: nat, events: seq<RequestInfo>, quorum: nat)
    requires kind != PrePrepare
    ensures var table := Table(Run(vc, sn, events, quorum), kind);
      && (!Closed(vc, kind, events, sn, quorum) ==> Counted(table, events, sn, kind))
      && forall i: nat :: FirstCloses(vc, kind, events, sn, quorum, i) ==>
           i < |events| && Counted(table, events[..i + 1], sn, kind)
  {
    if !Closed(vc, kind, events, sn, quorum) {
      OpenCounted(vc, kind, sn, events, quorum);
    }
    var table := Table(Run(vc, sn, events, quorum), kind);
    assert events[..|events|] == events;
    forall i: nat | FirstCloses(vc, kind, events, sn, quorum, i)
      ensures i < |events| && Counted(table, events[..i + 1], sn, kind) {
      ClosingStep(vc, kind, sn, events, quorum, i);
      ClosedTable(vc, kind, sn, events, quorum, i);
    }
  }

  lemma OpenCounted(vc: bool, kind: Kind, sn: nat, events: seq<RequestInfo>, quorum: nat)
    requires kind != PrePrepare && !Closed(vc, kind, events, sn, quorum)
    ensures Counted(Table(Run(vc, sn, events, quorum), kind), events, sn, kind)
  {
    TallyAlways(vc, sn, events, quorum);
    OpenExactly(Run(vc, sn, events, quorum), vc, kind, events, sn, quorum);
  }

  // ----- when it prepares and executes

  ghost predicate FirstPrepare(events: seq<RequestInfo>, sn: nat, quorum: nat, k: nat) {
    PrepareDecides(events, sn, quorum, k) && forall j: nat :: j < k ==> !PrepareDecides(events, sn, quorum, j)
  }

  ghost predicate FirstCommit(events: seq<RequestInfo>, sn: nat, quorum: nat, m: nat) {
    CommitDecides(events, sn, quorum, m) && forall j: nat :: j < m ==> !CommitDecides(events, sn, quorum, j)
  }

  /** The status is read off the requests, whatever order they came in. */
  lemma StatusExactly(vc: bool, sn: nat, events: seq<RequestInfo>, quorum: nat)
    ensures Run(vc, sn, events, quorum).status
         == if exists m: nat :: CommitDecides(events, sn, quorum, m) then Executed
            else if exists k: nat :: PrepareDecides(events, sn, quorum, k) then ReadyCommit
            else if exists e :: e in events && Is(e, sn, PrePrepare) then ReadyPrepare
            else Idle
  {
    TallyAlways(vc, sn, events, quorum);
  }

  ghost predicate CommitBefore(events: seq<RequestInfo>, sn: nat, quorum: nat, n: nat) {
    exists m: nat :: m < n && CommitDecides(events, sn, quorum, m)
  }

  ghost predicate PrepareBefore(events: seq<RequestInfo>, sn: nat, quorum: nat, n: nat) {
    exists k: nat :: k < n && PrepareDecides(events, sn, quorum, k)
  }

  lemma CommitAmong(events: seq<RequestInfo>, sn: nat, quorum: nat, n: nat)
    requires n <= |events|
    ensures AnyCommit(events[..n], sn, quorum) <==> CommitBefore(events, sn, quorum, n)
  {
    forall m: nat | m < n
      ensures CommitDecides(events[..n], sn, quorum, m) <==> CommitDecides(events, sn, quorum, m) {
      assert events[..n][..m] == events[..m] && events[..n][..m + 1] == events[..m + 1];
    }
  }

  lemma PrepareAmong(events: seq<RequestInfo>, sn: nat, quorum: nat, n: nat)
    requires n <= |events|
    ensures AnyPrepare(events[..n], sn, quorum) <==> PrepareBefore(events, sn, quorum, n)
  {
    forall k: nat | k < n
      ensures PrepareDecides(events[..n], sn, quorum, k) <==> PrepareDecides(events, sn, quorum, k) {
      assert events[..n][..k] == events[..k] && events[..n][..k + 1] == events[..k + 1];
    }
  }

  ghost predicate ExecutedBy(vc: bool, sn: nat, events: seq<RequestInfo>, quorum: nat, n: nat)
    requires n <= |events|
  {
    Run(vc, sn, events[..n], quorum).status == Executed
  }

  ghost predicate PreparedBy(vc: bool, sn: nat, events: seq<RequestInfo>, quorum: nat, n: nat)
    requires n <= |events|
  {
    Rank(Run(vc, sn, events[..n], quorum).status) >= Rank(ReadyCommit)
  }

  lemma StatusAt(vc: bool, sn: nat, events: seq<RequestInfo>, quorum: nat, n: nat)
    requires n <= |events|
    ensures ExecutedBy(vc, sn, events, quorum, n) <==> CommitBefore(events, sn, quorum, n)
    ensures PreparedBy(vc, sn, events, quorum, n) <==> PrepareBefore(events, sn, quorum, n)
  {
    TallyAlways(vc, sn, events[..n], quorum);
    CommitAmong(events, sn, quorum, n);
    PrepareAmong(events, sn, quorum, n);
  }

  /** A collector executes at the first commit that decides, and at no other request. */
  lemma ExecutesExactly(vc: bool, sn: nat, events: seq<RequestInfo>, quorum: nat, m: nat)
    requires m < |events|
    ensures !ExecutedBy(vc, sn, events, quorum, m) && ExecutedBy(vc, sn, events, quorum, m + 1) <==>
      FirstCommit(events, sn, quorum, m)
  {
    StatusAt(vc, sn, events, quorum, m);
    StatusAt(vc, sn, events, quorum, m + 1);
  }

  /** It becomes prepared at the first prepare that decides, and at no other request. */
  lemma PreparesExactly(vc: bool, sn: nat, events: seq<RequestInfo>, quorum: nat, k: nat)
    requires k < |events|
    ensures !PreparedBy(vc, sn, events, quorum, k) && PreparedBy(vc, sn, events, quorum, k + 1) <==>
      FirstPrepare(events, sn, quorum, k)
  {
    StatusAt(vc, sn, events, quorum, k);
    StatusAt(vc, sn, events, quorum, k + 1);
  }

  lemma {:induction false} SameRun(sn: nat, events: seq<RequestInfo>, quorum: nat)
    ensures Run(true, sn, events, quorum) == H.Run(sn, events, quorum)
  {
    if events == [] {
    } else {
      SameRun(sn, events[..|events| - 1], quorum);
    }
  }

  /** The two moments of a collector's history are the first deciding prepare and the first deciding commit. */
  lemma HistoryExactly(sn: nat, events: seq<RequestInfo>, quorum: nat, i: nat)
    ensures H.PreparedAt(sn, events, quorum, i) <==> FirstPrepare(events, sn, quorum, i)
    ensures H.ExecutedAt(sn, events, quorum, i) <==> FirstCommit(events, sn, quorum, i)
  {
    if i < |events| {
      PreparesExactly(true, sn, events, quorum, i);
      ExecutesExactly(true, sn, events, quorum, i);
      TallyAlways(true, sn, events[..i], quorum);
      TallyAlways(true, sn, events[..i + 1], quorum);
      SameRun(sn, events[..i], quorum);
      SameRun(sn, events[..i + 1], quorum);
    }
  }

  // ----- what it answers

  /**
    * Every answer to the next request: the first proposal is passed on, the prepare that decides and the commit that
    * decides change the status (the latter returns 1 and nothing else does), and whatever comes for another number
    * or after execution is refused without effect.
    */
  lemma AnswersExactly(vc: bool, sn: nat, events: seq<RequestInfo>, e: RequestInfo, quorum: nat)
    ensures var c, all, now := Run(vc, sn, events, quorum), events + [e], |events|;
      var out := Collect(c, e, quorum);
      if AnyCommit(events, sn, quorum) || e.request.sn != sn then out == Outcome(c, -2, false, None)
      else match e.request.kind
        case PrePrepare => !Proposed(events, sn) ==>
          out.ret == 0 && out.changed && out.handed == None && out.state.main == Held(e)
        case Prepare => out.ret == 0 && out.changed == FirstPrepare(all, sn, quorum, now) && out.handed == None
        case Commit =>
          && out.changed == FirstCommit(all, sn, quorum, now) && out.ret == (if out.changed then 1 else 0)
          && out.handed == (if out.changed && c.main.Held? then Some(c.main.info.request) else None)
  {
    var c, all, now := Run(vc, sn, events, quorum), events + [e], |events|;
    TallyAlways(vc, sn, events, quorum);
    assert all[..now] == events;
    PrepareAmong(all, sn, quorum, now);
    CommitAmong(all, sn, quorum, now);
    PrepareLast(events, e, sn, quorum);
    CommitLast(events, e, sn, quorum);
    if e.request.sn == sn && c.status != Executed {
      AnswerAgrees(c, e, vc, sn, quorum, Proposed(events, sn), AnyPrepare(events, sn, quorum));
      if Is(e, sn, Commit) {
        NowCounted(c.commits, events, e, sn, Commit);
      } else if Is(e, sn, Prepare) && Open(c, Prepare) {
        NowCounted(c.prepares, events, e, sn, Prepare);
      }
    }
  }

  // ----- which proposal is the main one

  ghost predicate FirstProposal(events: seq<RequestInfo>, sn: nat, i: nat) {
    i < |events| && Is(events[i], sn, PrePrepare) && forall j :: 0 <= j < i ==> !Is(events[j], sn, PrePrepare)
  }

  /** Proposal i leads: the first with the greatest view, except that a first proposal of view 0 is never displaced. */
  ghost predicate Leads(events: seq<RequestInfo>, sn: nat, i: nat) {
    && i < |events| && Is(events[i], sn, PrePrepare)
    && (forall j: nat :: j < i && Is(events[j], sn, PrePrepare) ==> events[j].request.view < events[i].request.view)
    && (forall j: nat :: j < i && FirstProposal(events, sn, j) ==> events[j].request.view > 0)
    && (events[i].request.view > 0 ==>
          forall j: nat :: j < |events| && Is(events[j], sn, PrePrepare) ==>
            events[j].request.view <= events[i].request.view)
  }

  /** This proposal, coming next, takes the lead from proposal i. */
  ghost predicate Overtakes(events: seq<RequestInfo>, e: RequestInfo, i: nat)
    requires i < |events|
  {
    0 < events[i].request.view < e.request.view
  }

  lemma LeadsNext(events: seq<RequestInfo>, e: RequestInfo, sn: nat, i: nat)
    requires Leads(events, sn, i)
    ensures if Is(e, sn, PrePrepare) && Overtakes(events, e, i) then Leads(events + [e], sn, |events|)
            else Leads(events + [e], sn, i)
  {
    var all := events + [e];
    forall j: nat | j < |events| ensures FirstProposal(all, sn, j) <==> FirstProposal(events, sn, j) {
      assert forall k :: 0 <= k < j ==> all[k] == events[k];
    }
    if Is(e, sn, PrePrepare) && Overtakes(events, e, i) {
      forall j: nat | j < |events| && FirstProposal(all, sn, j) ensures all[j].request.view > 0 {
        assert j <= i;
      }
    }
  }

  /** The main request and its view are those of the leading proposal. */
  ghost predicate Main(c: State, events: seq<RequestInfo>, sn: nat, i: nat) {
    Leads(events, sn, i) && c.main == Held(events[i]) && c.view == events[i].request.view
  }

  /** What a proposal after the first does while its lead can still be taken. */
  lemma ProposalStep(c: State, events: seq<RequestInfo>, e: RequestInfo, sn: nat, quorum: nat, i: nat)
    requires Main(c, events, sn, i) && Is(e, sn, PrePrepare)
    requires c.sn == sn && !c.prepared && !c.committed && c.status != Executed && c.status != Idle
    ensures var out, over := Collect(c, e, quorum), Overtakes(events, e, i);
      && out.ret == (if over then 0 else -2) && out.changed == over && out.handed == None
      && out.state == if over then c.(main := Held(e), view := e.request.view) else c.(others := c.others + [e])
  {
  }

  /** A vote that neither settles nor executes leaves the main request alone. */
  ghost predicate Leaves(c: State, c': State) {
    c'.view == c.view && (c'.prepared == c.prepared && c'.status != Executed ==> c'.main == c.main)
  }

  lemma ProofLeaves(c: State, e: RequestInfo, quorum: nat)
    ensures Leaves(c, AddPrepareProof(c, e, quorum).state)
  {
  }

  lemma CommitLeaves(c: State, e: RequestInfo, quorum: nat)
    ensures Leaves(c, AddCommitVote(c, e, quorum).state)
  {
  }

  lemma VoteStep(c: State, e: RequestInfo, quorum: nat)
    requires e.request.kind != PrePrepare || e.request.sn != c.sn
    ensures Leaves(c, Collect(c, e, quorum).state)
  {
    ProofLeaves(c, e, quorum);
    CommitLeaves(c, e, quorum);
  }

  /** Until a digest is prepared (without view change: until execution) the main request is the leading proposal. */
  lemma {:induction false} LeadExactly(vc: bool, sn: nat, events: seq<RequestInfo>, quorum: nat) returns (i: nat)
    requires Proposed(events, sn) && !AnyCommit(events, sn, quorum) && !(vc && AnyPrepare(events, sn, quorum))
    ensures Main(Run(vc, sn, events, quorum), events, sn, i)
  {
    var init, e := events[..|events| - 1], events[|events| - 1];
    assert events == init + [e];
    TallyAlways(vc, sn, init, quorum);
    TallyAlways(vc, sn, events, quorum);
    Next(init, e, sn, quorum);
    if Proposed(init, sn) {
      i := LeadExactly(vc, sn, init, quorum);
      LeadsNext(init, e, sn, i);
      i := LeadStep(Run(vc, sn, init, quorum), init, e, sn, quorum, i);
    } else {
      FirstLeads(Run(vc, sn, init, quorum), init, e, sn, quorum);
      i := |init|;
    }
  }

  lemma FirstLeads(c: State, events: seq<RequestInfo>, e: RequestInfo, sn: nat, quorum: nat)
    requires !Proposed(events, sn) && Is(e, sn, PrePrepare)
    requires Shape(c) && c.sn == sn && c.status == Idle
    ensures Main(Collect(c, e, quorum).state, events + [e], sn, |events|)
  {
    forall j | 0 <= j < |events| ensures !Is(events[j], sn, PrePrepare) {
      assert events[j] in events;
    }
  }

  lemma LeadStep(c: State, events: seq<RequestInfo>, e: RequestInfo, sn: nat, quorum: nat, i: nat) returns (i': nat)
    requires Main(c, events, sn, i) && Shape(c) && c.sn == sn && c.status != Idle && c.status != Executed
    requires var c' := Collect(c, e, quorum).state; !c.prepared && !c'.prepared && c'.status != Executed
    ensures Main(Collect(c, e, quorum).state, events + [e], sn, i')
  {
    LeadsNext(events, e, sn, i);
    if Is(e, sn, PrePrepare) {
      ProposalStep(c, events, e, sn, quorum, i);
      i' := if Overtakes(events, e, i) then |events| else i;
    } else {
      VoteStep(c, e, quorum);
      i' := i;
    }
  }

  /**
    * The answer to a proposal after the first, in whatever views: while the lead can be taken it is passed on if and
    * only if it takes the lead, and set aside otherwise; once a digest is prepared it changes nothing, and is taken
    * if and only if the digest left no main request.
    */
  lemma ProposalAnswers(vc: bool, sn: nat, events: seq<RequestInfo>, e: RequestInfo, quorum: nat)
    requires Is(e, sn, PrePrepare) && Proposed(events, sn) && !AnyCommit(events, sn, quorum)
    ensures var c := Run(vc, sn, events, quorum);
      var out := Collect(c, e, quorum);
      if vc && AnyPrepare(events, sn, quorum) then
        && !out.changed && out.ret == (if c.main == Vacant then 0 else -2) && out.handed == None
        && out.state.main == (if c.main == Vacant then Held(e) else c.main)
      else
        exists i :: Main(c, events, sn, i) &&
          var over := Overtakes(events, e, i);
          && out.ret == (if over then 0 else -2) && out.changed == over && out.handed == None
          && out.state == if over then c.(main := Held(e), view := e.request.view) else c.(others := c.others + [e])
  {
    var c := Run(vc, sn, events, quorum);
    TallyAlways(vc, sn, events, quorum);
    if vc && AnyPrepare(events, sn, quorum) {
      SettledProposal(c, e, quorum);
    } else {
      var i := LeadExactly(vc, sn, events, quorum);
      ProposalStep(c, events, e, sn, quorum, i);
    }
  }

  lemma SettledProposal(c: State, e: RequestInfo, quorum: nat)
    requires Shape(c) && c.prepared && c.status == ReadyCommit && Is(e, c.sn, PrePrepare)
    ensures var out := Collect(c, e, quorum);
      && !out.changed && out.ret == (if c.main == Vacant then 0 else -2) && out.handed == None
      && out.state.main == (if c.main == Vacant then Held(e) else c.main)
  {
  }

  lemma AnswerAgrees(c: State, e: RequestInfo, vc: bool, sn: nat, quorum: nat, proposed: bool, prepared: bool)
    requires Agrees(c, vc, sn, proposed, prepared, false) && e.request.sn == sn
    ensures var out := Collect(c, e, quorum);
      match e.request.kind
      case PrePrepare => !proposed ==> out.ret == 0 && out.changed && out.handed == None && out.state.main == Held(e)
      case Prepare =>
        && out.ret == 0 && out.handed == None
        && (out.changed <==> proposed && !prepared && Now(c.prepares, e) >= quorum)
      case Commit =>
        && (out.changed <==> prepared && Now(c.commits, e) >= quorum) && out.ret == (if out.changed then 1 else 0)
        && out.handed == (if out.changed && c.main.Held? then Some(c.main.info.request) else None)
  {
  }
}
