/** Which checkpoint votes a replica holds, read off what it received. */
module CheckpointVotes {
  import opened Quorum
  import opened Lexicographic
  import opened Checkpoint
  import opened CheckpointSafety
  import opened Selection

  /** The votes replica r holds after these actions. */
  ghost function VotesOf(cfg: Config, actions: seq<Action>, r: nat): Votes
    requires WellFormed(cfg) && Correct(cfg, r)
  {
    Run(cfg, actions).replicas[r].votes
  }

  /** With these announcements sent, this action brings replica r a vote for key k that passes the checks. */
  ghost predicate Brings(cfg: Config, sent: set<Announcement>, a: Action, r: nat, k: Key)
    requires cfg.waterMark >= 1
  {
    && a.Receive? && a.id == r && a.verified && a.msg in sent
    && k == (a.msg.sn, a.msg.hash) && a.msg.sn % cfg.waterMark == 0
  }

  /** Action i brought replica r a vote for key k. */
  ghost predicate Counts(cfg: Config, actions: seq<Action>, r: nat, k: Key, i: nat)
    requires WellFormed(cfg)
  {
    i < |actions| && Brings(cfg, Run(cfg, actions[..i]).sent, actions[i], r, k)
  }

  /** Nobody's vote twice: of the actions from `start` on, action i is the first to bring this sender's. */
  ghost predicate FirstVote(cfg: Config, actions: seq<Action>, r: nat, k: Key, start: nat, i: nat)
    requires WellFormed(cfg)
  {
    && start <= i && Counts(cfg, actions, r, k, i)
    && forall j: nat :: start <= j < i && Counts(cfg, actions, r, k, j) ==>
         actions[j].msg.sender != actions[i].msg.sender
  }

  ghost predicate Voted(cfg: Config, actions: seq<Action>, r: nat, k: Key, start: nat, p: nat)
    requires WellFormed(cfg)
  {
    exists i: nat :: start <= i && Counts(cfg, actions, r, k, i) && actions[i].msg.sender == p
  }

  /** Replicas whose vote for k has reached r in the actions from `start` on. */
  ghost predicate IsSenders(cfg: Config, actions: seq<Action>, r: nat, k: Key, start: nat, senders: set<nat>)
    requires WellFormed(cfg)
  {
    forall p :: p in senders <==> Voted(cfg, actions, r, k, start, p)
  }

  /** The signatures of the first vote of each sender, in order of arrival; `at` is when they came. */
  ghost predicate SignedAt(cfg: Config, actions: seq<Action>, r: nat, k: Key, start: nat, signs: seq<string>,
                           at: seq<nat>)
    requires WellFormed(cfg)
  {
    && Ascending(at) && |at| == |signs|
    && (forall i: nat :: i in at <==> FirstVote(cfg, actions, r, k, start, i))
    && forall j :: 0 <= j < |at| ==>
         at[j] < |actions| && actions[at[j]].Receive? && signs[j] == actions[at[j]].sign
  }

  ghost predicate IsSigned(cfg: Config, actions: seq<Action>, r: nat, k: Key, start: nat, signs: seq<string>)
    requires WellFormed(cfg)
  {
    exists at: seq<nat> :: SignedAt(cfg, actions, r, k, start, signs, at)
  }

  // ----- one more action

  lemma VotesNext(cfg: Config, s: System, a: Action, r: nat)
    requires WellFormed(cfg) && Correct(cfg, r) && s.replicas.Keys == cfg.replicas
    ensures var v := s.replicas[r].votes;
      Step(cfg, s, a).replicas[r].votes ==
      if a == Refresh(r) then Refreshed(v, MinDataReceive(|cfg.replicas|))
      else if a.Receive? && Brings(cfg, s.sent, a, r, (a.msg.sn, a.msg.hash)) then
        AddVote(v, (a.msg.sn, a.msg.hash), a.msg.sender, a.sign)
      else v
  {
  }

  lemma CountsPrefix(cfg: Config, actions: seq<Action>, a: Action, r: nat, k: Key, i: nat)
    requires WellFormed(cfg) && i < |actions|
    ensures Counts(cfg, actions + [a], r, k, i) <==> Counts(cfg, actions, r, k, i)
  {
    assert (actions + [a])[..i] == actions[..i];
  }

  lemma CountsLast(cfg: Config, actions: seq<Action>, a: Action, r: nat, k: Key)
    requires WellFormed(cfg)
    ensures Counts(cfg, actions + [a], r, k, |actions|) <==> Brings(cfg, Run(cfg, actions).sent, a, r, k)
  {
    assert (actions + [a])[..|actions|] == actions;
  }

  lemma RunNext(cfg: Config, actions: seq<Action>, a: Action)
    requires WellFormed(cfg)
    ensures Run(cfg, actions + [a]) == Step(cfg, Run(cfg, actions), a)
  {
    assert (actions + [a])[..|actions|] == actions;
  }

  lemma VotedNext(cfg: Config, actions: seq<Action>, a: Action, r: nat, k: Key, start: nat, p: nat)
    requires WellFormed(cfg) && start <= |actions|
    ensures Voted(cfg, actions + [a], r, k, start, p) <==>
      Voted(cfg, actions, r, k, start, p) || (Brings(cfg, Run(cfg, actions).sent, a, r, k) && a.msg.sender == p)
  {
    var all := actions + [a];
    CountsLast(cfg, actions, a, r, k);
    forall i: nat | i < |actions| ensures Counts(cfg, all, r, k, i) <==> Counts(cfg, actions, r, k, i) {
      CountsPrefix(cfg, actions, a, r, k, i);
    }
    if Voted(cfg, actions, r, k, start, p) {
      var i: nat :| start <= i && Counts(cfg, actions, r, k, i) && actions[i].msg.sender == p;
      assert Counts(cfg, all, r, k, i) && all[i].msg.sender == p;
    } else if Brings(cfg, Run(cfg, actions).sent, a, r, k) && a.msg.sender == p {
      assert Counts(cfg, all, r, k, |actions|) && all[|actions|].msg.sender == p;
    }
  }

  lemma SendersNext(cfg: Config, actions: seq<Action>, a: Action, r: nat, k: Key, start: nat, senders: set<nat>)
    requires WellFormed(cfg) && start <= |actions| && IsSenders(cfg, actions, r, k, start, senders)
    ensures IsSenders(cfg, actions + [a], r, k, start,
                      senders + if Brings(cfg, Run(cfg, actions).sent, a, r, k) then {a.msg.sender} else {})
  {
    forall p ensures Voted(cfg, actions + [a], r, k, start, p) <==>
        Voted(cfg, actions, r, k, start, p) || (Brings(cfg, Run(cfg, actions).sent, a, r, k) && a.msg.sender == p) {
      VotedNext(cfg, actions, a, r, k, start, p);
    }
  }

  /** A vote from a sender not yet counted is a first vote; no other action is. */
  lemma FirstLast(cfg: Config, actions: seq<Action>, a: Action, r: nat, k: Key, start: nat, senders: set<nat>)
    requires WellFormed(cfg) && start <= |actions| && IsSenders(cfg, actions, r, k, start, senders)
    ensures FirstVote(cfg, actions + [a], r, k, start, |actions|) <==>
      Brings(cfg, Run(cfg, actions).sent, a, r, k) && a.msg.sender !in senders
  {
    CountsLast(cfg, actions, a, r, k);
    forall i: nat | i < |actions| ensures Counts(cfg, actions + [a], r, k, i) <==> Counts(cfg, actions, r, k, i) {
      CountsPrefix(cfg, actions, a, r, k, i);
    }
    if Brings(cfg, Run(cfg, actions).sent, a, r, k) && a.msg.sender in senders {
      assert Voted(cfg, actions, r, k, start, a.msg.sender);
      var i: nat :| start <= i && Counts(cfg, actions, r, k, i) && actions[i].msg.sender == a.msg.sender;
      assert Counts(cfg, actions + [a], r, k, i) && (actions + [a])[i].msg.sender == a.msg.sender;
    }
  }

  lemma FirstPrefix(cfg: Config, actions: seq<Action>, a: Action, r: nat, k: Key, start: nat, i: nat)
    requires WellFormed(cfg) && i < |actions|
    ensures FirstVote(cfg, actions + [a], r, k, start, i) <==> FirstVote(cfg, actions, r, k, start, i)
  {
    forall j: nat | j <= i ensures Counts(cfg, actions + [a], r, k, j) <==> Counts(cfg, actions, r, k, j) {
      CountsPrefix(cfg, actions, a, r, k, j);
    }
  }

  lemma SignedNext(cfg: Config, actions: seq<Action>, a: Action, r: nat, k: Key, start: nat, senders: set<nat>,
                   signs: seq<string>)
    requires WellFormed(cfg) && start <= |actions|
    requires IsSenders(cfg, actions, r, k, start, senders) && IsSigned(cfg, actions, r, k, start, signs)
    ensures IsSigned(cfg, actions + [a], r, k, start,
                     if Brings(cfg, Run(cfg, actions).sent, a, r, k) && a.msg.sender !in senders then signs + [a.sign]
                     else signs)
  {
    var all := actions + [a];
    var at: seq<nat> :| SignedAt(cfg, actions, r, k, start, signs, at);
    FirstLast(cfg, actions, a, r, k, start, senders);
    forall i: nat | i < |actions|
      ensures FirstVote(cfg, all, r, k, start, i) <==> FirstVote(cfg, actions, r, k, start, i) {
      FirstPrefix(cfg, actions, a, r, k, start, i);
    }
    if Brings(cfg, Run(cfg, actions).sent, a, r, k) && a.msg.sender !in senders {
      assert SignedAt(cfg, all, r, k, start, signs + [a.sign], at + [|actions|]);
    } else {
      assert SignedAt(cfg, all, r, k, start, signs, at);
    }
  }

  /** A refresh clears what a new stable checkpoint covers and touches nothing else. */
  lemma RefreshedVotes(v: Votes, quorum: nat, k: Key)
    ensures var v' := Refreshed(v, quorum);
      if v.stable.sn < v'.stable.sn && k.0 <= v'.stable.sn then SendersFor(v', k) == {} && SignsFor(v', k) == []
      else SendersFor(v', k) == SendersFor(v, k) && SignsFor(v', k) == SignsFor(v, k)
  {
  }

  lemma AddedVote(v: Votes, j: Key, sender: nat, sign: string, k: Key)
    ensures var v' := AddVote(v, j, sender, sign);
      && v'.stable == v.stable && SendersFor(v', k) == SendersFor(v, k) + (if j == k then {sender} else {})
      && SignsFor(v', k) == if j == k && sender !in SendersFor(v, k) then SignsFor(v, k) + [sign] else SignsFor(v, k)
  {
  }

  /** From v to v', the votes for k grow by what the action brings. */
  ghost predicate Grows(brings: bool, a: Action, k: Key, v: Votes, v': Votes)
    requires brings ==> a.Receive?
  {
    && SendersFor(v', k) == SendersFor(v, k) + (if brings then {a.msg.sender} else {})
    && SignsFor(v', k)
       == if brings && a.msg.sender !in SendersFor(v, k) then SignsFor(v, k) + [a.sign] else SignsFor(v, k)
  }

  ghost predicate Holds(cfg: Config, actions: seq<Action>, r: nat, k: Key, start: nat, v: Votes)
    requires WellFormed(cfg)
  {
    IsSenders(cfg, actions, r, k, start, SendersFor(v, k)) && IsSigned(cfg, actions, r, k, start, SignsFor(v, k))
  }

  lemma HoldsNext(cfg: Config, actions: seq<Action>, a: Action, r: nat, k: Key, start: nat, v: Votes, v': Votes)
    requires WellFormed(cfg) && start <= |actions| && Holds(cfg, actions, r, k, start, v)
    requires Grows(Brings(cfg, Run(cfg, actions).sent, a, r, k), a, k, v, v')
    ensures Holds(cfg, actions + [a], r, k, start, v')
  {
    SendersNext(cfg, actions, a, r, k, start, SendersFor(v, k));
    SignedNext(cfg, actions, a, r, k, start, SendersFor(v, k), SignsFor(v, k));
  }

  lemma HoldsNone(cfg: Config, actions: seq<Action>, r: nat, k: Key, v: Votes)
    requires WellFormed(cfg) && SendersFor(v, k) == {} && SignsFor(v, k) == []
    ensures Holds(cfg, actions, r, k, |actions|, v)
  {
    assert SignedAt(cfg, actions, r, k, |actions|, [], []);
  }

  /** This step takes the stable number up to that of k, or past it. */
  ghost predicate Passes(v: Votes, v': Votes, k: Key) {
    v.stable.sn < v'.stable.sn && k.0 <= v'.stable.sn
  }

  /** Action n makes a checkpoint stable that covers k. */
  ghost predicate Clears(cfg: Config, actions: seq<Action>, r: nat, k: Key, n: nat)
    requires WellFormed(cfg) && Correct(cfg, r)
  {
    n < |actions| && Passes(VotesOf(cfg, actions[..n], r), VotesOf(cfg, actions[..n + 1], r), k)
  }

  lemma StepGrows(cfg: Config, s: System, a: Action, r: nat, k: Key)
    requires WellFormed(cfg) && Correct(cfg, r) && s.replicas.Keys == cfg.replicas
    requires Step(cfg, s, a).replicas.Keys == cfg.replicas
    ensures var v, v' := s.replicas[r].votes, Step(cfg, s, a).replicas[r].votes;
      if Passes(v, v', k) then SendersFor(v', k) == {} && SignsFor(v', k) == []
      else Grows(Brings(cfg, s.sent, a, r, k), a, k, v, v')
  {
    VotesNext(cfg, s, a, r);
    var v := s.replicas[r].votes;
    if a == Refresh(r) {
      RefreshedVotes(v, MinDataReceive(|cfg.replicas|), k);
    } else if a.Receive? {
      AddedVote(v, (a.msg.sn, a.msg.hash), a.msg.sender, a.sign, k);
    }
  }

  lemma VotesStep(cfg: Config, actions: seq<Action>, a: Action, r: nat, k: Key)
    requires WellFormed(cfg) && Correct(cfg, r)
    ensures var v, v' := VotesOf(cfg, actions, r), VotesOf(cfg, actions + [a], r);
      if Passes(v, v', k) then SendersFor(v', k) == {} && SignsFor(v', k) == []
      else Grows(Brings(cfg, Run(cfg, actions).sent, a, r, k), a, k, v, v')
  {
    RunNext(cfg, actions, a);
    StepGrows(cfg, Run(cfg, actions), a, r, k);
  }

  lemma ClearsPrefix(cfg: Config, actions: seq<Action>, a: Action, r: nat, k: Key, n: nat)
    requires WellFormed(cfg) && Correct(cfg, r)
    ensures n < |actions| ==> (Clears(cfg, actions + [a], r, k, n) <==> Clears(cfg, actions, r, k, n))
    ensures n == |actions| ==>
      (Clears(cfg, actions + [a], r, k, n) <==> Passes(VotesOf(cfg, actions, r), VotesOf(cfg, actions + [a], r), k))
  {
    var all := actions + [a];
    if n < |actions| {
      assert all[..n] == actions[..n] && all[..n + 1] == actions[..n + 1];
    } else if n == |actions| {
      assert all[..n] == actions && all[..n + 1] == all;
    }
  }

  /** The last checkpoint covering k became stable just before action `start`, or there was none. */
  ghost predicate Fresh(cfg: Config, actions: seq<Action>, r: nat, k: Key, start: nat)
    requires WellFormed(cfg) && Correct(cfg, r)
  {
    && start <= |actions| && (start == 0 || Clears(cfg, actions, r, k, start - 1))
    && forall n: nat :: start <= n < |actions| ==> !Clears(cfg, actions, r, k, n)
  }

  /**
    * Of every key a replica holds the votes of all senders whose vote reached it since a checkpoint covering the key
    * last became stable, and the signature of each one's first such vote, in order of arrival: no vote is lost, none
    * is counted twice, and none survives the checkpoint that covers it.
    */
  lemma {:induction false} VotesSince(cfg: Config, actions: seq<Action>, r: nat, k: Key, start: nat)
    requires WellFormed(cfg) && Correct(cfg, r) && Fresh(cfg, actions, r, k, start)
    ensures IsSenders(cfg, actions, r, k, start, SendersFor(VotesOf(cfg, actions, r), k))
    ensures IsSigned(cfg, actions, r, k, start, SignsFor(VotesOf(cfg, actions, r), k))
  {
    if actions == [] {
      HoldsNone(cfg, actions, r, k, VotesOf(cfg, actions, r));
    } else {
      var n := |actions| - 1;
      var init, a := actions[..n], actions[n];
      assert actions == init + [a];
      VotesStep(cfg, init, a, r, k);
      ClearsPrefix(cfg, init, a, r, k, n);
      if start == |actions| {
        HoldsNone(cfg, actions, r, k, VotesOf(cfg, actions, r));
      } else {
        assert !Clears(cfg, actions, r, k, n);
        FreshBefore(cfg, init, a, r, k, start);
        VotesSince(cfg, init, r, k, start);
        HoldsNext(cfg, init, a, r, k, start, VotesOf(cfg, init, r), VotesOf(cfg, actions, r));
      }
    }
  }

  lemma FreshBefore(cfg: Config, actions: seq<Action>, a: Action, r: nat, k: Key, start: nat)
    requires WellFormed(cfg) && Correct(cfg, r) && Fresh(cfg, actions + [a], r, k, start) && start <= |actions|
    ensures Fresh(cfg, actions, r, k, start)
  {
    forall n: nat | n < |actions| ensures Clears(cfg, actions + [a], r, k, n) <==> Clears(cfg, actions, r, k, n) {
      ClearsPrefix(cfg, actions, a, r, k, n);
    }
  }

  /** Above the stable checkpoint those are all the votes there ever were. */
  lemma VotesExactly(cfg: Config, actions: seq<Action>, r: nat, k: Key)
    requires WellFormed(cfg) && Correct(cfg, r) && k.0 > VotesOf(cfg, actions, r).stable.sn
    ensures IsSenders(cfg, actions, r, k, 0, SendersFor(VotesOf(cfg, actions, r), k))
    ensures IsSigned(cfg, actions, r, k, 0, SignsFor(VotesOf(cfg, actions, r), k))
  {
    forall n: nat | n < |actions| ensures !Clears(cfg, actions, r, k, n) {
      StableGrows(cfg, actions, r, n + 1);
    }
    VotesSince(cfg, actions, r, k, 0);
  }

  // ----- what becomes stable

  lemma StableNext(cfg: Config, actions: seq<Action>, a: Action, r: nat)
    requires WellFormed(cfg) && Correct(cfg, r)
    ensures var v, v' := VotesOf(cfg, actions, r), VotesOf(cfg, actions + [a], r);
      v'.stable == if a == Refresh(r) then Refreshed(v, MinDataReceive(|cfg.replicas|)).stable else v.stable
  {
    RunNext(cfg, actions, a);
    VotesNext(cfg, Run(cfg, actions), a, r);
  }

  lemma {:induction false} StableGrows(cfg: Config, actions: seq<Action>, r: nat, n: nat)
    requires WellFormed(cfg) && Correct(cfg, r) && n <= |actions|
    ensures VotesOf(cfg, actions[..n], r).stable.sn <= VotesOf(cfg, actions, r).stable.sn
  {
    if n == |actions| {
      assert actions[..n] == actions;
    } else {
      var init, a := actions[..|actions| - 1], actions[|actions| - 1];
      assert actions == init + [a] && actions[..n] == init[..n];
      StableNext(cfg, init, a, r);
      StableGrows(cfg, init, r, n);
    }
  }

  lemma RefreshReaches(v: Votes, quorum: nat, k: Key)
    requires Paired(v) && quorum >= 1 && |SendersFor(v, k)| >= quorum
    ensures Refreshed(v, quorum).stable.sn >= k.0
  {
    RefreshedSound(v, quorum);
  }

  lemma PairedAlways(cfg: Config, actions: seq<Action>, r: nat)
    requires WellFormed(cfg) && Correct(cfg, r)
    ensures Paired(VotesOf(cfg, actions, r))
  {
    InvAlways(cfg, actions);
  }

  lemma SameSenders(cfg: Config, actions: seq<Action>, r: nat, k: Key, a: set<nat>, b: set<nat>)
    requires WellFormed(cfg) && IsSenders(cfg, actions, r, k, 0, a) && IsSenders(cfg, actions, r, k, 0, b)
    ensures a == b
  {
    forall p ensures p in a <==> p in b {
      assert p in a <==> Voted(cfg, actions, r, k, 0, p);
    }
  }

  /** Once votes from a quorum have come for a key, the next refresh makes its number, or a later one, stable. */
  lemma QuorumBecomesStable(cfg: Config, actions: seq<Action>, r: nat, k: Key, senders: set<nat>)
    requires WellFormed(cfg) && Correct(cfg, r)
    requires IsSenders(cfg, actions, r, k, 0, senders) && |senders| >= MinDataReceive(|cfg.replicas|)
    ensures VotesOf(cfg, actions + [Refresh(r)], r).stable.sn >= k.0
  {
    var v, quorum := VotesOf(cfg, actions, r), MinDataReceive(|cfg.replicas|);
    StableNext(cfg, actions, Refresh(r), r);
    if k.0 > v.stable.sn {
      VotesExactly(cfg, actions, r, k);
      SameSenders(cfg, actions, r, k, SendersFor(v, k), senders);
      PairedAlways(cfg, actions, r);
      RefreshReaches(v, quorum, k);
    }
  }

  /** How a checkpoint became stable: at a refresh, with a quorum's votes and their signatures. */
  ghost predicate MadeStable(cfg: Config, actions: seq<Action>, r: nat, st: Stable, n: nat, senders: set<nat>)
    requires WellFormed(cfg)
  {
    && n < |actions| && actions[n] == Refresh(r)
    && IsSenders(cfg, actions[..n], r, (st.sn, st.hash), 0, senders) && |senders| >= MinDataReceive(|cfg.replicas|)
    && IsSigned(cfg, actions[..n], r, (st.sn, st.hash), 0, st.signatures)
  }

  /** A stable checkpoint carries exactly the signatures of those whose votes had come when it became stable. */
  lemma {:induction false} StableSigned(cfg: Config, actions: seq<Action>, r: nat) returns (n: nat, senders: set<nat>)
    requires WellFormed(cfg) && Correct(cfg, r) && VotesOf(cfg, actions, r).stable.sn > 0
    ensures MadeStable(cfg, actions, r, VotesOf(cfg, actions, r).stable, n, senders)
  {
    if actions == [] {
      assert false;
    } else {
      var init, a := actions[..|actions| - 1], actions[|actions| - 1];
      assert actions == init + [a];
      StableNext(cfg, init, a, r);
      var v, st := VotesOf(cfg, init, r), VotesOf(cfg, actions, r).stable;
      if st == v.stable {
        n, senders := StableSigned(cfg, init, r);
        assert actions[..n] == init[..n];
      } else {
        var k := (st.sn, st.hash);
        n, senders := |init|, SendersFor(v, k);
        NewlyStable(v, MinDataReceive(|cfg.replicas|));
        VotesExactly(cfg, init, r, k);
      }
    }
  }

  lemma NewlyStable(v: Votes, quorum: nat)
    requires Refreshed(v, quorum).stable != v.stable
    ensures var st := Refreshed(v, quorum).stable;
      var k := (st.sn, st.hash);
      st.sn > v.stable.sn && |SendersFor(v, k)| >= quorum && st.signatures == SignsFor(v, k)
  {
    var k := Greatest(QuorumKeys(v, quorum));
    assert k in QuorumKeys(v, quorum);
  }
}
