/** Stable checkpoints and state transfer over every run, with up to f faulty replicas voting as they like. */
module CheckpointSafety {
  import opened Messages
  import opened Quorum
  import opened Lexicographic
  import opened Checkpoint

  /** `size` is the hash length; `waterMark` the number of requests between checkpoints. */
  datatype Config = Config(replicas: set<nat>, faulty: set<nat>, sha: Hash, size: nat, waterMark: nat)

  ghost predicate WellFormed(cfg: Config) {
    && cfg.replicas != {} && |cfg.replicas| % 3 == 1
    && cfg.faulty <= cfg.replicas && |cfg.faulty| <= MaxMalicious(|cfg.replicas|)
    && cfg.waterMark >= 1
  }

  predicate Correct(cfg: Config, r: nat) {
    r in cfg.replicas && r !in cfg.faulty
  }

  datatype Announcement = Announcement(sender: nat, sn: nat, hash: string)

  /** A replica: the digests it has executed, and the votes it has received. */
  datatype Replica = Replica(log: seq<Digest>, votes: Votes)

  datatype System = System(replicas: map<nat, Replica>, sent: set<Announcement>)

  datatype Action =
    | Execute(id: nat, hash: Digest)
    | Receive(id: nat, msg: Announcement, sign: string, verified: bool)
    | Refresh(id: nat)
    | FaultySend(msg: Announcement)

  ghost function Step(cfg: Config, s: System, a: Action): System
    requires WellFormed(cfg)
  {
    match a
    case Execute(id, hash) =>
      if !Correct(cfg, id) || id !in s.replicas then s
      else
        var log := s.replicas[id].log + [hash];
        System(s.replicas[id := s.replicas[id].(log := log)],
               s.sent + if |log| % cfg.waterMark == 0 then {Announcement(id, |log|, Chain(cfg.sha, log))} else {})
    case Receive(id, msg, sign, verified) =>
      if !Correct(cfg, id) || id !in s.replicas || msg !in s.sent || !verified || msg.sn % cfg.waterMark != 0 then s
      else
        var votes := AddVote(s.replicas[id].votes, (msg.sn, msg.hash), msg.sender, sign);
        s.(replicas := s.replicas[id := s.replicas[id].(votes := votes)])
    case Refresh(id) =>
      if !Correct(cfg, id) || id !in s.replicas then s
      else
        var votes := Refreshed(s.replicas[id].votes, MinDataReceive(|cfg.replicas|));
        s.(replicas := s.replicas[id := s.replicas[id].(votes := votes)])
    case FaultySend(msg) => if msg.sender in cfg.faulty then s.(sent := s.sent + {msg}) else s
  }

  function Initial(cfg: Config): System {
    System(map r | r in cfg.replicas :: Replica([], NO_VOTES), {})
  }

  ghost function Run(cfg: Config, actions: seq<Action>): (s: System)
    requires WellFormed(cfg)
    ensures s.replicas.Keys == cfg.replicas
  {
    if actions == [] then Initial(cfg)
    else Step(cfg, Run(cfg, actions[..|actions| - 1]), actions[|actions| - 1])
  }

  /** Who has announced this hash for this number. */
  ghost function Voters(sent: set<Announcement>, k: Key): set<nat> {
    set m | m in sent && m.sn == k.0 && m.hash == k.1 :: m.sender
  }

  ghost predicate VotesSent(sent: set<Announcement>, v: Votes) {
    forall k, p :: k in v.senders && p in v.senders[k] ==> k.0 >= 0 && p in Voters(sent, k)
  }

  /** A stable checkpoint was announced by a quorum and carries that many signatures. */
  ghost predicate StableVoted(cfg: Config, sent: set<Announcement>, st: Stable)
    requires cfg.replicas != {}
  {
    st.sn > 0 ==>
      && |Voters(sent, (st.sn, st.hash))| >= MinDataReceive(|cfg.replicas|)
      && |st.signatures| >= MinDataReceive(|cfg.replicas|)
  }

  /** Correct replicas announce only hashes of prefixes of their own log. */
  ghost predicate Honest(cfg: Config, s: System)
    requires s.replicas.Keys == cfg.replicas
  {
    forall m :: m in s.sent && Correct(cfg, m.sender) ==>
      m.sn <= |s.replicas[m.sender].log| && m.hash == Chain(cfg.sha, s.replicas[m.sender].log[..m.sn])
  }

  ghost predicate Inv(cfg: Config, s: System)
    requires WellFormed(cfg)
  {
    && s.replicas.Keys == cfg.replicas
    && (forall m :: m in s.sent ==> m.sender in cfg.replicas)
    && Honest(cfg, s)
    && forall r :: Correct(cfg, r) ==>
         && VotesSent(s.sent, s.replicas[r].votes) && Paired(s.replicas[r].votes)
         && StableVoted(cfg, s.sent, s.replicas[r].votes.stable)
  }

  lemma VotersGrow(sent: set<Announcement>, more: set<Announcement>, k: Key)
    ensures Voters(sent, k) <= Voters(sent + more, k)
    ensures |Voters(sent, k)| <= |Voters(sent + more, k)|
  {
    SubsetSize(Voters(sent, k), Voters(sent + more, k));
  }

  lemma SentGrows(cfg: Config, sent: set<Announcement>, more: set<Announcement>, v: Votes)
    requires WellFormed(cfg) && VotesSent(sent, v) && StableVoted(cfg, sent, v.stable)
    ensures VotesSent(sent + more, v) && StableVoted(cfg, sent + more, v.stable)
  {
    VotersGrow(sent, more, (v.stable.sn, v.stable.hash));
    forall k, p | k in v.senders && p in v.senders[k] ensures k.0 >= 0 && p in Voters(sent + more, k) {
      VotersGrow(sent, more, k);
    }
  }

  lemma ReceiveKeeps(sent: set<Announcement>, v: Votes, msg: Announcement, sign: string)
    requires VotesSent(sent, v) && msg in sent
    ensures VotesSent(sent, AddVote(v, (msg.sn, msg.hash), msg.sender, sign))
  {
    assert msg.sender in Voters(sent, (msg.sn, msg.hash));
  }

  lemma RefreshKeeps(cfg: Config, sent: set<Announcement>, v: Votes)
    requires WellFormed(cfg) && VotesSent(sent, v) && Paired(v) && StableVoted(cfg, sent, v.stable)
    ensures var v' := Refreshed(v, MinDataReceive(|cfg.replicas|));
      VotesSent(sent, v') && Paired(v') && StableVoted(cfg, sent, v'.stable)
  {
    var q := MinDataReceive(|cfg.replicas|);
    var v' := Refreshed(v, q);
    RefreshedSound(v, q);
    if v'.stable != v.stable {
      var k := (v'.stable.sn, v'.stable.hash);
      SubsetSize(v.senders[k], Voters(sent, k));
    }
  }

  /** Longer logs, and announcements of their hashes, keep correct replicas honest. */
  lemma HonestAfter(cfg: Config, s: System, s': System)
    requires s.replicas.Keys == cfg.replicas == s'.replicas.Keys && Honest(cfg, s)
    requires forall r :: r in cfg.replicas ==> s.replicas[r].log <= s'.replicas[r].log
    requires forall m :: m in s'.sent && m !in s.sent && Correct(cfg, m.sender) ==>
      m.sn == |s'.replicas[m.sender].log| && m.hash == Chain(cfg.sha, s'.replicas[m.sender].log)
    ensures Honest(cfg, s')
  {
    forall m | m in s'.sent && Correct(cfg, m.sender)
      ensures m.sn <= |s'.replicas[m.sender].log| && m.hash == Chain(cfg.sha, s'.replicas[m.sender].log[..m.sn])
    {
      var log, log' := s.replicas[m.sender].log, s'.replicas[m.sender].log;
      if m in s.sent {
        assert log'[..m.sn] == log[..m.sn];
      } else {
        assert log'[..m.sn] == log';
      }
    }
  }

  lemma ExecuteKeeps(cfg: Config, s: System, id: nat, hash: Digest)
    requires WellFormed(cfg) && Inv(cfg, s) && Correct(cfg, id)
    ensures Inv(cfg, Step(cfg, s, Execute(id, hash)))
  {
    var s' := Step(cfg, s, Execute(id, hash));
    var log, log' := s.replicas[id].log, s'.replicas[id].log;
    assert log' == log + [hash];
    var more := s'.sent - s.sent;
    assert s'.sent == s.sent + more;
    HonestAfter(cfg, s, s');
    forall r | Correct(cfg, r)
      ensures VotesSent(s'.sent, s'.replicas[r].votes) && StableVoted(cfg, s'.sent, s'.replicas[r].votes.stable)
    {
      SentGrows(cfg, s.sent, more, s.replicas[r].votes);
    }
  }

  /** A step that changes only the votes of one correct replica. */
  lemma VotesChange(cfg: Config, s: System, id: nat, v: Votes)
    requires WellFormed(cfg) && Inv(cfg, s) && Correct(cfg, id)
    requires VotesSent(s.sent, v) && Paired(v) && StableVoted(cfg, s.sent, v.stable)
    ensures Inv(cfg, s.(replicas := s.replicas[id := s.replicas[id].(votes := v)]))
  {
  }

  lemma FaultyKeeps(cfg: Config, s: System, msg: Announcement)
    requires WellFormed(cfg) && Inv(cfg, s) && msg.sender in cfg.faulty
    ensures Inv(cfg, s.(sent := s.sent + {msg}))
  {
    forall r | Correct(cfg, r)
      ensures VotesSent(s.sent + {msg}, s.replicas[r].votes)
      ensures StableVoted(cfg, s.sent + {msg}, s.replicas[r].votes.stable)
    {
      SentGrows(cfg, s.sent, {msg}, s.replicas[r].votes);
    }
  }

  lemma StepKeeps(cfg: Config, s: System, a: Action)
    requires WellFormed(cfg) && Inv(cfg, s)
    ensures Inv(cfg, Step(cfg, s, a))
  {
    match a
    case Execute(id, hash) => if Correct(cfg, id) { ExecuteKeeps(cfg, s, id, hash); }
    case Receive(id, msg, sign, verified) =>
      if Correct(cfg, id) && msg in s.sent {
        var v := s.replicas[id].votes;
        ReceiveKeeps(s.sent, v, msg, sign);
        AddVotePaired(v, (msg.sn, msg.hash), msg.sender, sign);
        VotesChange(cfg, s, id, AddVote(v, (msg.sn, msg.hash), msg.sender, sign));
      }
    case Refresh(id) =>
      if Correct(cfg, id) {
        RefreshKeeps(cfg, s.sent, s.replicas[id].votes);
        VotesChange(cfg, s, id, Refreshed(s.replicas[id].votes, MinDataReceive(|cfg.replicas|)));
      }
    case FaultySend(msg) => if msg.sender in cfg.faulty { FaultyKeeps(cfg, s, msg); }
  }

  lemma {:induction false} InvAlways(cfg: Config, actions: seq<Action>)
    requires WellFormed(cfg)
    ensures Inv(cfg, Run(cfg, actions))
  {
    if actions != [] {
      InvAlways(cfg, actions[..|actions| - 1]);
      StepKeeps(cfg, Run(cfg, actions[..|actions| - 1]), actions[|actions| - 1]);
    }
  }

  /** A voter for this checkpoint that is correct: its log, up to that number, hashes to it. */
  ghost predicate CorrectVoter(cfg: Config, s: System, k: Key, p: nat)
    requires s.replicas.Keys == cfg.replicas
  {
    && Correct(cfg, p) && p in Voters(s.sent, k)
    && 0 <= k.0 <= |s.replicas[p].log| && Chain(cfg.sha, s.replicas[p].log[..k.0]) == k.1
  }

  lemma VoterIsHonest(cfg: Config, s: System, k: Key, p: nat)
    requires WellFormed(cfg) && Inv(cfg, s) && k.0 >= 0 && p in Voters(s.sent, k) && Correct(cfg, p)
    ensures CorrectVoter(cfg, s, k, p)
  {
  }

  lemma VotersKnown(cfg: Config, s: System, k: Key)
    requires WellFormed(cfg) && Inv(cfg, s)
    ensures Voters(s.sent, k) <= cfg.replicas
  {
  }

  /** Two correct voters for one checkpoint have executed the same digests up to its number. */
  lemma VotersAgree(cfg: Config, s: System, k: Key, p: nat, q: nat)
    requires WellFormed(cfg) && s.replicas.Keys == cfg.replicas
    requires CorrectVoter(cfg, s, k, p) && CorrectVoter(cfg, s, k, q)
    requires Trusted(cfg, s.replicas[p].log[..k.0], s.replicas[q].log[..k.0])
    ensures s.replicas[p].log[..k.0] == s.replicas[q].log[..k.0]
  {
    ChainInjective(cfg.sha, cfg.size, s.replicas[p].log[..k.0], s.replicas[q].log[..k.0]);
  }

  /** Digest lengths fit, and no two strings hashed for these two lists collide. */
  ghost predicate Trusted(cfg: Config, a: seq<Digest>, b: seq<Digest>) {
    && Sized(cfg.sha, cfg.size, a) && Sized(cfg.sha, cfg.size, b)
    && NoCollision(cfg.sha, Inputs(cfg.sha, a) + Inputs(cfg.sha, b))
  }

  lemma {:induction false} StillVoted(cfg: Config, actions: seq<Action>, i: nat, r: nat)
    requires WellFormed(cfg) && Correct(cfg, r) && i <= |actions|
    ensures StableVoted(cfg, Run(cfg, actions).sent, Run(cfg, actions[..i]).replicas[r].votes.stable)
    decreases |actions|
  {
    if i == |actions| {
      InvAlways(cfg, actions);
      assert actions[..i] == actions;
    } else {
      var init := actions[..|actions| - 1];
      StillVoted(cfg, init, i, r);
      assert init[..i] == actions[..i];
      InvAlways(cfg, init);
      SentStep(cfg, Run(cfg, init), actions[|actions| - 1]);
      VotedStays(cfg, Run(cfg, init).sent, Run(cfg, actions).sent, Run(cfg, actions[..i]).replicas[r].votes.stable);
    }
  }

  lemma SentStep(cfg: Config, s: System, a: Action)
    requires WellFormed(cfg) && Inv(cfg, s)
    ensures s.sent <= Step(cfg, s, a).sent
  {
  }

  lemma VotedStays(cfg: Config, sent: set<Announcement>, more: set<Announcement>, st: Stable)
    requires WellFormed(cfg) && StableVoted(cfg, sent, st) && sent <= more
    ensures StableVoted(cfg, more, st)
  {
    assert sent + more == more;
    VotersGrow(sent, more, (st.sn, st.hash));
  }

  /**
    * In every run, two correct replicas whose stable checkpoints, after i and after j steps, are for the same number
    * have the same hash; it has a correct voter, and all its correct voters have executed one list of digests.
    */
  lemma StableAgree(cfg: Config, actions: seq<Action>, i: nat, j: nat, r1: nat, r2: nat) returns (p: nat)
    requires WellFormed(cfg) && Correct(cfg, r1) && Correct(cfg, r2) && i <= |actions| && j <= |actions|
    requires Run(cfg, actions[..i]).replicas[r1].votes.stable.sn > 0
    requires Run(cfg, actions[..i]).replicas[r1].votes.stable.sn == Run(cfg, actions[..j]).replicas[r2].votes.stable.sn
    ensures var s := Run(cfg, actions);
      var st1 := Run(cfg, actions[..i]).replicas[r1].votes.stable;
      var st2 := Run(cfg, actions[..j]).replicas[r2].votes.stable;
      && st1.hash == st2.hash
      && CorrectVoter(cfg, s, (st1.sn, st1.hash), p)
      && |st1.signatures| >= MinDataReceive(|cfg.replicas|)
      && forall q | CorrectVoter(cfg, s, (st1.sn, st1.hash), q) ::
           Trusted(cfg, s.replicas[p].log[..st1.sn], s.replicas[q].log[..st1.sn]) ==>
           s.replicas[q].log[..st1.sn] == s.replicas[p].log[..st1.sn]
  {
    InvAlways(cfg, actions);
    StillVoted(cfg, actions, i, r1);
    StillVoted(cfg, actions, j, r2);
    var st1, st2 := Run(cfg, actions[..i]).replicas[r1].votes.stable, Run(cfg, actions[..j]).replicas[r2].votes.stable;
    p := StableTwice(cfg, Run(cfg, actions), st1, st2);
  }

  lemma StableTwice(cfg: Config, s: System, st1: Stable, st2: Stable) returns (p: nat)
    requires WellFormed(cfg) && Inv(cfg, s) && StableVoted(cfg, s.sent, st1) && StableVoted(cfg, s.sent, st2)
    requires st1.sn == st2.sn > 0
    ensures st1.hash == st2.hash && CorrectVoter(cfg, s, (st1.sn, st1.hash), p)
    ensures forall q | CorrectVoter(cfg, s, (st1.sn, st1.hash), q) ::
      Trusted(cfg, s.replicas[p].log[..st1.sn], s.replicas[q].log[..st1.sn]) ==>
      s.replicas[q].log[..st1.sn] == s.replicas[p].log[..st1.sn]
  {
    var k1, k2 := (st1.sn, st1.hash), (st2.sn, st2.hash);
    VotersKnown(cfg, s, k1);
    VotersKnown(cfg, s, k2);
    p := SharedCorrect(cfg.replicas, cfg.faulty, Voters(s.sent, k1), Voters(s.sent, k2));
    VoterIsHonest(cfg, s, k1, p);
    VoterIsHonest(cfg, s, k2, p);
    forall q | CorrectVoter(cfg, s, k1, q) && Trusted(cfg, s.replicas[p].log[..st1.sn], s.replicas[q].log[..st1.sn])
      ensures s.replicas[q].log[..st1.sn] == s.replicas[p].log[..st1.sn]
    {
      VotersAgree(cfg, s, k1, p, q);
    }
  }

  /**
    * State transfer. A batch that extends the local log to a hash with f + 1 votes extends it to exactly the
    * list of digests some correct replica has executed up to that number.
    */
  lemma TransferSound(cfg: Config, actions: seq<Action>, r: nat, k: Key, batch: seq<Digest>) returns (p: nat)
    requires WellFormed(cfg) && Correct(cfg, r)
    requires var s := Run(cfg, actions);
      && k in s.replicas[r].votes.senders
      && |s.replicas[r].votes.senders[k]| >= MinCheckpointReceive(|cfg.replicas|)
      && Chain(cfg.sha, s.replicas[r].log + batch) == k.1
    ensures var s := Run(cfg, actions);
      && CorrectVoter(cfg, s, k, p)
      && (Trusted(cfg, s.replicas[r].log + batch, s.replicas[p].log[..k.0]) ==>
            s.replicas[r].log + batch == s.replicas[p].log[..k.0])
  {
    InvAlways(cfg, actions);
    var s := Run(cfg, actions);
    p := CheckpointVoterCorrect(|cfg.replicas|, cfg.faulty, s.replicas[r].votes.senders[k]);
    assert p in Voters(s.sent, k);
    VotersKnown(cfg, s, k);
    VoterIsHonest(cfg, s, k, p);
    if Trusted(cfg, s.replicas[r].log + batch, s.replicas[p].log[..k.0]) {
      ChainInjective(cfg.sha, cfg.size, s.replicas[r].log + batch, s.replicas[p].log[..k.0]);
    }
  }
}
