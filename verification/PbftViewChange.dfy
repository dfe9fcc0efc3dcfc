/** What a correct replica had prepared when it sent its view-change message is carried over by the redo list. */
module PbftViewChange {
  import opened Messages
  import opened Quorum
  import opened OrderedKeys
  import opened CollectorPool
  import opened CollectorSafety
  import opened ViewChange
  import opened Pbft
  import opened PbftSafety
  import opened PbftRing
  import A = PbftAgreement
  import N = NewView
  import T = PbftTable
  import C = Collector

  // ----- records

  /** Step i is the one in which this view-change message was sent. */
  ghost predicate SentAt(cfg: Config, actions: seq<Action>, i: nat, rec: Record)
    requires WellFormed(cfg)
  {
    && i < |actions| && actions[i].StartViewChange? && actions[i].id == rec.sender && Correct(cfg, rec.sender)
    && rec.msg == ViewChangeOf(cfg, Run(cfg, actions[..i]).replicas[rec.sender], actions[i].stable,
                               cfg.view + actions[i].counter)
  }

  /** Only a view change adds a correct replica's record, and it is the message for that replica's state. */
  lemma NewRecord(cfg: Config, s: Rings, a: Action, rec: Record)
    requires WellFormed(cfg) && Shaped(cfg, s) && rec in Step(cfg, s, a).viewChanges && rec !in s.viewChanges
    requires Correct(cfg, rec.sender)
    ensures a.StartViewChange? && a.id == rec.sender
    ensures rec.msg == ViewChangeOf(cfg, s.replicas[rec.sender], a.stable, cfg.view + a.counter)
  {
  }

  /** Every view-change message of a correct replica was sent by it at some step. */
  lemma {:induction false} RecordSource(cfg: Config, actions: seq<Action>, rec: Record) returns (i: nat)
    requires WellFormed(cfg) && rec in Run(cfg, actions).viewChanges && Correct(cfg, rec.sender)
    ensures SentAt(cfg, actions, i, rec)
  {
    RunIsStep(cfg, actions);
    var n := |actions| - 1;
    if rec in Run(cfg, actions[..n]).viewChanges {
      i := RecordSource(cfg, actions[..n], rec);
      SentAtMore(cfg, actions, n, i, rec);
    } else {
      i := n;
      SentLast(cfg, actions, rec);
    }
  }

  lemma SentLast(cfg: Config, actions: seq<Action>, rec: Record)
    requires WellFormed(cfg) && actions != [] && Correct(cfg, rec.sender)
    requires var s := Run(cfg, actions[..|actions| - 1]);
      rec in Step(cfg, s, actions[|actions| - 1]).viewChanges && rec !in s.viewChanges
    ensures SentAt(cfg, actions, |actions| - 1, rec)
  {
    NewRecord(cfg, Run(cfg, actions[..|actions| - 1]), actions[|actions| - 1], rec);
  }

  lemma RunIsStep(cfg: Config, actions: seq<Action>)
    requires WellFormed(cfg)
    ensures actions == [] ==> Run(cfg, actions).viewChanges == {}
    ensures actions != [] ==>
      Run(cfg, actions) == Step(cfg, Run(cfg, actions[..|actions| - 1]), actions[|actions| - 1])
  {
  }

  lemma SentAtMore(cfg: Config, actions: seq<Action>, n: nat, i: nat, rec: Record)
    requires WellFormed(cfg) && n <= |actions| && SentAt(cfg, actions[..n], i, rec)
    ensures SentAt(cfg, actions, i, rec)
  {
    assert actions[..n][..i] == actions[..i];
  }

  lemma {:induction false} SendersOnRecord(cfg: Config, actions: seq<Action>)
    requires WellFormed(cfg)
    ensures forall rec :: rec in Run(cfg, actions).viewChanges ==> rec.sender in cfg.replicas
  {
    if actions != [] {
      var init, a := actions[..|actions| - 1], actions[|actions| - 1];
      SendersOnRecord(cfg, init);
      forall rec | rec in Run(cfg, actions).viewChanges && rec !in Run(cfg, init).viewChanges
        ensures rec.sender in cfg.replicas
      {
        SenderKnown(cfg, Run(cfg, init), a, rec);
      }
    }
  }

  lemma SenderKnown(cfg: Config, s: Rings, a: Action, rec: Record)
    requires WellFormed(cfg) && Shaped(cfg, s) && rec in Step(cfg, s, a).viewChanges && rec !in s.viewChanges
    ensures rec.sender in cfg.replicas
  {
  }

  lemma {:induction false} EntryMembers(capacity: nat, ring: Slots, low: nat, high: nat, e: PreparedMsg)
    requires capacity >= 1 && |ring| == 2 * capacity
    ensures e in PreparedEntries(capacity, ring, low, high) <==>
      && low < e.sn <= high && C.Rank(ring[SlotOf(capacity, e.sn)].status) >= C.Rank(C.ReadyCommit)
      && e.proofs == ring[SlotOf(capacity, e.sn)].proofs
    decreases high
  {
    if high > low {
      EntryMembers(capacity, ring, low, high - 1, e);
    }
  }

  lemma {:induction false} FlattenMembers(msgs: seq<ViewChangeMessage>, e: PreparedMsg)
    ensures e in Flatten(msgs) <==> exists m :: m in msgs && e in m.prepared
  {
    if msgs != [] {
      FlattenMembers(msgs[..|msgs| - 1], e);
      assert msgs == msgs[..|msgs| - 1] + [msgs[|msgs| - 1]];
    }
  }

  function MessagesOf(records: seq<Record>): (msgs: seq<ViewChangeMessage>)
    ensures |msgs| == |records| && forall i :: 0 <= i < |records| ==> msgs[i] == records[i].msg
  {
    seq(|records|, i requires 0 <= i < |records| => records[i].msg)
  }

  ghost function SendersOf(records: seq<Record>): set<nat> {
    set rec | rec in records :: rec.sender
  }

  /** What the new primary has collected: valid view-change messages, sent by enough distinct replicas. */
  ghost predicate NewViewSet(cfg: Config, s: Rings, records: seq<Record>, verify: RequestInfo -> bool)
    requires WellFormed(cfg)
  {
    && (forall rec :: rec in records ==>
          rec in s.viewChanges && N.ValidViewChange(cfg.view, rec.msg, true, verify, QuorumOf(cfg)))
    && |SendersOf(records)| >= QuorumOf(cfg)
  }

  /** No receiver checks what a faulty sender claims for this number. */
  ghost predicate FaultyEntriesAgree(cfg: Config, records: seq<Record>, sn: nat, d: Digest) {
    forall rec, e ::
      rec in records && rec.sender in cfg.faulty && e in rec.msg.prepared && e.sn == sn && e.proofs != [] ==>
      e.proofs[0].request.hash == d
  }

  /** At step i the replica had prepared `d` for this number, and its prepared mark covered it. */
  ghost predicate PreparedThen(cfg: Config, actions: seq<Action>, i: nat, r: nat, sn: nat, d: Digest)
    requires WellFormed(cfg) && i <= |actions| && Correct(cfg, r)
  {
    var rep := Run(cfg, actions[..i]).replicas[r];
    && SlotFor(cfg, rep, sn).sn == sn && Committed(SlotFor(cfg, rep, sn), d, QuorumOf(cfg))
    && sn <= rep.ctl.highestPrepared
  }

  /** This record was sent by a replica that had, at that moment, prepared `d` for the number. */
  ghost predicate SentPrepared(cfg: Config, actions: seq<Action>, rec: Record, sn: nat, d: Digest)
    requires WellFormed(cfg)
  {
    Correct(cfg, rec.sender) &&
    exists i: nat :: SentAt(cfg, actions, i, rec) && PreparedThen(cfg, actions, i, rec.sender, sn, d)
  }

  // ----- entries of correct replicas

  lemma SlotSound(cfg: Config, actions: seq<Action>, i: nat, r: nat, sn: nat)
    requires WellFormed(cfg) && TimelyRun(cfg, actions) && i <= |actions| && A.Holds(cfg, Run(cfg, actions[..i]), r, sn)
    ensures Inv(SlotFor(cfg, Run(cfg, actions[..i]).replicas[r], sn), QuorumOf(cfg))
    ensures SlotFor(cfg, Run(cfg, actions[..i]).replicas[r], sn).viewChange == cfg.viewChange
  {
    A.SlotIsCell(cfg, actions, i, r, sn);
    CellsAlwaysOk(cfg, actions[..i]);
    var t := T.Run(cfg, actions[..i]);
    assert CellOk(cfg, t.sent, r, sn, T.Collecting(cfg, t.replicas[r], sn));
  }

  lemma {:induction false} SlotsNumbered(cfg: Config, actions: seq<Action>, r: nat, i: nat)
    requires WellFormed(cfg) && TimelyRun(cfg, actions) && r in cfg.replicas && i < 2 * cfg.capacity
    ensures SlotOf(cfg.capacity, Run(cfg, actions).replicas[r].pool[i].sn) == i
  {
    RingRefinesTable(cfg, actions);
    assert Matches(cfg, Run(cfg, actions).replicas[r], T.Run(cfg, actions).replicas[r]);
  }

  /**
    * A valid entry of a correct replica for a number is from that number's collector, and for the digest prepared
    * there.
    */
  lemma EntryPrepared(cfg: Config, actions: seq<Action>, rec: Record, e: PreparedMsg, verify: RequestInfo -> bool)
    returns (j: nat)
    requires WellFormed(cfg) && cfg.viewChange && TimelyRun(cfg, actions)
    requires rec in Run(cfg, actions).viewChanges && Correct(cfg, rec.sender) && e in rec.msg.prepared
    requires N.ValidViewChange(cfg.view, rec.msg, true, verify, QuorumOf(cfg))
    ensures e.proofs != [] && j <= |actions|
    ensures A.PreparesFor(cfg, Run(cfg, actions[..j]), rec.sender, e.sn, e.proofs[0].request.hash)
  {
    j := RecordSource(cfg, actions, rec);
    var rep := Run(cfg, actions[..j]).replicas[rec.sender];
    EntryMembers(cfg.capacity, rep.pool, rec.msg.stable, rep.ctl.highestPrepared, e);
    var c := SlotFor(cfg, rep, e.sn);
    assert |e.proofs| >= QuorumOf(cfg) && e.proofs[0] in e.proofs;
    A.TimelyPrefix(cfg, actions, j);
    SlotsNumbered(cfg, actions[..j], rec.sender, SlotOf(cfg.capacity, e.sn));
    assert SlotFor(cfg, rep, c.sn) == c;
    SlotSound(cfg, actions, j, rec.sender, c.sn);
    assert c.sn == e.sn;
  }

  /** Every entry for the number that has a proof has one for `d`. */
  ghost predicate Carry(msgs: seq<ViewChangeMessage>, sn: nat, d: Digest) {
    forall e :: e in Flatten(msgs) && e.sn == sn && e.proofs != [] ==> e.proofs[0].request.hash == d
  }

  /** All entries for a number agree with what one correct replica has prepared, if the faulty ones do. */
  lemma EntryAgrees(cfg: Config, actions: seq<Action>, records: seq<Record>, verify: RequestInfo -> bool,
                    i: nat, p: nat, sn: nat, e: PreparedMsg, d: Digest)
    requires WellFormed(cfg) && cfg.viewChange && TimelyRun(cfg, actions) && i <= |actions|
    requires A.PreparesFor(cfg, Run(cfg, actions[..i]), p, sn, d)
    requires NewViewSet(cfg, Run(cfg, actions), records, verify) && FaultyEntriesAgree(cfg, records, sn, d)
    requires e in Flatten(MessagesOf(records)) && e.sn == sn && e.proofs != []
    ensures e.proofs[0].request.hash == d
  {
    var rec := EntrySource(records, e);
    if Correct(cfg, rec.sender) {
      var j := EntryPrepared(cfg, actions, rec, e, verify);
      A.OnePrepared(cfg, actions, i, j, p, rec.sender, e.sn, d, e.proofs[0].request.hash);
    } else {
      SendersOnRecord(cfg, actions);
    }
  }

  lemma EntriesAgree(cfg: Config, actions: seq<Action>, records: seq<Record>, verify: RequestInfo -> bool,
                     i: nat, p: nat, sn: nat, d: Digest)
    requires WellFormed(cfg) && cfg.viewChange && TimelyRun(cfg, actions) && i <= |actions|
    requires A.PreparesFor(cfg, Run(cfg, actions[..i]), p, sn, d)
    requires NewViewSet(cfg, Run(cfg, actions), records, verify) && FaultyEntriesAgree(cfg, records, sn, d)
    ensures Carry(MessagesOf(records), sn, d)
  {
    forall e | e in Flatten(MessagesOf(records)) && e.sn == sn && e.proofs != []
      ensures e.proofs[0].request.hash == d
    {
      EntryAgrees(cfg, actions, records, verify, i, p, sn, e, d);
    }
  }

  lemma EntrySource(records: seq<Record>, e: PreparedMsg) returns (rec: Record)
    requires e in Flatten(MessagesOf(records))
    ensures rec in records && e in rec.msg.prepared
  {
    FlattenMembers(MessagesOf(records), e);
    var k :| 0 <= k < |records| && e in MessagesOf(records)[k].prepared;
    rec := records[k];
  }

  /** The record of a replica that had prepared the number has an entry for it. */
  lemma ListedEntry(cfg: Config, actions: seq<Action>, records: seq<Record>, rec: Record, sn: nat, d: Digest)
    returns (e: PreparedMsg)
    requires WellFormed(cfg) && SentPrepared(cfg, actions, rec, sn, d) && rec in records && rec.msg.stable < sn
    ensures e in Flatten(MessagesOf(records)) && e.sn == sn
  {
    var i: nat :| SentAt(cfg, actions, i, rec) && PreparedThen(cfg, actions, i, rec.sender, sn, d);
    var rep := Run(cfg, actions[..i]).replicas[rec.sender];
    e := PreparedMsg(sn, SlotFor(cfg, rep, sn).proofs);
    EntryMembers(cfg.capacity, rep.pool, rec.msg.stable, rep.ctl.highestPrepared, e);
    var k :| 0 <= k < |records| && records[k] == rec;
    assert MessagesOf(records)[k] in MessagesOf(records);
    FlattenMembers(MessagesOf(records), e);
  }

  lemma MeetingReplica(cfg: Config, preparers: set<nat>, senders: set<nat>) returns (p: nat)
    requires WellFormed(cfg) && preparers <= cfg.replicas && senders <= cfg.replicas
    requires |preparers| > MaxMalicious(|cfg.replicas|) && |senders| >= QuorumOf(cfg)
    ensures p in preparers && p in senders
  {
    SubsetSize(preparers + senders, cfg.replicas);
    p :| p in preparers * senders;
  }

  /** If all entries for a number carry one digest and there is at least one, so does the redo list. */
  lemma SurvivingEntry(msgs: seq<ViewChangeMessage>, view: nat, self: nat, unsigned: set<nat>,
                       sn: nat, d: Digest, e: PreparedMsg)
    requires msgs != [] && Proved(Flatten(msgs)) && sn <= MAX64
    requires forall m :: m in msgs ==> m.stable < sn
    requires e in Flatten(msgs) && e.sn == sn
    requires forall x :: x in Flatten(msgs) && x.sn == sn ==> x.proofs[0].request.hash == d
    ensures Request(Commit, view, sn, d, self) in RedoList(msgs, view, self, unsigned)
    ensures forall q :: q in RedoList(msgs, view, self, unsigned) && q.sn == sn ==>
      q == Request(Commit, view, sn, d, self)
  {
    RedoCarries(msgs, view, self, unsigned, sn, d);
    var latest := Latest(Flatten(msgs));
    LatestIsLast(Flatten(msgs), sn);
    forall q | q in RedoList(msgs, view, self, unsigned) && q.sn == sn
      ensures q == Request(Commit, view, sn, d, self)
    {
      RedoMembers(latest, First(msgs), Highest(latest), view, self, unsigned, q);
    }
  }

  /**
    * What f + 1 correct replicas had prepared, at or below their marks, when they sent their view-change messages
    * survives: in every timely run, with replicas resuming the old view and fetching state at any time, whichever
    * valid messages of 2f + 1 replicas the new primary uses, the redo list answers that number with a COMMIT for that
    * digest and with nothing else, if faulty senders do not claim another digest for it.
    */
  lemma PreparedSurvives(cfg: Config, actions: seq<Action>, preparers: set<nat>, sn: nat, d: Digest,
                         records: seq<Record>, verify: RequestInfo -> bool, view: nat, self: nat, unsigned: set<nat>)
    requires WellFormed(cfg) && cfg.viewChange && TimelyRun(cfg, actions) && sn <= MAX64
    requires |preparers| > MaxMalicious(|cfg.replicas|) && forall p :: p in preparers ==> Correct(cfg, p)
    requires NewViewSet(cfg, Run(cfg, actions), records, verify) && Proved(Flatten(MessagesOf(records)))
    requires forall rec :: rec in records && rec.sender in preparers ==> SentPrepared(cfg, actions, rec, sn, d)
    requires forall rec :: rec in records ==> rec.msg.stable < sn
    requires FaultyEntriesAgree(cfg, records, sn, d)
    ensures var redo := RedoList(MessagesOf(records), view, self, unsigned);
      && Request(Commit, view, sn, d, self) in redo
      && forall q :: q in redo && q.sn == sn ==> q == Request(Commit, view, sn, d, self)
  {
    var rec := MeetingRecord(cfg, actions, records, verify, preparers);
    RecordSurvives(cfg, actions, rec, sn, d, records, verify, view, self, unsigned);
  }

  lemma MeetingRecord(cfg: Config, actions: seq<Action>, records: seq<Record>, verify: RequestInfo -> bool,
                      preparers: set<nat>)
    returns (rec: Record)
    requires WellFormed(cfg) && NewViewSet(cfg, Run(cfg, actions), records, verify)
    requires |preparers| > MaxMalicious(|cfg.replicas|) && forall p :: p in preparers ==> Correct(cfg, p)
    ensures rec in records && rec.sender in preparers
  {
    SendersOnRecord(cfg, actions);
    var p := MeetingReplica(cfg, preparers, SendersOf(records));
    rec :| rec in records && rec.sender == p;
  }

  /** One record sent by a replica that had prepared the number is enough. */
  lemma RecordSurvives(cfg: Config, actions: seq<Action>, rec: Record, sn: nat, d: Digest,
                       records: seq<Record>, verify: RequestInfo -> bool, view: nat, self: nat, unsigned: set<nat>)
    requires WellFormed(cfg) && cfg.viewChange && TimelyRun(cfg, actions) && sn <= MAX64
    requires rec in records && SentPrepared(cfg, actions, rec, sn, d)
    requires NewViewSet(cfg, Run(cfg, actions), records, verify) && Proved(Flatten(MessagesOf(records)))
    requires forall rec :: rec in records ==> rec.msg.stable < sn
    requires FaultyEntriesAgree(cfg, records, sn, d)
    ensures var redo := RedoList(MessagesOf(records), view, self, unsigned);
      && Request(Commit, view, sn, d, self) in redo
      && forall q :: q in redo && q.sn == sn ==> q == Request(Commit, view, sn, d, self)
  {
    var e := ListedEntry(cfg, actions, records, rec, sn, d);
    OnlyDigest(cfg, actions, rec, sn, d, records, verify);
    MessagesAbove(records, sn);
    AllCarry(MessagesOf(records), sn, d);
    SurvivingEntry(MessagesOf(records), view, self, unsigned, sn, d, e);
  }

  lemma OnlyDigest(cfg: Config, actions: seq<Action>, rec: Record, sn: nat, d: Digest,
                   records: seq<Record>, verify: RequestInfo -> bool)
    requires WellFormed(cfg) && cfg.viewChange && TimelyRun(cfg, actions) && SentPrepared(cfg, actions, rec, sn, d)
    requires NewViewSet(cfg, Run(cfg, actions), records, verify) && FaultyEntriesAgree(cfg, records, sn, d)
    ensures Carry(MessagesOf(records), sn, d)
  {
    var i := PreparedMoment(cfg, actions, rec, sn, d);
    EntriesAgree(cfg, actions, records, verify, i, rec.sender, sn, d);
  }

  lemma AllCarry(msgs: seq<ViewChangeMessage>, sn: nat, d: Digest)
    requires Proved(Flatten(msgs)) && Carry(msgs, sn, d)
    ensures forall x :: x in Flatten(msgs) && x.sn == sn ==> x.proofs[0].request.hash == d
  {
  }

  lemma MessagesAbove(records: seq<Record>, sn: nat)
    requires forall rec :: rec in records ==> rec.msg.stable < sn
    ensures forall m :: m in MessagesOf(records) ==> m.stable < sn
  {
    forall m | m in MessagesOf(records) ensures m.stable < sn {
      var k :| 0 <= k < |records| && MessagesOf(records)[k] == m;
      assert records[k] in records;
    }
  }

  lemma PreparedMoment(cfg: Config, actions: seq<Action>, rec: Record, sn: nat, d: Digest) returns (i: nat)
    requires WellFormed(cfg) && SentPrepared(cfg, actions, rec, sn, d)
    ensures i <= |actions| && A.PreparesFor(cfg, Run(cfg, actions[..i]), rec.sender, sn, d)
  {
    i :| SentAt(cfg, actions, i, rec) && PreparedThen(cfg, actions, i, rec.sender, sn, d);
  }

  lemma TableVoters(cfg: Config, t: T.Table, r: nat, sn: nat, d: Digest) returns (voters: set<nat>)
    requires WellFormed(cfg) && CellsOk(cfg, t) && Correct(cfg, r) && CommitCertified(cfg, t, r, sn, d)
    ensures |voters| > MaxMalicious(|cfg.replicas|)
    ensures forall p :: p in voters ==> Correct(cfg, p) && Request(Commit, cfg.view, sn, d, p) in t.sent
  {
    var c := T.Collecting(cfg, t.replicas[r], sn);
    assert CellOk(cfg, t.sent, r, sn, c);
    VotersKnown(cfg, t.sent, Commit, sn, c.commits, d);
    var votes := C.Votes(c.commits, d);
    voters := votes - cfg.faulty;
    SubsetSize(votes - voters, cfg.faulty);
    assert votes == voters + (votes - voters);
  }

  lemma SameSent(cfg: Config, actions: seq<Action>, j: nat)
    requires WellFormed(cfg) && TimelyRun(cfg, actions) && j <= |actions|
    ensures T.Run(cfg, actions[..j]).sent == Run(cfg, actions[..j]).sent
  {
    A.TimelyPrefix(cfg, actions, j);
    RingRefinesTable(cfg, actions[..j]);
  }

  /** The correct replicas behind a commit quorum. */
  lemma CommitVoters(cfg: Config, actions: seq<Action>, j: nat, r: nat, sn: nat, d: Digest) returns (voters: set<nat>)
    requires WellFormed(cfg) && TimelyRun(cfg, actions) && j <= |actions|
    requires A.CommitsFor(cfg, Run(cfg, actions[..j]), r, sn, d)
    ensures |voters| > MaxMalicious(|cfg.replicas|)
    ensures forall p :: p in voters ==>
      Correct(cfg, p) && Request(Commit, cfg.view, sn, d, p) in Run(cfg, actions[..j]).sent
  {
    A.SlotIsCell(cfg, actions, j, r, sn);
    CellsAlwaysOk(cfg, actions[..j]);
    SameSent(cfg, actions, j);
    voters := TableVoters(cfg, T.Run(cfg, actions[..j]), r, sn, d);
  }

  /**
    * A replica that has sent a commit, and has not executed a whole capacity beyond its number, still has the
    * prepared collector.
    */
  lemma CommitHeld(cfg: Config, actions: seq<Action>, i: nat, r: nat, sn: nat, d: Digest)
    requires WellFormed(cfg) && TimelyRun(cfg, actions) && i <= |actions| && Correct(cfg, r)
    requires Request(Commit, cfg.view, sn, d, r) in Run(cfg, actions[..i]).sent
    requires Done(Run(cfg, actions[..i]).replicas[r].ctl) < sn + cfg.capacity
    ensures var c := SlotFor(cfg, Run(cfg, actions[..i]).replicas[r], sn); c.sn == sn && Committed(c, d, QuorumOf(cfg))
  {
    A.TimelyPrefix(cfg, actions, i);
    RingRefinesTable(cfg, actions[..i]);
    CellsAlwaysOk(cfg, actions[..i]);
    var s, t := Run(cfg, actions[..i]), T.Run(cfg, actions[..i]);
    assert CellOk(cfg, t.sent, r, sn, T.Collecting(cfg, t.replicas[r], sn));
    MatchedCell(cfg, s.replicas[r], t.replicas[r], sn, d);
  }

  lemma MatchedCell(cfg: Config, rep: Replica<Slots>, cell: Replica<T.Cells>, sn: nat, d: Digest)
    requires WellFormed(cfg) && Matches(cfg, rep, cell) && Done(rep.ctl) < sn + cfg.capacity
    requires Committed(T.Collecting(cfg, cell, sn), d, QuorumOf(cfg))
    ensures SlotFor(cfg, rep, sn).sn == sn && SlotFor(cfg, rep, sn) == T.Collecting(cfg, cell, sn)
  {
    assert sn in cell.pool;
    SlotMirrors(cfg.capacity, cfg.viewChange, rep.pool, cell.pool, Done(rep.ctl), sn);
  }

  /**
    * The record was sent after its sender had sent the commit, before it had executed a whole capacity beyond the
    * number, and with the number at or below its prepared mark.
    */
  ghost predicate SentInTime(cfg: Config, actions: seq<Action>, i: nat, rec: Record, sn: nat, d: Digest)
    requires WellFormed(cfg)
  {
    && SentAt(cfg, actions, i, rec)
    && var s := Run(cfg, actions[..i]);
    && Request(Commit, cfg.view, sn, d, rec.sender) in s.sent
    && Done(s.replicas[rec.sender].ctl) < sn + cfg.capacity
    && sn <= s.replicas[rec.sender].ctl.highestPrepared
  }

  /** A correct replica whose commit is among those counted sent this record in time. */
  ghost predicate CommittedBefore(cfg: Config, actions: seq<Action>, j: nat, rec: Record, sn: nat, d: Digest)
    requires WellFormed(cfg) && j <= |actions|
  {
    Correct(cfg, rec.sender) && Request(Commit, cfg.view, sn, d, rec.sender) in Run(cfg, actions[..j]).sent ==>
    exists i: nat :: SentInTime(cfg, actions, i, rec, sn, d)
  }

  /** One of the messages used is from a correct replica behind the commit quorum. */
  lemma CommitterRecord(cfg: Config, actions: seq<Action>, j: nat, r: nat, sn: nat, d: Digest,
                        records: seq<Record>, verify: RequestInfo -> bool)
    returns (rec: Record)
    requires WellFormed(cfg) && TimelyRun(cfg, actions) && j <= |actions|
    requires A.CommitsFor(cfg, Run(cfg, actions[..j]), r, sn, d)
    requires NewViewSet(cfg, Run(cfg, actions), records, verify)
    ensures rec in records && Correct(cfg, rec.sender)
    ensures Request(Commit, cfg.view, sn, d, rec.sender) in Run(cfg, actions[..j]).sent
  {
    var voters := CommitVoters(cfg, actions, j, r, sn, d);
    rec := MeetingRecord(cfg, actions, records, verify, voters);
  }

  lemma InTimePrepared(cfg: Config, actions: seq<Action>, j: nat, rec: Record, sn: nat, d: Digest)
    requires WellFormed(cfg) && TimelyRun(cfg, actions) && j <= |actions| && Correct(cfg, rec.sender)
    requires Request(Commit, cfg.view, sn, d, rec.sender) in Run(cfg, actions[..j]).sent
    requires CommittedBefore(cfg, actions, j, rec, sn, d)
    ensures SentPrepared(cfg, actions, rec, sn, d)
  {
    var i: nat :| SentInTime(cfg, actions, i, rec, sn, d);
    CommitHeld(cfg, actions, i, rec.sender, sn, d);
    assert PreparedThen(cfg, actions, i, rec.sender, sn, d);
  }

  /**
    * A committed digest survives, if every correct replica behind the commit quorum whose message is used sent it after
    * its commit, before it had executed a whole capacity beyond the number, and with its mark covering the number.
    */
  lemma CommittedSurvives(cfg: Config, actions: seq<Action>, j: nat, r: nat, sn: nat, d: Digest,
                          records: seq<Record>, verify: RequestInfo -> bool, view: nat, self: nat, unsigned: set<nat>)
    requires WellFormed(cfg) && cfg.viewChange && TimelyRun(cfg, actions) && sn <= MAX64 && j <= |actions|
    requires A.CommitsFor(cfg, Run(cfg, actions[..j]), r, sn, d)
    requires NewViewSet(cfg, Run(cfg, actions), records, verify) && Proved(Flatten(MessagesOf(records)))
    requires forall rec :: rec in records ==> CommittedBefore(cfg, actions, j, rec, sn, d)
    requires forall rec :: rec in records ==> rec.msg.stable < sn
    requires FaultyEntriesAgree(cfg, records, sn, d)
    ensures var redo := RedoList(MessagesOf(records), view, self, unsigned);
      && Request(Commit, view, sn, d, self) in redo
      && forall q :: q in redo && q.sn == sn ==> q == Request(Commit, view, sn, d, self)
  {
    var rec := CommitterRecord(cfg, actions, j, r, sn, d, records, verify);
    assert CommittedBefore(cfg, actions, j, rec, sn, d);
    InTimePrepared(cfg, actions, j, rec, sn, d);
    RecordSurvives(cfg, actions, rec, sn, d, records, verify, view, self, unsigned);
  }

  // ----- a correct replica's own message

  ghost predicate PoolInv(cfg: Config, pool: Slots)
    requires WellFormed(cfg)
  {
    forall i :: 0 <= i < |pool| ==> Inv(pool[i], QuorumOf(cfg)) && pool[i].viewChange == cfg.viewChange
  }

  lemma HandleKeepsInv(cfg: Config, rep: Replica<Slots>, info: RequestInfo)
    requires WellFormed(cfg) && |rep.pool| == 2 * cfg.capacity && PoolInv(cfg, rep.pool)
    ensures PoolInv(cfg, Handle(cfg, rep, info).pool)
  {
    CollectKeeps(SlotFor(cfg, rep, info.request.sn), info, QuorumOf(cfg));
    CollectShape(SlotFor(cfg, rep, info.request.sn), info, QuorumOf(cfg));
  }

  lemma AdvanceKeepsInv(cfg: Config, pool: Slots, lo: nat, hi: nat)
    requires WellFormed(cfg) && |pool| == 2 * cfg.capacity && PoolInv(cfg, pool) && lo <= hi
    ensures PoolInv(cfg, AdvanceTo(cfg.capacity, pool, lo, hi, cfg.viewChange))
  {
    forall p: Slots, sn: nat | |p| == 2 * cfg.capacity && PoolInv(cfg, p)
      ensures PoolInv(cfg, Advance(cfg.capacity, p, sn, cfg.viewChange))
    {
      FreshInv(sn + cfg.capacity, cfg.viewChange, QuorumOf(cfg));
    }
    AdvanceKeeps(cfg.capacity, pool, lo, hi, cfg.viewChange, (p: Slots, sn: nat) => PoolInv(cfg, p));
  }

  lemma StepKeepsInv(cfg: Config, s: Rings, a: Action, r: nat)
    requires WellFormed(cfg) && Shaped(cfg, s) && Correct(cfg, r) && PoolInv(cfg, s.replicas[r].pool)
    ensures PoolInv(cfg, Step(cfg, s, a).replicas[r].pool)
  {
    RingStepOf(cfg, s, a, r);
    match a
    case Deliver(id, info, accepted) => HandleKeepsInv(cfg, s.replicas[r], info);
    case Execute(id) =>
      OrderGrows(s.replicas[r].ctl);
      AdvanceKeepsInv(cfg, s.replicas[r].pool, s.replicas[r].ctl.executor.next,
                      OrderNext(s.replicas[r].ctl).executor.next);
    case StartViewChange(id, stable, counter) =>
    case _ => ControlOf(cfg, s, a, r);
  }

  /** In every run every collector of a correct replica keeps the collector invariant. */
  lemma {:induction false} PoolsAlwaysInv(cfg: Config, actions: seq<Action>, r: nat)
    requires WellFormed(cfg) && Correct(cfg, r)
    ensures PoolInv(cfg, Run(cfg, actions).replicas[r].pool)
  {
    if actions == [] {
      forall i: nat ensures Inv(C.Fresh(i, cfg.viewChange), QuorumOf(cfg)) {
        FreshInv(i, cfg.viewChange, QuorumOf(cfg));
      }
    } else {
      PoolsAlwaysInv(cfg, actions[..|actions| - 1], r);
      StepKeepsInv(cfg, Run(cfg, actions[..|actions| - 1]), actions[|actions| - 1], r);
    }
  }

  /** The message has an entry for this number. */
  ghost predicate Listed(cfg: Config, rep: Replica<Slots>, stable: nat, n: nat)
    requires cfg.capacity >= 1 && |rep.pool| == 2 * cfg.capacity
  {
    stable < n <= rep.ctl.highestPrepared && C.Rank(SlotFor(cfg, rep, n).status) >= C.Rank(C.ReadyCommit)
  }

  ghost predicate Verifiable(pool: Slots, verify: RequestInfo -> bool) {
    forall i, q :: 0 <= i < |pool| && q in pool[i].proofs ==> verify(q)
  }

  /** Every number the message covers whose slot is prepared still has its own collector there. */
  ghost predicate OwnSlots(cfg: Config, rep: Replica<Slots>, stable: nat)
    requires cfg.capacity >= 1 && |rep.pool| == 2 * cfg.capacity
  {
    forall n :: Listed(cfg, rep, stable, n) ==> SlotFor(cfg, rep, n).sn == n
  }

  lemma EntryValid(cfg: Config, rep: Replica<Slots>, stable: nat, n: nat, verify: RequestInfo -> bool)
    requires WellFormed(cfg) && cfg.viewChange && |rep.pool| == 2 * cfg.capacity && PoolInv(cfg, rep.pool)
    requires Listed(cfg, rep, stable, n) && Verifiable(rep.pool, verify)
    ensures var c := SlotFor(cfg, rep, n);
      (|c.proofs| >= QuorumOf(cfg) && forall q :: q in c.proofs ==> q.request.sn == n && verify(q)) <==> c.sn == n
  {
    var c := SlotFor(cfg, rep, n);
    assert Inv(c, QuorumOf(cfg)) && c.viewChange;
    ProofCount(c.proofs);
    assert c.proofs[0] in c.proofs;
  }

  /**
    * In every run, the message a correct replica would send is accepted as valid, its proofs being verifiable, exactly
    * when every number it covers whose slot is prepared still has its own collector there.
    */
  lemma OwnMessageValid(cfg: Config, actions: seq<Action>, r: nat, stable: nat, view: nat, verify: RequestInfo -> bool)
    requires WellFormed(cfg) && cfg.viewChange && Correct(cfg, r) && view > cfg.view
    requires Verifiable(Run(cfg, actions).replicas[r].pool, verify)
    ensures var rep := Run(cfg, actions).replicas[r];
      N.ValidViewChange(cfg.view, ViewChangeOf(cfg, rep, stable, view), true, verify, QuorumOf(cfg)) <==>
      OwnSlots(cfg, rep, stable)
  {
    PoolsAlwaysInv(cfg, actions, r);
    OwnMessageIs(cfg, Run(cfg, actions).replicas[r], stable, view, verify);
  }

  lemma OwnMessageIs(cfg: Config, rep: Replica<Slots>, stable: nat, view: nat, verify: RequestInfo -> bool)
    requires WellFormed(cfg) && cfg.viewChange && view > cfg.view && |rep.pool| == 2 * cfg.capacity
    requires PoolInv(cfg, rep.pool) && Verifiable(rep.pool, verify)
    ensures N.ValidViewChange(cfg.view, ViewChangeOf(cfg, rep, stable, view), true, verify, QuorumOf(cfg)) <==>
      OwnSlots(cfg, rep, stable)
  {
    var msg := ViewChangeOf(cfg, rep, stable, view);
    forall e
      ensures e in msg.prepared <==> Listed(cfg, rep, stable, e.sn) && e.proofs == SlotFor(cfg, rep, e.sn).proofs
    {
      EntryMembers(cfg.capacity, rep.pool, stable, rep.ctl.highestPrepared, e);
    }
    forall n | Listed(cfg, rep, stable, n)
      ensures var c := SlotFor(cfg, rep, n);
        && PreparedMsg(n, c.proofs) in msg.prepared
        && (c.sn == n <==>
              |c.proofs| >= QuorumOf(cfg) && forall q :: q in c.proofs ==> q.request.sn == n && verify(q))
    {
      EntryValid(cfg, rep, stable, n, verify);
    }
  }
}
