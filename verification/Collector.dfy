/** `TransactionCollector`: the votes and proposals one replica holds for one sequence number. */
module Collector {
  import opened Messages

  /** `TransactionStatue`, in its declared order. */
  datatype Status = Idle | ReadyPrepare | ReadyCommit | ReadyExecute | Executed

  function Rank(s: Status): nat {
    match s
    case Idle => 0
    case ReadyPrepare => 1
    case ReadyCommit => 2
    case ReadyExecute => 3
    case Executed => 4
  }

  /** The set-once cell for the main request; `Taken` once its request has moved to the executor. */
  datatype MainCell = Vacant | Held(info: RequestInfo) | Taken(request: Request)

  datatype State = State(
    sn: nat, viewChange: bool,
    status: Status, committed: bool, prepared: bool, view: nat,
    main: MainCell, others: seq<RequestInfo>, proofs: seq<RequestInfo>,
    prepares: map<Digest, set<nat>>, commits: map<Digest, set<nat>>)

  datatype Outcome = Outcome(state: State, ret: int, changed: bool, handed: Option<Request>)

  function Fresh(sn: nat, viewChange: bool): State {
    State(sn, viewChange, Idle, false, false, 0, Vacant, [], [], map[], map[])
  }

  function Votes(m: map<Digest, set<nat>>, d: Digest): set<nat> {
    if d in m then m[d] else {}
  }

  function Vote(m: map<Digest, set<nat>>, d: Digest, sender: nat): map<Digest, set<nat>> {
    m[d := Votes(m, d) + {sender}]
  }

  /** `MayConsensusChangeStatus`: the new status, and whether the caller must broadcast. */
  function MayChangeStatus(kind: Kind, count: nat, status: Status, quorum: nat, ret: bool): (Status, bool) {
    match kind
    case PrePrepare => if status == Idle then (ReadyPrepare, true) else (status, ret)
    case Prepare => if status == ReadyPrepare && quorum <= count then (ReadyCommit, true) else (status, ret)
    case Commit => if status == ReadyCommit && quorum <= count then (ReadyExecute, true) else (status, ret)
  }

  function WithHash(infos: seq<RequestInfo>, d: Digest): (r: seq<RequestInfo>)
    ensures |r| <= |infos|
  {
    if infos == [] then []
    else
      var last := infos[|infos| - 1];
      WithHash(infos[..|infos| - 1], d) + if last.request.hash == d then [last] else []
  }

  function AddProposal(c: State, info: RequestInfo, quorum: nat): Outcome {
    var force := 0 < c.view < info.request.view && !c.prepared;
    if !force && c.main != Vacant then
      Outcome(c.(others := c.others + [info]), -2, false, None)
    else
      var (status, changed) := MayChangeStatus(PrePrepare, 1, c.status, quorum, force);
      Outcome(c.(main := Held(info), view := info.request.view, status := status), 0, changed, None)
  }

  /** Once a digest is prepared, a main request with another digest gives way to a stored match, if any. */
  function AdoptProposal(c: State, d: Digest): State {
    if c.main.Held? && c.main.info.request.hash != d then
      var matching := WithHash(c.others, d);
      c.(main := if matching == [] then Vacant else Held(matching[0]), others := [])
    else
      c
  }

  function AddPrepareProof(c: State, info: RequestInfo, quorum: nat): Outcome {
    if Rank(c.status) > Rank(ReadyPrepare) || c.prepared then
      Outcome(c, 0, false, None)
    else
      var d := info.request.hash;
      var votes := Vote(c.prepares, d, info.request.sender);
      var (status, changed) := MayChangeStatus(Prepare, |votes[d]|, c.status, quorum, false);
      var c1 := c.(proofs := c.proofs + [info], prepares := votes, status := status);
      if status == ReadyCommit then
        Outcome(AdoptProposal(c1.(prepared := true, proofs := WithHash(c1.proofs, d)), d), 0, changed, None)
      else
        Outcome(c1, 0, changed, None)
  }

  function AddPrepareVote(c: State, info: RequestInfo, quorum: nat): Outcome {
    var d := info.request.hash;
    var votes := Vote(c.prepares, d, info.request.sender);
    var (status, changed) := MayChangeStatus(Prepare, |votes[d]|, c.status, quorum, false);
    Outcome(c.(prepares := votes, status := status), 0, changed, None)
  }

  /** `Commit`: the main request, if there is one, leaves for the executor. */
  function HandOver(c: State): (State, Option<Request>) {
    if c.main.Held? then
      (c.(status := Executed, committed := true, main := Taken(c.main.info.request)), Some(c.main.info.request))
    else
      (c.(status := Executed), None)
  }

  function AddCommitVote(c: State, info: RequestInfo, quorum: nat): Outcome {
    var d := info.request.hash;
    var votes := Vote(c.commits, d, info.request.sender);
    var (status, changed) := MayChangeStatus(Commit, |votes[d]|, c.status, quorum, false);
    var c1 := c.(commits := votes, status := status);
    if status == ReadyExecute then
      var (c2, handed) := HandOver(c1);
      Outcome(c2, 1, changed, handed)
    else
      Outcome(c1, 0, changed, None)
  }

  function Collect(c: State, info: RequestInfo, quorum: nat): Outcome {
    if c.committed || c.status == Executed || c.sn != info.request.sn then
      Outcome(c, -2, false, None)
    else
      match info.request.kind
      case PrePrepare => AddProposal(c, info, quorum)
      case Prepare => if c.viewChange then AddPrepareProof(c, info, quorum) else AddPrepareVote(c, info, quorum)
      case Commit => AddCommitVote(c, info, quorum)
  }

  /** The collector as the source runs it, proved to follow `Collect`. */
  class TransactionCollector {
    const sn: nat
    const viewChange: bool
    var status: Status
    var committed: bool
    var prepared: bool
    var view: nat
    var main: MainCell
    var others: seq<RequestInfo>
    var proofs: seq<RequestInfo>
    var prepares: map<Digest, set<nat>>
    var commits: map<Digest, set<nat>>

    function View(): (s: State)
      reads this
    {
      State(sn, viewChange, status, committed, prepared, view, main, others, proofs, prepares, commits)
    }

    constructor (sn: nat, viewChange: bool)
      ensures View() == Fresh(sn, viewChange)
    {
      this.sn, this.viewChange := sn, viewChange;
      status, committed, prepared, view := Idle, false, false, 0;
      main, others, proofs, prepares, commits := Vacant, [], [], map[], map[];
    }

    method AddRequest(info: RequestInfo, quorum: nat) returns (ret: int, changed: bool, handed: Option<Request>)
      modifies this
      ensures Outcome(View(), ret, changed, handed) == Collect(old(View()), info, quorum)
    {
      handed := None;
      if committed || status == Executed || sn != info.request.sn {
        return -2, false, None;
      }
      match info.request.kind
      case PrePrepare => ret, changed := AddMainRequest(info, quorum);
      case Prepare => ret, changed := AddPrepare(info, quorum);
      case Commit => ret, changed, handed := AddCommit(info, quorum);
    }

    method AddMainRequest(info: RequestInfo, quorum: nat) returns (ret: int, changed: bool)
      modifies this
      ensures Outcome(View(), ret, changed, None) == AddProposal(old(View()), info, quorum)
    {
      var force := false;
      if 0 < view < info.request.view && !prepared {
        force, main := true, Vacant;
      }
      if main != Vacant {
        others := others + [info];
        return -2, false;
      }
      main, view := Held(info), info.request.view;
      var change := MayChangeStatus(PrePrepare, 1, status, quorum, force);
      status, changed, ret := change.0, change.1, 0;
    }

    method AddPrepare(info: RequestInfo, quorum: nat) returns (ret: int, changed: bool)
      modifies this
      ensures Outcome(View(), ret, changed, None)
           == if viewChange then AddPrepareProof(old(View()), info, quorum)
               else AddPrepareVote(old(View()), info, quorum)
    {
      ret, changed := 0, false;
      var d := info.request.hash;
      if viewChange && (Rank(status) > Rank(ReadyPrepare) || prepared) {
        return;
      }
      if viewChange {
        proofs := proofs + [info];
      }
      prepares := Vote(prepares, d, info.request.sender);
      var change := MayChangeStatus(Prepare, |prepares[d]|, status, quorum, false);
      status, changed := change.0, change.1;
      if viewChange && status == ReadyCommit {
        BecomePrepared(d);
      }
    }

    /** Settles on digest `d`: adopt a proposal for it and keep only its proofs. */
    method BecomePrepared(d: Digest)
      modifies this`prepared, this`main, this`others, this`proofs
      ensures View() == AdoptProposal(old(View()).(prepared := true, proofs := WithHash(old(proofs), d)), d)
    {
      prepared := true;
      if main.Held? && main.info.request.hash != d {
        FindProposal(d);
      }
      KeepProofs(d);
    }

    method AddCommit(info: RequestInfo, quorum: nat) returns (ret: int, changed: bool, handed: Option<Request>)
      modifies this
      ensures Outcome(View(), ret, changed, handed) == AddCommitVote(old(View()), info, quorum)
    {
      ret, handed := 0, None;
      commits := Vote(commits, info.request.hash, info.request.sender);
      var change := MayChangeStatus(Commit, |commits[info.request.hash]|, status, quorum, false);
      status, changed := change.0, change.1;
      if status == ReadyExecute {
        status, ret := Executed, 1;
        if main.Held? {
          committed, handed, main := true, Some(main.info.request), Taken(main.info.request);
        }
      }
    }

    /** Replaces the main request by the first stored proposal with this digest and forgets the others. */
    method FindProposal(d: Digest)
      modifies this`main, this`others
      ensures others == []
      ensures main == if WithHash(old(others), d) == [] then Vacant else Held(WithHash(old(others), d)[0])
    {
      main := Vacant;
      var i := 0;
      while i < |others|
        invariant 0 <= i <= |others|
        invariant main == Vacant && others == old(others)
        invariant WithHash(others[..i], d) == []
      {
        assert others[..i + 1][..i] == others[..i];
        if others[i].request.hash == d {
          main := Held(others[i]);
          WithHashAppend(others[..i + 1], others[i + 1..], d);
          assert others[..i + 1] + others[i + 1..] == others;
          break;
        }
        i := i + 1;
      }
      assert main == Vacant ==> others[..i] == others;
      others := [];
    }

    /** Moves the proofs for this digest to the front, in order, and drops the rest. */
    method KeepProofs(d: Digest)
      modifies this`proofs
      ensures proofs == WithHash(old(proofs), d)
    {
      var pos, i := 0, 0;
      while i < |proofs|
        invariant 0 <= pos <= i <= |proofs| == |old(proofs)|
        invariant proofs[..pos] == WithHash(old(proofs)[..i], d)
        invariant proofs[i..] == old(proofs)[i..]
      {
        assert proofs[i] == old(proofs)[i] by { assert proofs[i..][0] == old(proofs)[i..][0]; }
        assert proofs[i + 1..] == old(proofs)[i + 1..] by { assert proofs[i..][1..] == proofs[i + 1..]; }
        assert old(proofs)[..i + 1][..i] == old(proofs)[..i];
        if proofs[i].request.hash == d {
          ghost var kept := proofs[..pos];
          proofs := proofs[pos := proofs[i]];
          pos := pos + 1;
          assert proofs[..pos] == kept + [old(proofs)[i]];
        }
        i := i + 1;
      }
      assert old(proofs)[..i] == old(proofs);
      proofs := proofs[..pos];
    }
  }

  lemma {:induction false} WithHashAppend(a: seq<RequestInfo>, b: seq<RequestInfo>, d: Digest)
    ensures WithHash(a + b, d) == WithHash(a, d) + WithHash(b, d)
  {
    if b == [] {
      assert a + b == a;
    } else {
      var n := |b| - 1;
      var last := if b[n].request.hash == d then [b[n]] else [];
      WithHashAppend(a, b[..n], d);
      WithHashLast(b, d);
      WithHashLast(a + b, d);
      assert (a + b)[..|a + b| - 1] == a + b[..n];
      Regroup(WithHash(a, d), WithHash(b[..n], d), last);
    }
  }

  lemma Regroup<T>(a: seq<T>, b: seq<T>, c: seq<T>)
    ensures (a + b) + c == a + (b + c)
  {
  }

  lemma WithHashLast(s: seq<RequestInfo>, d: Digest)
    requires s != []
    ensures WithHash(s, d) == WithHash(s[..|s| - 1], d) + if s[|s| - 1].request.hash == d then [s[|s| - 1]] else []
  {
  }

  lemma {:induction false} WithHashMembers(infos: seq<RequestInfo>, d: Digest)
    ensures forall i :: i in WithHash(infos, d) <==> i in infos && i.request.hash == d
  {
    if infos != [] {
      WithHashMembers(infos[..|infos| - 1], d);
      assert infos == infos[..|infos| - 1] + [infos[|infos| - 1]];
    }
  }
}
