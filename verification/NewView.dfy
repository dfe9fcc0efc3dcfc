/** `ViewChangeManager`: computing the redo list and accepting a NEW-VIEW message. */
module NewView {
  import opened Messages
  import opened OrderedKeys
  import opened Selection
  import opened ViewChange

  datatype NewViewMessage = NewViewMessage(view: nat, msgs: seq<ViewChangeMessage>, requests: seq<Request>)

  datatype Phase = Normal | ReadyViewChange | ReadyNewView | ViewChangeFail

  /** `IsValidViewChangeMsg`; `checkpointOk` and `verify` stand for the signature checks. */
  predicate ValidViewChange(current: nat, msg: ViewChangeMessage, checkpointOk: bool, verify: RequestInfo -> bool,
                            quorum: nat) {
    && msg.view > current
    && checkpointOk
    && forall p :: p in msg.prepared && p.sn > msg.stable ==>
         |p.proofs| >= quorum && forall q :: q in p.proofs ==> q.request.sn == p.sn && verify(q)
  }

  function NumbersOf(requests: seq<Request>): set<nat> {
    set q | q in requests :: q.sn
  }

  /** As many requests, with the same payloads; nothing else is compared. */
  ghost predicate EqualData(redo: seq<Request>, requests: seq<Request>, data: Request -> string) {
    |redo| == |requests| && forall i :: 0 <= i < |redo| ==> data(redo[i]) == data(requests[i])
  }

  predicate IsProposal(q: Request) {
    q.kind == PrePrepare
  }

  predicate IsVote(q: Request) {
    q.kind != PrePrepare
  }

  /** The proposals in `own` and the rest in `broadcast`, each request in one of them, both in the list's order. */
  ghost predicate SplitByKind(requests: seq<Request>, own: seq<Request>, broadcast: seq<Request>) {
    && (forall q :: q in own ==> q.kind == PrePrepare) && (forall q :: q in broadcast ==> q.kind != PrePrepare)
    && multiset(own) + multiset(broadcast) == multiset(requests)
    && IsFilter(requests, own, IsProposal) && IsFilter(requests, broadcast, IsVote)
  }

  /** Raised from `low` to the greatest number broadcast, if that is above. */
  ghost predicate Raised(low: nat, high: nat, broadcast: seq<Request>) {
    && low <= high && (forall q :: q in broadcast ==> q.sn <= high)
    && (high == low || exists q :: q in broadcast && q.sn == high)
  }

  /** The hashes stored by the collectors of the numbers that start afresh, and no others, may be proposed again. */
  ghost predicate Released(requests: seq<Request>, stored: nat -> set<Digest>, erased: set<Digest>) {
    forall h :: h in erased <==> exists q :: q in requests && q.kind == PrePrepare && h in stored(q.sn)
  }

  lemma ReleasedNext(requests: seq<Request>, q: Request, stored: nat -> set<Digest>, erased: set<Digest>)
    requires Released(requests, stored, erased)
    ensures Released(requests + [q], stored, if q.kind == PrePrepare then erased + stored(q.sn) else erased)
  {
    var erased' := if q.kind == PrePrepare then erased + stored(q.sn) else erased;
    forall h | h in erased' ensures exists q' :: q' in requests + [q] && q'.kind == PrePrepare && h in stored(q'.sn) {
      if h in erased {
        var w :| w in requests && w.kind == PrePrepare && h in stored(w.sn);
        assert w in requests + [q];
      } else {
        assert q in requests + [q];
      }
    }
  }

  /** The later of the highest stable checkpoint and the last redo entry. */
  function LastTaken(msgs: seq<ViewChangeMessage>, redo: seq<Request>): nat {
    if redo == [] then MaxStable(msgs) else Max(MaxStable(msgs), redo[|redo| - 1].sn)
  }

  class ViewChangeManager {
    const replicas: seq<nat>
    const self: nat
    const quorum: nat
    var view: nat
    var primary: nat
    var nextSeq: nat
    var highestPrepared: nat
    var counter: nat
    var phase: Phase
    var received: map<nat, map<nat, ViewChangeMessage>>
    var newViewSent: bool

    /** The primary is the replica whose turn the view is. */
    ghost predicate Valid()
      reads this
    {
      && replicas != [] && counter >= 1 && view >= 1
      && primary == replicas[(view - 1) % |replicas|]
    }

    constructor (replicas: seq<nat>, self: nat, quorum: nat)
      requires replicas != []
      ensures Valid() && view == 1 && this.replicas == replicas && this.self == self && this.quorum == quorum
      ensures nextSeq == counter == 1 && highestPrepared == 0 && phase == Normal && received == map[] && !newViewSent
    {
      this.replicas, this.self, this.quorum := replicas, self, quorum;
      view, primary, nextSeq, highestPrepared, counter, phase := 1, replicas[0], 1, 0, 1, Normal;
      received, newViewSent := map[], false;
    }

    method IsValidViewChangeMsg(msg: ViewChangeMessage, checkpointOk: bool, verify: RequestInfo -> bool)
      returns (ok: bool)
      ensures ok == ValidViewChange(view, msg, checkpointOk, verify, quorum)
      ensures ok <==>
        && view < msg.view && checkpointOk
        && forall p :: p in msg.prepared && p.sn > msg.stable ==>
             |p.proofs| >= quorum && forall q :: q in p.proofs ==> q.request.sn == p.sn && verify(q)
    {
      if msg.view <= view || !checkpointOk {
        return false;
      }
      for i := 0 to |msg.prepared|
        invariant forall p :: p in msg.prepared[..i] && p.sn > msg.stable ==>
          |p.proofs| >= quorum && forall q :: q in p.proofs ==> q.request.sn == p.sn && verify(q)
      {
        var p := msg.prepared[i];
        assert p in msg.prepared;
        if p.sn <= msg.stable {
          continue;
        }
        if |p.proofs| < quorum {
          return false;
        }
        for j := 0 to |p.proofs|
          invariant forall q :: q in p.proofs[..j] ==> q.request.sn == p.sn && verify(q)
        {
          assert p.proofs[j] in p.proofs;
          if p.proofs[j].request.sn != p.sn || !verify(p.proofs[j]) {
            return false;
          }
        }
        assert p.proofs[..|p.proofs|] == p.proofs;
      }
      assert msg.prepared[..|msg.prepared|] == msg.prepared;
      return true;
    }

    /** `GetPrepareMsg`: collect the prepared entries, then one request per number. */
    method GetPrepareMsg(msgs: seq<ViewChangeMessage>, newView: nat, unsigned: set<nat>) returns (redo: seq<Request>)
      requires Proved(Flatten(msgs))
      ensures redo == RedoList(msgs, newView, self, unsigned)
    {
      var latest := CollectPrepared(msgs);
      var min := LowestStable(msgs);
      var last := if |latest| > 0 then Greatest(latest.Keys) else 1;
      assert last == Highest(latest) by { assert |latest| > 0 <==> latest != map[]; }
      redo := RedoRange(latest, (min + 1) % (MAX64 + 1), last, newView, unsigned);
    }

    method LowestStable(msgs: seq<ViewChangeMessage>) returns (min: nat)
      ensures min == MinStable(msgs)
    {
      min := MAX64;
      for i := 0 to |msgs|
        invariant min == MinStable(msgs[..i])
      {
        assert msgs[..i + 1][..i] == msgs[..i];
        min := Min(min, msgs[i].stable);
      }
      assert msgs[..|msgs|] == msgs;
    }

    method RedoRange(latest: map<nat, Request>, first: nat, last: nat, newView: nat, unsigned: set<nat>)
      returns (redo: seq<Request>)
      ensures redo == Redo(latest, first, last, newView, self, unsigned)
    {
      redo := [];
      var i := first;
      while i <= last
        invariant redo + Redo(latest, i, last, newView, self, unsigned)
               == Redo(latest, first, last, newView, self, unsigned)
        decreases last + 1 - i
      {
        SplitRedo(redo, latest, i, last, newView, self, unsigned);
        var item := RedoItem(latest, i, newView, unsigned);
        redo := redo + item;
        i := i + 1;
      }
    }

    /** A null request for a hole, skipped when it cannot be signed; otherwise a COMMIT for the prepared digest. */
    method RedoItem(latest: map<nat, Request>, i: nat, newView: nat, unsigned: set<nat>) returns (item: seq<Request>)
      ensures item == RedoAt(latest, i, newView, self, unsigned)
    {
      item := [];
      if i !in latest {
        if i !in unsigned {
          item := [NullRequest(i, newView, self)];
        }
      } else {
        item := [Request(Commit, newView, i, latest[i].hash, self)];
      }
    }

    /** The messages stored for a view, one per sender. */
    function ReceivedFor(v: nat): map<nat, ViewChangeMessage>
      reads this
    {
      if v in received then received[v] else map[]
    }

    /** The NEW-VIEW over everything stored for a view, in sender order. */
    function NewViewFor(v: nat, unsigned: set<nat>): NewViewMessage
      requires Proved(Flatten(ByKey(ReceivedFor(v))))
      reads this
    {
      var msgs := ByKey(ReceivedFor(v));
      NewViewMessage(v, msgs, RedoList(msgs, v, self, unsigned))
    }

    method AddRequest(msg: ViewChangeMessage, sender: nat) returns (count: nat)
      modifies this`received
      ensures received == old(received)[msg.view := old(ReceivedFor(msg.view))[sender := msg]]
      ensures count == |ReceivedFor(msg.view)|
    {
      received := received[msg.view := ReceivedFor(msg.view)[sender := msg]];
      count := |received[msg.view]|;
    }

    method SendNewViewMsg(v: nat, unsigned: set<nat>) returns (newView: Option<NewViewMessage>)
      requires !newViewSent ==> Proved(Flatten(ByKey(ReceivedFor(v))))
      modifies this`newViewSent
      ensures newViewSent && (newView == None <==> old(newViewSent))
      ensures !old(newViewSent) ==> newView == Some(NewViewFor(v, unsigned))
    {
      if newViewSent {
        return None;
      }
      newViewSent := true;
      var msgs := ByKey(ReceivedFor(v));
      var redo := GetPrepareMsg(msgs, v, unsigned);
      newView := Some(NewViewMessage(v, msgs, redo));
    }

    /** This message makes the replica send its NEW-VIEW, for which it reads every stored entry's first proof. */
    ghost predicate Answers(msg: ViewChangeMessage, sender: nat, checkpointOk: bool, verify: RequestInfo -> bool)
      requires replicas != []
      reads this
    {
      && ValidViewChange(view, msg, checkpointOk, verify, quorum) && !newViewSent
      && |ReceivedFor(msg.view)[sender := msg]| >= quorum && self == replicas[(msg.view - 1) % |replicas|]
    }

    /**
      * `ProcessViewChange` with `SendNewViewMsg`: a valid message is filed under its view and sender. The
      * replica whose turn it is answers, at most once ever, with a NEW-VIEW over the messages of at least
      * `quorum` distinct senders, in sender order, and their redo list.
      */
    method ProcessViewChange(msg: ViewChangeMessage, sender: nat, checkpointOk: bool, verify: RequestInfo -> bool,
                             unsigned: set<nat>)
      returns (ret: int, newView: Option<NewViewMessage>)
      requires Valid()
      requires Answers(msg, sender, checkpointOk, verify) ==>
        Proved(Flatten(ByKey(ReceivedFor(msg.view)[sender := msg])))
      modifies this`received, this`newViewSent, this`phase
      ensures Valid()
      ensures ret == if ValidViewChange(view, msg, checkpointOk, verify, quorum) then 0 else -2
      ensures ret == -2 ==> unchanged(this) && newView == None
      ensures ret != -2 ==> received == old(received)[msg.view := old(ReceivedFor(msg.view))[sender := msg]]
      ensures newView.Some? <==> old(Answers(msg, sender, checkpointOk, verify))
      ensures newViewSent == (old(newViewSent) || newView.Some?)
      ensures phase == if ret != -2 && |ReceivedFor(msg.view)| >= quorum then ReadyNewView else old(phase)
      ensures newView.Some? ==>
        Proved(Flatten(ByKey(ReceivedFor(msg.view)))) && newView.value == NewViewFor(msg.view, unsigned)
    {
      newView := None;
      var ok := IsValidViewChangeMsg(msg, checkpointOk, verify);
      if !ok {
        return -2, None;
      }
      var count := AddRequest(msg, sender);
      if count >= quorum {
        if self == replicas[(msg.view - 1) % |replicas|] {
          newView := SendNewViewMsg(msg.view, unsigned);
        }
        phase := ReadyNewView;
      }
      ret := 0;
    }

    method CollectPrepared(msgs: seq<ViewChangeMessage>) returns (latest: map<nat, Request>)
      requires Proved(Flatten(msgs))
      ensures latest == Latest(Flatten(msgs))
    {
      latest := map[];
      FlattenProved(msgs);
      assert Flatten(msgs[..0]) == [];
      for i := 0 to |msgs|
        invariant Proved(Flatten(msgs[..i])) && latest == Latest(Flatten(msgs[..i]))
      {
        assert msgs[..i + 1][..i] == msgs[..i];
        assert msgs[i] in msgs;
        latest := TakeEntries(latest, msgs[i].prepared, Flatten(msgs[..i]));
      }
      assert msgs[..|msgs|] == msgs;
    }

    /** The inner loop: one message's entries on top of those already seen. */
    method TakeEntries(before: map<nat, Request>, entries: seq<PreparedMsg>, ghost seen: seq<PreparedMsg>)
      returns (latest: map<nat, Request>)
      requires Proved(seen) && Proved(entries) && before == Latest(seen)
      ensures Proved(seen + entries) && latest == Latest(seen + entries)
    {
      latest := before;
      assert seen + entries[..0] == seen;
      for j := 0 to |entries|
        invariant Proved(seen + entries[..j]) && latest == Latest(seen + entries[..j])
      {
        var p := entries[j];
        assert p in entries;
        LatestNext(seen, entries, j);
        latest := latest[p.sn := p.proofs[0].request];
      }
      assert entries[..|entries|] == entries;
    }

    /** All messages of the NEW-VIEW pass: only then is the redo list computed from them. */
    ghost predicate Examined(nv: NewViewMessage, checkpointOk: bool, verify: RequestInfo -> bool)
      reads this
    {
      nv.view == view + counter && forall m :: m in nv.msgs ==> ValidViewChange(view, m, checkpointOk, verify, quorum)
    }

    /** Everything `ProcessNewView` checks before it moves to the new view; `data` is the payload of a request. */
    ghost predicate Acceptable(nv: NewViewMessage, checkpointOk: bool, verify: RequestInfo -> bool,
                               data: Request -> string)
      reads this
    {
      && Examined(nv, checkpointOk, verify) && Proved(Flatten(nv.msgs))
      && var redo := RedoList(nv.msgs, nv.view, self, {});
      && EqualData(redo, nv.requests, data)
      && forall i :: First(nv.msgs) <= i <= MaxStable(nv.msgs) ==> i in NumbersOf(redo)
    }

    /** Entry by entry and number by number, what that comes to. */
    lemma AcceptableExactly(nv: NewViewMessage, checkpointOk: bool, verify: RequestInfo -> bool,
                            data: Request -> string)
      requires Proved(Flatten(nv.msgs))
      ensures var redo := RedoList(nv.msgs, nv.view, self, {});
        Acceptable(nv, checkpointOk, verify, data) <==>
        && nv.view == view + counter && |redo| == |nv.requests|
        && (forall m :: m in nv.msgs ==>
              view < m.view && checkpointOk
              && forall p :: p in m.prepared && p.sn > m.stable ==>
                   |p.proofs| >= quorum && forall q :: q in p.proofs ==> q.request.sn == p.sn && verify(q))
        && (forall i :: 0 <= i < |redo| ==> data(redo[i]) == data(nv.requests[i]))
        && forall i :: First(nv.msgs) <= i <= MaxStable(nv.msgs) ==> i in NumbersOf(redo)
    {
    }

    /**
      * A NEW-VIEW is refused without effect, or accepted: the view strictly increases, the primary is the
      * replica whose turn it is, no number up to the highest stable checkpoint is missing from the redo
      * list, and numbering resumes after both that checkpoint and the last redo entry.
      */
    method ProcessNewView(nv: NewViewMessage, checkpointOk: bool, verify: RequestInfo -> bool, data: Request -> string,
                          stored: nat -> set<Digest>)
      returns (ret: int, own: seq<Request>, broadcast: seq<Request>, erased: set<Digest>)
      requires Valid() && (Examined(nv, checkpointOk, verify) ==> Proved(Flatten(nv.msgs)))
      modifies this
      ensures Valid() && counter == old(counter)
      ensures ret == -2 <==> !old(Acceptable(nv, checkpointOk, verify, data))
      ensures ret == -2 ==> unchanged(this) && own == broadcast == [] && erased == {}
      ensures ret != -2 ==> Proved(Flatten(nv.msgs))
      ensures ret != -2 ==>
        var redo := RedoList(nv.msgs, nv.view, self, {});
        && view == nv.view > old(view) && phase == Normal
        && ret == (if self == primary then -4 else 0)
        && nextSeq == 1 + LastTaken(nv.msgs, redo)
        && SplitByKind(nv.requests, own, broadcast) && Raised(old(highestPrepared), highestPrepared, broadcast)
        && Released(nv.requests, stored, erased)
    {
      own, broadcast := [], [];
      var ok, maxSeq := CheckNewView(nv, checkpointOk, verify, data);
      if !ok {
        return -2, [], [], {};
      }
      view := nv.view;
      primary := replicas[(view - 1) % |replicas|];
      nextSeq := maxSeq + 1;
      own, broadcast, erased := Redistribute(nv.requests, stored);
      phase := Normal;
      ret := if self == primary then -4 else 0;
    }

    /** The checks of `ProcessNewView`, and the last number already taken. */
    method CheckNewView(nv: NewViewMessage, checkpointOk: bool, verify: RequestInfo -> bool, data: Request -> string)
      returns (ok: bool, maxSeq: nat)
      requires Examined(nv, checkpointOk, verify) ==> Proved(Flatten(nv.msgs))
      ensures ok == Acceptable(nv, checkpointOk, verify, data)
      ensures ok ==> maxSeq == LastTaken(nv.msgs, RedoList(nv.msgs, nv.view, self, {}))
    {
      if nv.view != view + counter {
        return false, 0;
      }
      var valid, maxStable := CheckMessages(nv.msgs, checkpointOk, verify);
      if !valid {
        return false, 0;
      }
      var redo := GetPrepareMsg(nv.msgs, nv.view, {});
      var same := SameData(redo, nv.requests, data);
      if !same {
        return false, 0;
      }
      var numbers := NumbersOf(redo);
      ok := Covers(numbers, First(nv.msgs), maxStable);
      if ok {
        LastNumber(nv.msgs, nv.view, self);
        maxSeq := if numbers == {} then maxStable else Greatest(numbers);
        assert redo != [] ==> redo[0].sn in numbers;
      } else {
        maxSeq := 0;
      }
    }

    method SameData(redo: seq<Request>, requests: seq<Request>, data: Request -> string) returns (ok: bool)
      ensures ok == EqualData(redo, requests, data)
      ensures ok <==> |redo| == |requests| && forall i :: 0 <= i < |redo| ==> data(redo[i]) == data(requests[i])
    {
      if |redo| != |requests| {
        return false;
      }
      for i := 0 to |redo|
        invariant forall j :: 0 <= j < i ==> data(redo[j]) == data(requests[j])
      {
        if data(redo[i]) != data(requests[i]) {
          return false;
        }
      }
      return true;
    }

    method CheckMessages(msgs: seq<ViewChangeMessage>, checkpointOk: bool, verify: RequestInfo -> bool)
      returns (ok: bool, maxStable: nat)
      ensures ok == forall m :: m in msgs ==> ValidViewChange(view, m, checkpointOk, verify, quorum)
      ensures ok ==> maxStable == MaxStable(msgs)
    {
      maxStable := 0;
      for i := 0 to |msgs|
        invariant maxStable == MaxStable(msgs[..i])
        invariant forall m :: m in msgs[..i] ==> ValidViewChange(view, m, checkpointOk, verify, quorum)
      {
        assert msgs[..i + 1][..i] == msgs[..i];
        assert msgs[i] in msgs;
        maxStable := Max(maxStable, msgs[i].stable);
        ok := IsValidViewChangeMsg(msgs[i], checkpointOk, verify);
        if !ok {
          return;
        }
      }
      assert msgs[..|msgs|] == msgs;
      ok := true;
    }

    method Covers(numbers: set<nat>, first: nat, last: nat) returns (ok: bool)
      ensures ok == forall i :: first <= i <= last ==> i in numbers
    {
      var i := first;
      while i <= last
        invariant forall k :: first <= k < i ==> k in numbers
        decreases last + 1 - i
      {
        if i !in numbers {
          return false;
        }
        i := i + 1;
      }
      return true;
    }

    /**
      * A NEW-VIEW a correct primary computed from valid messages is accepted exactly when no null request
      * failed to be signed and the redo list reaches the highest stable checkpoint (or there is only one).
      */
    lemma CorrectNewViewAccepted(nv: NewViewMessage, newPrimary: nat, unsigned: set<nat>,
                                 checkpointOk: bool, verify: RequestInfo -> bool, data: Request -> string)
      requires nv.msgs != [] && Proved(Flatten(nv.msgs)) && MaxStable(nv.msgs) < MAX64
      requires Examined(nv, checkpointOk, verify) && SenderFree(data)
      requires nv.requests == RedoList(nv.msgs, nv.view, newPrimary, unsigned)
      ensures Acceptable(nv, checkpointOk, verify, data) <==>
        && AllSigned(nv.msgs, unsigned)
        && (MinStable(nv.msgs) == MaxStable(nv.msgs) || MaxStable(nv.msgs) <= Highest(Latest(Flatten(nv.msgs))))
    {
      var latest := Latest(Flatten(nv.msgs));
      RedoSize(latest, First(nv.msgs), Highest(latest), nv.view, newPrimary, self, unsigned);
      if AllSigned(nv.msgs, unsigned) {
        RedoData(latest, First(nv.msgs), Highest(latest), nv.view, newPrimary, self, unsigned, data);
      }
      GapFree(nv.msgs, nv.view, self);
    }

    /** Three senders, two stable at 5 and one at 10 with nothing prepared above: the correct NEW-VIEW is refused. */
    lemma CheckpointsApartRefused(newPrimary: nat, v: nat, verify: RequestInfo -> bool, data: Request -> string)
      requires v == view + counter > view && SenderFree(data)
      ensures var msgs := Apart(v);
        && Proved(Flatten(msgs)) && (forall m :: m in msgs ==> ValidViewChange(view, m, true, verify, quorum))
        && !Acceptable(NewViewMessage(v, msgs, RedoList(msgs, v, newPrimary, {})), true, verify, data)
    {
      ApartFacts(v);
      CorrectNewViewAccepted(NewViewMessage(v, Apart(v), RedoList(Apart(v), v, newPrimary, {})), newPrimary, {}, true,
                             verify, data);
    }

    /**
      * Receivers compare payloads only, and PREPAREs, from which the redo list is made, carry none: with the
      * requests' digests replaced by any others an acceptable NEW-VIEW stays acceptable.
      */
    lemma OtherDigestsAccepted(nv: NewViewMessage, requests: seq<Request>, checkpointOk: bool,
                               verify: RequestInfo -> bool, data: Request -> string)
      requires Acceptable(nv, checkpointOk, verify, data) && |requests| == |nv.requests|
      requires (forall q: Request, x: Digest :: data(q) == data(q.(hash := x)))
      requires forall i :: 0 <= i < |requests| ==> requests[i] == nv.requests[i].(hash := requests[i].hash)
      ensures Acceptable(nv.(requests := requests), checkpointOk, verify, data)
    {
    }

    /**
      * Concretely: three valid messages prove digests for number 1, and a COMMIT for "x" is accepted as their redo
      * list.
      */
    lemma ChangedDigestAccepted(newPrimary: nat, v: nat, a: seq<RequestInfo>, b: seq<RequestInfo>,
                               verify: RequestInfo -> bool, data: Request -> string)
      requires v == view + counter > view && |a| >= quorum >= 1 && |b| >= quorum
      requires forall q :: q in a + b ==> q.request.sn == 1 && verify(q)
      requires SenderFree(data) && (forall q: Request, x: Digest :: data(q) == data(q.(hash := x)))
      ensures var nv := NewViewMessage(v, Conflicting(v, a, b), [Request(Commit, v, 1, "x", newPrimary)]);
        Acceptable(nv, true, verify, data)
    {
      var msgs := Conflicting(v, a, b);
      ConflictingRedo(v, newPrimary, a, b);
      var nv := NewViewMessage(v, msgs, RedoList(msgs, v, newPrimary, {}));
      CorrectNewViewAccepted(nv, newPrimary, {}, true, verify, data);
      OtherDigestsAccepted(nv, [Request(Commit, v, 1, "x", newPrimary)], true, verify, data);
    }

    /** Null requests go to this replica itself; the others are broadcast and raise the prepared mark. */
    method Redistribute(requests: seq<Request>, stored: nat -> set<Digest>)
      returns (own: seq<Request>, broadcast: seq<Request>, erased: set<Digest>)
      modifies this`highestPrepared
      ensures SplitByKind(requests, own, broadcast) && Raised(old(highestPrepared), highestPrepared, broadcast)
      ensures Released(requests, stored, erased)
    {
      own, broadcast, erased := [], [], {};
      FilterEmpty(IsProposal);
      FilterEmpty(IsVote);
      for i := 0 to |requests|
        invariant SplitByKind(requests[..i], own, broadcast)
        invariant Raised(old(highestPrepared), highestPrepared, broadcast)
        invariant Released(requests[..i], stored, erased)
      {
        var q := requests[i];
        ReleasedNext(requests[..i], q, stored, erased);
        SplitNext(requests[..i], own, broadcast, q);
        assert requests[..i + 1] == requests[..i] + [q];
        if q.kind == PrePrepare {
          erased := erased + stored(q.sn);
          own := own + [q];
        } else {
          RaisedNext(old(highestPrepared), highestPrepared, broadcast, q);
          highestPrepared := Max(highestPrepared, q.sn);
          broadcast := broadcast + [q];
        }
      }
      assert requests[..|requests|] == requests;
    }
  }

  lemma SplitNext(requests: seq<Request>, own: seq<Request>, broadcast: seq<Request>, q: Request)
    requires SplitByKind(requests, own, broadcast)
    ensures if q.kind == PrePrepare then SplitByKind(requests + [q], own + [q], broadcast)
            else SplitByKind(requests + [q], own, broadcast + [q])
  {
    FilterNext(requests, own, IsProposal, q);
    FilterNext(requests, broadcast, IsVote, q);
  }

  lemma RaisedNext(low: nat, high: nat, broadcast: seq<Request>, q: Request)
    requires Raised(low, high, broadcast)
    ensures Raised(low, Max(high, q.sn), broadcast + [q])
  {
    assert q in broadcast + [q];
    if high != low && q.sn <= high {
      var w :| w in broadcast && w.sn == high;
      assert w in broadcast + [q];
    }
  }

  lemma LatestNext(seen: seq<PreparedMsg>, entries: seq<PreparedMsg>, j: nat)
    requires j < |entries| && Proved(seen + entries[..j]) && entries[j].proofs != []
    ensures var before, after := seen + entries[..j], seen + entries[..j + 1];
      Proved(after) && Latest(after) == Latest(before)[entries[j].sn := entries[j].proofs[0].request]
  {
    var before, p := seen + entries[..j], entries[j];
    assert seen + entries[..j + 1] == before + [p];
    assert (before + [p])[..|before|] == before;
  }

  /** Three messages with nothing prepared, stable at 5, 5 and 10. */
  function Apart(v: nat): seq<ViewChangeMessage> {
    [ViewChangeMessage(v, 5, []), ViewChangeMessage(v, 5, []), ViewChangeMessage(v, 10, [])]
  }

  lemma ApartFacts(v: nat)
    ensures Flatten(Apart(v)) == [] && MinStable(Apart(v)) == 5 && MaxStable(Apart(v)) == 10
  {
    var a, b := ViewChangeMessage(v, 5, []), ViewChangeMessage(v, 10, []);
    assert [a, a, b][..2] == [a, a] && [a, a][..1] == [a] && [a][..0] == [];
    assert Flatten([a]) == [] && MinStable([a]) == 5 == MaxStable([a]);
    assert Flatten([a, a]) == [] && MinStable([a, a]) == 5 == MaxStable([a, a]);
  }

  /** The payload does not depend on who sends the request. */
  ghost predicate SenderFree(data: Request -> string) {
    forall q: Request, x: nat :: data(q) == data(q.(sender := x))
  }

  /** The same redo list computed by two replicas has the same payloads. */
  lemma {:induction false} RedoData(latest: map<nat, Request>, first: nat, last: nat, view: nat, a: nat, b: nat,
                                   unsigned: set<nat>, data: Request -> string)
    requires SenderFree(data) && forall i :: first <= i <= last && i in unsigned ==> i in latest
    ensures EqualData(Redo(latest, first, last, view, b, {}), Redo(latest, first, last, view, a, unsigned), data)
    decreases last + 1 - first
  {
    if first <= last {
      RedoData(latest, first + 1, last, view, a, b, unsigned, data);
      var x, y := RedoAt(latest, first, view, b, {}), RedoAt(latest, first, view, a, unsigned);
      assert |x| == |y| == 1 && x[0] == y[0].(sender := x[0].sender);
    }
  }

  // ----- entries without proofs

  /** Of valid messages, the entries all have a proof exactly when those at or below their sender's checkpoint do. */
  lemma ProvedExactly(current: nat, msgs: seq<ViewChangeMessage>, checkpointOk: bool, verify: RequestInfo -> bool,
                      quorum: nat)
    requires quorum >= 1 && forall m :: m in msgs ==> ValidViewChange(current, m, checkpointOk, verify, quorum)
    ensures Proved(Flatten(msgs)) <==>
      forall m, e :: m in msgs && e in m.prepared && e.sn <= m.stable ==> e.proofs != []
  {
    if Proved(Flatten(msgs)) {
      FlattenProved(msgs);
    }
    if forall m, e :: m in msgs && e in m.prepared && e.sn <= m.stable ==> e.proofs != [] {
      AllProved(msgs);
    }
  }

  lemma {:induction false} AllProved(msgs: seq<ViewChangeMessage>)
    requires forall m, e :: m in msgs && e in m.prepared ==> e.proofs != []
    ensures Proved(Flatten(msgs))
  {
    if msgs != [] {
      AllProved(msgs[..|msgs| - 1]);
      assert msgs[|msgs| - 1] in msgs;
    }
  }

  /** A message no receiver refuses, whose entry has no first proof to read. */
  lemma UnprovedValid(current: nat, v: nat, verify: RequestInfo -> bool, quorum: nat)
    requires v > current
    ensures var m := ViewChangeMessage(v, 5, [PreparedMsg(3, [])]);
      ValidViewChange(current, m, true, verify, quorum) && !Proved(Flatten([m]))
  {
    var m := ViewChangeMessage(v, 5, [PreparedMsg(3, [])]);
    assert [m][..0] == [] && Flatten([m]) == [PreparedMsg(3, [])];
    assert PreparedMsg(3, []) in Flatten([m]);
  }

  // ----- a later entry wins

  /** Three valid messages; two senders prepared different digests for number 1: the redo list carries the second's. */
  lemma LaterEntryWins(current: nat, view: nat, self: nat, a: seq<RequestInfo>, b: seq<RequestInfo>,
                       verify: RequestInfo -> bool, quorum: nat)
    requires view > current && |a| >= quorum >= 1 && |b| >= quorum && a[0].request.hash != b[0].request.hash
    requires forall q :: q in a + b ==> q.request.sn == 1 && verify(q)
    ensures var msgs := Conflicting(view, a, b);
      && (forall m :: m in msgs ==> ValidViewChange(current, m, true, verify, quorum)) && Proved(Flatten(msgs))
      && Request(Commit, view, 1, b[0].request.hash, self) in RedoList(msgs, view, self, {})
      && Request(Commit, view, 1, a[0].request.hash, self) !in RedoList(msgs, view, self, {})
  {
    ConflictingFacts(view, a, b);
    RedoCarries(Conflicting(view, a, b), view, self, {}, 1, a[0].request.hash);
    RedoCarries(Conflicting(view, a, b), view, self, {}, 1, b[0].request.hash);
  }

  function Conflicting(view: nat, a: seq<RequestInfo>, b: seq<RequestInfo>): seq<ViewChangeMessage> {
    [ViewChangeMessage(view, 0, []), ViewChangeMessage(view, 0, [PreparedMsg(1, a)]),
     ViewChangeMessage(view, 0, [PreparedMsg(1, b)])]
  }

  lemma ConflictingFacts(view: nat, a: seq<RequestInfo>, b: seq<RequestInfo>)
    ensures Flatten(Conflicting(view, a, b)) == [PreparedMsg(1, a), PreparedMsg(1, b)]
  {
    var msgs := Conflicting(view, a, b);
    assert msgs[..2] == [msgs[0], msgs[1]] && msgs[..2][..1] == [msgs[0]] && msgs[..1][..0] == [];
    assert Flatten(msgs[..1]) == [] && Flatten(msgs[..2]) == [PreparedMsg(1, a)];
  }

  lemma LatestOfTwo(x: PreparedMsg, y: PreparedMsg)
    requires x.proofs != [] && y.proofs != [] && x.sn == y.sn
    ensures Proved([x, y]) && Latest([x, y]) == map[x.sn := y.proofs[0].request]
  {
    assert [x, y][..1] == [x] && [x][..0] == [];
    assert Latest([x]) == map[x.sn := x.proofs[0].request];
  }

  lemma ConflictingRedo(view: nat, self: nat, a: seq<RequestInfo>, b: seq<RequestInfo>)
    requires a != [] && b != []
    ensures var msgs := Conflicting(view, a, b);
      && Proved(Flatten(msgs)) && MinStable(msgs) == MaxStable(msgs) == 0
      && RedoList(msgs, view, self, {}) == [Request(Commit, view, 1, b[0].request.hash, self)]
  {
    var msgs := Conflicting(view, a, b);
    ConflictingFacts(view, a, b);
    var x, y := PreparedMsg(1, a), PreparedMsg(1, b);
    LatestOfTwo(x, y);
    StableBounds(msgs);
    assert msgs[0] in msgs && msgs[0].stable == 0;
    var latest := Latest(Flatten(msgs));
    assert latest.Keys == {1} && Highest(latest) == 1;
    assert Redo(latest, 2, 1, view, self, {}) == [];
    assert Redo(latest, 1, 1, view, self, {}) == RedoAt(latest, 1, view, self, {}) + [];
  }

  lemma SplitRedo(before: seq<Request>, latest: map<nat, Request>, i: nat, last: nat, view: nat, self: nat,
                  unsigned: set<nat>)
    requires i <= last
    ensures before + Redo(latest, i, last, view, self, unsigned)
         == (before + RedoAt(latest, i, view, self, unsigned)) + Redo(latest, i + 1, last, view, self, unsigned)
  {
    var item, rest := RedoAt(latest, i, view, self, unsigned), Redo(latest, i + 1, last, view, self, unsigned);
    assert before + (item + rest) == (before + item) + rest;
  }

  lemma {:induction false} FlattenProved(msgs: seq<ViewChangeMessage>)
    requires Proved(Flatten(msgs))
    ensures forall m :: m in msgs ==> Proved(m.prepared)
  {
    if msgs != [] {
      FlattenProved(msgs[..|msgs| - 1]);
      assert msgs == msgs[..|msgs| - 1] + [msgs[|msgs| - 1]];
    }
  }

  lemma RedoBounds(msgs: seq<ViewChangeMessage>, view: nat, self: nat)
    requires Proved(Flatten(msgs)) && RedoList(msgs, view, self, {}) != []
    ensures var redo, last := RedoList(msgs, view, self, {}), Highest(Latest(Flatten(msgs)));
      && First(msgs) <= last && redo[|redo| - 1].sn == last
      && forall q :: q in redo ==> q.sn <= last
  {
    var latest := Latest(Flatten(msgs));
    RedoEnds(latest, First(msgs), Highest(latest), view, self);
    RedoBelow(latest, First(msgs), Highest(latest), view, self);
  }

  lemma RedoEnds(latest: map<nat, Request>, first: nat, last: nat, view: nat, self: nat)
    requires Redo(latest, first, last, view, self, {}) != []
    ensures var redo := Redo(latest, first, last, view, self, {}); first <= last && redo[|redo| - 1].sn == last
  {
    assert first <= last;
    RedoInOrder(latest, first, last, view, self, last);
  }

  lemma RedoBelow(latest: map<nat, Request>, first: nat, last: nat, view: nat, self: nat)
    ensures forall q :: q in Redo(latest, first, last, view, self, {}) ==> q.sn <= last
  {
    forall q | q in Redo(latest, first, last, view, self, {}) ensures q.sn <= last {
      RedoMembers(latest, first, last, view, self, {}, q);
    }
  }

  /** The greatest number of a redo list without gaps up to the stable checkpoints is that of its last entry. */
  lemma LastNumber(msgs: seq<ViewChangeMessage>, view: nat, self: nat)
    requires Proved(Flatten(msgs))
    requires forall i :: First(msgs) <= i <= MaxStable(msgs) ==> i in NumbersOf(RedoList(msgs, view, self, {}))
    ensures var redo := RedoList(msgs, view, self, {});
      redo != [] ==> NumbersOf(redo) != {} && Greatest(NumbersOf(redo)) == LastTaken(msgs, redo)
  {
    var redo := RedoList(msgs, view, self, {});
    if redo != [] {
      RedoBounds(msgs, view, self);
      StableBounds(msgs);
      var last := redo[|redo| - 1];
      assert last in redo && last.sn in NumbersOf(redo);
      assert MaxStable(msgs) in NumbersOf(redo) ==> MaxStable(msgs) <= last.sn;
    }
  }

  /** No hole of the redo list lost its null request to a signing failure. */
  ghost predicate AllSigned(msgs: seq<ViewChangeMessage>, unsigned: set<nat>)
    requires Proved(Flatten(msgs))
  {
    var latest := Latest(Flatten(msgs));
    forall i :: First(msgs) <= i <= Highest(latest) && i in unsigned ==> i in latest
  }

  lemma {:induction false} RedoSize(latest: map<nat, Request>, first: nat, last: nat, view: nat, a: nat, b: nat,
                                    unsigned: set<nat>)
    ensures |Redo(latest, first, last, view, a, unsigned)| <= |Redo(latest, first, last, view, b, {})|
    ensures |Redo(latest, first, last, view, a, unsigned)| == |Redo(latest, first, last, view, b, {})| <==>
      forall i :: first <= i <= last && i in unsigned ==> i in latest
    decreases last + 1 - first
  {
    if first <= last {
      RedoSize(latest, first + 1, last, view, a, b, unsigned);
    }
  }

  /** The redo list has every number up to the highest stable checkpoint exactly when it reaches that far. */
  lemma RedoCovers(latest: map<nat, Request>, first: nat, last: nat, view: nat, self: nat, i: nat)
    requires first <= i <= last
    ensures i in NumbersOf(Redo(latest, first, last, view, self, {}))
  {
    RedoInOrder(latest, first, last, view, self, i);
    var redo := Redo(latest, first, last, view, self, {});
    assert redo[i - first] in redo && redo[i - first].sn == i;
  }

  lemma GapFree(msgs: seq<ViewChangeMessage>, view: nat, self: nat)
    requires msgs != [] && Proved(Flatten(msgs)) && MaxStable(msgs) < MAX64
    ensures (forall i :: First(msgs) <= i <= MaxStable(msgs) ==> i in NumbersOf(RedoList(msgs, view, self, {}))) <==>
      (MinStable(msgs) == MaxStable(msgs) || MaxStable(msgs) <= Highest(Latest(Flatten(msgs))))
  {
    var latest := Latest(Flatten(msgs));
    var redo, first, last, max := RedoList(msgs, view, self, {}), First(msgs), Highest(latest), MaxStable(msgs);
    StableBounds(msgs);
    FirstFollows(msgs);
    if max <= last {
      forall i | first <= i <= max ensures i in NumbersOf(redo) {
        RedoCovers(latest, first, last, view, self, i);
      }
    } else if first <= max {
      RedoBelow(latest, first, last, view, self);
      assert max !in NumbersOf(redo);
    }
  }
}
