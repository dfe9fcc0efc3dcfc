/** View-change messages and the redo list a new primary computes from them. */
module ViewChange {
  import opened Messages
  import Decimal
  import opened OrderedKeys
  import C = Collector
  import opened CollectorPool

  datatype PreparedMsg = PreparedMsg(sn: nat, proofs: seq<RequestInfo>)

  /** A view-change message: the sender's stable checkpoint and what it has prepared above it. */
  datatype ViewChangeMessage = ViewChangeMessage(view: nat, stable: nat, prepared: seq<PreparedMsg>)

  /**
    * `SendViewChangeMsg`: one entry for each number in (low, high] whose slot is prepared or further. Which
    * number the slot holds is not looked at.
    */
  function PreparedEntries(capacity: nat, ring: seq<C.State>, low: nat, high: nat): seq<PreparedMsg>
    requires capacity >= 1 && |ring| == 2 * capacity
    decreases high
  {
    if high <= low then []
    else
      var c := ring[SlotOf(capacity, high)];
      PreparedEntries(capacity, ring, low, high - 1)
        + if C.Rank(c.status) >= C.Rank(C.ReadyCommit) then [PreparedMsg(high, c.proofs)] else []
  }

  ghost predicate ByNumber(es: seq<PreparedMsg>, low: nat, high: nat) {
    && (forall i :: 0 <= i < |es| ==> low < es[i].sn <= high)
    && forall i, j :: 0 <= i < j < |es| ==> es[i].sn < es[j].sn
  }

  /** The entries come in the order of their numbers, one per number at most. */
  lemma {:induction false} EntriesAscend(capacity: nat, ring: seq<C.State>, low: nat, high: nat)
    requires capacity >= 1 && |ring| == 2 * capacity
    ensures ByNumber(PreparedEntries(capacity, ring, low, high), low, high)
    decreases high
  {
    if low < high {
      EntriesAscend(capacity, ring, low, high - 1);
      ByNumberNext(PreparedEntries(capacity, ring, low, high - 1), ring[SlotOf(capacity, high)].proofs, low, high);
    }
  }

  lemma ByNumberNext(es: seq<PreparedMsg>, proofs: seq<RequestInfo>, low: nat, high: nat)
    requires low < high && ByNumber(es, low, high - 1)
    ensures ByNumber(es, low, high) && ByNumber(es + [PreparedMsg(high, proofs)], low, high)
    ensures es + [] == es
  {
  }

  /** All entries of all messages, in message order then entry order. */
  function Flatten(msgs: seq<ViewChangeMessage>): seq<PreparedMsg> {
    if msgs == [] then [] else Flatten(msgs[..|msgs| - 1]) + msgs[|msgs| - 1].prepared
  }

  /** `proof(0)` exists for every entry. */
  predicate Proved(entries: seq<PreparedMsg>) {
    forall e :: e in entries ==> e.proofs != []
  }

  /** `prepared_msg[seq] = proof(0)`: a later entry for a number replaces an earlier one. */
  function Latest(entries: seq<PreparedMsg>): (m: map<nat, Request>)
    requires Proved(entries)
  {
    if entries == [] then map[]
    else
      var last := entries[|entries| - 1];
      Latest(entries[..|entries| - 1])[last.sn := last.proofs[0].request]
  }

  function MinStable(msgs: seq<ViewChangeMessage>): nat {
    if msgs == [] then MAX64 else Min(MinStable(msgs[..|msgs| - 1]), msgs[|msgs| - 1].stable)
  }

  function MaxStable(msgs: seq<ViewChangeMessage>): nat {
    if msgs == [] then 0 else Max(MaxStable(msgs[..|msgs| - 1]), msgs[|msgs| - 1].stable)
  }

  /** The greatest prepared number, or 1 if there is none. */
  function Highest(latest: map<nat, Request>): nat {
    if latest == map[] then 1 else Greatest(latest.Keys)
  }

  /** Unsigned increment: the empty message set starts the redo list at 0. */
  function First(msgs: seq<ViewChangeMessage>): nat {
    (MinStable(msgs) + 1) % (MAX64 + 1)
  }

  function NullRequest(sn: nat, view: nat, self: nat): Request {
    Request(PrePrepare, view, sn, "null" + Decimal.PrintNat(sn), self)
  }

  /** Null requests for different numbers have different digests. */
  lemma NullDigests(a: nat, b: nat, view: nat, self: nat)
    requires a != b
    ensures NullRequest(a, view, self).hash != NullRequest(b, view, self).hash
  {
    Decimal.NatRoundTrip(a);
    Decimal.NatRoundTrip(b);
    var x, y := NullRequest(a, view, self).hash, NullRequest(b, view, self).hash;
    assert x[4..] == Decimal.PrintNat(a) && y[4..] == Decimal.PrintNat(b);
  }

  /** The redo request for one number: nothing when signing a null request fails. */
  function RedoAt(latest: map<nat, Request>, sn: nat, view: nat, self: nat, unsigned: set<nat>): seq<Request> {
    if sn in latest then [Request(Commit, view, sn, latest[sn].hash, self)]
    else if sn in unsigned then []
    else [NullRequest(sn, view, self)]
  }

  /** The redo requests for first..last, in order. */
  function Redo(latest: map<nat, Request>, first: nat, last: nat, view: nat, self: nat,
                unsigned: set<nat>): seq<Request>
    decreases last + 1 - first
  {
    if first > last then []
    else RedoAt(latest, first, view, self, unsigned) + Redo(latest, first + 1, last, view, self, unsigned)
  }

  function RedoList(msgs: seq<ViewChangeMessage>, view: nat, self: nat, unsigned: set<nat>): seq<Request>
    requires Proved(Flatten(msgs))
  {
    Redo(Latest(Flatten(msgs)), First(msgs), Highest(Latest(Flatten(msgs))), view, self, unsigned)
  }

  // ----- what the redo list contains

  /** The last entry for a number, in message order. */
  function LastFor(entries: seq<PreparedMsg>, sn: nat): (e: Option<PreparedMsg>)
    ensures e.Some? ==> e.value in entries && e.value.sn == sn
    ensures e.None? ==> forall x :: x in entries ==> x.sn != sn
  {
    if entries == [] then None
    else
      var last := entries[|entries| - 1];
      assert entries == entries[..|entries| - 1] + [last];
      if last.sn == sn then Some(last) else LastFor(entries[..|entries| - 1], sn)
  }

  lemma {:induction false} LatestIsLast(entries: seq<PreparedMsg>, sn: nat)
    requires Proved(entries)
    ensures sn in Latest(entries) <==> LastFor(entries, sn).Some?
    ensures sn in Latest(entries) ==> Latest(entries)[sn] == LastFor(entries, sn).value.proofs[0].request
  {
    if entries != [] && entries[|entries| - 1].sn != sn {
      LatestIsLast(entries[..|entries| - 1], sn);
    }
  }

  lemma {:induction false} RedoMembers(latest: map<nat, Request>, first: nat, last: nat, view: nat, self: nat,
                                      unsigned: set<nat>, q: Request)
    ensures q in Redo(latest, first, last, view, self, unsigned)
       <==> first <= q.sn <= last && q in RedoAt(latest, q.sn, view, self, unsigned)
    decreases last + 1 - first
  {
    if first <= last {
      RedoMembers(latest, first + 1, last, view, self, unsigned, q);
    }
  }

  /** Without signing failures the redo list has exactly one request per number, in order. */
  lemma {:induction false} RedoInOrder(latest: map<nat, Request>, first: nat, last: nat, view: nat, self: nat, i: nat)
    requires first <= i <= last
    ensures var redo := Redo(latest, first, last, view, self, {});
      && |redo| == last + 1 - first
      && [redo[i - first]] == RedoAt(latest, i, view, self, {})
    decreases last + 1 - first
  {
    RedoFront(latest, first, last, view, self);
    if first < i {
      RedoInOrder(latest, first + 1, last, view, self, i);
    } else if first < last {
      RedoInOrder(latest, first + 1, last, view, self, first + 1);
    } else {
      assert Redo(latest, first + 1, last, view, self, {}) == [];
    }
  }

  lemma RedoFront(latest: map<nat, Request>, first: nat, last: nat, view: nat, self: nat)
    requires first <= last
    ensures |RedoAt(latest, first, view, self, {})| == 1
    ensures Redo(latest, first, last, view, self, {})
         == RedoAt(latest, first, view, self, {}) + Redo(latest, first + 1, last, view, self, {})
  {
  }

  lemma {:induction false} StableBounds(msgs: seq<ViewChangeMessage>)
    ensures forall m :: m in msgs ==> MinStable(msgs) <= m.stable <= MaxStable(msgs)
    ensures msgs != [] ==> (exists m :: m in msgs && m.stable == MaxStable(msgs)) && MinStable(msgs) <= MaxStable(msgs)
  {
    if msgs != [] {
      var init, last := msgs[..|msgs| - 1], msgs[|msgs| - 1];
      StableBounds(init);
      assert msgs == init + [last];
      assert last in msgs;
      if init != [] && MaxStable(init) >= last.stable {
        var m :| m in init && m.stable == MaxStable(init);
        assert m in msgs;
      }
    }
  }

  /**
    * The redo entry for a number above every stable checkpoint carries digest d exactly when the last
    * view-change message with an entry for that number carries d; without any entry it is null or absent.
    */
  lemma RedoCarries(msgs: seq<ViewChangeMessage>, view: nat, self: nat, unsigned: set<nat>, sn: nat, d: Digest)
    requires msgs != [] && Proved(Flatten(msgs)) && sn <= MAX64
    requires forall m :: m in msgs ==> m.stable < sn
    ensures var last := LastFor(Flatten(msgs), sn);
      (Request(Commit, view, sn, d, self) in RedoList(msgs, view, self, unsigned)) <==>
      (last.Some? && last.value.proofs[0].request.hash == d)
  {
    var latest := Latest(Flatten(msgs));
    StableBounds(msgs);
    LatestIsLast(Flatten(msgs), sn);
    RedoMembers(latest, First(msgs), Highest(latest), view, self, unsigned, Request(Commit, view, sn, d, self));
    var m := msgs[0];
    assert m in msgs;
  }

  lemma {:induction false} LastForAppend(a: seq<PreparedMsg>, b: seq<PreparedMsg>, sn: nat)
    ensures LastFor(a + b, sn) == if LastFor(b, sn).Some? then LastFor(b, sn) else LastFor(a, sn)
  {
    if b == [] {
      assert a + b == a;
    } else {
      assert (a + b)[..|a + b| - 1] == a + b[..|b| - 1];
      if b[|b| - 1].sn != sn {
        LastForAppend(a, b[..|b| - 1], sn);
      }
    }
  }

  lemma {:induction false} LastForAt(entries: seq<PreparedMsg>, sn: nat, k: nat)
    requires k < |entries| && entries[k].sn == sn && forall j :: k < j < |entries| ==> entries[j].sn != sn
    ensures LastFor(entries, sn) == Some(entries[k])
  {
    if k < |entries| - 1 {
      LastForAt(entries[..|entries| - 1], sn, k);
    }
  }

  /** Entry k of message m is the last one for this number: in its message, and no later message has one. */
  ghost predicate LastEntry(msgs: seq<ViewChangeMessage>, sn: nat, m: nat, k: nat) {
    && m < |msgs| && k < |msgs[m].prepared| && msgs[m].prepared[k].sn == sn
    && (forall j :: k < j < |msgs[m].prepared| ==> msgs[m].prepared[j].sn != sn)
    && forall i, e :: m < i < |msgs| && e in msgs[i].prepared ==> e.sn != sn
  }

  lemma {:induction false} LastForFlatten(msgs: seq<ViewChangeMessage>, sn: nat, m: nat, k: nat)
    requires LastEntry(msgs, sn, m, k)
    ensures LastFor(Flatten(msgs), sn) == Some(msgs[m].prepared[k])
  {
    var n := |msgs| - 1;
    LastForAppend(Flatten(msgs[..n]), msgs[n].prepared, sn);
    if m == n {
      LastForAt(msgs[n].prepared, sn, k);
    } else {
      assert LastFor(msgs[n].prepared, sn) == None;
      LastForFlatten(msgs[..n], sn, m, k);
    }
  }

  lemma {:induction false} NoneInFlatten(msgs: seq<ViewChangeMessage>, sn: nat)
    requires forall m, e :: m in msgs && e in m.prepared ==> e.sn != sn
    ensures LastFor(Flatten(msgs), sn) == None
  {
    if msgs != [] {
      var n := |msgs| - 1;
      assert msgs[n] in msgs;
      LastForAppend(Flatten(msgs[..n]), msgs[n].prepared, sn);
      NoneInFlatten(msgs[..n], sn);
      assert LastFor(msgs[n].prepared, sn) == None;
    }
  }

  /** Read off the messages: for a number above every stable checkpoint the last entry's first proof decides. */
  lemma RedoFollowsLast(msgs: seq<ViewChangeMessage>, view: nat, self: nat, unsigned: set<nat>, sn: nat, d: Digest,
                        m: nat, k: nat)
    requires Proved(Flatten(msgs)) && sn <= MAX64 && (forall x :: x in msgs ==> x.stable < sn)
    requires LastEntry(msgs, sn, m, k)
    ensures msgs[m].prepared[k].proofs != []
    ensures (Request(Commit, view, sn, d, self) in RedoList(msgs, view, self, unsigned)) <==>
      msgs[m].prepared[k].proofs[0].request.hash == d
  {
    LastForFlatten(msgs, sn, m, k);
    RedoCarries(msgs, view, self, unsigned, sn, d);
  }

  /** A number no message has an entry for gets no COMMIT. */
  lemma RedoWithoutEntry(msgs: seq<ViewChangeMessage>, view: nat, self: nat, unsigned: set<nat>, sn: nat, d: Digest)
    requires msgs != [] && Proved(Flatten(msgs)) && sn <= MAX64 && (forall x :: x in msgs ==> x.stable < sn)
    requires forall x, e :: x in msgs && e in x.prepared ==> e.sn != sn
    ensures Request(Commit, view, sn, d, self) !in RedoList(msgs, view, self, unsigned)
  {
    NoneInFlatten(msgs, sn);
    RedoCarries(msgs, view, self, unsigned, sn, d);
  }

  /** The redo list covers min_s + 1 to the highest prepared number; entries without a certificate are null. */
  lemma RedoExact(msgs: seq<ViewChangeMessage>, view: nat, self: nat, i: nat)
    requires msgs != [] && Proved(Flatten(msgs)) && MinStable(msgs) < MAX64
    requires MinStable(msgs) < i <= Highest(Latest(Flatten(msgs)))
    ensures var redo, min := RedoList(msgs, view, self, {}), MinStable(msgs);
      && |redo| == Highest(Latest(Flatten(msgs))) - min
      && redo[i - min - 1].sn == i
      && (redo[i - min - 1].kind == PrePrepare <==> LastFor(Flatten(msgs), i) == None)
      && (redo[i - min - 1].kind == PrePrepare ==>
            redo[i - min - 1] == Request(PrePrepare, view, i, "null" + Decimal.PrintNat(i), self))
  {
    LatestIsLast(Flatten(msgs), i);
    FirstFollows(msgs);
    RedoEntry(Latest(Flatten(msgs)), First(msgs), Highest(Latest(Flatten(msgs))), view, self, i);
  }

  /** With nothing prepared there is one null request, for number 1, and only if some checkpoint is still 0. */
  lemma RedoNothingPrepared(msgs: seq<ViewChangeMessage>, view: nat, self: nat)
    requires msgs != [] && Flatten(msgs) == [] && MinStable(msgs) < MAX64
    ensures RedoList(msgs, view, self, {})
         == if exists m :: m in msgs && m.stable == 0 then [Request(PrePrepare, view, 1, "null1", self)] else []
  {
    FirstFollows(msgs);
    MinAttained(msgs);
    StableBounds(msgs);
    assert Decimal.PrintNat(1) == "1" && "null" + "1" == "null1";
    assert Redo(map[], 2, 1, view, self, {}) == [];
  }

  lemma {:induction false} MinAttained(msgs: seq<ViewChangeMessage>)
    requires msgs != [] && MinStable(msgs) < MAX64
    ensures exists m :: m in msgs && m.stable == MinStable(msgs)
  {
    var init, last := msgs[..|msgs| - 1], msgs[|msgs| - 1];
    assert msgs == init + [last];
    assert last in msgs;
    if MinStable(msgs) != last.stable {
      MinAttained(init);
      var m :| m in init && m.stable == MinStable(init);
      assert m in msgs;
    }
  }

  lemma FirstFollows(msgs: seq<ViewChangeMessage>)
    requires MinStable(msgs) < MAX64
    ensures First(msgs) == MinStable(msgs) + 1
  {
  }

  /** The answer for a number: its own number, and null exactly when nothing was prepared for it. */
  lemma RedoEntry(latest: map<nat, Request>, first: nat, last: nat, view: nat, self: nat, i: nat)
    requires first <= i <= last
    ensures var redo := Redo(latest, first, last, view, self, {});
      && |redo| == last + 1 - first && redo[i - first].sn == i
      && (redo[i - first].kind == PrePrepare <==> i !in latest)
      && (redo[i - first].kind == PrePrepare ==> redo[i - first] == NullRequest(i, view, self))
  {
    RedoInOrder(latest, first, last, view, self, i);
  }
}
