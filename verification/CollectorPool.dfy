/** `LockFreeCollectorPool`: a ring of collectors that stands in for a map from sequence number to collector. */
module CollectorPool {
  import opened Messages
  import opened Modular
  import C = Collector

  function Pow2(i: nat): (p: nat)
    ensures p >= 1
  {
    if i == 0 then 1 else 2 * Pow2(i - 1)
  }

  function BitAnd(x: nat, y: nat): nat {
    if x == 0 || y == 0 then 0 else 2 * BitAnd(x / 2, y / 2) + (if x % 2 == 1 && y % 2 == 1 then 1 else 0)
  }

  function BitXor(x: nat, y: nat): nat
    decreases x + y
  {
    if x == 0 then y else if y == 0 then x
    else 2 * BitXor(x / 2, y / 2) + (if x % 2 != y % 2 then 1 else 0)
  }

  lemma HalfMod(x: nat, p: nat)
    requires p >= 1
    ensures x % (2 * p) == 2 * (x / 2 % p) + x % 2
  {
    var q, r := x / 2 / p, x / 2 % p;
    assert x / 2 == p * q + r;
    assert x == (2 * p) * q + (2 * r + x % 2);
    Quotient(x, 2 * p, q, 2 * r + x % 2);
  }

  /** The low bit of a mask 2^(i+1) - 1 and the mask above it. */
  lemma MaskHalves(p: nat)
    requires p >= 1
    ensures (2 * p - 1) / 2 == p - 1 && (2 * p - 1) % 2 == 1
  {
  }

  lemma AndStep(x: nat, p: nat, low: nat, all: nat)
    requires p >= 1 && BitAnd(x / 2, p - 1) == low && all == 2 * low + x % 2
    ensures BitAnd(x, 2 * p - 1) == all
  {
    MaskHalves(p);
  }

  /** Masking with 2^i - 1 takes the remainder. */
  lemma {:induction false} AndMask(x: nat, i: nat)
    ensures BitAnd(x, Pow2(i) - 1) == x % Pow2(i)
    decreases i
  {
    if i > 0 {
      var p := Pow2(i - 1);
      AndMask(x / 2, i - 1);
      HalfMod(x, p);
      AndStep(x, p, x / 2 % p, x % (2 * p));
    }
  }

  /** Exclusive-or with 2^i moves an index below 2^(i+1) to the other half of the ring. */
  lemma {:induction false} XorTop(x: nat, i: nat)
    requires x < 2 * Pow2(i)
    ensures BitXor(x, Pow2(i)) == if x < Pow2(i) then x + Pow2(i) else x - Pow2(i)
  {
    if i > 0 && x > 0 {
      XorTop(x / 2, i - 1);
    }
  }

  /** The least power of two above `size`. */
  method GetCapacity(size: nat) returns (capacity: nat, ghost bits: nat)
    ensures capacity == Pow2(bits) && size < capacity
    ensures capacity == 1 || capacity / 2 <= size
  {
    capacity, bits := 1, 0;
    while capacity <= size
      invariant capacity == Pow2(bits) && (capacity == 1 || capacity / 2 <= size)
      decreases size + 1 - capacity
    {
      capacity, bits := 2 * capacity, bits + 1;
    }
  }

  // ----- the ring on values

  function SlotOf(capacity: nat, sn: nat): (i: nat)
    requires capacity >= 1
    ensures i < 2 * capacity
  {
    sn % (2 * capacity)
  }

  /** Slot i starts with a collector for number i. */
  function NewRing(capacity: nat, viewChange: bool): seq<C.State> {
    seq(2 * capacity, i requires 0 <= i < 2 * capacity => C.Fresh(i, viewChange))
  }

  /** Finishing a number opens a fresh collector `capacity` numbers ahead, in the other half of the ring. */
  function Advance(capacity: nat, ring: seq<C.State>, sn: nat, viewChange: bool): (r: seq<C.State>)
    requires capacity >= 1 && |ring| == 2 * capacity
    ensures |r| == |ring|
  {
    if ring[SlotOf(capacity, sn)].sn != sn then ring
    else ring[SlotOf(capacity, sn + capacity) := C.Fresh(sn + capacity, viewChange)]
  }

  /** `Update` for the numbers lo, ..., hi - 1, as they are handed to execution. */
  function AdvanceTo(capacity: nat, ring: seq<C.State>, lo: nat, hi: nat, viewChange: bool): (r: seq<C.State>)
    requires capacity >= 1 && |ring| == 2 * capacity
    ensures |r| == |ring|
    decreases hi
  {
    if hi <= lo then ring
    else Advance(capacity, AdvanceTo(capacity, ring, lo, hi - 1, viewChange), hi - 1, viewChange)
  }

  /** What one update keeps, with the next number one higher, the whole range keeps. */
  lemma {:induction false} AdvanceKeeps(capacity: nat, ring: seq<C.State>, lo: nat, hi: nat, viewChange: bool,
                                        keeps: (seq<C.State>, nat) -> bool)
    requires capacity >= 1 && |ring| == 2 * capacity && lo <= hi && keeps(ring, lo)
    requires forall r: seq<C.State>, sn: nat :: |r| == 2 * capacity && keeps(r, sn) ==>
      keeps(Advance(capacity, r, sn, viewChange), sn + 1)
    ensures keeps(AdvanceTo(capacity, ring, lo, hi, viewChange), hi)
    decreases hi
  {
    if lo < hi {
      AdvanceKeeps(capacity, ring, lo, hi - 1, viewChange, keeps);
    }
  }

  class LockFreeCollectorPool {
    const capacity: nat
    const mask: nat
    const viewChange: bool
    const slots: array<C.TransactionCollector>
    ghost const bits: nat
    ghost var contents: seq<C.State>

    /** The slots are different objects, and `contents` is what they hold. */
    ghost predicate Valid()
      reads this, slots, slots[..]
    {
      && capacity == Pow2(bits) && mask == 2 * capacity - 1 && slots.Length == |contents| == 2 * capacity
      && (forall i, j :: 0 <= i < j < slots.Length ==> slots[i] != slots[j])
      && forall i :: 0 <= i < slots.Length ==> slots[i].View() == contents[i]
    }

    constructor (size: nat, viewChange: bool)
      ensures Valid() && fresh(slots) && fresh(slots[..]) && capacity > 2 * size && this.viewChange == viewChange
      ensures contents == NewRing(capacity, viewChange)
    {
      var c, b := GetCapacity(size * 2);
      capacity, bits, mask, this.viewChange := c, b, 2 * c - 1, viewChange;
      var first := new C.TransactionCollector(0, viewChange);
      var a := new C.TransactionCollector[2 * c](_ => first);
      for i := 0 to 2 * c
        invariant a.Length == 2 * c && fresh(a)
        invariant forall j :: 0 <= j < i ==> fresh(a[j]) && a[j].View() == C.Fresh(j, viewChange)
        invariant forall j, k :: 0 <= j < k < i ==> a[j] != a[k]
      {
        a[i] := new C.TransactionCollector(i, viewChange);
      }
      slots := a;
      contents := NewRing(c, viewChange);
    }

    lemma Index(sn: nat)
      requires capacity == Pow2(bits) && mask == 2 * capacity - 1
      ensures BitAnd(sn, mask) == SlotOf(capacity, sn)
      ensures BitXor(BitAnd(sn, mask), capacity) == SlotOf(capacity, sn + capacity)
    {
      MaskedSlot(sn, bits);
      XorTop(SlotOf(capacity, sn), bits);
      OppositeSlot(capacity, sn);
    }

    /** `GetCollector`. */
    method GetCollector(sn: nat) returns (c: C.TransactionCollector)
      requires Valid()
      ensures c == slots[SlotOf(capacity, sn)] && c.View() == contents[SlotOf(capacity, sn)]
    {
      Index(sn);
      c := slots[BitAnd(sn, mask)];
    }

    method Update(sn: nat)
      requires Valid()
      modifies this`contents, slots
      ensures Valid() && forall c :: c in slots[..] ==> c in old(slots[..]) || fresh(c)
      ensures contents == Advance(capacity, old(contents), sn, viewChange)
    {
      Index(sn);
      var idx := BitAnd(sn, mask);
      if slots[idx].sn != sn {
        return;
      }
      var opposite := BitXor(idx, capacity);
      slots[opposite] := new C.TransactionCollector(sn + capacity, viewChange);
      contents := contents[opposite := C.Fresh(sn + capacity, viewChange)];
    }

    /** The notifications for the numbers lo, ..., hi - 1. */
    method UpdateTo(lo: nat, hi: nat)
      requires Valid()
      modifies this`contents, slots
      ensures Valid() && contents == AdvanceTo(capacity, old(contents), lo, hi, viewChange)
    {
      var k := lo;
      while k < hi
        invariant Valid() && lo <= k && (k <= hi || k == lo)
        invariant forall c :: c in slots[..] ==> c in old(slots[..]) || fresh(c)
        invariant contents == AdvanceTo(capacity, old(contents), lo, k, viewChange)
      {
        Update(k);
        k := k + 1;
      }
    }

    /** `GetCollector(seq)->AddRequest(...)`. */
    method AddRequest(info: RequestInfo, quorum: nat) returns (ret: int, changed: bool, handed: Option<Request>)
      requires Valid()
      modifies this`contents, slots[..]
      ensures Valid() && slots[..] == old(slots[..])
      ensures var i := SlotOf(capacity, info.request.sn);
        var o := C.Collect(old(contents)[i], info, quorum);
        contents == old(contents)[i := o.state] && (ret, changed, handed) == (o.ret, o.changed, o.handed)
    {
      var c := GetCollector(info.request.sn);
      ret, changed, handed := c.AddRequest(info, quorum);
      contents := contents[SlotOf(capacity, info.request.sn) := c.View()];
    }
  }

  lemma MaskedSlot(sn: nat, bits: nat)
    ensures BitAnd(sn, 2 * Pow2(bits) - 1) == SlotOf(Pow2(bits), sn)
  {
    assert Pow2(bits + 1) == 2 * Pow2(bits);
    AndMask(sn, bits + 1);
  }

  lemma OppositeSlot(capacity: nat, sn: nat)
    requires capacity >= 1
    ensures SlotOf(capacity, sn + capacity)
         == if SlotOf(capacity, sn) < capacity then SlotOf(capacity, sn) + capacity else SlotOf(capacity, sn) - capacity
  {
    var m := 2 * capacity;
    var q, r := sn / m, sn % m;
    if r < capacity {
      Quotient(sn + capacity, m, q, r + capacity);
    } else {
      assert sn + capacity == m * (q + 1) + (r - capacity);
      Quotient(sn + capacity, m, q + 1, r - capacity);
    }
  }

  /**
    * A finished number whose collector is in place renews the slot half a ring away, which is neither its own nor that
    * of a number less than `capacity` away from it; any other number renews nothing.
    */
  lemma AdvanceExactly(capacity: nat, ring: seq<C.State>, sn: nat, viewChange: bool, other: nat)
    requires capacity >= 1 && |ring| == 2 * capacity && sn - capacity < other < sn + capacity
    ensures var r, i := Advance(capacity, ring, sn, viewChange), (sn + capacity) % |ring|;
      && r[SlotOf(capacity, other)] == ring[SlotOf(capacity, other)]
      && (forall j :: 0 <= j < |ring| && j != i ==> r[j] == ring[j])
      && r[i] == if ring[SlotOf(capacity, sn)].sn == sn then C.Fresh(sn + capacity, viewChange) else ring[i]
  {
    DistinctSlots(capacity, other, sn + capacity);
  }

  // ----- which numbers the ring has

  /** The numbers around execution that the ring is meant for. */
  predicate Timely(capacity: nat, done: nat, sn: nat) {
    done - capacity < sn <= done + capacity
  }

  /** Numbers ahead of those for which the ring starts out with a collector all the same. */
  predicate Early(capacity: nat, done: nat, sn: nat) {
    done + capacity < sn < 2 * capacity
  }

  ghost predicate Numbered(capacity: nat, ring: seq<C.State>, done: nat)
    requires capacity >= 1
  {
    && |ring| == 2 * capacity
    && forall i :: 0 <= i < |ring| ==>
         SlotOf(capacity, ring[i].sn) == i && (Timely(capacity, done, ring[i].sn) || Early(capacity, done, ring[i].sn))
  }

  /** Two numbers less than a whole ring apart have different slots. */
  lemma DistinctSlots(capacity: nat, a: nat, b: nat)
    requires capacity >= 1 && a < b < a + 2 * capacity
    ensures SlotOf(capacity, a) != SlotOf(capacity, b)
  {
    var m := 2 * capacity;
    if a % m == b % m {
      assert m * (b / m - a / m) == b - a;
      SmallMultiple(m, b / m - a / m, b - a);
    }
  }

  lemma SameSlot(capacity: nat, a: nat, b: nat)
    requires capacity >= 1 && SlotOf(capacity, a) == SlotOf(capacity, b) && a < b + 2 * capacity && b < a + 2 * capacity
    ensures a == b
  {
    if a < b {
      DistinctSlots(capacity, a, b);
    } else if b < a {
      DistinctSlots(capacity, b, a);
    }
  }

  /** The slot of a number holds that number's collector exactly when the number is timely or early. */
  lemma WhoAnswers(capacity: nat, ring: seq<C.State>, done: nat, sn: nat)
    requires capacity >= 1 && Numbered(capacity, ring, done)
    ensures ring[SlotOf(capacity, sn)].sn == sn <==> Timely(capacity, done, sn) || Early(capacity, done, sn)
  {
    if Timely(capacity, done, sn) || Early(capacity, done, sn) {
      SameSlot(capacity, ring[SlotOf(capacity, sn)].sn, sn);
    }
  }

  lemma NewRingNumbered(capacity: nat, viewChange: bool)
    requires capacity >= 1
    ensures Numbered(capacity, NewRing(capacity, viewChange), 0)
  {
    forall i: nat | i < 2 * capacity ensures SlotOf(capacity, i) == i {
      Quotient(i, 2 * capacity, 0, i);
    }
  }

  // ----- the ring against an unbounded map

  function Cell(cells: map<nat, C.State>, sn: nat, viewChange: bool): C.State {
    if sn in cells then cells[sn] else C.Fresh(sn, viewChange)
  }

  /** Every timely slot holds the map's collector; the map has nothing beyond the window. */
  ghost predicate Mirrors(capacity: nat, viewChange: bool, ring: seq<C.State>, cells: map<nat, C.State>, done: nat)
    requires capacity >= 1
  {
    && Numbered(capacity, ring, done)
    && (forall sn :: sn in cells ==> cells[sn].sn == sn <= done + capacity)
    && forall i :: 0 <= i < |ring| && ring[i].sn <= done + capacity ==> ring[i] == Cell(cells, ring[i].sn, viewChange)
  }

  /** No early slot has been used. */
  ghost predicate Untouched(capacity: nat, viewChange: bool, ring: seq<C.State>, done: nat) {
    forall i :: 0 <= i < |ring| && ring[i].sn > done + capacity ==> ring[i] == C.Fresh(ring[i].sn, viewChange)
  }

  lemma NewRingMirrors(capacity: nat, viewChange: bool)
    requires capacity >= 1
    ensures Mirrors(capacity, viewChange, NewRing(capacity, viewChange), map[], 0)
    ensures Untouched(capacity, viewChange, NewRing(capacity, viewChange), 0)
  {
    NewRingNumbered(capacity, viewChange);
  }

  /** A timely number's slot holds the map's collector for it. */
  lemma SlotMirrors(capacity: nat, viewChange: bool, ring: seq<C.State>, cells: map<nat, C.State>, done: nat, sn: nat)
    requires capacity >= 1 && Mirrors(capacity, viewChange, ring, cells, done) && Timely(capacity, done, sn)
    ensures ring[SlotOf(capacity, sn)] == Cell(cells, sn, viewChange) && Cell(cells, sn, viewChange).sn == sn
  {
    WhoAnswers(capacity, ring, done, sn);
  }

  lemma PutMirrors(capacity: nat, viewChange: bool, ring: seq<C.State>, cells: map<nat, C.State>, done: nat, c: C.State)
    requires capacity >= 1 && Mirrors(capacity, viewChange, ring, cells, done) && Timely(capacity, done, c.sn)
    ensures Mirrors(capacity, viewChange, ring[SlotOf(capacity, c.sn) := c], cells[c.sn := c], done)
    ensures Untouched(capacity, viewChange, ring, done) ==>
      Untouched(capacity, viewChange, ring[SlotOf(capacity, c.sn) := c], done)
  {
  }

  /** A message for an early slot leaves the timely ones alone. */
  lemma EarlyMirrors(capacity: nat, viewChange: bool, ring: seq<C.State>, cells: map<nat, C.State>, done: nat,
                     c: C.State)
    requires capacity >= 1 && Mirrors(capacity, viewChange, ring, cells, done) && Early(capacity, done, c.sn)
    ensures Mirrors(capacity, viewChange, ring[SlotOf(capacity, c.sn) := c], cells, done)
  {
  }

  lemma AdvanceMirrors(capacity: nat, viewChange: bool, ring: seq<C.State>, cells: map<nat, C.State>, done: nat)
    requires capacity >= 1 && Mirrors(capacity, viewChange, ring, cells, done)
    ensures var ring' := Advance(capacity, ring, done + 1, viewChange);
      && Mirrors(capacity, viewChange, ring', cells, done + 1)
      && (Untouched(capacity, viewChange, ring, done) ==> Untouched(capacity, viewChange, ring', done + 1))
  {
    var k := done + 1;
    WhoAnswers(capacity, ring, done, k);
    var ring' := Advance(capacity, ring, k, viewChange);
    var j := SlotOf(capacity, k + capacity);
    forall i | 0 <= i < |ring'|
      ensures SlotOf(capacity, ring'[i].sn) == i
      ensures Timely(capacity, k, ring'[i].sn) || Early(capacity, k, ring'[i].sn)
      ensures ring'[i].sn <= k + capacity ==> ring'[i] == Cell(cells, ring'[i].sn, viewChange)
    {
      if i != j {
        AdvanceSlot(capacity, ring, done, i);
      }
    }
  }

  /** Only the opposite slot can hold a number that leaves the window or the number that enters it. */
  lemma AdvanceSlot(capacity: nat, ring: seq<C.State>, done: nat, i: nat)
    requires capacity >= 1 && Numbered(capacity, ring, done) && i < |ring| && i != SlotOf(capacity, done + 1 + capacity)
    ensures ring[i].sn != done + 1 + capacity && ring[i].sn != done + 1 - capacity
    ensures Timely(capacity, done + 1, ring[i].sn) || Early(capacity, done + 1, ring[i].sn)
  {
    if done + 1 >= capacity {
      OppositeSlot(capacity, done + 1 - capacity);
      OppositeSlot(capacity, done + 1);
    }
  }

  // ----- runs

  /** What happens to the pool: a message for it, or the next number having been executed. */
  datatype Event = Receive(info: RequestInfo) | Executed

  type Answer = (int, bool, Option<Request>)

  const REFUSED: Answer := (-2, false, None)

  function AnswerOf(o: C.Outcome): Answer {
    (o.ret, o.changed, o.handed)
  }

  datatype Ring = Ring(slots: seq<C.State>, done: nat, answers: seq<Answer>)

  /** An unbounded map that hears only the timely messages. */
  datatype Table = Table(cells: map<nat, C.State>, done: nat, answers: seq<Option<Answer>>)

  function RingStep(capacity: nat, viewChange: bool, quorum: nat, r: Ring, e: Event): (r': Ring)
    requires capacity >= 1 && |r.slots| == 2 * capacity
    ensures |r'.slots| == 2 * capacity
  {
    match e
    case Receive(info) =>
      var i := SlotOf(capacity, info.request.sn);
      var o := C.Collect(r.slots[i], info, quorum);
      r.(slots := r.slots[i := o.state], answers := r.answers + [AnswerOf(o)])
    case Executed => r.(slots := Advance(capacity, r.slots, r.done + 1, viewChange), done := r.done + 1)
  }

  function TableStep(capacity: nat, viewChange: bool, quorum: nat, t: Table, e: Event): Table {
    match e
    case Receive(info) =>
      var n := info.request.sn;
      if Timely(capacity, t.done, n) then
        var o := C.Collect(Cell(t.cells, n, viewChange), info, quorum);
        t.(cells := t.cells[n := o.state], answers := t.answers + [Some(AnswerOf(o))])
      else
        t.(answers := t.answers + [if Early(capacity, t.done, n) then None else Some(REFUSED)])
    case Executed => t.(done := t.done + 1)
  }

  function RingRun(capacity: nat, viewChange: bool, quorum: nat, events: seq<Event>): (r: Ring)
    requires capacity >= 1
    ensures |r.slots| == 2 * capacity
  {
    if events == [] then Ring(NewRing(capacity, viewChange), 0, [])
    else RingStep(capacity, viewChange, quorum,
                  RingRun(capacity, viewChange, quorum, events[..|events| - 1]), events[|events| - 1])
  }

  function TableRun(capacity: nat, viewChange: bool, quorum: nat, events: seq<Event>): Table {
    if events == [] then Table(map[], 0, [])
    else TableStep(capacity, viewChange, quorum,
                   TableRun(capacity, viewChange, quorum, events[..|events| - 1]), events[|events| - 1])
  }

  ghost predicate SameAnswers(ring: seq<Answer>, table: seq<Option<Answer>>) {
    |ring| == |table| && forall i :: 0 <= i < |ring| && table[i].Some? ==> ring[i] == table[i].value
  }

  ghost predicate Refines(capacity: nat, viewChange: bool, r: Ring, t: Table)
    requires capacity >= 1
  {
    r.done == t.done && SameAnswers(r.answers, t.answers) && Mirrors(capacity, viewChange, r.slots, t.cells, t.done)
  }

  lemma CollectKeepsNumber(c: C.State, info: RequestInfo, quorum: nat)
    ensures C.Collect(c, info, quorum).state.sn == c.sn
    ensures c.sn != info.request.sn ==> C.Collect(c, info, quorum) == C.Outcome(c, -2, false, None)
  {
    ProposalKeepsNumber(c, info, quorum);
    PrepareKeepsNumber(c, info, quorum);
    CommitKeepsNumber(c, info, quorum);
  }

  lemma ProposalKeepsNumber(c: C.State, info: RequestInfo, quorum: nat)
    ensures C.AddProposal(c, info, quorum).state.sn == c.sn
  {
  }

  lemma PrepareKeepsNumber(c: C.State, info: RequestInfo, quorum: nat)
    ensures C.AddPrepareProof(c, info, quorum).state.sn == c.sn
    ensures C.AddPrepareVote(c, info, quorum).state.sn == c.sn
  {
  }

  lemma CommitKeepsNumber(c: C.State, info: RequestInfo, quorum: nat)
    ensures C.AddCommitVote(c, info, quorum).state.sn == c.sn
  {
  }

  lemma ReceiveRefines(capacity: nat, viewChange: bool, quorum: nat, r: Ring, t: Table, info: RequestInfo)
    requires capacity >= 1 && Refines(capacity, viewChange, r, t)
    ensures Refines(capacity, viewChange, RingStep(capacity, viewChange, quorum, r, Receive(info)),
                    TableStep(capacity, viewChange, quorum, t, Receive(info)))
  {
    var n := info.request.sn;
    var i := SlotOf(capacity, n);
    WhoAnswers(capacity, r.slots, r.done, n);
    CollectKeepsNumber(r.slots[i], info, quorum);
    var c := C.Collect(r.slots[i], info, quorum).state;
    if Timely(capacity, r.done, n) {
      PutMirrors(capacity, viewChange, r.slots, t.cells, t.done, c);
    } else if Early(capacity, r.done, n) {
      EarlyMirrors(capacity, viewChange, r.slots, t.cells, t.done, c);
    } else {
      assert r.slots[i := r.slots[i]] == r.slots;
    }
  }

  lemma StepRefines(capacity: nat, viewChange: bool, quorum: nat, r: Ring, t: Table, e: Event)
    requires capacity >= 1 && Refines(capacity, viewChange, r, t)
    ensures Refines(capacity, viewChange, RingStep(capacity, viewChange, quorum, r, e),
                    TableStep(capacity, viewChange, quorum, t, e))
  {
    match e
    case Receive(info) => ReceiveRefines(capacity, viewChange, quorum, r, t, info);
    case Executed => AdvanceMirrors(capacity, viewChange, r.slots, t.cells, t.done);
  }

  /**
    * For every run: the ring is an unbounded map of exactly the timely messages. It answers those as the map
    * does and holds, in the right slots, the map's collectors for the whole window. Of the other messages it
    * refuses all but the early ones, and those leave no trace once their number is in the window.
    */
  lemma {:induction false} RingIsTimelyMap(capacity: nat, viewChange: bool, quorum: nat, events: seq<Event>)
    requires capacity >= 1
    ensures Refines(capacity, viewChange, RingRun(capacity, viewChange, quorum, events),
                    TableRun(capacity, viewChange, quorum, events))
  {
    if events == [] {
      NewRingMirrors(capacity, viewChange);
    } else {
      var init, e := events[..|events| - 1], events[|events| - 1];
      RingIsTimelyMap(capacity, viewChange, quorum, init);
      StepRefines(capacity, viewChange, quorum, RingRun(capacity, viewChange, quorum, init),
                  TableRun(capacity, viewChange, quorum, init), e);
    }
  }

  /** A message is answered by its own number's collector exactly when it is timely or early; any other is refused. */
  lemma AnsweredExactly(capacity: nat, viewChange: bool, quorum: nat, events: seq<Event>, info: RequestInfo)
    requires capacity >= 1
    ensures var r, n := RingRun(capacity, viewChange, quorum, events), info.request.sn;
      && (r.slots[SlotOf(capacity, n)].sn == n <==> Timely(capacity, r.done, n) || Early(capacity, r.done, n))
      && (!Timely(capacity, r.done, n) && !Early(capacity, r.done, n) ==>
            RingStep(capacity, viewChange, quorum, r, Receive(info)) == r.(answers := r.answers + [REFUSED]))
  {
    RingIsTimelyMap(capacity, viewChange, quorum, events);
    var r, n := RingRun(capacity, viewChange, quorum, events), info.request.sn;
    var i := SlotOf(capacity, n);
    WhoAnswers(capacity, r.slots, r.done, n);
    CollectKeepsNumber(r.slots[i], info, quorum);
    assert r.slots[i := r.slots[i]] == r.slots;
  }

  function Proposal(sn: nat, d: Digest): Event {
    Receive(RequestInfo(Request(PrePrepare, 1, sn, d, 1), "s"))
  }

  /**
    * What an untimely message does: with capacity 4, a proposal for number 5 that comes before anything is
    * executed is taken (a prepare goes out), number 1 is executed, and a second, different proposal for 5 is
    * taken as well.
    */
  lemma EarlyProposalTakenTwice()
    ensures RingRun(4, true, 3, [Proposal(5, "a"), Executed, Proposal(5, "b")]).answers
         == [(0, true, None), (0, true, None)]
  {
    var e1, e2, e3 := Proposal(5, "a"), Executed, Proposal(5, "b");
    ThreeEvents(e1, e2, e3);
    var r0 := RingRun(4, true, 3, []);
    assert r0.slots[5] == C.Fresh(5, true) && r0.slots[1].sn == 1;
    TakesProposal(r0, "a");
    var r1 := RingStep(4, true, 3, r0, e1);
    Renews(r1);
    TakesProposal(RingStep(4, true, 3, r1, e2), "b");
  }

  lemma ThreeEvents(e1: Event, e2: Event, e3: Event)
    ensures var r1 := RingStep(4, true, 3, RingRun(4, true, 3, []), e1);
      RingRun(4, true, 3, [e1, e2, e3]) == RingStep(4, true, 3, RingStep(4, true, 3, r1, e2), e3)
  {
    RunAppend([], e1, [e1]);
    RunAppend([e1], e2, [e1, e2]);
    RunAppend([e1, e2], e3, [e1, e2, e3]);
  }

  lemma Renews(r: Ring)
    requires |r.slots| == 8 && r.done == 0 && r.slots[1].sn == 1
    ensures var r' := RingStep(4, true, 3, r, Executed);
      |r'.slots| == 8 && r'.slots[5] == C.Fresh(5, true) && r'.answers == r.answers
  {
    assert SlotOf(4, 1) == 1 && SlotOf(4, 5) == 5;
  }

  /** A fresh collector in slot 5 takes a proposal for number 5. */
  lemma TakesProposal(r: Ring, d: Digest)
    requires |r.slots| == 8 && r.slots[5] == C.Fresh(5, true)
    ensures var r' := RingStep(4, true, 3, r, Proposal(5, d));
      && r'.answers == r.answers + [(0, true, None)] && r'.done == r.done
      && |r'.slots| == 8 && r'.slots[1] == r.slots[1]
  {
    FreshTakes(d);
    assert SlotOf(4, 5) == 5;
  }

  lemma FreshTakes(d: Digest)
    ensures AnswerOf(C.Collect(C.Fresh(5, true), Proposal(5, d).info, 3)) == (0, true, None)
  {
  }

  lemma RunAppend(events: seq<Event>, e: Event, more: seq<Event>)
    requires more == events + [e]
    ensures RingRun(4, true, 3, more) == RingStep(4, true, 3, RingRun(4, true, 3, events), e)
  {
    assert more[..|events|] == events;
  }
}
