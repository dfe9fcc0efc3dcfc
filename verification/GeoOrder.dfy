/** Geo-scale ordering: one request per region and number, delivered round robin over the regions. */
module GeoOrder {
  import opened Messages
  import O = OrderedKeys

  /** A request is known by its number and the region it comes from. */
  type Turn = (nat, nat)

  // ----- the duplicate check of `GeoPBFTCommitment`

  const SLOTS: nat := 1048576

  /** `checklist_`: the regions already seen, by number modulo 2^20; never cleared. */
  datatype Checklist = Checklist(seen: seq<set<nat>>, minSeq: nat)

  predicate ChecklistOk(c: Checklist) {
    |c.seen| == SLOTS
  }

  function EmptyChecklist(): (c: Checklist)
    ensures ChecklistOk(c)
  {
    Checklist(seq(SLOTS, _ => {}), 0)
  }

  /** `AddNewReq`. */
  function Admit(c: Checklist, t: Turn): (Checklist, bool)
    requires ChecklistOk(c)
  {
    var slot := t.0 % SLOTS;
    if t.0 < c.minSeq || t.1 in c.seen[slot] then (c, false)
    else (c.(seen := c.seen[slot := c.seen[slot] + {t.1}]), true)
  }

  // ----- the ordering of `GeoGlobalExecutor`

  predicate Le(a: Turn, b: Turn) {
    a.0 < b.0 || (a.0 == b.0 && a.1 <= b.1)
  }

  lemma FirstExists(keys: set<Turn>)
    requires keys != {}
    ensures exists k :: k in keys && forall j :: j in keys ==> Le(k, j)
  {
    var k := O.FindFirst(Le, keys);
  }

  /** The key at `begin()` of the ordered map. */
  function First(keys: set<Turn>): (k: Turn)
    requires keys != {}
    ensures k in keys && forall j :: j in keys ==> Le(k, j)
  {
    FirstExists(keys);
    var k :| k in keys && forall j :: j in keys ==> Le(k, j);
    k
  }

  datatype Orderer = Orderer(pending: map<Turn, Digest>, next: Turn, executed: seq<(Turn, Digest)>)

  const INITIAL: Orderer := Orderer(map[], (1, 1), [])

  /** The turn after `t`, with regions 1..regions. */
  function Following(t: Turn, regions: nat): Turn {
    if t.1 + 1 > regions then (t.0 + 1, 1) else (t.0, t.1 + 1)
  }

  /** The request whose turn it is goes to execution. */
  function Delivering(o: Orderer, regions: nat): Orderer
    requires o.next in o.pending
  {
    Orderer(o.pending - {o.next}, Following(o.next, regions), o.executed + [(o.next, o.pending[o.next])])
  }

  /** Pops the first pending request while it is the one whose turn it is. */
  function Drain(o: Orderer, regions: nat): Orderer
    decreases |o.pending|
  {
    if o.pending == map[] || First(o.pending.Keys) != o.next then o
    else
      Drain(Delivering(o, regions), regions)
  }

  /** One round of `OrderRound` with a request from the queue; a repeated key would be overwritten. */
  function Order(o: Orderer, t: Turn, d: Digest, regions: nat): Orderer {
    Drain(o.(pending := o.pending[t := d]), regions)
  }

  // ----- both together

  /** A message from a region, possibly without valid certificates, or the lower bound moving up. */
  datatype Event = Message(turn: Turn, hash: Digest, certified: bool) | Raise(sn: nat)

  datatype Site = Site(checklist: Checklist, orderer: Orderer)

  /** `GeoProcessCcm` and `UpdateSeq`. */
  function Step(s: Site, e: Event, regions: nat): (s': Site)
    requires ChecklistOk(s.checklist)
    ensures ChecklistOk(s'.checklist)
  {
    match e
    case Raise(sn) => s.(checklist := s.checklist.(minSeq := O.Max(s.checklist.minSeq, sn)))
    case Message(t, hash, certified) =>
      var (c, new_) := Admit(s.checklist, t);
      if !new_ then s
      else if !certified then s.(checklist := c)
      else Site(c, Order(s.orderer, t, hash, regions))
  }

  function Run(events: seq<Event>, regions: nat): (s: Site)
    ensures ChecklistOk(s.checklist)
  {
    if events == [] then Site(EmptyChecklist(), INITIAL)
    else Step(Run(events[..|events| - 1], regions), events[|events| - 1], regions)
  }

  /** Message i passed the duplicate check when it came. */
  ghost predicate AdmittedAt(events: seq<Event>, regions: nat, i: nat) {
    i < |events| && events[i].Message? && Admit(Run(events[..i], regions).checklist, events[i].turn).1
  }

  /** Message i passed the duplicate check and its certificates are valid: it is queued for ordering. */
  ghost predicate QueuedAt(events: seq<Event>, regions: nat, i: nat) {
    AdmittedAt(events, regions, i) && events[i].certified
  }

  /** The i-th turn of the round robin, counting from 0: (1,1), (1,2), ..., (1,R), (2,1), ... */
  function TurnAt(i: nat, regions: nat): Turn {
    if i == 0 then (1, 1) else Following(TurnAt(i - 1, regions), regions)
  }

  predicate InRange(t: Turn, regions: nat) {
    t.0 >= 1 && 1 <= t.1 <= regions
  }

  /** The position of a turn in the round robin. */
  function IndexOf(t: Turn, regions: nat): nat
    requires InRange(t, regions)
    decreases t.0
  {
    if t.0 == 1 then t.1 - 1 else regions + IndexOf((t.0 - 1, t.1), regions)
  }

  lemma {:induction false} IndexShift(sn: nat, a: nat, b: nat, regions: nat)
    requires InRange((sn, a), regions) && InRange((sn, b), regions)
    ensures IndexOf((sn, a), regions) - a == IndexOf((sn, b), regions) - b
  {
    if sn > 1 {
      IndexShift(sn - 1, a, b, regions);
    }
  }

  lemma IndexFollowing(t: Turn, regions: nat)
    requires InRange(t, regions)
    ensures InRange(Following(t, regions), regions)
    ensures IndexOf(Following(t, regions), regions) == IndexOf(t, regions) + 1
  {
    if t.1 == regions {
      IndexShift(t.0, 1, regions, regions);
    } else {
      IndexShift(t.0, t.1, t.1 + 1, regions);
    }
  }

  lemma {:induction false} TurnIndex(i: nat, regions: nat)
    requires regions >= 1
    ensures InRange(TurnAt(i, regions), regions) && IndexOf(TurnAt(i, regions), regions) == i
  {
    if i > 0 {
      TurnIndex(i - 1, regions);
      IndexFollowing(TurnAt(i - 1, regions), regions);
    }
  }

  lemma {:induction false} IndexTurn(t: Turn, regions: nat)
    requires InRange(t, regions)
    ensures TurnAt(IndexOf(t, regions), regions) == t
    decreases t.0, t.1
  {
    if t.1 > 1 {
      IndexTurn((t.0, t.1 - 1), regions);
      IndexFollowing((t.0, t.1 - 1), regions);
    } else if t.0 > 1 {
      IndexTurn((t.0 - 1, regions), regions);
      IndexFollowing((t.0 - 1, regions), regions);
    }
  }

  lemma {:induction false} LaterNumber(a: Turn, b: Turn, regions: nat)
    requires InRange(a, regions) && InRange(b, regions) && a.0 < b.0
    ensures IndexOf(a, regions) < IndexOf(b, regions)
    decreases b.0
  {
    if a.0 + 1 < b.0 {
      LaterNumber(a, (b.0 - 1, b.1), regions);
    } else {
      IndexShift(a.0, a.1, b.1, regions);
    }
  }

  /** The map order of turns in range is their round-robin order. */
  lemma IndexOrder(a: Turn, b: Turn, regions: nat)
    requires InRange(a, regions) && InRange(b, regions)
    ensures Le(a, b) <==> IndexOf(a, regions) <= IndexOf(b, regions)
  {
    if a.0 < b.0 {
      LaterNumber(a, b, regions);
    } else if b.0 < a.0 {
      LaterNumber(b, a, regions);
    } else {
      IndexShift(a.0, a.1, b.1, regions);
    }
  }

  /** Delivered are the first turns in order, pending the queued rest, for a given set of queued requests. */
  ghost predicate Tracks(o: Orderer, queued: map<Turn, Digest>, regions: nat)
    requires regions >= 1
  {
    && o.next == TurnAt(|o.executed|, regions)
    && (forall t :: t in queued ==> InRange(t, regions))
    && (forall i :: 0 <= i < |o.executed| ==>
          var t := TurnAt(i, regions); t in queued && o.executed[i] == (t, queued[t]))
    && (forall t :: t in o.pending <==> t in queued && IndexOf(t, regions) >= |o.executed|)
    && (forall t :: t in o.pending ==> o.pending[t] == queued[t])
  }

  /** The next turn is at the head of the map exactly when it is pending at all. */
  lemma HeadIsNext(o: Orderer, queued: map<Turn, Digest>, regions: nat)
    requires regions >= 1 && Tracks(o, queued, regions) && o.pending != map[]
    ensures First(o.pending.Keys) == o.next <==> o.next in o.pending
  {
    var m := |o.executed|;
    TurnIndex(m, regions);
    if o.next in o.pending {
      var f := First(o.pending.Keys);
      assert f in queued;
      IndexOrder(f, o.next, regions);
      IndexTurn(f, regions);
    }
  }

  lemma PopTracks(o: Orderer, queued: map<Turn, Digest>, regions: nat)
    requires regions >= 1 && Tracks(o, queued, regions) && o.next in o.pending
    ensures Tracks(Delivering(o, regions), queued, regions)
  {
    var m, o' := |o.executed|, Delivering(o, regions);
    TurnIndex(m, regions);
    forall t | t in queued ensures IndexOf(t, regions) == m <==> t == o.next {
      if IndexOf(t, regions) == m {
        IndexTurn(t, regions);
      }
    }
    assert o'.executed[m] == (o.next, queued[o.next]);
    forall t ensures t in o'.pending <==> t in queued && IndexOf(t, regions) >= m + 1 {
      assert t in o.pending <==> t in queued && IndexOf(t, regions) >= m;
    }
  }

  lemma {:induction false} DrainTracks(o: Orderer, queued: map<Turn, Digest>, regions: nat)
    requires regions >= 1 && Tracks(o, queued, regions)
    ensures Tracks(Drain(o, regions), queued, regions) && Drain(o, regions).next !in queued
    decreases |o.pending|
  {
    TurnIndex(|o.executed|, regions);
    if o.pending != map[] {
      HeadIsNext(o, queued, regions);
      if o.next in o.pending {
        PopTracks(o, queued, regions);
        DrainTracks(Delivering(o, regions), queued, regions);
      }
    }
  }

  /** The requests queued for ordering so far. */
  ghost function Queue(events: seq<Event>, regions: nat): map<Turn, Digest> {
    if events == [] then map[]
    else
      var n := |events| - 1;
      var before := Queue(events[..n], regions);
      if QueuedAt(events, regions, n) then before[events[n].turn := events[n].hash] else before
  }

  ghost predicate AllInRange(events: seq<Event>, regions: nat) {
    forall e :: e in events && e.Message? ==> InRange(e.turn, regions)
  }

  /** Queued requests have been ticked off. */
  ghost predicate Ticked(c: Checklist, queued: map<Turn, Digest>) {
    ChecklistOk(c) && forall t :: t in queued ==> t.1 in c.seen[t.0 % SLOTS]
  }

  /** A request that is new comes after everything already executed. */
  lemma NewTracks(o: Orderer, queued: map<Turn, Digest>, t: Turn, d: Digest, regions: nat)
    requires regions >= 1 && Tracks(o, queued, regions) && t !in queued && InRange(t, regions)
    ensures Tracks(o.(pending := o.pending[t := d]), queued[t := d], regions)
  {
    IndexTurn(t, regions);
    assert IndexOf(t, regions) >= |o.executed|;
  }

  /**
    * Round robin. For every stream of messages from regions 1..R with numbers from 1 on, in any order and with
    * repeats: what is executed is always a prefix of (1,1), (1,2), ..., (1,R), (2,1), ..., it is as long as the
    * queued requests allow, and each turn executes the one request that was queued for it.
    */
  lemma {:induction false} RoundRobin(events: seq<Event>, regions: nat)
    requires regions >= 1 && AllInRange(events, regions)
    ensures var s := Run(events, regions);
      && Tracks(s.orderer, Queue(events, regions), regions)
      && s.orderer.next !in Queue(events, regions)
      && Ticked(s.checklist, Queue(events, regions))
  {
    if events == [] {
      TurnIndex(0, regions);
    } else {
      var n := |events| - 1;
      var init, e := events[..n], events[n];
      assert events == init + [e];
      RoundRobin(init, regions);
      var s, queued := Run(init, regions), Queue(init, regions);
      if QueuedAt(events, regions, n) {
        assert e in events && e.turn !in queued;
        NewTracks(s.orderer, queued, e.turn, e.hash, regions);
        DrainTracks(s.orderer.(pending := s.orderer.pending[e.turn := e.hash]), queued[e.turn := e.hash], regions);
      }
    }
  }

  /** The lower bound on numbers after the raises so far. */
  function Floor(events: seq<Event>): nat {
    if events == [] then 0
    else
      var before, e := Floor(events[..|events| - 1]), events[|events| - 1];
      if e.Raise? && e.sn > before then e.sn else before
  }

  ghost predicate Earlier(events: seq<Event>, regions: nat, slot: nat, region: nat) {
    exists i :: 0 <= i < |events| && AdmittedAt(events, regions, i) && Matches(events[i], slot, region)
  }

  lemma AdmittedPrefix(events: seq<Event>, regions: nat, i: nat, n: nat)
    requires i < n <= |events|
    ensures AdmittedAt(events[..n], regions, i) <==> AdmittedAt(events, regions, i)
  {
    assert events[..n][..i] == events[..i];
  }

  ghost predicate Matches(e: Event, slot: nat, region: nat) {
    e.Message? && e.turn.0 % SLOTS == slot && e.turn.1 == region
  }

  lemma EarlierStep(events: seq<Event>, regions: nat, slot: nat, region: nat)
    requires events != []
    ensures var n := |events| - 1;
      Earlier(events, regions, slot, region) <==>
        Earlier(events[..n], regions, slot, region) ||
        (AdmittedAt(events, regions, n) && Matches(events[n], slot, region))
  {
    var n := |events| - 1;
    var init := events[..n];
    forall i | 0 <= i < n ensures AdmittedAt(init, regions, i) <==> AdmittedAt(events, regions, i) {
      AdmittedPrefix(events, regions, i, n);
    }
    if Earlier(init, regions, slot, region) {
      var i :| 0 <= i < n && AdmittedAt(init, regions, i) && Matches(init[i], slot, region);
      assert AdmittedAt(events, regions, i) && Matches(events[i], slot, region);
    }
    if Earlier(events, regions, slot, region) {
      var i :| 0 <= i < |events| && AdmittedAt(events, regions, i) && Matches(events[i], slot, region);
      assert i < n ==> AdmittedAt(init, regions, i) && Matches(init[i], slot, region);
    }
  }

  /** What the checklist has ticked off is exactly what was admitted, by number modulo 2^20. */
  lemma {:induction false} SeenExactly(events: seq<Event>, regions: nat, slot: nat, region: nat)
    requires slot < SLOTS
    ensures region in Run(events, regions).checklist.seen[slot] <==> Earlier(events, regions, slot, region)
    ensures Run(events, regions).checklist.minSeq == Floor(events)
  {
    if events != [] {
      SeenExactly(events[..|events| - 1], regions, slot, region);
      EarlierStep(events, regions, slot, region);
    }
  }

  /**
    * Exactly when the duplicate check lets a message through: its number is not below the bound, and no earlier
    * admitted message of that region has the same number modulo 2^20. So each turn is admitted at most once.
    */
  lemma AdmissionExact(events: seq<Event>, regions: nat, i: nat)
    requires i < |events| && events[i].Message?
    ensures var t := events[i].turn;
      AdmittedAt(events, regions, i) <==>
        t.0 >= Floor(events[..i]) && !Earlier(events[..i], regions, t.0 % SLOTS, t.1)
  {
    SeenExactly(events[..i], regions, events[i].turn.0 % SLOTS, events[i].turn.1);
  }

  /** A request 2^20 numbers after an admitted one of its region is refused, although it is new. */
  lemma WrappedRequestRefused(hash: Digest)
    ensures var events := [Message((1, 1), hash, true), Message((1 + SLOTS, 1), hash, true)];
      AdmittedAt(events, 1, 0) && !AdmittedAt(events, 1, 1)
  {
    var events := [Message((1, 1), hash, true), Message((1 + SLOTS, 1), hash, true)];
    AdmissionExact(events, 1, 0);
    AdmissionExact(events, 1, 1);
    AdmittedPrefix(events, 1, 0, 1);
    assert events[..0] == [] && Floor(events[..1][..0]) == 0 && Floor(events[..1]) == 0;
    assert Earlier(events[..1], 1, 1, 1) by {
      assert AdmittedAt(events[..1], 1, 0) && Matches(events[..1][0], 1, 1);
    }
  }

  /** A pending request before the next turn, such as one numbered 0, stops execution for good. */
  lemma StaleBlocks(o: Orderer, stale: Turn, t: Turn, d: Digest, regions: nat)
    requires stale in o.pending && !Le(o.next, stale)
    ensures var o' := Order(o, t, d, regions);
      o'.executed == o.executed && o'.next == o.next && stale in o'.pending
  {
    var pending := o.pending[t := d];
    assert stale in pending.Keys;
    assert Le(First(pending.Keys), stale);
  }

  // ----- the two classes of the source

  class GeoPBFTCommitment {
    const checklist: array<set<nat>>
    var minSeq: nat

    ghost predicate Valid()
      reads this, checklist
    {
      checklist.Length == SLOTS
    }

    function View(): (c: Checklist)
      reads this, checklist
      requires checklist.Length == SLOTS
      ensures ChecklistOk(c)
    {
      Checklist(checklist[..], minSeq)
    }

    constructor ()
      ensures Valid() && fresh(checklist) && View() == EmptyChecklist()
    {
      checklist := new set<nat>[SLOTS](_ => {});
      minSeq := 0;
    }

    method AddNewReq(t: Turn) returns (ok: bool)
      requires Valid()
      modifies checklist
      ensures Valid() && (View(), ok) == Admit(old(View()), t)
    {
      if t.0 < minSeq {
        return false;
      }
      var slot := t.0 % SLOTS;
      ok := t.1 !in checklist[slot];
      if ok {
        checklist[slot] := checklist[slot] + {t.1};
      }
    }

    method UpdateSeq(sn: nat)
      requires Valid()
      modifies this`minSeq
      ensures Valid() && View() == old(View()).(minSeq := if sn > old(minSeq) then sn else old(minSeq))
    {
      if sn > minSeq {
        minSeq := sn;
      }
    }
  }

  class GeoGlobalExecutor {
    const regions: nat
    var executeMap: map<Turn, Digest>
    var nextSeq: nat
    var nextRegion: nat
    ghost var executed: seq<(Turn, Digest)>

    ghost function View(): (o: Orderer)
      reads this
    {
      Orderer(executeMap, (nextSeq, nextRegion), executed)
    }

    constructor (regions: nat)
      ensures View() == INITIAL && this.regions == regions
    {
      this.regions := regions;
      executeMap, nextSeq, nextRegion, executed := map[], 1, 1, [];
    }

    /** One pass of `OrderRound`: file the request, then execute what is due. */
    method OrderRound(t: Turn, hash: Digest)
      modifies this
      ensures View() == Order(old(View()), t, hash, regions)
    {
      executeMap := executeMap[t := hash];
      ghost var target := Drain(View(), regions);
      while true
        invariant Drain(View(), regions) == target
        decreases |executeMap|
      {
        ghost var before := View();
        var popped := GetNextMap();
        if popped == None {
          break;
        }
        executed := executed + [(before.next, popped.value)];
      }
    }

    method GetNextMap() returns (popped: Option<Digest>)
      modifies this`executeMap, this`nextSeq, this`nextRegion
      ensures popped == None ==> View() == old(View()) && Drain(View(), regions) == View()
      ensures popped.Some? ==>
        var o := old(View());
        && o.next in o.pending && popped.value == o.pending[o.next]
        && View() == o.(pending := o.pending - {o.next}, next := Following(o.next, regions))
        && |executeMap| < |old(executeMap)|
        && Drain(o, regions) == Drain(View().(executed := o.executed + [(o.next, popped.value)]), regions)
    {
      var next := (nextSeq, nextRegion);
      if executeMap == map[] || First(executeMap.Keys) != next {
        return None;
      }
      popped := Some(executeMap[next]);
      executeMap := executeMap - {next};
      assert old(executeMap).Keys == executeMap.Keys + {next};
      nextRegion := nextRegion + 1;
      if nextRegion > regions {
        nextRegion, nextSeq := 1, nextSeq + 1;
      }
    }
  }
}
