/** `DuplicateManager`: proposals are refused while their hash is remembered, for a sliding window of time. */
module DuplicateWindow {
  import opened Messages

  const WINDOW: nat := 20000000

  type Stamp = (Digest, nat)

  /** `proposed_hash_set_` and `proposed_hash_time_queue_`. */
  datatype State = State(hashes: set<Digest>, queue: seq<Stamp>)

  const INITIAL: State := State({}, [])

  predicate Expired(e: Stamp, time: nat) {
    e.1 + WINDOW < time
  }

  /** `CheckAndAddProposed`: true means refused. */
  function CheckAndAdd(s: State, hash: Digest, now: nat): (State, bool) {
    if hash in s.hashes then (s, true) else (State(s.hashes + {hash}, s.queue + [(hash, now)]), false)
  }

  function Erase(s: State, hash: Digest): State {
    s.(hashes := s.hashes - {hash})
  }

  /** The sweep: pops expired entries off the front and forgets their hashes. */
  function Sweep(s: State, time: nat): State
    decreases |s.queue|
  {
    if s.queue == [] || !Expired(s.queue[0], time) then s
    else Sweep(State(s.hashes - {s.queue[0].0}, s.queue[1..]), time)
  }

  class DuplicateManager {
    var hashes: set<Digest>
    var queue: seq<Stamp>

    function View(): State
      reads this
    {
      State(hashes, queue)
    }

    constructor ()
      ensures View() == INITIAL
    {
      hashes, queue := {}, [];
    }

    method CheckAndAddProposed(hash: Digest, now: nat) returns (refused: bool)
      modifies this
      ensures (View(), refused) == CheckAndAdd(old(View()), hash, now)
    {
      if hash in hashes {
        return true;
      }
      queue := queue + [(hash, now)];
      hashes := hashes + {hash};
      return false;
    }

    method EraseProposed(hash: Digest)
      modifies this`hashes
      ensures View() == Erase(old(View()), hash)
    {
      hashes := hashes - {hash};
    }

    /** One round of `UpdateRecentHash` for proposals. */
    method UpdateRecentHash(time: nat)
      modifies this
      ensures View() == Sweep(old(View()), time)
    {
      while true
        invariant Sweep(View(), time) == Sweep(old(View()), time)
        decreases |queue|
      {
        if queue == [] {
          break;
        }
        var front := queue[0];
        if !Expired(front, time) {
          break;
        }
        queue := queue[1..];
        hashes := hashes - {front.0};
      }
    }
  }

  // ----- runs

  datatype Event = Propose(hash: Digest, now: nat) | Forget(hash: Digest) | Tick(time: nat)

  function Step(s: State, e: Event): State {
    match e
    case Propose(hash, now) => CheckAndAdd(s, hash, now).0
    case Forget(hash) => Erase(s, hash)
    case Tick(time) => Sweep(s, time)
  }

  function Run(events: seq<Event>): State {
    if events == [] then INITIAL else Step(Run(events[..|events| - 1]), events[|events| - 1])
  }

  /** The latest proposal time so far. */
  function Clock(events: seq<Event>): nat {
    if events == [] then 0
    else
      var e := events[|events| - 1];
      if e.Propose? then e.now else Clock(events[..|events| - 1])
  }

  /** Proposals come with non-decreasing times. */
  predicate Monotone(events: seq<Event>) {
    events != [] ==>
      && Monotone(events[..|events| - 1])
      && (events[|events| - 1].Propose? ==> Clock(events[..|events| - 1]) <= events[|events| - 1].now)
  }

  predicate ByTime(queue: seq<Stamp>) {
    forall i, j :: 0 <= i < j < |queue| ==> queue[i].1 <= queue[j].1
  }

  ghost predicate Queued(s: State, hash: Digest) {
    exists e :: e in s.queue && e.0 == hash
  }

  /** Some queued entry for this hash has expired. */
  ghost predicate Due(s: State, hash: Digest, time: nat) {
    exists e :: e in s.queue && e.0 == hash && Expired(e, time)
  }

  /** What every run keeps: the queue is in time order and every remembered hash has an entry in it. */
  ghost predicate Sound(s: State, clock: nat) {
    && ByTime(s.queue) && (forall e :: e in s.queue ==> e.1 <= clock)
    && forall h :: h in s.hashes ==> Queued(s, h)
  }

  /**
    * A sweep drops exactly the expired entries from the queue, and forgets a hash exactly when some queued entry
    * for it, not necessarily its latest, has expired.
    */
  lemma {:induction false} SweepExact(s: State, time: nat)
    requires ByTime(s.queue)
    ensures var s' := Sweep(s, time);
      && ByTime(s'.queue)
      && (forall e :: e in s'.queue <==> e in s.queue && !Expired(e, time))
      && (forall h :: h in s'.hashes <==> h in s.hashes && !Due(s, h, time))
    decreases |s.queue|
  {
    if s.queue == [] {
    } else if !Expired(s.queue[0], time) {
      forall e | e in s.queue ensures !Expired(e, time) {
        var i :| 0 <= i < |s.queue| && s.queue[i] == e;
      }
    } else {
      var rest := State(s.hashes - {s.queue[0].0}, s.queue[1..]);
      assert s.queue == [s.queue[0]] + rest.queue;
      SweepExact(rest, time);
      forall h ensures Due(s, h, time) <==> Due(rest, h, time) || h == s.queue[0].0 {
        if Due(rest, h, time) {
          var e :| e in rest.queue && e.0 == h && Expired(e, time);
          assert e in s.queue;
        }
        assert s.queue[0] in s.queue;
      }
    }
  }

  lemma SweepSound(s: State, clock: nat, time: nat)
    requires Sound(s, clock)
    ensures Sound(Sweep(s, time), clock)
  {
    var s' := Sweep(s, time);
    SweepExact(s, time);
    forall h | h in s'.hashes ensures Queued(s', h) {
      var e :| e in s.queue && e.0 == h;
      assert !Due(s, h, time);
      assert e in s'.queue;
    }
  }

  /** Erased or not, every remembered hash is in the queue, and the queue is in time order. */
  lemma {:induction false} RunSound(events: seq<Event>)
    requires Monotone(events)
    ensures Sound(Run(events), Clock(events))
  {
    if events != [] {
      var init, e := events[..|events| - 1], events[|events| - 1];
      RunSound(init);
      var s, s' := Run(init), Run(events);
      match e
      case Propose(hash, now) =>
        if hash !in s.hashes {
          assert (hash, now) in s'.queue;
          forall h | h in s.hashes ensures Queued(s', h) {
            var x :| x in s.queue && x.0 == h;
            assert x in s'.queue;
          }
        }
      case Forget(hash) =>
        forall h | h in s'.hashes ensures Queued(s', h) {
          assert Queued(s, h);
        }
      case Tick(time) => SweepSound(s, Clock(init), time);
    }
  }

  predicate NoErase(events: seq<Event>) {
    forall e :: e in events ==> !e.Forget?
  }

  predicate DistinctHashes(queue: seq<Stamp>) {
    forall i, j :: 0 <= i < j < |queue| ==> queue[i].0 != queue[j].0
  }

  lemma {:induction false} SweepDistinct(s: State, time: nat)
    requires DistinctHashes(s.queue) && forall h :: h in s.hashes <==> Queued(s, h)
    ensures var s' := Sweep(s, time); DistinctHashes(s'.queue) && forall h :: h in s'.hashes <==> Queued(s', h)
    decreases |s.queue|
  {
    if s.queue != [] && Expired(s.queue[0], time) {
      var rest := State(s.hashes - {s.queue[0].0}, s.queue[1..]);
      assert s.queue == [s.queue[0]] + rest.queue;
      forall h ensures h in rest.hashes <==> Queued(rest, h) {
        if Queued(rest, h) {
          var e :| e in rest.queue && e.0 == h;
          assert e in s.queue;
        }
      }
      SweepDistinct(rest, time);
    }
  }

  /** Without erasures the remembered hashes are exactly those in the queue, each there once. */
  lemma {:induction false} ExactWithoutErase(events: seq<Event>)
    requires NoErase(events)
    ensures var s := Run(events); DistinctHashes(s.queue) && forall h :: h in s.hashes <==> Queued(s, h)
  {
    if events != [] {
      var init, e := events[..|events| - 1], events[|events| - 1];
      assert e in events;
      ExactWithoutErase(init);
      var s, s' := Run(init), Run(events);
      match e
      case Propose(hash, now) =>
        if hash !in s.hashes {
          forall h ensures h in s'.hashes <==> Queued(s', h) {
            assert Queued(s', h) <==> Queued(s, h) || h == hash by {
              assert (hash, now) in s'.queue;
              if Queued(s, h) {
                var x :| x in s.queue && x.0 == h;
                assert x in s'.queue;
              }
            }
          }
          forall i | 0 <= i < |s.queue| ensures s.queue[i].0 != hash {
            assert s.queue[i] in s.queue;
          }
        }
      case Tick(time) => SweepDistinct(s, time);
    }
  }

  /** Nothing in these events is about this hash. */
  predicate Untouched(events: seq<Event>, hash: Digest) {
    forall e :: e in events ==> (e.Propose? ==> e.hash != hash) && (e.Forget? ==> e.hash != hash)
  }

  /** While a hash is remembered and untouched, its queue entries stay what they were. */
  ghost predicate Keeps(s0: State, s: State, hash: Digest) {
    hash in s.hashes ==> forall e: Stamp :: e.0 == hash ==> (e in s.queue <==> e in s0.queue)
  }

  ghost predicate NoneDue(s0: State, post: seq<Event>, hash: Digest) {
    forall e :: e in post && e.Tick? ==> !Due(s0, hash, e.time)
  }

  /**
    * How long a proposal is refused. After `pre`, a remembered hash that later events do not touch is still
    * remembered, and so refused, exactly when no sweep since then found an expired queue entry for it.
    */
  lemma {:induction false} RememberedExactly(pre: seq<Event>, post: seq<Event>, hash: Digest)
    requires Monotone(pre + post) && hash in Run(pre).hashes && Untouched(post, hash)
    ensures hash in Run(pre + post).hashes <==> NoneDue(Run(pre), post, hash)
    ensures Keeps(Run(pre), Run(pre + post), hash)
  {
    if post == [] {
      assert pre + post == pre;
    } else {
      var init, e := post[..|post| - 1], post[|post| - 1];
      assert post == init + [e];
      assert (pre + post)[..|pre + post| - 1] == pre + init;
      RememberedExactly(pre, init, hash);
      var s0, s := Run(pre), Run(pre + init);
      RunSound(pre + init);
      assert NoneDue(s0, post, hash) <==> NoneDue(s0, init, hash) && (e.Tick? ==> !Due(s0, hash, e.time));
      if e.Tick? {
        SweepExact(s, e.time);
        if hash in s.hashes {
          SameDue(s0, s, hash, e.time);
          assert hash in Sweep(s, e.time).hashes ==> Keeps(s0, Sweep(s, e.time), hash) by {
            NotDueKept(s, hash, e.time);
          }
        }
      }
    }
  }

  lemma SameDue(s0: State, s: State, hash: Digest, time: nat)
    requires hash in s.hashes && Keeps(s0, s, hash)
    ensures Due(s0, hash, time) <==> Due(s, hash, time)
  {
    if Due(s0, hash, time) {
      var e :| e in s0.queue && e.0 == hash && Expired(e, time);
      assert e in s.queue;
    }
    if Due(s, hash, time) {
      var e :| e in s.queue && e.0 == hash && Expired(e, time);
      assert e in s0.queue;
    }
  }

  lemma NotDueKept(s: State, hash: Digest, time: nat)
    requires ByTime(s.queue)
    ensures !Due(s, hash, time) ==> forall e: Stamp :: e.0 == hash ==> (e in Sweep(s, time).queue <==> e in s.queue)
  {
    SweepExact(s, time);
  }

  /** Without erasures: a hash accepted at time t is refused exactly until a sweep later than t + window. */
  lemma RefusedUntilWindow(pre: seq<Event>, post: seq<Event>, hash: Digest, t: nat)
    requires Monotone(pre + [Propose(hash, t)] + post) && NoErase(pre) && Untouched(post, hash)
    requires hash !in Run(pre).hashes
    ensures var all := pre + [Propose(hash, t)] + post;
      hash in Run(all).hashes <==> forall e :: e in post && e.Tick? ==> e.time <= t + WINDOW
  {
    var first := pre + [Propose(hash, t)];
    assert first[..|pre|] == pre;
    ExactWithoutErase(pre);
    RememberedExactly(first, post, hash);
    var s := Run(first);
    forall e | e in s.queue && e.0 == hash ensures e == (hash, t) {
      assert !Queued(Run(pre), hash);
    }
    assert (hash, t) in s.queue;
    forall time ensures Due(s, hash, time) <==> t + WINDOW < time {
      if Due(s, hash, time) {
        var e :| e in s.queue && e.0 == hash && Expired(e, time);
      }
      if t + WINDOW < time {
        assert Expired((hash, t), time);
      }
    }
  }

  /** An erased and re-proposed hash is forgotten with its old entry, before its own window is over. */
  lemma ForgottenEarly(h: Digest)
    ensures h !in Run([Propose(h, 0), Forget(h), Propose(h, 10), Tick(WINDOW + 5)]).hashes
  {
    var a, b, c, d := Propose(h, 0), Forget(h), Propose(h, 10), Tick(WINDOW + 5);
    assert [a, b, c, d][..3] == [a, b, c] && [a, b, c][..2] == [a, b] && [a, b][..1] == [a] && [a][..0] == [];
    assert Run([a]) == State({h}, [(h, 0)]);
    assert Run([a, b]) == State({}, [(h, 0)]);
    assert Run([a, b, c]) == State({h}, [(h, 0), (h, 10)]);
    SweepExact(Run([a, b, c]), WINDOW + 5);
    assert Due(Run([a, b, c]), h, WINDOW + 5) by { assert (h, 0) in Run([a, b, c]).queue; }
  }

  // ----- what is answered

  /** The answer to a proposal of this hash after these events. */
  function Refuses(events: seq<Event>, hash: Digest, now: nat): bool {
    CheckAndAdd(Run(events), hash, now).1
  }

  /** Every proposal of this hash, if any, was followed by an erasure. */
  ghost predicate Withdrawn(events: seq<Event>, hash: Digest) {
    forall i :: 0 <= i < |events| && events[i].Propose? && events[i].hash == hash ==> ErasedAfter(events, hash, i)
  }

  ghost predicate ErasedAfter(events: seq<Event>, hash: Digest, i: int) {
    exists j :: 0 <= i < j < |events| && events[j] == Forget(hash)
  }

  /** A hash nobody proposed, or nobody since it was erased, is not refused. */
  lemma {:induction false} WithdrawnAccepted(events: seq<Event>, hash: Digest, now: nat)
    requires Withdrawn(events, hash)
    ensures !Refuses(events, hash, now)
  {
    if events != [] {
      var init, e := events[..|events| - 1], events[|events| - 1];
      if e != Forget(hash) {
        forall i | 0 <= i < |init| && init[i].Propose? && init[i].hash == hash ensures ErasedAfter(init, hash, i) {
          assert events[i] == init[i];
          var j :| i < j < |events| && events[j] == Forget(hash);
          assert init[j] == Forget(hash);
        }
        WithdrawnAccepted(init, hash, now);
        if e.Tick? {
          SweepOnlyForgets(Run(init), e.time);
        }
      }
    }
  }

  lemma {:induction false} SweepOnlyForgets(s: State, time: nat)
    ensures Sweep(s, time).hashes <= s.hashes
    decreases |s.queue|
  {
    if s.queue != [] && Expired(s.queue[0], time) {
      SweepOnlyForgets(State(s.hashes - {s.queue[0].0}, s.queue[1..]), time);
    }
  }

  /** Without erasures: a hash accepted at time t is refused exactly until a sweep later than t + window. */
  lemma RefusedExactly(pre: seq<Event>, post: seq<Event>, hash: Digest, t: nat, now: nat)
    requires Monotone(pre + [Propose(hash, t)] + post) && NoErase(pre) && Untouched(post, hash)
    requires !Refuses(pre, hash, t)
    ensures Refuses(pre + [Propose(hash, t)] + post, hash, now) <==>
      forall e :: e in post && e.Tick? ==> e.time <= t + WINDOW
  {
    RefusedUntilWindow(pre, post, hash, t);
  }

  /** One hash on its own: whether it is held, and the times of the entries still queued for it. */
  datatype Life = Life(held: bool, times: set<nat>)

  function Live(life: Life, hash: Digest, e: Event): Life {
    match e
    case Propose(h, now) => if h == hash && !life.held then Life(true, life.times + {now}) else life
    case Forget(h) => if h == hash then life.(held := false) else life
    case Tick(time) =>
      var kept := set t | t in life.times && time <= t + WINDOW;
      Life(life.held && kept == life.times, kept)
  }

  function LifeOf(events: seq<Event>, hash: Digest): Life {
    if events == [] then Life(false, {}) else Live(LifeOf(events[..|events| - 1], hash), hash, events[|events| - 1])
  }

  ghost predicate Projects(s: State, hash: Digest, life: Life) {
    (hash in s.hashes <==> life.held) && forall t :: (hash, t) in s.queue <==> t in life.times
  }

  lemma SweepProjects(s: State, hash: Digest, life: Life, time: nat)
    requires ByTime(s.queue) && Projects(s, hash, life)
    ensures Projects(Sweep(s, time), hash, Live(life, hash, Tick(time)))
  {
    SweepExact(s, time);
    if Due(s, hash, time) {
      var e :| e in s.queue && e.0 == hash && Expired(e, time);
      assert e == (hash, e.1) && e.1 in life.times;
    } else {
      forall t | t in life.times ensures time <= t + WINDOW {
        assert (hash, t) in s.queue;
      }
    }
  }

  /**
    * Erasures or not, the one table and the one queue treat every hash as if it were alone: it is refused exactly
    * while its own events, with the sweeps, hold it.
    */
  lemma {:induction false} EachHashAlone(events: seq<Event>, hash: Digest, now: nat)
    requires Monotone(events)
    ensures Projects(Run(events), hash, LifeOf(events, hash))
    ensures Refuses(events, hash, now) == LifeOf(events, hash).held
  {
    if events != [] {
      var init, e := events[..|events| - 1], events[|events| - 1];
      EachHashAlone(init, hash, now);
      if e.Tick? {
        RunSound(init);
        SweepProjects(Run(init), hash, LifeOf(init, hash), e.time);
      }
    }
  }
}
