/** `TransactionExecutor::OrderMessage`: committed requests leave in sequence order, whatever order they came in. */
module Executor {
  import opened Messages
  import opened OrderedKeys

  datatype State = State(next: nat, candidates: map<nat, Request>, delivered: seq<Request>)

  const INITIAL: State := State(1, map[], [])

  /** Hands over the first buffered request while it is the next one due. */
  function Drain(s: State): State
    decreases |s.candidates|
  {
    if s.candidates == map[] || Least(s.candidates.Keys) != s.next then s
    else
      Drain(State(s.next + 1, s.candidates - {s.next}, s.delivered + [s.candidates[s.next]]))
  }

  /** `insert` keeps the request that is already there. */
  function AddNewData(s: State, r: Request): State {
    if r.sn in s.candidates then s else s.(candidates := s.candidates[r.sn := r])
  }

  function Order(s: State, r: Request): State {
    if s.next > r.sn then s else Drain(AddNewData(s, r))
  }

  class TransactionExecutor {
    var nextExecuteSeq: nat
    var candidates: map<nat, Request>
    var executeQueue: seq<Request>

    function View(): (s: State)
      reads this
    {
      State(nextExecuteSeq, candidates, executeQueue)
    }

    constructor ()
      ensures View() == INITIAL
    {
      nextExecuteSeq, candidates, executeQueue := 1, map[], [];
    }

    /** One pass of the ordering thread over a request popped from the commit queue. */
    method OrderMessage(message: Request)
      modifies this
      ensures View() == Order(old(View()), message)
    {
      if nextExecuteSeq > message.sn {
        return;
      }
      if message.sn !in candidates {
        candidates := candidates[message.sn := message];
      }
      ghost var target := Drain(View());
      while true
        invariant Drain(View()) == target
        decreases |candidates|
      {
        var data := GetNextData();
        if data == None {
          break;
        }
        executeQueue := executeQueue + [data.value];
        nextExecuteSeq := nextExecuteSeq + 1;
      }
    }

    method GetNextData() returns (data: Option<Request>)
      modifies this`candidates
      ensures data == None ==> candidates == old(candidates) && Drain(View()) == View()
      ensures data.Some? ==>
        && nextExecuteSeq in old(candidates) && data.value == old(candidates)[nextExecuteSeq]
        && candidates == old(candidates) - {nextExecuteSeq} && |candidates| < |old(candidates)|
        && Drain(old(View())) == Drain(State(nextExecuteSeq + 1, candidates, executeQueue + [data.value]))
    {
      if candidates == map[] || Least(candidates.Keys) != nextExecuteSeq {
        return None;
      }
      data := Some(candidates[nextExecuteSeq]);
      candidates := candidates - {nextExecuteSeq};
      assert old(candidates).Keys == candidates.Keys + {nextExecuteSeq};
    }
  }

  /** The state after a list of commits, oldest first. */
  function Run(arrivals: seq<Request>): State {
    if arrivals == [] then INITIAL else Order(Run(arrivals[..|arrivals| - 1]), arrivals[|arrivals| - 1])
  }

  predicate Arrived(arrivals: seq<Request>, n: nat) {
    exists r :: r in arrivals && r.sn == n
  }

  /** The earliest arrival for a sequence number. */
  function FirstFor(arrivals: seq<Request>, n: nat): (r: Request)
    requires Arrived(arrivals, n)
    ensures r in arrivals && r.sn == n
  {
    if arrivals[0].sn == n then arrivals[0] else FirstFor(arrivals[1..], n)
  }

  lemma {:induction false} FirstForAppend(arrivals: seq<Request>, r: Request, n: nat)
    requires Arrived(arrivals + [r], n)
    ensures FirstFor(arrivals + [r], n) == if Arrived(arrivals, n) then FirstFor(arrivals, n) else r
  {
    if arrivals != [] && arrivals[0].sn != n {
      assert (arrivals + [r])[1..] == arrivals[1..] + [r];
      FirstForAppend(arrivals[1..], r, n);
      assert arrivals == [arrivals[0]] + arrivals[1..];
      assert Arrived(arrivals, n) ==> Arrived(arrivals[1..], n);
    }
  }

  /** Everything due was delivered from its first arrival; everything else that came is buffered. */
  ghost predicate Tracks(s: State, arrivals: seq<Request>) {
    && s.next == |s.delivered| + 1
    && (forall n :: 1 <= n < s.next ==> Arrived(arrivals, n) && s.delivered[n - 1] == FirstFor(arrivals, n))
    && (forall n :: n in s.candidates <==> n >= s.next && Arrived(arrivals, n))
    && (forall n :: n in s.candidates ==> s.candidates[n] == FirstFor(arrivals, n))
  }

  /** Delivering the next request keeps the account. */
  lemma DeliverTracks(s: State, arrivals: seq<Request>)
    requires Tracks(s, arrivals) && s.next in s.candidates
    ensures Tracks(State(s.next + 1, s.candidates - {s.next}, s.delivered + [s.candidates[s.next]]), arrivals)
  {
  }

  lemma {:induction false} DrainTracks(s: State, arrivals: seq<Request>)
    requires Tracks(s, arrivals)
    ensures Tracks(Drain(s), arrivals) && !Arrived(arrivals, Drain(s).next)
    decreases |s.candidates|
  {
    if s.next in s.candidates {
      assert Least(s.candidates.Keys) == s.next;
      DeliverTracks(s, arrivals);
      DrainTracks(State(s.next + 1, s.candidates - {s.next}, s.delivered + [s.candidates[s.next]]), arrivals);
    }
  }

  lemma AddTracks(s: State, arrivals: seq<Request>, r: Request)
    requires Tracks(s, arrivals)
    ensures Tracks(if s.next > r.sn then s else AddNewData(s, r), arrivals + [r])
  {
    forall n | Arrived(arrivals + [r], n)
      ensures FirstFor(arrivals + [r], n) == if Arrived(arrivals, n) then FirstFor(arrivals, n) else r
    {
      FirstForAppend(arrivals, r, n);
    }
    forall n ensures Arrived(arrivals + [r], n) <==> Arrived(arrivals, n) || n == r.sn {
      assert r in arrivals + [r];
    }
  }

  /**
    * For any list of commits, with gaps, repeats and in any order: the delivered requests are numbers
    * 1..k, k + 1 has not arrived, each is the first arrival for its number, and nothing stale is buffered.
    */
  lemma {:induction false} InOrder(arrivals: seq<Request>)
    ensures var s := Run(arrivals);
      && Tracks(s, arrivals)
      && !Arrived(arrivals, s.next)
  {
    if arrivals != [] {
      var init, r := arrivals[..|arrivals| - 1], arrivals[|arrivals| - 1];
      assert arrivals == init + [r];
      InOrder(init);
      AddTracks(Run(init), init, r);
      if Run(init).next <= r.sn {
        DrainTracks(AddNewData(Run(init), r), arrivals);
      }
    }
  }
}
