/** `CheckPointManager`: the running hash of executed requests, checkpoint votes, and fetched batches. */
module Checkpoint {
  import opened Messages
  import opened Lexicographic
  import opened Modular

  /** `GetHash(h1, h2)`: the hash of the concatenation. */
  type Hash = string -> string

  /** `last_hash_` after executing these request digests. */
  function Chain(sha: Hash, digests: seq<Digest>): string {
    Extend(sha, "", digests)
  }

  /** The running hash continued from `start`. */
  function Extend(sha: Hash, start: string, digests: seq<Digest>): string {
    if digests == [] then start
    else sha(Extend(sha, start, digests[..|digests| - 1]) + digests[|digests| - 1])
  }

  lemma {:induction false} ExtendAppend(sha: Hash, start: string, a: seq<Digest>, b: seq<Digest>)
    ensures Extend(sha, Extend(sha, start, a), b) == Extend(sha, start, a + b)
  {
    if b == [] {
      assert a + b == a;
    } else {
      var n := |b| - 1;
      ExtendAppend(sha, start, a, b[..n]);
      assert (a + b)[..|a| + n] == a + b[..n];
    }
  }

  /** The strings hashed along the way. */
  function Inputs(sha: Hash, digests: seq<Digest>): set<string> {
    if digests == [] then {}
    else
      var init, last := digests[..|digests| - 1], digests[|digests| - 1];
      Inputs(sha, init) + {Chain(sha, init) + last}
  }

  ghost predicate NoCollision(sha: Hash, inputs: set<string>) {
    forall x, y :: x in inputs && y in inputs && sha(x) == sha(y) ==> x == y
  }

  /** Hash values have one length; digests are not empty and not longer ("null" digests are shorter). */
  ghost predicate Sized(sha: Hash, size: nat, digests: seq<Digest>) {
    && (forall x :: |sha(x)| == size)
    && forall d :: d in digests ==> 1 <= |d| <= size
  }

  lemma SplitSame(p: string, x: string, q: string, y: string)
    requires p + x == q + y && |p| == |q|
    ensures p == q && x == y
  {
    assert p == (p + x)[..|p|] && q == (q + y)[..|q|];
    assert x == (p + x)[|p|..] && y == (q + y)[|q|..];
  }

  /**
    * Lists with equal running hashes are equal, whatever their lengths, if no two of the strings hashed for
    * them collide.
    */
  lemma {:induction false} ChainInjective(sha: Hash, size: nat, a: seq<Digest>, b: seq<Digest>)
    requires Sized(sha, size, a) && Sized(sha, size, b)
    requires NoCollision(sha, Inputs(sha, a) + Inputs(sha, b))
    requires Chain(sha, a) == Chain(sha, b)
    ensures a == b
  {
    if a != [] && b != [] {
      var a0, b0 := a[..|a| - 1], b[..|b| - 1];
      ChainEnds(sha, size, a, b);
      FewerInputs(sha, size, a, b);
      ChainInjective(sha, size, a0, b0);
      assert a == a0 + [a[|a| - 1]] && b == b0 + [b[|b| - 1]];
    }
  }

  lemma FewerInputs(sha: Hash, size: nat, a: seq<Digest>, b: seq<Digest>)
    requires Sized(sha, size, a) && Sized(sha, size, b) && a != [] && b != []
    requires NoCollision(sha, Inputs(sha, a) + Inputs(sha, b))
    ensures var a0, b0 := a[..|a| - 1], b[..|b| - 1];
      Sized(sha, size, a0) && Sized(sha, size, b0) && NoCollision(sha, Inputs(sha, a0) + Inputs(sha, b0))
  {
    assert Inputs(sha, a[..|a| - 1]) <= Inputs(sha, a) && Inputs(sha, b[..|b| - 1]) <= Inputs(sha, b);
  }

  /** Equal hashes of two lists come from equal hashes of what precedes their last digests, which are equal too. */
  lemma ChainEnds(sha: Hash, size: nat, a: seq<Digest>, b: seq<Digest>)
    requires Sized(sha, size, a) && Sized(sha, size, b) && a != [] && b != []
    requires NoCollision(sha, Inputs(sha, a) + Inputs(sha, b))
    requires Chain(sha, a) == Chain(sha, b)
    ensures Chain(sha, a[..|a| - 1]) == Chain(sha, b[..|b| - 1]) && a[|a| - 1] == b[|b| - 1]
  {
    var x, y := a[|a| - 1], b[|b| - 1];
    var p, q := Chain(sha, a[..|a| - 1]), Chain(sha, b[..|b| - 1]);
    assert p + x in Inputs(sha, a) && q + y in Inputs(sha, b);
    assert p + x == q + y && x in a && y in b;
    assert |p| == |q| by { assert |p + x| == |q + y|; }
    SplitSame(p, x, q, y);
  }

  datatype Stable = Stable(sn: nat, hash: string, signatures: seq<string>)

  /** Votes by (number, hash): who sent them, and their signatures in arrival order. */
  datatype Votes = Votes(senders: map<Key, set<nat>>, signs: map<Key, seq<string>>, stable: Stable)

  const NO_VOTES: Votes := Votes(map[], map[], Stable(0, "", []))

  function SendersFor(v: Votes, k: Key): set<nat> {
    if k in v.senders then v.senders[k] else {}
  }

  function SignsFor(v: Votes, k: Key): seq<string> {
    if k in v.signs then v.signs[k] else []
  }

  /** `ProcessCheckPoint` once number and signature have been checked. */
  function AddVote(v: Votes, k: Key, sender: nat, sign: string): Votes {
    if sender in SendersFor(v, k) then v
    else v.(senders := v.senders[k := SendersFor(v, k) + {sender}], signs := v.signs[k := SignsFor(v, k) + [sign]])
  }

  /** One signature per distinct sender, under the same keys. */
  ghost predicate Paired(v: Votes) {
    && v.senders.Keys == v.signs.Keys
    && forall k :: k in v.senders && k in v.signs ==> |v.signs[k]| == |v.senders[k]|
  }

  ghost function QuorumKeys(v: Votes, quorum: nat): set<Key> {
    set k | k in v.senders && |v.senders[k]| >= quorum
  }

  /** `UpdateStableCheckPointStatus`: the last key with a quorum, if newer, becomes stable and clears older votes. */
  ghost function Refreshed(v: Votes, quorum: nat): Votes {
    if QuorumKeys(v, quorum) == {} then v
    else
      var k := Greatest(QuorumKeys(v, quorum));
      if k.0 <= v.stable.sn then v
      else
        Votes(map j | j in v.senders && j.0 > k.0 :: v.senders[j],
              map j | j in v.signs && j.0 > k.0 :: v.signs[j],
              Stable(k.0, k.1, SignsFor(v, k)))
  }

  lemma AddVotePaired(v: Votes, k: Key, sender: nat, sign: string)
    requires Paired(v)
    ensures Paired(AddVote(v, k, sender, sign))
  {
  }

  /**
    * The stable number never decreases and reaches every number with a quorum; a new stable checkpoint carries
    * one signature for each of at least `quorum` distinct senders; the vote maps stay paired, and lose nothing
    * above the stable number.
    */
  lemma RefreshedSound(v: Votes, quorum: nat)
    requires Paired(v)
    ensures var v' := Refreshed(v, quorum);
      && Paired(v')
      && v'.stable.sn >= v.stable.sn
      && (forall k :: k in v.senders && |v.senders[k]| >= quorum ==> k.0 <= v'.stable.sn)
      && (forall k :: k in v.senders && k.0 > v'.stable.sn ==>
            k in v'.senders && k in v'.signs && v'.senders[k] == v.senders[k] && v'.signs[k] == v.signs[k])
      && (v'.stable != v.stable ==>
            var k := (v'.stable.sn, v'.stable.hash);
            k in v.senders && |v'.stable.signatures| == |v.senders[k]| >= quorum)
  {
    forall k | k in v.senders && |v.senders[k]| >= quorum ensures k.0 <= Refreshed(v, quorum).stable.sn {
      assert k in QuorumKeys(v, quorum);
      assert Le(k, Greatest(QuorumKeys(v, quorum)));
    }
  }

  class CheckPointManager {
    const sha: Hash
    const waterMark: nat
    var senders: map<Key, set<nat>>
    var signs: map<Key, seq<string>>
    var stable: Stable
    var lastSeq: nat
    var lastHash: string
    var lastCheckpoint: nat
    ghost var log: seq<Digest>

    function Ballots(): Votes
      reads this
    {
      Votes(senders, signs, stable)
    }

    ghost predicate Valid()
      reads this
    {
      && waterMark >= 1 && Paired(Ballots())
      && lastSeq == |log| && lastHash == Chain(sha, log)
      && lastCheckpoint == |log| / waterMark * waterMark
    }

    constructor (sha: Hash, waterMark: nat)
      requires waterMark >= 1
      ensures Valid() && Ballots() == NO_VOTES && log == [] && this.waterMark == waterMark && this.sha == sha
    {
      this.sha, this.waterMark := sha, waterMark;
      senders, signs, stable := map[], map[], Stable(0, "", []);
      lastSeq, lastHash, lastCheckpoint, log := 0, "", 0, [];
    }

    method ProcessCheckPoint(sn: nat, hash: string, sender: nat, sign: string, verified: bool) returns (ret: int)
      requires Valid()
      modifies this`senders, this`signs
      ensures Valid()
      ensures ret == if sn % waterMark != 0 || !verified then -2 else 0
      ensures Ballots() == if ret != 0 then old(Ballots()) else AddVote(old(Ballots()), (sn, hash), sender, sign)
    {
      if sn % waterMark != 0 || !verified {
        return -2;
      }
      var k := (sn, hash);
      if k !in senders || sender !in senders[k] {
        signs := signs[k := SignsFor(Ballots(), k) + [sign]];
        senders := senders[k := SendersFor(Ballots(), k) + {sender}];
      }
      return 0;
    }

    /** One executed request from the data queue: extend the hash chain, announce every `waterMark` requests. */
    method AddCommitted(sn: nat, hash: Digest, recovery: bool) returns (announce: Option<(nat, string)>)
      requires Valid()
      modifies this`lastSeq, this`lastHash, this`lastCheckpoint, this`log
      ensures Valid()
      ensures log == if sn == old(lastSeq) + 1 then old(log) + [hash] else old(log)
      ensures announce == if sn == old(lastSeq) + 1 && sn % waterMark == 0 && !recovery
                          then Some((sn, Chain(sha, log))) else None
    {
      announce := None;
      if sn != lastSeq + 1 {
        return;
      }
      lastHash := sha(lastHash + hash);
      lastSeq := lastSeq + 1;
      log := log + [hash];
      assert log[..|log| - 1] == old(log);
      NextMultiple(old(lastSeq), waterMark);
      if sn == lastCheckpoint + waterMark {
        lastCheckpoint := sn;
        if !recovery {
          announce := Some((sn, lastHash));
        }
      }
    }

    /** The loop over the votes in key order, then clearing what the new stable checkpoint covers. */
    method UpdateStable(quorum: nat)
      requires Valid()
      modifies this`senders, this`signs, this`stable
      ensures Valid()
      ensures Ballots() == Refreshed(old(Ballots()), quorum)
    {
      var found := LastQuorumKey(quorum);
      if found == None || found.value.0 <= stable.sn {
        return;
      }
      var k := found.value;
      var votes := signs[k];
      Erase(k.0);
      stable := Stable(k.0, k.1, votes);
    }

    method LastQuorumKey(quorum: nat) returns (found: Option<Key>)
      ensures found == if QuorumKeys(Ballots(), quorum) == {} then None
                       else Some(Greatest(QuorumKeys(Ballots(), quorum)))
    {
      found := None;
      var rest := senders.Keys;
      ghost var done: set<Key> := {};
      while rest != {}
        invariant done + rest == senders.Keys
        invariant forall a, b :: a in done && b in rest ==> Le(a, b)
        invariant found.None? ==> forall a :: a in done ==> |senders[a]| < quorum
        invariant found.Some? ==> IsGreatest(found.value, set a | a in done && |senders[a]| >= quorum)
        decreases rest
      {
        LeastUnique(rest);
        var k :| k in rest && forall j :: j in rest ==> Le(k, j);
        if |senders[k]| >= quorum {
          found := Some(k);
        }
        rest, done := rest - {k}, done + {k};
      }
      ghost var keys := QuorumKeys(Ballots(), quorum);
      assert keys == set a | a in done && |senders[a]| >= quorum;
      if found.Some? {
        GreatestUnique(keys);
      }
    }

    /** Erases votes up to a number; each key is erased from both maps, where it is always found. */
    method Erase(sn: nat)
      requires senders.Keys == signs.Keys
      modifies this`senders, this`signs
      ensures senders == map j | j in old(senders) && j.0 > sn :: old(senders)[j]
      ensures signs == map j | j in old(signs) && j.0 > sn :: old(signs)[j]
    {
      var rest := senders.Keys;
      while rest != {}
        invariant senders.Keys == signs.Keys && rest <= senders.Keys
        invariant senders.Keys == (set j | j in old(senders) && (j.0 > sn || j in rest))
        invariant forall j :: j in senders ==> senders[j] == old(senders)[j]
        invariant forall j :: j in signs ==> signs[j] == old(signs)[j]
        decreases rest
      {
        var k :| k in rest;
        if k.0 <= sn {
          assert k in signs;
          signs := signs - {k};
          senders := senders - {k};
        }
        rest := rest - {k};
      }
    }

    /** A fetched batch is taken over only if its payloads hash to its digests and those reach the vouched hash. */
    method CheckFetched(batch: seq<(string, Digest)>, vouched: string) returns (ok: bool)
      requires Valid()
      ensures ok <==>
        && (forall i :: 0 <= i < |batch| ==> sha(batch[i].0) == batch[i].1)
        && Chain(sha, log + DigestsOf(batch)) == vouched
    {
      var hash := lastHash;
      for i := 0 to |batch|
        invariant hash == Extend(sha, lastHash, DigestsOf(batch[..i]))
        invariant forall j :: 0 <= j < i ==> sha(batch[j].0) == batch[j].1
      {
        if sha(batch[i].0) != batch[i].1 {
          return false;
        }
        ExtendOne(sha, lastHash, batch, i);
        hash := sha(hash + batch[i].1);
      }
      assert batch[..|batch|] == batch;
      ExtendAppend(sha, "", log, DigestsOf(batch));
      return hash == vouched;
    }
  }

  lemma ExtendOne(sha: Hash, start: string, batch: seq<(string, Digest)>, i: nat)
    requires i < |batch|
    ensures Extend(sha, start, DigestsOf(batch[..i + 1])) == sha(Extend(sha, start, DigestsOf(batch[..i])) + batch[i].1)
  {
    assert batch[..i + 1][..i] == batch[..i];
    var before := DigestsOf(batch[..i]);
    assert DigestsOf(batch[..i + 1]) == before + [batch[i].1];
    assert (before + [batch[i].1])[..|before|] == before;
  }

  lemma {:induction false} DigestsAt(batch: seq<(string, Digest)>, i: nat)
    requires i < |batch|
    ensures |DigestsOf(batch)| == |batch| && DigestsOf(batch)[i] == batch[i].1
  {
    if |batch| > 1 {
      DigestsAt(batch[..|batch| - 1], if i < |batch| - 1 then i else 0);
    }
  }

  function DigestsOf(batch: seq<(string, Digest)>): seq<Digest> {
    if batch == [] then [] else DigestsOf(batch[..|batch| - 1]) + [batch[|batch| - 1].1]
  }

  lemma NextMultiple(n: nat, m: nat)
    requires m >= 1
    ensures n + 1 == n / m * m + m <==> (n + 1) % m == 0
    ensures (n + 1) / m * m == if (n + 1) % m == 0 then n + 1 else n / m * m
  {
    var q, r := n / m, n % m;
    assert n == m * q + r;
    if r + 1 < m {
      Quotient(n + 1, m, q, r + 1);
    } else {
      assert n + 1 == m * (q + 1);
      Quotient(n + 1, m, q + 1, 0);
    }
  }
}
