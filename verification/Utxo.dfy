/** The UTXO ledger: a mempool of transactions with spendable outputs, and a wallet that caches balances. */
module Utxo {
  import opened Messages
  import Decimal

  datatype Out = Out(address: string, value: int, spent: bool, pubKey: string)

  datatype In = In(prevId: int, outIdx: nat)

  datatype Transaction = Transaction(ins: seq<In>, outs: seq<Out>, sig: string, address: string)

  /** Signature check: message, public key, signature. */
  type Verifier = (string, string, string) -> bool

  /** Transaction ids are positions in `txs`. */
  datatype Ledger = Ledger(txs: seq<Transaction>, wallet: map<string, int>)

  function Coin(wallet: map<string, int>, address: string): int {
    if address in wallet then wallet[address] else 0
  }

  function AddCoin(wallet: map<string, int>, address: string, value: int): map<string, int> {
    wallet[address := Coin(wallet, address) + value]
  }

  predicate Exists(txs: seq<Transaction>, i: In) {
    0 <= i.prevId < |txs| && i.outIdx < |txs[i.prevId].outs|
  }

  function OutAt(txs: seq<Transaction>, i: In): Out
    requires Exists(txs, i)
  {
    txs[i.prevId].outs[i.outIdx]
  }

  /** `GetUTXO` succeeds: the output exists, is unspent and belongs to the address. */
  predicate Spendable(txs: seq<Transaction>, i: In, address: string) {
    Exists(txs, i) && !OutAt(txs, i).spent && OutAt(txs, i).address == address
  }

  function MarkSpend(txs: seq<Transaction>, i: In): (r: seq<Transaction>)
    ensures |r| == |txs|
    ensures forall j :: Exists(r, j) <==> Exists(txs, j)
  {
    if !Exists(txs, i) then txs
    else
      var tx := txs[i.prevId];
      txs[i.prevId := tx.(outs := tx.outs[i.outIdx := tx.outs[i.outIdx].(spent := true)])]
  }

  function MarkAll(txs: seq<Transaction>, ins: seq<In>): (r: seq<Transaction>)
    ensures |r| == |txs|
    ensures forall j :: Exists(r, j) <==> Exists(txs, j)
  {
    if ins == [] then txs else MarkSpend(MarkAll(txs, ins[..|ins| - 1]), ins[|ins| - 1])
  }

  function ValueOf(txs: seq<Transaction>, i: In): int {
    if Exists(txs, i) then OutAt(txs, i).value else -1
  }

  function InputSum(txs: seq<Transaction>, ins: seq<In>): int {
    if ins == [] then 0 else InputSum(txs, ins[..|ins| - 1]) + ValueOf(txs, ins[|ins| - 1])
  }

  function NonceOf(ins: seq<In>): int {
    if ins == [] then 0 else NonceOf(ins[..|ins| - 1]) + ins[|ins| - 1].prevId
  }

  /** The first non-empty public key among the inputs. */
  function KeyOf(txs: seq<Transaction>, ins: seq<In>): string
    requires forall i :: i in ins ==> Exists(txs, i)
  {
    if ins == [] then ""
    else
      var before := KeyOf(txs, ins[..|ins| - 1]);
      if before == "" then OutAt(txs, ins[|ins| - 1]).pubKey else before
  }

  /** `GetInput`: every input is spendable by the sender and one key signed for all of them. */
  predicate InputsOk(txs: seq<Transaction>, u: Transaction, verify: Verifier) {
    (u.ins == [] && u.address == "0000") ||
    (&& (forall i :: i in u.ins ==> Spendable(txs, i, u.address))
     && u.ins != [] && u.sig != ""
     && verify(u.address + Decimal.PrintInt(NonceOf(u.ins)), KeyOf(txs, u.ins), u.sig)
     && forall i :: i in u.ins ==> OutAt(txs, i).pubKey == KeyOf(txs, u.ins))
  }

  function OutputSum(outs: seq<Out>): int {
    if outs == [] then 0 else OutputSum(outs[..|outs| - 1]) + outs[|outs| - 1].value
  }

  function Credit(wallet: map<string, int>, outs: seq<Out>): map<string, int> {
    if outs == [] then wallet
    else
      var last := outs[|outs| - 1];
      AddCoin(Credit(wallet, outs[..|outs| - 1]), last.address, last.value)
  }

  /** `VerifyUTXO`: the inputs are worth strictly more than the outputs. */
  predicate Accepted(txs: seq<Transaction>, u: Transaction, verify: Verifier) {
    InputsOk(txs, u, verify) && InputSum(txs, u.ins) - OutputSum(u.outs) > 0
  }

  /** `AddTransaction` for an accepted transaction. */
  function Apply(s: Ledger, u: Transaction): Ledger {
    Ledger(MarkAll(s.txs, u.ins) + [u], Credit(AddCoin(s.wallet, u.address, 0 - InputSum(s.txs, u.ins)), u.outs))
  }

  function AddTransaction(s: Ledger, u: Transaction, verify: Verifier): Ledger {
    if Accepted(s.txs, u, verify) then Apply(s, u) else s
  }

  /** The constructor: genesis outputs are credited, nothing is checked. */
  function Genesis(txs: seq<Transaction>): Ledger {
    if txs == [] then Ledger([], map[])
    else
      var before, u := Genesis(txs[..|txs| - 1]), txs[|txs| - 1];
      Ledger(before.txs + [u], Credit(before.wallet, u.outs))
  }

  // ----- sums

  /** `None` stands for all addresses. */
  predicate Counts(o: Out, who: Option<string>) {
    who.None? || o.address == who.value
  }

  /** The outputs of one transaction at an address, spent or not, as asked. */
  function OutSum(outs: seq<Out>, who: Option<string>, spent: bool): int {
    if outs == [] then 0
    else
      var last := outs[|outs| - 1];
      OutSum(outs[..|outs| - 1], who, spent) + if last.spent == spent && Counts(last, who) then last.value else 0
  }

  /** The unspent outputs at an address; over all addresses it is the total supply. */
  function Unspent(txs: seq<Transaction>, who: Option<string>): int {
    if txs == [] then 0 else Unspent(txs[..|txs| - 1], who) + OutSum(txs[|txs| - 1].outs, who, false)
  }

  /** Inputs listed again after their first mention. */
  function Repeats(txs: seq<Transaction>, ins: seq<In>): int {
    if ins == [] then 0
    else
      var init, last := ins[..|ins| - 1], ins[|ins| - 1];
      Repeats(txs, init) + if last in init then ValueOf(txs, last) else 0
  }

  lemma {:induction false} OutSumMark(outs: seq<Out>, k: nat, who: Option<string>)
    requires k < |outs|
    ensures OutSum(outs[k := outs[k].(spent := true)], who, false)
         == OutSum(outs, who, false) - if !outs[k].spent && Counts(outs[k], who) then outs[k].value else 0
  {
    var n := |outs| - 1;
    var outs' := outs[k := outs[k].(spent := true)];
    if k < n {
      assert outs'[..n] == outs[..n][k := outs[k].(spent := true)];
      OutSumMark(outs[..n], k, who);
    } else {
      assert outs'[..n] == outs[..n];
    }
  }

  lemma {:induction false} UnspentReplace(txs: seq<Transaction>, k: nat, tx: Transaction, who: Option<string>)
    requires k < |txs|
    ensures Unspent(txs[k := tx], who)
         == Unspent(txs, who) - OutSum(txs[k].outs, who, false) + OutSum(tx.outs, who, false)
  {
    var n := |txs| - 1;
    if k < n {
      assert txs[k := tx][..n] == txs[..n][k := tx];
      UnspentReplace(txs[..n], k, tx, who);
    } else {
      assert txs[k := tx][..n] == txs[..n];
    }
  }

  lemma UnspentMark(txs: seq<Transaction>, i: In, who: Option<string>)
    requires Exists(txs, i)
    ensures Unspent(MarkSpend(txs, i), who)
         == Unspent(txs, who) - if !OutAt(txs, i).spent && Counts(OutAt(txs, i), who) then OutAt(txs, i).value else 0
  {
    var tx := txs[i.prevId];
    UnspentReplace(txs, i.prevId, tx.(outs := tx.outs[i.outIdx := tx.outs[i.outIdx].(spent := true)]), who);
    OutSumMark(tx.outs, i.outIdx, who);
  }

  /** Marking spends exactly the listed outputs and changes nothing else about any output. */
  lemma {:induction false} MarkAllAt(txs: seq<Transaction>, ins: seq<In>, j: In)
    requires Exists(txs, j)
    ensures OutAt(MarkAll(txs, ins), j) == OutAt(txs, j).(spent := OutAt(txs, j).spent || j in ins)
  {
    if ins != [] {
      var init, last := ins[..|ins| - 1], ins[|ins| - 1];
      MarkAllAt(txs, init, j);
      assert ins == init + [last];
    }
  }

  /** Marking the inputs of an accepted transaction removes their value once per distinct input. */
  lemma {:induction false} UnspentMarkAll(txs: seq<Transaction>, ins: seq<In>, address: string, who: Option<string>)
    requires forall i :: i in ins ==> Spendable(txs, i, address)
    ensures Unspent(MarkAll(txs, ins), who)
         == Unspent(txs, who) - if who.None? || who.value == address then InputSum(txs, ins) - Repeats(txs, ins) else 0
  {
    if ins != [] {
      var init, last := ins[..|ins| - 1], ins[|ins| - 1];
      assert ins == init + [last] && last in ins;
      UnspentMarkAll(txs, init, address, who);
      MarkAllAt(txs, init, last);
      UnspentMark(MarkAll(txs, init), last, who);
    }
  }

  lemma {:induction false} CreditCoin(wallet: map<string, int>, outs: seq<Out>, a: string)
    ensures Coin(Credit(wallet, outs), a)
         == Coin(wallet, a) + OutSum(outs, Some(a), false) + OutSum(outs, Some(a), true)
  {
    if outs != [] {
      CreditCoin(wallet, outs[..|outs| - 1], a);
    }
  }

  lemma {:induction false} OutputSplit(outs: seq<Out>)
    ensures OutputSum(outs) == OutSum(outs, None, false) + OutSum(outs, None, true)
  {
    if outs != [] {
      OutputSplit(outs[..|outs| - 1]);
    }
  }

  /** How far the cached balance of an address is from what it can spend. */
  function Drift(s: Ledger, a: string): int {
    Coin(s.wallet, a) - Unspent(s.txs, Some(a))
  }

  /**
    * Exact accounting of one accepted transaction, well formed or not: at each address the cache moves away
    * from the spendable total by the outputs submitted as already spent, less (at the sender) the value of
    * inputs listed more than once; the supply drops by inputs minus outputs, corrected by the same two sums.
    */
  lemma ApplyAccounting(s: Ledger, u: Transaction, verify: Verifier, a: string)
    requires Accepted(s.txs, u, verify)
    ensures Drift(Apply(s, u), a)
         == Drift(s, a) + OutSum(u.outs, Some(a), true) - if a == u.address then Repeats(s.txs, u.ins) else 0
    ensures Unspent(Apply(s, u).txs, None)
         == Unspent(s.txs, None) - (InputSum(s.txs, u.ins) - OutputSum(u.outs))
            + Repeats(s.txs, u.ins) - OutSum(u.outs, None, true)
  {
    UnspentAfter(s, u, Some(a));
    UnspentAfter(s, u, None);
    CreditCoin(AddCoin(s.wallet, u.address, 0 - InputSum(s.txs, u.ins)), u.outs, a);
    OutputSplit(u.outs);
  }

  lemma UnspentAfter(s: Ledger, u: Transaction, who: Option<string>)
    requires forall i :: i in u.ins ==> Spendable(s.txs, i, u.address)
    ensures Unspent(Apply(s, u).txs, who) == Unspent(s.txs, who) + OutSum(u.outs, who, false)
         - if who.None? || who.value == u.address then InputSum(s.txs, u.ins) - Repeats(s.txs, u.ins) else 0
  {
    var s' := Apply(s, u);
    assert s'.txs[..|s'.txs| - 1] == MarkAll(s.txs, u.ins);
    UnspentMarkAll(s.txs, u.ins, u.address, who);
  }

  /** An accepted transaction keeps every cached balance right exactly when these two sums agree. */
  lemma BalancesKeptExactly(s: Ledger, u: Transaction, verify: Verifier)
    requires Accepted(s.txs, u, verify) && forall a :: Drift(s, a) == 0
    ensures (forall a :: Drift(Apply(s, u), a) == 0) <==>
      (forall a :: OutSum(u.outs, Some(a), true) == if a == u.address then Repeats(s.txs, u.ins) else 0)
  {
    forall a ensures Drift(Apply(s, u), a)
                  == OutSum(u.outs, Some(a), true) - if a == u.address then Repeats(s.txs, u.ins) else 0 {
      ApplyAccounting(s, u, verify, a);
    }
  }

  // ----- well-formed runs

  predicate Distinct(ins: seq<In>) {
    forall i, j :: 0 <= i < j < |ins| ==> ins[i] != ins[j]
  }

  /** Inputs are listed once, and outputs are submitted unspent with non-negative values. */
  predicate WellFormed(u: Transaction) {
    Distinct(u.ins) && forall o :: o in u.outs ==> !o.spent && o.value >= 0
  }

  lemma {:induction false} DistinctNoRepeats(txs: seq<Transaction>, ins: seq<In>)
    requires Distinct(ins)
    ensures Repeats(txs, ins) == 0
  {
    if ins != [] {
      DistinctNoRepeats(txs, ins[..|ins| - 1]);
    }
  }

  lemma {:induction false} NoneSpent(outs: seq<Out>, who: Option<string>)
    requires forall o :: o in outs ==> !o.spent
    ensures OutSum(outs, who, true) == 0
  {
    if outs != [] {
      NoneSpent(outs[..|outs| - 1], who);
    }
  }

  function Run(genesis: seq<Transaction>, txs: seq<Transaction>, verify: Verifier): Ledger {
    if txs == [] then Genesis(genesis)
    else AddTransaction(Run(genesis, txs[..|txs| - 1], verify), txs[|txs| - 1], verify)
  }

  /** What the accepted transactions of a run paid in fees. */
  function Fees(genesis: seq<Transaction>, txs: seq<Transaction>, verify: Verifier): int {
    if txs == [] then 0
    else
      var init, u := txs[..|txs| - 1], txs[|txs| - 1];
      var s := Run(genesis, init, verify);
      Fees(genesis, init, verify)
        + if Accepted(s.txs, u, verify) then InputSum(s.txs, u.ins) - OutputSum(u.outs) else 0
  }

  lemma {:induction false} GenesisBalanced(genesis: seq<Transaction>)
    requires forall u :: u in genesis ==> WellFormed(u)
    ensures forall a :: Drift(Genesis(genesis), a) == 0
  {
    if genesis != [] {
      var init, u := genesis[..|genesis| - 1], genesis[|genesis| - 1];
      assert u in genesis;
      GenesisBalanced(init);
      assert Genesis(genesis).txs[..|Genesis(init).txs|] == Genesis(init).txs;
      forall a ensures Drift(Genesis(genesis), a) == 0 {
        assert Drift(Genesis(init), a) == 0;
        CreditCoin(Genesis(init).wallet, u.outs, a);
        NoneSpent(u.outs, Some(a));
      }
    }
  }

  /**
    * Conservation. Over every run of well-formed transactions, accepted or refused: each cached balance is
    * the sum of the unspent outputs at that address, and the total supply is the genesis supply less the fees,
    * to which every accepted transaction contributes at least 1.
    */
  lemma {:induction false} Conservation(genesis: seq<Transaction>, txs: seq<Transaction>, verify: Verifier)
    requires forall u :: u in genesis + txs ==> WellFormed(u)
    ensures var s := Run(genesis, txs, verify);
      && (forall a :: Drift(s, a) == 0)
      && Unspent(s.txs, None) == Unspent(Genesis(genesis).txs, None) - Fees(genesis, txs, verify)
      && Fees(genesis, txs, verify) >= |s.txs| - |Genesis(genesis).txs| >= 0
  {
    if txs == [] {
      assert genesis + txs == genesis;
      GenesisBalanced(genesis);
    } else {
      var init, u := txs[..|txs| - 1], txs[|txs| - 1];
      assert u in genesis + txs;
      assert forall x :: x in genesis + init ==> x in genesis + txs;
      Conservation(genesis, init, verify);
      var s := Run(genesis, init, verify);
      DistinctNoRepeats(s.txs, u.ins);
      NoneSpent(u.outs, None);
      if Accepted(s.txs, u, verify) {
        forall a ensures Drift(Apply(s, u), a) == 0 {
          NoneSpent(u.outs, Some(a));
          ApplyAccounting(s, u, verify, a);
        }
        ApplyAccounting(s, u, verify, "");
      }
    }
  }

  /** Transaction i of the list was accepted when its turn came. */
  ghost predicate AcceptedAt(genesis: seq<Transaction>, txs: seq<Transaction>, verify: Verifier, i: nat) {
    i < |txs| && Accepted(Run(genesis, txs[..i], verify).txs, txs[i], verify)
  }

  /** An input of an accepted transaction stays spent for the rest of the run. */
  lemma {:induction false} SpentStays(genesis: seq<Transaction>, txs: seq<Transaction>, verify: Verifier, i: nat, x: In)
    requires AcceptedAt(genesis, txs, verify, i) && x in txs[i].ins
    ensures var s := Run(genesis, txs, verify); Exists(s.txs, x) && OutAt(s.txs, x).spent
  {
    var init, u := txs[..|txs| - 1], txs[|txs| - 1];
    var s := Run(genesis, init, verify);
    if i < |init| {
      assert init[..i] == txs[..i];
      SpentStays(genesis, init, verify, i, x);
    } else {
      assert txs[..i] == init && Spendable(s.txs, x, u.address);
    }
    if Accepted(s.txs, u, verify) {
      MarkAllAt(s.txs, u.ins, x);
    }
  }

  /** No output is consumed by two transactions of a run, whatever the transactions look like. */
  lemma ConsumedOnce(genesis: seq<Transaction>, txs: seq<Transaction>, verify: Verifier, i: nat, j: nat, x: In)
    requires i < j && AcceptedAt(genesis, txs, verify, i) && AcceptedAt(genesis, txs, verify, j) && x in txs[i].ins
    ensures x !in txs[j].ins
  {
    assert txs[..j][..i] == txs[..i];
    SpentStays(genesis, txs[..j], verify, i, x);
  }

  // ----- what a signature is worth

  /** The nonce is the sum of the ids of the transactions spent from. */
  lemma {:induction false} NonceSplits(a: seq<In>, b: seq<In>)
    ensures NonceOf(a + b) == NonceOf(a) + NonceOf(b)
    ensures |b| == 1 ==> NonceOf(b) == b[0].prevId
  {
    if b == [] {
      assert a + b == a;
    } else {
      var n := |b| - 1;
      NonceSplits(a, b[..n]);
      assert (a + b)[..|a + b| - 1] == a + b[..n];
      assert n == 0 ==> b[..n] == [];
    }
  }

  lemma {:induction false} SharedKey(txs: seq<Transaction>, ins: seq<In>, key: string)
    requires ins != [] && forall i :: i in ins ==> Exists(txs, i) && OutAt(txs, i).pubKey == key
    ensures KeyOf(txs, ins) == key
  {
    var init, last := ins[..|ins| - 1], ins[|ins| - 1];
    assert last in ins;
    if init != [] {
      SharedKey(txs, init, key);
    }
  }

  /** The sender of `u` owns this output and its key signed for the sender's address and the nonce. */
  ghost predicate SignedFor(u: Transaction, o: Out, verify: Verifier) {
    o.address == u.address && verify(u.address + Decimal.PrintInt(NonceOf(u.ins)), o.pubKey, u.sig)
  }

  /**
    * Exactly which transactions are accepted: their inputs are worth more than their outputs and, unless they have
    * none and come from "0000", every input is an existing unspent output, all have one key, and that key signed.
    */
  lemma AcceptedExactly(txs: seq<Transaction>, u: Transaction, verify: Verifier)
    ensures Accepted(txs, u, verify) <==>
      && InputSum(txs, u.ins) > OutputSum(u.outs)
      && ((u.ins == [] && u.address == "0000") ||
          (&& u.ins != [] && u.sig != ""
           && (forall i :: i in u.ins ==> Exists(txs, i) && !OutAt(txs, i).spent && SignedFor(u, OutAt(txs, i), verify))
           && forall i, j :: i in u.ins && j in u.ins ==> OutAt(txs, i).pubKey == OutAt(txs, j).pubKey))
  {
    if u.ins != [] && forall i :: i in u.ins ==> Exists(txs, i) {
      var key := OutAt(txs, u.ins[0]).pubKey;
      assert u.ins[0] in u.ins;
      if forall i, j :: i in u.ins && j in u.ins ==> OutAt(txs, i).pubKey == OutAt(txs, j).pubKey {
        SharedKey(txs, u.ins, key);
      }
    }
  }

  /** An accepted transaction of the run spends this output, and the output's key signed for it. */
  ghost predicate SpentBy(genesis: seq<Transaction>, txs: seq<Transaction>, verify: Verifier, i: nat, x: In, o: Out) {
    AcceptedAt(genesis, txs, verify, i) && x in txs[i].ins && SignedFor(txs[i], o, verify)
  }

  /** Over every run, an output created unspent is spent only by a transaction its own key signed. */
  lemma {:induction false} SpentWasSigned(genesis: seq<Transaction>, txs: seq<Transaction>, verify: Verifier, x: In)
    returns (i: nat)
    requires forall u, o :: u in genesis + txs && o in u.outs ==> !o.spent
    requires var s := Run(genesis, txs, verify); Exists(s.txs, x) && OutAt(s.txs, x).spent
    ensures SpentBy(genesis, txs, verify, i, x, OutAt(Run(genesis, txs, verify).txs, x))
    decreases |txs|, 1
  {
    GenesisTxs(genesis);
    forall y | Exists(genesis, y) ensures !OutAt(genesis, y).spent {
      assert genesis[y.prevId] in genesis + txs && OutAt(genesis, y) in genesis[y.prevId].outs;
    }
    if txs != [] {
      var init, u := txs[..|txs| - 1], txs[|txs| - 1];
      assert u in genesis + txs && forall v :: v in genesis + init ==> v in genesis + txs;
      i := SpentBefore(genesis, init, u, verify, x);
      assert txs == init + [u];
    }
  }

  lemma SpentBefore(genesis: seq<Transaction>, init: seq<Transaction>, u: Transaction, verify: Verifier, x: In)
    returns (i: nat)
    requires forall v, o :: (v in genesis + init || v == u) && o in v.outs ==> !o.spent
    requires var s := Run(genesis, init + [u], verify); Exists(s.txs, x) && OutAt(s.txs, x).spent
    ensures SpentBy(genesis, init + [u], verify, i, x, OutAt(Run(genesis, init + [u], verify).txs, x))
    decreases |init| + 1, 0
  {
    var s, all := Run(genesis, init, verify), init + [u];
    assert all[..|init|] == init;
    forall k | 0 <= k < |u.outs| ensures !u.outs[k].spent {
      assert u.outs[k] in u.outs;
    }
    assert Exists(s.txs, x);
    if Accepted(s.txs, u, verify) {
      MarkAllAt(s.txs, u.ins, x);
      AcceptedExactly(s.txs, u, verify);
    }
    if OutAt(s.txs, x).spent {
      i := SpentWasSigned(genesis, init, verify, x);
      assert all[..i] == init[..i];
    } else {
      i := |init|;
    }
  }

  ghost predicate NonNegative(txs: seq<Transaction>) {
    forall i :: Exists(txs, i) ==> OutAt(txs, i).value >= 0
  }

  /** What the assertion of `SpendUTXO` demands of the outputs a transaction spends. */
  ghost predicate NonNegativeInputs(txs: seq<Transaction>, u: Transaction) {
    forall i :: i in u.ins && Exists(txs, i) ==> OutAt(txs, i).value >= 0
  }

  /** After well-formed transactions the source's assertion on spent values cannot fail. */
  lemma {:induction false} ValuesNonNegative(genesis: seq<Transaction>, txs: seq<Transaction>, verify: Verifier)
    requires forall u :: u in genesis + txs ==> WellFormed(u)
    ensures NonNegative(Run(genesis, txs, verify).txs)
  {
    if txs == [] {
      assert genesis + txs == genesis;
      GenesisTxs(genesis);
      forall i | Exists(genesis, i) ensures OutAt(genesis, i).value >= 0 {
        assert genesis[i.prevId] in genesis && OutAt(genesis, i) in genesis[i.prevId].outs;
      }
    } else {
      var init, u := txs[..|txs| - 1], txs[|txs| - 1];
      assert u in genesis + txs;
      assert forall x :: x in genesis + init ==> x in genesis + txs;
      ValuesNonNegative(genesis, init, verify);
      var s := Run(genesis, init, verify);
      if Accepted(s.txs, u, verify) {
        var marked := MarkAll(s.txs, u.ins);
        forall i | Exists(marked + [u], i) ensures OutAt(marked + [u], i).value >= 0 {
          if i.prevId < |marked| {
            MarkAllAt(s.txs, u.ins, i);
          } else {
            assert u.outs[i.outIdx] in u.outs;
          }
        }
      }
    }
  }

  lemma {:induction false} GenesisTxs(genesis: seq<Transaction>)
    ensures Genesis(genesis).txs == genesis
  {
    if genesis != [] {
      GenesisTxs(genesis[..|genesis| - 1]);
    }
  }

  /** One genesis output of 10 at "a". */
  const MINT := Transaction([], [Out("a", 10, false, "k")], "", "")

  /** Lists that output twice, to pay 15 to "b". */
  const TWICE := Transaction([In(0, 0), In(0, 0)], [Out("b", 15, false, "k")], "s", "a")

  /**
    * Listing one input twice breaks the cache: the transaction is accepted although its outputs are worth more
    * than the output it spends, and leaves -10 cached at "a", where nothing is spendable.
    */
  lemma RepeatedInputDebitsTwice(verify: Verifier)
    requires verify("a0", "k", "s")
    ensures var s := Genesis([MINT]);
      && Accepted(s.txs, TWICE, verify) && Drift(s, "a") == 0
      && Drift(Apply(s, TWICE), "a") == -10
  {
    var s := Genesis([MINT]);
    OneGenesis(MINT);
    TwiceAccepted(verify);
    ApplyAccounting(s, TWICE, verify, "a");
    TwiceTheSame(s.txs, In(0, 0));
    NoneSpent(TWICE.outs, Some("a"));
    GenesisBalanced([MINT]);
  }

  lemma TwiceAccepted(verify: Verifier)
    requires verify("a0", "k", "s")
    ensures Accepted([MINT], TWICE, verify)
  {
    var x := In(0, 0);
    TwiceTheSame([MINT], x);
    assert TWICE.ins == [x, x];
    assert TWICE.outs[..0] == [] && OutputSum(TWICE.outs) == 15;
    assert Decimal.PrintInt(0) == "0" && "a" + "0" == "a0";
  }

  lemma OneGenesis(g: Transaction)
    requires |g.outs| == 1
    ensures Genesis([g]) == Ledger([g], map[g.outs[0].address := g.outs[0].value])
  {
    assert [g][..0] == [] && g.outs[..0] == [];
    assert Genesis([]) == Ledger([], map[]);
    assert Credit(map[], []) == map[];
    assert Credit(map[], g.outs) == AddCoin(map[], g.outs[0].address, g.outs[0].value);
  }

  lemma TwiceTheSame(txs: seq<Transaction>, x: In)
    requires Exists(txs, x)
    ensures InputSum(txs, [x, x]) == 2 * ValueOf(txs, x) && Repeats(txs, [x, x]) == ValueOf(txs, x)
    ensures KeyOf(txs, [x, x]) == OutAt(txs, x).pubKey && NonceOf([x, x]) == 2 * x.prevId
  {
    var one, two := [x], [x, x];
    assert one[..|one| - 1] == [] && one[|one| - 1] == x && two[..|two| - 1] == one && two[|two| - 1] == x;
    assert InputSum(txs, one) == ValueOf(txs, x);
    assert Repeats(txs, one) == 0;
    assert KeyOf(txs, one) == OutAt(txs, x).pubKey;
    assert NonceOf(one) == x.prevId;
  }

  /** The ledger as the source keeps it, proved to follow `AddTransaction`. */
  class TransactionManager {
    var txs: seq<Transaction>
    var wallet: map<string, int>

    function View(): Ledger
      reads this
    {
      Ledger(txs, wallet)
    }

    constructor (genesis: seq<Transaction>)
      ensures View() == Genesis(genesis)
    {
      txs, wallet := [], map[];
      new;
      for i := 0 to |genesis|
        invariant View() == Genesis(genesis[..i])
      {
        assert genesis[..i + 1][..i] == genesis[..i];
        txs := txs + [genesis[i]];
        CreditOutputs(genesis[i].outs);
      }
      assert genesis[..|genesis|] == genesis;
    }

    /** The id of the new transaction, or -1 with nothing changed. Stored values are asserted non-negative. */
    method Submit(u: Transaction, verify: Verifier) returns (id: int)
      requires Accepted(txs, u, verify) ==> NonNegativeInputs(txs, u)
      modifies this
      ensures View() == AddTransaction(old(View()), u, verify)
      ensures id == if Accepted(old(txs), u, verify) then |old(txs)| else -1
    {
      var ok := GetInput(u, verify);
      if !ok {
        return -1;
      }
      ok := VerifyUTXO(u);
      if !ok {
        return -1;
      }
      SpendInputs(u);
      CreditOutputs(u.outs);
      id := |txs|;
      txs := txs + [u];
    }

    method GetInput(u: Transaction, verify: Verifier) returns (ok: bool)
      ensures ok == InputsOk(txs, u, verify)
    {
      if |u.ins| == 0 && u.address == "0000" {
        return true;
      }
      var found, nonce, key := FindInputs(u);
      if !found || |u.ins| == 0 || u.sig == "" || !verify(u.address + Decimal.PrintInt(nonce), key, u.sig) {
        return false;
      }
      ok := SameKey(u.ins, key);
    }

    method FindInputs(u: Transaction) returns (ok: bool, nonce: int, key: string)
      ensures ok <==> forall x :: x in u.ins ==> Spendable(txs, x, u.address)
      ensures ok ==> nonce == NonceOf(u.ins) && key == KeyOf(txs, u.ins)
    {
      nonce, key := 0, "";
      for i := 0 to |u.ins|
        invariant forall x :: x in u.ins[..i] ==> Spendable(txs, x, u.address)
        invariant nonce == NonceOf(u.ins[..i]) && key == KeyOf(txs, u.ins[..i])
      {
        assert u.ins[..i + 1][..i] == u.ins[..i];
        assert u.ins[i] in u.ins;
        if !Spendable(txs, u.ins[i], u.address) {
          return false, 0, "";
        }
        if key == "" {
          key := OutAt(txs, u.ins[i]).pubKey;
        }
        nonce := nonce + u.ins[i].prevId;
      }
      assert u.ins[..|u.ins|] == u.ins;
      ok := true;
    }

    method SameKey(ins: seq<In>, key: string) returns (ok: bool)
      requires forall i :: i in ins ==> Exists(txs, i)
      ensures ok <==> forall i :: i in ins ==> OutAt(txs, i).pubKey == key
    {
      for i := 0 to |ins|
        invariant forall j :: 0 <= j < i ==> OutAt(txs, ins[j]).pubKey == key
      {
        assert ins[i] in ins;
        if OutAt(txs, ins[i]).pubKey != key {
          return false;
        }
      }
      return true;
    }

    method VerifyUTXO(u: Transaction) returns (ok: bool)
      ensures ok == (InputSum(txs, u.ins) - OutputSum(u.outs) > 0)
    {
      var total := 0;
      for i := 0 to |u.ins|
        invariant total == InputSum(txs, u.ins[..i])
      {
        assert u.ins[..i + 1][..i] == u.ins[..i];
        total := total + ValueOf(txs, u.ins[i]);
      }
      assert u.ins[..|u.ins|] == u.ins;
      ghost var inputs := total;
      for i := 0 to |u.outs|
        invariant total == inputs - OutputSum(u.outs[..i])
      {
        assert u.outs[..i + 1][..i] == u.outs[..i];
        total := total - u.outs[i].value;
      }
      assert u.outs[..|u.outs|] == u.outs;
      return total > 0;
    }

    /** `AddCoin`, first half: mark each input spent and debit the sender by their total. */
    method SpendInputs(u: Transaction)
      requires NonNegativeInputs(txs, u) && forall i :: i in u.ins ==> Exists(txs, i)
      modifies this
      ensures txs == MarkAll(old(txs), u.ins)
      ensures wallet == AddCoin(old(wallet), u.address, 0 - InputSum(old(txs), u.ins))
    {
      var total := 0;
      for i := 0 to |u.ins|
        invariant txs == MarkAll(old(txs), u.ins[..i]) && wallet == old(wallet)
        invariant total == InputSum(old(txs), u.ins[..i])
      {
        assert u.ins[..i + 1][..i] == u.ins[..i];
        assert u.ins[i] in u.ins;
        MarkAllAt(old(txs), u.ins[..i], u.ins[i]);
        var value := ValueOf(txs, u.ins[i]);
        assert value == OutAt(old(txs), u.ins[i]).value >= 0;
        txs := MarkSpend(txs, u.ins[i]);
        total := total + value;
      }
      assert u.ins[..|u.ins|] == u.ins;
      wallet := AddCoin(wallet, u.address, 0 - total);
    }

    method CreditOutputs(outs: seq<Out>)
      modifies this`wallet
      ensures wallet == Credit(old(wallet), outs)
    {
      for i := 0 to |outs|
        invariant wallet == Credit(old(wallet), outs[..i])
      {
        assert outs[..i + 1][..i] == outs[..i];
        wallet := AddCoin(wallet, outs[i].address, outs[i].value);
      }
      assert outs[..|outs|] == outs;
    }
  }
}
