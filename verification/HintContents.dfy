/** What a published hint contains, in terms of the bundle, its intents and its simulation alone. */
module HintContents {
  import opened Bytes
  import opened Bundles
  import opened Logs
  import opened Hints
  import Rounding
  import Validation
  import ValidationWindow
  import Acceptance

  // The transactions in view

  /** A transaction, its simulated logs, and the intent of the bundle it stands in. */
  datatype Leaf = Leaf(want: HintIntent, raw: Raw, logs: seq<LogData>)

  /** The transactions of the tree, in order, all of whose bundles share their hash. */
  ghost function SharedLeaves(b: Bundle, logs: seq<BodyLogs>): seq<Leaf>
    decreases b, |b.body| + 1
  {
    if SharesHash(b) && |logs| == |b.body| then SharedUpTo(b, logs, |b.body|) else []
  }

  ghost function SharedUpTo(b: Bundle, logs: seq<BodyLogs>, n: nat): seq<Leaf>
    requires SharesHash(b) && n <= |b.body| == |logs|
    decreases b, n
  {
    if n == 0 then []
    else SharedUpTo(b, logs, n - 1) + LeavesOf(b.privacy.value.hints, b.body[n - 1], logs[n - 1])
  }

  ghost function LeavesOf(want: HintIntent, el: Element, logs: BodyLogs): seq<Leaf>
    decreases el, 0
  {
    if el.bundle.Some? then SharedLeaves(el.bundle.value, logs.bundleLogs)
    else if el.tx.Some? then [Leaf(want, el.tx.value, logs.txLogs)]
    else []
  }

  // What each contributes

  /** All logs, or special logs, or none. */
  function LeafLogs(l: Leaf): seq<LogData> {
    if l.want & 4 != 0 then l.logs else if l.want & 32 != 0 then SpecialLogs(l.logs) else []
  }

  /** Any of the bits for address, selector, call data and transaction hash. */
  predicate ShowsTx(l: Leaf) {
    l.want & 75 != 0
  }

  /** Call data implies the selector, and either implies the address. */
  function LeafTx(env: Env, l: Leaf): seq<TxHint>
    requires ShowsTx(l) ==> env.decode(l.raw).Some?
  {
    if !ShowsTx(l) then []
    else
      var tx := env.decode(l.raw).value;
      [TxHint(
        if l.want & 64 != 0 then Some(env.txHash(tx)) else None,
        if l.want & 11 != 0 then tx.to else None,
        if l.want & 10 != 0
        then Some(seq(4, i requires 0 <= i < 4 => if i < |tx.data| then tx.data[i] else 0)) else None,
        if l.want & 8 != 0 then Some(tx.data) else None)]
  }

  ghost predicate AllDecode(env: Env, ls: seq<Leaf>) {
    forall i :: 0 <= i < |ls| ==> ShowsTx(ls[i]) ==> env.decode(ls[i].raw).Some?
  }

  ghost function LogsOf(ls: seq<Leaf>): seq<LogData> {
    if ls == [] then [] else LogsOf(ls[..|ls| - 1]) + LeafLogs(ls[|ls| - 1])
  }

  ghost function TxsOf(env: Env, ls: seq<Leaf>): seq<TxHint>
    requires AllDecode(env, ls)
  {
    if ls == [] then [] else TxsOf(env, ls[..|ls| - 1]) + LeafTx(env, ls[|ls| - 1])
  }

  /** The simulated logs have the shape of the tree wherever hashes are shared. */
  ghost predicate Fits(b: Bundle, logs: seq<BodyLogs>)
    decreases b, |b.body| + 1
  {
    SharesHash(b) ==> |logs| == |b.body| && FitsUpTo(b, logs, |b.body|)
  }

  ghost predicate FitsUpTo(b: Bundle, logs: seq<BodyLogs>, n: nat)
    requires n <= |b.body| == |logs|
    decreases b, n
  {
    n == 0 || (FitsUpTo(b, logs, n - 1) &&
               (b.body[n - 1].bundle.Some? ==> Fits(b.body[n - 1].bundle.value, logs[n - 1].bundleLogs)))
  }

  // Concatenation

  lemma {:induction false} LogsOfConcat(xs: seq<Leaf>, ys: seq<Leaf>)
    ensures LogsOf(xs + ys) == LogsOf(xs) + LogsOf(ys)
    decreases |ys|
  {
    hide LeafLogs;
    if ys == [] {
      assert xs + ys == xs;
    } else {
      assert (xs + ys)[..|xs + ys| - 1] == xs + ys[..|ys| - 1];
      LogsOfConcat(xs, ys[..|ys| - 1]);
    }
  }

  lemma AllDecodeConcat(env: Env, xs: seq<Leaf>, ys: seq<Leaf>)
    ensures AllDecode(env, xs + ys) <==> AllDecode(env, xs) && AllDecode(env, ys)
  {
    var all := xs + ys;
    assert forall i :: 0 <= i < |xs| ==> all[i] == xs[i];
    assert forall i :: 0 <= i < |ys| ==> all[|xs| + i] == ys[i];
  }

  lemma {:induction false} TxsOfConcat(env: Env, xs: seq<Leaf>, ys: seq<Leaf>)
    requires AllDecode(env, xs) && AllDecode(env, ys)
    ensures AllDecode(env, xs + ys) && TxsOf(env, xs + ys) == TxsOf(env, xs) + TxsOf(env, ys)
    decreases |ys|
  {
    AllDecodeConcat(env, xs, ys);
    if ys == [] {
      assert xs + ys == xs;
    } else {
      assert (xs + ys)[..|xs + ys| - 1] == xs + ys[..|ys| - 1];
      TxsOfConcat(env, xs, ys[..|ys| - 1]);
    }
  }

  // Extraction

  /** The extraction succeeds exactly if the logs fit and what is shown decodes, and then yields the leaves' contributions. */
  ghost predicate Yields(env: Env, r: Result<Extracted>, fits: bool, ls: seq<Leaf>) {
    && (r.Ok? <==> fits && AllDecode(env, ls))
    && (r.Ok? ==> r.value == Extracted(LogsOf(ls), TxsOf(env, ls)))
  }

  lemma IntentBits(want: HintIntent)
    ensures HasHint(want, ANY_TX_HINT) <==> want & 75 != 0
    ensures HasHint(want, HintLogs) <==> want & 4 != 0
    ensures HasHint(want, HintSpecialLogs) <==> want & 32 != 0
    ensures HasHint(want, HintHash) <==> want & 16 != 0
    ensures HasHint(WithDefaults(want), HintTxHash) <==> want & 64 != 0
    ensures HasHint(WithDefaults(want), HintContractAddress) <==> want & 11 != 0
    ensures HasHint(WithDefaults(want), HintFunctionSelector) <==> want & 10 != 0
    ensures HasHint(WithDefaults(want), HintCallData) <==> want & 8 != 0
    ensures HasHint(WithDefaults(want), ANY_TX_HINT) <==> want & 75 != 0
  {
  }

  lemma TxYields(env: Env, want: HintIntent, raw: Raw, logs: seq<LogData>)
    ensures Yields(env, TxElement(env, want, raw, logs), true, [Leaf(want, raw, logs)])
  {
    IntentBits(want);
    var l := Leaf(want, raw, logs);
    hide HasHint, WithDefaults;
    assert [l][..0] == [];
    assert LogsOf([l]) == LogsOf([]) + LeafLogs(l) == LeafLogs(l);
    assert AllDecode(env, [l]) <==> (ShowsTx(l) ==> env.decode(raw).Some?) by {
      assert [l][0] == l;
    }
    if AllDecode(env, [l]) {
      assert TxsOf(env, [l]) == TxsOf(env, []) + LeafTx(env, l) == LeafTx(env, l);
    }
  }

  lemma NothingYields(env: Env)
    ensures Yields(env, Ok(Extracted([], [])), true, [])
  {
  }

  lemma JoinYields(env: Env, x: Result<Extracted>, y: Result<Extracted>, fx: bool, fy: bool, xs: seq<Leaf>, ys: seq<Leaf>)
    requires Yields(env, x, fx, xs) && Yields(env, y, fy, ys)
    ensures x.Ok? && y.Ok? ==> Yields(env, Ok(Joined(x.value, y.value)), fx && fy, xs + ys)
    ensures x.Err? || y.Err? ==> !(fx && fy && AllDecode(env, xs + ys))
  {
    AllDecodeConcat(env, xs, ys);
    LogsOfConcat(xs, ys);
    if x.Ok? && y.Ok? {
      TxsOfConcat(env, xs, ys);
    }
  }

  lemma {:induction false} InnerYields(env: Env, b: Bundle, logs: seq<BodyLogs>)
    ensures Yields(env, HintsInner(env, b, logs), Fits(b, logs), SharedLeaves(b, logs))
    decreases b, |b.body| + 1
  {
    IntentBits(Want(b));
    if SharesHash(b) {
      if |logs| == |b.body| {
        UpToYields(env, b, logs, |b.body|);
      }
    } else {
      NothingYields(env);
    }
  }

  lemma {:induction false} UpToYields(env: Env, b: Bundle, logs: seq<BodyLogs>, n: nat)
    requires SharesHash(b) && n <= |b.body| == |logs|
    ensures Yields(env, HintsUpTo(env, b, logs, n), FitsUpTo(b, logs, n), SharedUpTo(b, logs, n))
    decreases b, n
  {
    hide Yields;
    if n == 0 {
      NothingYields(env);
    } else {
      UpToYields(env, b, logs, n - 1);
      var el, l := b.body[n - 1], logs[n - 1];
      ElementYields(env, b.privacy.value.hints, el, l);
      hide ElementHints, LeavesOf, Fits;
      var x, y := HintsUpTo(env, b, logs, n - 1), ElementHints(env, Want(b), el, l);
      JoinYields(env, x, y, FitsUpTo(b, logs, n - 1), el.bundle.Some? ==> Fits(el.bundle.value, l.bundleLogs),
                 SharedUpTo(b, logs, n - 1), LeavesOf(b.privacy.value.hints, el, l));
      if x.Err? || y.Err? {
        FailureYields(env, HintsUpTo(env, b, logs, n), FitsUpTo(b, logs, n), SharedUpTo(b, logs, n));
      }
    }
  }

  lemma FailureYields(env: Env, r: Result<Extracted>, fits: bool, ls: seq<Leaf>)
    requires r.Err? && !(fits && AllDecode(env, ls))
    ensures Yields(env, r, fits, ls)
  {
  }

  lemma {:induction false} ElementYields(env: Env, want: HintIntent, el: Element, l: BodyLogs)
    ensures Yields(env, ElementHints(env, want, el, l), el.bundle.Some? ==> Fits(el.bundle.value, l.bundleLogs), LeavesOf(want, el, l))
    decreases el, 1
  {
    hide Yields;
    if el.bundle.Some? {
      InnerYields(env, el.bundle.value, l.bundleLogs);
    } else if el.tx.Some? {
      TxYields(env, want, el.tx.value, l.txLogs);
    } else {
      NothingYields(env);
    }
  }

  // The figures

  /** The number itself if it has at most `p` digits, the sign being one; else rounded up to `p` of them. */
  ghost predicate RoundsTo(n: int, p: nat, r: int) {
    var len := if n < 0 then 1 + Rounding.Digits(-n) else Rounding.Digits(n);
    && (len <= p ==> r == n)
    && (len > p ==> Rounding.IsLeastMultipleFrom(r, n, Rounding.Pow10(len - p)))
  }

  lemma PriceRounds(price: int)
    ensures RoundsTo(price, 3, PriceHint(price))
  {
    Rounding.RoundedUpOfInt(price, 3);
  }

  /** Gas from 2^63 on is taken for a negative number, whose magnitude is shown. */
  ghost predicate GasRoundsTo(gas: uint64, r: int) {
    if gas < TWO_63 then RoundsTo(gas, 2, r) else RoundsTo(gas - TWO_64, 2, -r)
  }

  lemma {:induction false} DigitsBelow(n: nat, k: nat)
    requires k >= 1 && n < Rounding.Pow10(k)
    ensures Rounding.Digits(n) <= k
  {
    if n >= 10 {
      assert k > 1 by { assert Rounding.Pow10(1) == 10 * Rounding.Pow10(0); }
      DigitsBelow(n / 10, k - 1);
    }
  }

  lemma TenTo19()
    ensures Rounding.Pow10(19) == 10_000_000_000_000_000_000
  {
    assert Rounding.Pow10(5) == 100_000;
    assert Rounding.Pow10(10) == 10_000_000_000;
    assert Rounding.Pow10(15) == 1_000_000_000_000_000;
  }

  lemma RoundedGasFits(g: nat)
    requires g < TWO_63
    ensures 0 <= Rounding.RoundedUp(g, 2) < TWO_64
  {
    TenTo19();
    DigitsBelow(g, 19);
    Rounding.RoundedUpBelowNextPower(g, 2);
    Rounding.Pow10Monotone(Rounding.Digits(g), 19);
    hide Rounding.RoundedUp, Rounding.Digits, Rounding.Pow10;
  }

  lemma GasRounds(gas: uint64)
    ensures GasRoundsTo(gas, GasHint(gas))
  {
    hide Rounding.RoundedUp, Rounding.Digits, Rounding.Pow10, Rounding.IsLeastMultipleFrom;
    var g := AsInt64(gas);
    Rounding.RoundedUpOfInt(g, 2);
    if g >= 0 {
      RoundedGasFits(g);
    } else {
      NegativeRounds(g, Rounding.RoundedUp(g, 2));
    }
  }

  lemma NegativeRounds(g: int, r: int)
    requires g < 0 && RoundsTo(g, 2, r)
    ensures g <= r <= 0
  {
    var len := 1 + Rounding.Digits(-g);
    if len > 2 {
      assert 0 % Rounding.Pow10(len - 2) == 0;
    }
  }

  // The whole hint

  /**
   A hint is extracted exactly if the bundle shares its hash, the logs fit and what is shown decodes. It
   carries the matching hash (zero without metadata), what the transactions in view contribute, in order,
   and the figures asked for, rounded to three and two digits.
   */
  lemma HintContains(env: Env, b: Bundle, sim: SimResult, shareGasUsed: bool, shareMevGasPrice: bool)
    ensures var r, ls := ExtractHints(env, b, sim, shareGasUsed, shareMevGasPrice), SharedLeaves(b, sim.bodyLogs);
            && (r.Ok? <==> SharesHash(b) && Fits(b, sim.bodyLogs) && AllDecode(env, ls))
            && (r.Ok? ==>
                  && r.value.hash == (if b.metadata.Some? then b.metadata.value.matchingHash else 0)
                  && r.value.logs == LogsOf(ls)
                  && r.value.txs == TxsOf(env, ls)
                  && (r.value.mevGasPrice.Some? <==> shareMevGasPrice)
                  && (shareMevGasPrice ==> RoundsTo(sim.mevGasPrice, 3, r.value.mevGasPrice.value))
                  && (r.value.gasUsed.Some? <==> shareGasUsed)
                  && (shareGasUsed ==> GasRoundsTo(sim.gasUsed, r.value.gasUsed.value)))
  {
    InnerYields(env, b, sim.bodyLogs);
    IntentBits(Want(b));
    PriceRounds(sim.mevGasPrice);
    GasRounds(sim.gasUsed);
    hide RoundsTo, GasRoundsTo, PriceHint, GasHint, HintsInner, Fits, SharedLeaves, LogsOf, TxsOf;
  }

  /** The hint of an accepted bundle names it by the hash of its hash: its own hash stays back. */
  lemma AcceptedHintHash(env: Env, b: Bundle, currentBlock: nat, sim: SimResult, shareGasUsed: bool, shareMevGasPrice: bool)
    requires ValidationWindow.IsAccepted(env, 0, b, currentBlock)
    ensures var a := Validation.ValidateBundle(env, b, currentBlock).value;
            var r := ExtractHints(env, a.bundle, sim, shareGasUsed, shareMevGasPrice);
            r.Ok? ==> r.value.hash == env.keccak([a.hash])
  {
    var a := Validation.ValidateBundle(env, b, currentBlock).value;
    Acceptance.AcceptedRest(env, 0, b, currentBlock);
    HintContains(env, a.bundle, sim, shareGasUsed, shareMevGasPrice);
  }
}
