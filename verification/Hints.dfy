/** Extraction of hints and what they disclose. */
module Hints {
  import opened Bytes
  import opened Bundles
  import opened Logs
  import Rounding

  const GAS_PRICE_DIGITS: nat := 3
  const GAS_DIGITS: nat := 2

  datatype TxHint = TxHint(hash: Option<Hash>, to: Option<Address>, functionSelector: Option<Raw>, callData: Option<Raw>)

  datatype Hint = Hint(hash: Hash, logs: seq<LogData>, txs: seq<TxHint>, mevGasPrice: Option<int>, gasUsed: Option<nat>)

  /** Simulated logs, shaped like the body. */
  datatype BodyLogs = BodyLogs(txLogs: seq<LogData>, bundleLogs: seq<BodyLogs>)

  datatype SimResult = SimResult(mevGasPrice: int, gasUsed: uint64, bodyLogs: seq<BodyLogs>)

  datatype HintError = ErrCannotExtractHints | ErrUndecodable

  datatype Result<+T> = Ok(value: T) | Err(error: HintError)

  datatype Extracted = Extracted(logs: seq<LogData>, txs: seq<TxHint>)

  // One transaction

  const ANY_TX_HINT: HintIntent := HintContractAddress | HintFunctionSelector | HintCallData | HintTxHash

  /** The first four bytes of the call data, padded with zeros. */
  function Selector(data: Raw): Raw {
    seq(4, i requires 0 <= i < 4 => if i < |data| then data[i] else 0)
  }

  /** Selector or call data imply the address; call data implies the selector. */
  function WithDefaults(want: HintIntent): HintIntent {
    var want1 := if HasHint(want, HintFunctionSelector | HintCallData) then SetHint(want, HintContractAddress) else want;
    if HasHint(want1, HintCallData) then SetHint(want1, HintFunctionSelector) else want1
  }

  function TxHints(env: Env, tx: Tx, want: HintIntent): Option<TxHint> {
    var w := WithDefaults(want);
    if !HasHint(w, ANY_TX_HINT) then None
    else Some(TxHint(
      if HasHint(w, HintTxHash) then Some(env.txHash(tx)) else None,
      if HasHint(w, HintContractAddress) then tx.to else None,
      if HasHint(w, HintFunctionSelector) then Some(Selector(tx.data)) else None,
      if HasHint(w, HintCallData) then Some(tx.data) else None))
  }

  predicate ShowsAddress(want: HintIntent) {
    HasHint(want, HintContractAddress) || HasHint(want, HintFunctionSelector) || HasHint(want, HintCallData)
  }

  predicate ShowsSelector(want: HintIntent) {
    HasHint(want, HintFunctionSelector) || HasHint(want, HintCallData)
  }

  lemma DefaultsMeaning(want: HintIntent)
    ensures var w := WithDefaults(want);
            && (HasHint(w, HintContractAddress) <==> ShowsAddress(want))
            && (HasHint(w, HintFunctionSelector) <==> ShowsSelector(want))
            && (HasHint(w, HintCallData) <==> HasHint(want, HintCallData))
            && (HasHint(w, HintTxHash) <==> HasHint(want, HintTxHash))
            && (HasHint(w, ANY_TX_HINT) <==> HasHint(want, ANY_TX_HINT))
            && (HasHint(want, ANY_TX_HINT) <==> ShowsAddress(want) || HasHint(want, HintTxHash))
  {
  }

  // The body

  function Want(b: Bundle): HintIntent {
    if b.privacy.Some? then b.privacy.value.hints else HintNone
  }

  /** The logs that a transaction contributes. */
  function LogHints(want: HintIntent, logs: seq<LogData>): seq<LogData> {
    if HasHint(want, HintLogs) then logs
    else if HasHint(want, HintSpecialLogs) then SpecialLogs(logs)
    else []
  }

  function TxElement(env: Env, want: HintIntent, raw: Raw, logs: seq<LogData>): Result<Extracted> {
    if !HasHint(want, ANY_TX_HINT) then Ok(Extracted(LogHints(want, logs), []))
    else
      match env.decode(raw)
      case None => Err(ErrUndecodable)
      case Some(tx) =>
        match TxHints(env, tx, want)
        case None => Ok(Extracted(LogHints(want, logs), []))
        case Some(h) => Ok(Extracted(LogHints(want, logs), [h]))
  }

  function ElementHints(env: Env, want: HintIntent, el: Element, logs: BodyLogs): Result<Extracted>
    decreases el, 0
  {
    if el.bundle.Some? then HintsInner(env, el.bundle.value, logs.bundleLogs)
    else if el.tx.Some? then TxElement(env, want, el.tx.value, logs.txLogs)
    else Ok(Extracted([], []))
  }

  function Joined(x: Extracted, y: Extracted): Extracted {
    Extracted(x.logs + y.logs, x.txs + y.txs)
  }

  function HintsUpTo(env: Env, b: Bundle, logs: seq<BodyLogs>, n: nat): Result<Extracted>
    requires n <= |b.body| == |logs|
    decreases b, n
  {
    if n == 0 then Ok(Extracted([], []))
    else
      match HintsUpTo(env, b, logs, n - 1)
      case Err(e) => Err(e)
      case Ok(x) =>
        match ElementHints(env, Want(b), b.body[n - 1], logs[n - 1])
        case Err(e) => Err(e)
        case Ok(y) => Ok(Joined(x, y))
  }

  /** A bundle that does not share its hash shares nothing. */
  function HintsInner(env: Env, b: Bundle, logs: seq<BodyLogs>): Result<Extracted>
    decreases b, |b.body| + 1
  {
    if !HasHint(Want(b), HintHash) then Ok(Extracted([], []))
    else if |logs| != |b.body| then Err(ErrCannotExtractHints)
    else HintsUpTo(env, b, logs, |b.body|)
  }

  lemma {:induction false} HintErrorStays(env: Env, b: Bundle, logs: seq<BodyLogs>, n: nat)
    requires n <= |b.body| == |logs| && HintsUpTo(env, b, logs, n).Err?
    ensures HintsUpTo(env, b, logs, |b.body|) == HintsUpTo(env, b, logs, n)
    decreases |b.body| - n
  {
    if n < |b.body| {
      HintErrorStays(env, b, logs, n + 1);
    }
  }

  /** The loop over the body, appending to two slices. */
  method ExtractHintsInner(env: Env, bundle: Bundle, bundleLogs: seq<BodyLogs>) returns (r: Result<Extracted>)
    ensures r == HintsInner(env, bundle, bundleLogs)
    decreases bundle
  {
    var want := HintNone;
    if bundle.privacy.Some? {
      want := bundle.privacy.value.hints;
    }
    if !HasHint(want, HintHash) {
      return Ok(Extracted([], []));
    }
    if |bundleLogs| != |bundle.body| {
      return Err(ErrCannotExtractHints);
    }
    var logs: seq<LogData>, txs: seq<TxHint> := [], [];
    var i := 0;
    while i < |bundle.body|
      invariant 0 <= i <= |bundle.body|
      invariant HintsUpTo(env, bundle, bundleLogs, i) == Ok(Extracted(logs, txs))
    {
      var el := bundle.body[i];
      ghost var x := Extracted(logs, txs);
      if el.bundle.Some? {
        var inner := ExtractHintsInner(env, el.bundle.value, bundleLogs[i].bundleLogs);
        if inner.Err? {
          HintErrorStays(env, bundle, bundleLogs, i + 1);
          return Err(inner.error);
        }
        logs := logs + inner.value.logs;
        txs := txs + inner.value.txs;
      } else if el.tx.Some? {
        if HasHint(want, HintLogs) {
          logs := logs + bundleLogs[i].txLogs;
        } else if HasHint(want, HintSpecialLogs) {
          logs := logs + SpecialLogs(bundleLogs[i].txLogs);
        }
        if HasHint(want, ANY_TX_HINT) {
          var tx := env.decode(el.tx.value);
          if tx.None? {
            HintErrorStays(env, bundle, bundleLogs, i + 1);
            return Err(ErrUndecodable);
          }
          var txHint := TxHints(env, tx.value, want);
          if txHint.Some? {
            txs := txs + [txHint.value];
          }
        }
      }
      assert x.logs + [] == x.logs && x.txs + [] == x.txs;
      i := i + 1;
    }
    r := Ok(Extracted(logs, txs));
  }

  // The whole hint

  /** Gas goes through a signed word before it is rounded. */
  function GasHint(gasUsed: uint64): nat {
    var rounded := Rounding.RoundedUp(AsInt64(gasUsed), GAS_DIGITS);
    (if rounded < 0 then -rounded else rounded) % TWO_64
  }

  function PriceHint(price: int): int {
    Rounding.RoundedUp(price, GAS_PRICE_DIGITS)
  }

  function MatchingHash(b: Bundle): Hash {
    if b.metadata.Some? then b.metadata.value.matchingHash else ZERO_HASH
  }

  function ExtractHints(env: Env, b: Bundle, sim: SimResult, shareGasUsed: bool, shareMevGasPrice: bool): Result<Hint> {
    if !HasHint(Want(b), HintHash) then Err(ErrCannotExtractHints)
    else
      match HintsInner(env, b, sim.bodyLogs)
      case Err(e) => Err(e)
      case Ok(x) => Ok(Hint(
        MatchingHash(b), x.logs, x.txs,
        if shareMevGasPrice then Some(PriceHint(sim.mevGasPrice)) else None,
        if shareGasUsed then Some(GasHint(sim.gasUsed)) else None))
  }

  // What two bundles must have in common to give the same hint

  /** The two raw transactions agree on what `want` discloses. */
  ghost predicate SameTxView(env: Env, want: HintIntent, raw: Raw, raw': Raw) {
    match (env.decode(raw), env.decode(raw'))
    case (None, None) => true
    case (Some(t), Some(t')) =>
      && (HasHint(want, HintTxHash) ==> env.txHash(t) == env.txHash(t'))
      && (ShowsAddress(want) ==> t.to == t'.to)
      && (ShowsSelector(want) ==> Selector(t.data) == Selector(t'.data))
      && (HasHint(want, HintCallData) ==> t.data == t'.data)
    case _ => false
  }

  ghost predicate SameLogView(want: HintIntent, logs: seq<LogData>, logs': seq<LogData>) {
    && (HasHint(want, HintLogs) ==> logs == logs')
    && (!HasHint(want, HintLogs) && HasHint(want, HintSpecialLogs) ==> SwapViews(logs) == SwapViews(logs'))
  }

  /** `want` is the intent of the bundle around the elements. */
  ghost predicate SameElementView(env: Env, want: HintIntent, el: Element, logs: BodyLogs, el': Element, logs': BodyLogs)
    decreases el, 0
  {
    if el.bundle.Some? || el'.bundle.Some? then
      && el.bundle.Some? && el'.bundle.Some?
      && SameView(env, el.bundle.value, logs.bundleLogs, el'.bundle.value, logs'.bundleLogs)
    else if el.tx.Some? || el'.tx.Some? then
      && el.tx.Some? && el'.tx.Some?
      && SameLogView(want, logs.txLogs, logs'.txLogs)
      && (HasHint(want, ANY_TX_HINT) ==> SameTxView(env, want, el.tx.value, el'.tx.value))
    else true
  }

  /**
   The bundles have the same intents and agree on what these disclose. Where a bundle does not share its
   hash, nothing inside it matters.
   */
  ghost predicate SameView(env: Env, b: Bundle, logs: seq<BodyLogs>, b': Bundle, logs': seq<BodyLogs>)
    decreases b, 1
  {
    && Want(b) == Want(b')
    && (HasHint(Want(b), HintHash) ==>
          && (|logs| == |b.body| <==> |logs'| == |b'.body|)
          && (|logs| == |b.body| ==>
                && |b.body| == |b'.body|
                && forall i :: 0 <= i < |b.body| ==>
                     SameElementView(env, Want(b), b.body[i], logs[i], b'.body[i], logs'[i])))
  }

  lemma SameTxHints(env: Env, want: HintIntent, raw: Raw, logs: seq<LogData>, raw': Raw, logs': seq<LogData>)
    requires SameLogView(want, logs, logs')
    requires HasHint(want, ANY_TX_HINT) ==> SameTxView(env, want, raw, raw')
    ensures TxElement(env, want, raw, logs) == TxElement(env, want, raw', logs')
  {
    DefaultsMeaning(want);
    SpecialLogsShowViews(logs, logs');
  }

  /** For a transaction that decodes, the hint discloses the view and the view determines the hint. */
  lemma TxHintsDiscloseExactly(env: Env, want: HintIntent, raw: Raw, logs: seq<LogData>, raw': Raw, logs': seq<LogData>)
    requires env.decode(raw).Some? && env.decode(raw').Some?
    ensures TxElement(env, want, raw, logs) == TxElement(env, want, raw', logs') <==>
            SameLogView(want, logs, logs') && (HasHint(want, ANY_TX_HINT) ==> SameTxView(env, want, raw, raw'))
  {
    DefaultsMeaning(want);
    SpecialLogsShowViews(logs, logs');
    if HasHint(want, ANY_TX_HINT) {
      var t, t' := env.decode(raw).value, env.decode(raw').value;
      var h, h' := TxHints(env, t, want), TxHints(env, t', want);
      assert [h.value] == [h'.value] <==> h.value == h'.value by {
        assert [h.value][0] == h.value && [h'.value][0] == h'.value;
      }
    }
  }

  lemma {:induction false} SameViewSameHints(env: Env, b: Bundle, logs: seq<BodyLogs>, b': Bundle, logs': seq<BodyLogs>)
    requires SameView(env, b, logs, b', logs')
    ensures HintsInner(env, b, logs) == HintsInner(env, b', logs')
    decreases b, |b.body| + 1
  {
    if HasHint(Want(b), HintHash) && |logs| == |b.body| {
      SameHintsUpTo(env, b, logs, b', logs', |b.body|);
    }
  }

  lemma {:induction false} SameHintsUpTo(env: Env, b: Bundle, logs: seq<BodyLogs>, b': Bundle, logs': seq<BodyLogs>, n: nat)
    requires SameView(env, b, logs, b', logs') && HasHint(Want(b), HintHash)
    requires n <= |b.body| == |logs| && |b'.body| == |logs'| == |b.body|
    ensures HintsUpTo(env, b, logs, n) == HintsUpTo(env, b', logs', n)
    decreases b, n
  {
    if n > 0 {
      SameHintsUpTo(env, b, logs, b', logs', n - 1);
      var el, el' := b.body[n - 1], b'.body[n - 1];
      assert SameElementView(env, Want(b), el, logs[n - 1], el', logs'[n - 1]);
      if el.bundle.Some? {
        SameViewSameHints(env, el.bundle.value, logs[n - 1].bundleLogs, el'.bundle.value, logs'[n - 1].bundleLogs);
      } else if el.tx.Some? {
        SameTxHints(env, Want(b), el.tx.value, logs[n - 1].txLogs, el'.tx.value, logs'[n - 1].txLogs);
      }
    }
  }

  /**
   Non-interference: whatever else differs, bundles and simulations that agree on what the intents
   disclose, on the rounded figures and on the matching hash give the same hint, or the same error.
   */
  lemma HintsDiscloseOnlyTheView(env: Env, b: Bundle, sim: SimResult, b': Bundle, sim': SimResult,
                                 shareGasUsed: bool, shareMevGasPrice: bool)
    requires SameView(env, b, sim.bodyLogs, b', sim'.bodyLogs)
    requires HasHint(Want(b), HintHash) ==> MatchingHash(b) == MatchingHash(b')
    requires shareMevGasPrice ==> PriceHint(sim.mevGasPrice) == PriceHint(sim'.mevGasPrice)
    requires shareGasUsed ==> GasHint(sim.gasUsed) == GasHint(sim'.gasUsed)
    ensures ExtractHints(env, b, sim, shareGasUsed, shareMevGasPrice) ==
            ExtractHints(env, b', sim', shareGasUsed, shareMevGasPrice)
  {
    SameViewSameHints(env, b, sim.bodyLogs, b', sim'.bodyLogs);
  }

  // Bundles that do not share their hash

  /** The bundle that `path` leads to, one body index per level. */
  function BundleAt(b: Bundle, path: seq<nat>): Option<Bundle>
    decreases path
  {
    if path == [] then Some(b)
    else if path[0] < |b.body| && b.body[path[0]].bundle.Some? then BundleAt(b.body[path[0]].bundle.value, path[1..])
    else None
  }

  /** `b` with another body for the bundle at `path`. */
  function WithBodyAt(b: Bundle, path: seq<nat>, body: seq<Element>): Bundle
    requires BundleAt(b, path).Some?
    decreases path
  {
    if path == [] then b.(body := body)
    else
      var el := b.body[path[0]];
      b.(body := b.body[path[0] := el.(bundle := Some(WithBodyAt(el.bundle.value, path[1..], body)))])
  }

  /** `logs` with other logs for the bundle at `path`. */
  function WithLogsAt(logs: seq<BodyLogs>, path: seq<nat>, bundleLogs: seq<BodyLogs>): seq<BodyLogs>
    decreases path
  {
    if path == [] then bundleLogs
    else if path[0] < |logs| then
      var l := logs[path[0]];
      logs[path[0] := l.(bundleLogs := WithLogsAt(l.bundleLogs, path[1..], bundleLogs))]
    else logs
  }

  lemma {:induction false} SameViewAsItself(env: Env, b: Bundle, logs: seq<BodyLogs>)
    ensures SameView(env, b, logs, b, logs)
    decreases b
  {
    if HasHint(Want(b), HintHash) && |logs| == |b.body| {
      forall i | 0 <= i < |b.body|
        ensures SameElementView(env, Want(b), b.body[i], logs[i], b.body[i], logs[i])
      {
        SameElementAsItself(env, Want(b), b.body[i], logs[i]);
      }
    }
  }

  lemma {:induction false} SameElementAsItself(env: Env, want: HintIntent, el: Element, logs: BodyLogs)
    ensures SameElementView(env, want, el, logs, el, logs)
    decreases el
  {
    if el.bundle.Some? {
      SameViewAsItself(env, el.bundle.value, logs.bundleLogs);
    }
  }

  /** Nothing inside a bundle that does not share its hash is in view, however deep it is nested. */
  lemma {:induction false} HiddenIsOutOfView(env: Env, b: Bundle, logs: seq<BodyLogs>, path: seq<nat>,
                                             body: seq<Element>, bundleLogs: seq<BodyLogs>)
    requires BundleAt(b, path).Some? && !HasHint(Want(BundleAt(b, path).value), HintHash)
    ensures SameView(env, b, logs, WithBodyAt(b, path, body), WithLogsAt(logs, path, bundleLogs))
    decreases path
  {
    if path != [] && |logs| == |b.body| {
      var b', logs' := WithBodyAt(b, path, body), WithLogsAt(logs, path, bundleLogs);
      HiddenIsOutOfView(env, b.body[path[0]].bundle.value, logs[path[0]].bundleLogs, path[1..], body, bundleLogs);
      forall i | 0 <= i < |b.body|
        ensures SameElementView(env, Want(b), b.body[i], logs[i], b'.body[i], logs'[i])
      {
        if i != path[0] {
          SameElementAsItself(env, Want(b), b.body[i], logs[i]);
        }
      }
    }
  }

  /**
   Exchanging the whole body, and the simulated logs, of a bundle that does not share its hash, nested
   anywhere, leaves the published hint as it is.
   */
  lemma HiddenBundlesStayHidden(env: Env, b: Bundle, sim: SimResult, path: seq<nat>,
                                body: seq<Element>, bundleLogs: seq<BodyLogs>, shareGasUsed: bool, shareMevGasPrice: bool)
    requires BundleAt(b, path).Some? && !HasHint(Want(BundleAt(b, path).value), HintHash)
    ensures ExtractHints(env, WithBodyAt(b, path, body), sim.(bodyLogs := WithLogsAt(sim.bodyLogs, path, bundleLogs)),
                         shareGasUsed, shareMevGasPrice)
            == ExtractHints(env, b, sim, shareGasUsed, shareMevGasPrice)
  {
    HiddenIsOutOfView(env, b, sim.bodyLogs, path, body, bundleLogs);
    HintsDiscloseOnlyTheView(env, b, sim, WithBodyAt(b, path, body),
                             sim.(bodyLogs := WithLogsAt(sim.bodyLogs, path, bundleLogs)), shareGasUsed, shareMevGasPrice);
  }
}
