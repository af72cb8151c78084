/** The stored row of a bundle and the hints published for it. */
module BundleStats {
  import opened Bundles

  /** The part of a simulation result that is stored. */
  datatype Sim = Sim(
    success: bool, error: string, mevGasPrice: int, profit: int, refundableValue: int, gasUsed: int,
    execError: string, revert: Raw)

  /** A row of the bundle table; null columns are `None`. */
  datatype Row = Row(
    signer: Address,
    cancelled: bool,
    allowMatching: bool,
    simSuccess: bool,
    simError: Option<string>,
    simEffGasPrice: Option<int>,
    simProfit: Option<int>,
    simRefundableValue: Option<int>,
    simGasUsed: Option<int>,
    simAllSimsGasUsed: Option<int>,
    simTotalSimCount: Option<int>,
    body: Bundle,
    execError: Option<string>,
    revert: Raw)

  function NonEmpty(s: string): Option<string> {
    if s == "" then None else Some(s)
  }

  function OnSuccess(r: Sim, x: int): Option<int> {
    if r.success then Some(x) else None
  }

  /** Where a transaction goes wrong: at the insert, after finding the row known, or unnoticed when committing an update. */
  datatype Failure = NoFailure | InsertFails | UpdateFails | UpdateCommitFails

  datatype Answer = Answer(known: bool, ok: bool)

  function NewRow(b: Bundle, signer: Address, r: Sim): Row {
    Row(signer, false, b.privacy.Some? && HasHint(b.privacy.value.hints, HintHash),
        r.success, NonEmpty(r.error), OnSuccess(r, r.mevGasPrice), OnSuccess(r, r.profit), OnSuccess(r, r.refundableValue),
        Some(r.gasUsed), Some(r.gasUsed), Some(1), b, NonEmpty(r.execError), r.revert)
  }

  /** Results are replaced unless they would hide an earlier success; the row read back lacks the error details. */
  function UpdatedRow(row: Row, b: Bundle, r: Sim): Row {
    var counted := row.(
      simAllSimsGasUsed := Some((if row.simTotalSimCount.Some? && row.simAllSimsGasUsed.Some? then row.simAllSimsGasUsed.value else 0) + r.gasUsed),
      simTotalSimCount := Some((if row.simTotalSimCount.Some? then row.simTotalSimCount.value else 0) + 1),
      body := b,
      execError := None,
      revert := []);
    if row.simSuccess && !r.success then counted
    else counted.(
      simSuccess := r.success,
      simError := NonEmpty(r.error),
      simEffGasPrice := OnSuccess(r, r.mevGasPrice),
      simProfit := OnSuccess(r, r.profit),
      simRefundableValue := OnSuccess(r, r.refundableValue),
      simGasUsed := Some(r.gasUsed),
      execError := NonEmpty(r.execError),
      revert := r.revert)
  }

  function Inserted(row: Option<Row>, b: Bundle, signer: Address, r: Sim, f: Failure): (Option<Row>, Answer) {
    match row
    case None => if f.NoFailure? then (Some(NewRow(b, signer, r)), Answer(false, true)) else (None, Answer(false, false))
    case Some(stored) =>
      if f.InsertFails? then (row, Answer(false, false))
      else if f.UpdateFails? then (row, Answer(true, false))
      else if f.UpdateCommitFails? then (row, Answer(true, true))
      else (Some(UpdatedRow(stored, b, r)), Answer(true, true))
  }

  function Cancelled(row: Option<Row>, signer: Address): Option<Row> {
    if row.Some? && row.value.signer == signer then Some(row.value.(cancelled := true)) else row
  }

  /** The table, as the calls change it. */
  class StatsTable {
    var rows: map<Hash, Row>

    constructor ()
      ensures rows == map[]
    {
      rows := map[];
    }

    function RowOf(hash: Hash): Option<Row>
      reads this
    {
      if hash in rows then Some(rows[hash]) else None
    }

    method InsertBundleForStats(hash: Hash, b: Bundle, signer: Address, r: Sim, f: Failure) returns (answer: Answer)
      modifies this
      ensures (RowOf(hash), answer) == Inserted(old(RowOf(hash)), b, signer, r, f)
      ensures forall h :: h != hash ==> RowOf(h) == old(RowOf(h))
    {
      if f == InsertFails || (hash !in rows && f != NoFailure) {
        return Answer(false, false);
      }
      if hash !in rows {
        rows := rows[hash := NewRow(b, signer, r)];
        return Answer(false, true);
      }
      if f == UpdateFails {
        return Answer(true, false);
      }
      var stored := rows[hash].(execError := None, revert := []);
      var shouldUpdateSim := true;
      if stored.simSuccess {
        shouldUpdateSim := r.success;
      }
      if shouldUpdateSim {
        stored := stored.(simSuccess := r.success, simError := NonEmpty(r.error));
        stored := stored.(simEffGasPrice := OnSuccess(r, r.mevGasPrice), simProfit := OnSuccess(r, r.profit));
        stored := stored.(simRefundableValue := OnSuccess(r, r.refundableValue), simGasUsed := Some(r.gasUsed));
        stored := stored.(execError := NonEmpty(r.execError), revert := r.revert);
      }
      if stored.simTotalSimCount.Some? {
        var total := if stored.simAllSimsGasUsed.Some? then stored.simAllSimsGasUsed.value else 0;
        stored := stored.(simAllSimsGasUsed := Some(total + r.gasUsed));
      } else {
        stored := stored.(simAllSimsGasUsed := Some(r.gasUsed));
      }
      if stored.simTotalSimCount.Some? {
        stored := stored.(simTotalSimCount := Some(stored.simTotalSimCount.value + 1));
      } else {
        stored := stored.(simTotalSimCount := Some(1));
      }
      stored := stored.(body := b);
      if f != UpdateCommitFails {
        rows := rows[hash := stored];
      }
      answer := Answer(true, true);
    }

    method CancelBundleByHash(hash: Hash, signer: Address) returns (cancelled: bool)
      modifies this
      ensures RowOf(hash) == Cancelled(old(RowOf(hash)), signer)
      ensures cancelled <==> old(RowOf(hash)).Some? && old(RowOf(hash)).value.signer == signer && !old(RowOf(hash)).value.cancelled
      ensures forall h :: h != hash ==> RowOf(h) == old(RowOf(h))
    {
      cancelled := false;
      if hash in rows && rows[hash].signer == signer && !rows[hash].cancelled {
        rows := rows[hash := rows[hash].(cancelled := true)];
        cancelled := true;
      }
    }
  }

  // The life of one row

  datatype Event =
    | Simulated(b: Bundle, signer: Address, r: Sim, f: Failure)
    | Cancel(signer: Address)

  /** A row and the number of times hints were processed for it. */
  datatype Store = Store(row: Option<Row>, hints: nat)

  /** SimulatedBundle processes hints when a successful result is for a bundle not known, whatever became of the transaction. */
  predicate PublishesHints(b: Bundle, r: Sim, known: bool) {
    r.success && !known && b.privacy.Some? && HasHint(b.privacy.value.hints, HintHash)
  }

  function Apply(s: Store, e: Event): Store {
    match e
    case Cancel(signer) => s.(row := Cancelled(s.row, signer))
    case Simulated(b, signer, r, f) =>
      var (row, answer) := Inserted(s.row, b, signer, r, f);
      Store(row, s.hints + if PublishesHints(b, r, answer.known) then 1 else 0)
  }

  function Run(es: seq<Event>): Store {
    if es == [] then Store(None, 0) else Apply(Run(es[..|es| - 1]), es[|es| - 1])
  }

  /** The simulated bundles with their results, in order. */
  function Results(es: seq<Event>): seq<(Bundle, Sim)> {
    if es == [] then []
    else Results(es[..|es| - 1]) +
         if es[|es| - 1].Simulated? then [(es[|es| - 1].b, es[|es| - 1].r)] else []
  }

  predicate NoFailures(es: seq<Event>) {
    forall i :: 0 <= i < |es| && es[i].Simulated? ==> es[i].f.NoFailure?
  }

  /** The last success if there is one, else the last result. */
  function Decisive(rs: seq<(Bundle, Sim)>): Sim
    requires rs != []
  {
    var last := rs[|rs| - 1].1;
    if last.success || |rs| == 1 then last
    else
      var earlier := Decisive(rs[..|rs| - 1]);
      if earlier.success then earlier else last
  }

  /** The decisive result is the last success; if there is none, the last result. */
  lemma {:induction false} DecisiveIsLastSuccess(rs: seq<(Bundle, Sim)>) returns (i: nat)
    requires rs != []
    ensures i < |rs| && rs[i].1 == Decisive(rs)
    ensures forall j :: i < j < |rs| ==> !rs[j].1.success
    ensures !rs[i].1.success ==> i == |rs| - 1 && forall j :: 0 <= j < |rs| ==> !rs[j].1.success
  {
    var n := |rs| - 1;
    i := n;
    if n > 0 && !rs[n].1.success {
      var before := rs[..n];
      var k := DecisiveIsLastSuccess(before);
      assert forall j :: 0 <= j < n ==> before[j] == rs[j];
      if before[k].1.success {
        i := k;
      }
    }
  }

  function TotalGas(rs: seq<(Bundle, Sim)>): int {
    if rs == [] then 0 else TotalGas(rs[..|rs| - 1]) + rs[|rs| - 1].1.gasUsed
  }

  /** The result columns are those of `r`. */
  predicate Shows(row: Row, r: Sim) {
    && row.simSuccess == r.success
    && row.simError == (if r.error == "" then None else Some(r.error))
    && row.simEffGasPrice == (if r.success then Some(r.mevGasPrice) else None)
    && row.simProfit == (if r.success then Some(r.profit) else None)
    && row.simRefundableValue == (if r.success then Some(r.refundableValue) else None)
    && row.simGasUsed == Some(r.gasUsed)
  }

  /** The row summarises the results so far. */
  ghost predicate Summarises(s: Store, rs: seq<(Bundle, Sim)>) {
    if rs == [] then s == Store(None, 0)
    else
      var last := rs[|rs| - 1];
      && s.row.Some?
      && Shows(s.row.value, Decisive(rs))
      && s.row.value.simTotalSimCount == Some(|rs|)
      && s.row.value.simAllSimsGasUsed == Some(TotalGas(rs))
      && s.row.value.body == last.0
      && (s.row.value.execError, s.row.value.revert) ==
         (if Decisive(rs) == last.1
          then (if last.1.execError == "" then None else Some(last.1.execError), last.1.revert) else (None, []))
      && s.hints == if rs[0].1.success && SharesHash(rs[0].0) then 1 else 0
  }

  lemma FirstSummarises(s: Store, b: Bundle, signer: Address, r: Sim)
    requires s == Store(None, 0)
    ensures Summarises(Apply(s, Simulated(b, signer, r, NoFailure)), [(b, r)])
  {
    assert [(b, r)][..0] == [];
    assert TotalGas([(b, r)]) == TotalGas([]) + r.gasUsed;
  }

  lemma NextSummarises(s: Store, rs: seq<(Bundle, Sim)>, b: Bundle, signer: Address, r: Sim)
    requires rs != [] && Summarises(s, rs)
    ensures Summarises(Apply(s, Simulated(b, signer, r, NoFailure)), rs + [(b, r)])
  {
    var rs' := rs + [(b, r)];
    assert rs'[..|rs'| - 1] == rs && rs'[0] == rs[0];
  }

  /**
   After any results whose transactions succeed, and any cancellations, the stored result is the last
   success or else the last result; count and total gas are exact; the body is the latest; error details
   are kept only when they belong to the latest result; and hints were processed once if the first
   result was a success of a bundle that shares its hash, and never otherwise.
   */
  lemma {:induction false} RowSummarisesResults(es: seq<Event>)
    requires NoFailures(es)
    ensures Summarises(Run(es), Results(es))
  {
    if es != [] {
      var front, e := es[..|es| - 1], es[|es| - 1];
      assert NoFailures(front);
      RowSummarisesResults(front);
      hide Summarises, UpdatedRow, NewRow;
      match e
      case Cancel(signer) =>
        assert Results(es) == Results(front);
        CancelSummarises(Run(front), Results(front), signer);
      case Simulated(b, signer, r, _) =>
        if Results(front) == [] {
          NoneYet(Run(front), Results(front));
          FirstSummarises(Run(front), b, signer, r);
        } else {
          NextSummarises(Run(front), Results(front), b, signer, r);
        }
    }
  }

  lemma NoneYet(s: Store, rs: seq<(Bundle, Sim)>)
    requires rs == [] && Summarises(s, rs)
    ensures s == Store(None, 0)
  {
  }

  lemma CancelSummarises(s: Store, rs: seq<(Bundle, Sim)>, signer: Address)
    requires Summarises(s, rs)
    ensures Summarises(Apply(s, Cancel(signer)), rs)
  {
  }

  // Cancellation

  /** Cancellation is never undone, and nothing else cancels; signer and matching permission are those of the first result. */
  lemma CancellationStays(s: Store, e: Event)
    requires s.row.Some?
    ensures var s' := Apply(s, e);
            && s'.row.Some?
            && s'.row.value.signer == s.row.value.signer
            && s'.row.value.allowMatching == s.row.value.allowMatching
            && (s'.row.value.cancelled <==> s.row.value.cancelled || e == Cancel(s.row.value.signer))
  {
  }

  /**
   In every run, failures included: a row exists once some result was recorded. Its signer and matching
   permission are those of the first one recorded, and it is cancelled exactly when that signer cancelled
   after it.
   */
  lemma {:induction false} RowOrigin(es: seq<Event>) returns (i: nat)
    requires Run(es).row.Some?
    ensures i < |es| && es[i].Simulated? && es[i].f.NoFailure?
    ensures forall j :: 0 <= j < i && es[j].Simulated? ==> !es[j].f.NoFailure?
    ensures var row := Run(es).row.value;
            && row.signer == es[i].signer
            && (row.allowMatching <==> SharesHash(es[i].b))
            && (row.cancelled <==> Cancel(es[i].signer) in es[i..])
  {
    var n := |es| - 1;
    var before := es[..n];
    HintsAreCounted(before);
    if Run(before).row.Some? {
      i := RowOrigin(before);
      CancellationStays(Run(before), es[n]);
      assert es[i..] == before[i..] + [es[n]];
    } else {
      i := n;
      NotRecorded(before);
      assert es[i..] == [es[n]];
    }
  }

  lemma NotRecorded(es: seq<Event>)
    requires !Recorded(es)
    ensures forall j :: 0 <= j < |es| && es[j].Simulated? ==> !es[j].f.NoFailure?
  {
  }

  /** What the caller is told: known exactly if a row was there and could be read, an error only if that shows. */
  lemma InsertAnswers(row: Option<Row>, b: Bundle, signer: Address, r: Sim, f: Failure)
    ensures var (row', answer) := Inserted(row, b, signer, r, f);
            && (answer.known <==> row.Some? && !f.InsertFails?)
            && (answer.ok <==> f.NoFailure? || (f.UpdateCommitFails? && row.Some?))
            && (row' == row || f.NoFailure?)
            && (row'.None? <==> row.None? && !f.NoFailure?)
  {
  }

  /** Once cancelled, cancelled in every later state. */
  lemma {:induction false} CancelledForever(es: seq<Event>, n: nat)
    requires n <= |es| && Run(es[..n]).row.Some? && Run(es[..n]).row.value.cancelled
    ensures Run(es).row.Some? && Run(es).row.value.cancelled
    decreases |es| - n
  {
    if n == |es| {
      assert es[..n] == es;
    } else {
      assert es[..n + 1][..n] == es[..n];
      CancellationStays(Run(es[..n]), es[n]);
      CancelledForever(es, n + 1);
    }
  }

  // Hints

  /** Results whose transaction failed, at the insert, the update or the commit. */
  function FailedTransactions(es: seq<Event>): nat {
    if es == [] then 0
    else FailedTransactions(es[..|es| - 1]) +
         if es[|es| - 1].Simulated? && !es[|es| - 1].f.NoFailure? then 1 else 0
  }

  /** Hints are processed at most once more than transactions fail. */
  lemma {:induction false} HintsAreBounded(es: seq<Event>)
    ensures Run(es).hints <= FailedTransactions(es) + if Run(es).row.Some? then 1 else 0
  {
    if es != [] {
      HintsAreBounded(es[..|es| - 1]);
    }
  }

  /** Some transaction succeeded, so that a row exists. */
  predicate Recorded(es: seq<Event>) {
    exists i :: 0 <= i < |es| && es[i].Simulated? && es[i].f.NoFailure?
  }

  /** Successes of bundles that share their hash whose insert failed or which no recorded result preceded. */
  function Unrecognised(es: seq<Event>): nat {
    if es == [] then 0
    else
      var before, e := es[..|es| - 1], es[|es| - 1];
      Unrecognised(before) +
      if e.Simulated? && e.r.success && SharesHash(e.b) && (e.f.InsertFails? || !Recorded(before)) then 1 else 0
  }

  /** Hints are processed exactly once for each of those, in every run: at most once exactly when there is at most one. */
  lemma {:induction false} HintsAreCounted(es: seq<Event>)
    ensures Run(es).hints == Unrecognised(es)
    ensures Run(es).row.Some? <==> Recorded(es)
  {
    if es != [] {
      var before, e := es[..|es| - 1], es[|es| - 1];
      HintsAreCounted(before);
      RecordedStep(es);
    }
  }

  lemma RecordedStep(es: seq<Event>)
    requires es != []
    ensures var e := es[|es| - 1];
            Recorded(es) <==> Recorded(es[..|es| - 1]) || (e.Simulated? && e.f.NoFailure?)
  {
    if Recorded(es[..|es| - 1]) {
      var i :| 0 <= i < |es| - 1 && es[..|es| - 1][i].Simulated? && es[..|es| - 1][i].f.NoFailure?;
      assert es[i].Simulated? && es[i].f.NoFailure?;
    }
    if Recorded(es) {
      var i :| 0 <= i < |es| && es[i].Simulated? && es[i].f.NoFailure?;
      assert i < |es| - 1 ==> es[..|es| - 1][i] == es[i];
    }
  }

  /** A failing insert does publish a second time: the row that would make the bundle known is missing. */
  lemma FailedInsertPublishesAgain(b: Bundle, signer: Address, r: Sim)
    requires r.success && b.privacy.Some? && HasHint(b.privacy.value.hints, HintHash)
    ensures Run([Simulated(b, signer, r, InsertFails), Simulated(b, signer, r, NoFailure)]).hints == 2
  {
    var e1, e2 := Simulated(b, signer, r, InsertFails), Simulated(b, signer, r, NoFailure);
    assert [e1, e2][..1] == [e1] && [e1][..0] == [];
    assert Run([e1]) == Apply(Run([]), e1);
    assert Run([e1, e2]) == Apply(Run([e1]), e2);
  }
}
