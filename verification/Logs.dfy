/** Event logs and what the "special logs" hint leaves of them. */
module Logs {
  import opened Bundles

  /** The contents of a log. */
  datatype LogData = LogData(address: Address, topics: seq<Hash>, data: Raw)

  const ZERO_HASH: Hash := 0

  const UNI2_LOG: Hash := 0xd78ad95fa46c994b6551d0da85fc275fe613ce37657fb8d5e3d130840159d822
  const UNI3_LOG: Hash := 0xc42079f94a6350d7e6235f29174924f928cc2ac818eb64fed8004e115fbcca67
  const CURVE_LOG: Hash := 0x8b3e96f2b889fa771c53c981b40daf005f63f637f1869f707052d15a3dd97140
  const BALANCER_LOG: Hash := 0x2170c741c41531aec20e7c107c24eecfdd15e69c9bb0a8dd37b1840b9e0b207b

  /** Swaps whose pool is named by the contract address. */
  predicate IsPoolSwap(topic: Hash) {
    topic == UNI2_LOG || topic == UNI3_LOG || topic == CURVE_LOG
  }

  predicate IsSpecial(l: LogData) {
    && |l.topics| > 0
    && (IsPoolSwap(l.topics[0]) || (l.topics[0] == BALANCER_LOG && |l.topics| >= 2))
  }

  /** All topics but the first become zero, and the data goes. */
  function Blanked(l: LogData): LogData {
    LogData(l.address, seq(|l.topics|, i requires 0 <= i < |l.topics| => if i == 0 then l.topics[0] else ZERO_HASH), [])
  }

  /** What is left of a special log: for Balancer, whose swaps share a contract, the pool id stays too. */
  function Redacted(l: LogData): LogData
    requires IsSpecial(l)
  {
    if IsPoolSwap(l.topics[0]) then Blanked(l)
    else Blanked(l).(topics := Blanked(l).topics[1 := l.topics[1]])
  }

  lemma RedactedAgain(l: LogData)
    requires IsSpecial(l)
    ensures IsSpecial(Redacted(l)) && Redacted(Redacted(l)) == Redacted(l)
  {
  }

  function SpecialLogs(ls: seq<LogData>): seq<LogData> {
    if ls == [] then []
    else SpecialLogs(ls[..|ls| - 1]) + if IsSpecial(ls[|ls| - 1]) then [Redacted(ls[|ls| - 1])] else []
  }

  /**
   Which logs are kept, in order, and what is left of each: swaps of four known kinds, without data and
   with zero for every topic but the signature and, for Balancer, the pool id.
   */
  lemma SpecialLogsSnoc(ls: seq<LogData>, l: LogData)
    ensures var uni2 := 0xd78ad95fa46c994b6551d0da85fc275fe613ce37657fb8d5e3d130840159d822;
            var uni3 := 0xc42079f94a6350d7e6235f29174924f928cc2ac818eb64fed8004e115fbcca67;
            var curve := 0x8b3e96f2b889fa771c53c981b40daf005f63f637f1869f707052d15a3dd97140;
            var balancer := 0x2170c741c41531aec20e7c107c24eecfdd15e69c9bb0a8dd37b1840b9e0b207b;
            SpecialLogs(ls + [l]) == SpecialLogs(ls) +
              if l.topics != [] && (l.topics[0] in {uni2, uni3, curve} || (l.topics[0] == balancer && |l.topics| >= 2))
              then [LogData(l.address,
                            seq(|l.topics|, i requires 0 <= i < |l.topics| =>
                              if i == 0 || (i == 1 && l.topics[0] == balancer) then l.topics[i] else 0),
                            [])]
              else []
  {
    assert (ls + [l])[..|ls|] == ls;
    if IsSpecial(l) {
      var topics := Redacted(l).topics;
      assert topics == seq(|l.topics|, i requires 0 <= i < |l.topics| =>
                             if i == 0 || (i == 1 && l.topics[0] == BALANCER_LOG) then l.topics[i] else 0);
    }
  }

  // What an observer of special logs learns

  /** Address, number of topics, event signature and, for Balancer, the pool. */
  datatype SwapView = SwapView(address: Address, topicCount: nat, signature: Hash, pool: Option<Hash>)

  function ViewOf(l: LogData): SwapView
    requires IsSpecial(l)
  {
    SwapView(l.address, |l.topics|, l.topics[0], if IsPoolSwap(l.topics[0]) then None else Some(l.topics[1]))
  }

  function SwapViews(ls: seq<LogData>): seq<SwapView> {
    if ls == [] then []
    else SwapViews(ls[..|ls| - 1]) + if IsSpecial(ls[|ls| - 1]) then [ViewOf(ls[|ls| - 1])] else []
  }

  lemma RedactedShowsView(l: LogData, m: LogData)
    requires IsSpecial(l) && IsSpecial(m)
    ensures Redacted(l) == Redacted(m) <==> ViewOf(l) == ViewOf(m)
  {
    if Redacted(l) == Redacted(m) {
      assert Redacted(l).topics[0] == l.topics[0] && Redacted(m).topics[0] == m.topics[0];
      assert !IsPoolSwap(l.topics[0]) ==> Redacted(l).topics[1] == l.topics[1] && Redacted(m).topics[1] == m.topics[1];
    }
  }

  lemma {:induction false} SameLength(ls: seq<LogData>)
    ensures |SpecialLogs(ls)| == |SwapViews(ls)|
  {
    if ls != [] {
      SameLength(ls[..|ls| - 1]);
    }
  }

  /** Special logs disclose the swap views and nothing else. */
  lemma {:induction false} SpecialLogsShowViews(ls: seq<LogData>, ms: seq<LogData>)
    ensures SpecialLogs(ls) == SpecialLogs(ms) <==> SwapViews(ls) == SwapViews(ms)
    decreases |ls| + |ms|
  {
    SameLength(ls);
    SameLength(ms);
    if ls != [] && !IsSpecial(ls[|ls| - 1]) {
      SpecialLogsShowViews(ls[..|ls| - 1], ms);
      assert SpecialLogs(ls) == SpecialLogs(ls[..|ls| - 1]) && SwapViews(ls) == SwapViews(ls[..|ls| - 1]);
    } else if ms != [] && !IsSpecial(ms[|ms| - 1]) {
      SpecialLogsShowViews(ls, ms[..|ms| - 1]);
      assert SpecialLogs(ms) == SpecialLogs(ms[..|ms| - 1]) && SwapViews(ms) == SwapViews(ms[..|ms| - 1]);
    } else if ls != [] && ms != [] {
      var l, m := ls[|ls| - 1], ms[|ms| - 1];
      SpecialLogsShowViews(ls[..|ls| - 1], ms[..|ms| - 1]);
      RedactedShowsView(l, m);
      AppendEqual(SpecialLogs(ls[..|ls| - 1]), Redacted(l), SpecialLogs(ms[..|ms| - 1]), Redacted(m));
      AppendEqual(SwapViews(ls[..|ls| - 1]), ViewOf(l), SwapViews(ms[..|ms| - 1]), ViewOf(m));
    }
  }

  lemma AppendEqual<T>(xs: seq<T>, x: T, ys: seq<T>, y: T)
    ensures xs + [x] == ys + [y] <==> xs == ys && x == y
  {
    if xs + [x] == ys + [y] {
      assert (xs + [x])[..|xs|] == xs && (ys + [y])[..|ys|] == ys;
      assert (xs + [x])[|xs|] == x && (ys + [y])[|ys|] == y;
    }
  }

  // The logs in memory, which filtering changes in place

  class Log {
    var address: Address
    var topics: array<Hash>
    var data: Raw

    constructor (address: Address, topics: array<Hash>, data: Raw)
      ensures this.address == address && this.topics == topics && this.data == data
    {
      this.address, this.topics, this.data := address, topics, data;
    }

    ghost function Contents(): LogData
      reads this, topics
    {
      LogData(address, topics[..], data)
    }

    method RemoveLogFields()
      modifies this, topics
      ensures address == old(address) && topics == old(topics)
      ensures Contents() == Blanked(old(Contents()))
      ensures data == [] && topics.Length == old(topics.Length)
      ensures forall i :: 0 <= i < topics.Length ==> topics[i] == if i == 0 then old(topics[0]) else 0
    {
      var i := 1;
      while i < topics.Length
        invariant 1 <= i && (i <= topics.Length || topics.Length == 0)
        invariant topics == old(topics) && address == old(address)
        invariant topics.Length > 0 ==> topics[0] == old(topics[0])
        invariant forall j :: 1 <= j < i && j < topics.Length ==> topics[j] == ZERO_HASH
        modifies topics
      {
        topics[i] := ZERO_HASH;
        i := i + 1;
      }
      data := [];
    }

    /** The case distinction on the first topic; says whether the log is kept. */
    method Redact() returns (keep: bool)
      modifies this, topics
      ensures address == old(address) && topics == old(topics)
      ensures keep == IsSpecial(old(Contents()))
      ensures Contents() == Kept(old(Contents()))
    {
      if topics.Length == 0 {
        return false;
      }
      var topic := topics[0];
      if topic == UNI2_LOG || topic == UNI3_LOG || topic == CURVE_LOG {
        RemoveLogFields();
        return true;
      }
      if topic == BALANCER_LOG {
        if topics.Length < 2 {
          return false;
        }
        var poolId := topics[1];
        RemoveLogFields();
        topics[1] := poolId;
        return true;
      }
      keep := false;
    }
  }

  /** A log after filtering: redacted if it is special, untouched otherwise. */
  function Kept(l: LogData): LogData {
    if IsSpecial(l) then Redacted(l) else l
  }

  lemma KeptAgain(l: LogData)
    ensures Kept(Kept(l)) == Kept(l) && (IsSpecial(Kept(l)) <==> IsSpecial(l))
  {
    if IsSpecial(l) {
      RedactedAgain(l);
    }
  }

  ghost function Values(logs: seq<Log>): (values: seq<LogData>)
    reads logs, set l | l in logs :: l.topics
    ensures |values| == |logs|
    ensures forall i :: 0 <= i < |logs| ==> values[i] == logs[i].Contents()
  {
    if logs == [] then [] else Values(logs[..|logs| - 1]) + [logs[|logs| - 1].Contents()]
  }

  /** Different logs do not share their topics. */
  ghost predicate Separate(logs: seq<Log>)
    reads logs
  {
    forall i, j :: 0 <= i < |logs| && 0 <= j < |logs| && logs[i] != logs[j] ==> logs[i].topics != logs[j].topics
  }

  /** Filtering changes the logs themselves; a log that is listed twice comes out right all the same. */
  method FilterSpecialLogs(logs: seq<Log>) returns (res: seq<Log>)
    requires Separate(logs)
    modifies logs, set l | l in logs :: l.topics
    ensures forall j :: 0 <= j < |res| ==> res[j] in logs
    ensures forall l :: l in logs ==> l.topics == old(l.topics) && l.Contents() == Kept(old(l.Contents()))
    ensures |res| == |SpecialLogs(old(Values(logs)))|
    ensures forall j :: 0 <= j < |res| ==> res[j].Contents() == SpecialLogs(old(Values(logs)))[j]
  {
    hide Kept, IsSpecial, SpecialLogs;
    res := [];
    ghost var values := Values(logs);
    SpecialLogsStart(values);
    var i := 0;
    while i < |logs|
      invariant 0 <= i <= |logs|
      invariant forall l :: l in logs ==> l.topics == old(l.topics)
      invariant forall l :: l in logs[..i] ==> l.Contents() == Kept(old(l.Contents()))
      invariant forall l :: l in logs && l !in logs[..i] ==> l.Contents() == old(l.Contents())
      invariant |res| == |SpecialLogs(values[..i])|
      invariant forall j :: 0 <= j < |res| ==>
                  res[j] in logs[..i] && SpecialLogs(values[..i])[j] == Kept(old(res[j].Contents()))
    {
      var log := logs[i];
      KeptAgain(old(log.Contents()));
      SpecialLogsStep(values, i);
      var keep := log.Redact();
      if keep {
        res := res + [log];
      }
      assert logs[..i + 1] == logs[..i] + [log];
      i := i + 1;
    }
    assert values[..i] == values && logs[..i] == logs;
  }

  lemma SpecialLogsStart(ls: seq<LogData>)
    ensures SpecialLogs(ls[..0]) == []
  {
  }

  lemma SpecialLogsStep(ls: seq<LogData>, i: nat)
    requires i < |ls|
    ensures SpecialLogs(ls[..i + 1]) == SpecialLogs(ls[..i]) + if IsSpecial(ls[i]) then [Kept(ls[i])] else []
  {
    assert ls[..i + 1][..i] == ls[..i];
  }
}
