/** `CSVAnalysisService.analyzeCSVData`: the decoded rows are walked in file
    order; for a `'cdr'` file each row is normalised as a call record, for an
    `'sms'` file as a message record, and the record's verdict is folded into
    the running counters; every row, whatever the file type and whatever its
    verdict, is appended to `records`, whose length becomes `totalRecords`. */
module CsvAnalysis {
  import opened Options
  import opened Normalizer
  import opened Correlation
  import opened Aggregation

  /** What the environment supplies while one row is processed: the clock
      reading (`Date.now()`), the text of `Math.random()`, and the outcome of
      the classifier-and-store step for that row. */
  datatype RowContext = RowContext(clockMillis: nat, randomText: string, outcome: StoreOutcome)

  /** `CSVAnalysisResult`; `processedAt` is the clock reading at the end. */
  datatype AnalysisResult = AnalysisResult(
    totalRecords: nat,
    threatsDetected: nat,
    highRiskRecords: nat,
    averageRiskScore: real,
    threatsByType: map<string, nat>,
    processedAt: int)

  /** The verdict one row contributes. Only the row's resolved origin reaches
      the correlation step (see `RowVerdictIsServiceCall`); a file type other
      than `'cdr'` and `'sms'` takes neither branch and contributes none. */
  function RowVerdict(row: Row, fileType: string, ctx: RowContext): (v: Option<Threat>)
    ensures fileType != "cdr" && fileType != "sms" ==> v == None
    ensures ctx.outcome.Threw? ==> v == None
  {
    if fileType == "cdr" then Correlate(FirstNonEmpty(row, CallFromAliases, ""), ctx.outcome)
    else if fileType == "sms" then Correlate(FirstNonEmpty(row, MessageFromAliases, ""), ctx.outcome)
    else None
  }

  /** The verdict is what `analyzeAndStoreThreat` returns for the record the
      row normalises to, whatever the clock and random readings were. */
  lemma RowVerdictIsServiceCall(row: Row, fileType: string, ctx: RowContext)
    ensures fileType == "cdr" ==>
      RowVerdict(row, fileType, ctx)
      == AnalyzeAndStoreThreat(Call(MapToCdrRecord(row, ctx.clockMillis, ctx.randomText)), ctx.outcome)
    ensures fileType == "sms" ==>
      RowVerdict(row, fileType, ctx)
      == AnalyzeAndStoreThreat(Message(MapToSmsRecord(row, ctx.clockMillis, ctx.randomText)), ctx.outcome)
  {
  }

  /** A threat found for a row belongs to the sender the row resolves to. */
  lemma RowVerdictSource(row: Row, fileType: string, ctx: RowContext)
    requires RowVerdict(row, fileType, ctx).Some?
    ensures fileType == "cdr" ==> ResolvesTo(row, CallFromAliases, "", RowVerdict(row, fileType, ctx).value.source)
    ensures fileType == "sms" ==> ResolvesTo(row, MessageFromAliases, "", RowVerdict(row, fileType, ctx).value.source)
  {
  }

  /** The verdicts of the first `n` rows, in file order. */
  function Verdicts(rows: seq<Row>, fileType: string, ctxs: seq<RowContext>, n: nat): (vs: seq<Option<Threat>>)
    requires |ctxs| == |rows| && n <= |rows|
    ensures |vs| == n
    ensures forall k :: 0 <= k < n ==> vs[k] == RowVerdict(rows[k], fileType, ctxs[k])
  {
    if n == 0 then []
    else
      var prefix := Verdicts(rows, fileType, ctxs, n - 1);
      var vs := prefix + [RowVerdict(rows[n - 1], fileType, ctxs[n - 1])];
      assert forall k :: 0 <= k < n - 1 ==> vs[k] == prefix[k];
      vs
  }

  /** The result the service builds from the verdicts of its rows. */
  function Tally(vs: seq<Option<Threat>>, processedAt: int): (s: AnalysisResult)
    ensures s.totalRecords == |vs|
    ensures s.highRiskRecords <= s.threatsDetected <= s.totalRecords
    ensures MapSum(s.threatsByType) == s.threatsDetected
    ensures s.threatsDetected == 0 ==> s.averageRiskScore == 0.0
    ensures s.threatsByType == map[] <==> s.threatsDetected == 0
    ensures s.processedAt == processedAt
  {
    TypeCountsSum(vs);
    AnalysisResult(|vs|, ThreatCount(vs), HighRiskCount(vs), AverageRisk(vs), TypeCounts(vs), processedAt)
  }

  /** The summary the service must return for these rows. */
  function Summarize(rows: seq<Row>, fileType: string, ctxs: seq<RowContext>, processedAt: int): (s: AnalysisResult)
    requires |ctxs| == |rows|
    ensures s.totalRecords == |rows|
    ensures fileType != "cdr" && fileType != "sms" ==> s.threatsDetected == 0 && s.threatsByType == map[]
  {
    UnknownFileTypeNoThreats(rows, fileType, ctxs);
    Tally(Verdicts(rows, fileType, ctxs, |rows|), processedAt)
  }

  /** A file type other than `'cdr'` and `'sms'` finds no threat in any row. */
  lemma UnknownFileTypeNoThreats(rows: seq<Row>, fileType: string, ctxs: seq<RowContext>)
    requires |ctxs| == |rows|
    ensures fileType != "cdr" && fileType != "sms" ==> ThreatCount(Verdicts(rows, fileType, ctxs, |rows|)) == 0
  {
    if fileType != "cdr" && fileType != "sms" {
      var vs := Verdicts(rows, fileType, ctxs, |rows|);
      assert forall k :: 0 <= k < |vs| ==> vs[k] == None;
      NoVerdictsNoThreats(vs);
    }
  }

  lemma {:induction false} NoVerdictsNoThreats(vs: seq<Option<Threat>>)
    requires forall i :: 0 <= i < |vs| ==> vs[i] == None
    ensures ThreatCount(vs) == 0
  {
    if vs != [] {
      var prefix := vs[..|vs| - 1];
      assert forall i :: 0 <= i < |prefix| ==> prefix[i] == vs[i];
      NoVerdictsNoThreats(prefix);
    }
  }

  /** The branch of the loop body that turns one row into its verdict: a
      `'cdr'` row is normalised as a call record, an `'sms'` row as a message
      record, and the record goes to `analyzeAndStoreThreat`. */
  method AnalyzeRow(row: Row, fileType: string, ctx: RowContext) returns (threatInfo: Option<Threat>)
    ensures threatInfo == RowVerdict(row, fileType, ctx)
  {
    threatInfo := None;
    if fileType == "cdr" {
      var cdrRecord := MapToCdrRecord(row, ctx.clockMillis, ctx.randomText);
      threatInfo := AnalyzeAndStoreThreat(Call(cdrRecord), ctx.outcome);
    } else if fileType == "sms" {
      var smsRecord := MapToSmsRecord(row, ctx.clockMillis, ctx.randomText);
      threatInfo := AnalyzeAndStoreThreat(Message(smsRecord), ctx.outcome);
    }
  }

  /** The aggregation block the source writes out in both branches: a threat
      increments the count, the high-risk count when its score reaches the
      threshold, the score total and its type's entry; no threat changes
      nothing. */
  method CountVerdict(ghost seen: seq<Option<Threat>>, threatInfo: Option<Threat>,
                      threatsDetected: nat, highRiskRecords: nat,
                      totalRiskScore: real, threatsByType: map<string, nat>)
    returns (detected: nat, highRisk: nat, riskTotal: real, byType: map<string, nat>)
    requires threatsDetected == ThreatCount(seen) && highRiskRecords == HighRiskCount(seen)
    requires totalRiskScore == ScoreSum(seen) && threatsByType == TypeCounts(seen)
    ensures detected == ThreatCount(seen + [threatInfo])
    ensures highRisk == HighRiskCount(seen + [threatInfo])
    ensures riskTotal == ScoreSum(seen + [threatInfo])
    ensures byType == TypeCounts(seen + [threatInfo])
  {
    detected, highRisk, riskTotal, byType := threatsDetected, highRiskRecords, totalRiskScore, threatsByType;
    if threatInfo.Some? {
      var threat := threatInfo.value;
      FoldThreat(seen, threat);
      detected := detected + 1;
      if threat.aiScore >= HighRiskThreshold {
        highRisk := highRisk + 1;
      }
      riskTotal := riskTotal + threat.aiScore;
      byType := Bump(byType, threat.threatType);
    } else {
      NoVerdictAddsNothing(seen);
    }
  }

  /** One iteration of the loop over the rows: row `i` is analysed and its
      verdict folded into the counters, which go from the aggregates of the
      first `i` verdicts to those of the first `i + 1`. */
  method ProcessRow(rows: seq<Row>, fileType: string, ctxs: seq<RowContext>, i: nat,
                    threatsDetected: nat, highRiskRecords: nat,
                    totalRiskScore: real, threatsByType: map<string, nat>)
    returns (detected: nat, highRisk: nat, riskTotal: real, byType: map<string, nat>)
    requires |ctxs| == |rows| && i < |rows|
    requires threatsDetected == ThreatCount(Verdicts(rows, fileType, ctxs, i))
    requires highRiskRecords == HighRiskCount(Verdicts(rows, fileType, ctxs, i))
    requires totalRiskScore == ScoreSum(Verdicts(rows, fileType, ctxs, i))
    requires threatsByType == TypeCounts(Verdicts(rows, fileType, ctxs, i))
    ensures detected == ThreatCount(Verdicts(rows, fileType, ctxs, i + 1))
    ensures highRisk == HighRiskCount(Verdicts(rows, fileType, ctxs, i + 1))
    ensures riskTotal == ScoreSum(Verdicts(rows, fileType, ctxs, i + 1))
    ensures byType == TypeCounts(Verdicts(rows, fileType, ctxs, i + 1))
  {
    var threatInfo := AnalyzeRow(rows[i], fileType, ctxs[i]);
    ghost var seen := Verdicts(rows, fileType, ctxs, i);
    assert Verdicts(rows, fileType, ctxs, i + 1) == seen + [threatInfo];
    detected, highRisk, riskTotal, byType :=
      CountVerdict(seen, threatInfo, threatsDetected, highRiskRecords, totalRiskScore, threatsByType);
  }

  /** Taking one more element of a sequence appends that element. */
  lemma PrefixGrows<T>(s: seq<T>, i: nat)
    requires i < |s|
    ensures s[..i + 1] == s[..i] + [s[i]]
  {
  }

  /** `analyzeCSVData(fileBuffer, fileType)` once `parseCSV` has produced `rows`. */
  method AnalyzeCsvData(rows: seq<Row>, fileType: string, ctxs: seq<RowContext>, processedAt: int)
    returns (result: AnalysisResult)
    requires |ctxs| == |rows|
    ensures result == Summarize(rows, fileType, ctxs, processedAt)
    ensures result.totalRecords == |rows|
    ensures result.highRiskRecords <= result.threatsDetected <= result.totalRecords
  {
    var records: seq<Row> := [];
    var threatsDetected: nat := 0;
    var highRiskRecords: nat := 0;
    var totalRiskScore: real := 0.0;
    var threatsByType: map<string, nat> := map[];
    var i := 0;
    while i < |rows|
      invariant 0 <= i <= |rows|
      invariant |records| == i
      invariant records == rows[..i]
      invariant threatsDetected == ThreatCount(Verdicts(rows, fileType, ctxs, i))
      invariant highRiskRecords == HighRiskCount(Verdicts(rows, fileType, ctxs, i))
      invariant totalRiskScore == ScoreSum(Verdicts(rows, fileType, ctxs, i))
      invariant threatsByType == TypeCounts(Verdicts(rows, fileType, ctxs, i))
    {
      var row := rows[i];
      threatsDetected, highRiskRecords, totalRiskScore, threatsByType :=
        ProcessRow(rows, fileType, ctxs, i, threatsDetected, highRiskRecords, totalRiskScore, threatsByType);
      PrefixGrows(rows, i);
      records := records + [row];
      i := i + 1;
    }
    result := AnalysisResult(
      totalRecords := |records|,
      threatsDetected := threatsDetected,
      highRiskRecords := highRiskRecords,
      averageRiskScore := if threatsDetected > 0 then totalRiskScore / threatsDetected as real else 0.0,
      threatsByType := threatsByType,
      processedAt := processedAt);
  }
}
