/** The accumulation rules of `analyzeCSVData`, stated over the sequence of
    per-row verdicts in file order (`None` where a row produced no threat):
    how many threats, how many of them high-risk, the score total and mean,
    and the per-type counts of `threatsByType`. */
module Aggregation {
  import opened Options
  import opened Correlation

  /** A verdict scores high risk from this value on, inclusive. */
  const HighRiskThreshold: real := 7.0

  predicate IsHighRisk(t: Threat) {
    t.aiScore >= HighRiskThreshold
  }

  /** Rows that produced a threat. */
  function ThreatCount(vs: seq<Option<Threat>>): (n: nat)
    ensures n <= |vs|
  {
    if vs == [] then 0
    else ThreatCount(vs[..|vs| - 1]) + (if vs[|vs| - 1].Some? then 1 else 0)
  }

  /** Threats whose score reaches the threshold. */
  function HighRiskCount(vs: seq<Option<Threat>>): (n: nat)
    ensures n <= ThreatCount(vs)
  {
    if vs == [] then 0
    else HighRiskCount(vs[..|vs| - 1]) + (if vs[|vs| - 1].Some? && IsHighRisk(vs[|vs| - 1].value) then 1 else 0)
  }

  /** The sum of the scores of all threats (`totalRiskScore`); rows without a
      threat add nothing. */
  function ScoreSum(vs: seq<Option<Threat>>): (total: real)
    ensures ThreatCount(vs) == 0 ==> total == 0.0
  {
    if vs == [] then 0.0
    else ScoreSum(vs[..|vs| - 1]) + (if vs[|vs| - 1].Some? then vs[|vs| - 1].value.aiScore else 0.0)
  }

  /** The `threatsByType` dictionary: each threat increments its type's entry,
      an absent entry reading as 0 (`(m[k] || 0) + 1`). */
  function TypeCounts(vs: seq<Option<Threat>>): (m: map<string, nat>)
    ensures m == map[] <==> ThreatCount(vs) == 0
  {
    if vs == [] then map[]
    else
      var m := TypeCounts(vs[..|vs| - 1]);
      match vs[|vs| - 1]
      case None => m
      case Some(t) => Bump(m, t.threatType)
  }

  /** `m[k] = (m[k] || 0) + 1`: an absent key counts from 0. */
  function Bump(m: map<string, nat>, k: string): (r: map<string, nat>)
    ensures r.Keys == m.Keys + {k}
    ensures r[k] == (if k in m then m[k] else 0) + 1
    ensures forall j :: j in m && j != k ==> r[j] == m[j]
  {
    m[k := (if k in m then m[k] else 0) + 1]
  }

  /** Reference count: how many threats have the given type. */
  function CountOfType(vs: seq<Option<Threat>>, threatType: string): nat {
    if vs == [] then 0
    else
      CountOfType(vs[..|vs| - 1], threatType)
      + (if vs[|vs| - 1].Some? && vs[|vs| - 1].value.threatType == threatType then 1 else 0)
  }

  /** `threatsDetected > 0 ? totalRiskScore / threatsDetected : 0`. */
  function AverageRisk(vs: seq<Option<Threat>>): (a: real)
    ensures ThreatCount(vs) == 0 ==> a == 0.0
  {
    if ThreatCount(vs) > 0 then ScoreSum(vs) / ThreatCount(vs) as real else 0.0
  }

  /** The sum of the values of a map. */
  ghost function MapSum(m: map<string, nat>): nat
    decreases |m|
  {
    if m == map[] then 0
    else
      var k :| k in m;
      assert |(m - {k}).Keys| < |m.Keys| by {
        assert (m - {k}).Keys == m.Keys - {k};
      }
      m[k] + MapSum(m - {k})
  }

  /** `MapSum` does not depend on which key it takes first. */
  lemma {:induction false} MapSumRemove(m: map<string, nat>, k: string)
    requires k in m
    ensures MapSum(m) == m[k] + MapSum(m - {k})
    decreases |m|
  {
    var j :| j in m && MapSum(m) == m[j] + MapSum(m - {j});
    if j != k {
      assert (m - {j}).Keys == m.Keys - {j};
      assert (m - {k}).Keys == m.Keys - {k};
      MapSumRemove(m - {j}, k);
      MapSumRemove(m - {k}, j);
      assert (m - {j}) - {k} == (m - {k}) - {j};
    }
  }

  /** Setting one entry changes the sum by the difference of the two values. */
  lemma MapSumUpdate(m: map<string, nat>, k: string, v: nat)
    ensures MapSum(m[k := v]) + (if k in m then m[k] else 0) == MapSum(m) + v
  {
    MapSumRemove(m[k := v], k);
    assert m[k := v] - {k} == m - {k};
    if k in m {
      MapSumRemove(m, k);
    } else {
      assert m - {k} == m;
    }
  }

  /** The values of `threatsByType` add up to `threatsDetected`. */
  lemma {:induction false} TypeCountsSum(vs: seq<Option<Threat>>)
    ensures MapSum(TypeCounts(vs)) == ThreatCount(vs)
  {
    if vs != [] {
      var prefix := vs[..|vs| - 1];
      TypeCountsSum(prefix);
      if vs[|vs| - 1].Some? {
        TypeCountsSumGrows(prefix, vs[|vs| - 1].value);
        assert vs == prefix + [vs[|vs| - 1]];
      } else {
        assert TypeCounts(vs) == TypeCounts(prefix);
        assert ThreatCount(vs) == ThreatCount(prefix);
      }
    }
  }

  /** One more threat adds one to both sides of `TypeCountsSum`. */
  lemma TypeCountsSumGrows(vs: seq<Option<Threat>>, t: Threat)
    requires MapSum(TypeCounts(vs)) == ThreatCount(vs)
    ensures MapSum(TypeCounts(vs + [Some(t)])) == ThreatCount(vs + [Some(t)])
  {
    var m := TypeCounts(vs);
    var k := t.threatType;
    var v := (if k in m then m[k] else 0) + 1;
    assert (vs + [Some(t)])[..|vs|] == vs;
    assert TypeCounts(vs + [Some(t)]) == m[k := v];
    MapSumUpdate(m, k, v);
  }

  /** Each entry of `threatsByType` is the number of threats of that type, so a
      type is a key exactly when at least one threat has it, and its first
      occurrence creates the entry with count 1. */
  lemma {:induction false} TypeCountsCount(vs: seq<Option<Threat>>, threatType: string)
    ensures threatType in TypeCounts(vs) <==> CountOfType(vs, threatType) > 0
    ensures threatType in TypeCounts(vs) ==> TypeCounts(vs)[threatType] == CountOfType(vs, threatType)
  {
    if vs != [] {
      TypeCountsCount(vs[..|vs| - 1], threatType);
    }
  }

  /** A type counts threats exactly when some row's threat has that type. */
  lemma {:induction false} CountOfTypeWitness(vs: seq<Option<Threat>>, threatType: string)
    ensures CountOfType(vs, threatType) > 0
            <==> exists i :: 0 <= i < |vs| && vs[i].Some? && vs[i].value.threatType == threatType
  {
    if vs != [] {
      var prefix := vs[..|vs| - 1];
      CountOfTypeWitness(prefix, threatType);
      assert forall i :: 0 <= i < |prefix| ==> prefix[i] == vs[i];
    }
  }

  /** Every key of `threatsByType` is the type of some row's threat, and every
      such type is a key. */
  lemma TypeCountsKeys(vs: seq<Option<Threat>>, threatType: string)
    ensures threatType in TypeCounts(vs)
            <==> exists i :: 0 <= i < |vs| && vs[i].Some? && vs[i].value.threatType == threatType
  {
    TypeCountsCount(vs, threatType);
    CountOfTypeWitness(vs, threatType);
  }

  /** Every threat among the verdicts scores between `lo` and `hi`. */
  predicate ScoresWithin(vs: seq<Option<Threat>>, lo: real, hi: real) {
    forall i :: 0 <= i < |vs| && vs[i].Some? ==> lo <= vs[i].value.aiScore <= hi
  }

  /** `n` copies of `x` added up: the product `x * n`, written so that the
      bounds below stay linear. */
  function Times(x: real, n: nat): real {
    if n == 0 then 0.0 else Times(x, n - 1) + x
  }

  /** `Times` is multiplication. */
  lemma {:induction false} TimesIsProduct(x: real, n: nat)
    ensures Times(x, n) == x * n as real
  {
    if n > 0 {
      TimesIsProduct(x, n - 1);
      assert x * n as real == x * (n - 1) as real + x;
    }
  }

  /** With every score between `lo` and `hi`, the total lies between `count`
      copies of each. */
  lemma {:induction false} ScoreSumBounds(vs: seq<Option<Threat>>, lo: real, hi: real)
    requires ScoresWithin(vs, lo, hi)
    ensures Times(lo, ThreatCount(vs)) <= ScoreSum(vs) <= Times(hi, ThreatCount(vs))
  {
    if vs != [] {
      var n := |vs| - 1;
      var prefix := vs[..n];
      assert ScoresWithin(prefix, lo, hi) by {
        assert forall i :: 0 <= i < |prefix| ==> prefix[i] == vs[i];
      }
      ScoreSumBounds(prefix, lo, hi);
    }
  }

  /** A total between `count` copies of `lo` and of `hi`, divided by `count`,
      lies between `lo` and `hi`. */
  lemma {:induction false} QuotientBounds(total: real, count: nat, lo: real, hi: real)
    requires count > 0 && Times(lo, count) <= total <= Times(hi, count)
    ensures lo <= total / count as real <= hi
  {
    TimesIsProduct(lo, count);
    TimesIsProduct(hi, count);
    var n := count as real;
    var q := total / n;
    assert q * n == total;
    ProductNonNegative(q - lo, n);
    ProductNonNegative(hi - q, n);
  }

  /** A product with a positive factor that is not negative has a factor that is not negative. */
  lemma ProductNonNegative(x: real, n: real)
    requires n > 0.0 && x * n >= 0.0
    ensures x >= 0.0
  {
  }

  /** The mean of scores that lie in `[lo, hi]` lies in `[lo, hi]` too. */
  lemma {:induction false} AverageRiskBounds(vs: seq<Option<Threat>>, lo: real, hi: real)
    requires ScoresWithin(vs, lo, hi)
    requires ThreatCount(vs) > 0
    ensures lo <= AverageRisk(vs) <= hi
  {
    ScoreSumBounds(vs, lo, hi);
    QuotientBounds(ScoreSum(vs), ThreatCount(vs), lo, hi);
  }

  /** A row without a verdict (a caught exception or no match) leaves every
      threat aggregate as it was. */
  lemma NoVerdictAddsNothing(vs: seq<Option<Threat>>)
    ensures ThreatCount(vs + [None]) == ThreatCount(vs)
    ensures HighRiskCount(vs + [None]) == HighRiskCount(vs)
    ensures ScoreSum(vs + [None]) == ScoreSum(vs)
    ensures TypeCounts(vs + [None]) == TypeCounts(vs)
    ensures AverageRisk(vs + [None]) == AverageRisk(vs)
  {
    assert (vs + [None])[..|vs|] == vs;
  }

  /** How a row's threat extends each aggregate. */
  lemma FoldThreat(vs: seq<Option<Threat>>, t: Threat)
    ensures ThreatCount(vs + [Some(t)]) == ThreatCount(vs) + 1
    ensures HighRiskCount(vs + [Some(t)]) == HighRiskCount(vs) + (if IsHighRisk(t) then 1 else 0)
    ensures ScoreSum(vs + [Some(t)]) == ScoreSum(vs) + t.aiScore
    ensures TypeCounts(vs + [Some(t)]) == Bump(TypeCounts(vs), t.threatType)
  {
    assert (vs + [Some(t)])[..|vs|] == vs;
  }

  /** The threshold is inclusive: a score of exactly 7 is high risk, 6.99 is not. */
  lemma ThresholdInclusive(source: string, threatType: string)
    ensures HighRiskCount([Some(Threat(source, threatType, 7.0))]) == 1
    ensures HighRiskCount([Some(Threat(source, threatType, 6.99))]) == 0
  {
    assert [Some(Threat(source, threatType, 7.0))][..0] == [];
    assert [Some(Threat(source, threatType, 6.99))][..0] == [];
  }
}
