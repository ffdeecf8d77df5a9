/** `analyzeAndStoreThreat`: the record goes to the threat classifier (which
    stores any threat it finds), then the first page of ten stored threats is
    fetched (`getThreats(10, 0)`) and the first whose `source` equals the
    record's origin number is taken as this record's verdict. Any exception
    from the classifier or the store yields null. Both collaborators are
    abstracted to one outcome per call. The store's listing order is not part
    of this model: it is assumed to be newest first, as the service's naming
    (`latestThreat`) expects, and every property below is stated over the
    listing in whatever order the store returns it. */
module Correlation {
  import opened Options
  import opened Normalizer

  /** A stored threat, reduced to the fields the service reads. */
  datatype Threat = Threat(source: string, threatType: string, aiScore: real)

  /** What the classifier-and-store step yields for one record: an exception
      from either await, or the store's threats as listed after the classifier
      ran; the order is assumed to be newest first. */
  datatype StoreOutcome = Threw | Listed(newestFirst: seq<Threat>)

  /** The page size of `getThreats(10, 0)`. */
  const RecentLimit: nat := 10

  /** The first page of the store's listing, offset 0. */
  function Recent(newestFirst: seq<Threat>): (w: seq<Threat>)
    ensures |w| <= RecentLimit
    ensures |w| <= |newestFirst| && (|w| == |newestFirst| || |w| == RecentLimit)
    ensures w == newestFirst[..|w|]
  {
    if |newestFirst| <= RecentLimit then newestFirst else newestFirst[..RecentLimit]
  }

  /** `window[i]` is the first threat of the window whose source is `source`. */
  ghost predicate FirstMatchAt(window: seq<Threat>, source: string, i: int) {
    && 0 <= i < |window|
    && window[i].source == source
    && forall j :: 0 <= j < i ==> window[j].source != source
  }

  /** `window.find(t => t.source === source)`, with `undefined` as `None`. */
  function FindBySource(window: seq<Threat>, source: string): (r: Option<Threat>)
    ensures r.None? <==> forall i :: 0 <= i < |window| ==> window[i].source != source
    ensures r.Some? ==> exists i :: FirstMatchAt(window, source, i) && window[i] == r.value
  {
    if window == [] then None
    else if window[0].source == source then
      assert FirstMatchAt(window, source, 0);
      Some(window[0])
    else
      var r := FindBySource(window[1..], source);
      if r.Some? then
        assert exists i :: FirstMatchAt(window, source, i) && window[i] == r.value by {
          var i :| FirstMatchAt(window[1..], source, i) && window[1..][i] == r.value;
          FirstMatchShifts(window, source, i);
        }
        r
      else
        NoMatchInTail(window, source);
        r
  }

  /** A first match in the tail is a first match one place further on in a
      window whose head does not match. */
  lemma FirstMatchShifts(window: seq<Threat>, source: string, i: int)
    requires window != [] && window[0].source != source
    requires FirstMatchAt(window[1..], source, i)
    ensures FirstMatchAt(window, source, i + 1) && window[i + 1] == window[1..][i]
  {
    assert forall j :: 1 <= j < |window| ==> window[j] == window[1..][j - 1];
  }

  /** A window with no match in its head nor in its tail has no match. */
  lemma NoMatchInTail(window: seq<Threat>, source: string)
    requires window != [] && window[0].source != source
    requires forall i :: 0 <= i < |window| - 1 ==> window[1..][i].source != source
    ensures forall i :: 0 <= i < |window| ==> window[i].source != source
  {
    assert forall i :: 1 <= i < |window| ==> window[i] == window[1..][i - 1];
  }

  /** What the service returns once the record's origin is known: nothing when
      the classifier or the store threw, else the first threat recorded for that origin
      within the first page of ten of the listing. */
  function Correlate(origin: string, outcome: StoreOutcome): (r: Option<Threat>)
    ensures outcome.Threw? ==> r == None
    ensures r.Some? ==> r.value.source == origin
    ensures outcome.Listed? ==>
      (r.None? <==> forall i :: 0 <= i < |outcome.newestFirst| && i < RecentLimit
                                ==> outcome.newestFirst[i].source != origin)
    ensures r.Some? ==> exists i :: 0 <= i < RecentLimit && FirstMatchAt(outcome.newestFirst, origin, i)
                                    && outcome.newestFirst[i] == r.value
  {
    match outcome
    case Threw => None
    case Listed(newestFirst) =>
      var window := Recent(newestFirst);
      var r := FindBySource(window, origin);
      assert forall i :: 0 <= i < |window| ==> window[i] == newestFirst[i];
      if r.Some? then
        assert exists i :: 0 <= i < RecentLimit && FirstMatchAt(newestFirst, origin, i)
                           && newestFirst[i] == r.value by {
          var i :| FirstMatchAt(window, origin, i) && window[i] == r.value;
          assert FirstMatchAt(newestFirst, origin, i);
        }
        r
      else
        r
  }

  /** `analyzeAndStoreThreat(record, type)`: the record enters only through its
      origin. `None` covers both a caught exception (`null`) and a window
      without a match (`undefined`). */
  function AnalyzeAndStoreThreat(record: CommRecord, outcome: StoreOutcome): (r: Option<Threat>)
    ensures outcome.Threw? ==> r == None
    ensures r.Some? ==> r.value.source == record.Origin()
    ensures outcome.Listed? ==>
      (r.None? <==> forall i :: 0 <= i < |outcome.newestFirst| && i < RecentLimit
                                ==> outcome.newestFirst[i].source != record.Origin())
    ensures r.Some? ==> exists i :: 0 <= i < RecentLimit && FirstMatchAt(outcome.newestFirst, record.Origin(), i)
                                    && outcome.newestFirst[i] == r.value
  {
    Correlate(record.Origin(), outcome)
  }

  /** A threat from this origin stored beyond the first page is never found:
      the record then counts as having no threat. */
  lemma MatchBeyondPageMissed(record: CommRecord, newestFirst: seq<Threat>)
    requires forall i :: 0 <= i < |newestFirst| && i < RecentLimit ==> newestFirst[i].source != record.Origin()
    ensures AnalyzeAndStoreThreat(record, Listed(newestFirst)) == None
  {
  }

  /** The verdict depends on the record only through its origin number: two
      different records from the same number, seen against the same listing,
      receive the same stored threat, even when that threat was stored for an
      earlier record. */
  lemma VerdictSeesOnlyOrigin(a: CommRecord, b: CommRecord, outcome: StoreOutcome)
    requires a.Origin() == b.Origin()
    ensures AnalyzeAndStoreThreat(a, outcome) == AnalyzeAndStoreThreat(b, outcome)
  {
  }

  /** A matching threat at the head of the listing wins over those after it. */
  lemma NewestMatchWins(record: CommRecord, older: seq<Threat>, t: Threat)
    requires t.source == record.Origin()
    ensures AnalyzeAndStoreThreat(record, Listed([t] + older)) == Some(t)
  {
  }
}
