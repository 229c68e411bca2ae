/**
 The result store twice: the in-memory sink that appends and scans, and the
 database table that is queried by comparing text. The second refines the first.
 */
module Results {
  import opened Wrappers
  import opened Domain
  import opened Rfc3339
  import opened Text
  import opened UuidText
  import opened Mapping
  import opened Ordering

  // The in-memory sink.

  function OfCheck(results: seq<CheckResult>, checkId: Uuid): seq<CheckResult> {
    if results == [] then []
    else (if results[0].checkId == checkId then [results[0]] else []) + OfCheck(results[1..], checkId)
  }

  /** The first match from the end. */
  function LatestOf(results: seq<CheckResult>, checkId: Uuid): Option<CheckResult> {
    if results == [] then None
    else if results[|results| - 1].checkId == checkId then Some(results[|results| - 1])
    else LatestOf(results[..|results| - 1], checkId)
  }

  class InMemoryResultSink {
    var results: seq<CheckResult>

    constructor ()
      ensures AllResults() == []
      ensures forall id :: ResultsForCheck(id) == [] && LatestForCheck(id) == None
    {
      results := [];
    }

    method Record(result: CheckResult) returns (ok: bool)
      modifies this
      ensures ok && AllResults() == old(AllResults()) + [result]
      ensures forall id ::
                ResultsForCheck(id) == old(ResultsForCheck(id)) + if id == result.checkId then [result] else []
      ensures forall id ::
                LatestForCheck(id) == if id == result.checkId then Some(result) else old(LatestForCheck(id))
    {
      results := results + [result];
      forall id
        ensures OfCheck(results, id) == OfCheck(old(results), id) + if id == result.checkId then [result] else []
      {
        OfCheckSnoc(old(results), result, id);
      }
      assert results[..|results| - 1] == old(results);
      return true;
    }

    method Clear()
      modifies this
      ensures AllResults() == []
      ensures forall id :: ResultsForCheck(id) == [] && LatestForCheck(id) == None
    {
      results := [];
    }

    function AllResults(): seq<CheckResult>
      reads this
    {
      results
    }

    function ResultsForCheck(checkId: Uuid): seq<CheckResult>
      reads this
    {
      OfCheck(results, checkId)
    }

    function LatestForCheck(checkId: Uuid): Option<CheckResult>
      reads this
    {
      LatestOf(results, checkId)
    }
  }

  // The database table.

  /** The mapping layer accepts all of these results. */
  predicate Storable(results: seq<CheckResult>) {
    forall i :: 0 <= i < |results| ==> results[i].durationMs < I64_LIMIT
  }

  function RowOf(r: CheckResult): ResultRow
    requires r.durationMs < I64_LIMIT
  {
    ResultToRow(r).value
  }

  function Rows(results: seq<CheckResult>): seq<ResultRow>
    requires Storable(results)
  {
    Map(RowOf, results)
  }

  function RowsOfCheck(rows: seq<ResultRow>, checkId: string): seq<ResultRow> {
    if rows == [] then []
    else (if rows[0].checkId == checkId then [rows[0]] else []) + RowsOfCheck(rows[1..], checkId)
  }

  /** ORDER BY checked_at DESC, id DESC, on the stored text. */
  predicate RowPrecedes(a: ResultRow, b: ResultRow) {
    TextLess(b.checkedAt, a.checkedAt) || (a.checkedAt == b.checkedAt && TextLess(b.id, a.id))
  }

  /** Later in time, or simultaneous with a larger id. */
  predicate ResultPrecedes(a: CheckResult, b: CheckResult) {
    Earlier(b.checkedAt, a.checkedAt) || (a.checkedAt == b.checkedAt && b.id < a.id)
  }

  function Select(rows: seq<ResultRow>, checkId: Uuid): seq<ResultRow> {
    SortBy(RowPrecedes, RowsOfCheck(rows, UuidToDb(checkId)))
  }

  function LatestForCheck(rows: seq<ResultRow>, checkId: Uuid): Result<Option<CheckResult>, PersistenceError> {
    var selected := Select(rows, checkId);
    if selected == [] then Success(None)
    else
      var latest :- ResultFromRow(selected[0]);
      Success(Some(latest))
  }

  function RecentForCheck(rows: seq<ResultRow>, checkId: Uuid, limit: nat): Result<seq<CheckResult>, PersistenceError> {
    DecodeAll(ResultFromRow, Take(Select(rows, checkId), limit))
  }

  ghost predicate DistinctIds(results: seq<CheckResult>) {
    forall i, j :: 0 <= i < j < |results| ==> results[i].id != results[j].id
  }

  // Text order on rows is chronological order on results.

  lemma RowOrderIsResultOrder(a: CheckResult, b: CheckResult)
    requires a.durationMs < I64_LIMIT && b.durationMs < I64_LIMIT
    ensures RowPrecedes(RowOf(a), RowOf(b)) <==> ResultPrecedes(a, b)
  {
    TimestampTextKeepsOrder(b.checkedAt, a.checkedAt);
    UuidTextKeepsOrder(b.id, a.id);
    TimestampParsesBack(a.checkedAt);
    TimestampParsesBack(b.checkedAt);
  }

  lemma {:induction false} FilterCommutes(results: seq<CheckResult>, checkId: Uuid)
    requires Storable(results)
    ensures Storable(OfCheck(results, checkId))
    ensures RowsOfCheck(Rows(results), UuidToDb(checkId)) == Rows(OfCheck(results, checkId))
  {
    if results == [] {
    } else {
      UuidTextIsInjective(results[0].checkId, checkId);
      FilterCommutes(results[1..], checkId);
      PrependRow(results[0], OfCheck(results[1..], checkId));
      assert Rows(results)[1..] == Rows(results[1..]);
      if results[0].checkId != checkId {
        assert OfCheck(results, checkId) == OfCheck(results[1..], checkId);
      }
    }
  }

  lemma PrependRow(r: CheckResult, results: seq<CheckResult>)
    requires Storable(results) && r.durationMs < I64_LIMIT
    ensures Storable([r] + results) && Rows([r] + results) == [RowOf(r)] + Rows(results)
  {
    assert ([r] + results)[1..] == results;
  }

  /** The results of a check, newest first: later in time, then larger id. */
  function Chronological(results: seq<CheckResult>, checkId: Uuid): seq<CheckResult> {
    SortBy(ResultPrecedes, OfCheck(results, checkId))
  }

  lemma SelectIsChronological(results: seq<CheckResult>, checkId: Uuid)
    requires Storable(results)
    ensures Storable(Chronological(results, checkId))
    ensures Select(Rows(results), checkId) == Rows(Chronological(results, checkId))
  {
    var mine := OfCheck(results, checkId);
    FilterCommutes(results, checkId);
    forall a, b | a in mine && b in mine ensures RowPrecedes(RowOf(a), RowOf(b)) <==> ResultPrecedes(a, b) {
      RowOrderIsResultOrder(a, b);
    }
    SortMap(RowOf, ResultPrecedes, RowPrecedes, mine);
  }

  lemma RowsDecode(results: seq<CheckResult>)
    requires Storable(results)
    ensures DecodeAll(ResultFromRow, Rows(results)) == Success(results)
  {
    forall i | 0 <= i < |results| ensures ResultFromRow(RowOf(results[i])) == Success(results[i]) {
      ResultRoundTrip(results[i]);
    }
    DecodeMap(RowOf, ResultFromRow, results);
  }

  /** The text-sorted queries return the chronologically sorted results, decoded without error. */
  lemma QueriesAreChronological(results: seq<CheckResult>, checkId: Uuid, limit: nat)
    requires Storable(results)
    ensures RecentForCheck(Rows(results), checkId, limit) == Success(Take(Chronological(results, checkId), limit))
    ensures LatestForCheck(Rows(results), checkId) ==
            Success(if Chronological(results, checkId) == [] then None else Some(Chronological(results, checkId)[0]))
  {
    var sorted := Chronological(results, checkId);
    SelectIsChronological(results, checkId);
    TakeMap(RowOf, sorted, limit);
    RowsDecode(Take(sorted, limit));
    if sorted != [] {
      ResultRoundTrip(sorted[0]);
    }
  }

  // The table refines the sink.

  lemma EarlierIsTotalOrder(a: Timestamp, b: Timestamp, c: Timestamp)
    ensures Earlier(a, b) ==> !Earlier(b, a)
    ensures Earlier(a, c) ==> Earlier(a, b) || Earlier(b, c)
    ensures a != b ==> Earlier(a, b) || Earlier(b, a)
  {
  }

  lemma ResultOrderIsWeak()
    ensures WeakOrder(ResultPrecedes)
  {
    forall a, b | ResultPrecedes(a, b) ensures !ResultPrecedes(b, a) {
      EarlierIsTotalOrder(b.checkedAt, a.checkedAt, a.checkedAt);
    }
    forall a, b, c | ResultPrecedes(a, c) ensures ResultPrecedes(a, b) || ResultPrecedes(b, c) {
      EarlierIsTotalOrder(c.checkedAt, b.checkedAt, a.checkedAt);
      EarlierIsTotalOrder(b.checkedAt, a.checkedAt, c.checkedAt);
      EarlierIsTotalOrder(c.checkedAt, a.checkedAt, b.checkedAt);
    }
  }

  lemma {:induction false} OfCheckKeeps(results: seq<CheckResult>, checkId: Uuid)
    ensures forall r :: r in OfCheck(results, checkId) <==> r in results && r.checkId == checkId
  {
    if results == [] {
    } else {
      OfCheckKeeps(results[1..], checkId);
    }
  }

  lemma PrependDistinct(r: CheckResult, rest: seq<CheckResult>)
    requires DistinctIds(rest) && forall q :: q in rest ==> q.id != r.id
    ensures DistinctIds([r] + rest)
  {
  }

  lemma {:induction false} OfCheckDistinct(results: seq<CheckResult>, checkId: Uuid)
    requires DistinctIds(results)
    ensures DistinctIds(OfCheck(results, checkId))
  {
    if results == [] {
    } else {
      OfCheckDistinct(results[1..], checkId);
      OfCheckKeeps(results[1..], checkId);
      PrependDistinct(results[0], OfCheck(results[1..], checkId));
    }
  }

  lemma {:induction false} OfCheckSnoc(results: seq<CheckResult>, r: CheckResult, checkId: Uuid)
    ensures OfCheck(results + [r], checkId) == OfCheck(results, checkId) + if r.checkId == checkId then [r] else []
  {
    if results == [] {
      assert [] + [r] == [r] && OfCheck([r][1..], checkId) == [];
    } else {
      var longer := results + [r];
      assert longer[0] == results[0] && longer[1..] == results[1..] + [r];
      OfCheckSnoc(results[1..], r, checkId);
      var head := if results[0].checkId == checkId then [results[0]] else [];
      var last := if r.checkId == checkId then [r] else [];
      assert head + (OfCheck(results[1..], checkId) + last) == (head + OfCheck(results[1..], checkId)) + last;
    }
  }

  /** The sink's reverse scan finds the last entry of the check's own results. */
  lemma {:induction false} LatestIsLastOfCheck(results: seq<CheckResult>, checkId: Uuid)
    ensures LatestOf(results, checkId) == LastArrived(OfCheck(results, checkId))
  {
    if results == [] {
    } else {
      var init, r := results[..|results| - 1], results[|results| - 1];
      assert results == init + [r];
      OfCheckSnoc(init, r, checkId);
      LatestIsLastOfCheck(init, checkId);
    }
  }

  lemma DistinctDecides(results: seq<CheckResult>)
    requires DistinctIds(results)
    ensures Decides(ResultPrecedes, results)
  {
    forall a, b | a in results && b in results && a != b ensures ResultPrecedes(a, b) || ResultPrecedes(b, a) {
      EarlierIsTotalOrder(a.checkedAt, b.checkedAt, a.checkedAt);
    }
  }

  /** The recent query equals, for every limit, the reversed tail of what the sink lists. */
  ghost predicate RecentIsTail(results: seq<CheckResult>, checkId: Uuid)
    requires Storable(results)
  {
    forall n: nat ::
      RecentForCheck(Rows(results), checkId, n) == Success(Reverse(LastN(OfCheck(results, checkId), n)))
  }

  /**
   Store refinement, exactly: for any interleaving of inserts, every recent query
   equals the reversed tail of what the sink lists if and only if each of the check's
   results comes after all its earlier ones in (time, id) order.
   */
  lemma RecentRefinesSink(results: seq<CheckResult>, checkId: Uuid)
    requires Storable(results) && DistinctIds(results)
    ensures RecentIsTail(results, checkId) <==> Descending(ResultPrecedes, OfCheck(results, checkId))
  {
    forall n: nat
      ensures RecentForCheck(Rows(results), checkId, n) == Success(Take(Chronological(results, checkId), n))
    {
      QueriesAreChronological(results, checkId, n);
    }
    OfCheckDistinct(results, checkId);
    TakesReverseExactly(OfCheck(results, checkId));
  }

  lemma TakesReverseExactly(mine: seq<CheckResult>)
    requires DistinctIds(mine)
    ensures (forall n: nat :: Take(SortBy(ResultPrecedes, mine), n) == Reverse(LastN(mine, n)))
       <==> Descending(ResultPrecedes, mine)
  {
    var sorted := SortBy(ResultPrecedes, mine);
    DistinctDecides(mine);
    ResultOrderIsWeak();
    SortReversesExactly(ResultPrecedes, mine);
    SortKeepsElements(ResultPrecedes, mine);
    if sorted == Reverse(mine) {
      forall n: nat ensures Take(sorted, n) == Reverse(LastN(mine, n)) {
        TakeOfReverse(mine, n);
      }
    } else {
      assert Take(sorted, |mine|) == sorted && LastN(mine, |mine|) == mine;
    }
  }

  /** The last element comes strictly before all the others. */
  ghost predicate LastLeads(mine: seq<CheckResult>) {
    forall i :: 0 <= i < |mine| - 1 ==> ResultPrecedes(mine[|mine| - 1], mine[i])
  }

  lemma FirstOfSorted(mine: seq<CheckResult>)
    requires DistinctIds(mine) && mine != []
    ensures var sorted := SortBy(ResultPrecedes, mine);
            sorted != [] && (sorted[0] == mine[|mine| - 1] <==> LastLeads(mine))
  {
    var sorted, last := SortBy(ResultPrecedes, mine), mine[|mine| - 1];
    ResultOrderIsWeak();
    SortSorts(ResultPrecedes, mine);
    SortKeepsElements(ResultPrecedes, mine);
    if sorted[0] == last {
      forall i | 0 <= i < |mine| - 1 ensures ResultPrecedes(last, mine[i]) {
        LastBeats(sorted, mine, i);
      }
    } else {
      var j, k := Index(mine, sorted, last), Index(sorted, mine, sorted[0]);
      LeaderIsFirst(sorted, mine, j, k);
    }
  }

  /** Where an element of one sequence occurs in a permutation of it. */
  ghost function Index(a: seq<CheckResult>, b: seq<CheckResult>, r: CheckResult): (i: nat)
    requires r in a && multiset(a) == multiset(b)
    ensures i < |b| && b[i] == r
  {
    assert r in multiset(b);
    assert r in b;
    var i :| 0 <= i < |b| && b[i] == r;
    i
  }

  lemma LeaderIsFirst(sorted: seq<CheckResult>, mine: seq<CheckResult>, j: nat, k: nat)
    requires Sorted(ResultPrecedes, sorted) && j < |sorted| && k < |mine|
    requires sorted[j] == mine[|mine| - 1] && mine[k] == sorted[0]
    ensures LastLeads(mine) ==> sorted[0] == mine[|mine| - 1]
  {
  }

  lemma LastBeats(sorted: seq<CheckResult>, mine: seq<CheckResult>, i: nat)
    requires DistinctIds(mine) && i < |mine| - 1 && multiset(sorted) == multiset(mine)
    requires Sorted(ResultPrecedes, sorted) && sorted != [] && sorted[0] == mine[|mine| - 1]
    ensures ResultPrecedes(sorted[0], mine[i])
  {
    DistinctDecides(mine);
    var j := Index(mine, sorted, mine[i]);
    assert sorted[0] != mine[i] && sorted[0] in mine && mine[i] in mine;
    assert j > 0;
  }

  /**
   The latest query answers the last inserted result of a check if and only if that
   result follows all the earlier ones of the check in (time, id) order.
   */
  lemma LatestRefinesSink(results: seq<CheckResult>, checkId: Uuid)
    requires Storable(results) && DistinctIds(results)
    ensures LatestForCheck(Rows(results), checkId) == Success(LatestOf(results, checkId))
       <==> LastLeads(OfCheck(results, checkId))
  {
    LatestIsFirst(results, checkId);
    LatestIsLastOfCheck(results, checkId);
    OfCheckDistinct(results, checkId);
    AnswersAgree(OfCheck(results, checkId));
  }

  /** The first in time and id order, and the last in order of arrival. */
  function Newest(mine: seq<CheckResult>): Option<CheckResult> {
    var sorted := SortBy(ResultPrecedes, mine);
    if sorted == [] then None else Some(sorted[0])
  }

  function LastArrived(mine: seq<CheckResult>): Option<CheckResult> {
    if mine == [] then None else Some(mine[|mine| - 1])
  }

  lemma AnswersAgree(mine: seq<CheckResult>)
    requires DistinctIds(mine)
    ensures Newest(mine) == LastArrived(mine) <==> LastLeads(mine)
  {
    if mine != [] {
      FirstOfSorted(mine);
    }
  }

  lemma LatestIsFirst(results: seq<CheckResult>, checkId: Uuid)
    requires Storable(results)
    ensures LatestForCheck(Rows(results), checkId) == Success(Newest(OfCheck(results, checkId)))
  {
    QueriesAreChronological(results, checkId, 1);
  }

  ghost predicate IncreasingTimes(mine: seq<CheckResult>) {
    forall i, j :: 0 <= i < j < |mine| ==> Earlier(mine[i].checkedAt, mine[j].checkedAt)
  }

  lemma IncreasingTimesDescend(mine: seq<CheckResult>)
    requires IncreasingTimes(mine)
    ensures Descending(ResultPrecedes, mine) && LastLeads(mine)
  {
    forall i, j | 0 <= i < j < |mine| ensures ResultPrecedes(mine[j], mine[i]) {
      assert Earlier(mine[i].checkedAt, mine[j].checkedAt);
    }
  }

  /**
   In particular, when a check's results are inserted with strictly increasing
   times, latest_for_check is the sink's reverse scan and recent_for_check its
   reversed tail, whatever is inserted for other checks in between.
   */
  lemma IncreasingTimesRefineSink(results: seq<CheckResult>, checkId: Uuid, limit: nat)
    requires Storable(results) && DistinctIds(results) && IncreasingTimes(OfCheck(results, checkId))
    ensures LatestForCheck(Rows(results), checkId) == Success(LatestOf(results, checkId))
    ensures RecentForCheck(Rows(results), checkId, limit) == Success(Reverse(LastN(OfCheck(results, checkId), limit)))
  {
    IncreasingTimesDescend(OfCheck(results, checkId));
    RecentRefinesSink(results, checkId);
    LatestRefinesSink(results, checkId);
  }

  lemma {:induction false} AllOfCheck(results: seq<CheckResult>, checkId: Uuid)
    requires forall i :: 0 <= i < |results| ==> results[i].checkId == checkId
    ensures OfCheck(results, checkId) == results
  {
    if results == [] {
    } else {
      AllOfCheck(results[1..], checkId);
      assert results == [results[0]] + results[1..];
    }
  }

  /** A concrete disagreement: the clock steps back between two results, and the query keeps answering the first. */
  lemma ClockStepsBack(first: CheckResult, second: CheckResult)
    requires first.durationMs < I64_LIMIT && second.durationMs < I64_LIMIT
    requires first.checkId == second.checkId && first.id != second.id && Earlier(second.checkedAt, first.checkedAt)
    ensures LatestForCheck(Rows([first, second]), first.checkId) == Success(Some(first))
    ensures LatestOf([first, second], first.checkId) == Some(second)
  {
    var results := [first, second];
    AllOfCheck(results, first.checkId);
    EarlierIsTotalOrder(second.checkedAt, first.checkedAt, first.checkedAt);
    assert results[1..] == [second] && SortBy(ResultPrecedes, [second]) == [second];
    assert SortBy(ResultPrecedes, results) == results;
    QueriesAreChronological(results, first.checkId, 1);
  }

  /** A concrete tie: of two results at the same time, the latest is the one with the larger id, in either order. */
  lemma LargerIdWins(small: CheckResult, large: CheckResult)
    requires small.durationMs < I64_LIMIT && large.durationMs < I64_LIMIT
    requires small.checkId == large.checkId && small.checkedAt == large.checkedAt && small.id < large.id
    ensures LatestForCheck(Rows([small, large]), small.checkId) == Success(Some(large))
    ensures LatestForCheck(Rows([large, small]), small.checkId) == Success(Some(large))
  {
    AllOfCheck([small, large], small.checkId);
    AllOfCheck([large, small], small.checkId);
    EarlierIsTotalOrder(small.checkedAt, small.checkedAt, small.checkedAt);
    PairSorts(small, large);
    QueriesAreChronological([small, large], small.checkId, 1);
    QueriesAreChronological([large, small], small.checkId, 1);
  }

  lemma PairSorts(small: CheckResult, large: CheckResult)
    requires ResultPrecedes(large, small) && !ResultPrecedes(small, large)
    ensures SortBy(ResultPrecedes, [small, large]) == [large, small]
    ensures SortBy(ResultPrecedes, [large, small]) == [large, small]
  {
    assert [small, large][1..] == [large] && SortBy(ResultPrecedes, [large]) == [large];
    assert [large, small][1..] == [small] && SortBy(ResultPrecedes, [small]) == [small];
  }

  lemma EarlierIsTransitive(a: Timestamp, b: Timestamp, c: Timestamp)
    requires Earlier(a, b) && Earlier(b, c)
    ensures Earlier(a, c)
  {
  }

  lemma ThirdLeads(a: CheckResult, b: CheckResult, c: CheckResult)
    requires Earlier(b.checkedAt, a.checkedAt) && Earlier(a.checkedAt, c.checkedAt)
    ensures LastLeads([a, b, c]) && !Descending(ResultPrecedes, [a, b, c])
  {
    var mine := [a, b, c];
    EarlierIsTotalOrder(b.checkedAt, a.checkedAt, a.checkedAt);
    EarlierIsTransitive(b.checkedAt, a.checkedAt, c.checkedAt);
    assert !ResultPrecedes(mine[1], mine[0]);
    assert ResultPrecedes(mine[2], mine[0]) && ResultPrecedes(mine[2], mine[1]);
  }

  /** A check's order of arrival may be broken and its latest query still right: the last result is the newest. */
  lemma EarlierDisorderIsHarmless(a: CheckResult, b: CheckResult, c: CheckResult)
    requires Storable([a, b, c]) && a.checkId == b.checkId == c.checkId
    requires a.id != b.id && b.id != c.id && a.id != c.id
    requires Earlier(b.checkedAt, a.checkedAt) && Earlier(a.checkedAt, c.checkedAt)
    ensures LatestForCheck(Rows([a, b, c]), a.checkId) == Success(LatestOf([a, b, c], a.checkId))
    ensures !Descending(ResultPrecedes, OfCheck([a, b, c], a.checkId))
  {
    var results := [a, b, c];
    AllOfCheck(results, a.checkId);
    ThirdLeads(a, b, c);
    LatestRefinesSink(results, a.checkId);
  }
}
