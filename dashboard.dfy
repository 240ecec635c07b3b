/**
 * The dashboard of apps/worker/src/index.ts: the per-analyst aggregation
 * the SQL query computes (as a reference definition over the stored rows
 * the WHERE clause selects), the ranking of its result, the home-office
 * status of each analyst, and the KPI counts.
 */
module Dashboard {
  import opened Text
  import opened Scoring
  import opened Ho
  import opened Worker

  // ---------------------------------------------------------- error counting

  /** SQLite's `upper`: only the ASCII letters change. */
  function SqlUpperChar(c: char): char {
    if 'a' <= c <= 'z' then (c as int - 32) as char else c
  }

  function SqlUpper(s: string): string {
    MapChars(SqlUpperChar, s)
  }

  /**
   * `upper(status) LIKE '%NAO%' AND upper(status) LIKE '%CONFERE%'` as the
   * query writes it: a null status never counts, and neither `upper` nor
   * `LIKE` folds anything beyond ASCII, so accents stay where they are.
   */
  predicate SqlIsError(status: Option<string>) {
    status.Some? && Contains(SqlUpper(status.value), "NAO") && Contains(SqlUpper(status.value), "CONFERE")
  }

  /** The stored score is the one the scoring rules give the stored status and severity. */
  predicate Scored(r: StoredRow) {
    r.pontos == PointsFor(r.status, r.severidade)
  }

  /** Every row an import writes is scored from what it stores. */
  lemma ImportScored(body: ImportBody, importedAt: string, uid: nat -> string)
    ensures forall i :: 0 <= i < |Import(body, importedAt, uid).stored| ==> Scored(Import(body, importedAt, uid).stored[i])
  {
    var out := Import(body, importedAt, uid);
    forall i | 0 <= i < |out.stored| ensures Scored(out.stored[i]) {
      NormBeforeScoring(body.rows.value[i].status, body.rows.value[i].severidade);
    }
  }

  // ------------------------------------------------------------- grouping

  /** The distinct `operador` values (null included), in order of first appearance. */
  function Keys(rows: seq<StoredRow>): seq<Option<string>> {
    if rows == [] then []
    else
      var ks := Keys(rows[..|rows| - 1]);
      if rows[|rows| - 1].operador in ks then ks else ks + [rows[|rows| - 1].operador]
  }

  predicate Distinct<T(==)>(s: seq<T>) {
    forall i, j :: 0 <= i < j < |s| ==> s[i] != s[j]
  }

  /** `COUNT(*)` of the group of `key`. */
  function CountKey(rows: seq<StoredRow>, key: Option<string>): nat {
    if rows == [] then 0
    else CountKey(rows[..|rows| - 1], key) + (if rows[|rows| - 1].operador == key then 1 else 0)
  }

  /** `SUM(pontos)` of the group of `key`. */
  function PointsKey(rows: seq<StoredRow>, key: Option<string>): int {
    if rows == [] then 0
    else PointsKey(rows[..|rows| - 1], key) + (if rows[|rows| - 1].operador == key then rows[|rows| - 1].pontos else 0)
  }

  /** How many rows of the group of `key` the error test counts. */
  function ErrorsKey(rows: seq<StoredRow>, key: Option<string>, isError: Option<string> -> bool): nat {
    if rows == [] then 0
    else ErrorsKey(rows[..|rows| - 1], key, isError) + (if rows[|rows| - 1].operador == key && isError(rows[|rows| - 1].status) then 1 else 0)
  }

  /** How many rows of the group of `key` scored below 100. */
  function BelowKey(rows: seq<StoredRow>, key: Option<string>): nat {
    if rows == [] then 0
    else BelowKey(rows[..|rows| - 1], key) + (if rows[|rows| - 1].operador == key && rows[|rows| - 1].pontos < 100 then 1 else 0)
  }

  lemma {:induction false} KeysDistinct(rows: seq<StoredRow>)
    ensures Distinct(Keys(rows))
  {
    if rows != [] {
      KeysDistinct(rows[..|rows| - 1]);
    }
  }

  /** The groups are exactly the `operador` values that occur. */
  lemma {:induction false} KeysOccur(rows: seq<StoredRow>, key: Option<string>)
    ensures key in Keys(rows) <==> CountKey(rows, key) > 0
  {
    if rows != [] {
      KeysOccur(rows[..|rows| - 1], key);
    }
  }

  /** The sum of `CountKey` over a list of keys. */
  function SumCounts(ks: seq<Option<string>>, rows: seq<StoredRow>): nat {
    if ks == [] then 0 else SumCounts(ks[..|ks| - 1], rows) + CountKey(rows, ks[|ks| - 1])
  }

  /** How often `key` occurs in `ks`. */
  function Occurrences(ks: seq<Option<string>>, key: Option<string>): nat {
    if ks == [] then 0 else Occurrences(ks[..|ks| - 1], key) + (if ks[|ks| - 1] == key then 1 else 0)
  }

  lemma {:induction false} SumCountsSnoc(ks: seq<Option<string>>, p: seq<StoredRow>, r: StoredRow)
    ensures SumCounts(ks, p + [r]) == SumCounts(ks, p) + Occurrences(ks, r.operador)
  {
    assert (p + [r])[..|p|] == p;
    if ks != [] {
      SumCountsSnoc(ks[..|ks| - 1], p, r);
    }
  }

  lemma {:induction false} OccurrencesDistinct(ks: seq<Option<string>>, key: Option<string>)
    requires Distinct(ks)
    ensures Occurrences(ks, key) == if key in ks then 1 else 0
  {
    if ks != [] {
      var p := ks[..|ks| - 1];
      assert Distinct(p);
      OccurrencesDistinct(p, key);
      assert key in ks <==> key in p || ks[|ks| - 1] == key;
      if ks[|ks| - 1] == key {
        assert key !in p;
      }
    }
  }

  /** Every stored row falls in exactly one group: the group counts add up to the row count. */
  lemma {:induction false} GroupsCoverRows(rows: seq<StoredRow>)
    ensures SumCounts(Keys(rows), rows) == |rows|
  {
    if rows != [] {
      var n := |rows| - 1;
      var p, r := rows[..n], rows[n];
      assert rows == p + [r];
      var ks := Keys(p);
      GroupsCoverRows(p);
      KeysDistinct(p);
      SumCountsSnoc(ks, p, r);
      OccurrencesDistinct(ks, r.operador);
      if r.operador !in ks {
        assert Keys(rows) == ks + [r.operador];
        assert (ks + [r.operador])[..|ks|] == ks;
        KeysOccur(p, r.operador);
      }
    }
  }

  /** The corrected error count counts no row that kept its 100 points. */
  lemma {:induction false} ErrorsLostPoints(rows: seq<StoredRow>, key: Option<string>)
    requires forall i :: 0 <= i < |rows| ==> Scored(rows[i])
    ensures ErrorsKey(rows, key, IsError) <= BelowKey(rows, key)
  {
    if rows != [] {
      ErrorsLostPoints(rows[..|rows| - 1], key);
    }
  }

  /** The rows with every status replaced by its accent-stripped text. */
  function StripStatuses(rows: seq<StoredRow>): (out: seq<StoredRow>)
    ensures |out| == |rows|
    ensures forall i :: 0 <= i < |rows| ==> out[i].operador == rows[i].operador
    ensures forall i :: 0 <= i < |rows| ==> out[i].status == if rows[i].status.Some? then Some(StripAccents(rows[i].status.value)) else None
  {
    seq(|rows|, i requires 0 <= i < |rows| =>
      rows[i].(status := if rows[i].status.Some? then Some(StripAccents(rows[i].status.value)) else None))
  }

  /** The corrected error count does not see accents: "NÃO CONFERE" counts like "NAO CONFERE". */
  lemma {:induction false} ErrorsIgnoreAccents(rows: seq<StoredRow>, key: Option<string>)
    ensures ErrorsKey(StripStatuses(rows), key, IsError) == ErrorsKey(rows, key, IsError)
  {
    if rows != [] {
      var n := |rows| - 1;
      var p := rows[..n];
      var q := StripStatuses(rows);
      assert q[..n] == StripStatuses(p);
      ErrorsIgnoreAccents(p, key);
      if rows[n].status.Some? {
        AccentsIgnored(rows[n].status.value, None);
      }
    }
  }

  /** An error test that only ever flags what another flags never counts more errors. */
  lemma {:induction false} ErrorsKeyMono(rows: seq<StoredRow>, key: Option<string>, e1: Option<string> -> bool, e2: Option<string> -> bool)
    requires forall v :: e1(v) ==> e2(v)
    ensures ErrorsKey(rows, key, e1) <= ErrorsKey(rows, key, e2)
  {
    if rows != [] {
      ErrorsKeyMono(rows[..|rows| - 1], key, e1, e2);
    }
  }

  /** An upper-case ASCII word: no white space, no mark, no accent. */
  predicate AsciiWord(p: string) {
    p != [] && forall k :: 0 <= k < |p| ==> 'A' <= p[k] <= 'Z'
  }

  lemma SqlUpperAround(l: string, x: string, t: string)
    ensures SqlUpper(l + x + t) == SqlUpper(l) + SqlUpper(x) + SqlUpper(t)
    ensures AllSpace(l) ==> AllSpace(SqlUpper(l))
    ensures AllSpace(t) ==> AllSpace(SqlUpper(t))
  {
    MapAppend(SqlUpperChar, l + x, t);
    MapAppend(SqlUpperChar, l, x);
  }

  /** Where SQLite's `upper` shows an ASCII word, the full upper-casing shows it too. */
  lemma SqlWordUpper(x: string, p: string)
    requires AsciiWord(p) && Contains(SqlUpper(x), p)
    ensures Contains(UpperStr(x), p)
  {
    var sq := SqlUpper(x);
    var up := UpperStr(x);
    ContainsAt(sq, p);
    var i :| OccursAt(sq, p, i);
    assert up[i..i + |p|] == p by {
      forall k | 0 <= k < |p| ensures up[i..i + |p|][k] == p[k] {
        assert sq[i..i + |p|][k] == sq[i + k];
      }
    }
    assert OccursAt(up, p, i);
    ContainsAt(up, p);
  }

  /** Stripping accents keeps an ASCII word in the middle of a text. */
  lemma StripMiddle(a: string, p: string, b: string)
    requires AsciiWord(p)
    ensures StripAccents(a + p + b) == StripAccents(a) + p + StripAccents(b)
  {
    assert a + p + b == a + (p + b);
    StripAppend(a, p + b);
    StripAppend(p, b);
    forall k | 0 <= k < |p| ensures IsPlain(p[k]) {
      BaseAscii(p[k]);
    }
    StripPlain(p);
  }

  lemma ContainsMiddle(a: string, p: string, b: string)
    ensures Contains(a + p + b, p)
  {
    var s := a + p + b;
    assert s[|a|..|a| + |p|] == p;
    assert OccursAt(s, p, |a|);
    ContainsAt(s, p);
  }

  /** Stripping accents keeps every occurrence of an ASCII word. */
  lemma StripKeepsWord(u: string, p: string)
    requires AsciiWord(p) && Contains(u, p)
    ensures Contains(StripAccents(u), p)
  {
    ContainsAt(u, p);
    var i :| OccursAt(u, p, i);
    var a, b := u[..i], u[i + |p|..];
    assert u == a + p + b;
    StripMiddle(a, p, b);
    ContainsMiddle(StripAccents(a), p, StripAccents(b));
  }

  /** An ASCII word the SQL test finds is also in the text `norm` gives the scoring rules. */
  lemma SqlWordNorm(v: string, p: string)
    requires AsciiWord(p) && Contains(SqlUpper(v), p)
    ensures Contains(Norm(v), p)
  {
    var l, t := TrimSplit(v);
    var x := Trim(v);
    SqlUpperAround(l, x, t);
    assert NoSpace(p) by {
      forall k | 0 <= k < |p| ensures !IsSpace(p[k]) { }
    }
    ContainsPadded(SqlUpper(l), SqlUpper(x), SqlUpper(t), p);
    SqlWordUpper(x, p);
    StripKeepsWord(UpperStr(x), p);
  }

  /** Every status the query as written counts as an error, `isError` counts too. */
  lemma SqlErrorIsError(status: Option<string>)
    ensures SqlIsError(status) ==> IsError(status)
  {
    if SqlIsError(status) {
      var v := status.value;
      assert AsciiWord("NAO") && AsciiWord("CONFERE");
      SqlWordNorm(v, "NAO");
      SqlWordNorm(v, "CONFERE");
    }
  }

  /**
   * The query's error column never exceeds the count `isError` gives; the
   * accented row of `DashboardExamples` shows it can fall short.
   */
  lemma SqlErrorsAtMost(rows: seq<StoredRow>, key: Option<string>)
    ensures ErrorsKey(rows, key, SqlIsError) <= ErrorsKey(rows, key, IsError)
  {
    forall v ensures SqlIsError(v) ==> IsError(v) {
      SqlErrorIsError(v);
    }
    ErrorsKeyMono(rows, key, SqlIsError, IsError);
  }

  // ----------------------------------------------------------- query result

  /** One row of the grouped query: `operador`, `total`, `avg_quality`, `errors`. */
  datatype QueryRow = QueryRow(operador: string, total: nat, avgQuality: real, errors: nat)

  /** The result row of the group of `key`, errors counted by `isError`. */
  function GroupRow(rows: seq<StoredRow>, key: Option<string>, isError: Option<string> -> bool): QueryRow {
    var n := CountKey(rows, key);
    QueryRow(key.GetOr("(Sem operador)"), n,
      if n == 0 then 0.0 else (PointsKey(rows, key) as real / n as real) / 100.0,
      ErrorsKey(rows, key, isError))
  }

  /** `GROUP BY operador`, one result row per group in order of first appearance. */
  function Grouped(rows: seq<StoredRow>, isError: Option<string> -> bool): (g: seq<QueryRow>)
    ensures |g| == |Keys(rows)|
    ensures forall i :: 0 <= i < |g| ==> g[i] == GroupRow(rows, Keys(rows)[i], isError)
  {
    var ks := Keys(rows);
    seq(|ks|, i requires 0 <= i < |ks| => GroupRow(rows, ks[i], isError))
  }

  /** `a` may come before `b` under `ORDER BY total DESC, avg_quality DESC`. */
  predicate Before(a: QueryRow, b: QueryRow) {
    a.total > b.total || (a.total == b.total && a.avgQuality >= b.avgQuality)
  }

  predicate Ordered(rs: seq<QueryRow>) {
    forall i, j :: 0 <= i < j < |rs| ==> Before(rs[i], rs[j])
  }

  function SumTotals(rs: seq<QueryRow>): nat {
    if rs == [] then 0 else rs[0].total + SumTotals(rs[1..])
  }

  lemma InsertFront(x: QueryRow, rs: seq<QueryRow>)
    requires Ordered(rs) && (rs == [] || Before(x, rs[0]))
    ensures Ordered([x] + rs)
  {
  }

  lemma InsertBehind(x: QueryRow, rs: seq<QueryRow>, rest: seq<QueryRow>)
    requires Ordered(rs) && rs != [] && !Before(x, rs[0])
    requires Ordered(rest) && multiset(rest) == multiset(rs[1..]) + multiset{x}
    ensures Ordered([rs[0]] + rest) && multiset([rs[0]] + rest) == multiset(rs) + multiset{x}
  {
    assert rs == [rs[0]] + rs[1..];
    forall y | y in multiset(rest) ensures Before(rs[0], y) {
      assert y in multiset(rs[1..]) || y == x;
    }
    assert forall k :: 0 <= k < |rest| ==> rest[k] in multiset(rest);
    assert ([rs[0]] + rest)[1..] == rest;
  }

  function Insert(x: QueryRow, rs: seq<QueryRow>): (out: seq<QueryRow>)
    requires Ordered(rs)
    ensures Ordered(out) && multiset(out) == multiset(rs) + multiset{x}
    ensures SumTotals(out) == x.total + SumTotals(rs)
  {
    if rs == [] || Before(x, rs[0]) then
      InsertFront(x, rs);
      [x] + rs
    else
      var rest := Insert(x, rs[1..]);
      InsertBehind(x, rs, rest);
      [rs[0]] + rest
  }

  /** The query's `ORDER BY`: one ordering of the groups (rows that tie may come in any order). */
  function Sort(rs: seq<QueryRow>): (out: seq<QueryRow>)
    ensures Ordered(out) && multiset(out) == multiset(rs)
    ensures SumTotals(out) == SumTotals(rs)
  {
    if rs == [] then [] else
      assert rs == [rs[0]] + rs[1..];
      Insert(rs[0], Sort(rs[1..]))
  }

  /** The grouped and ordered result of the dashboard query, errors counted by `isError`. */
  function QueryResult(rows: seq<StoredRow>, isError: Option<string> -> bool): (rs: seq<QueryRow>)
    ensures Ordered(rs) && multiset(rs) == multiset(Grouped(rows, isError))
  {
    Sort(Grouped(rows, isError))
  }

  lemma {:induction false} SumTotalsSnoc(rs: seq<QueryRow>, x: QueryRow)
    ensures SumTotals(rs + [x]) == SumTotals(rs) + x.total
  {
    if rs != [] {
      assert (rs + [x])[1..] == rs[1..] + [x];
      SumTotalsSnoc(rs[1..], x);
    }
  }

  lemma {:induction false} GroupedTotals(rows: seq<StoredRow>, ks: seq<Option<string>>, isError: Option<string> -> bool)
    ensures SumTotals(seq(|ks|, i requires 0 <= i < |ks| => GroupRow(rows, ks[i], isError))) == SumCounts(ks, rows)
  {
    if ks != [] {
      var n := |ks| - 1;
      var p := ks[..n];
      GroupedTotals(rows, p, isError);
      var g := seq(|ks|, i requires 0 <= i < |ks| => GroupRow(rows, ks[i], isError));
      assert g == seq(|p|, i requires 0 <= i < |p| => GroupRow(rows, p[i], isError)) + [GroupRow(rows, ks[n], isError)];
      SumTotalsSnoc(seq(|p|, i requires 0 <= i < |p| => GroupRow(rows, p[i], isError)), GroupRow(rows, ks[n], isError));
    }
  }

  /** The analysts' totals add up to the number of rows the filters select. */
  lemma ResultCoversRows(rows: seq<StoredRow>, isError: Option<string> -> bool)
    ensures SumTotals(QueryResult(rows, isError)) == |rows|
  {
    GroupedTotals(rows, Keys(rows), isError);
    GroupsCoverRows(rows);
  }

  /** The first analyst of the ranking has the most rows. */
  lemma FirstHasMost(rs: seq<QueryRow>)
    requires Ordered(rs) && rs != []
    ensures forall i :: 0 <= i < |rs| ==> rs[0].total >= rs[i].total
  {
    forall i | 0 < i < |rs| ensures rs[0].total >= rs[i].total {
      assert Before(rs[0], rs[i]);
    }
  }

  // --------------------------------------------------------------- analysts

  /** `AnalystRow`. */
  datatype AnalystRow = AnalystRow(operador: string, total: nat, avgQuality: real, errors: nat, prodRank: nat, hoStatus: HoStatus)

  /** `(rows.results || []).map((r, idx) => ...)`. */
  function Analysts(rs: seq<QueryRow>): (a: seq<AnalystRow>)
    ensures |a| == |rs|
    ensures forall i :: 0 <= i < |rs| ==>
      && a[i].prodRank == i + 1
      && a[i].hoStatus == HoStatusOf(rs[i].avgQuality, i + 1)
      && a[i] == AnalystRow(rs[i].operador, rs[i].total, rs[i].avgQuality, rs[i].errors, i + 1, a[i].hoStatus)
  {
    seq(|rs|, i requires 0 <= i < |rs| =>
      AnalystRow(rs[i].operador, rs[i].total, rs[i].avgQuality, rs[i].errors, i + 1, HoStatusOf(rs[i].avgQuality, i + 1)))
  }

  /** The ranks are 1, 2, ..., n: no two analysts share one. */
  lemma RanksDistinct(rs: seq<QueryRow>)
    ensures forall i, j :: 0 <= i < j < |rs| ==> Analysts(rs)[i].prodRank < Analysts(rs)[j].prodRank
    ensures forall i :: 0 <= i < |rs| ==> 1 <= Analysts(rs)[i].prodRank <= |rs|
  {
  }

  /** A better rank never has fewer rows, since the ranking follows the query order. */
  lemma RankFollowsTotal(rs: seq<QueryRow>)
    requires Ordered(rs)
    ensures forall i, j :: 0 <= i < j < |rs| ==> Analysts(rs)[i].total >= Analysts(rs)[j].total
  {
    forall i, j | 0 <= i < j < |rs| ensures Analysts(rs)[i].total >= Analysts(rs)[j].total {
      assert Before(rs[i], rs[j]);
    }
  }

  /** `analysts.filter(a => a.hoStatus === s).length`. */
  function CountStatus(a: seq<AnalystRow>, s: HoStatus): nat {
    if a == [] then 0 else CountStatus(a[..|a| - 1], s) + (if a[|a| - 1].hoStatus == s then 1 else 0)
  }

  lemma {:induction false} CountStatusAtMost(a: seq<AnalystRow>, s: HoStatus)
    ensures CountStatus(a, s) <= |a|
  {
    if a != [] {
      CountStatusAtMost(a[..|a| - 1], s);
    }
  }

  /** Every analyst has exactly one of the three statuses. */
  lemma {:induction false} StatusesPartition(a: seq<AnalystRow>)
    ensures CountStatus(a, HO) + CountStatus(a, ALERTA) + CountStatus(a, PRESENCIAL) == |a|
  {
    if a != [] {
      StatusesPartition(a[..|a| - 1]);
    }
  }

  /** Only the first 25 positions can be HO, so at most 25 analysts are. */
  lemma {:induction false} AtMost25(a: seq<AnalystRow>)
    requires forall i :: 0 <= i < |a| && a[i].hoStatus == HO ==> i < 25
    ensures CountStatus(a, HO) <= 25
  {
    if |a| <= 25 {
      CountStatusAtMost(a, HO);
    } else {
      var p := a[..|a| - 1];
      assert forall i :: 0 <= i < |p| ==> p[i] == a[i];
      AtMost25(p);
    }
  }

  /** The dashboard KPIs. */
  datatype Kpis = Kpis(totalAnalyses: nat, avgQuality: real, hoOk: nat, hoPresencial: nat)

  function SumPoints(rows: seq<StoredRow>): int {
    if rows == [] then 0 else SumPoints(rows[..|rows| - 1]) + rows[|rows| - 1].pontos
  }

  /** `AVG(pontos)/100.0`, or 0 when no row is selected. */
  function AverageQuality(rows: seq<StoredRow>): real {
    if rows == [] then 0.0 else (SumPoints(rows) as real / |rows| as real) / 100.0
  }

  /**
   * The KPIs for the selected rows and the grouped query result:
   * `COUNT(*)`, `AVG(pontos)/100.0` (0 when nothing is selected), and the
   * HO and PRESENCIAL counts.
   */
  function KpisOf(rows: seq<StoredRow>, rs: seq<QueryRow>): (k: Kpis)
    ensures k.totalAnalyses == |rows|
    ensures k.avgQuality == AverageQuality(rows)
    ensures k.hoOk == CountStatus(Analysts(rs), HO)
    ensures k.hoPresencial == CountStatus(Analysts(rs), PRESENCIAL)
    ensures k.hoOk + k.hoPresencial <= |rs|
    ensures k.hoOk <= 25
  {
    var a := Analysts(rs);
    StatusesPartition(a);
    AtMost25(a);
    Kpis(|rows|, AverageQuality(rows), CountStatus(a, HO), CountStatus(a, PRESENCIAL))
  }

  /** The positions of `a` holding status `s`. */
  ghost function Positions(a: seq<AnalystRow>, s: HoStatus): set<int> {
    set i | 0 <= i < |a| && a[i].hoStatus == s
  }

  lemma PositionsStep(a: seq<AnalystRow>, s: HoStatus)
    requires a != []
    ensures Positions(a, s) == Positions(a[..|a| - 1], s) + (if a[|a| - 1].hoStatus == s then {|a| - 1} else {})
    ensures |a| - 1 !in Positions(a[..|a| - 1], s)
  {
    var p := a[..|a| - 1];
    forall i | 0 <= i < |p| ensures p[i] == a[i] { }
  }

  /** `CountStatus` counts the positions holding that status. */
  lemma {:induction false} CountStatusPositions(a: seq<AnalystRow>, s: HoStatus)
    ensures CountStatus(a, s) == |Positions(a, s)|
  {
    if a != [] {
      CountStatusPositions(a[..|a| - 1], s);
      PositionsStep(a, s);
    }
  }

  /**
   * `hoOk` counts the analysts in the first 25 places whose average quality
   * is at least 0.90; `hoPresencial` those below 0.88, or at least 0.90
   * beyond place 25.
   */
  lemma KpisCountPlaces(rows: seq<StoredRow>, rs: seq<QueryRow>)
    ensures KpisOf(rows, rs).hoOk == |set i | 0 <= i < |rs| && i < 25 && rs[i].avgQuality >= 0.90|
    ensures KpisOf(rows, rs).hoPresencial ==
      |set i | 0 <= i < |rs| && (rs[i].avgQuality < 0.88 || (rs[i].avgQuality >= 0.90 && i >= 25))|
  {
    var a := Analysts(rs);
    CountStatusPositions(a, HO);
    CountStatusPositions(a, PRESENCIAL);
    assert Positions(a, HO) == (set i | 0 <= i < |rs| && i < 25 && rs[i].avgQuality >= 0.90);
    assert Positions(a, PRESENCIAL)
      == (set i | 0 <= i < |rs| && (rs[i].avgQuality < 0.88 || (rs[i].avgQuality >= 0.90 && i >= 25)));
  }

  lemma {:induction false} SumPointsBounds(rows: seq<StoredRow>)
    requires forall i :: 0 <= i < |rows| ==> 80 <= rows[i].pontos <= 100
    ensures 80 * |rows| <= SumPoints(rows) <= 100 * |rows|
  {
    if rows != [] {
      SumPointsBounds(rows[..|rows| - 1]);
    }
  }

  lemma RatioBounds(s: real, n: real, lo: real, hi: real)
    requires n > 0.0 && lo * n <= s <= hi * n
    ensures lo <= s / n <= hi
  {
    var q := s / n;
    assert q * n == s;
    assert (q - lo) * n >= 0.0;
    assert (hi - q) * n >= 0.0;
  }

  /** With every score in 80..100, the average quality lies between 0.80 and 1.00. */
  lemma AverageBounds(rows: seq<StoredRow>)
    requires rows != [] && forall i :: 0 <= i < |rows| ==> 80 <= rows[i].pontos <= 100
    ensures 0.80 <= AverageQuality(rows) <= 1.00
  {
    SumPointsBounds(rows);
    RatioBounds(SumPoints(rows) as real, |rows| as real, 80.0, 100.0);
  }
}
