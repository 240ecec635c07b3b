/**
 * The request handlers of apps/worker/src/index.ts, without the HTTP
 * framework and the database: what an import stores and replies, how the
 * rows endpoint reads its paging parameters, and how a snapshot checks its
 * name and forwards its filters to the dashboard query.  The clock, the
 * id generator and the number conversion are parameters.
 */
module Worker {
  import opened Text
  import opened Rows
  import opened Scoring
  import opened Db
  import opened Query

  // ------------------------------------------------------------------ import

  /** The JSON body of `POST /api/import`; `None` is a missing member. */
  datatype ImportBody = ImportBody(importLabel: Option<string>, rows: Option<seq<NormalizedRow>>)

  /** One `qa_rows` record, as the import binds it. */
  datatype StoredRow = StoredRow(
    id: string,
    importedAt: string,
    importLabel: string,
    data: Option<string>,
    adesao: Option<string>,
    operador: Option<string>,
    grupo: Option<string>,
    status: Option<string>,
    manifesto: Option<string>,
    severidade: Option<string>,
    pontos: int)

  datatype ImportReply =
    | Rejected(code: int, text: string)
    | Imported(importedAt: string, importLabel: string, inserted: nat)

  /** The reply of an import together with the records it writes. */
  datatype ImportOutcome = ImportOutcome(reply: ImportReply, stored: seq<StoredRow>)

  /** `body.importLabel || \`Import ${importedAt}\``. */
  function LabelFor(given: Option<string>, importedAt: string): string {
    if Truthy(given) then given.value else "Import " + importedAt
  }

  /** The insert statement of one row (the `body.rows.map` callback). */
  function StoreRow(r: NormalizedRow, id: string, importedAt: string, importLabel: string): StoredRow {
    var status := Clean(r.status);
    var sev := Clean(r.severidade);
    StoredRow(id, importedAt, importLabel, Clean(r.data), Clean(r.adesao), Clean(r.operador), Clean(r.group),
      status, Clean(r.manifesto), sev, PointsFor(status, sev))
  }

  /**
   * `POST /api/import` at time `importedAt`, with `uid(i)` the id drawn for
   * the `i`-th row.
   */
  function Import(body: ImportBody, importedAt: string, uid: nat -> string): (out: ImportOutcome)
    ensures out.reply.Rejected? <==> body.rows.None? || body.rows.value == []
    ensures out.reply.Rejected? ==> out.reply == Rejected(400, "Sem linhas para importar") && out.stored == []
    ensures out.reply.Imported? ==>
      && out.reply.inserted == |body.rows.value| == |out.stored|
      && out.reply.importedAt == importedAt
      && out.reply.importLabel == LabelFor(body.importLabel, importedAt)
    ensures out.reply.Imported? ==> forall i :: 0 <= i < |out.stored| ==>
      && out.stored[i].id == uid(i)
      && out.stored[i].importedAt == importedAt
      && out.stored[i].importLabel == out.reply.importLabel
      && out.stored[i].data == Clean(body.rows.value[i].data)
      && out.stored[i].adesao == Clean(body.rows.value[i].adesao)
      && out.stored[i].operador == Clean(body.rows.value[i].operador)
      && out.stored[i].grupo == Clean(body.rows.value[i].group)
      && out.stored[i].status == Clean(body.rows.value[i].status)
      && out.stored[i].manifesto == Clean(body.rows.value[i].manifesto)
      && out.stored[i].severidade == Clean(body.rows.value[i].severidade)
      && out.stored[i].pontos == PointsFor(body.rows.value[i].status, body.rows.value[i].severidade)
      && out.stored[i].pontos in {80, 90, 95, 98, 100}
  {
    if body.rows.None? || |body.rows.value| == 0 then
      ImportOutcome(Rejected(400, "Sem linhas para importar"), [])
    else
      var rows := body.rows.value;
      var importLabel := LabelFor(body.importLabel, importedAt);
      var stored := seq(|rows|, i requires 0 <= i < |rows| => StoreRow(rows[i], uid(i), importedAt, importLabel));
      assert forall i :: 0 <= i < |rows| ==>
        stored[i].pontos == PointsFor(rows[i].status, rows[i].severidade) by {
        forall i | 0 <= i < |rows| ensures stored[i].pontos == PointsFor(rows[i].status, rows[i].severidade) {
          assert stored[i] == StoreRow(rows[i], uid(i), importedAt, importLabel);
          NormBeforeScoring(rows[i].status, rows[i].severidade);
        }
      }
      ImportOutcome(Imported(importedAt, importLabel, |rows|), stored)
  }

  /** The label of an import: the one given when it is truthy, else one made from the time. */
  lemma LabelDefault(given: Option<string>, importedAt: string)
    ensures Truthy(given) ==> LabelFor(given, importedAt) == given.value
    ensures !Truthy(given) ==> LabelFor(given, importedAt) == "Import " + importedAt
    ensures LabelFor(given, importedAt) != ""
  {
  }

  /**
   * Cleaning a value before the scoring rules read it changes nothing:
   * the rules already trim, and treat a missing value like an empty one.
   */
  lemma NormalizedClean(v: Option<string>)
    ensures Normalized(Clean(v)) == Normalized(v)
  {
    if v.Some? {
      if Trim(v.value) == "" {
        assert UpperStr("") == "" && StripAccents("") == "";
      } else {
        TrimIdempotent(v.value);
      }
    }
  }

  /** Scoring the cleaned status and severity gives the score of the raw ones. */
  lemma NormBeforeScoring(status: Option<string>, sev: Option<string>)
    ensures PointsFor(Clean(status), Clean(sev)) == PointsFor(status, sev)
    ensures IsError(Clean(status)) == IsError(status)
  {
    NormalizedClean(status);
    NormalizedClean(sev);
  }

  // ------------------------------------------------------------------ paging

  function Min(a: real, b: real): real {
    if a <= b then a else b
  }

  function Max(a: real, b: real): real {
    if a >= b then a else b
  }

  /** `Math.min(Number(q.limit || 50), 200)`, with `toNumber` standing for `Number`. */
  function RowsLimitAsWritten(limit: Option<string>, toNumber: string -> real): (l: real)
    ensures l <= 200.0
    ensures !Truthy(limit) ==> l == 50.0
  {
    Min(if Truthy(limit) then toNumber(limit.value) else 50.0, 200.0)
  }

  /** A negative limit passes the cap, and a negative `LIMIT` puts no bound on the rows returned. */
  lemma NegativeLimitPassesCap(v: string, toNumber: string -> real)
    requires v != "" && toNumber(v) < 0.0
    ensures RowsLimitAsWritten(Some(v), toNumber) < 0.0
  {
  }

  /** The page size clamped to `0..200`: at most 200 rows, whatever the client asks. */
  function RowsLimit(limit: Option<string>, toNumber: string -> real): (l: real)
    ensures 0.0 <= l <= 200.0
    ensures !Truthy(limit) ==> l == 50.0
    ensures Truthy(limit) && 0.0 <= toNumber(limit.value) <= 200.0 ==> l == toNumber(limit.value)
    ensures l == Max(RowsLimitAsWritten(limit, toNumber), 0.0)
  {
    Max(Min(if Truthy(limit) then toNumber(limit.value) else 50.0, 200.0), 0.0)
  }

  /** `Math.max(Number(q.offset || 0), 0)`. */
  function RowsOffset(offset: Option<string>, toNumber: string -> real): (o: real)
    ensures o >= 0.0
    ensures !Truthy(offset) ==> o == 0.0
    ensures Truthy(offset) && toNumber(offset.value) >= 0.0 ==> o == toNumber(offset.value)
  {
    Max(if Truthy(offset) then toNumber(offset.value) else 0.0, 0.0)
  }

  // ---------------------------------------------------------------- snapshots

  /** `(body?.name || '').trim()`, refused with 400 when it comes out empty. */
  function SnapshotName(name: Option<string>): (r: Result<string>)
    ensures r.Err? <==> Trim(name.GetOr("")) == ""
    ensures r.Err? ==> r.error == "Nome do snapshot é obrigatório"
    ensures r.Ok? ==> r.value != "" && IsTrimmed(r.value) && r.value == Trim(name.value)
  {
    var n := Trim(if Truthy(name) then name.value else "");
    TrimTrimmed(if Truthy(name) then name.value else "");
    if n == "" then Err("Nome do snapshot é obrigatório") else Ok(n)
  }

  /** White space around a snapshot name is dropped: both spellings are the same name. */
  lemma SnapshotNamePadded(w1: string, s: string, w2: string)
    requires AllSpace(w1) && AllSpace(w2)
    ensures SnapshotName(Some(w1 + s + w2)) == SnapshotName(Some(s))
  {
    TrimPadded(w1, s, w2);
    assert Trim("") == "";
  }

  /** `Object.entries(body.filters || {})`: names with values that may be null. */
  type Entries = seq<(string, Option<string>)>

  /** The search parameters once every truthy entry has been `set`, in order. */
  function Forwarded(ps: Pairs, es: Entries): Pairs {
    if es == [] then ps
    else
      var e := es[|es| - 1];
      var before := Forwarded(ps, es[..|es| - 1]);
      if Truthy(e.1) then SetPair(before, e.0, e.1.value) else before
  }

  /** The value of the last truthy entry named `k`. */
  function LastTruthy(es: Entries, k: string): Option<string> {
    if es == [] then None
    else if es[|es| - 1].0 == k && Truthy(es[|es| - 1].1) then es[|es| - 1].1
    else LastTruthy(es[..|es| - 1], k)
  }

  /**
   * After forwarding, a name reads the last truthy value given for it, and
   * a name with no truthy value reads what the request already had.
   */
  lemma {:induction false} ForwardedGet(ps: Pairs, es: Entries, k: string)
    ensures Get(Forwarded(ps, es), k) == if LastTruthy(es, k).Some? then LastTruthy(es, k) else Get(ps, k)
  {
    if es != [] {
      var e := es[|es| - 1];
      var before := Forwarded(ps, es[..|es| - 1]);
      ForwardedGet(ps, es[..|es| - 1], k);
      if Truthy(e.1) {
        if e.0 == k {
          SetGet(before, k, e.1.value);
        } else {
          SetOther(before, e.0, e.1.value, k);
        }
      }
    }
  }

  /** The loop of the snapshot handler that copies the truthy filters into `url.searchParams`. */
  method ForwardFilters(params: SearchParams, entries: Entries)
    modifies params
    ensures params.pairs == Forwarded(old(params.pairs), entries)
  {
    for i := 0 to |entries|
      invariant params.pairs == Forwarded(old(params.pairs), entries[..i])
    {
      var k, v := entries[i].0, entries[i].1;
      if v.Some? && v.value != "" {
        params.Set(k, v.value);
      }
      assert entries[..i + 1][..i] == entries[..i];
    }
    assert entries[..|entries|] == entries;
  }

  /** The query parameter that carries each filter. */
  function ParamName(k: Field): string {
    match k
    case DateFrom => "dateFrom"
    case DateTo => "dateTo"
    case Adesao => "adesao"
    case Operador => "operador"
    case Group => "group"
    case Severidade => "severidade"
    case MinPoints => "minPoints"
    case MaxPoints => "maxPoints"
  }

  /** Different filters travel under different names. */
  lemma ParamNamesDiffer(a: Field, b: Field)
    requires a != b
    ensures ParamName(a) != ParamName(b)
  {
    var x, y := ParamName(a), ParamName(b);
    assert |x| != |y| || x[0] != y[0] || x[1] != y[1];
  }

  /** `Object.entries(filters)` of a full filter object, in declaration order. */
  function FilterEntries(f: Filters): (es: Entries)
    ensures |es| == FieldCount
    ensures forall i :: 0 <= i < FieldCount ==> es[i] == (ParamName(FieldAt(i)), Value(f, FieldAt(i)))
  {
    seq(FieldCount, i requires 0 <= i < FieldCount => (ParamName(FieldAt(i)), Value(f, FieldAt(i))))
  }

  /** The filters the dashboard handler reads from its query (`q.dateFrom`, ...). */
  function QueryFilters(ps: Pairs): (f: Filters)
    ensures forall k :: Value(f, k) == Get(ps, ParamName(k))
  {
    Filters(Get(ps, "dateFrom"), Get(ps, "dateTo"), Get(ps, "adesao"), Get(ps, "operador"),
      Get(ps, "group"), Get(ps, "severidade"), Get(ps, "minPoints"), Get(ps, "maxPoints"))
  }

  /** Only the truthy filters are forwarded, each under its own name. */
  lemma {:induction false} LastTruthyFilter(f: Filters, k: Field, n: nat)
    requires n <= FieldCount
    ensures LastTruthy(FilterEntries(f)[..n], ParamName(k)) ==
      if Rank(k) < n && Truthy(Value(f, k)) then Value(f, k) else None
  {
    if n > 0 {
      var es := FilterEntries(f)[..n];
      assert es[..n - 1] == FilterEntries(f)[..n - 1];
      assert es[n - 1] == (ParamName(FieldAt(n - 1)), Value(f, FieldAt(n - 1)));
      LastTruthyFilter(f, k, n - 1);
      RankFieldAt(n - 1);
      if FieldAt(n - 1) != k {
        ParamNamesDiffer(FieldAt(n - 1), k);
        assert Rank(k) != n - 1;
      }
    }
  }

  /**
   * The dashboard a snapshot records is computed under the same WHERE
   * clause and arguments as the filters posted with it, provided the
   * snapshot request itself names none of the filters.
   */
  lemma SnapshotFiltersSameQuery(ps: Pairs, f: Filters, toNumber: string -> real)
    requires forall k :: Get(ps, ParamName(k)).None?
    ensures var g := QueryFilters(Forwarded(ps, FilterEntries(f)));
      WhereOf(g) == WhereOf(f) && ArgsOf(g, toNumber) == ArgsOf(f, toNumber)
  {
    var g := QueryFilters(Forwarded(ps, FilterEntries(f)));
    forall k ensures Value(g, k) == if Truthy(Value(f, k)) then Value(f, k) else None {
      ForwardedGet(ps, FilterEntries(f), ParamName(k));
      LastTruthyFilter(f, k, FieldCount);
      assert FilterEntries(f)[..FieldCount] == FilterEntries(f);
    }
    OnlySetFiltersMatter(f, g, toNumber);
  }
}
