/**
 * The web client's calls into the worker (apps/web/src/lib/api.ts): the
 * import that posts the rows in chunks of 300 and adds up what the server
 * reports, and the query strings of the dashboard and rows requests.  The
 * import endpoint is a server object that records every body it receives
 * and answers the n-th request as a fixed function says.
 */
module Api {
  import opened Text
  import opened Rows
  import opened Query
  import opened Db
  import opened Worker

  // ---------------------------------------------------------------- chunking

  const ChunkSize: nat := 300

  /** The body of one chunk request: `{ importLabel, rows: chunk }`. */
  datatype ChunkBody = ChunkBody(importLabel: string, rows: seq<NormalizedRow>)

  /**
   * The server's answer to one request: an ok response with the `inserted`
   * field of its JSON (absent when the field is missing), or a failed one
   * with its text.
   */
  datatype Reply = Accepted(inserted: Option<int>) | Refused(text: string)

  /** The import endpoint: the bodies it has received, and its answer to the n-th request. */
  class ImportServer {
    var sent: seq<ChunkBody>
    const answer: nat -> Reply

    constructor (answer: nat -> Reply)
      ensures sent == [] && this.answer == answer
    {
      this.answer := answer;
      sent := [];
    }

    /** One `fetch` POST to `/api/import`. */
    method Post(body: ChunkBody) returns (reply: Reply)
      modifies this
      ensures sent == old(sent) + [body]
      ensures reply == answer(|old(sent)|)
    {
      reply := answer(|sent|);
      sent := sent + [body];
    }
  }

  function MinNat(a: nat, b: nat): nat {
    if a <= b then a else b
  }

  /** `rows.slice(i, i + chunkSize)`. */
  function Slice(rows: seq<NormalizedRow>, i: nat): seq<NormalizedRow>
    requires i <= |rows|
  {
    rows[i..MinNat(i + ChunkSize, |rows|)]
  }

  /** The chunks the loop cuts from position `i` on, as `i` steps by 300 while it is below the length. */
  function ChunksFrom(rows: seq<NormalizedRow>, i: nat): seq<seq<NormalizedRow>>
    decreases |rows| - i
  {
    if i >= |rows| then [] else [Slice(rows, i)] + ChunksFrom(rows, i + ChunkSize)
  }

  function Chunks(rows: seq<NormalizedRow>): seq<seq<NormalizedRow>> {
    ChunksFrom(rows, 0)
  }

  function Flatten(cs: seq<seq<NormalizedRow>>): seq<NormalizedRow> {
    if cs == [] then [] else cs[0] + Flatten(cs[1..])
  }

  /** The chunks, put back together, are the rows from `i` on, in order. */
  lemma {:induction false} ChunksFromFlatten(rows: seq<NormalizedRow>, i: nat)
    requires i <= |rows|
    ensures Flatten(ChunksFrom(rows, i)) == rows[i..]
    decreases |rows| - i
  {
    if i < |rows| {
      var cs := ChunksFrom(rows, i);
      assert cs[1..] == ChunksFrom(rows, i + ChunkSize);
      if i + ChunkSize < |rows| {
        ChunksFromFlatten(rows, i + ChunkSize);
        assert rows[i..] == rows[i..i + ChunkSize] + rows[i + ChunkSize..];
      } else {
        assert ChunksFrom(rows, i + ChunkSize) == [];
        assert rows[i..] == rows[i..|rows|];
      }
    }
  }

  /** The chunks are consecutive pieces of the rows: together they give the whole list back. */
  lemma ChunksFlatten(rows: seq<NormalizedRow>)
    ensures Flatten(Chunks(rows)) == rows
  {
    ChunksFromFlatten(rows, 0);
  }

  /** Every chunk holds between 1 and 300 rows. */
  lemma {:induction false} ChunkSizes(rows: seq<NormalizedRow>, i: nat)
    ensures forall j :: 0 <= j < |ChunksFrom(rows, i)| ==> 1 <= |ChunksFrom(rows, i)[j]| <= ChunkSize
    decreases |rows| - i
  {
    if i < |rows| {
      ChunkSizes(rows, i + ChunkSize);
      var cs := ChunksFrom(rows, i);
      assert forall j :: 1 <= j < |cs| ==> cs[j] == ChunksFrom(rows, i + ChunkSize)[j - 1];
    }
  }

  /** The loop makes ceil((n - i) / 300) steps. */
  lemma {:induction false} ChunkCountFrom(rows: seq<NormalizedRow>, i: nat)
    requires i <= |rows|
    ensures |ChunksFrom(rows, i)| == (|rows| - i + ChunkSize - 1) / ChunkSize
    decreases |rows| - i
  {
    if i < |rows| {
      if i + ChunkSize <= |rows| {
        ChunkCountFrom(rows, i + ChunkSize);
      }
    }
  }

  /** ceil(n / 300) requests; none for an empty list. */
  lemma ChunkCount(rows: seq<NormalizedRow>)
    ensures |Chunks(rows)| == (|rows| + ChunkSize - 1) / ChunkSize
    ensures rows == [] <==> Chunks(rows) == []
  {
    ChunkCountFrom(rows, 0);
  }

  /** The bodies of the chunk requests: each chunk under the one label. */
  function Bodies(importLabel: string, cs: seq<seq<NormalizedRow>>): seq<ChunkBody> {
    seq(|cs|, j requires 0 <= j < |cs| => ChunkBody(importLabel, cs[j]))
  }

  /** How an import ends: the number of requests it made and its result. */
  datatype Outcome = Outcome(posts: nat, result: Result<int>)

  /**
   * The requests for the chunks `cs`, the first numbered `at`, with `acc`
   * rows already counted: the loop stops at the first refusal, whose text it
   * throws; otherwise it adds each reported count, a missing one as 0.
   */
  function Run(answer: nat -> Reply, at: nat, cs: seq<seq<NormalizedRow>>, acc: int): Outcome
    decreases |cs|
  {
    if cs == [] then Outcome(0, Ok(acc))
    else
      match answer(at)
      case Refused(t) => Outcome(1, Err(t))
      case Accepted(n) =>
        var o := Run(answer, at + 1, cs[1..], acc + n.GetOr(0));
        Outcome(o.posts + 1, o.result)
  }

  /** The sum of the counts the answers `at`, `at + 1`, ... report. */
  function Reported(answer: nat -> Reply, at: nat, m: nat): int
    decreases m
  {
    if m == 0 then 0
    else Reported(answer, at, m - 1) + (if answer(at + m - 1).Accepted? then answer(at + m - 1).inserted.GetOr(0) else 0)
  }

  lemma {:induction false} ReportedShift(answer: nat -> Reply, at: nat, m: nat)
    requires m > 0
    ensures Reported(answer, at, m) ==
      (if answer(at).Accepted? then answer(at).inserted.GetOr(0) else 0) + Reported(answer, at + 1, m - 1)
    decreases m
  {
    if m > 1 {
      ReportedShift(answer, at, m - 1);
    }
  }

  /**
   * A successful import sent every chunk, every answer was ok, and the
   * result is the sum of the reported counts.
   */
  lemma {:induction false} RunOk(answer: nat -> Reply, at: nat, cs: seq<seq<NormalizedRow>>, acc: int)
    requires Run(answer, at, cs, acc).result.Ok?
    ensures Run(answer, at, cs, acc).posts == |cs|
    ensures forall n :: at <= n < at + |cs| ==> answer(n).Accepted?
    ensures Run(answer, at, cs, acc).result.value == acc + Reported(answer, at, |cs|)
    decreases |cs|
  {
    if cs != [] {
      var n := answer(at).inserted;
      RunOk(answer, at + 1, cs[1..], acc + n.GetOr(0));
      ReportedShift(answer, at, |cs|);
    }
  }

  /**
   * A failed import throws the text of the first refusal: the chunks before
   * it were sent and accepted, that chunk was sent, and none after it.
   */
  lemma {:induction false} RunErr(answer: nat -> Reply, at: nat, cs: seq<seq<NormalizedRow>>, acc: int)
    requires Run(answer, at, cs, acc).result.Err?
    ensures var o := Run(answer, at, cs, acc);
      && 1 <= o.posts <= |cs|
      && answer(at + o.posts - 1) == Refused(o.result.error)
      && forall n :: at <= n < at + o.posts - 1 ==> answer(n).Accepted?
    decreases |cs|
  {
    if answer(at).Accepted? {
      var n := answer(at).inserted;
      RunErr(answer, at + 1, cs[1..], acc + n.GetOr(0));
    }
  }

  function SumSizes(cs: seq<seq<NormalizedRow>>): nat {
    if cs == [] then 0 else |cs[0]| + SumSizes(cs[1..])
  }

  lemma {:induction false} FlattenSize(cs: seq<seq<NormalizedRow>>)
    ensures |Flatten(cs)| == SumSizes(cs)
  {
    if cs != [] {
      FlattenSize(cs[1..]);
    }
  }

  /** When the server reports every chunk's rows as inserted, the import reports all of them. */
  lemma {:induction false} RunAllInserted(answer: nat -> Reply, at: nat, cs: seq<seq<NormalizedRow>>, acc: int)
    requires forall j :: 0 <= j < |cs| ==> answer(at + j) == Accepted(Some(|cs[j]|))
    ensures Run(answer, at, cs, acc) == Outcome(|cs|, Ok(acc + SumSizes(cs)))
    decreases |cs|
  {
    if cs != [] {
      forall j | 0 <= j < |cs[1..]| ensures answer(at + 1 + j) == Accepted(Some(|cs[1..][j]|)) {
        assert answer(at + (j + 1)) == Accepted(Some(|cs[j + 1]|));
      }
      RunAllInserted(answer, at + 1, cs[1..], acc + |cs[0]|);
    }
  }

  /** Importing every row of a list the server takes in full reports the length of the list. */
  lemma ImportAllInserted(answer: nat -> Reply, at: nat, rows: seq<NormalizedRow>)
    requires forall j :: 0 <= j < |Chunks(rows)| ==> answer(at + j) == Accepted(Some(|Chunks(rows)[j]|))
    ensures Run(answer, at, Chunks(rows), 0) == Outcome(|Chunks(rows)|, Ok(|rows|))
  {
    RunAllInserted(answer, at, Chunks(rows), 0);
    ChunksFlatten(rows);
    FlattenSize(Chunks(rows));
  }

  /** An empty list sends nothing and reports 0. */
  lemma ImportNothing(answer: nat -> Reply, at: nat)
    ensures Run(answer, at, Chunks([]), 0) == Outcome(0, Ok(0))
  {
  }

  lemma ChunksStep(rows: seq<NormalizedRow>, i: nat)
    requires i < |rows|
    ensures ChunksFrom(rows, i) == [Slice(rows, i)] + ChunksFrom(rows, i + ChunkSize)
  {
  }

  lemma BodiesSnoc(importLabel: string, done: seq<seq<NormalizedRow>>, c: seq<NormalizedRow>)
    ensures Bodies(importLabel, done + [c]) == Bodies(importLabel, done) + [ChunkBody(importLabel, c)]
  {
  }

  /** One accepted chunk: the rest of the run starts one request later with its count added. */
  lemma RunAccepted(answer: nat -> Reply, at: nat, c: seq<NormalizedRow>, rest: seq<seq<NormalizedRow>>, acc: int)
    requires answer(at).Accepted?
    ensures var o := Run(answer, at + 1, rest, acc + answer(at).inserted.GetOr(0));
      Run(answer, at, [c] + rest, acc) == Outcome(o.posts + 1, o.result)
  {
    assert ([c] + rest)[1..] == rest;
  }

  /** One refused chunk ends the run. */
  lemma RunRefused(answer: nat -> Reply, at: nat, c: seq<NormalizedRow>, rest: seq<seq<NormalizedRow>>, acc: int)
    requires answer(at).Refused?
    ensures Run(answer, at, [c] + rest, acc) == Outcome(1, Err(answer(at).text))
  {
  }

  lemma PrefixOf(done: seq<seq<NormalizedRow>>, c: seq<NormalizedRow>, rest: seq<seq<NormalizedRow>>)
    ensures (done + [c] + rest)[..|done| + 1] == done + [c]
    ensures done + ([c] + rest) == (done + [c]) + rest
  {
  }

  /**
   * Where the import loop stands: the chunks sent so far are `done`, the
   * rest start at row `i`, and the rest of the run, from `acc`, completes
   * the run `total` of the whole list.
   */
  ghost predicate Progress(answer: nat -> Reply, at: nat, rows: seq<NormalizedRow>, i: nat,
                           done: seq<seq<NormalizedRow>>, acc: int, total: Outcome)
  {
    && Chunks(rows) == done + ChunksFrom(rows, i)
    && var o := Run(answer, at + |done|, ChunksFrom(rows, i), acc);
       total == Outcome(o.posts + |done|, o.result)
  }

  lemma StepAccepted(answer: nat -> Reply, at: nat, rows: seq<NormalizedRow>, i: nat,
                     done: seq<seq<NormalizedRow>>, acc: int, total: Outcome)
    requires i < |rows| && Progress(answer, at, rows, i, done, acc, total)
    requires answer(at + |done|).Accepted?
    ensures Progress(answer, at, rows, i + ChunkSize, done + [Slice(rows, i)],
                     acc + answer(at + |done|).inserted.GetOr(0), total)
  {
    ChunksStep(rows, i);
    var rest := ChunksFrom(rows, i + ChunkSize);
    PrefixOf(done, Slice(rows, i), rest);
    RunAccepted(answer, at + |done|, Slice(rows, i), rest, acc);
  }

  lemma StepRefused(answer: nat -> Reply, at: nat, rows: seq<NormalizedRow>, i: nat,
                    done: seq<seq<NormalizedRow>>, acc: int, total: Outcome)
    requires i < |rows| && Progress(answer, at, rows, i, done, acc, total)
    requires answer(at + |done|).Refused?
    ensures total == Outcome(|done| + 1, Err(answer(at + |done|).text))
    ensures total.posts <= |Chunks(rows)| && Chunks(rows)[..total.posts] == done + [Slice(rows, i)]
  {
    ChunksStep(rows, i);
    var rest := ChunksFrom(rows, i + ChunkSize);
    PrefixOf(done, Slice(rows, i), rest);
    RunRefused(answer, at + |done|, Slice(rows, i), rest, acc);
  }

  lemma StepDone(answer: nat -> Reply, at: nat, rows: seq<NormalizedRow>, i: nat,
                 done: seq<seq<NormalizedRow>>, acc: int, total: Outcome)
    requires i >= |rows| && Progress(answer, at, rows, i, done, acc, total)
    ensures total == Outcome(|done|, Ok(acc))
    ensures total.posts <= |Chunks(rows)| && Chunks(rows)[..total.posts] == done
  {
  }

  /**
   * `importRows`: the server receives the chunks in order, under the one
   * label, up to and including the first refused one, and the result is
   * what `Run` says.
   */
  method ImportRows(server: ImportServer, importLabel: string, rows: seq<NormalizedRow>) returns (res: Result<int>)
    modifies server
    ensures var o := Run(server.answer, |old(server.sent)|, Chunks(rows), 0);
      && o.posts <= |Chunks(rows)|
      && server.sent == old(server.sent) + Bodies(importLabel, Chunks(rows)[..o.posts])
      && res == o.result
  {
    ghost var at := |server.sent|;
    ghost var total := Run(server.answer, at, Chunks(rows), 0);
    ghost var done: seq<seq<NormalizedRow>> := [];
    var inserted := 0;
    var i := 0;
    while i < |rows|
      invariant Progress(server.answer, at, rows, i, done, inserted, total)
      invariant server.sent == old(server.sent) + Bodies(importLabel, done)
      invariant at + |done| == |server.sent|
      decreases |rows| - i
    {
      var chunk := rows[i..MinNat(i + ChunkSize, |rows|)];
      assert chunk == Slice(rows, i);
      var reply := server.Post(ChunkBody(importLabel, chunk));
      BodiesSnoc(importLabel, done, chunk);
      if reply.Refused? {
        StepRefused(server.answer, at, rows, i, done, inserted, total);
        res := Err(reply.text);
        return;
      }
      StepAccepted(server.answer, at, rows, i, done, inserted, total);
      inserted := inserted + reply.inserted.GetOr(0);
      done := done + [chunk];
      i := i + ChunkSize;
    }
    StepDone(server.answer, at, rows, i, done, inserted, total);
    res := Ok(inserted);
  }

  // ---------------------------------------------------------- query strings

  /** `Object.entries(filters).filter(([, v]) => v && String(v).length > 0)`, as name and text. */
  function TruthyPairs(es: Entries): (ps: Pairs)
    ensures |ps| <= |es|
    ensures forall i :: 0 <= i < |ps| ==> ps[i].1 != ""
  {
    if es == [] then []
    else
      var e := es[|es| - 1];
      TruthyPairs(es[..|es| - 1]) + (if Truthy(e.1) then [(e.0, e.1.value)] else [])
  }

  /** A name that no entry carries is not in the query. */
  lemma {:induction false} TruthyPairsMissing(es: Entries, k: string)
    requires forall i :: 0 <= i < |es| ==> es[i].0 != k
    ensures !HasName(TruthyPairs(es), k)
  {
    if es != [] {
      var e := es[|es| - 1];
      TruthyPairsMissing(es[..|es| - 1], k);
      var a, b := TruthyPairs(es[..|es| - 1]), if Truthy(e.1) then [(e.0, e.1.value)] else [];
      GetMissing(a, k);
      GetMissing(b, k);
      GetAppend(a, b, k);
      GetMissing(a + b, k);
    }
  }

  /** The query string of `getDashboard`. */
  function DashboardQuery(f: Filters): Pairs {
    TruthyPairs(FilterEntries(f))
  }

  lemma TruthyLast(e: (string, Option<string>), name: string)
    ensures Get(if Truthy(e.1) then [(e.0, e.1.value)] else [], name) ==
      if e.0 == name && Truthy(e.1) then e.1 else None
  {
  }

  lemma {:induction false} TruthyFilterGet(f: Filters, k: Field, n: nat)
    requires n <= FieldCount
    ensures Get(TruthyPairs(FilterEntries(f)[..n]), ParamName(k)) ==
      if Rank(k) < n && Truthy(Value(f, k)) then Value(f, k) else None
  {
    if n > 0 {
      var es := FilterEntries(f)[..n];
      assert es[..n - 1] == FilterEntries(f)[..n - 1];
      TruthyFilterGet(f, k, n - 1);
      var e := es[n - 1];
      assert e == (ParamName(FieldAt(n - 1)), Value(f, FieldAt(n - 1)));
      var tail := if Truthy(e.1) then [(e.0, e.1.value)] else [];
      assert TruthyPairs(es) == TruthyPairs(es[..n - 1]) + tail;
      GetAppend(TruthyPairs(es[..n - 1]), tail, ParamName(k));
      TruthyLast(e, ParamName(k));
      RankFieldAt(n - 1);
      if FieldAt(n - 1) != k {
        ParamNamesDiffer(FieldAt(n - 1), k);
        assert Rank(k) != n - 1;
      }
    }
  }

  /** Each filter travels in the query exactly when it is truthy, with its own value. */
  lemma DashboardQueryGet(f: Filters, k: Field)
    ensures Get(DashboardQuery(f), ParamName(k)) == if Truthy(Value(f, k)) then Value(f, k) else None
  {
    TruthyFilterGet(f, k, FieldCount);
    assert FilterEntries(f)[..FieldCount] == FilterEntries(f);
  }

  /** The worker reads back filters that give the same WHERE clause and arguments. */
  lemma DashboardQuerySameWhere(f: Filters, toNumber: string -> real)
    ensures WhereOf(QueryFilters(DashboardQuery(f))) == WhereOf(f)
    ensures ArgsOf(QueryFilters(DashboardQuery(f)), toNumber) == ArgsOf(f, toNumber)
  {
    forall k {
      DashboardQueryGet(f, k);
    }
    OnlySetFiltersMatter(f, QueryFilters(DashboardQuery(f)), toNumber);
  }

  lemma NotPagingName(k: Field)
    ensures ParamName(k) != "limit" && ParamName(k) != "offset"
  {
  }

  /** No filter is sent under the names of the paging parameters. */
  lemma DashboardQueryNoPaging(f: Filters)
    ensures !HasName(DashboardQuery(f), "limit") && !HasName(DashboardQuery(f), "offset")
  {
    var es := FilterEntries(f);
    forall i | 0 <= i < |es| ensures es[i].0 != "limit" && es[i].0 != "offset" {
      NotPagingName(FieldAt(i));
    }
    TruthyPairsMissing(es, "limit");
    TruthyPairsMissing(es, "offset");
  }

  /**
   * The query string of `getRows(filters, limit, offset)`: the truthy
   * filters, then `limit` (default 200) and `offset` (default 0) set on top;
   * `show` stands for `String` on numbers.
   */
  function RowsQuery(f: Filters, limit: Option<int>, offset: Option<int>, show: int -> string): Pairs {
    SetPair(SetPair(DashboardQuery(f), "limit", show(limit.GetOr(200))), "offset", show(offset.GetOr(0)))
  }

  /** The rows query is the dashboard query with the two paging pairs appended. */
  lemma RowsQueryShape(f: Filters, limit: Option<int>, offset: Option<int>, show: int -> string)
    ensures RowsQuery(f, limit, offset, show) ==
      DashboardQuery(f) + [("limit", show(limit.GetOr(200))), ("offset", show(offset.GetOr(0)))]
  {
    var d := DashboardQuery(f);
    var l := show(limit.GetOr(200));
    DashboardQueryNoPaging(f);
    SetFresh(d, "limit", l);
    GetMissing(d, "offset");
    GetAppend(d, [("limit", l)], "offset");
    GetMissing(d + [("limit", l)], "offset");
    SetFresh(d + [("limit", l)], "offset", show(offset.GetOr(0)));
  }

  /**
   * The worker reads back the same WHERE clause and arguments from the rows
   * query, and reads `limit` and `offset` as sent.
   */
  lemma RowsQueryReads(f: Filters, limit: Option<int>, offset: Option<int>, show: int -> string, toNumber: string -> real)
    ensures var q := RowsQuery(f, limit, offset, show);
      && Get(q, "limit") == Some(show(limit.GetOr(200)))
      && Get(q, "offset") == Some(show(offset.GetOr(0)))
      && WhereOf(QueryFilters(q)) == WhereOf(f)
      && ArgsOf(QueryFilters(q), toNumber) == ArgsOf(f, toNumber)
  {
    var d := DashboardQuery(f);
    var l, o := show(limit.GetOr(200)), show(offset.GetOr(0));
    var q := RowsQuery(f, limit, offset, show);
    SetGet(d, "limit", l);
    SetOther(SetPair(d, "limit", l), "offset", o, "limit");
    SetGet(SetPair(d, "limit", l), "offset", o);
    forall k
      ensures Value(QueryFilters(q), k) == Value(QueryFilters(d), k)
    {
      NotPagingName(k);
      SetOther(d, "limit", l, ParamName(k));
      SetOther(SetPair(d, "limit", l), "offset", o, ParamName(k));
    }
    forall k {
      DashboardQueryGet(f, k);
    }
    OnlySetFiltersMatter(f, QueryFilters(q), toNumber);
  }

  /**
   * With `Number(String(n)) == n`, the worker serves the page size the client
   * asks for when it is in 0..200: the client's default 200 in particular,
   * never the worker's own default of 50.  This holds for the limit as the
   * worker computes it, and for the clamped one.
   */
  lemma RowsPageSize(f: Filters, limit: Option<int>, offset: Option<int>, show: int -> string, toNumber: string -> real)
    requires var l := limit.GetOr(200); show(l) != "" && toNumber(show(l)) == l as real && 0 <= l <= 200
    ensures RowsLimitAsWritten(Get(RowsQuery(f, limit, offset, show), "limit"), toNumber) == limit.GetOr(200) as real
    ensures RowsLimit(Get(RowsQuery(f, limit, offset, show), "limit"), toNumber) == limit.GetOr(200) as real
  {
    RowsQueryReads(f, limit, offset, show, toNumber);
  }
}
