/**
 * The spreadsheet row normaliser of apps/web/src/lib/excel.ts.  The
 * workbook arrives already read: once as records (header, value) in column
 * order, and once as a matrix of cells.  Rows are first mapped through
 * their normalised headers and a set of header aliases; when that does not
 * look like a real report, the matrix is read by fixed column positions
 * below a header line found by scanning.  Either way only lines that look
 * like real quality checks are kept.
 */
module Excel {
  import opened Text
  import opened Rows

  /** A cell or record value as text; `None` is null or undefined. */
  type Cell = Option<string>

  /** One line read against the header line: (header, value) pairs in column order. */
  type Record = seq<(string, Cell)>

  /** The sheet as lines of cells. */
  type Matrix = seq<seq<Cell>>

  // -------------------------------------------------------------- header keys

  /** What a normalised header key looks like. */
  predicate IsKey(k: string) {
    IsTrimmed(k) && SingleSpaced(k) && AllChars(IsPlain, k) && AllChars(IsLowerChar, k)
  }

  /** `normKey` as written: trim, lower-case, collapse white space, and only then strip accents. */
  function NormKeyAsWritten(k: string): string {
    StripAccents(CollapseSpaces(LowerStr(Trim(k))))
  }

  /**
   * `normKey` with the accents stripped first, so that trimming and
   * collapsing see the characters that remain.  The header mapping below
   * uses `NormKeyAsWritten`; this is the repaired key the lemmas after it
   * are about.
   */
  function NormKey(k: string): string {
    CollapseSpaces(LowerStr(Trim(StripAccents(k))))
  }

  /**
   * A key is trimmed, single-spaced, lower-case and free of accents and
   * combining marks.
   */
  lemma NormKeyIsKey(k: string)
    ensures IsKey(NormKey(k))
  {
    var a := StripAccents(k);
    var b := Trim(a);
    var c := LowerStr(b);
    StrippedPlain(k);
    TrimKeeps(IsPlain, a);
    TrimTrimmed(a);
    LowerKeeps(b);
    LowerTrimmed(b);
    CollapseKeeps(IsPlain, c);
    CollapseKeeps(IsLowerChar, c);
    CollapseTrimmed(c);
    CollapseSingle(c);
  }

  /** A normalised key normalises to itself. */
  lemma KeyFixed(k: string)
    requires IsKey(k)
    ensures NormKey(k) == k
  {
    StripPlain(k);
    TrimFixed(k);
    LowerFixed(k);
    CollapseFixed(k);
  }

  lemma NormKeyIdempotent(k: string)
    ensures NormKey(NormKey(k)) == NormKey(k)
  {
    NormKeyIsKey(k);
    KeyFixed(NormKey(k));
  }

  /** White space around a header does not change its key. */
  lemma NormKeyPadded(w1: string, k: string, w2: string)
    requires AllSpace(w1) && AllSpace(w2)
    ensures NormKey(w1 + k + w2) == NormKey(k)
  {
    StripAround(w1, k, w2);
    TrimPadded(w1, StripAccents(k), w2);
  }

  /** Letter case does not change a header's key: "STATUS" maps like "status". */
  lemma NormKeyCase(k: string)
    ensures NormKey(UpperStr(k)) == NormKey(k)
  {
    TrimMap(LowerChar, StripAccents(UpperStr(k)));
    TrimMap(LowerChar, StripAccents(k));
    LowerStripUpper(k);
  }

  // ------------------------------------------------------------ header mapping

  /**
   * `mapped` once the loop over a record's entries is done: every header
   * normalised by `normKey` as written, a later entry overwriting an
   * earlier one with the same key.
   */
  function KeyMap(r: Record): map<string, Cell> {
    if r == [] then map[] else KeyMap(r[..|r| - 1])[NormKeyAsWritten(r[|r| - 1].0) := r[|r| - 1].1]
  }

  /** Entry `j` is the last one of `r` whose header normalises to `key`. */
  predicate LastWith(r: Record, key: string, j: int) {
    0 <= j < |r| && NormKeyAsWritten(r[j].0) == key && forall k :: j < k < |r| ==> NormKeyAsWritten(r[k].0) != key
  }

  lemma {:induction false} KeyMapHas(r: Record, key: string)
    ensures key in KeyMap(r) <==> exists j :: 0 <= j < |r| && NormKeyAsWritten(r[j].0) == key
  {
    if r != [] {
      var n := |r| - 1;
      var p := r[..n];
      KeyMapHas(p, key);
      if NormKeyAsWritten(r[n].0) != key {
        if exists j :: 0 <= j < |r| && NormKeyAsWritten(r[j].0) == key {
          var j :| 0 <= j < |r| && NormKeyAsWritten(r[j].0) == key;
          OtherKeyOtherEntry(r, j, n);
          assert p[j] == r[j];
        }
        if exists j :: 0 <= j < |p| && NormKeyAsWritten(p[j].0) == key {
          var j :| 0 <= j < |p| && NormKeyAsWritten(p[j].0) == key;
          assert p[j] == r[j];
        }
      }
    }
  }

  lemma {:induction false} KeyMapLast(r: Record, key: string, j: int)
    requires LastWith(r, key, j)
    ensures key in KeyMap(r) && KeyMap(r)[key] == r[j].1
  {
    var n := |r| - 1;
    var p := r[..n];
    if j < n {
      assert NormKeyAsWritten(r[n].0) != key;
      assert p[j] == r[j];
      forall k | j < k < n ensures NormKeyAsWritten(p[k].0) != key {
        assert p[k] == r[k];
      }
      KeyMapLast(p, key, j);
    }
  }

  /** A key is mapped exactly when some header normalises to it, and the last such entry wins. */
  lemma KeyMapLookup(r: Record, key: string)
    ensures key in KeyMap(r) <==> exists j :: 0 <= j < |r| && NormKeyAsWritten(r[j].0) == key
    ensures forall j :: LastWith(r, key, j) ==> key in KeyMap(r) && KeyMap(r)[key] == r[j].1
  {
    KeyMapHas(r, key);
    forall j | LastWith(r, key, j) ensures key in KeyMap(r) && KeyMap(r)[key] == r[j].1 {
      KeyMapLast(r, key, j);
    }
  }

  lemma OtherKeyOtherEntry(r: Record, j: nat, n: nat)
    requires j < |r| && n < |r| && NormKeyAsWritten(r[j].0) != NormKeyAsWritten(r[n].0)
    ensures j != n
  {
  }

  /** The loop of `tryHeader` that fills `mapped` from one record. */
  method MapKeys(r: Record) returns (mapped: map<string, Cell>)
    ensures mapped == KeyMap(r)
  {
    mapped := map[];
    for i := 0 to |r|
      invariant mapped == KeyMap(r[..i])
    {
      var k, v := r[i].0, r[i].1;
      mapped := mapped[NormKeyAsWritten(k) := v];
      assert r[..i + 1][..i] == r[..i];
    }
    assert r[..|r|] == r;
  }

  /** `mapped[key]`: undefined when no header normalised to `key`. */
  function Lookup(m: map<string, Cell>, key: string): Cell {
    if key in m then m[key] else None
  }

  /** `mapped[first] ?? mapped[second]`. */
  function Alias(m: map<string, Cell>, first: string, second: string): Cell {
    var v := Lookup(m, first);
    if v.Some? then v else Lookup(m, second)
  }

  /**
   * The first alias wins whenever its last entry holds a value (even an
   * empty one); the second is read only when the first is missing or null.
   */
  lemma AliasFromRecord(r: Record, first: string, second: string)
    ensures forall j :: LastWith(r, first, j) && r[j].1.Some? ==> Alias(KeyMap(r), first, second) == r[j].1
    ensures (forall j :: LastWith(r, first, j) ==> r[j].1.None?) ==> Alias(KeyMap(r), first, second) == Lookup(KeyMap(r), second)
  {
    KeyMapLookup(r, first);
    if first in KeyMap(r) {
      var j :| 0 <= j < |r| && NormKeyAsWritten(r[j].0) == first;
      var last := LastFrom(r, first, j);
      assert LastWith(r, first, last);
    }
  }

  /** The last entry with header key `key`, at or after entry `j`. */
  lemma {:induction false} LastFrom(r: Record, key: string, j: nat) returns (last: nat)
    requires j < |r| && NormKeyAsWritten(r[j].0) == key
    ensures LastWith(r, key, last) && j <= last
    decreases |r| - j
  {
    if forall k :: j < k < |r| ==> NormKeyAsWritten(r[k].0) != key {
      last := j;
    } else {
      var k :| j < k < |r| && NormKeyAsWritten(r[k].0) == key;
      last := LastFrom(r, key, k);
    }
  }

  /** `toISODate`: a falsy value is null, anything else goes to the date conversion `toISO`. */
  function ToISODate(v: Cell, toISO: string -> Option<string>): (d: Option<string>)
    ensures !Truthy(v) ==> d.None?
  {
    if Truthy(v) then toISO(v.value) else None
  }

  /** One record mapped by its headers, as in the `json.map` callback of `tryHeader`. */
  function HeaderRow(r: Record, toISO: string -> Option<string>): (row: NormalizedRow)
    ensures row.client.None?
  {
    var m := KeyMap(r);
    NormalizedRow(
      campaign := Clean(Lookup(m, "campanha")),
      client := None,
      group := Clean(Alias(m, "grupo", "esteira")),
      product := Clean(Lookup(m, "produto")),
      adesao := Clean(Alias(m, "adesao", "ade")),
      operador := Clean(Alias(m, "operador", "analista")),
      status := Clean(Alias(m, "status atendimento", "status")),
      manifesto := Clean(Alias(m, "manifesto", "motivo")),
      severidade := Clean(Lookup(m, "severidade")),
      data := ToISODate(Lookup(m, "data"), toISO))
  }

  /** Alias precedence of `tryHeader`, read off the record's own entries. */
  lemma AliasPrecedence(r: Record, toISO: string -> Option<string>)
    ensures forall j :: LastWith(r, "status atendimento", j) && r[j].1.Some? ==> HeaderRow(r, toISO).status == Clean(r[j].1)
    ensures (forall j :: LastWith(r, "status atendimento", j) ==> r[j].1.None?) ==> HeaderRow(r, toISO).status == Clean(Lookup(KeyMap(r), "status"))
    ensures forall j :: LastWith(r, "operador", j) && r[j].1.Some? ==> HeaderRow(r, toISO).operador == Clean(r[j].1)
    ensures (forall j :: LastWith(r, "operador", j) ==> r[j].1.None?) ==> HeaderRow(r, toISO).operador == Clean(Lookup(KeyMap(r), "analista"))
    ensures forall j :: LastWith(r, "adesao", j) && r[j].1.Some? ==> HeaderRow(r, toISO).adesao == Clean(r[j].1)
    ensures (forall j :: LastWith(r, "adesao", j) ==> r[j].1.None?) ==> HeaderRow(r, toISO).adesao == Clean(Lookup(KeyMap(r), "ade"))
    ensures forall j :: LastWith(r, "grupo", j) && r[j].1.Some? ==> HeaderRow(r, toISO).group == Clean(r[j].1)
    ensures (forall j :: LastWith(r, "grupo", j) ==> r[j].1.None?) ==> HeaderRow(r, toISO).group == Clean(Lookup(KeyMap(r), "esteira"))
    ensures forall j :: LastWith(r, "manifesto", j) && r[j].1.Some? ==> HeaderRow(r, toISO).manifesto == Clean(r[j].1)
    ensures (forall j :: LastWith(r, "manifesto", j) ==> r[j].1.None?) ==> HeaderRow(r, toISO).manifesto == Clean(Lookup(KeyMap(r), "motivo"))
  {
    var m := KeyMap(r);
    var row := HeaderRow(r, toISO);
    assert row.status == Clean(Alias(m, "status atendimento", "status"));
    assert row.operador == Clean(Alias(m, "operador", "analista"));
    assert row.adesao == Clean(Alias(m, "adesao", "ade"));
    assert row.group == Clean(Alias(m, "grupo", "esteira"));
    assert row.manifesto == Clean(Alias(m, "manifesto", "motivo"));
    AliasFromRecord(r, "status atendimento", "status");
    AliasFromRecord(r, "operador", "analista");
    AliasFromRecord(r, "adesao", "ade");
    AliasFromRecord(r, "grupo", "esteira");
    AliasFromRecord(r, "manifesto", "motivo");
  }

  // -------------------------------------------------------------- real records

  /** `(r.operador || r.adesao || r.manifesto) && r.status`. */
  predicate IsRealRecord(row: NormalizedRow) {
    (Truthy(row.operador) || Truthy(row.adesao) || Truthy(row.manifesto)) && Truthy(row.status)
  }

  /** `a` is `b` with some elements left out, the rest in the same order. */
  predicate IsSubsequence<T(==)>(a: seq<T>, b: seq<T>)
    decreases |b|
  {
    if a == [] then true
    else if b == [] then false
    else (a[0] == b[0] && IsSubsequence(a[1..], b[1..])) || IsSubsequence(a, b[1..])
  }

  /** The `filter` both strategies end with. */
  function KeepReal(rows: seq<NormalizedRow>): (out: seq<NormalizedRow>)
    ensures forall i :: 0 <= i < |out| ==> IsRealRecord(out[i])
    ensures forall i :: 0 <= i < |out| ==> out[i].status.Some? && (out[i].operador.Some? || out[i].adesao.Some? || out[i].manifesto.Some?)
    ensures IsSubsequence(out, rows)
    ensures forall i :: 0 <= i < |rows| && IsRealRecord(rows[i]) ==> rows[i] in out
    ensures forall x :: multiset(out)[x] == if IsRealRecord(x) then multiset(rows)[x] else 0
  {
    if rows == [] then []
    else
      var rest := KeepReal(rows[1..]);
      RealCountStep(rows, rest);
      if IsRealRecord(rows[0]) then
        assert ([rows[0]] + rest)[1..] == rest;
        [rows[0]] + rest
      else
        assert rest == [] || IsSubsequence(rest, rows[1..]);
        rest
  }

  /** The multiplicities `KeepReal` keeps, one row at a time. */
  lemma RealCountStep(rows: seq<NormalizedRow>, rest: seq<NormalizedRow>)
    requires rows != []
    requires forall x :: multiset(rest)[x] == if IsRealRecord(x) then multiset(rows[1..])[x] else 0
    ensures IsRealRecord(rows[0]) ==> forall x :: multiset([rows[0]] + rest)[x] == if IsRealRecord(x) then multiset(rows)[x] else 0
    ensures !IsRealRecord(rows[0]) ==> forall x :: multiset(rest)[x] == if IsRealRecord(x) then multiset(rows)[x] else 0
  {
    assert rows == [rows[0]] + rows[1..];
    assert multiset(rows) == multiset{rows[0]} + multiset(rows[1..]);
    assert multiset([rows[0]] + rest) == multiset{rows[0]} + multiset(rest);
  }

  /** `json.map(...)`: every record mapped by its headers. */
  function HeaderMapped(records: seq<Record>, toISO: string -> Option<string>): (rows: seq<NormalizedRow>)
    ensures |rows| == |records| && forall i :: 0 <= i < |records| ==> rows[i] == HeaderRow(records[i], toISO)
  {
    seq(|records|, i requires 0 <= i < |records| => HeaderRow(records[i], toISO))
  }

  /** `tryHeader()`. */
  function HeaderRows(records: seq<Record>, toISO: string -> Option<string>): seq<NormalizedRow> {
    KeepReal(HeaderMapped(records, toISO))
  }

  /** `headerLooksOk`: some row has an operator, and more than 100 rows survived. */
  predicate HeaderLooksOk(rows: seq<NormalizedRow>) {
    (exists i :: 0 <= i < |rows| && Truthy(rows[i].operador)) && |rows| > 100
  }

  // --------------------------------------------------------- header-line scan

  /** `row.map(v => v ?? '').join(' ').toLowerCase()`. */
  function LineText(row: seq<Cell>): string {
    LowerStr(Join(seq(|row|, i requires 0 <= i < |row| => row[i].GetOr("")), " "))
  }

  /** The test the scan applies to each line. */
  predicate IsHeaderLine(row: seq<Cell>) {
    var t := LineText(row);
    Contains(t, "status") && (Contains(t, "operador") || Contains(t, "analista"))
  }

  /** `Math.min(50, arr.length)`: how many lines the scan looks at. */
  function ScanEnd(m: Matrix): (n: nat)
    ensures n <= 50 && n <= |m| && (n == 50 || n == |m|)
  {
    if |m| < 50 then |m| else 50
  }

  /** The scan from line `i` on. */
  function HeaderScanFrom(m: Matrix, i: nat): (h: nat)
    ensures h == 0 || i <= h < ScanEnd(m)
    ensures (exists j :: i <= j < ScanEnd(m) && IsHeaderLine(m[j])) ==>
      i <= h < ScanEnd(m) && IsHeaderLine(m[h]) && forall j :: i <= j < h ==> !IsHeaderLine(m[j])
    ensures (forall j :: i <= j < ScanEnd(m) ==> !IsHeaderLine(m[j])) ==> h == 0
    decreases ScanEnd(m) - i
  {
    if i >= ScanEnd(m) then 0
    else if IsHeaderLine(m[i]) then i
    else HeaderScanFrom(m, i + 1)
  }

  /**
   * `headerRowIdx`: the first of the first 50 lines that names a status
   * and an operator (or analyst) column, and 0 when none does.
   */
  function HeaderRowIndex(m: Matrix): (h: nat)
    ensures h == 0 || h < ScanEnd(m)
    ensures (exists j :: 0 <= j < ScanEnd(m) && IsHeaderLine(m[j])) ==>
      h < ScanEnd(m) && IsHeaderLine(m[h]) && forall j :: 0 <= j < h ==> !IsHeaderLine(m[j])
    ensures (forall j :: 0 <= j < ScanEnd(m) ==> !IsHeaderLine(m[j])) ==> h == 0
  {
    HeaderScanFrom(m, 0)
  }

  /** The scan loop of `parseRelatorio`, leaving at the first header line. */
  method FindHeaderRow(arr: Matrix) returns (headerRowIdx: nat)
    ensures headerRowIdx == HeaderRowIndex(arr)
  {
    headerRowIdx := 0;
    var i := 0;
    while i < ScanEnd(arr)
      invariant 0 <= i <= ScanEnd(arr) && headerRowIdx == 0
      invariant forall j :: 0 <= j < i ==> !IsHeaderLine(arr[j])
    {
      var joined := LineText(arr[i]);
      if Contains(joined, "status") && (Contains(joined, "operador") || Contains(joined, "analista")) {
        assert IsHeaderLine(arr[i]);
        headerRowIdx := i;
        break;
      }
      i := i + 1;
    }
  }

  /** `arr.slice(headerRowIdx + 1)`: the lines below the header line. */
  function DataRows(m: Matrix): (d: Matrix)
    ensures |m| > 0 ==> d == m[HeaderRowIndex(m) + 1..]
    ensures |d| < |m| || m == []
  {
    var h := HeaderRowIndex(m);
    if h + 1 <= |m| then m[h + 1..] else []
  }

  /** With no header line among the first 50, the data starts at the second line. */
  lemma NoHeaderLine(m: Matrix)
    requires |m| > 0 && forall j :: 0 <= j < ScanEnd(m) ==> !IsHeaderLine(m[j])
    ensures DataRows(m) == m[1..]
  {
  }

  // -------------------------------------------------------- positional mapping

  /** `r[i]`: undefined beyond the end of a short line. */
  function At(row: seq<Cell>, i: nat): Cell {
    if i < |row| then row[i] else None
  }

  /** One data line read by position (0-based columns C, D, E, F, G, J, K and V). */
  function PositionalRow(row: seq<Cell>, toISO: string -> Option<string>): (r: NormalizedRow)
    ensures r.campaign.None? && r.client.None?
  {
    NormalizedRow(
      campaign := None,
      client := None,
      group := Clean(At(row, 2)),
      product := Clean(At(row, 4)),
      adesao := Clean(At(row, 9)),
      operador := Clean(At(row, 6)),
      status := Clean(At(row, 3)),
      manifesto := Clean(At(row, 10)),
      severidade := Clean(At(row, 21)),
      data := ToISODate(At(row, 5), toISO))
  }

  /** Cells outside columns 2, 3, 4, 5, 6, 9, 10 and 21 are never read. */
  lemma PositionalReadsColumns(a: seq<Cell>, b: seq<Cell>, toISO: string -> Option<string>)
    requires At(a, 2) == At(b, 2) && At(a, 3) == At(b, 3) && At(a, 4) == At(b, 4) && At(a, 5) == At(b, 5)
    requires At(a, 6) == At(b, 6) && At(a, 9) == At(b, 9) && At(a, 10) == At(b, 10) && At(a, 21) == At(b, 21)
    ensures PositionalRow(a, toISO) == PositionalRow(b, toISO)
  {
  }

  /** `dataRows.map(...)`. */
  function PositionalMapped(lines: Matrix, toISO: string -> Option<string>): (rows: seq<NormalizedRow>)
    ensures |rows| == |lines| && forall i :: 0 <= i < |lines| ==> rows[i] == PositionalRow(lines[i], toISO)
  {
    seq(|lines|, i requires 0 <= i < |lines| => PositionalRow(lines[i], toISO))
  }

  /** The fallback strategy: the real records among the lines below the header line. */
  function PositionalRows(m: Matrix, toISO: string -> Option<string>): seq<NormalizedRow> {
    KeepReal(PositionalMapped(DataRows(m), toISO))
  }

  // ------------------------------------------------------------ the whole parse

  /** What `parseRelatorio` resolves to, or the error it rejects with. */
  function Relatorio(records: seq<Record>, m: Matrix, toISO: string -> Option<string>): (res: Result<seq<NormalizedRow>>)
    ensures res.Err? <==> !HeaderLooksOk(HeaderRows(records, toISO)) && m == []
    ensures res.Err? ==> res.error == "Planilha vazia"
    ensures res.Ok? ==> forall i :: 0 <= i < |res.value| ==> IsRealRecord(res.value[i])
    ensures HeaderLooksOk(HeaderRows(records, toISO)) ==>
      res == Ok(HeaderRows(records, toISO)) && |res.value| > 100
    ensures !HeaderLooksOk(HeaderRows(records, toISO)) && m != [] ==>
      res == Ok(PositionalRows(m, toISO)) && IsSubsequence(res.value, PositionalMapped(m[HeaderRowIndex(m) + 1..], toISO))
  {
    var headerRows := HeaderRows(records, toISO);
    if HeaderLooksOk(headerRows) then Ok(headerRows)
    else if m == [] then Err("Planilha vazia")
    else Ok(PositionalRows(m, toISO))
  }

  /** The body of `reader.onload` once the workbook is read. */
  method ParseRelatorio(records: seq<Record>, arr: Matrix, toISO: string -> Option<string>) returns (res: Result<seq<NormalizedRow>>)
    ensures res == Relatorio(records, arr, toISO)
  {
    var headerRows := HeaderRows(records, toISO);
    if HeaderLooksOk(headerRows) {
      return Ok(headerRows);
    }
    if |arr| == 0 {
      return Err("Planilha vazia");
    }
    var headerRowIdx := FindHeaderRow(arr);
    assert headerRowIdx < |arr| by {
      assert headerRowIdx == 0 || headerRowIdx < ScanEnd(arr);
    }
    var dataRows := arr[headerRowIdx + 1..];
    assert dataRows == DataRows(arr);
    res := Ok(KeepReal(PositionalMapped(dataRows, toISO)));
  }
}
