/**
 * The filter-to-WHERE builder of apps/worker/src/db.ts. `buildWhere`
 * pushes one SQL condition and one bound argument for every filter that
 * is set, in a fixed order, and joins the conditions with AND.
 */
module Db {
  import opened Text
  import opened Rows

  /** A bound argument: the driver receives either a text or a number. */
  datatype Arg = Text(s: string) | Num(n: real)

  /** The eight filters, named so that the builder can be read as a table. */
  datatype Field = DateFrom | DateTo | Adesao | Operador | Group | Severidade | MinPoints | MaxPoints

  /** The number of filters. */
  const FieldCount := 8

  /** The order in which `buildWhere` tests the filters. */
  function FieldAt(i: nat): Field
    requires i < FieldCount
  {
    match i
    case 0 => DateFrom
    case 1 => DateTo
    case 2 => Adesao
    case 3 => Operador
    case 4 => Group
    case 5 => Severidade
    case 6 => MinPoints
    case _ => MaxPoints
  }

  /** The position of a filter in that order. */
  function Rank(k: Field): (r: nat)
    ensures r < FieldCount && FieldAt(r) == k
  {
    match k
    case DateFrom => 0
    case DateTo => 1
    case Adesao => 2
    case Operador => 3
    case Group => 4
    case Severidade => 5
    case MinPoints => 6
    case MaxPoints => 7
  }

  lemma RankFieldAt(i: nat)
    requires i < FieldCount
    ensures Rank(FieldAt(i)) == i
  {
  }

  function Value(f: Filters, k: Field): Option<string> {
    match k
    case DateFrom => f.dateFrom
    case DateTo => f.dateTo
    case Adesao => f.adesao
    case Operador => f.operador
    case Group => f.group
    case Severidade => f.severidade
    case MinPoints => f.minPoints
    case MaxPoints => f.maxPoints
  }

  /** The filters with one field replaced. */
  function With(f: Filters, k: Field, v: Option<string>): (g: Filters)
    ensures Value(g, k) == v
    ensures forall j :: j != k ==> Value(g, j) == Value(f, j)
  {
    match k
    case DateFrom => f.(dateFrom := v)
    case DateTo => f.(dateTo := v)
    case Adesao => f.(adesao := v)
    case Operador => f.(operador := v)
    case Group => f.(group := v)
    case Severidade => f.(severidade := v)
    case MinPoints => f.(minPoints := v)
    case MaxPoints => f.(maxPoints := v)
  }

  /** The SQL condition a set filter contributes. */
  function Condition(k: Field): string {
    match k
    case DateFrom => "date(data) >= date(?)"
    case DateTo => "date(data) <= date(?)"
    case Adesao => "adesao = ?"
    case Operador => "operador LIKE ?"
    case Group => "grupo LIKE ?"
    case Severidade => "upper(severidade) LIKE upper(?)"
    case MinPoints => "pontos >= ?"
    case MaxPoints => "pontos <= ?"
  }

  /** The fields among the first `n` of the order that are set in `f`, in that order. */
  function Active(f: Filters, n: nat): seq<Field>
    requires n <= FieldCount
  {
    if n == 0 then []
    else if Truthy(Value(f, FieldAt(n - 1))) then Active(f, n - 1) + [FieldAt(n - 1)]
    else Active(f, n - 1)
  }

  function Conditions(ks: seq<Field>): (w: seq<string>)
    ensures |w| == |ks|
    decreases |ks|
  {
    if ks == [] then [] else Conditions(ks[..|ks| - 1]) + [Condition(ks[|ks| - 1])]
  }

  /**
   * The argument field `k` of `f` contributes when it is set: the LIKE
   * filters wrap the text in `%`, the point bounds go through `Number`,
   * the dates and the exact adesao pass it unchanged.
   */
  function Pushed(f: Filters, k: Field, toNumber: string -> real): Arg {
    match k
    case DateFrom => Text(f.dateFrom.GetOr(""))
    case DateTo => Text(f.dateTo.GetOr(""))
    case Adesao => Text(f.adesao.GetOr(""))
    case Operador => Text("%" + f.operador.GetOr("") + "%")
    case Group => Text("%" + f.group.GetOr("") + "%")
    case Severidade => Text("%" + f.severidade.GetOr("") + "%")
    case MinPoints => Num(toNumber(f.minPoints.GetOr("")))
    case MaxPoints => Num(toNumber(f.maxPoints.GetOr("")))
  }

  function Arguments(f: Filters, ks: seq<Field>, toNumber: string -> real): (a: seq<Arg>)
    ensures |a| == |ks|
    decreases |ks|
  {
    if ks == [] then [] else Arguments(f, ks[..|ks| - 1], toNumber) + [Pushed(f, ks[|ks| - 1], toNumber)]
  }

  /** The clause for a list of conditions: nothing, or WHERE and the conditions joined by AND. */
  function ClauseOf(w: seq<string>): string {
    if |w| == 0 then "" else "WHERE " + Join(w, " AND ")
  }

  /** The conditions pushed once the first `n` filters have been tested. */
  function WhereUpTo(f: Filters, n: nat): seq<string>
    requires n <= FieldCount
  {
    if n == 0 then []
    else if Truthy(Value(f, FieldAt(n - 1))) then WhereUpTo(f, n - 1) + [Condition(FieldAt(n - 1))]
    else WhereUpTo(f, n - 1)
  }

  /** The arguments pushed once the first `n` filters have been tested. */
  function ArgsUpTo(f: Filters, n: nat, toNumber: string -> real): seq<Arg>
    requires n <= FieldCount
  {
    if n == 0 then []
    else if Truthy(Value(f, FieldAt(n - 1))) then ArgsUpTo(f, n - 1, toNumber) + [Pushed(f, FieldAt(n - 1), toNumber)]
    else ArgsUpTo(f, n - 1, toNumber)
  }

  /** The clause `buildWhere` returns for `f`. */
  function WhereOf(f: Filters): string {
    ClauseOf(WhereUpTo(f, FieldCount))
  }

  /** The arguments `buildWhere` returns for `f`. */
  function ArgsOf(f: Filters, toNumber: string -> real): seq<Arg> {
    ArgsUpTo(f, FieldCount, toNumber)
  }

  // ------------------------------------------------------- the table, read

  lemma {:induction false} ConditionsAt(ks: seq<Field>, i: nat)
    requires i < |ks|
    ensures Conditions(ks)[i] == Condition(ks[i])
    decreases |ks|
  {
    if i < |ks| - 1 {
      ConditionsAt(ks[..|ks| - 1], i);
    }
  }

  lemma {:induction false} ArgumentsAt(f: Filters, ks: seq<Field>, i: nat, toNumber: string -> real)
    requires i < |ks|
    ensures Arguments(f, ks, toNumber)[i] == Pushed(f, ks[i], toNumber)
    decreases |ks|
  {
    if i < |ks| - 1 {
      ArgumentsAt(f, ks[..|ks| - 1], i, toNumber);
    }
  }

  /** A filter is active exactly when it is among the first `n` and set. */
  lemma {:induction false} ActiveSet(f: Filters, n: nat)
    requires n <= FieldCount
    ensures forall k :: k in Active(f, n) <==> Rank(k) < n && Truthy(Value(f, k))
  {
    if n > 0 {
      ActiveSet(f, n - 1);
      forall k ensures k in Active(f, n) <==> Rank(k) < n && Truthy(Value(f, k)) {
        if Rank(k) == n - 1 {
          assert FieldAt(n - 1) == k;
        }
      }
    }
  }

  /** The active filters follow the fixed order, so none occurs twice. */
  lemma {:induction false} ActiveOrdered(f: Filters, n: nat)
    requires n <= FieldCount
    ensures forall i, j :: 0 <= i < j < |Active(f, n)| ==> Rank(Active(f, n)[i]) < Rank(Active(f, n)[j])
  {
    if n > 0 {
      ActiveOrdered(f, n - 1);
      ActiveSet(f, n - 1);
      forall k | k in Active(f, n - 1) ensures Rank(k) < Rank(FieldAt(n - 1)) {
      }
    }
  }

  /** The number of set filters among the first `n`. */
  function CountSet(f: Filters, n: nat): nat
    requires n <= FieldCount
  {
    if n == 0 then 0
    else if Truthy(Value(f, FieldAt(n - 1))) then CountSet(f, n - 1) + 1
    else CountSet(f, n - 1)
  }

  lemma {:induction false} ActiveCount(f: Filters, n: nat)
    requires n <= FieldCount
    ensures |Active(f, n)| == CountSet(f, n)
  {
    if n > 0 {
      ActiveCount(f, n - 1);
    }
  }

  /** Two filter sets that agree on which fields are set, and on their values, read alike. */
  lemma {:induction false} ActiveAgree(f: Filters, g: Filters, n: nat)
    requires n <= FieldCount
    requires forall k :: Truthy(Value(f, k)) == Truthy(Value(g, k))
    ensures Active(f, n) == Active(g, n)
  {
    if n > 0 {
      ActiveAgree(f, g, n - 1);
    }
  }

  lemma {:induction false} ArgumentsAgree(f: Filters, g: Filters, ks: seq<Field>, toNumber: string -> real)
    requires forall k :: k in ks ==> Value(f, k) == Value(g, k)
    ensures Arguments(f, ks, toNumber) == Arguments(g, ks, toNumber)
    decreases |ks|
  {
    if ks != [] {
      ArgumentsAgree(f, g, ks[..|ks| - 1], toNumber);
      assert ks[|ks| - 1] in ks;
    }
  }

  lemma ConditionsSnoc(a: seq<Field>, k: Field)
    ensures Conditions(a + [k]) == Conditions(a) + [Condition(k)]
  {
    assert (a + [k])[..|a|] == a;
  }

  lemma ArgumentsSnoc(f: Filters, a: seq<Field>, k: Field, toNumber: string -> real)
    ensures Arguments(f, a + [k], toNumber) == Arguments(f, a, toNumber) + [Pushed(f, k, toNumber)]
  {
    assert (a + [k])[..|a|] == a;
  }

  lemma {:induction false} WhereUpToActive(f: Filters, n: nat)
    requires n <= FieldCount
    ensures WhereUpTo(f, n) == Conditions(Active(f, n))
  {
    if n > 0 {
      WhereUpToActive(f, n - 1);
      if Truthy(Value(f, FieldAt(n - 1))) {
        ConditionsSnoc(Active(f, n - 1), FieldAt(n - 1));
      }
    }
  }

  lemma {:induction false} ArgsUpToActive(f: Filters, n: nat, toNumber: string -> real)
    requires n <= FieldCount
    ensures ArgsUpTo(f, n, toNumber) == Arguments(f, Active(f, n), toNumber)
  {
    if n > 0 {
      ArgsUpToActive(f, n - 1, toNumber);
      if Truthy(Value(f, FieldAt(n - 1))) {
        ArgumentsSnoc(f, Active(f, n - 1), FieldAt(n - 1), toNumber);
      }
    }
  }

  /** The pushes read as a table: the conditions and arguments of the active filters. */
  lemma UpToActive(f: Filters, n: nat, toNumber: string -> real)
    requires n <= FieldCount
    ensures WhereUpTo(f, n) == Conditions(Active(f, n))
    ensures ArgsUpTo(f, n, toNumber) == Arguments(f, Active(f, n), toNumber)
  {
    WhereUpToActive(f, n);
    ArgsUpToActive(f, n, toNumber);
  }

  // ------------------------------------------------------------ properties

  /**
   * Every set filter contributes exactly one condition and exactly one
   * argument, at the same position; the conditions come in the fixed
   * order; filters that are not set contribute nothing.
   */
  lemma Pairing(f: Filters, toNumber: string -> real)
    ensures var a := Active(f, FieldCount);
      && (forall k :: k in a <==> Truthy(Value(f, k)))
      && (forall i, j :: 0 <= i < j < |a| ==> Rank(a[i]) < Rank(a[j]))
      && var w, args := WhereUpTo(f, FieldCount), ArgsOf(f, toNumber);
      && |w| == |args| == |a|
      && (forall i :: 0 <= i < |a| ==> w[i] == Condition(a[i]) && args[i] == Pushed(f, a[i], toNumber))
  {
    var a := Active(f, FieldCount);
    ActiveSet(f, FieldCount);
    ActiveOrdered(f, FieldCount);
    UpToActive(f, FieldCount, toNumber);
    forall i | 0 <= i < |a|
      ensures Conditions(a)[i] == Condition(a[i]) && Arguments(f, a, toNumber)[i] == Pushed(f, a[i], toNumber)
    {
      ConditionsAt(a, i);
      ArgumentsAt(f, a, i, toNumber);
    }
  }

  /** With no filter set the clause is empty and there is no argument; both ways round. */
  lemma NothingSet(f: Filters, toNumber: string -> real)
    ensures WhereOf(f) == "" <==> forall k :: !Truthy(Value(f, k))
    ensures ArgsOf(f, toNumber) == [] <==> forall k :: !Truthy(Value(f, k))
  {
    var a := Active(f, FieldCount);
    ActiveSet(f, FieldCount);
    UpToActive(f, FieldCount, toNumber);
    if a != [] {
      assert a[0] in a;
      var w := WhereUpTo(f, FieldCount);
      assert WhereOf(f) == "WHERE " + Join(w, " AND ");
      assert |WhereOf(f)| >= 6;
    }
  }

  /** Only the set filters matter: a field holding "" reads exactly like an absent one. */
  lemma OnlySetFiltersMatter(f: Filters, g: Filters, toNumber: string -> real)
    requires forall k :: Truthy(Value(f, k)) == Truthy(Value(g, k))
    requires forall k :: Truthy(Value(f, k)) ==> Value(f, k) == Value(g, k)
    ensures WhereOf(f) == WhereOf(g) && ArgsOf(f, toNumber) == ArgsOf(g, toNumber)
  {
    ActiveAgree(f, g, FieldCount);
    ActiveSet(f, FieldCount);
    ArgumentsAgree(f, g, Active(f, FieldCount), toNumber);
    UpToActive(f, FieldCount, toNumber);
    UpToActive(g, FieldCount, toNumber);
  }

  lemma EmptySameAsAbsent(f: Filters, k: Field, toNumber: string -> real)
    ensures WhereOf(With(f, k, Some(""))) == WhereOf(With(f, k, None))
    ensures ArgsOf(With(f, k, Some("")), toNumber) == ArgsOf(With(f, k, None), toNumber)
  {
    OnlySetFiltersMatter(With(f, k, Some("")), With(f, k, None), toNumber);
  }

  /**
   * The argument of a set filter: the LIKE filters wrap the text in `%`,
   * the point bounds are its numeric conversion, the dates and the exact
   * adesao pass it unchanged.
   */
  lemma ArgumentShapes(f: Filters, k: Field, toNumber: string -> real)
    requires Truthy(Value(f, k))
    ensures var v := Value(f, k).value;
      && (k in {Operador, Group, Severidade} ==> Pushed(f, k, toNumber) == Text("%" + v + "%"))
      && (k in {MinPoints, MaxPoints} ==> Pushed(f, k, toNumber) == Num(toNumber(v)))
      && (k in {DateFrom, DateTo, Adesao} ==> Pushed(f, k, toNumber) == Text(v))
  {
  }

  /** Filters on an analyst and on a minimum score. */
  const AnaFrom90 := NoFilters.(operador := Some("ana"), minPoints := Some("90"))

  lemma AnaFrom90Conditions()
    ensures WhereUpTo(AnaFrom90, 8) == ["operador LIKE ?", "pontos >= ?"]
  {
    assert WhereUpTo(AnaFrom90, 3) == [];
    assert WhereUpTo(AnaFrom90, 6) == ["operador LIKE ?"];
  }

  lemma AnaFrom90Args(toNumber: string -> real)
    ensures ArgsUpTo(AnaFrom90, 8, toNumber) == [Text("%ana%"), Num(toNumber("90"))]
  {
    assert "%" + "ana" + "%" == "%ana%";
    assert ArgsUpTo(AnaFrom90, 3, toNumber) == [];
    assert ArgsUpTo(AnaFrom90, 6, toNumber) == [Text("%ana%")];
  }

  lemma JoinTwo(a: string, b: string, sep: string)
    ensures Join([a, b], sep) == a + sep + b
  {
    assert [a, b][1..] == [b];
  }

  /** Filtering on an analyst and a minimum score: two conditions, in the fixed order, with their arguments. */
  lemma AnalystAndMinimum(toNumber: string -> real)
    ensures WhereOf(AnaFrom90) == "WHERE " + "operador LIKE ?" + " AND " + "pontos >= ?"
    ensures ArgsOf(AnaFrom90, toNumber) == [Text("%ana%"), Num(toNumber("90"))]
  {
    AnaFrom90Conditions();
    AnaFrom90Args(toNumber);
    JoinTwo("operador LIKE ?", "pontos >= ?", " AND ");
  }

  // ------------------------------------------------------------ buildWhere

  /** `buildWhere`: the pushes, then the join. */
  method BuildWhere(f: Filters, toNumber: string -> real) returns (clause: string, args: seq<Arg>)
    ensures clause == WhereOf(f)
    ensures args == ArgsOf(f, toNumber)
  {
    var where;
    where, args := PushConditions(f, toNumber);
    clause := if |where| > 0 then "WHERE " + Join(where, " AND ") else "";
  }

  /**
   * The eight lines of `buildWhere`, one lemma each: the line for the
   * filter at position `n` extends the pushes of the first `n` filters to
   * those of the first `n + 1`.
   */
  lemma PushDateFrom(f: Filters, toNumber: string -> real, w: seq<string>, a: seq<Arg>)
    requires w == WhereUpTo(f, 0) && a == ArgsUpTo(f, 0, toNumber)
    ensures (if Truthy(f.dateFrom) then w + ["date(data) >= date(?)"] else w) == WhereUpTo(f, 1)
    ensures (if Truthy(f.dateFrom) then a + [Text(f.dateFrom.GetOr(""))] else a) == ArgsUpTo(f, 1, toNumber)
  {
  }

  lemma PushDateTo(f: Filters, toNumber: string -> real, w: seq<string>, a: seq<Arg>)
    requires w == WhereUpTo(f, 1) && a == ArgsUpTo(f, 1, toNumber)
    ensures (if Truthy(f.dateTo) then w + ["date(data) <= date(?)"] else w) == WhereUpTo(f, 2)
    ensures (if Truthy(f.dateTo) then a + [Text(f.dateTo.GetOr(""))] else a) == ArgsUpTo(f, 2, toNumber)
  {
  }

  lemma PushAdesao(f: Filters, toNumber: string -> real, w: seq<string>, a: seq<Arg>)
    requires w == WhereUpTo(f, 2) && a == ArgsUpTo(f, 2, toNumber)
    ensures (if Truthy(f.adesao) then w + ["adesao = ?"] else w) == WhereUpTo(f, 3)
    ensures (if Truthy(f.adesao) then a + [Text(f.adesao.GetOr(""))] else a) == ArgsUpTo(f, 3, toNumber)
  {
  }

  lemma PushOperador(f: Filters, toNumber: string -> real, w: seq<string>, a: seq<Arg>)
    requires w == WhereUpTo(f, 3) && a == ArgsUpTo(f, 3, toNumber)
    ensures (if Truthy(f.operador) then w + ["operador LIKE ?"] else w) == WhereUpTo(f, 4)
    ensures (if Truthy(f.operador) then a + [Text("%" + f.operador.GetOr("") + "%")] else a) == ArgsUpTo(f, 4, toNumber)
  {
  }

  lemma PushGroup(f: Filters, toNumber: string -> real, w: seq<string>, a: seq<Arg>)
    requires w == WhereUpTo(f, 4) && a == ArgsUpTo(f, 4, toNumber)
    ensures (if Truthy(f.group) then w + ["grupo LIKE ?"] else w) == WhereUpTo(f, 5)
    ensures (if Truthy(f.group) then a + [Text("%" + f.group.GetOr("") + "%")] else a) == ArgsUpTo(f, 5, toNumber)
  {
  }

  lemma PushSeveridade(f: Filters, toNumber: string -> real, w: seq<string>, a: seq<Arg>)
    requires w == WhereUpTo(f, 5) && a == ArgsUpTo(f, 5, toNumber)
    ensures (if Truthy(f.severidade) then w + ["upper(severidade) LIKE upper(?)"] else w) == WhereUpTo(f, 6)
    ensures (if Truthy(f.severidade) then a + [Text("%" + f.severidade.GetOr("") + "%")] else a) == ArgsUpTo(f, 6, toNumber)
  {
  }

  lemma PushMinPoints(f: Filters, toNumber: string -> real, w: seq<string>, a: seq<Arg>)
    requires w == WhereUpTo(f, 6) && a == ArgsUpTo(f, 6, toNumber)
    ensures (if Truthy(f.minPoints) then w + ["pontos >= ?"] else w) == WhereUpTo(f, 7)
    ensures (if Truthy(f.minPoints) then a + [Num(toNumber(f.minPoints.GetOr("")))] else a) == ArgsUpTo(f, 7, toNumber)
  {
  }

  lemma PushMaxPoints(f: Filters, toNumber: string -> real, w: seq<string>, a: seq<Arg>)
    requires w == WhereUpTo(f, 7) && a == ArgsUpTo(f, 7, toNumber)
    ensures (if Truthy(f.maxPoints) then w + ["pontos <= ?"] else w) == WhereUpTo(f, 8)
    ensures (if Truthy(f.maxPoints) then a + [Num(toNumber(f.maxPoints.GetOr("")))] else a) == ArgsUpTo(f, 8, toNumber)
  {
  }

  method PushConditions(f: Filters, toNumber: string -> real) returns (where: seq<string>, args: seq<Arg>)
    ensures where == WhereUpTo(f, FieldCount)
    ensures args == ArgsUpTo(f, FieldCount, toNumber)
  {
    where := [];
    args := [];

    PushDateFrom(f, toNumber, where, args);
    if Truthy(f.dateFrom) {
      where := where + ["date(data) >= date(?)"];
      args := args + [Text(f.dateFrom.value)];
    }

    PushDateTo(f, toNumber, where, args);
    if Truthy(f.dateTo) {
      where := where + ["date(data) <= date(?)"];
      args := args + [Text(f.dateTo.value)];
    }

    PushAdesao(f, toNumber, where, args);
    if Truthy(f.adesao) {
      where := where + ["adesao = ?"];
      args := args + [Text(f.adesao.value)];
    }

    PushOperador(f, toNumber, where, args);
    if Truthy(f.operador) {
      where := where + ["operador LIKE ?"];
      args := args + [Text("%" + f.operador.value + "%")];
    }

    PushGroup(f, toNumber, where, args);
    if Truthy(f.group) {
      where := where + ["grupo LIKE ?"];
      args := args + [Text("%" + f.group.value + "%")];
    }

    PushSeveridade(f, toNumber, where, args);
    if Truthy(f.severidade) {
      where := where + ["upper(severidade) LIKE upper(?)"];
      args := args + [Text("%" + f.severidade.value + "%")];
    }

    PushMinPoints(f, toNumber, where, args);
    if Truthy(f.minPoints) {
      where := where + ["pontos >= ?"];
      args := args + [Num(toNumber(f.minPoints.value))];
    }

    PushMaxPoints(f, toNumber, where, args);
    if Truthy(f.maxPoints) {
      where := where + ["pontos <= ?"];
      args := args + [Num(toNumber(f.maxPoints.value))];
    }
  }
}
