/**
 * The record shapes shared by the worker and the web client
 * (apps/worker/src/types.ts, apps/web/src/lib/types.ts): a normalised
 * quality-check row with every field optional, and the dashboard filters.
 */
module Rows {
  import opened Text

  /** `NormalizedRow`: one quality check, every field optional (or null). */
  datatype NormalizedRow = NormalizedRow(
    campaign: Option<string>,
    client: Option<string>,
    group: Option<string>,      // esteira / grupo
    product: Option<string>,
    adesao: Option<string>,     // ADE
    operador: Option<string>,   // analista
    status: Option<string>,     // CONFERE / NÃO CONFERE
    manifesto: Option<string>,  // motivo
    severidade: Option<string>, // LEVE / GRAVE / GRAVISSIMO / MEDIO
    data: Option<string>)       // date as an ISO string

  /** `Filters`: the dashboard filters, every one an optional string. */
  datatype Filters = Filters(
    dateFrom: Option<string>,
    dateTo: Option<string>,
    adesao: Option<string>,
    operador: Option<string>,
    group: Option<string>,
    severidade: Option<string>,
    minPoints: Option<string>,
    maxPoints: Option<string>)

  /** JavaScript truthiness of an optional string: present and not "". */
  predicate Truthy(o: Option<string>) {
    o.Some? && o.value != ""
  }

  /** The filters with nothing set. */
  const NoFilters := Filters(None, None, None, None, None, None, None, None)

  /**
   * `clean` (apps/web/src/lib/excel.ts) and `norm` (apps/worker/src/index.ts):
   * a missing value stays missing, anything else is trimmed, and a value
   * that trims to nothing becomes missing.
   */
  function Clean(v: Option<string>): (r: Option<string>)
    ensures r.Some? <==> v.Some? && Trim(v.value) != ""
    ensures r.Some? ==> r.value == Trim(v.value) && r.value != "" && IsTrimmed(r.value)
  {
    if v.None? then None
    else
      var s := Trim(v.value);
      TrimTrimmed(v.value);
      if |s| > 0 then Some(s) else None
  }

  /** A cleaned value is truthy exactly when it is present. */
  lemma CleanTruthy(v: Option<string>)
    ensures Truthy(Clean(v)) <==> Clean(v).Some?
  {
  }

  lemma CleanIdempotent(v: Option<string>)
    ensures Clean(Clean(v)) == Clean(v)
  {
    if Clean(v).Some? {
      TrimFixed(Clean(v).value);
    }
  }

  /** White space around a value does not change what it cleans to. */
  lemma CleanPadded(w1: string, s: string, w2: string)
    requires AllSpace(w1) && AllSpace(w2)
    ensures Clean(Some(w1 + s + w2)) == Clean(Some(s))
  {
    TrimPadded(w1, s, w2);
  }
}
