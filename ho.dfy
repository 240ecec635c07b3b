/**
 * The home-office classifier of apps/worker/src/ho.ts: whether an analyst
 * keeps working from home, is on notice, or goes back to the office, from
 * their average quality (a fraction of 1) and their production rank.
 */
module Ho {
  datatype HoStatus = HO | ALERTA | PRESENCIAL

  /** `hoStatus`: two guarded tests, in this order. */
  function HoStatusOf(avgQuality: real, prodRank: int): (h: HoStatus)
    ensures h == HO <==> avgQuality >= 0.90 && prodRank <= 25
    ensures h == ALERTA <==> 0.88 <= avgQuality < 0.90
    ensures h == PRESENCIAL <==> avgQuality < 0.88 || (avgQuality >= 0.90 && prodRank > 25)
  {
    if avgQuality >= 0.90 && prodRank <= 25 then HO
    else if avgQuality >= 0.88 && avgQuality < 0.90 then ALERTA
    else PRESENCIAL
  }

  /** The band 0.88 to 0.90 is on notice whatever the rank. */
  lemma AlertaIgnoresRank(q: real, r1: int, r2: int)
    requires 0.88 <= q < 0.90
    ensures HoStatusOf(q, r1) == HoStatusOf(q, r2) == ALERTA
  {
  }

  /** Below 0.88 the rank does not help. */
  lemma LowQualityPresencial(q: real, r: int)
    requires q < 0.88
    ensures HoStatusOf(q, r) == PRESENCIAL
  {
  }

  /** Raising the quality or improving (lowering) the rank never moves an analyst from HO. */
  lemma HoMonotone(q1: real, r1: int, q2: real, r2: int)
    requires HoStatusOf(q1, r1) == HO && q1 <= q2 && r2 <= r1
    ensures HoStatusOf(q2, r2) == HO
  {
  }

  /** The boundary cases: 0.88 is on notice, (0.90, 25) stays home, (0.90, 26) goes back. */
  lemma Boundaries(r: int)
    ensures HoStatusOf(0.88, r) == ALERTA
    ensures HoStatusOf(0.90, 25) == HO
    ensures HoStatusOf(0.90, 26) == PRESENCIAL
    ensures HoStatusOf(0.8799, r) == PRESENCIAL
  {
  }
}
