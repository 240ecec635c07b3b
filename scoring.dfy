/**
 * The scoring rule of apps/worker/src/scoring.ts: the points a quality
 * check row is worth, from its status and its severity, and whether the
 * row is an error ("NÃO CONFERE").
 */
module Scoring {
  import opened Text

  /** `norm` of scoring.ts: trim, upper-case, strip accents. */
  function Norm(s: string): string {
    StripAccents(UpperStr(Trim(s)))
  }

  /** The text of a status or severity as the rules read it: a falsy value reads as "". */
  function Normalized(raw: Option<string>): string {
    if raw.Some? && raw.value != "" then Norm(raw.value) else ""
  }

  /** A conforming ("CONFERE", not "NÃO CONFERE") normalised status. */
  predicate Conforming(status: string) {
    Contains(status, "CONFERE") && !Contains(status, "NAO")
  }

  /** None of the four severity words occurs in the normalised severity. */
  predicate UnknownSeverity(sev: string) {
    !Contains(sev, "GRAVISSIMO") && !Contains(sev, "GRAVE") && !Contains(sev, "MEDIO") && !Contains(sev, "LEVE")
  }

  /** `pointsFor`. */
  function PointsFor(statusRaw: Option<string>, severidadeRaw: Option<string>): (p: int)
    ensures p in {80, 90, 95, 98, 100}
    ensures p == 100 <==> Conforming(Normalized(statusRaw))
    ensures !Conforming(Normalized(statusRaw)) && Contains(Normalized(severidadeRaw), "GRAVISSIMO") ==> p == 80
    ensures var sv := Normalized(severidadeRaw);
      !Conforming(Normalized(statusRaw)) && !Contains(sv, "GRAVISSIMO") && Contains(sv, "GRAVE") ==> p == 90
    ensures var sv := Normalized(severidadeRaw);
      !Conforming(Normalized(statusRaw)) && !Contains(sv, "GRAVISSIMO") && !Contains(sv, "GRAVE") && Contains(sv, "MEDIO") ==> p == 95
    ensures var sv := Normalized(severidadeRaw);
      (!Conforming(Normalized(statusRaw)) && !Contains(sv, "GRAVISSIMO") && !Contains(sv, "GRAVE") && !Contains(sv, "MEDIO")
       && Contains(sv, "LEVE")) ==> p == 98
    ensures !Conforming(Normalized(statusRaw)) && UnknownSeverity(Normalized(severidadeRaw)) ==> p == 90
    ensures statusRaw.None? && severidadeRaw.None? ==> p == 90
  {
    Rule(Normalized(statusRaw), Normalized(severidadeRaw))
  }

  /** The chain of tests `pointsFor` applies to the normalised status and severity. */
  function Rule(status: string, sev: string): int {
    if Contains(status, "CONFERE") && !Contains(status, "NAO") then 100
    // NÃO CONFERE: the severity decides
    else if Contains(sev, "GRAVISSIMO") then 80
    else if Contains(sev, "GRAVE") then 90
    else if Contains(sev, "MEDIO") then 95
    else if Contains(sev, "LEVE") then 98
    // no recognised severity: taken as GRAVE
    else 90
  }

  /** `isError`. */
  function IsError(statusRaw: Option<string>): (e: bool)
    ensures e ==> !Conforming(Normalized(statusRaw))
    ensures e ==> forall sev :: PointsFor(statusRaw, sev) < 100
  {
    var status := Normalized(statusRaw);
    Contains(status, "NAO") && Contains(status, "CONFERE")
  }

  // ----------------------------------------------------------- insensitivity

  /** The words the rules look for. */
  predicate SameWords(x: string, y: string) {
    && Contains(x, "CONFERE") == Contains(y, "CONFERE")
    && Contains(x, "NAO") == Contains(y, "NAO")
    && Contains(x, "GRAVISSIMO") == Contains(y, "GRAVISSIMO")
    && Contains(x, "GRAVE") == Contains(y, "GRAVE")
    && Contains(x, "MEDIO") == Contains(y, "MEDIO")
    && Contains(x, "LEVE") == Contains(y, "LEVE")
  }

  /** White space around a normalised text hides none of the words. */
  lemma SameWordsPadded(l: string, x: string, t: string)
    requires AllSpace(l) && AllSpace(t)
    ensures SameWords(l + x + t, x)
  {
    StatusWordsPadded(l, x, t);
    GraveWordsPadded(l, x, t);
    OtherWordsPadded(l, x, t);
  }

  lemma StatusWordsPadded(l: string, x: string, t: string)
    requires AllSpace(l) && AllSpace(t)
    ensures Contains(l + x + t, "CONFERE") == Contains(x, "CONFERE")
    ensures Contains(l + x + t, "NAO") == Contains(x, "NAO")
  {
    ContainsPadded(l, x, t, "CONFERE");
    ContainsPadded(l, x, t, "NAO");
  }

  lemma GraveWordsPadded(l: string, x: string, t: string)
    requires AllSpace(l) && AllSpace(t)
    ensures Contains(l + x + t, "GRAVISSIMO") == Contains(x, "GRAVISSIMO")
    ensures Contains(l + x + t, "GRAVE") == Contains(x, "GRAVE")
  {
    ContainsPadded(l, x, t, "GRAVISSIMO");
    ContainsPadded(l, x, t, "GRAVE");
  }

  lemma OtherWordsPadded(l: string, x: string, t: string)
    requires AllSpace(l) && AllSpace(t)
    ensures Contains(l + x + t, "MEDIO") == Contains(x, "MEDIO")
    ensures Contains(l + x + t, "LEVE") == Contains(x, "LEVE")
  {
    ContainsPadded(l, x, t, "MEDIO");
    ContainsPadded(l, x, t, "LEVE");
  }

  /** Both rules read their inputs only through the words they contain. */
  lemma RulesReadWords(st1: Option<string>, st2: Option<string>, sv1: Option<string>, sv2: Option<string>)
    requires SameWords(Normalized(st1), Normalized(st2)) && SameWords(Normalized(sv1), Normalized(sv2))
    ensures PointsFor(st1, sv1) == PointsFor(st2, sv2) && IsError(st1) == IsError(st2)
  {
  }

  lemma NormalizedSome(s: string)
    ensures Normalized(Some(s)) == Norm(s)
  {
  }

  /** White space around a status or severity does not change how it scores. */
  lemma PaddingIgnored(s: string, w1: string, w2: string, other: Option<string>)
    requires AllSpace(w1) && AllSpace(w2)
    ensures PointsFor(Some(w1 + s + w2), other) == PointsFor(Some(s), other)
    ensures PointsFor(other, Some(w1 + s + w2)) == PointsFor(other, Some(s))
    ensures IsError(Some(w1 + s + w2)) == IsError(Some(s))
  {
    TrimPadded(w1, s, w2);
    NormalizedSome(w1 + s + w2);
    NormalizedSome(s);
  }

  /** Letter case does not change how a status or severity scores. */
  lemma CaseIgnored(s: string, other: Option<string>)
    ensures PointsFor(Some(LowerStr(s)), other) == PointsFor(Some(s), other)
    ensures PointsFor(other, Some(LowerStr(s))) == PointsFor(other, Some(s))
    ensures IsError(Some(LowerStr(s))) == IsError(Some(s))
  {
    NormLower(s);
    NormalizedSome(LowerStr(s));
    NormalizedSome(s);
  }

  lemma NormLower(s: string)
    ensures Norm(LowerStr(s)) == Norm(s)
  {
    TrimMap(LowerChar, s);
    UpperLower(Trim(s));
  }

  /**
   * Stripping accents first leaves the normalisation as it was, up to
   * white space at either end (a combining mark next to a space can
   * uncover that space).
   */
  lemma NormStripped(s: string) returns (l: string, t: string)
    ensures AllSpace(l) && AllSpace(t)
    ensures Norm(s) == l + Norm(StripAccents(s)) + t
  {
    var l0, t0 := TrimSplit(s);
    var m := Trim(s);
    var y := StripAccents(m);
    StripAround(l0, m, t0);
    TrimPadded(l0, y, t0);
    assert Trim(StripAccents(s)) == Trim(y);
    var l1, t1 := TrimSplit(y);
    var ty := Trim(y);
    l, t := UpperStr(l1), UpperStr(t1);
    UpperAround(l1, ty, t1);
    StripAround(l, UpperStr(ty), t);
    StripUpperStrip(m);
  }

  /** Accents ("NÃO", "GRAVÍSSIMO", "MÉDIO") do not change how a status or severity scores. */
  lemma AccentsIgnored(s: string, other: Option<string>)
    ensures PointsFor(Some(StripAccents(s)), other) == PointsFor(Some(s), other)
    ensures PointsFor(other, Some(StripAccents(s))) == PointsFor(other, Some(s))
    ensures IsError(Some(StripAccents(s))) == IsError(Some(s))
  {
    var l, t := NormStripped(s);
    SameWordsPadded(l, Norm(StripAccents(s)), t);
    NormalizedSome(StripAccents(s));
    NormalizedSome(s);
    RulesReadWords(Some(StripAccents(s)), Some(s), other, other);
    RulesReadWords(other, other, Some(StripAccents(s)), Some(s));
  }
}
