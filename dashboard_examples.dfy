/**
 * The dashboard's error column on a concrete row: a status written with
 * its accent, "NÃO CONFERE", which the scoring rules treat as an error.
 */
module DashboardExamples {
  import opened Text
  import opened Scoring
  import opened ScoringExamples
  import opened Worker
  import opened Dashboard

  const Accented: string := "NÃO CONFERE"

  lemma AccentedSqlUpper()
    ensures SqlUpper(Accented) == Accented
  {
  }

  /** `upper(status) LIKE '%NAO%'` fails on the accented status. */
  lemma SqlMissesAccentedNao()
    ensures !SqlIsError(Some(Accented))
  {
    AccentedSqlUpper();
    CharAbsent(Accented, "NAO", 1);
  }

  /** One row, scored 90 by the import. */
  const Audited: StoredRow := StoredRow("1", "t", "l", None, None, Some("Ana"), None, Some(Accented), None, Some("GRAVE"), 90)

  lemma OneRowErrors(r: StoredRow, isError: Option<string> -> bool)
    ensures GroupRow([r], r.operador, isError).errors == if isError(r.status) then 1 else 0
  {
    assert [r][..0] == [];
    assert ErrorsKey([r], r.operador, isError) == ErrorsKey([], r.operador, isError) + (if isError(r.status) then 1 else 0);
  }

  lemma AuditedScored()
    ensures Scored(Audited)
  {
    NaoConfereScores();
  }

  /** The query as written reports no error for a row the scoring rules count as one. */
  lemma SqlErrorsMissAccentedRow()
    ensures GroupRow([Audited], Some("Ana"), SqlIsError).errors == 0
    ensures GroupRow([Audited], Some("Ana"), IsError).errors == 1
  {
    SqlMissesAccentedNao();
    NaoConfereScores();
    OneRowErrors(Audited, SqlIsError);
    OneRowErrors(Audited, IsError);
  }
}
