/**
 * The scoring rule of apps/worker/src/scoring.ts on the words the
 * planilha actually carries: "CONFERE", "NÃO CONFERE", "GRAVE", "LEVE".
 * Each fact about a literal is kept in a lemma of its own.
 */
module ScoringExamples {
  import opened Text
  import opened Scoring

  /** A text that is already trimmed, upper-case and unaccented is its own normal form. */
  lemma NormFixed(s: string)
    requires IsTrimmed(s)
    requires forall i :: 0 <= i < |s| ==> UpperChar(s[i]) == s[i] && IsPlain(s[i])
    ensures Norm(s) == s
  {
    TrimFixed(s);
    assert UpperStr(s) == s;
    StripPlain(s);
  }

  lemma NormConfere()
    ensures Norm("CONFERE") == "CONFERE"
  {
    NormFixed("CONFERE");
  }

  lemma ConfereWords()
    ensures Normalized(Some("CONFERE")) == "CONFERE"
  {
    NormConfere();
  }

  lemma ConfereHasConfere()
    ensures Contains("CONFERE", "CONFERE")
  {
  }

  lemma ConfereLacksNao()
    ensures !Contains("CONFERE", "NAO")
  {
    CharAbsent("CONFERE", "NAO", 1);
  }

  lemma NormNaoConfere()
    ensures Norm("NAO CONFERE") == "NAO CONFERE"
  {
    NormFixed("NAO CONFERE");
  }

  lemma NaoConfereWords()
    ensures Normalized(Some("NAO CONFERE")) == "NAO CONFERE"
  {
    NormNaoConfere();
  }

  lemma NaoConfereHasNao()
    ensures Contains("NAO CONFERE", "NAO")
  {
  }

  lemma NaoConfereHasConfere()
    ensures Contains("NAO CONFERE", "CONFERE")
  {
  }

  /** Any string spelling N, Ã, O, space, C, O, N, F, E, R, E loses its tilde and nothing else. */
  lemma NaoStrippedAt(s: string)
    requires |s| == 11 && s[0] == 'N' && s[1] == 'Ã' && s[2] == 'O' && s[3] == ' '
    requires s[4] == 'C' && s[5] == 'O' && s[6] == 'N' && s[7] == 'F' && s[8] == 'E' && s[9] == 'R' && s[10] == 'E'
    ensures StripAccents(s) == "NAO CONFERE"
  {
    var t := "NAO CONFERE";
    forall i | 0 <= i < |s| ensures BaseChar(s[i]) == t[i] && !IsCombining(s[i]) {
      if i != 1 { BaseAscii(s[i]); }
    }
    StripNoMarks(s);
    assert MapChars(BaseChar, s) == t;
  }

  lemma NaoConfereStripped()
    ensures StripAccents("NÃO CONFERE") == "NAO CONFERE"
  {
    NaoStrippedAt("NÃO CONFERE");
  }

  lemma GraveWords()
    ensures Normalized(Some("GRAVE")) == "GRAVE"
  {
    NormFixed("GRAVE");
  }

  lemma GraveIsNotGravissimo()
    ensures !Contains("GRAVE", "GRAVISSIMO") && Contains("GRAVE", "GRAVE")
  {
    CharAbsent("GRAVE", "GRAVISSIMO", 5);
  }

  lemma LeveWords()
    ensures Normalized(Some("LEVE")) == "LEVE"
  {
    NormFixed("LEVE");
  }

  lemma LeveIsOnlyLeve()
    ensures UnknownSeverity("LEVE") == false && Contains("LEVE", "LEVE")
    ensures !Contains("LEVE", "GRAVISSIMO") && !Contains("LEVE", "GRAVE") && !Contains("LEVE", "MEDIO")
  {
    CharAbsent("LEVE", "GRAVISSIMO", 0);
    CharAbsent("LEVE", "GRAVE", 0);
    CharAbsent("LEVE", "MEDIO", 0);
  }

  /** A conforming row scores 100 whatever its severity. */
  lemma ConfereScores(sev: Option<string>)
    ensures PointsFor(Some("CONFERE"), sev) == 100 && !IsError(Some("CONFERE"))
  {
    ConfereWords();
    ConfereHasConfere();
    ConfereLacksNao();
  }

  /** "NÃO CONFERE" is an error, scored by its severity: GRAVE 90, LEVE 98, none 90. */
  lemma NaoConfereScores()
    ensures IsError(Some("NÃO CONFERE"))
    ensures PointsFor(Some("NÃO CONFERE"), Some("GRAVE")) == 90
    ensures PointsFor(Some("NÃO CONFERE"), Some("LEVE")) == 98
    ensures PointsFor(Some("NÃO CONFERE"), None) == 90
  {
    NaoConfereStripped();
    NaoConfereWords();
    NaoConfereHasNao();
    NaoConfereHasConfere();
    GraveWords();
    GraveIsNotGravissimo();
    LeveWords();
    LeveIsOnlyLeve();
    AccentsIgnored("NÃO CONFERE", Some("GRAVE"));
    AccentsIgnored("NÃO CONFERE", Some("LEVE"));
    AccentsIgnored("NÃO CONFERE", None);
  }

  lemma NaoConfereLower()
    ensures LowerStr("NÃO CONFERE") == "não confere"
  {
  }

  /** The hand-typed " não confere " scores exactly like "NAO CONFERE", for every severity. */
  lemma HandTypedStatus(sev: Option<string>)
    ensures PointsFor(Some(" não confere "), sev) == PointsFor(Some("NAO CONFERE"), sev)
    ensures IsError(Some(" não confere "))
  {
    assert " não confere " == " " + "não confere" + " ";
    PaddingIgnored("não confere", " ", " ", sev);
    NaoConfereLower();
    CaseIgnored("NÃO CONFERE", sev);
    NaoConfereStripped();
    AccentsIgnored("NÃO CONFERE", sev);
    NaoConfereScores();
  }
}
