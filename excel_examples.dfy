/**
 * Header keys on a concrete header: a combining acute accent (U+0301)
 * written in front of a space.  `normKey` as written removes the mark only
 * after trimming, so the space it uncovers stays in the key; a status
 * column headed that way is not read at all.
 */
module ExcelExamples {
  import opened Text
  import opened Excel

  const MarkThenX: string := "\U{0301} x"

  lemma MarkThenXLower()
    ensures LowerStr(MarkThenX) == MarkThenX
  {
    assert AllChars(IsLowerChar, MarkThenX) by {
      assert MarkThenX[0] == '\U{0301}' && MarkThenX[1] == ' ' && MarkThenX[2] == 'x';
    }
    LowerFixed(MarkThenX);
  }

  lemma MarkThenXCollapsed()
    ensures CollapseSpaces(MarkThenX) == MarkThenX
  {
    assert SingleSpaced(MarkThenX) by {
      assert MarkThenX[0] == '\U{0301}' && MarkThenX[1] == ' ' && MarkThenX[2] == 'x';
    }
    CollapseFixed(MarkThenX);
  }

  lemma MarkThenXStripped()
    ensures StripAccents(MarkThenX) == " x"
  {
    assert MarkThenX[1..] == " x";
    assert " x"[1..] == "x";
    assert "x"[1..] == "";
  }

  /** `normKey` as written turns the header into " x", with a leading space. */
  lemma AsWrittenKeepsSpace()
    ensures NormKeyAsWritten(MarkThenX) == " x"
  {
    assert IsTrimmed(MarkThenX) by {
      assert MarkThenX[0] == '\U{0301}' && MarkThenX[2] == 'x';
    }
    TrimFixed(MarkThenX);
    MarkThenXLower();
    MarkThenXCollapsed();
    MarkThenXStripped();
  }

  /** The key `normKey` as written gives is not trimmed. */
  lemma AsWrittenNotTrimmed()
    ensures !IsTrimmed(NormKeyAsWritten(MarkThenX))
  {
    AsWrittenKeepsSpace();
  }

  /** Normalising that key again changes it, so `normKey` as written is not idempotent. */
  lemma AsWrittenNotIdempotent()
    ensures NormKeyAsWritten(NormKeyAsWritten(MarkThenX)) != NormKeyAsWritten(MarkThenX)
  {
    AsWrittenKeepsSpace();
    AsWrittenSpaceX();
  }

  lemma AsWrittenSpaceX()
    ensures NormKeyAsWritten(" x") == "x"
  {
    assert Trim(" x") == "x" by {
      assert " x"[1..] == "x";
    }
    assert LowerStr("x") == "x";
    assert "x"[1..] == "";
    assert CollapseSpaces("x") == "x";
    assert StripAccents("x") == "x";
  }

  /** A status column whose header starts with a combining mark. */
  const MarkThenStatus: string := "\U{0301} Status"

  /** `h` is a combining acute, a space, then "status" with its first letter `first`. */
  predicate MarkedStatus(h: string, first: char) {
    |h| == 8 && h[0] == '\U{0301}' && h[1] == ' ' && h[2] == first && h[3] == 't'
    && h[4] == 'a' && h[5] == 't' && h[6] == 'u' && h[7] == 's'
  }

  lemma MarkedStatusLower(h: string)
    requires MarkedStatus(h, 'S')
    ensures Trim(h) == h && MarkedStatus(LowerStr(h), 's') && CollapseSpaces(LowerStr(h)) == LowerStr(h)
  {
    assert IsTrimmed(h);
    TrimFixed(h);
    var l := LowerStr(h);
    assert l[2] == 's';
    MarkedStatusCollapsed(l);
  }

  lemma MarkedStatusCollapsed(l: string)
    requires MarkedStatus(l, 's')
    ensures CollapseSpaces(l) == l
  {
    assert SingleSpaced(l) by {
      forall i | 0 <= i < |l| && IsSpace(l[i]) ensures i == 1 {
      }
    }
    CollapseFixed(l);
  }

  lemma MarkedStatusStrip(l: string)
    requires MarkedStatus(l, 's')
    ensures StripAccents(l) == " status"
  {
    var t := l[1..];
    forall i | 0 <= i < |t| ensures IsPlain(t[i]) {
      BaseAscii(t[i]);
    }
    StripPlain(t);
    assert StripAccents(l) == StripAccents(t);
    assert t == " status";
  }

  /** `normKey` as written on a header spelled like `MarkThenStatus`. */
  lemma StatusKeyAt(h: string)
    requires MarkedStatus(h, 'S')
    ensures NormKeyAsWritten(h) == " status"
  {
    MarkedStatusLower(h);
    MarkedStatusStrip(LowerStr(h));
  }

  /** `normKey` as written turns "\u0301 Status" into " status", which no alias reads. */
  lemma StatusKeyAsWritten()
    ensures NormKeyAsWritten(MarkThenStatus) == " status"
  {
    StatusKeyAt(MarkThenStatus);
  }

  /** A header already in key form is its own key under `normKey` as written. */
  lemma AsWrittenKeyFixed(k: string)
    requires IsKey(k)
    ensures NormKeyAsWritten(k) == k
  {
    TrimFixed(k);
    LowerFixed(k);
    CollapseFixed(k);
    StripPlain(k);
  }

  /**
   * A line with no header whose key is "status atendimento" or "status"
   * has no status once mapped by its headers, so the filter drops it.
   */
  lemma NoStatusHeader(r: Record, toISO: string -> Option<string>)
    requires forall j :: 0 <= j < |r| ==> NormKeyAsWritten(r[j].0) != "status" && NormKeyAsWritten(r[j].0) != "status atendimento"
    ensures HeaderRow(r, toISO).status.None?
    ensures !IsRealRecord(HeaderRow(r, toISO))
  {
    KeyMapLookup(r, "status");
    KeyMapLookup(r, "status atendimento");
  }

  /**
   * A line whose status column is headed "\u0301 Status" loses its status,
   * whatever its cells hold, even next to a filled column with any other
   * key such as "operador".
   */
  lemma MarkedStatusDropped(h: string, other: string, v: Cell, op: Cell, toISO: string -> Option<string>)
    requires MarkedStatus(h, 'S') && IsKey(other) && other != "status" && other != "status atendimento"
    ensures HeaderRow([(h, v), (other, op)], toISO).status.None?
    ensures !IsRealRecord(HeaderRow([(h, v), (other, op)], toISO))
  {
    var r: Record := [(h, v), (other, op)];
    StatusKeyAt(h);
    AsWrittenKeyFixed(other);
    NoStatusHeader(r, toISO);
  }

  lemma MarkedStatusStripFirst(h: string)
    requires MarkedStatus(h, 'S')
    ensures Trim(StripAccents(h)) == h[2..]
  {
    var t := h[1..];
    forall i | 0 <= i < |t| ensures !IsCombining(t[i]) && BaseChar(t[i]) == t[i] {
      BaseAscii(t[i]);
    }
    StripNoMarks(t);
    assert MapChars(BaseChar, t) == t;
    assert StripAccents(h) == t;
    var u := t[1..];
    assert t[0] == ' ' && u == h[2..];
    assert TrimStart(t) == TrimStart(u) == u;
    assert TrimEnd(u) == u;
  }

  lemma StatusWordLower(u: string)
    requires |u| == 6 && u[0] == 'S' && u[1] == 't' && u[2] == 'a' && u[3] == 't' && u[4] == 'u' && u[5] == 's'
    ensures CollapseSpaces(LowerStr(u)) == "status"
  {
    var w := LowerStr(u);
    assert w[0] == 's';
    assert w == "status";
    StatusCollapsed(w);
  }

  lemma StatusCollapsed(w: string)
    requires w == "status"
    ensures CollapseSpaces(w) == w
  {
    assert SingleSpaced(w) by {
      forall i | 0 <= i < |w| ensures !IsSpace(w[i]) {
      }
    }
    CollapseFixed(w);
  }

  /** With the mark stripped first, the same header is read as "status". */
  lemma StatusKeyRepaired(h: string)
    requires MarkedStatus(h, 'S')
    ensures NormKey(h) == "status"
  {
    MarkedStatusStripFirst(h);
    StatusWordLower(h[2..]);
  }

  /** Stripping the mark first gives the key "x". */
  lemma CorrectedDropsSpace()
    ensures NormKey(MarkThenX) == "x"
  {
    MarkThenXStripped();
    assert Trim(" x") == "x" by {
      assert " x"[1..] == "x";
    }
    assert LowerStr("x") == "x";
    assert "x"[1..] == "";
    assert CollapseSpaces("x") == "x";
  }
}
