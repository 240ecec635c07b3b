/**
 * Characters and strings as the report tool's JavaScript code sees them:
 * the white-space set of `String.prototype.trim` and of the regular
 * expression class `\s`, upper/lower case mapping, accent stripping
 * (canonical decomposition followed by removal of the combining marks
 * U+0300..U+036F), `includes` and `Array.prototype.join`.
 *
 * Case mapping and decomposition are given on a fixed character table:
 * ASCII letters, the letters of Latin-1 (U+00C0..U+00FF) and Ÿ (U+0178),
 * the upper case of ÿ.
 */
module Text {

  datatype Option<T> = None | Some(value: T) {
    function GetOr(default: T): T {
      if Some? then value else default
    }
  }

  /** The outcome of an operation that can fail with a message. */
  datatype Result<T> = Ok(value: T) | Err(error: string)

  // ---------------------------------------------------------------- characters

  /** The characters JavaScript treats as white space (`trim`, `\s`). */
  predicate IsSpace(c: char) {
    || c == ' ' || c == '\t' || c == '\n' || c == '\r'
    || c == '\U{000B}' || c == '\U{000C}' || c == '\U{00A0}' || c == '\U{1680}'
    || ('\U{2000}' <= c <= '\U{200A}')
    || c == '\U{2028}' || c == '\U{2029}' || c == '\U{202F}' || c == '\U{205F}'
    || c == '\U{3000}' || c == '\U{FEFF}'
  }

  /** The block of combining diacritical marks removed after decomposition. */
  predicate IsCombining(c: char) {
    '\U{0300}' <= c <= '\U{036F}'
  }

  function UpperChar(c: char): (u: char)
    ensures IsSpace(u) == IsSpace(c) && IsCombining(u) == IsCombining(c)
  {
    if 'a' <= c <= 'z' then (c as int - 32) as char
    else if '\U{00E0}' <= c <= '\U{00FE}' && c != '\U{00F7}' then (c as int - 32) as char
    else if c == '\U{00FF}' then '\U{0178}'
    else c
  }

  function LowerChar(c: char): (l: char)
    ensures IsSpace(l) == IsSpace(c) && IsCombining(l) == IsCombining(c)
    ensures UpperChar(l) == UpperChar(c)
  {
    if 'A' <= c <= 'Z' then (c as int + 32) as char
    else if '\U{00C0}' <= c <= '\U{00DE}' && c != '\U{00D7}' then (c as int + 32) as char
    else if c == '\U{0178}' then '\U{00FF}'
    else c
  }

  /**
   * The base letter of a precomposed Latin-1 letter (its canonical
   * decomposition without the combining mark); every other character is
   * its own base.  Letters without a decomposition (Æ, Ð, Ø, Þ, ß, ...)
   * stay as they are.
   */
  function BaseChar(c: char): (b: char)
    ensures IsSpace(b) == IsSpace(c) && IsCombining(b) == IsCombining(c)
  {
    if '\U{00C0}' <= c <= '\U{00C5}' then 'A'
    else if c == '\U{00C7}' then 'C'
    else if '\U{00C8}' <= c <= '\U{00CB}' then 'E'
    else if '\U{00CC}' <= c <= '\U{00CF}' then 'I'
    else if c == '\U{00D1}' then 'N'
    else if '\U{00D2}' <= c <= '\U{00D6}' then 'O'
    else if '\U{00D9}' <= c <= '\U{00DC}' then 'U'
    else if c == '\U{00DD}' || c == '\U{0178}' then 'Y'
    else if '\U{00E0}' <= c <= '\U{00E5}' then 'a'
    else if c == '\U{00E7}' then 'c'
    else if '\U{00E8}' <= c <= '\U{00EB}' then 'e'
    else if '\U{00EC}' <= c <= '\U{00EF}' then 'i'
    else if c == '\U{00F1}' then 'n'
    else if '\U{00F2}' <= c <= '\U{00F6}' then 'o'
    else if '\U{00F9}' <= c <= '\U{00FC}' then 'u'
    else if c == '\U{00FD}' || c == '\U{00FF}' then 'y'
    else c
  }

  /** A character that accent stripping leaves unchanged. */
  predicate IsPlain(c: char) {
    !IsCombining(c) && BaseChar(c) == c
  }

  // ------------------------------------------------------------ whole strings

  predicate AllSpace(s: string) {
    forall i :: 0 <= i < |s| ==> IsSpace(s[i])
  }

  predicate NoSpace(s: string) {
    forall i :: 0 <= i < |s| ==> !IsSpace(s[i])
  }

  /** Neither end of the string is white space. */
  predicate IsTrimmed(s: string) {
    s == [] || (!IsSpace(s[0]) && !IsSpace(s[|s| - 1]))
  }

  function MapChars(f: char -> char, s: string): (r: string)
    ensures |r| == |s| && forall i :: 0 <= i < |s| ==> r[i] == f(s[i])
  {
    seq(|s|, i requires 0 <= i < |s| => f(s[i]))
  }

  /** `toUpperCase` on the character table above. */
  function UpperStr(s: string): string {
    MapChars(UpperChar, s)
  }

  /** `toLowerCase` on the character table above. */
  function LowerStr(s: string): string {
    MapChars(LowerChar, s)
  }

  /** `normalize('NFD').replace(/[̀-ͯ]/g, '')`. */
  function StripAccents(s: string): (r: string)
    ensures |r| <= |s|
  {
    if s == [] then []
    else (if IsCombining(s[0]) then [] else [BaseChar(s[0])]) + StripAccents(s[1..])
  }

  function TrimStart(s: string): (r: string)
    ensures |r| <= |s|
  {
    if |s| > 0 && IsSpace(s[0]) then TrimStart(s[1..]) else s
  }

  function TrimEnd(s: string): (r: string)
    ensures |r| <= |s|
  {
    if |s| > 0 && IsSpace(s[|s| - 1]) then TrimEnd(s[..|s| - 1]) else s
  }

  /** `String.prototype.trim`. */
  function Trim(s: string): string {
    TrimEnd(TrimStart(s))
  }

  /** `replace(/\s+/g, ' ')`: every maximal run of white space becomes one space. */
  function CollapseSpaces(s: string): string
    decreases |s|
  {
    if s == [] then []
    else if IsSpace(s[0]) then [' '] + CollapseSpaces(TrimStart(s[1..]))
    else [s[0]] + CollapseSpaces(s[1..])
  }

  /** Only plain `' '` is used as white space, and never twice in a row. */
  predicate SingleSpaced(s: string) {
    forall i :: 0 <= i < |s| && IsSpace(s[i]) ==> s[i] == ' ' && (i + 1 < |s| ==> !IsSpace(s[i + 1]))
  }

  predicate StartsWith(s: string, p: string) {
    |p| <= |s| && s[..|p|] == p
  }

  /** `String.prototype.includes`. */
  predicate Contains(s: string, p: string) {
    StartsWith(s, p) || (|s| > 0 && Contains(s[1..], p))
  }

  /** `Array.prototype.join`. */
  function Join(parts: seq<string>, sep: string): string {
    if parts == [] then ""
    else if |parts| == 1 then parts[0]
    else parts[0] + sep + Join(parts[1..], sep)
  }

  // ------------------------------------------------------------------ lemmas

  /** The needle `p` occurs in `s` starting at index `i`. */
  predicate OccursAt(s: string, p: string, i: int) {
    0 <= i <= |s| - |p| && s[i..i + |p|] == p
  }

  lemma {:induction false} ContainsAt(s: string, p: string)
    ensures Contains(s, p) <==> exists i :: OccursAt(s, p, i)
  {
    if StartsWith(s, p) {
      assert OccursAt(s, p, 0);
    } else if |s| > 0 {
      ContainsAt(s[1..], p);
      if Contains(s[1..], p) {
        var i :| OccursAt(s[1..], p, i);
        assert s[i + 1..i + 1 + |p|] == s[1..][i..i + |p|];
        assert OccursAt(s, p, i + 1);
      } else {
        forall i | OccursAt(s, p, i) ensures false {
          if i > 0 {
            assert s[1..][i - 1..i - 1 + |p|] == p by {
              forall k | 0 <= k < |p| ensures s[1..][i - 1..i - 1 + |p|][k] == p[k] {
                assert s[i..i + |p|][k] == s[i + k];
              }
            }
            assert OccursAt(s[1..], p, i - 1);
          }
        }
      }
    } else {
      assert forall i :: !OccursAt(s, p, i);
    }
  }

  /** A needle with a character the text lacks does not occur in it. */
  lemma CharAbsent(s: string, p: string, k: nat)
    requires k < |p| && p[k] !in s
    ensures !Contains(s, p)
  {
    ContainsAt(s, p);
    assert forall i :: !OccursAt(s, p, i);
  }

  /**
   * White space around a string never creates or hides an occurrence of
   * a needle that holds no white space.
   */
  lemma ContainsPadded(l: string, x: string, t: string, p: string)
    requires AllSpace(l) && AllSpace(t) && p != [] && NoSpace(p)
    ensures Contains(l + x + t, p) == Contains(x, p)
  {
    var s := l + x + t;
    ContainsAt(s, p);
    ContainsAt(x, p);
    if Contains(s, p) {
      var i :| OccursAt(s, p, i);
      assert s[i] == p[0];
      assert s[i + |p| - 1] == p[|p| - 1];
      assert |l| <= i;
      assert i + |p| <= |l| + |x|;
      var j := i - |l|;
      assert x[j..j + |p|] == p by {
        forall k | 0 <= k < |p| ensures x[j..j + |p|][k] == p[k] {
          assert s[i..i + |p|][k] == s[i + k];
        }
      }
      assert OccursAt(x, p, j);
    }
    if Contains(x, p) {
      var j :| OccursAt(x, p, j);
      assert s[j + |l|..j + |l| + |p|] == p by {
        forall k | 0 <= k < |p| ensures s[j + |l|..j + |l| + |p|][k] == p[k] {
          assert x[j..j + |p|][k] == x[j + k];
        }
      }
      assert OccursAt(s, p, j + |l|);
    }
  }

  lemma {:induction false} StripAppend(a: string, b: string)
    ensures StripAccents(a + b) == StripAccents(a) + StripAccents(b)
  {
    if a != [] {
      assert (a + b)[1..] == a[1..] + b;
      StripAppend(a[1..], b);
    } else {
      assert a + b == b;
    }
  }

  lemma SpacePlain(c: char)
    requires IsSpace(c)
    ensures IsPlain(c)
  {
    if c < '\U{00C0}' {
      BaseAscii(c);
    }
  }

  lemma StripSpaces(s: string)
    requires AllSpace(s)
    ensures StripAccents(s) == s
  {
    forall i | 0 <= i < |s| ensures IsPlain(s[i]) {
      SpacePlain(s[i]);
    }
    StripPlain(s);
  }

  /** A string of plain characters is left unchanged by accent stripping. */
  lemma {:induction false} StripPlain(s: string)
    requires forall i :: 0 <= i < |s| ==> IsPlain(s[i])
    ensures StripAccents(s) == s
  {
    if s != [] {
      StripPlain(s[1..]);
    }
  }

  /** Without combining marks, accent stripping maps every character to its base. */
  lemma {:induction false} StripNoMarks(s: string)
    requires forall i :: 0 <= i < |s| ==> !IsCombining(s[i])
    ensures StripAccents(s) == MapChars(BaseChar, s)
  {
    if s != [] {
      StripNoMarks(s[1..]);
      assert MapChars(BaseChar, s) == [BaseChar(s[0])] + MapChars(BaseChar, s[1..]);
    }
  }

  /** Every character below U+00C0 is plain. */
  lemma BaseAscii(c: char)
    requires c < '\U{00C0}'
    ensures BaseChar(c) == c && !IsCombining(c)
  {
  }

  /** Lower-casing forgets a preceding upper-casing. */
  lemma LowerOfUpper(c: char)
    ensures LowerChar(UpperChar(c)) == LowerChar(c)
  {
  }

  /** On the small Latin-1 letters, taking the base letter commutes with upper-casing. */
  lemma UpperBaseSmall(c: char)
    requires '\U{00E0}' <= c <= '\U{00FF}'
    ensures BaseChar(UpperChar(c)) == UpperChar(BaseChar(c))
  {
  }

  lemma LowerUpperChar(c: char)
    ensures LowerChar(UpperChar(c)) == LowerChar(c)
    ensures LowerChar(BaseChar(UpperChar(c))) == LowerChar(BaseChar(c))
    ensures IsCombining(UpperChar(c)) == IsCombining(c)
  {
    LowerOfUpper(c);
    if '\U{00E0}' <= c <= '\U{00FF}' {
      UpperBaseSmall(c);
      LowerOfUpper(BaseChar(c));
    } else if 'a' <= c <= 'z' {
      BaseAscii(c);
      BaseAscii(UpperChar(c));
    } else {
      assert UpperChar(c) == c;
    }
  }

  lemma BaseUpperBase(c: char)
    ensures BaseChar(UpperChar(BaseChar(c))) == BaseChar(UpperChar(c))
  {
  }

  lemma StripOne(c: char)
    ensures StripAccents([c]) == if IsCombining(c) then [] else [BaseChar(c)]
  {
    var e: string := [];
    assert [c][1..] == e && StripAccents(e) == e;
  }

  /** Accent stripping leaves only plain characters. */
  lemma {:induction false} StrippedPlain(s: string)
    ensures forall i :: 0 <= i < |StripAccents(s)| ==> IsPlain(StripAccents(s)[i])
  {
    if s != [] {
      StrippedPlain(s[1..]);
    }
  }

  lemma StripIdempotent(s: string)
    ensures StripAccents(StripAccents(s)) == StripAccents(s)
  {
    StrippedPlain(s);
    StripPlain(StripAccents(s));
  }

  /** Accent stripping leaves white space around a string alone. */
  lemma StripAround(l: string, x: string, t: string)
    requires AllSpace(l) && AllSpace(t)
    ensures StripAccents(l + x + t) == l + StripAccents(x) + t
  {
    assert l + x + t == l + (x + t);
    StripAppend(l, x + t);
    StripAppend(x, t);
    StripSpaces(l);
    StripSpaces(t);
  }

  lemma UpperAround(l: string, x: string, t: string)
    ensures UpperStr(l + x + t) == UpperStr(l) + UpperStr(x) + UpperStr(t)
    ensures AllSpace(l) ==> AllSpace(UpperStr(l))
  {
  }

  lemma MapAppend(f: char -> char, a: string, b: string)
    ensures MapChars(f, a + b) == MapChars(f, a) + MapChars(f, b)
  {
  }

  /** Stripping accents before or after upper-casing gives the same letters. */
  lemma {:induction false} StripUpperStrip(s: string)
    ensures StripAccents(UpperStr(StripAccents(s))) == StripAccents(UpperStr(s))
  {
    if s != [] {
      var c := s[0];
      StripUpperStrip(s[1..]);
      var head := if IsCombining(c) then [] else [BaseChar(c)];
      calc {
        StripAccents(UpperStr(StripAccents(s)));
        StripAccents(UpperStr(head + StripAccents(s[1..])));
        { MapAppend(UpperChar, head, StripAccents(s[1..])); }
        StripAccents(UpperStr(head) + UpperStr(StripAccents(s[1..])));
        { StripAppend(UpperStr(head), UpperStr(StripAccents(s[1..]))); }
        StripAccents(UpperStr(head)) + StripAccents(UpperStr(StripAccents(s[1..])));
        { StripOne(UpperChar(c));
          BaseUpperBase(c);
          if !IsCombining(c) { StripOne(UpperChar(BaseChar(c))); }
          assert UpperStr([c]) == [UpperChar(c)]; }
        StripAccents(UpperStr([c])) + StripAccents(UpperStr(s[1..]));
        { StripAppend(UpperStr([c]), UpperStr(s[1..])); }
        StripAccents(UpperStr([c]) + UpperStr(s[1..]));
        { MapAppend(UpperChar, [c], s[1..]); assert [c] + s[1..] == s; }
        StripAccents(UpperStr(s));
      }
    }
  }

  /** Lower-casing after accent stripping and upper-casing forgets the upper-casing. */
  lemma LowerStripAppend(a: string, b: string)
    ensures LowerStr(StripAccents(a + b)) == LowerStr(StripAccents(a)) + LowerStr(StripAccents(b))
  {
    StripAppend(a, b);
    MapAppend(LowerChar, StripAccents(a), StripAccents(b));
  }

  lemma LowerStripUpperOne(c: char)
    ensures LowerStr(StripAccents(UpperStr([c]))) == LowerStr(StripAccents([c]))
  {
    LowerUpperChar(c);
    StripOne(c);
    assert UpperStr([c]) == [UpperChar(c)];
    StripOne(UpperChar(c));
  }

  lemma {:induction false} LowerStripUpper(s: string)
    ensures LowerStr(StripAccents(UpperStr(s))) == LowerStr(StripAccents(s))
  {
    if s != [] {
      var c := s[0];
      LowerStripUpper(s[1..]);
      LowerStripUpperOne(c);
      MapAppend(UpperChar, [c], s[1..]);
      assert [c] + s[1..] == s;
      LowerStripAppend(UpperStr([c]), UpperStr(s[1..]));
      LowerStripAppend([c], s[1..]);
    }
  }

  lemma {:induction false} TrimStartPadded(w: string, s: string)
    requires AllSpace(w)
    ensures TrimStart(w + s) == TrimStart(s)
  {
    if w != [] {
      assert (w + s)[1..] == w[1..] + s;
      TrimStartPadded(w[1..], s);
    } else {
      assert w + s == s;
    }
  }

  lemma {:induction false} TrimEndPadded(s: string, w: string)
    requires AllSpace(w)
    ensures TrimEnd(s + w) == TrimEnd(s)
  {
    if w != [] {
      var n := |w| - 1;
      assert (s + w)[..|s + w| - 1] == s + w[..n];
      TrimEndPadded(s, w[..n]);
    } else {
      assert s + w == s;
    }
  }

  lemma {:induction false} TrimStartAppend(s: string, t: string)
    requires !AllSpace(s)
    ensures TrimStart(s + t) == TrimStart(s) + t
  {
    if IsSpace(s[0]) {
      assert (s + t)[1..] == s[1..] + t;
      assert !AllSpace(s[1..]) by {
        var i :| 0 <= i < |s| && !IsSpace(s[i]);
        assert s[1..][i - 1] == s[i];
      }
      TrimStartAppend(s[1..], t);
    }
  }

  /** Trimming ignores white space added around the string. */
  lemma TrimPadded(w1: string, s: string, w2: string)
    requires AllSpace(w1) && AllSpace(w2)
    ensures Trim(w1 + s + w2) == Trim(s)
  {
    assert w1 + s + w2 == w1 + (s + w2);
    TrimStartPadded(w1, s + w2);
    if AllSpace(s) {
      assert AllSpace(s + w2);
      TrimStartAll(s + w2);
      TrimStartAll(s);
    } else {
      TrimStartAppend(s, w2);
      TrimEndPadded(TrimStart(s), w2);
    }
  }

  lemma TrimStartAll(s: string)
    requires AllSpace(s)
    ensures TrimStart(s) == []
  {
  }

  /** `TrimStart` removes a prefix of white space and stops at a non-space. */
  lemma {:induction false} TrimStartShape(s: string)
    ensures TrimStart(s) == s[|s| - |TrimStart(s)|..]
    ensures AllSpace(s[..|s| - |TrimStart(s)|])
    ensures TrimStart(s) == [] || !IsSpace(TrimStart(s)[0])
  {
    if |s| > 0 && IsSpace(s[0]) {
      TrimStartShape(s[1..]);
    }
  }

  /** `TrimEnd` removes a suffix of white space and stops at a non-space. */
  lemma {:induction false} TrimEndShape(s: string)
    ensures TrimEnd(s) == s[..|TrimEnd(s)|]
    ensures AllSpace(s[|TrimEnd(s)|..])
    ensures TrimEnd(s) == [] || !IsSpace(TrimEnd(s)[|TrimEnd(s)| - 1])
  {
    if |s| > 0 && IsSpace(s[|s| - 1]) {
      TrimEndShape(s[..|s| - 1]);
    }
  }

  /** Every string is its trimmed part with white space on either side. */
  lemma TrimSplit(s: string) returns (l: string, t: string)
    ensures AllSpace(l) && AllSpace(t) && s == l + Trim(s) + t
  {
    var a := TrimStart(s);
    TrimStartShape(s);
    TrimEndShape(a);
    l := s[..|s| - |a|];
    t := a[|Trim(s)|..];
    assert s == l + a;
  }

  lemma TrimTrimmed(s: string)
    ensures IsTrimmed(Trim(s))
  {
    var a := TrimStart(s);
    var r := TrimEnd(a);
    TrimStartShape(s);
    TrimEndShape(a);
    if r != [] {
      assert r[0] == a[0];
    }
  }

  /** A trimmed string is its own trim. */
  lemma TrimFixed(s: string)
    requires IsTrimmed(s)
    ensures Trim(s) == s
  {
  }

  lemma TrimIdempotent(s: string)
    ensures Trim(Trim(s)) == Trim(s)
  {
    TrimTrimmed(s);
    TrimFixed(Trim(s));
  }

  /** A character map that keeps white space apart commutes with trimming. */
  lemma {:induction false} TrimStartMap(f: char -> char, s: string)
    requires forall c :: IsSpace(f(c)) == IsSpace(c)
    ensures TrimStart(MapChars(f, s)) == MapChars(f, TrimStart(s))
  {
    if |s| > 0 && IsSpace(s[0]) {
      assert MapChars(f, s)[1..] == MapChars(f, s[1..]);
      TrimStartMap(f, s[1..]);
    }
  }

  lemma {:induction false} TrimEndMap(f: char -> char, s: string)
    requires forall c :: IsSpace(f(c)) == IsSpace(c)
    ensures TrimEnd(MapChars(f, s)) == MapChars(f, TrimEnd(s))
  {
    if |s| > 0 && IsSpace(s[|s| - 1]) {
      assert MapChars(f, s)[..|s| - 1] == MapChars(f, s[..|s| - 1]);
      TrimEndMap(f, s[..|s| - 1]);
    }
  }

  lemma TrimMap(f: char -> char, s: string)
    requires forall c :: IsSpace(f(c)) == IsSpace(c)
    ensures Trim(MapChars(f, s)) == MapChars(f, Trim(s))
  {
    TrimStartMap(f, s);
    TrimEndMap(f, TrimStart(s));
  }

  lemma UpperLower(s: string)
    ensures UpperStr(LowerStr(s)) == UpperStr(s)
  {
  }

  // ------------------------------------------------------ character classes

  /** Every character of `s` satisfies `P`. */
  predicate AllChars(P: char -> bool, s: string) {
    forall i :: 0 <= i < |s| ==> P(s[i])
  }

  /** A character that lower-casing leaves unchanged. */
  predicate IsLowerChar(c: char) {
    LowerChar(c) == c
  }

  lemma LowerCharProps(c: char)
    ensures IsLowerChar(LowerChar(c))
    ensures IsPlain(c) ==> IsPlain(LowerChar(c))
  {
  }

  lemma LowerFixed(s: string)
    requires AllChars(IsLowerChar, s)
    ensures LowerStr(s) == s
  {
  }

  lemma LowerKeeps(s: string)
    requires AllChars(IsPlain, s)
    ensures AllChars(IsPlain, LowerStr(s)) && AllChars(IsLowerChar, LowerStr(s))
  {
    forall i | 0 <= i < |s| ensures IsPlain(LowerStr(s)[i]) && IsLowerChar(LowerStr(s)[i]) {
      LowerCharProps(s[i]);
    }
  }

  lemma LowerTrimmed(s: string)
    requires IsTrimmed(s)
    ensures IsTrimmed(LowerStr(s))
  {
  }

  /** The trimmed part of a string is a piece of it, so it keeps any character property. */
  lemma TrimKeeps(P: char -> bool, s: string)
    requires AllChars(P, s)
    ensures AllChars(P, Trim(s))
  {
    var l, t := TrimSplit(s);
    forall i | 0 <= i < |Trim(s)| ensures P(Trim(s)[i]) {
      assert Trim(s)[i] == s[|l| + i];
    }
  }

  // ---------------------------------------------------- collapsing white space

  lemma TrimStartKeeps(P: char -> bool, s: string)
    requires AllChars(P, s)
    ensures AllChars(P, TrimStart(s))
  {
    TrimStartShape(s);
    var k := |s| - |TrimStart(s)|;
    forall i | 0 <= i < |TrimStart(s)| ensures P(TrimStart(s)[i]) {
      assert TrimStart(s)[i] == s[k + i];
    }
  }

  /** Collapsing white space only adds plain spaces. */
  lemma {:induction false} CollapseKeeps(P: char -> bool, s: string)
    requires P(' ') && AllChars(P, s)
    ensures AllChars(P, CollapseSpaces(s))
    decreases |s|
  {
    if s != [] {
      assert AllChars(P, s[1..]) by {
        forall i | 0 <= i < |s[1..]| ensures P(s[1..][i]) {
          assert s[1..][i] == s[i + 1];
        }
      }
      if IsSpace(s[0]) {
        var t := TrimStart(s[1..]);
        TrimStartKeeps(P, s[1..]);
        CollapseKeeps(P, t);
        assert CollapseSpaces(s) == [' '] + CollapseSpaces(t);
      } else {
        CollapseKeeps(P, s[1..]);
        assert CollapseSpaces(s) == [s[0]] + CollapseSpaces(s[1..]);
      }
    }
  }

  /** The result of collapsing starts with the first non-space character it kept. */
  lemma CollapseHead(s: string)
    requires s != [] && !IsSpace(s[0])
    ensures CollapseSpaces(s) != [] && CollapseSpaces(s)[0] == s[0]
  {
  }

  /** After collapsing, white space is a single plain space between non-spaces. */
  lemma {:induction false} CollapseSingle(s: string)
    ensures SingleSpaced(CollapseSpaces(s))
    decreases |s|
  {
    if s != [] {
      if IsSpace(s[0]) {
        var t := TrimStart(s[1..]);
        TrimStartShape(s[1..]);
        CollapseSingle(t);
        var r := CollapseSpaces(t);
        if r != [] {
          CollapseHead(t);
        }
        forall i | 0 <= i < |[' '] + r| && IsSpace(([' '] + r)[i])
          ensures ([' '] + r)[i] == ' ' && (i + 1 < |[' '] + r| ==> !IsSpace(([' '] + r)[i + 1]))
        {
          if i > 0 {
            assert ([' '] + r)[i] == r[i - 1];
          }
        }
      } else {
        CollapseSingle(s[1..]);
        var r := CollapseSpaces(s[1..]);
        forall i | 0 <= i < |[s[0]] + r| && IsSpace(([s[0]] + r)[i])
          ensures ([s[0]] + r)[i] == ' ' && (i + 1 < |[s[0]] + r| ==> !IsSpace(([s[0]] + r)[i + 1]))
        {
          assert i > 0;
          assert ([s[0]] + r)[i] == r[i - 1];
        }
      }
    }
  }

  /** A string that ends in a non-space ends in the same character once collapsed. */
  lemma {:induction false} CollapseLast(s: string)
    requires s != [] && !IsSpace(s[|s| - 1])
    ensures CollapseSpaces(s) != [] && CollapseSpaces(s)[|CollapseSpaces(s)| - 1] == s[|s| - 1]
    decreases |s|
  {
    if IsSpace(s[0]) {
      var u := s[1..];
      var t := TrimStart(u);
      TrimStartShape(u);
      assert u[|u| - 1] == s[|s| - 1];
      if t == [] {
        assert false;
      }
      assert t[|t| - 1] == u[|u| - 1];
      CollapseLast(t);
    } else if |s| > 1 {
      assert s[1..][|s| - 2] == s[|s| - 1];
      CollapseLast(s[1..]);
    }
  }

  lemma CollapseTrimmed(s: string)
    requires IsTrimmed(s)
    ensures IsTrimmed(CollapseSpaces(s))
  {
    if s != [] {
      CollapseHead(s);
      CollapseLast(s);
    }
  }

  /** A single-spaced string is left as it is. */
  lemma {:induction false} CollapseFixed(s: string)
    requires SingleSpaced(s)
    ensures CollapseSpaces(s) == s
    decreases |s|
  {
    if s != [] {
      assert SingleSpaced(s[1..]) by {
        forall i | 0 <= i < |s[1..]| && IsSpace(s[1..][i])
          ensures s[1..][i] == ' ' && (i + 1 < |s[1..]| ==> !IsSpace(s[1..][i + 1]))
        {
          assert s[1..][i] == s[i + 1];
        }
      }
      CollapseFixed(s[1..]);
      if IsSpace(s[0]) {
        assert TrimStart(s[1..]) == s[1..];
      }
    }
  }
}
