/**
 * The bad-character sanitiser of cleanResponse: PCRE's left-to-right,
 * non-overlapping replacement of the pattern
 *   (?!&#x0?(9|A|D))(&#x[0-1]?[0-9A-F];)
 * by a single space, with the number of replacements.
 *
 * The pattern is transcribed as written (LookaheadRejects, PatternLength,
 * MatchLength) and then characterised by what it denotes (IsBadReference):
 * the numeric character references, one or two upper-case hex digits
 * long, that name a control character XML 1.0 forbids.
 */
module BadChars {

  /** The rewritten text and the number of replacements made. */
  datatype Scrubbed = Scrubbed(text: string, count: nat)

  predicate IsUpperHexDigit(c: char) {
    '0' <= c <= '9' || 'A' <= c <= 'F'
  }

  predicate IsHexDigit(c: char) {
    IsUpperHexDigit(c) || 'a' <= c <= 'f'
  }

  predicate IsDecimalDigit(c: char) {
    '0' <= c <= '9'
  }

  function HexDigitValue(c: char): (d: nat)
    requires IsUpperHexDigit(c)
    ensures d < 16
  {
    if c <= '9' then c as int - '0' as int else c as int - 'A' as int + 10
  }

  predicate AllUpperHex(ds: string) {
    forall i :: 0 <= i < |ds| ==> IsUpperHexDigit(ds[i])
  }

  /** The value of a big-endian string of upper-case hex digits. */
  function HexValue(ds: string): nat
    requires AllUpperHex(ds)
    decreases |ds|
  {
    if ds == [] then 0 else 16 * HexValue(ds[..|ds| - 1]) + HexDigitValue(ds[|ds| - 1])
  }

  /** The code points below 0x20 that XML 1.0 allows: tab, line feed, carriage return. */
  predicate IsAllowedControl(v: nat) {
    v == 0x09 || v == 0x0A || v == 0x0D
  }

  /**
   * What the sanitiser removes: `&#x`, one or two upper-case hex digits and
   * `;`, whose value is a control character other than tab, LF and CR.
   */
  predicate IsBadReference(r: string) {
    5 <= |r| <= 6 && OpensHexReference(r) && r[|r| - 1] == ';' &&
    var ds := r[3..|r| - 1];
    AllUpperHex(ds) && HexValue(ds) < 0x20 && !IsAllowedControl(HexValue(ds))
  }

  /** A numeric character reference: `&#x` hex digits `;` (either case) or `&#` decimal digits `;`. */
  predicate IsCharReference(r: string) {
    |r| >= 4 && r[0] == '&' && r[1] == '#' && r[|r| - 1] == ';' &&
    ((r[2] == 'x' && |r| >= 5 && forall i :: 3 <= i < |r| - 1 ==> IsHexDigit(r[i]))
     || (forall i :: 2 <= i < |r| - 1 ==> IsDecimalDigit(r[i])))
  }

  /** s holds a bad reference of length n at position p. */
  predicate BadReferenceAt(s: string, p: nat, n: nat) {
    p + n <= |s| && IsBadReference(s[p..p + n])
  }

  ghost predicate ContainsBadReference(s: string) {
    exists p: nat, n: nat :: BadReferenceAt(s, p, n)
  }

  // ---------------------------------------------------------------------
  // The pattern as written

  /** s starts with `&#x`. */
  predicate OpensHexReference(s: string) {
    |s| >= 3 && s[0] == '&' && s[1] == '#' && s[2] == 'x'
  }

  predicate IsProtectedDigit(c: char) {
    c == '9' || c == 'A' || c == 'D'
  }

  /**
   * The negative lookahead `(?!&#x0?(9|A|D))`: true where it forbids a
   * match, that is where s opens with one of the six spellings of a
   * reference to tab, line feed or carriage return.
   */
  predicate LookaheadRejects(s: string) {
    |s| >= 4 && OpensHexReference(s) &&
    (IsProtectedDigit(s[3]) || (s[3] == '0' && |s| >= 5 && IsProtectedDigit(s[4])))
  }

  /**
   * The length of a match of `&#x[0-1]?[0-9A-F];` at the start of s, or 0;
   * the optional digit is tried first, as the greedy `?` does.
   */
  function PatternLength(s: string): (n: nat)
    ensures n == 0 || (n <= |s| && (n == 5 || n == 6))
  {
    if |s| >= 6 && OpensHexReference(s) && (s[3] == '0' || s[3] == '1')
       && IsUpperHexDigit(s[4]) && s[5] == ';' then 6
    else if |s| >= 5 && OpensHexReference(s) && IsUpperHexDigit(s[3]) && s[4] == ';' then 5
    else 0
  }

  /** The length of the whole pattern's match at the start of s, or 0 for none. */
  function MatchLength(s: string): (n: nat)
    ensures n == 0 || (5 <= n <= |s| && s[0] == '&')
  {
    if LookaheadRejects(s) then 0 else PatternLength(s)
  }

  /** The lookahead forbids a match exactly where one of the six protected spellings opens s. */
  lemma {:induction false} LookaheadRejectsOpenings(s: string)
    ensures LookaheadRejects(s) <==>
              || (|s| >= 4 && (s[..4] == "&#x9" || s[..4] == "&#xA" || s[..4] == "&#xD"))
              || (|s| >= 5 && (s[..5] == "&#x09" || s[..5] == "&#x0A" || s[..5] == "&#x0D"))
  {
  }

  /**
   * preg_replace with an unlimited count: at each position either a match
   * is replaced by " " and the scan resumes after it, or one character is
   * kept and the scan moves on by one.
   */
  function Scrub(s: string): (r: Scrubbed)
    ensures |r.text| + 4 * r.count <= |s|
    decreases |s|
  {
    if s == [] then Scrubbed([], 0)
    else if MatchLength(s) > 0 then
      var rest := Scrub(s[MatchLength(s)..]);
      Scrubbed([' '] + rest.text, rest.count + 1)
    else
      var rest := Scrub(s[1..]);
      Scrubbed([s[0]] + rest.text, rest.count)
  }

  function Join(a: Scrubbed, b: Scrubbed): Scrubbed {
    Scrubbed(a.text + b.text, a.count + b.count)
  }

  // ---------------------------------------------------------------------
  // What the pattern matches

  lemma {:induction false} HexValueOne(a: char)
    requires IsUpperHexDigit(a)
    ensures HexValue([a]) == HexDigitValue(a)
  {
    assert [a][..0] == [];
  }

  lemma {:induction false} HexValueTwo(a: char, b: char)
    requires IsUpperHexDigit(a) && IsUpperHexDigit(b)
    ensures HexValue([a, b]) == 16 * HexDigitValue(a) + HexDigitValue(b)
  {
    assert [a, b][..1] == [a];
    HexValueOne(a);
  }

  lemma {:induction false} FiveCharMatch(s: string)
    requires |s| >= 5
    ensures MatchLength(s) == 5 <==> IsBadReference(s[..5])
  {
    var t := s[..5];
    assert t[0] == s[0] && t[1] == s[1] && t[2] == s[2] && t[4] == s[4];
    assert t[3..4] == [s[3]];
    if IsUpperHexDigit(s[3]) {
      HexValueOne(s[3]);
    }
  }

  lemma {:induction false} SixCharMatch(s: string)
    requires |s| >= 6
    ensures MatchLength(s) == 6 <==> IsBadReference(s[..6])
  {
    var t := s[..6];
    assert t[0] == s[0] && t[1] == s[1] && t[2] == s[2] && t[5] == s[5];
    assert t[3..5] == [s[3], s[4]];
    if IsUpperHexDigit(s[3]) && IsUpperHexDigit(s[4]) {
      HexValueTwo(s[3], s[4]);
    }
  }

  /** The regex matches exactly the bad references, at their full length. */
  lemma {:induction false} MatchLengthExact(s: string, n: nat)
    requires n > 0
    ensures MatchLength(s) == n <==> n <= |s| && IsBadReference(s[..n])
  {
    if n == 5 && n <= |s| {
      FiveCharMatch(s);
    } else if n == 6 && n <= |s| {
      SixCharMatch(s);
    }
  }

  lemma {:induction false} BadReferenceIsCharReference(r: string)
    requires IsBadReference(r)
    ensures IsCharReference(r)
  {
    forall i | 3 <= i < |r| - 1 ensures IsHexDigit(r[i]) {
      assert r[i] == r[3..|r| - 1][i - 3];
    }
  }

  /** Only the characters of a match decide it: a following `&` cannot extend one. */
  lemma {:induction false} MatchLengthLocal(t: string, v: string)
    requires |t| > 0
    requires v == [] || v[0] == '&'
    ensures MatchLength(t + v) == MatchLength(t)
  {
    var n := MatchLength(t);
    var m := MatchLength(t + v);
    if n > 0 {
      MatchLengthExact(t, n);
      assert (t + v)[..n] == t[..n];
      MatchLengthExact(t + v, n);
    }
  }

  // ---------------------------------------------------------------------
  // How the rewrite composes

  /**
   * Concatenation regrouped. Sequence equality is extensional, so stating
   * the regrouping on its own keeps that step out of the larger proofs.
   */
  lemma {:induction false} AppendAssoc(a: string, b: string, c: string)
    ensures a + (b + c) == (a + b) + c
  {
  }

  lemma {:induction false} JoinAssoc(a: Scrubbed, b: Scrubbed, c: Scrubbed)
    ensures Join(a, Join(b, c)) == Join(Join(a, b), c)
  {
    AppendAssoc(a.text, b.text, c.text);
  }

  /** The first step of the scan over `u + v` is the first step over `u`. */
  lemma {:induction false} ConcatFirstStep(u: string, v: string)
    requires u != []
    requires v == [] || v[0] == '&'
    ensures var n := MatchLength(u);
            var k := if n > 0 then n else 1;
            && k <= |u|
            && Scrub(u) == Join(Scrubbed([if n > 0 then ' ' else u[0]], if n > 0 then 1 else 0), Scrub(u[k..]))
            && Scrub(u + v) == Join(Scrubbed([if n > 0 then ' ' else u[0]], if n > 0 then 1 else 0), Scrub(u[k..] + v))
  {
    MatchLengthLocal(u, v);
    var uv := u + v;
    var n := MatchLength(u);
    if n > 0 {
      assert uv[n..] == u[n..] + v;
    } else {
      assert uv[0] == u[0] && uv[1..] == u[1..] + v;
    }
    ScrubStep(u);
    ScrubStep(uv);
  }

  /** The rewrite can be cut in front of any `&` and done piece by piece. */
  lemma {:induction false} ScrubConcat(u: string, v: string)
    requires v == [] || v[0] == '&'
    ensures Scrub(u + v) == Join(Scrub(u), Scrub(v))
    decreases |u|
  {
    if u == [] {
      assert u + v == v;
    } else {
      ConcatFirstStep(u, v);
      var n := MatchLength(u);
      var k := if n > 0 then n else 1;
      ScrubConcat(u[k..], v);
      JoinAssoc(Scrubbed([if n > 0 then ' ' else u[0]], if n > 0 then 1 else 0), Scrub(u[k..]), Scrub(v));
    }
  }

  /** Text without `&` is copied through unchanged. */
  lemma {:induction false} ScrubSkipsPlainText(x: string, w: string)
    requires forall i :: 0 <= i < |x| ==> x[i] != '&'
    ensures Scrub(x + w) == Scrubbed(x + Scrub(w).text, Scrub(w).count)
    decreases |x|
  {
    if x == [] {
      assert x + w == w;
    } else {
      var xw := x + w;
      assert xw[0] == x[0] && xw[1..] == x[1..] + w;
      ScrubStep(xw);
      assert MatchLength(xw) == 0;
      ScrubSkipsPlainText(x[1..], w);
      AppendAssoc([x[0]], x[1..], Scrub(w).text);
      assert [x[0]] + x[1..] == x;
    }
  }

  lemma {:induction false} KeptReferenceDoesNotMatch(r: string, w: string)
    requires IsCharReference(r) && !IsBadReference(r)
    ensures MatchLength(r + w) == 0
  {
    var n := MatchLength(r + w);
    if n > 0 {
      MatchLengthExact(r + w, n);
      assert false;
    }
  }

  /** The rewrite of a text that starts with a numeric character reference. */
  lemma {:induction false} ScrubLeadingReference(r: string, w: string)
    requires IsCharReference(r)
    ensures Scrub(r + w) == Join(if IsBadReference(r) then Scrubbed(" ", 1) else Scrubbed(r, 0), Scrub(w))
  {
    var rw := r + w;
    if IsBadReference(r) {
      assert rw[..|r|] == r;
      MatchLengthExact(rw, |r|);
      assert rw[|r|..] == w;
      assert Scrub(rw) == Scrubbed([' '] + Scrub(w).text, Scrub(w).count + 1);
    } else {
      KeptReferenceDoesNotMatch(r, w);
      assert rw[1..] == r[1..] + w;
      ScrubSkipsPlainText(r[1..], w);
      assert Scrub(rw).text == [r[0]] + (r[1..] + Scrub(w).text);
      AppendAssoc([r[0]], r[1..], Scrub(w).text);
      assert [r[0]] + r[1..] == r;
    }
  }

  /**
   * Wherever a numeric character reference stands, it becomes one space if
   * it is a bad reference and is kept verbatim otherwise (the protected
   * `&#x9;`, `&#xA;`, `&#xD;`, `&#x09;`, `&#x0A;`, `&#x0D;`, lower-case,
   * decimal and longer references); the text on either side is rewritten
   * independently and its replacements are counted alongside.
   */
  lemma {:induction false} ScrubCharReference(u: string, r: string, w: string)
    requires IsCharReference(r)
    ensures Scrub(u + r + w) ==
            Join(Join(Scrub(u), if IsBadReference(r) then Scrubbed(" ", 1) else Scrubbed(r, 0)), Scrub(w))
  {
    assert u + r + w == u + (r + w);
    ScrubConcat(u, r + w);
    ScrubLeadingReference(r, w);
    var mid := if IsBadReference(r) then Scrubbed(" ", 1) else Scrubbed(r, 0);
    AppendAssoc(Scrub(u).text, mid.text, Scrub(w).text);
  }

  /** A bad reference anywhere is replaced by a single space and counted once. */
  lemma {:induction false} ScrubReplacesBadReference(u: string, r: string, w: string)
    requires IsBadReference(r)
    ensures Scrub(u + r + w).text == Scrub(u).text + " " + Scrub(w).text
    ensures Scrub(u + r + w).count == Scrub(u).count + 1 + Scrub(w).count
  {
    BadReferenceIsCharReference(r);
    ScrubCharReference(u, r, w);
  }

  // ---------------------------------------------------------------------
  // Counting and idempotence

  /** The text is unchanged exactly when nothing was replaced. */
  lemma {:induction false} ScrubUnchangedIffNoReplacement(s: string)
    ensures Scrub(s).text == s <==> Scrub(s).count == 0
    decreases |s|
  {
    if s != [] {
      var n := MatchLength(s);
      if n > 0 {
        assert Scrub(s).count > 0;
        assert |Scrub(s).text| < |s|;
      } else {
        ScrubUnchangedIffNoReplacement(s[1..]);
        assert [s[0]] + s[1..] == s;
      }
    }
  }

  lemma {:induction false} ReplacementImpliesBadReference(s: string)
    requires Scrub(s).count > 0
    ensures ContainsBadReference(s)
    decreases |s|
  {
    var n := MatchLength(s);
    if n > 0 {
      MatchLengthExact(s, n);
      assert s[0..0 + n] == s[..n];
      assert BadReferenceAt(s, 0, n);
    } else {
      ReplacementImpliesBadReference(s[1..]);
      var p: nat, m: nat :| BadReferenceAt(s[1..], p, m);
      assert s[1..][p..p + m] == s[p + 1..p + 1 + m];
      assert BadReferenceAt(s, p + 1, m);
    }
  }

  /** Something is replaced exactly when the text holds a bad reference. */
  lemma {:induction false} ScrubCountZeroIff(s: string)
    ensures Scrub(s).count == 0 <==> !ContainsBadReference(s)
  {
    if ContainsBadReference(s) {
      var p: nat, n: nat :| BadReferenceAt(s, p, n);
      assert s == s[..p] + s[p..p + n] + s[p + n..];
      ScrubReplacesBadReference(s[..p], s[p..p + n], s[p + n..]);
    } else if Scrub(s).count > 0 {
      ReplacementImpliesBadReference(s);
    }
  }

  /** One step of the scan: the first output character and where the scan resumes. */
  lemma {:induction false} ScrubStep(s: string)
    requires s != []
    ensures var m := MatchLength(s);
            var k := if m > 0 then m else 1;
            k <= |s| &&
            Scrub(s).text == [if m > 0 then ' ' else s[0]] + Scrub(s[k..]).text &&
            Scrub(s).count == (if m > 0 then 1 else 0) + Scrub(s[k..]).count
  {
  }

  /** The output of a non-empty input is one character followed by the output of a proper suffix. */
  lemma {:induction false} ScrubHead(s: string) returns (head: string, k: nat)
    requires s != []
    ensures |head| == 1 && 0 < k <= |s|
    ensures Scrub(s).text == head + Scrub(s[k..]).text
  {
    ScrubStep(s);
    var m := MatchLength(s);
    k := if m > 0 then m else 1;
    head := [if m > 0 then ' ' else s[0]];
  }

  /** An output that does not start with a space starts with the input's first character. */
  lemma {:induction false} ScrubCopiesFirst(s: string)
    requires s != [] && |Scrub(s).text| > 0 && Scrub(s).text[0] != ' '
    ensures Scrub(s).text == [s[0]] + Scrub(s[1..]).text
  {
    ScrubStep(s);
  }

  /** A prefix of the output without spaces was copied from the input. */
  lemma {:induction false} SpaceFreePrefixCopied(s: string, k: nat)
    requires k <= |Scrub(s).text|
    requires forall i :: 0 <= i < k ==> Scrub(s).text[i] != ' '
    ensures k <= |s| && s[..k] == Scrub(s).text[..k]
    decreases |s|
  {
    if k > 0 {
      assert s != [];
      ScrubCopiesFirst(s);
      var t := Scrub(s).text;
      var rest := Scrub(s[1..]).text;
      forall i | 0 <= i < k - 1 ensures rest[i] != ' ' {
        assert rest[i] == t[i + 1];
      }
      SpaceFreePrefixCopied(s[1..], k - 1);
      assert s[..k] == [s[0]] + s[1..][..k - 1];
      assert t[..k] == [s[0]] + rest[..k - 1];
    }
  }

  lemma {:induction false} BadReferenceHasNoSpace(r: string, i: nat)
    requires IsBadReference(r) && i < |r|
    ensures r[i] != ' '
  {
    if 3 <= i < |r| - 1 {
      assert r[i] == r[3..|r| - 1][i - 3];
    }
  }

  lemma {:induction false} BadReferenceShift(a: string, b: string, p: nat, n: nat)
    requires p >= |a|
    ensures BadReferenceAt(a + b, p, n) <==> BadReferenceAt(b, p - |a|, n)
  {
    if p + n <= |a + b| {
      assert (a + b)[p..p + n] == b[p - |a|..p - |a| + n];
    }
  }

  /** The output never starts with a bad reference. */
  lemma {:induction false} NoBadReferenceInFront(s: string, n: nat)
    ensures !BadReferenceAt(Scrub(s).text, 0, n)
  {
    var t := Scrub(s).text;
    if BadReferenceAt(t, 0, n) {
      assert t[..n] == t[0..0 + n];
      assert s != [];
      ScrubStep(s);
      assert t[0] == t[..n][0] == '&';
      forall i | 0 <= i < n ensures t[i] != ' ' {
        BadReferenceHasNoSpace(t[..n], i);
        assert t[..n][i] == t[i];
      }
      SpaceFreePrefixCopied(s, n);
      MatchLengthExact(s, n);
      assert false;
    }
  }

  lemma {:induction false} NoBadReferenceAt(s: string, p: nat, n: nat)
    ensures !BadReferenceAt(Scrub(s).text, p, n)
    decreases |s|, 1
  {
    if p == 0 {
      NoBadReferenceInFront(s, n);
    } else if s == [] {
      assert Scrub(s).text == [];
    } else {
      NoBadReferenceAfterFront(s, p, n);
    }
  }

  lemma {:induction false} NoBadReferenceAfterFront(s: string, p: nat, n: nat)
    requires p > 0 && s != []
    ensures !BadReferenceAt(Scrub(s).text, p, n)
    decreases |s|, 0
  {
    var head, k := ScrubHead(s);
    NoBadReferenceAt(s[k..], p - 1, n);
    BadReferenceShift(head, Scrub(s[k..]).text, p, n);
  }

  /** No bad reference survives the rewrite, not even one formed by the replacements. */
  lemma {:induction false} ScrubLeavesNoBadReference(s: string)
    ensures !ContainsBadReference(Scrub(s).text)
  {
    var t := Scrub(s).text;
    forall p: nat, n: nat ensures !BadReferenceAt(t, p, n) {
      NoBadReferenceAt(s, p, n);
    }
  }

  /** Rewriting a second time changes nothing and counts nothing. */
  lemma {:induction false} ScrubIdempotent(s: string)
    ensures Scrub(Scrub(s).text) == Scrubbed(Scrub(s).text, 0)
  {
    var t := Scrub(s).text;
    ScrubLeavesNoBadReference(s);
    ScrubCountZeroIff(t);
    ScrubUnchangedIffNoReplacement(t);
  }

  lemma ReferenceToTwoIsBad()
    ensures IsBadReference("&#x02;") && IsCharReference("&#x02;")
  {
    var r := "&#x02;";
    assert r[3..5] == ['0', '2'];
    HexValueTwo('0', '2');
  }

  lemma PlainCharKept(c: char)
    requires c != '&'
    ensures Scrub([c]) == Scrubbed([c], 0)
  {
    ScrubSkipsPlainText([c], "");
    assert [c] + "" == [c] && Scrub("") == Scrubbed("", 0);
  }

  /** A reference to control character 2 becomes one space; the text around it stays. */
  lemma ControlCharacterReplaced()
    ensures Scrub("a&#x02;b") == Scrubbed("a b", 1)
  {
    ReferenceToTwoIsBad();
    ScrubCharReference("a", "&#x02;", "b");
    assert "a" + "&#x02;" + "b" == "a&#x02;b";
    PlainCharKept('a');
    PlainCharKept('b');
  }

  /** References to tab, line feed and carriage return are left alone. */
  lemma AllowedControlKept(d: char)
    requires d == '9' || d == 'A' || d == 'D'
    ensures Scrub("&#x0" + [d] + ";") == Scrubbed("&#x0" + [d] + ";", 0)
  {
    var r := "&#x0" + [d] + ";";
    assert r[3..5] == ['0', d];
    HexValueTwo('0', d);
    assert !IsBadReference(r);
    assert IsCharReference(r);
    ScrubLeadingReference(r, "");
    assert r + "" == r;
    assert Scrub("") == Scrubbed("", 0);
  }
}
