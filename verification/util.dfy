/**
 * The string helpers of `utils/util.ts`: `CreateSlug`, `normalize` (with
 * `toNonAccentVietnamese`) and `parseDuration`. Lower-casing is modelled on the ASCII
 * letters only and Unicode NFD decomposition as the identity.
 */
module Util {
  import opened Wrappers
  import opened Text

  // ---------------------------------------------------------------------------
  // Characters

  predicate IsAscii(s: string) {
    forall i :: 0 <= i < |s| ==> s[i] <= '\U{007F}'
  }

  predicate IsUpper(c: char) {
    'A' <= c <= 'Z'
  }

  function LowerChar(c: char): char {
    if IsUpper(c) then (c as int + 32) as char else c
  }

  /** `toLowerCase` on the ASCII letters; every other character is kept. */
  function Lower(s: string): (t: string)
    ensures |t| == |s| && forall i :: 0 <= i < |s| ==> t[i] == LowerChar(s[i])
    ensures forall i :: 0 <= i < |t| ==> !IsUpper(t[i])
  {
    if |s| == 0 then "" else [LowerChar(s[0])] + Lower(s[1..])
  }

  /** The combining diacritical marks U+0300..U+036F. */
  predicate IsMark(c: char) {
    '\U{0300}' <= c <= '\U{036F}'
  }

  /** `.replace(/[\u0300-\u036f]/g, '')`. */
  function StripMarks(s: string): (t: string)
    ensures forall i :: 0 <= i < |t| ==> !IsMark(t[i])
    ensures forall c :: c in t ==> c in s
    ensures (forall i :: 0 <= i < |s| ==> !IsMark(s[i])) ==> t == s
  {
    if |s| == 0 then ""
    else if IsMark(s[0]) then StripMarks(s[1..])
    else [s[0]] + StripMarks(s[1..])
  }

  // ---------------------------------------------------------------------------
  // Global replacement of literal alternatives

  predicate NonEmpty(alts: seq<string>) {
    forall i :: 0 <= i < |alts| ==> |alts[i]| > 0
  }

  /** The first alternative, in the order written, that matches at the start of `s`. */
  function FirstMatch(alts: seq<string>, s: string): (r: Option<string>)
    ensures r.Some? ==> r.value in alts && r.value <= s
    ensures r.None? ==> forall i :: 0 <= i < |alts| ==> !(alts[i] <= s)
  {
    if |alts| == 0 then None
    else if alts[0] <= s then Some(alts[0])
    else FirstMatch(alts[1..], s)
  }

  /**
   * `s.replace(/a1|a2|.../g, rep)` for literal alternatives: scanning left to right,
   * the first alternative matching at a position is replaced and scanning resumes
   * after it.
   */
  function ReplaceAll(s: string, alts: seq<string>, rep: string): (r: string)
    requires NonEmpty(alts)
    ensures |rep| <= 1 ==> |r| <= |s|
    decreases |s|
  {
    if |s| == 0 then ""
    else
      match FirstMatch(alts, s)
      case Some(a) =>
        assert |a| > 0;
        rep + ReplaceAll(s[|a|..], alts, rep)
      case None => [s[0]] + ReplaceAll(s[1..], alts, rep)
  }

  /** An alternative whose first character does not occur in `s` never matches in it. */
  lemma {:induction false} ReplaceAbsent(s: string, alts: seq<string>, rep: string)
    requires NonEmpty(alts)
    requires forall i :: 0 <= i < |alts| ==> alts[i][0] !in s
    ensures ReplaceAll(s, alts, rep) == s
    decreases |s|
  {
    if |s| > 0 {
      assert forall c :: c in s[1..] ==> c in s;
      ReplaceAbsent(s[1..], alts, rep);
    }
  }

  // ---------------------------------------------------------------------------
  // CreateSlug

  /** The characters `[a-z0-9]` a slug keeps. */
  predicate SlugChar(c: char) {
    'a' <= c <= 'z' || '0' <= c <= '9'
  }

  /** A slug: `[a-z0-9]` and single `-` separators, no `-` at either end. */
  predicate IsSlug(t: string) {
    && (forall i :: 0 <= i < |t| ==> SlugChar(t[i]) || t[i] == '-')
    && (forall i :: 0 <= i < |t| - 1 ==> !(t[i] == '-' && t[i + 1] == '-'))
    && (|t| > 0 ==> t[0] != '-' && t[|t| - 1] != '-')
  }

  /**
   * The two patterns for the letter d-with-stroke as the file spells them (a
   * mis-encoded two-character sequence each), replaced by `d` and `D`.
   */
  const StrokedLowerD: string := "\U{0414}\U{2018}"
  const StrokedUpperD: string := "\U{0414}\U{0497}"

  /** `s` without its leading run of characters outside `[a-z0-9]`. */
  function SkipRun(s: string): (t: string)
    ensures |t| <= |s| && t == s[|s| - |t|..]
    ensures |t| == 0 || SlugChar(t[0])
    ensures forall i :: 0 <= i < |s| - |t| ==> !SlugChar(s[i])
    ensures |s| > 0 && !SlugChar(s[0]) ==> |t| < |s|
  {
    if |s| == 0 || SlugChar(s[0]) then s
    else
      var t := SkipRun(s[1..]);
      assert s[1..][|s| - 1 - |t|..] == s[|s| - |t|..];
      assert forall i :: 1 <= i < |s| - |t| ==> s[i] == s[1..][i - 1];
      t
  }

  /** `.replace(/[^a-z0-9]+/g, '-')`: every maximal run outside `[a-z0-9]` becomes one `-`. */
  function Collapse(s: string): (t: string)
    ensures forall i :: 0 <= i < |t| ==> SlugChar(t[i]) || t[i] == '-'
    ensures forall i :: 0 <= i < |t| - 1 ==> !(t[i] == '-' && t[i + 1] == '-')
    ensures |t| == 0 <==> |s| == 0
    ensures |s| > 0 ==> (t[0] == '-' <==> !SlugChar(s[0]))
    decreases |s|
  {
    if |s| == 0 then ""
    else if SlugChar(s[0]) then [s[0]] + Collapse(s[1..])
    else "-" + Collapse(SkipRun(s))
  }

  /** Every character is in `[a-z0-9]` or is `-`, and no two `-` are adjacent. */
  predicate Separated(s: string) {
    && (forall i :: 0 <= i < |s| ==> SlugChar(s[i]) || s[i] == '-')
    && (forall i :: 0 <= i < |s| - 1 ==> !(s[i] == '-' && s[i + 1] == '-'))
  }

  /** `.replace(/(^-|-$)/g, '')`: a leading and a trailing `-` removed. */
  function TrimEdges(s: string): (t: string)
    ensures Separated(s) ==> IsSlug(t)
    ensures |s| > 0 && s[0] != '-' && s[|s| - 1] != '-' ==> t == s
  {
    var u := if |s| > 0 && s[0] == '-' then s[1..] else s;
    assert Separated(s) ==> Separated(u);
    if |u| > 0 && u[|u| - 1] == '-' then u[..|u| - 1] else u
  }

  /**
   * `CreateSlug`: lower-case, drop combining marks, spell out d-with-stroke, turn
   * every run of other characters into `-` and trim the ends. The result is a slug.
   */
  function CreateSlug(text: string): (slug: string)
    ensures IsSlug(slug)
  {
    var unmarked := StripMarks(Lower(text));
    var spelled := ReplaceAll(ReplaceAll(unmarked, [StrokedLowerD], "d"), [StrokedUpperD], "D");
    TrimEdges(Collapse(spelled))
  }

  // ---------------------------------------------------------------------------
  // Slug properties

  /** The letters and digits of `s`, in order. */
  function Alnums(s: string): string {
    if |s| == 0 then "" else (if SlugChar(s[0]) then [s[0]] else "") + Alnums(s[1..])
  }

  lemma {:induction false} AlnumsAppend(a: string, b: string)
    ensures Alnums(a + b) == Alnums(a) + Alnums(b)
    decreases |a|
  {
    if |a| > 0 {
      assert (a + b)[1..] == a[1..] + b;
      AlnumsAppend(a[1..], b);
    } else {
      assert a + b == b;
    }
  }

  lemma AlnumsSingle(c: char)
    ensures Alnums([c]) == if SlugChar(c) then [c] else ""
  {
    assert [c][1..] == "";
  }

  lemma {:induction false} SkipRunAlnums(s: string)
    ensures Alnums(SkipRun(s)) == Alnums(s)
    decreases |s|
  {
    if |s| > 0 && !SlugChar(s[0]) {
      SkipRunAlnums(s[1..]);
    }
  }

  /** Collapsing the separators keeps every letter and digit, in order. */
  lemma {:induction false} CollapseAlnums(s: string)
    ensures Alnums(Collapse(s)) == Alnums(s)
    decreases |s|
  {
    if |s| > 0 {
      if SlugChar(s[0]) {
        CollapseAlnums(s[1..]);
        AlnumsAppend([s[0]], Collapse(s[1..]));
        AlnumsSingle(s[0]);
      } else {
        CollapseAlnums(SkipRun(s));
        SkipRunAlnums(s);
        AlnumsAppend("-", Collapse(SkipRun(s)));
        AlnumsSingle('-');
      }
    }
  }

  lemma TrimEdgesAlnums(s: string)
    ensures Alnums(TrimEdges(s)) == Alnums(s)
  {
    var u := if |s| > 0 && s[0] == '-' then s[1..] else s;
    if |s| > 0 && s[0] == '-' {
      assert s == "-" + s[1..];
      AlnumsAppend("-", s[1..]);
      assert "-"[1..] == "";
    }
    if |u| > 0 && u[|u| - 1] == '-' {
      assert u == u[..|u| - 1] + "-";
      AlnumsAppend(u[..|u| - 1], "-");
      assert "-"[1..] == "";
    }
  }

  /** Text with no combining mark and no d-with-stroke pattern goes through those steps unchanged. */
  lemma PlainTextSteps(s: string)
    requires IsAscii(s)
    ensures var spelled := ReplaceAll(ReplaceAll(StripMarks(Lower(s)), [StrokedLowerD], "d"), [StrokedUpperD], "D");
      spelled == Lower(s)
  {
    var l := Lower(s);
    assert forall i :: 0 <= i < |l| ==> l[i] <= '\U{007F}' && !IsMark(l[i]);
    assert '\U{0414}' !in l;
    ReplaceAbsent(l, [StrokedLowerD], "d");
    ReplaceAbsent(l, [StrokedUpperD], "D");
  }

  /**
   * For ASCII text the slug keeps exactly the letters and digits of the lower-cased
   * text, in order; only the separators between them change.
   */
  lemma SlugKeepsAlnums(text: string)
    requires IsAscii(text)
    ensures Alnums(CreateSlug(text)) == Alnums(Lower(text))
  {
    PlainTextSteps(text);
    CollapseAlnums(Lower(text));
    TrimEdgesAlnums(Collapse(Lower(text)));
  }

  /** A separated string that does not start with `-` is its own collapse. */
  lemma {:induction false} CollapseSeparated(t: string)
    requires Separated(t)
    ensures Collapse(t) == t
    decreases |t|
  {
    if |t| > 0 {
      assert Separated(t[1..]);
      if SlugChar(t[0]) {
        CollapseSeparated(t[1..]);
      } else {
        var r := SkipRun(t);
        assert |t| - |r| == 1;
        assert r == t[1..];
        CollapseSeparated(t[1..]);
      }
    }
  }

  /** A slug is its own slug. */
  lemma SlugFixedPoint(t: string)
    requires IsSlug(t)
    ensures CreateSlug(t) == t
  {
    SlugLower(t);
    PlainTextSteps(t);
    CollapseSeparated(t);
    assert CreateSlug(t) == TrimEdges(Collapse(t));
  }

  /** A slug is ASCII and already lower-case. */
  lemma SlugLower(t: string)
    requires IsSlug(t)
    ensures IsAscii(t) && Lower(t) == t
  {
    forall i | 0 <= i < |t| ensures t[i] <= '\U{007F}' && LowerChar(t[i]) == t[i] {
      assert SlugChar(t[i]) || t[i] == '-';
    }
  }

  /** `CreateSlug` is idempotent. */
  lemma SlugIdempotent(text: string)
    ensures CreateSlug(CreateSlug(text)) == CreateSlug(text)
  {
    SlugFixedPoint(CreateSlug(text));
  }

  // ---------------------------------------------------------------------------
  // normalize

  /** One `.replace(/a1|a2|.../g, replacement)` step of the accent table. */
  datatype Rule = Rule(alternatives: seq<string>, replacement: string)

  /**
   * The accent table of `toNonAccentVietnamese`, rule by rule in the order applied.
   * Each rule keeps its ASCII alternative (the capital vowel it maps to itself) and,
   * for the last two, the d-with-stroke patterns; the mis-encoded vowel alternatives
   * are left out, so those rules have none here.
   */
  const AccentRules: seq<Rule> := [
    Rule(["A"], "A"), Rule([], "a"), Rule(["E"], "E"), Rule([], "i"),
    Rule(["I"], "I"), Rule([], "i"), Rule(["O"], "O"), Rule([], "o"),
    Rule(["U"], "U"), Rule([], "u"), Rule(["Y"], "Y"), Rule([], "y"),
    Rule([StrokedUpperD], "D"), Rule([StrokedLowerD], "d")
  ]

  predicate WellFormed(rules: seq<Rule>) {
    forall j :: 0 <= j < |rules| ==> NonEmpty(rules[j].alternatives)
  }

  /** Every replacement is at most one character, so no rule lengthens the text. */
  predicate Shortening(rules: seq<Rule>) {
    forall j :: 0 <= j < |rules| ==> |rules[j].replacement| <= 1
  }

  /** The replacement steps applied one after the other. */
  function ApplyRules(s: string, rules: seq<Rule>): (r: string)
    requires WellFormed(rules)
    ensures Shortening(rules) ==> |r| <= |s|
    decreases |rules|
  {
    if |rules| == 0 then s
    else ApplyRules(ReplaceAll(s, rules[0].alternatives, rules[0].replacement), rules[1..])
  }

  /** Rules none of whose alternatives can start inside `s` leave it unchanged. */
  lemma {:induction false} RulesAbsent(s: string, rules: seq<Rule>)
    requires WellFormed(rules)
    requires forall j, i :: 0 <= j < |rules| && 0 <= i < |rules[j].alternatives| ==> rules[j].alternatives[i][0] !in s
    ensures ApplyRules(s, rules) == s
  {
    if |rules| > 0 {
      ReplaceAbsent(s, rules[0].alternatives, rules[0].replacement);
      RulesAbsent(s, rules[1..]);
    }
  }

  /**
   * `normalize`: lower-case, then apply the accent table. Each accented letter
   * becomes one plain letter, so the text never grows.
   */
  function Normalize(s: string): (r: string)
    ensures |r| <= |s|
  {
    assert WellFormed(AccentRules) && Shortening(AccentRules);
    ApplyRules(Lower(s), AccentRules)
  }

  /**
   * On ASCII text `normalize` is lower-casing: after lower-casing no capital is
   * left for the vowel rules to match, and the other patterns are not ASCII.
   */
  lemma NormalizeAscii(s: string)
    requires IsAscii(s)
    ensures Normalize(s) == Lower(s)
  {
    var l := Lower(s);
    assert forall i :: 0 <= i < |l| ==> l[i] <= '\U{007F}';
    assert WellFormed(AccentRules);
    forall j, i | 0 <= j < |AccentRules| && 0 <= i < |AccentRules[j].alternatives|
      ensures AccentRules[j].alternatives[i][0] !in l
    {
      var c := AccentRules[j].alternatives[i][0];
      assert IsUpper(c) || c == '\U{0414}';
    }
    RulesAbsent(l, AccentRules);
  }

  // ---------------------------------------------------------------------------
  // parseDuration

  /** The position of the first decimal digit of `s`, if it has one. */
  function FirstDigit(s: string): (i: Option<nat>)
    ensures i.None? <==> forall k :: 0 <= k < |s| ==> !IsDigit(s[k])
    ensures i.Some? ==> i.value < |s| && IsDigit(s[i.value]) && forall k :: 0 <= k < i.value ==> !IsDigit(s[k])
  {
    if |s| == 0 then None
    else if IsDigit(s[0]) then Some(0)
    else match FirstDigit(s[1..])
      case None => None
      case Some(i) => Some(i + 1)
  }

  /**
   * `parseDuration`: undefined for a missing or empty string and for one without a
   * digit; otherwise the value of the first maximal run of digits (`/\d+/`).
   */
  function ParseDuration(time: Option<string>): (r: Option<nat>)
    ensures r.None? <==> time.None? || forall k :: 0 <= k < |time.value| ==> !IsDigit(time.value[k])
  {
    match time
    case None => None
    case Some(t) =>
      if |t| == 0 then None
      else
        match FirstDigit(t)
        case None => None
        case Some(i) => Some(DecValue(LeadingDigits(t[i..])))
  }

  /** The number written first in the text is the duration read. */
  lemma {:induction false} ParseDurationReads(prefix: string, ds: string, suffix: string)
    requires forall k :: 0 <= k < |prefix| ==> !IsDigit(prefix[k])
    requires |ds| > 0 && AllDigits(ds)
    requires |suffix| == 0 || !IsDigit(suffix[0])
    ensures ParseDuration(Some(prefix + ds + suffix)) == Some(DecValue(ds))
  {
    var rest := ds + suffix;
    var t := prefix + ds + suffix;
    assert t == prefix + rest;
    assert rest[0] == ds[0];
    FirstDigitAfter(prefix, rest);
    assert t[|prefix|..] == rest;
    LeadingDigitsAppend(ds, suffix);
  }

  lemma {:induction false} FirstDigitAfter(prefix: string, rest: string)
    requires forall k :: 0 <= k < |prefix| ==> !IsDigit(prefix[k])
    requires |rest| > 0 && IsDigit(rest[0])
    ensures FirstDigit(prefix + rest) == Some(|prefix|)
    decreases |prefix|
  {
    if |prefix| > 0 {
      assert (prefix + rest)[1..] == prefix[1..] + rest;
      FirstDigitAfter(prefix[1..], rest);
    } else {
      assert prefix + rest == rest;
    }
  }

  lemma {:induction false} LeadingDigitsAppend(ds: string, rest: string)
    requires AllDigits(ds) && (|rest| == 0 || !IsDigit(rest[0]))
    ensures LeadingDigits(ds + rest) == ds
    decreases |ds|
  {
    if |ds| > 0 {
      assert (ds + rest)[1..] == ds[1..] + rest;
      LeadingDigitsAppend(ds[1..], rest);
      assert [ds[0]] + ds[1..] == ds;
    } else {
      assert ds + rest == rest;
    }
  }

  /** `parseDuration("45 phút")` is 45. */
  lemma ParseDurationExample()
    ensures ParseDuration(Some("45 ph\U{00FA}t")) == Some(45)
  {
    var ds, rest := "45", " ph\U{00FA}t";
    assert ds + rest == "45 ph\U{00FA}t";
    assert "" + ds + rest == ds + rest;
    ParseDurationReads("", ds, rest);
    assert DecValue(ds) == 45 by {
      assert ds[..1] == "4" && "4"[..0] == "";
    }
  }

  /** A leading zero is read past: `parseDuration("05 phút")` is 5. */
  lemma ParseDurationLeadingZero()
    ensures ParseDuration(Some("05 ph\U{00FA}t")) == Some(5)
  {
    var ds, rest := "05", " ph\U{00FA}t";
    assert ds + rest == "05 ph\U{00FA}t";
    assert "" + ds + rest == ds + rest;
    ParseDurationReads("", ds, rest);
    assert DecValue(ds) == 5 by {
      assert ds[..1] == "0" && "0"[..0] == "";
    }
  }
}
