/**
 String operations the journal relies on, stated on `seq<char>`:
 substring search (`String.prototype.includes`), first-occurrence
 replacement (`String.prototype.replace` with a string pattern), ASCII case
 folding (the `i` flag of a regular expression whose pattern is ASCII), and
 decimal rendering of page numbers in template literals.
 */
module Text {
  import opened Wrappers

  /** ASCII lower-casing of one character; every other character is kept. */
  function LowerChar(c: char): char {
    if 'A' <= c <= 'Z' then (c as int + 32) as char else c
  }

  /** The text with every ASCII capital replaced by its small letter. */
  function Lower(s: string): string {
    seq(|s|, i requires 0 <= i < |s| => LowerChar(s[i]))
  }

  /** `pat` occurs in `s` starting at index `i`. */
  predicate OccursAt(s: string, pat: string, i: int) {
    0 <= i && i + |pat| <= |s| && s[i..i + |pat|] == pat
  }

  /** `pat` occurs somewhere in `s`. */
  ghost predicate Contains(s: string, pat: string) {
    exists i :: OccursAt(s, pat, i)
  }

  /** `k` is the leftmost index at which `pat` occurs in `s`. */
  ghost predicate FirstOccurrence(s: string, pat: string, k: int) {
    OccursAt(s, pat, k) && forall j :: 0 <= j < k ==> !OccursAt(s, pat, j)
  }

  /** The leftmost occurrence of `pat` in `s` at or after `from`. */
  function IndexFrom(s: string, pat: string, from: nat): (r: Option<nat>)
    requires from <= |s|
    ensures r.Some? ==> from <= r.value && OccursAt(s, pat, r.value)
    ensures forall j :: from <= j && (r.None? || j < r.value) ==> !OccursAt(s, pat, j)
    decreases |s| - from
  {
    if OccursAt(s, pat, from) then Some(from)
    else if from == |s| then None
    else IndexFrom(s, pat, from + 1)
  }

  /** `String.prototype.indexOf`, with `None` for -1. */
  function IndexOf(s: string, pat: string): (r: Option<nat>)
    ensures r.Some? <==> Contains(s, pat)
    ensures r.Some? ==> FirstOccurrence(s, pat, r.value)
  {
    IndexFrom(s, pat, 0)
  }

  /** `String.prototype.includes`. */
  function Includes(s: string, pat: string): (b: bool)
    ensures b <==> Contains(s, pat)
  {
    IndexOf(s, pat).Some?
  }

  /**
   Replaces the first occurrence of `pat` by `rep`, inserting `rep` literally.
   Without an occurrence the text is returned unchanged.
   */
  function ReplaceFirst(s: string, pat: string, rep: string): (r: string)
    ensures !Contains(s, pat) ==> r == s
    ensures forall k :: FirstOccurrence(s, pat, k) ==> r == s[..k] + rep + s[k + |pat|..]
  {
    match IndexOf(s, pat)
    case None => s
    case Some(k) => s[..k] + rep + s[k + |pat|..]
  }

  /**
   The replacement text `String.prototype.replace` actually inserts when the
   search value is a string (GetSubstitution of ECMAScript with no captures):
   `$$` becomes `$`, `$&` the matched text, `` $` `` the text before the
   match and `$'` the text after it; any other `$` stays literal.
   */
  function Substitution(rep: string, matched: string, before: string, after: string): (r: string)
    ensures '$' !in rep ==> r == rep
    decreases |rep|
  {
    if |rep| == 0 then ""
    else if rep[0] == '$' && |rep| >= 2 && rep[1] == '$' then
      "$" + Substitution(rep[2..], matched, before, after)
    else if rep[0] == '$' && |rep| >= 2 && rep[1] == '&' then
      matched + Substitution(rep[2..], matched, before, after)
    else if rep[0] == '$' && |rep| >= 2 && rep[1] == '`' then
      before + Substitution(rep[2..], matched, before, after)
    else if rep[0] == '$' && |rep| >= 2 && rep[1] == '\'' then
      after + Substitution(rep[2..], matched, before, after)
    else
      [rep[0]] + Substitution(rep[1..], matched, before, after)
  }

  /** A first character other than `$` is copied as it is. */
  lemma SubstitutionPlainHead(rep: string, matched: string, before: string, after: string)
    requires |rep| > 0 && rep[0] != '$'
    ensures Substitution(rep, matched, before, after) == [rep[0]] + Substitution(rep[1..], matched, before, after)
  {
  }

  /** Putting the head back in front of the tail gives the whole text. */
  lemma HeadThenTail(x: string, t: string)
    requires |x| > 0
    ensures [x[0]] + (x[1..] + t) == x + t
  {
    assert [x[0]] + x[1..] == x;
  }

  /** A prefix without `$` passes through the substitution untouched. */
  lemma {:induction false} SubstitutionKeepsPlainPrefix(x: string, rest: string, matched: string, before: string, after: string)
    requires '$' !in x
    ensures Substitution(x + rest, matched, before, after) == x + Substitution(rest, matched, before, after)
    decreases |x|
  {
    if |x| == 0 {
      assert x + rest == rest;
    } else {
      var y := x + rest;
      assert y[0] == x[0] && x[0] in x;
      assert y[1..] == x[1..] + rest;
      SubstitutionPlainHead(y, matched, before, after);
      SubstitutionKeepsPlainPrefix(x[1..], rest, matched, before, after);
      HeadThenTail(x, Substitution(rest, matched, before, after));
    }
  }

  /** `$$` after a `$`-free prefix becomes a single `$`. */
  lemma SubstitutionDollarPair(x: string, rest: string, matched: string, before: string, after: string)
    requires '$' !in x
    ensures Substitution(x + ("$$" + rest), matched, before, after) == x + ("$" + Substitution(rest, matched, before, after))
  {
    SubstitutionKeepsPlainPrefix(x, "$$" + rest, matched, before, after);
    var y := "$$" + rest;
    assert y[0] == '$' && y[1] == '$' && y[2..] == rest;
  }

  /** `$&` after a `$`-free prefix becomes the matched text. */
  lemma SubstitutionMatched(x: string, rest: string, matched: string, before: string, after: string)
    requires '$' !in x
    ensures Substitution(x + ("$&" + rest), matched, before, after) == x + (matched + Substitution(rest, matched, before, after))
  {
    SubstitutionKeepsPlainPrefix(x, "$&" + rest, matched, before, after);
    var y := "$&" + rest;
    assert y[0] == '$' && y[1] == '&' && y[2..] == rest;
  }

  /** `` $` `` after a `$`-free prefix becomes the text before the match. */
  lemma SubstitutionBefore(x: string, rest: string, matched: string, before: string, after: string)
    requires '$' !in x
    ensures Substitution(x + ("$`" + rest), matched, before, after) == x + (before + Substitution(rest, matched, before, after))
  {
    SubstitutionKeepsPlainPrefix(x, "$`" + rest, matched, before, after);
    var y := "$`" + rest;
    assert y[0] == '$' && y[1] == '`' && y[2..] == rest;
  }

  /** `$'` after a `$`-free prefix becomes the text after the match. */
  lemma SubstitutionAfter(x: string, rest: string, matched: string, before: string, after: string)
    requires '$' !in x
    ensures Substitution(x + ("$'" + rest), matched, before, after) == x + (after + Substitution(rest, matched, before, after))
  {
    SubstitutionKeepsPlainPrefix(x, "$'" + rest, matched, before, after);
    var y := "$'" + rest;
    assert y[0] == '$' && y[1] == '\'' && y[2..] == rest;
  }

  /** Any other `$` after a `$`-free prefix stays as it is. */
  lemma SubstitutionLoneDollar(x: string, rest: string, matched: string, before: string, after: string)
    requires '$' !in x
    requires |rest| == 0 || (rest[0] != '$' && rest[0] != '&' && rest[0] != '`' && rest[0] != '\'')
    ensures Substitution(x + ("$" + rest), matched, before, after) == x + ("$" + Substitution(rest, matched, before, after))
  {
    SubstitutionKeepsPlainPrefix(x, "$" + rest, matched, before, after);
    var y := "$" + rest;
    assert y[0] == '$' && y[1..] == rest;
  }

  /** `s.replace(pat, rep)` in JavaScript, where `pat` and `rep` are strings. */
  function ReplaceFirstJs(s: string, pat: string, rep: string): (r: string)
    ensures !Contains(s, pat) ==> r == s
    ensures forall k :: FirstOccurrence(s, pat, k) ==>
      r == s[..k] + Substitution(rep, pat, s[..k], s[k + |pat|..]) + s[k + |pat|..]
  {
    match IndexOf(s, pat)
    case None => s
    case Some(k) => s[..k] + Substitution(rep, pat, s[..k], s[k + |pat|..]) + s[k + |pat|..]
  }

  /** Both replacements agree whenever the replacement text holds no `$`. */
  lemma ReplaceFirstJsAgreesWithoutDollar(s: string, pat: string, rep: string)
    requires '$' !in rep
    ensures ReplaceFirstJs(s, pat, rep) == ReplaceFirst(s, pat, rep)
  {
    match IndexOf(s, pat)
    case None =>
    case Some(k) =>
      assert Substitution(rep, pat, s[..k], s[k + |pat|..]) == rep;
  }

  function DigitChar(d: nat): char
    requires d < 10
  {
    ('0' as int + d) as char
  }

  predicate IsDigit(c: char) {
    '0' <= c <= '9'
  }

  /** Decimal notation of a natural number, most significant digit first. */
  function NatToString(n: nat): (r: string)
    ensures |r| > 0
    ensures forall i :: 0 <= i < |r| ==> IsDigit(r[i])
    decreases n
  {
    if n < 10 then [DigitChar(n)] else NatToString(n / 10) + [DigitChar(n % 10)]
  }

  /** How a JavaScript template literal renders an integral number below 10^21 in magnitude. */
  function IntToString(n: int): string {
    if n < 0 then "-" + NatToString(-n) else NatToString(n)
  }

  /** The value of a string of decimal digits, read left to right. */
  function DigitsValue(s: string): nat
    requires forall i :: 0 <= i < |s| ==> IsDigit(s[i])
  {
    if |s| == 0 then 0
    else
      assert IsDigit(s[|s| - 1]);
      DigitsValue(s[..|s| - 1]) * 10 + (s[|s| - 1] as int - '0' as int)
  }

  /** Reading back the decimal notation of `n` gives `n`. */
  lemma {:induction false} NatToStringRoundTrip(n: nat)
    ensures DigitsValue(NatToString(n)) == n
    decreases n
  {
    if n >= 10 {
      NatToStringRoundTrip(n / 10);
      var s := NatToString(n);
      assert s[..|s| - 1] == NatToString(n / 10);
    }
  }
}
