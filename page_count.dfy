/**
 * extract_number (crawl.py:139-153): `re.search(r'of\s+(\d+)', text)` and `int` of
 * the digit group. The search reports the leftmost position where the pattern
 * matches; `\s+` and `\d+` are greedy, and no digit is whitespace, so a match at a
 * position is "of", the whole run of whitespace after it (at least one character),
 * and the whole run of digits after that (at least one).
 */
module PageCount {
  import opened Outcomes
  import opened Text

  /** `\s` in a `str` pattern: the characters for which `str.isspace()` holds. */
  predicate IsSpace(c: char)
  {
    c == ' ' || '\t' <= c <= '\r' || '\U{1c}' <= c <= '\U{1f}' || c == '\U{85}' || c == '\U{a0}'
    || c == '\U{1680}' || '\U{2000}' <= c <= '\U{200a}' || c == '\U{2028}' || c == '\U{2029}'
    || c == '\U{202f}' || c == '\U{205f}' || c == '\U{3000}'
  }

  /** The end of the longest run of characters satisfying `inClass` that starts at `k`. */
  function RunEnd(t: string, k: nat, inClass: char -> bool): (e: nat)
    requires k <= |t|
    ensures k <= e <= |t|
    ensures forall j :: k <= j < e ==> inClass(t[j])
    ensures e == |t| || !inClass(t[e])
    decreases |t| - k
  {
    if k < |t| && inClass(t[k]) then RunEnd(t, k + 1, inClass) else k
  }

  lemma {:induction false} RunEndUnique(t: string, k: nat, e: nat, inClass: char -> bool)
    requires k <= e <= |t|
    requires forall j :: k <= j < e ==> inClass(t[j])
    requires e == |t| || !inClass(t[e])
    ensures RunEnd(t, k, inClass) == e
    decreases e - k
  {
    if k < e {
      RunEndUnique(t, k + 1, e, inClass);
    }
  }

  /** What the pattern yields when tried at position `i`. */
  function MatchAt(t: string, i: nat): Option<nat>
    requires i <= |t|
  {
    if i + 2 <= |t| && t[i] == 'o' && t[i + 1] == 'f' then
      var k := RunEnd(t, i + 2, IsSpace);
      var e := RunEnd(t, k, IsDigit);
      if k == i + 2 || e == k then None else Some(DigitsValue(t[k..e]))
    else None
  }

  /** `re.search` from position `i` on: the first position that matches decides. */
  function SearchFrom(t: string, i: nat): Option<nat>
    requires i <= |t|
    decreases |t| - i
  {
    if MatchAt(t, i).Some? then MatchAt(t, i)
    else if i == |t| then None
    else SearchFrom(t, i + 1)
  }

  /** extract_number: the page total in text of the shape "of {number}", or None. */
  function ExtractNumber(text: string): Option<nat>
  {
    SearchFrom(text, 0)
  }

  /**
   * The match `re.search` reports at position `i`: "of" at `i`, whitespace in
   * `[i+2, k)`, the digit group in `[k, e)`, and no digit right after it.
   */
  ghost predicate Match(t: string, i: nat, k: nat, e: nat)
  {
    i + 2 < k < e <= |t| && t[i..i + 2] == "of"
    && (forall j :: i + 2 <= j < k ==> IsSpace(t[j]))
    && (forall j :: k <= j < e ==> IsDigit(t[j]))
    && (e == |t| || !IsDigit(t[e]))
  }

  lemma MatchAtSound(t: string, i: nat)
    requires i <= |t| && MatchAt(t, i).Some?
    ensures var k := RunEnd(t, i + 2, IsSpace); var e := RunEnd(t, k, IsDigit);
      Match(t, i, k, e) && MatchAt(t, i) == Some(DigitsValue(t[k..e]))
  {
    assert t[i..i + 2] == [t[i], t[i + 1]];
  }

  lemma MatchAtComplete(t: string, i: nat, k: nat, e: nat)
    requires Match(t, i, k, e)
    ensures MatchAt(t, i) == Some(DigitsValue(t[k..e]))
  {
    assert t[i] == t[i..i + 2][0] && t[i + 1] == t[i..i + 2][1];
    assert !IsSpace(t[k]);
    RunEndUnique(t, i + 2, k, IsSpace);
    RunEndUnique(t, k, e, IsDigit);
  }

  /** SearchFrom reports the first matching position at or after `i`. */
  lemma {:induction false} SearchFromSpec(t: string, i: nat)
    requires i <= |t|
    ensures SearchFrom(t, i).None? <==> forall j: nat, k: nat, e: nat :: i <= j ==> !Match(t, j, k, e)
    ensures SearchFrom(t, i).Some? ==>
      (exists j: nat, k: nat, e: nat :: i <= j && Match(t, j, k, e)
        && SearchFrom(t, i) == Some(DigitsValue(t[k..e]))
        && forall j': nat, k': nat, e': nat :: i <= j' < j ==> !Match(t, j', k', e'))
    decreases |t| - i
  {
    if MatchAt(t, i).Some? {
      MatchAtSound(t, i);
      var k := RunEnd(t, i + 2, IsSpace);
      var e := RunEnd(t, k, IsDigit);
      assert Match(t, i, k, e);
    } else {
      forall k: nat, e: nat | Match(t, i, k, e) ensures false {
        MatchAtComplete(t, i, k, e);
      }
      if i < |t| {
        SearchFromSpec(t, i + 1);
        if SearchFrom(t, i + 1).Some? {
          var j: nat, k: nat, e: nat :| i + 1 <= j && Match(t, j, k, e)
            && SearchFrom(t, i + 1) == Some(DigitsValue(t[k..e]))
            && forall j': nat, k': nat, e': nat :: i + 1 <= j' < j ==> !Match(t, j', k', e');
          assert i <= j && forall j': nat, k': nat, e': nat :: i <= j' < j ==> !Match(t, j', k', e');
        }
      }
    }
  }

  /**
   * extract_number returns None exactly when no "of" is followed by whitespace and
   * digits; otherwise the decimal value (possibly 0) of the digit run of the
   * leftmost such "of".
   */
  lemma ExtractNumberSpec(text: string)
    ensures ExtractNumber(text).None? <==> forall i: nat, k: nat, e: nat :: !Match(text, i, k, e)
    ensures ExtractNumber(text).Some? ==>
      (exists i: nat, k: nat, e: nat :: Match(text, i, k, e)
        && ExtractNumber(text) == Some(DigitsValue(text[k..e]))
        && forall j: nat, k': nat, e': nat :: j < i ==> !Match(text, j, k', e'))
  {
    SearchFromSpec(text, 0);
  }

  /** The page-total texts of the kinds the site shows, and the degenerate ones. */
  lemma ExtractNumberExamples()
    ensures ExtractNumber("of 12") == Some(12)
    ensures ExtractNumber("of 0") == Some(0)
    ensures ExtractNumber("of") == None
    ensures ExtractNumber("") == None
  {
    var t := "of 12";
    MatchAtComplete(t, 0, 3, 5);
    assert t[3..5] == "12" && "12"[..1] == "1" && "1"[..0] == "";
    var z := "of 0";
    MatchAtComplete(z, 0, 3, 4);
    assert z[3..4] == "0" && "0"[..0] == "";
    assert SearchFrom("of", 1) == None by {
      assert SearchFrom("of", 2) == None;
    }
  }
}
