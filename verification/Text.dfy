/** Python string operations. Letter case is modelled for ASCII. */
module Text {
  import opened Wrappers

  function UpperChar(c: char): char {
    if 'a' <= c <= 'z' then (c as int - 32) as char else c
  }

  function LowerChar(c: char): char {
    if 'A' <= c <= 'Z' then (c as int + 32) as char else c
  }

  function Upper(s: string): string { seq(|s|, i requires 0 <= i < |s| => UpperChar(s[i])) }

  function Lower(s: string): string { seq(|s|, i requires 0 <= i < |s| => LowerChar(s[i])) }

  predicate OccursAt(text: string, needle: string, i: nat) {
    i + |needle| <= |text| && text[i..i + |needle|] == needle
  }

  /** `needle in text` */
  predicate Contains(text: string, needle: string) {
    exists i :: 0 <= i <= |text| - |needle| && OccursAt(text, needle, i)
  }

  /** Python's truth value of an optional string: the empty string counts as absent. */
  predicate Given(s: Option<string>) {
    s.Some? && s.value != ""
  }

  // Letter case

  predicate SameLetter(c: char, d: char) {
    || c == d
    || ('a' <= c <= 'z' && d as int == c as int - 32)
    || ('A' <= c <= 'Z' && d as int == c as int + 32)
  }

  predicate SameIgnoringCase(s: string, t: string) {
    |s| == |t| && forall i :: 0 <= i < |s| ==> SameLetter(s[i], t[i])
  }

  lemma SameLetters(c: char, d: char)
    ensures LowerChar(c) == LowerChar(d) <==> SameLetter(c, d)
    ensures UpperChar(c) == d <==> SameLetter(c, d) && !('a' <= d <= 'z')
  {
  }

  lemma SameLower(s: string, t: string)
    ensures Lower(s) == Lower(t) <==> SameIgnoringCase(s, t)
  {
    if |s| == |t| {
      forall i | 0 <= i < |s| ensures Lower(s)[i] == Lower(t)[i] <==> SameLetter(s[i], t[i]) {
        SameLetters(s[i], t[i]);
      }
    } else {
      assert |Lower(s)| != |Lower(t)|;
    }
  }

  /** `u == s.upper()` */
  lemma UpperMeaning(s: string, u: string)
    ensures Upper(s) == u <==> SameIgnoringCase(s, u) && forall i :: 0 <= i < |u| ==> !('a' <= u[i] <= 'z')
  {
    if |s| == |u| {
      forall i | 0 <= i < |s| ensures Upper(s)[i] == u[i] <==> SameLetter(s[i], u[i]) && !('a' <= u[i] <= 'z') {
        SameLetters(s[i], u[i]);
      }
    } else {
      assert |Upper(s)| != |u|;
    }
  }

  /** From position `i` on the text reads like the needle, whatever the case of its letters. */
  predicate ReadsAt(text: string, needle: string, i: nat) {
    i + |needle| <= |text| && forall k :: 0 <= k < |needle| ==> SameLetter(text[i + k], needle[k])
  }

  /** `needle.lower() in text.lower()` */
  lemma SearchIgnoresCase(text: string, needle: string)
    ensures Contains(Lower(text), Lower(needle)) <==> exists i: nat :: ReadsAt(text, needle, i)
  {
    forall i: nat ensures OccursAt(Lower(text), Lower(needle), i) <==> ReadsAt(text, needle, i) {
      if i + |needle| <= |text| {
        var part := text[i..i + |needle|];
        assert Lower(text)[i..i + |needle|] == Lower(part);
        SameLower(part, needle);
        assert forall k :: 0 <= k < |needle| ==> part[k] == text[i + k];
      }
    }
    if i: nat :| ReadsAt(text, needle, i) {
      assert OccursAt(Lower(text), Lower(needle), i);
    }
  }
}
