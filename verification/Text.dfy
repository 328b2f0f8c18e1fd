/** Case folding on ASCII codes and addresses. */
module Text {

  function Lower(c: char): char
  {
    if 'A' <= c <= 'Z' then (c as int + 32) as char else c
  }

  /** String.toLowerCase. */
  function ToLower(s: string): string
  {
    seq(|s|, i requires 0 <= i < |s| => Lower(s[i]))
  }

  /** String.equalsIgnoreCase. */
  predicate EqualsIgnoreCase(a: string, b: string)
  {
    ToLower(a) == ToLower(b)
  }

  /** The same letter, or the two cases of one ASCII letter. */
  predicate SameLetter(c: char, d: char)
  {
    || c == d
    || ('A' <= c <= 'Z' && d as int == c as int + 32)
    || ('A' <= d <= 'Z' && c as int == d as int + 32)
  }

  predicate SameLetters(a: string, b: string)
  {
    |a| == |b| && forall i :: 0 <= i < |a| ==> SameLetter(a[i], b[i])
  }

  lemma LowerLetter(c: char, d: char)
    ensures Lower(c) == Lower(d) <==> SameLetter(c, d)
    ensures !('A' <= Lower(c) <= 'Z') && SameLetter(Lower(c), c)
  {
  }

  /** Equality up to case is equality letter by letter up to case. */
  lemma EqualLetterByLetter(a: string, b: string)
    ensures EqualsIgnoreCase(a, b) <==> SameLetters(a, b)
  {
    if |a| == |b| {
      forall i | 0 <= i < |a| ensures ToLower(a)[i] == ToLower(b)[i] <==> SameLetter(a[i], b[i]) {
        LowerLetter(a[i], b[i]);
      }
      assert |ToLower(a)| == |ToLower(b)|;
      if SameLetters(a, b) {
        assert ToLower(a) == ToLower(b);
      } else {
        var i :| 0 <= i < |a| && !SameLetter(a[i], b[i]);
        assert ToLower(a)[i] != ToLower(b)[i];
      }
    } else {
      assert |ToLower(a)| != |ToLower(b)|;
    }
  }

  /** Lower case leaves no capital letter and is the same text up to case. */
  lemma LowerCase(s: string)
    ensures SameLetters(ToLower(s), s)
    ensures forall i :: 0 <= i < |ToLower(s)| ==> !('A' <= ToLower(s)[i] <= 'Z')
  {
    forall i | 0 <= i < |s| ensures SameLetter(ToLower(s)[i], s[i]) && !('A' <= ToLower(s)[i] <= 'Z') {
      LowerLetter(s[i], s[i]);
    }
  }
}
