/** The string comparisons the vDC API uses, for ASCII text. */
module Text {
  function FoldChar(c: char): char {
    if 'A' <= c <= 'Z' then (c as int + 32) as char else c
  }

  function Fold(s: string): string {
    seq(|s|, i requires 0 <= i < |s| => FoldChar(s[i]))
  }

  predicate EqualFold(s: string, t: string) {
    Fold(s) == Fold(t)
  }

  /** Two strings are the same under folding exactly if they agree in all but the case of letters. */
  lemma OnlyCaseDiffers(s: string, t: string)
    ensures EqualFold(s, t) <==>
              && |s| == |t|
              && forall i :: 0 <= i < |s| ==>
                   || s[i] == t[i]
                   || ('A' <= s[i] <= 'Z' && t[i] as int == s[i] as int + 32)
                   || ('A' <= t[i] <= 'Z' && s[i] as int == t[i] as int + 32)
  {
    if EqualFold(s, t) {
      assert |Fold(s)| == |Fold(t)|;
      assert forall i :: 0 <= i < |s| ==> Fold(s)[i] == FoldChar(s[i]) && Fold(t)[i] == FoldChar(t[i]);
    }
  }

  predicate Blank(c: char) {
    c == ' ' || '\t' <= c <= '\r'   // tab, line feed, vertical tab, form feed, carriage return
  }

  function TrimSpace(s: string): string
    decreases |s|
  {
    if s == [] then s
    else if Blank(s[0]) then TrimSpace(s[1..])
    else if Blank(s[|s| - 1]) then TrimSpace(s[..|s| - 1])
    else s
  }

  /** Trimming takes blanks from both ends, as many as there are, and nothing else. */
  lemma {:induction false} TrimTakesBlanks(s: string) returns (a: nat, b: nat)
    ensures a <= b <= |s| && TrimSpace(s) == s[a..b]
    ensures forall i :: 0 <= i < a || b <= i < |s| ==> s[i] == ' ' || '\t' <= s[i] <= '\r'
    ensures a < b ==> s[a] != ' ' && !('\t' <= s[a] <= '\r') && s[b - 1] != ' ' && !('\t' <= s[b - 1] <= '\r')
    decreases |s|
  {
    if s == [] {
      a, b := 0, 0;
    } else if Blank(s[0]) {
      a, b := TrimTakesBlanks(s[1..]);
      assert forall i :: 1 <= i < |s| ==> s[i] == s[1..][i - 1];
      a, b := a + 1, b + 1;
    } else if Blank(s[|s| - 1]) {
      a, b := TrimTakesBlanks(s[..|s| - 1]);
      assert forall i :: 0 <= i < |s| - 1 ==> s[i] == s[..|s| - 1][i];
    } else {
      a, b := 0, |s|;
    }
  }
}
