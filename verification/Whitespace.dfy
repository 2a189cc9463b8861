/** Trimming, as the platform's data models trim the text fields they are given. */
module Whitespace {

  /** The characters with the Unicode property White_Space. */
  predicate Space(c: char) {
    || '\t' <= c <= '\r' || c == ' ' || c == '\U{85}' || c == '\U{A0}' || c == '\U{1680}'
    || '\U{2000}' <= c <= '\U{200A}' || c == '\U{2028}' || c == '\U{2029}' || c == '\U{202F}'
    || c == '\U{205F}' || c == '\U{3000}'
  }

  predicate AllSpaces(s: string) {
    forall i | 0 <= i < |s| :: Space(s[i])
  }

  /** No white space at either end. */
  predicate Trimmed(s: string) {
    s == [] || (!Space(s[0]) && !Space(s[|s| - 1]))
  }

  function TrimLeft(s: string): string {
    if s != [] && Space(s[0]) then TrimLeft(s[1..]) else s
  }

  function TrimRight(s: string): string {
    if s != [] && Space(s[|s| - 1]) then TrimRight(s[..|s| - 1]) else s
  }

  function Strip(s: string): string {
    TrimRight(TrimLeft(s))
  }

  lemma {:induction false} TrimLeftDrops(s: string) returns (i: nat)
    ensures i <= |s| && TrimLeft(s) == s[i..] && AllSpaces(s[..i])
    ensures i == |s| || !Space(s[i])
  {
    i := 0;
    if s != [] && Space(s[0]) {
      var rest := TrimLeftDrops(s[1..]);
      i := rest + 1;
      assert s[1..][rest..] == s[i..];
      assert forall k | 0 < k < i :: s[k] == s[1..][..rest][k - 1];
    }
  }

  lemma {:induction false} TrimRightDrops(s: string) returns (j: nat)
    ensures j <= |s| && TrimRight(s) == s[..j] && AllSpaces(s[j..])
    ensures j == 0 || !Space(s[j - 1])
  {
    j := |s|;
    if s != [] && Space(s[|s| - 1]) {
      var front := s[..|s| - 1];
      j := TrimRightDrops(front);
      assert front[..j] == s[..j];
      assert forall k | j <= k < |s| - 1 :: s[k] == front[j..][k - j];
    }
  }

  /** What is left is the text from the first to the last character that is not white space. */
  lemma {:induction false} StripKeepsMiddle(s: string) returns (i: nat, j: nat)
    ensures i <= j <= |s| && Strip(s) == s[i..j] && AllSpaces(s[..i]) && AllSpaces(s[j..])
    ensures Trimmed(Strip(s))
  {
    i := TrimLeftDrops(s);
    var left := s[i..];
    var n := TrimRightDrops(left);
    j := i + n;
    assert left[..n] == s[i..j] && left[n..] == s[j..];
  }

  /** A text stays as it is exactly when it has no white space at its ends. */
  lemma {:induction false} StripFixes(s: string)
    ensures Strip(s) == s <==> Trimmed(s)
  {
    var i, j := StripKeepsMiddle(s);
  }

  lemma {:induction false} StripTwice(s: string)
    ensures Strip(Strip(s)) == Strip(s)
  {
    var i, j := StripKeepsMiddle(s);
    StripFixes(Strip(s));
  }

  lemma {:induction false} StripLeadingSpace(s: string)
    requires s != [] && Trimmed(s)
    ensures Strip([' '] + s) == s
  {
    assert ([' '] + s)[1..] == s;
    assert TrimLeft([' '] + s) == TrimLeft(s);
  }
}
