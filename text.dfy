/** String predicates the listings and the item-code generator rely on. Strings are
    sequences of characters compared by code point (a binary collation). */
module Text {

  /** The characters PHP's trim() strips. */
  predicate IsTrimmable(c: char) {
    c == ' ' || c == '\t' || c == '\n' || c == '\r' || c == '\0' || c == '\U{0B}'
  }

  /** A string that trims to "": what the framework treats as not filled in. */
  predicate IsBlank(s: string) {
    forall i :: 0 <= i < |s| ==> IsTrimmable(s[i])
  }

  predicate StartsWith(s: string, prefix: string) {
    |prefix| <= |s| && s[..|prefix|] == prefix
  }

  /** `term` occurs in `s` starting at position `i`. */
  predicate OccursAt(s: string, term: string, i: nat) {
    i + |term| <= |s| && s[i..i + |term|] == term
  }

  /** Substring search, the meaning of `LIKE '%term%'` without wildcards in the term. */
  function Contains(s: string, term: string): (r: bool)
    ensures r <==> exists i: nat :: OccursAt(s, term, i)
    decreases |s|
  {
    if StartsWith(s, term) then
      assert OccursAt(s, term, 0);
      true
    else if |s| <= |term| then
      false
    else
      var r := Contains(s[1..], term);
      assert forall i: nat :: OccursAt(s[1..], term, i) <==> OccursAt(s, term, i + 1) by {
        forall i: nat ensures OccursAt(s[1..], term, i) <==> OccursAt(s, term, i + 1) {
          if i + |term| <= |s| - 1 {
            assert s[1..][i..i + |term|] == s[i + 1..i + 1 + |term|];
          }
        }
      }
      assert !OccursAt(s, term, 0);
      assert forall i: nat :: OccursAt(s, term, i) ==> OccursAt(s[1..], term, i - 1);
      r
  }

  /** Lexicographic order on strings, character by character: the order of
      `ORDER BY code`. */
  predicate LexLe(a: string, b: string) {
    a == [] || (b != [] && (a[0] < b[0] || (a[0] == b[0] && LexLe(a[1..], b[1..]))))
  }

  lemma {:induction false} LexLeTotal(a: string, b: string)
    ensures LexLe(a, b) || LexLe(b, a)
  {
    if a != [] && b != [] && a[0] == b[0] {
      LexLeTotal(a[1..], b[1..]);
    }
  }

  lemma {:induction false} LexLeTransitive(a: string, b: string, c: string)
    requires LexLe(a, b) && LexLe(b, c)
    ensures LexLe(a, c)
  {
    if a != [] && b != [] && c != [] && a[0] == b[0] == c[0] {
      LexLeTransitive(a[1..], b[1..], c[1..]);
    }
  }

  lemma {:induction false} LexLeAntisymmetric(a: string, b: string)
    requires LexLe(a, b) && LexLe(b, a)
    ensures a == b
  {
    if a != [] && b != [] {
      LexLeAntisymmetric(a[1..], b[1..]);
      assert a == [a[0]] + a[1..] && b == [b[0]] + b[1..];
    }
  }
}
