/**
 * The string operations the directory search is built from: JavaScript's
 * `toLowerCase` (restricted to ASCII letters) and `includes`.
 */
module Text {

  predicate IsUpper(c: char) {
    'A' <= c <= 'Z'
  }

  /** Lowers one character; only the ASCII capitals A-Z are changed. */
  function LowerChar(c: char): (r: char)
    ensures !IsUpper(r)
    ensures r == c || (IsUpper(c) && r as int - c as int == 'a' as int - 'A' as int)
  {
    if IsUpper(c) then (c as int - 'A' as int + 'a' as int) as char else c
  }

  /** `s.toLowerCase()`, character by character. */
  function Lower(s: string): (r: string)
    ensures |r| == |s|
    ensures forall i :: 0 <= i < |s| ==> r[i] == LowerChar(s[i])
  {
    seq(|s|, i requires 0 <= i < |s| => LowerChar(s[i]))
  }

  /** Two strings that differ only in the case of their letters. */
  predicate SameUpToCase(a: string, b: string) {
    Lower(a) == Lower(b)
  }

  /** Two characters that are equal or are the same ASCII letter in the two cases. */
  predicate CaseVariantChar(c: char, d: char) {
    c == d || (IsUpper(c) && d as int == c as int - 'A' as int + 'a' as int)
      || (IsUpper(d) && c as int == d as int - 'A' as int + 'a' as int)
  }

  /** Two strings that differ at most in the letter case of each character. */
  predicate CaseVariant(a: string, b: string) {
    |a| == |b| && forall i :: 0 <= i < |a| ==> CaseVariantChar(a[i], b[i])
  }

  /** Strings that differ only in letter case have the same lowered form. */
  lemma CaseVariantSameUpToCase(a: string, b: string)
    requires CaseVariant(a, b)
    ensures SameUpToCase(a, b)
  {
  }

  lemma LowerIdempotent(s: string)
    ensures Lower(Lower(s)) == Lower(s)
  {
  }

  /** Lowering distributes over concatenation. */
  lemma LowerAppend(a: string, b: string)
    ensures Lower(a + b) == Lower(a) + Lower(b)
  {
  }

  /** `q` occurs in `s` starting at offset `i`. */
  ghost predicate OccursAt(s: string, q: string, i: int) {
    0 <= i && i + |q| <= |s| && s[i..i + |q|] == q
  }

  /** An occurrence in the tail of `s` is an occurrence in `s`, one place further on. */
  lemma OccursInTail(s: string, q: string, j: int)
    requires s != [] && OccursAt(s[1..], q, j)
    ensures OccursAt(s, q, j + 1)
  {
    assert s[1..][j..j + |q|] == s[j + 1..j + 1 + |q|];
  }

  /** `q` occurs at offset 0 exactly when it is a prefix of `s`. */
  lemma OccursAtHead(s: string, q: string)
    ensures OccursAt(s, q, 0) <==> q <= s
  {
    if |q| <= |s| {
      assert s[0..|q|] == s[..|q|];
    }
  }

  /** An occurrence in `s` past offset 0 is an occurrence in its tail, one place earlier. */
  lemma OccursPastHead(s: string, q: string, i: int)
    requires OccursAt(s, q, i) && !(q <= s)
    ensures i > 0 && OccursAt(s[1..], q, i - 1)
  {
    OccursAtHead(s, q);
    assert s[1..][i - 1..i - 1 + |q|] == s[i..i + |q|];
  }

  /** `s.includes(q)`: some offset of `s` holds `q`. */
  function Includes(s: string, q: string): (r: bool)
    ensures r <==> exists i :: OccursAt(s, q, i)
    decreases |s|
  {
    if q <= s then
      assert OccursAt(s, q, 0);
      true
    else if s == [] then
      false
    else
      var r := Includes(s[1..], q);
      assert r ==> exists i :: OccursAt(s, q, i) by {
        if r {
          var j :| OccursAt(s[1..], q, j);
          OccursInTail(s, q, j);
        }
      }
      assert (exists i :: OccursAt(s, q, i)) ==> r by {
        if exists i :: OccursAt(s, q, i) {
          var i :| OccursAt(s, q, i);
          OccursPastHead(s, q, i);
        }
      }
      r
  }

  /** Every string includes the empty string. */
  lemma IncludesEmpty(s: string)
    ensures Includes(s, "")
  {
    assert OccursAt(s, "", 0);
  }

  /** An explicit offset at which `q` occurs, character by character, shows `s.includes(q)`. */
  lemma IncludesAt(s: string, q: string, i: nat)
    requires i + |q| <= |s|
    requires forall j :: 0 <= j < |q| ==> s[i + j] == q[j]
    ensures Includes(s, q)
  {
    assert s[i..i + |q|] == q;
    assert OccursAt(s, q, i);
  }

  /** If the first three characters of `q` never appear consecutively in `s`, then `s` does not include `q`. */
  lemma ExcludedByPrefix(s: string, q: string)
    requires |q| >= 3
    requires forall i :: 0 <= i && i + 2 < |s| ==> !(s[i] == q[0] && s[i + 1] == q[1] && s[i + 2] == q[2])
    ensures !Includes(s, q)
  {
    forall i
      ensures !OccursAt(s, q, i)
    {
      if 0 <= i && i + |q| <= |s| {
        var w := s[i..i + |q|];
        assert w[0] == s[i] && w[1] == s[i + 1] && w[2] == s[i + 2];
      }
    }
  }

  /** If some character of `q` appears nowhere in `s`, then `s` does not include `q`. */
  lemma ExcludedByChar(s: string, q: string, k: nat)
    requires k < |q|
    requires forall i :: 0 <= i < |s| ==> s[i] != q[k]
    ensures !Includes(s, q)
  {
    forall i
      ensures !OccursAt(s, q, i)
    {
      if 0 <= i && i + |q| <= |s| {
        assert s[i..i + |q|][k] == s[i + k];
      }
    }
  }
}
