/**
 * Character-level string operations used by the ad rules: ASCII lower-casing,
 * substring search (`String.prototype.includes`) and the whole-word test that the
 * source writes as the regular expression `(^|[^a-z])keyword([^a-z]|$)`.
 */
module Text {

  predicate IsLowerLetter(c: char) {
    'a' <= c <= 'z'
  }

  predicate IsUpperLetter(c: char) {
    'A' <= c <= 'Z'
  }

  function LowerChar(c: char): char {
    if IsUpperLetter(c) then (c as int + 32) as char else c
  }

  /** Lower-cases the ASCII letters of `s` and leaves every other character alone. */
  function Lower(s: string): (r: string)
    ensures |r| == |s|
    ensures forall i :: 0 <= i < |s| ==> r[i] == LowerChar(s[i])
    ensures forall i :: 0 <= i < |r| ==> !IsUpperLetter(r[i])
  {
    if s == [] then [] else [LowerChar(s[0])] + Lower(s[1..])
  }

  /** A string without upper-case ASCII letters is its own lower-cased form. */
  lemma LowerOfLowerCase(s: string)
    requires forall i :: 0 <= i < |s| ==> !IsUpperLetter(s[i])
    ensures Lower(s) == s
  {
  }

  lemma LowerIdempotent(s: string)
    ensures Lower(Lower(s)) == Lower(s)
  {
    LowerOfLowerCase(Lower(s));
  }

  /** `k` occurs in `s` starting at index `i`. */
  predicate OccursAt(s: string, k: string, i: int) {
    0 <= i && i + |k| <= |s| && s[i..i + |k|] == k
  }

  /** `s.includes(k)`, computed by scanning `s` from the left. */
  function Contains(s: string, k: string): bool
    decreases |s|
  {
    |k| <= |s| && (s[..|k|] == k || Contains(s[1..], k))
  }

  lemma {:induction false} ContainsIff(s: string, k: string)
    ensures Contains(s, k) <==> exists i :: OccursAt(s, k, i)
    decreases |s|
  {
    if |k| <= |s| {
      if |s| > 0 {
        ContainsIff(s[1..], k);
      }
      if s[..|k|] == k {
        assert OccursAt(s, k, 0);
      } else if Contains(s, k) {
        var i :| OccursAt(s[1..], k, i);
        assert s[1..][i..i + |k|] == s[i + 1..i + 1 + |k|];
        assert OccursAt(s, k, i + 1);
      }
      if !Contains(s, k) {
        forall i | OccursAt(s, k, i) ensures false {
          if i > 0 {
            assert s[1..][i - 1..i - 1 + |k|] == s[i..i + |k|];
            assert OccursAt(s[1..], k, i - 1);
          }
        }
      }
    } else {
      forall i | OccursAt(s, k, i) ensures false {
      }
    }
  }

  /**
   * `k` occurs at `i` as a whole word: the character before it (if any) and the
   * character after it (if any) are not lower-case ASCII letters.
   */
  predicate WordAt(s: string, k: string, i: int) {
    OccursAt(s, k, i)
    && (i == 0 || !IsLowerLetter(s[i - 1]))
    && (i + |k| == |s| || !IsLowerLetter(s[i + |k|]))
  }

  /** The regular-expression test, computed by trying each start position from `i` on. */
  function HasWordFrom(s: string, k: string, i: nat): bool
    decreases |s| - i
  {
    if i + |k| > |s| then false else WordAt(s, k, i) || HasWordFrom(s, k, i + 1)
  }

  function HasWord(s: string, k: string): bool {
    HasWordFrom(s, k, 0)
  }

  lemma {:induction false} HasWordFromIff(s: string, k: string, i: nat)
    ensures HasWordFrom(s, k, i) <==> exists j :: i <= j && WordAt(s, k, j)
    decreases |s| - i
  {
    if i + |k| <= |s| {
      HasWordFromIff(s, k, i + 1);
      forall j | i <= j && WordAt(s, k, j) ensures HasWordFrom(s, k, i) {
        if j > i {
          assert i + 1 <= j;
        }
      }
    }
  }

  lemma HasWordIff(s: string, k: string)
    ensures HasWord(s, k) <==> exists i :: WordAt(s, k, i)
  {
    HasWordFromIff(s, k, 0);
  }
}
