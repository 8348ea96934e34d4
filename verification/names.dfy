/**
 * String helpers the container applies to identifiers and argument names:
 * `ltrim($id, '\\')` (normalizeID), `strtolower` and PHP's `empty()` on strings.
 */
module Names {

  /** The namespace separator that normalizeID strips. */
  const Separator: char := '\\'

  /**
   * normalizeID: strips EVERY leading namespace separator (it is `ltrim`,
   * not a single strip). The result is the suffix of `id` left after a
   * (possibly empty) run of separators, and it never starts with one.
   */
  function NormalizeId(id: string): (nid: string)
    ensures |nid| <= |id|
    ensures nid == id[|id| - |nid|..]
    ensures forall i :: 0 <= i < |id| - |nid| ==> id[i] == Separator
    ensures |nid| == 0 || nid[0] != Separator
  {
    if |id| > 0 && id[0] == Separator then NormalizeId(id[1..]) else id
  }

  /** `k` separators in a row. */
  function Separators(k: nat): (s: string)
    ensures |s| == k
  {
    if k == 0 then "" else [Separator] + Separators(k - 1)
  }

  /** Normalising twice is normalising once. */
  lemma NormalizeIdempotent(id: string)
    ensures NormalizeId(NormalizeId(id)) == NormalizeId(id)
  {
  }

  /** `X`, `\X`, `\\X`, ... all normalise to the same identifier. */
  lemma {:induction false} NormalizeIgnoresSeparators(k: nat, id: string)
    ensures NormalizeId(Separators(k) + id) == NormalizeId(id)
  {
    if k > 0 {
      var rest := Separators(k - 1) + id;
      var s := Separators(k) + id;
      assert s == [Separator] + rest;
      assert s[0] == Separator && s[1..] == rest;
      assert NormalizeId(s) == NormalizeId(rest);
      NormalizeIgnoresSeparators(k - 1, id);
    } else {
      assert Separators(k) + id == id;
    }
  }

  /** ASCII lower-casing of one character, as PHP 8's `strtolower`. */
  function LowerChar(c: char): char {
    if 'A' <= c <= 'Z' then (c as int + 32) as char else c
  }

  /** `strtolower` (ASCII only, locale-insensitive). */
  function Lower(s: string): (r: string)
    ensures |r| == |s|
    ensures forall i :: 0 <= i < |s| ==> r[i] == LowerChar(s[i])
  {
    seq(|s|, i requires 0 <= i < |s| => LowerChar(s[i]))
  }

  /** PHP `empty()` on a string: true exactly for `""` and `"0"`. */
  predicate EmptyString(s: string) {
    s == "" || s == "0"
  }
}
