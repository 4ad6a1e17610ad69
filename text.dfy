/** The stock optional-value wrapper used throughout the model. */
module Wrappers {
  datatype Option<+T> = None | Some(value: T)
}

/**
 * The two string helpers the store relies on: `Str::contains` (a `strpos`
 * search) and `Str::after` (the text after the first occurrence of a needle).
 * Strings are sequences of characters; no encoding is modelled.
 */
module Text {
  import opened Wrappers

  /** The needle `d` occurs in `s` starting at index `j`. */
  predicate OccursAt(s: string, d: string, j: int) {
    0 <= j && j + |d| <= |s| && s[j..j + |d|] == d
  }

  /** An occurrence in the tail of `s` is an occurrence in `s`, one index later. */
  lemma OccursAtTail(s: string, d: string, k: int)
    requires |s| > 0 && 1 <= k
    ensures OccursAt(s, d, k) <==> OccursAt(s[1..], d, k - 1)
  {
  }

  /** `strpos`: the index of the first occurrence of `d` in `s`, or None. */
  function IndexOf(s: string, d: string): (r: Option<nat>)
    ensures r.Some? ==> OccursAt(s, d, r.value)
    ensures r.Some? ==> forall j :: 0 <= j < r.value ==> !OccursAt(s, d, j)
    ensures r.None? ==> forall j :: !OccursAt(s, d, j)
    decreases |s|
  {
    if |s| < |d| then None
    else if s[..|d|] == d then Some(0)
    else
      assert !OccursAt(s, d, 0);
      assert forall k :: 1 <= k ==> (OccursAt(s, d, k) <==> OccursAt(s[1..], d, k - 1)) by {
        forall k | 1 <= k ensures OccursAt(s, d, k) <==> OccursAt(s[1..], d, k - 1) {
          OccursAtTail(s, d, k);
        }
      }
      match IndexOf(s[1..], d)
      case None => None
      case Some(i) => Some(i + 1)
  }

  /**
   * `Str::contains` with a single needle: false for the empty needle, else
   * `strpos !== false`, that is, the needle occurs somewhere.
   */
  function Contains(s: string, d: string): (b: bool)
    ensures b <==> d != [] && exists j :: OccursAt(s, d, j)
  {
    if d == [] then false
    else match IndexOf(s, d)
      case None => false
      case Some(i) => assert OccursAt(s, d, i); true
  }

  /**
   * `Str::after`: the text after the first occurrence of `d`, and the whole
   * of `s` when `d` does not occur (or is empty).
   */
  function After(s: string, d: string): (r: string)
    ensures r == s <==> !Contains(s, d)
    ensures Contains(s, d) ==>
      exists i :: OccursAt(s, d, i) && (forall j :: 0 <= j < i ==> !OccursAt(s, d, j)) && r == s[i + |d|..]
  {
    if d == [] then s
    else match IndexOf(s, d)
      case None => s
      case Some(i) => assert OccursAt(s, d, i) && |s[i + |d|..]| < |s|; s[i + |d|..]
  }

  /** An occurrence that ends inside a prefix `t` of `t + u` is an occurrence in `t`. */
  lemma OccursInPrefix(t: string, u: string, d: string, j: int)
    requires 0 <= j && j + |d| <= |t|
    ensures OccursAt(t + u, d, j) ==> OccursAt(t, d, j)
  {
  }

  /**
   * Splitting a logical key: the text after the first "::" of `h + "::" + p`
   * is exactly `p`, whatever `p` holds, provided `h + ":"` has no "::" (that
   * is, `h` has no "::" and does not end in ':').
   */
  lemma {:induction false} AfterKey(h: string, p: string)
    requires !Contains(h + ":", "::")
    ensures After(h + "::" + p, "::") == p
  {
    var s := h + "::" + p;
    assert s == (h + ":") + (":" + p);
    assert s[|h|..|h| + 2] == "::";
    assert OccursAt(s, "::", |h|);
    forall j | 0 <= j < |h|
      ensures !OccursAt(s, "::", j)
    {
      OccursInPrefix(h + ":", ":" + p, "::", j);
    }
    var i := IndexOf(s, "::").value;
    assert i == |h|;
    assert s[|h| + 2..] == p;
  }

  /**
   * A handle without "::" is not enough for AfterKey: the handle "a:" has no
   * "::", yet splitting its key keeps a stray ':'.
   */
  lemma AfterKeyHandleEndingInColon()
    ensures !Contains("a:", "::")
    ensures After("a:" + "::" + "x.jpg", "::") == ":x.jpg"
  {
    var s := "a:" + "::" + "x.jpg";
    assert s[1..3] == "::";
    assert OccursAt(s, "::", 1);
    assert !OccursAt(s, "::", 0) by { assert s[0..2] == "a:"; }
    assert IndexOf(s, "::") == Some(1);
    assert s[3..] == ":x.jpg";
    assert !OccursAt("a:", "::", 0) by { assert "a:"[0..2] == "a:"; }
  }
}
