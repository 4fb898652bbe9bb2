/** Comment stripping of one source line (src/utils.rs). */
module Utils {
  import opened Options

  /** A `//` comment marker starts at position `k` of `s`. */
  predicate MarkerAt(s: string, k: nat)
  {
    k + 1 < |s| && s[k] == '/' && s[k + 1] == '/'
  }

  predicate HasMarker(s: string)
  {
    exists k: nat | k < |s| :: MarkerAt(s, k)
  }

  /** `str::find("//")` from position `i` on: the first marker at or after `i`. */
  function FindMarkerFrom(s: string, i: nat): (r: Option<nat>)
    requires i <= |s|
    ensures r.Some? ==> i <= r.value && MarkerAt(s, r.value)
    ensures r.Some? ==> forall k: nat :: i <= k < r.value ==> !MarkerAt(s, k)
    ensures r.None? ==> forall k: nat :: i <= k ==> !MarkerAt(s, k)
    decreases |s| - i
  {
    if i + 1 >= |s| then None
    else if s[i] == '/' && s[i + 1] == '/' then Some(i)
    else FindMarkerFrom(s, i + 1)
  }

  /**
   * `remove_whitespace_comments`: keep the text before the first `//`;
   * report `None` when nothing is left. Whitespace is not trimmed.
   */
  function RemoveComments(s: string): (r: Option<string>)
    ensures r.None? <==> (s == [] || MarkerAt(s, 0))
    ensures r.Some? ==> r.value != [] && r.value <= s && !HasMarker(r.value)
    ensures r.Some? && !HasMarker(s) ==> r.value == s
    ensures r.Some? && HasMarker(s) ==> FindMarkerFrom(s, 0) == Some(|r.value|)
  {
    var kept := match FindMarkerFrom(s, 0) case Some(idx) => s[..idx] case None => s;
    assert !HasMarker(kept) by {
      forall k: nat ensures !MarkerAt(kept, k) {
        if MarkerAt(kept, k) {
          assert MarkerAt(s, k);
        }
      }
    }
    if kept == [] then None else Some(kept)
  }

  /** Stripping a line that was already stripped leaves it as it is. */
  lemma RemoveCommentsIdempotent(s: string)
    requires RemoveComments(s).Some?
    ensures RemoveComments(RemoveComments(s).value) == RemoveComments(s)
  {
  }

  /** A line whose comment follows only blanks keeps the blanks. */
  lemma LeadingBlanksKept()
    ensures RemoveComments("  // note") == Some("  ")
  {
    var s := "  // note";
    assert FindMarkerFrom(s, 0) == FindMarkerFrom(s, 1) == FindMarkerFrom(s, 2) == Some(2);
    assert s[..2] == "  ";
  }
}
