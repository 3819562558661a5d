/** The connection handle: a newtype over the textual rendering of a
    random UUID. Equality and ordering are derived, so they are those of
    the wrapped string: lexicographic, character by character. */
module Handles {

  /** `WebSocketHandle(String)`. */
  datatype Handle = Handle(text: string)

  /** The result of a three-way comparison (`std::cmp::Ordering`). */
  datatype Ordering = Less | Equal | Greater {
    /** The comparison seen from the other side. */
    function Flip(): (r: Ordering)
      ensures r.Equal? <==> Equal?
      ensures r.Less? <==> Greater?
    {
      match this
      case Less => Greater
      case Equal => Equal
      case Greater => Less
    }
  }

  /** `Ord for String`: lexicographic order, a proper prefix sorts first. */
  function CompareText(s: string, t: string): (r: Ordering)
    ensures r.Equal? <==> s == t
  {
    if |s| == 0 && |t| == 0 then Equal
    else if |s| == 0 then Less
    else if |t| == 0 then Greater
    else if s[0] < t[0] then Less
    else if t[0] < s[0] then Greater
    else
      var r := CompareText(s[1..], t[1..]);
      assert r.Equal? ==> s == [s[0]] + s[1..] == [t[0]] + t[1..] == t;
      r
  }

  /** The derived `Ord for WebSocketHandle`: compare the wrapped strings. */
  function Compare(a: Handle, b: Handle): (r: Ordering)
    ensures r.Equal? <==> a == b
    ensures r.Equal? <==> a.text == b.text
  {
    CompareText(a.text, b.text)
  }

  /** The strict order `a < b` that a BTreeMap keyed by handles uses. */
  predicate Before(a: Handle, b: Handle)
  {
    Compare(a, b).Less?
  }

  /** Swapping the arguments flips the answer (antisymmetry). */
  lemma {:induction false} CompareTextFlip(s: string, t: string)
    ensures CompareText(t, s) == CompareText(s, t).Flip()
  {
    if |s| > 0 && |t| > 0 && s[0] == t[0] {
      CompareTextFlip(s[1..], t[1..]);
    }
  }

  /** The string order is transitive. */
  lemma {:induction false} CompareTextTransitive(s: string, t: string, u: string)
    requires CompareText(s, t).Less? && CompareText(t, u).Less?
    ensures CompareText(s, u).Less?
  {
    if |s| > 0 && |t| > 0 && |u| > 0 && s[0] == t[0] && t[0] == u[0] {
      CompareTextTransitive(s[1..], t[1..], u[1..]);
    }
  }

  /** The order is lexicographic: a proper prefix sorts first. */
  lemma {:induction false} ProperPrefixFirst(s: string, t: string)
    requires |s| < |t| && t[..|s|] == s
    ensures CompareText(s, t) == Less
  {
    if |s| > 0 {
      assert s[0] == t[0];
      assert t[1..][..|s| - 1] == s[1..];
      ProperPrefixFirst(s[1..], t[1..]);
    }
  }

  /** The order is lexicographic: after a common prefix of length `k`,
      the first differing character decides. */
  lemma {:induction false} FirstDifferenceDecides(s: string, t: string, k: nat)
    requires k < |s| && k < |t| && s[..k] == t[..k] && s[k] != t[k]
    ensures CompareText(s, t) == if s[k] < t[k] then Less else Greater
  {
    if k > 0 {
      assert s[0] == s[..k][0] == t[..k][0] == t[0];
      assert s[1..][..k - 1] == s[1..k] == t[1..k] == t[1..][..k - 1];
      FirstDifferenceDecides(s[1..], t[1..], k - 1);
    }
  }

  /** Handles are totally ordered: exactly one of `a < b`, `a == b`,
      `b < a` holds. */
  lemma Trichotomy(a: Handle, b: Handle)
    ensures Before(a, b) || a == b || Before(b, a)
    ensures !(Before(a, b) && Before(b, a))
    ensures !Before(a, a)
    ensures Compare(a, b) == Compare(b, a).Flip()
  {
    CompareTextFlip(a.text, b.text);
  }

  /** The handle order is transitive, so it is a strict total order and
      handles may key an ordered map. */
  lemma BeforeTransitive(a: Handle, b: Handle, c: Handle)
    requires Before(a, b) && Before(b, c)
    ensures Before(a, c)
  {
    CompareTextTransitive(a.text, b.text, c.text);
  }
}
