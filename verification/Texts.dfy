/** How a text that was put together from parts comes apart again. */
module Texts {

  lemma {:induction false} SamePrefix<T>(prefix: seq<T>, r: seq<T>, s: seq<T>)
    requires prefix + r == prefix + s
    ensures r == s
  {
    assert (prefix + r)[|prefix|..] == r && (prefix + s)[|prefix|..] == s;
  }

  /** A part ends at the first element that cannot be inside it. */
  lemma {:induction false} SplitsAt<T>(inside: T -> bool, a: seq<T>, r: seq<T>, b: seq<T>, s: seq<T>)
    requires (forall i :: 0 <= i < |a| ==> inside(a[i])) && (forall i :: 0 <= i < |b| ==> inside(b[i]))
    requires |r| > 0 && |s| > 0 && !inside(r[0]) && !inside(s[0]) && a + r == b + s
    ensures a == b && r == s
  {
    var whole := a + r;
    assert whole[|a|] == r[0] && whole[|b|] == s[0];
    assert whole[..|a|] == a && whole[..|b|] == b && whole[|a|..] == r && whole[|b|..] == s;
  }
}
