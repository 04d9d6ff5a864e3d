/** Text facts shared by the other modules. */
module Text {

  /** Dictionary order; on UTF-8 text it is the byte order. */
  predicate Before(s: string, t: string) {
    t != [] && (s == [] || s[0] < t[0] || (s[0] == t[0] && Before(s[1..], t[1..])))
  }

  lemma {:induction false} BeforeIsTotalOrder(s: string, t: string, u: string)
    ensures !Before(s, s)
    ensures Before(s, t) && Before(t, u) ==> Before(s, u)
    ensures Before(s, t) || s == t || Before(t, s)
    ensures !(Before(s, t) && Before(t, s))
    decreases |s|
  {
    if s != [] {
      BeforeIsTotalOrder(s[1..], if t == [] then [] else t[1..], if u == [] then [] else u[1..]);
      if t != [] {
        assert s == [s[0]] + s[1..] && t == [t[0]] + t[1..];
      }
    }
  }

  /** Between texts of one length the first difference decides. */
  lemma {:induction false} BeforeConcat(s: string, s': string, t: string, t': string)
    requires |s| == |s'|
    ensures Before(s, s') ==> Before(s + t, s' + t')
    ensures Before(t, t') && s == s' ==> Before(s + t, s' + t')
    decreases |s|
  {
    if s == [] {
      assert s + t == t && s' + t' == t';
    } else {
      BeforeConcat(s[1..], s'[1..], t, t');
      assert (s + t)[1..] == s[1..] + t && (s' + t')[1..] == s'[1..] + t';
    }
  }
}
