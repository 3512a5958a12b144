/**
  The order in which customer names are compared when a transfer sorts its
  two participants. The source uses `localeCompare`, whose result depends
  on the runtime's locale and ties distinct but canonically equivalent
  strings (it is a total preorder); this model uses the plain lexicographic
  order on character codes instead, a strict order in which only equal
  strings tie.
 */
module Names {

  /** `s` sorts strictly before `t`: a proper prefix, or smaller at the
      first position where they differ. */
  predicate Precedes(s: string, t: string)
    decreases |s|
  {
    if |s| == 0 then |t| > 0
    else if |t| == 0 then false
    else if s[0] != t[0] then s[0] < t[0]
    else Precedes(s[1..], t[1..])
  }

  lemma {:induction false} PrecedesIrreflexive(s: string)
    ensures !Precedes(s, s)
    decreases |s|
  {
    if |s| > 0 {
      PrecedesIrreflexive(s[1..]);
    }
  }

  lemma {:induction false} PrecedesAsymmetric(s: string, t: string)
    requires Precedes(s, t)
    ensures !Precedes(t, s)
    decreases |s|
  {
    if |s| > 0 && |t| > 0 && s[0] == t[0] {
      PrecedesAsymmetric(s[1..], t[1..]);
    }
  }

  /** Two different names are always ordered one way or the other. */
  lemma {:induction false} PrecedesConnected(s: string, t: string)
    requires s != t
    ensures Precedes(s, t) || Precedes(t, s)
    decreases |s|
  {
    if |s| > 0 && |t| > 0 && s[0] == t[0] {
      assert s == [s[0]] + s[1..] && t == [t[0]] + t[1..];
      PrecedesConnected(s[1..], t[1..]);
    }
  }
}
