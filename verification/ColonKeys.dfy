/** Keys made by joining names with colons: which names give the same key. */
module ColonKeys {
  /** The two pairs read the same when joined by a colon: equal, or cut at different colons of one text. */
  predicate SamePair(profile: string, prompt: string, profile': string, prompt': string) {
    || (profile == profile' && prompt == prompt')
    || (profile + ":" <= profile' && prompt == profile'[|profile| + 1..] + ":" + prompt')
    || (profile' + ":" <= profile && prompt' == profile[|profile'| + 1..] + ":" + prompt)
  }

  /** A text cut at a colon, and again at a later one. */
  lemma JoinedLonger(p: string, u: string, q: string, v: string)
    requires |p| < |q|
    ensures p + ":" + u == q + ":" + v <==> p + ":" <= q && u == q[|p| + 1..] + ":" + v
  {
    var s, t := p + ":" + u, q + ":" + v;
    if s == t {
      assert q == t[..|q|] && p + ":" == s[..|p| + 1];
      assert u == s[|p| + 1..] && t[|p| + 1..] == q[|p| + 1..] + ":" + v;
    }
    if p + ":" <= q && u == q[|p| + 1..] + ":" + v {
      assert q == p + ":" + q[|p| + 1..];
    }
  }

  lemma JoinedIff(p: string, u: string, q: string, v: string)
    ensures p + ":" + u == q + ":" + v <==> SamePair(p, u, q, v)
  {
    if |p| < |q| {
      JoinedLonger(p, u, q, v);
    } else if |q| < |p| {
      JoinedLonger(q, v, p, u);
    } else {
      assert (p + ":" + u)[..|p|] == p && (q + ":" + v)[..|q|] == q;
      assert (p + ":" + u)[|p| + 1..] == u && (q + ":" + v)[|q| + 1..] == v;
    }
  }
}
