/** Byte order of strings. On well-formed UTF-8 it is the order of the code points, used here. */
module Ordering {
  predicate Less(s: string, t: string) {
    if t == "" then false
    else if s == "" then true
    else s[0] < t[0] || (s[0] == t[0] && Less(s[1..], t[1..]))
  }

  lemma {:induction false} LessAsymmetric(s: string, t: string)
    requires Less(s, t)
    ensures !Less(t, s) && s != t
  {
    if s != "" && s[0] == t[0] { LessAsymmetric(s[1..], t[1..]); }
  }

  lemma {:induction false} LessTransitive(s: string, t: string, u: string)
    requires Less(s, t) && Less(t, u)
    ensures Less(s, u)
  {
    if s != "" && s[0] == t[0] && t[0] == u[0] { LessTransitive(s[1..], t[1..], u[1..]); }
  }

  lemma {:induction false} LessTotal(s: string, t: string)
    requires s != t
    ensures Less(s, t) || Less(t, s)
  {
    if s != "" && t != "" && s[0] == t[0] {
      assert s == [s[0]] + s[1..] && t == [t[0]] + t[1..];
      LessTotal(s[1..], t[1..]);
    }
  }

  lemma {:induction false} LessByLast(s: string, a: string, b: string)
    requires Less(a, b)
    ensures Less(s + a, s + b)
  {
    if s != "" {
      LessByLast(s[1..], a, b);
      assert (s + a)[1..] == s[1..] + a && (s + b)[1..] == s[1..] + b;
    } else { assert s + a == a && s + b == b; }
  }
}
