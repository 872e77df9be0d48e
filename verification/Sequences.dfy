/** Lists that are joined: where the first element and the rest come from. */
module Sequences {

  lemma RestOfJoined<T>(s: seq<T>, t: seq<T>)
    requires s != []
    ensures s + t != [] && (s + t)[0] == s[0] && (s + t)[1..] == s[1..] + t
  {
  }

  lemma NothingJoined<T>(t: seq<T>)
    ensures [] + t == t && t + [] == t
  {
  }

  lemma RestOfOne<T>(x: T)
    ensures [x][1..] == []
  {
  }

  lemma OneMore<T>(s: seq<T>, i: nat)
    requires i < |s|
    ensures s[..i + 1] == s[..i] + [s[i]] && s[i] in s
  {
  }

  lemma AllTaken<T>(s: seq<T>)
    ensures s[..0] == [] && s[..|s|] == s
  {
  }

  lemma Regrouped<T>(a: seq<T>, b: seq<T>, c: seq<T>)
    ensures (a + b) + c == a + (b + c)
  {
  }
}
