/** Lists that are used from the front, such as the answers of a socket. */
module Supply {
  function Rest<T>(s: seq<T>): (r: seq<T>) {
    if s == [] then [] else s[1..]
  }

  /** What has been used of a list of which `s'` is left. */
  function Used<T>(s: seq<T>, s': seq<T>): (r: seq<T>)
    requires |s'| <= |s|
  {
    s[..|s| - |s'|]
  }

  ghost predicate LeftOver<T>(s: seq<T>, s': seq<T>) {
    |s'| <= |s| && s == Used(s, s') + s'
  }

  /** A supply: what is left of it, and how often it was asked for more than there is. */
  datatype Source<T> = Source(left: seq<T>, missed: nat)

  function Spend<T>(s: Source<T>): (r: Source<T>) {
    if s.left == [] then s.(missed := s.missed + 1) else s.(left := s.left[1..])
  }

  ghost predicate Goes<T>(s: Source<T>, s': Source<T>) {
    LeftOver(s.left, s'.left) && s.missed <= s'.missed && (s.missed < s'.missed ==> s'.left == [])
  }

  /** What has been given, and what was asked for and not there. */
  ghost function Given<T>(s: Source<T>, s': Source<T>): (r: seq<T>)
    requires Goes(s, s')
  {
    Used(s.left, s'.left)
  }

  ghost predicate Missed<T>(s: Source<T>, s': Source<T>) {
    s.missed < s'.missed
  }

  lemma SpendGoes<T>(s: Source<T>)
    ensures Goes(s, Spend(s)) && Given(s, Spend(s)) == (if s.left == [] then [] else [s.left[0]])
    ensures Missed(s, Spend(s)) <==> s.left == []
  {
  }

  lemma GoesTwice<T>(a: Source<T>, b: Source<T>, c: Source<T>)
    requires Goes(a, b) && Goes(b, c)
    ensures Goes(a, c) && Given(a, c) == Given(a, b) + Given(b, c)
    ensures Missed(a, c) <==> Missed(a, b) || Missed(b, c)
  {
    hide Used;
    UsedTwice(a.left, b.left, c.left);
    if Missed(a, b) {
      assert c.left == [] by { Shorter(b.left, c.left); }
    }
  }

  lemma Shorter<T>(s: seq<T>, s': seq<T>)
    requires LeftOver(s, s')
    ensures |s'| <= |s|
  {
  }

  lemma UsedTwice<T>(a: seq<T>, b: seq<T>, c: seq<T>)
    requires LeftOver(a, b) && LeftOver(b, c)
    ensures LeftOver(a, c) && Used(a, c) == Used(a, b) + Used(b, c)
  {
    var x, y := Used(a, b), Used(b, c);
    assert a == (x + y) + c;
  }
}
