/** The java.util.List operations that locate an element by equals: indexOf and remove(Object). */
module Lists {

  /** List.indexOf: the first index holding x, -1 when there is none. */
  function IndexOf<T(==)>(s: seq<T>, x: T): (i: int)
    ensures -1 <= i < |s|
    ensures i == -1 <==> x !in s
    ensures i >= 0 ==> s[i] == x && x !in s[..i]
  {
    if s == [] then -1
    else if s[0] == x then 0
    else
      var i := IndexOf(s[1..], x);
      if i == -1 then -1
      else
        assert s[..i + 1] == [s[0]] + s[1..][..i];
        i + 1
  }

  /** List.remove(Object): drops the first element equal to x, if any. */
  function RemoveFirst<T(==)>(s: seq<T>, x: T): (r: seq<T>)
    ensures x !in s ==> r == s
    ensures |r| == if x in s then |s| - 1 else |s|
    ensures multiset(r) == multiset(s) - multiset{x}
    ensures x in s ==> exists i :: 0 <= i < |s| && s[i] == x && x !in s[..i] && r == s[..i] + s[i + 1..]
  {
    var i := IndexOf(s, x);
    if i == -1 then s
    else
      assert s == s[..i] + [s[i]] + s[i + 1..];
      s[..i] + s[i + 1..]
  }

  /** remove(Object) seen from the head: a matching head is the element that goes. */
  lemma RemoveFirstHead<T>(s: seq<T>, x: T)
    requires s != [] && s[0] == x
    ensures RemoveFirst(s, x) == s[1..]
  {
    assert IndexOf(s, x) == 0 && s[..0] + s[1..] == s[1..];
  }

  /** remove(Object) seen from the head: any other head stays in front. */
  lemma RemoveFirstSkip<T>(s: seq<T>, x: T)
    requires s != [] && s[0] != x
    ensures RemoveFirst(s, x) == [s[0]] + RemoveFirst(s[1..], x)
  {
    var t := s[1..];
    if x in t {
      var i := RemoveFirstBehindHead(s, x);
      RemoveFirstAt(t, x);
      SliceAround(s, i);
    } else {
      RemoveFirstAbsent(s, x);
    }
  }

  lemma RemoveFirstAbsent<T>(s: seq<T>, x: T)
    requires s != [] && s[0] != x && x !in s[1..]
    ensures RemoveFirst(s, x) == s && RemoveFirst(s[1..], x) == s[1..] && s == [s[0]] + s[1..]
  {
    assert x !in s by {
      assert s == [s[0]] + s[1..];
    }
  }

  /** An element found behind a different head: its index in the tail is i, one less than in s. */
  lemma RemoveFirstBehindHead<T>(s: seq<T>, x: T) returns (i: int)
    requires s != [] && s[0] != x && x in s[1..]
    ensures i == IndexOf(s[1..], x) && 0 <= i < |s| - 1
    ensures RemoveFirst(s, x) == s[..i + 1] + s[i + 2..]
  {
    i := IndexOf(s[1..], x);
    IndexOfSkip(s, x);
    RemoveFirstAt(s, x);
  }

  lemma IndexOfSkip<T>(s: seq<T>, x: T)
    requires s != [] && s[0] != x && x in s[1..]
    ensures IndexOf(s, x) == IndexOf(s[1..], x) + 1
  {
  }

  lemma RemoveFirstAt<T>(s: seq<T>, x: T)
    requires x in s
    ensures RemoveFirst(s, x) == s[..IndexOf(s, x)] + s[IndexOf(s, x) + 1..]
  {
  }

  /** Cutting out position i + 1 of s is keeping the head and cutting out position i of the tail. */
  lemma SliceAround<T>(s: seq<T>, i: int)
    requires 0 <= i < |s| - 1
    ensures s[..i + 1] + s[i + 2..] == [s[0]] + (s[1..][..i] + s[1..][i + 1..])
  {
    assert s[..i + 1] == [s[0]] + s[1..][..i];
    assert s[i + 2..] == s[1..][i + 1..];
  }
}
