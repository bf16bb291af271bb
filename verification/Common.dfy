/** Names shared by all the components. */
module Common {

  datatype Option<+T> = None | Some(value: T)

  /** A coroutine handle. In the step machines every await has a handle of its own. */
  type Handle = nat

  ghost predicate NoDup<T>(s: seq<T>) {
    forall i, j :: 0 <= i < j < |s| ==> s[i] != s[j]
  }

  function Elements<T>(s: seq<T>): set<T> {
    set x | x in s
  }

  /** A duplicate-free sequence has as many elements as positions. */
  lemma {:induction false} NoDupSize<T>(s: seq<T>)
    requires NoDup(s)
    ensures |Elements(s)| == |s|
  {
    if s != [] {
      NoDupSize(s[1..]);
      assert Elements(s) == {s[0]} + Elements(s[1..]);
    }
  }

  /** Where x first stands in s. */
  function IndexOf<T(==)>(s: seq<T>, x: T): (i: nat)
    requires x in s
    ensures i < |s| && s[i] == x
  {
    if s[0] == x then 0 else 1 + IndexOf(s[1..], x)
  }

  /** The sum of the weights of all elements. */
  ghost function Total<T>(s: seq<T>, weight: T -> nat): nat {
    if s == [] then 0 else Total(s[..|s| - 1], weight) + weight(s[|s| - 1])
  }

  lemma {:induction false} TotalUpdate<T>(s: seq<T>, weight: T -> nat, i: nat, x: T)
    requires i < |s|
    ensures Total(s[i := x], weight) == Total(s, weight) - weight(s[i]) + weight(x)
  {
    var n := |s| - 1;
    if i == n {
      assert s[i := x][..n] == s[..n];
    } else {
      TotalUpdate(s[..n], weight, i, x);
      assert s[i := x][..n] == s[..n][i := x];
    }
  }

  /** A map that is one-to-one from a onto b has as many keys as values. */
  lemma {:induction false} ImageSize<A, B>(f: map<A, B>, a: set<A>, b: set<B>)
    requires f.Keys == a
    requires forall v, w :: v in f && w in f && f[v] == f[w] ==> v == w
    requires forall w :: w in f ==> f[w] in b
    requires forall i :: i in b ==> exists w :: w in f && f[w] == i
    ensures |a| == |b|
    decreases |a|
  {
    if a == {} {
      assert b == {};
    } else {
      var w :| w in a;
      forall i | i in b - {f[w]} ensures exists v :: v in f - {w} && (f - {w})[v] == i {
        var v :| v in f && f[v] == i;
        assert v in f - {w};
      }
      ImageSize(f - {w}, a - {w}, b - {f[w]});
    }
  }
}
