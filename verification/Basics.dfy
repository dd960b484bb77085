/** Shared vocabulary: optional values and facts about finite sets. */
module Basics {

  datatype Option<+T> = None | Some(value: T)

  function Max(x: int, y: int): int {
    if x >= y then x else y
  }

  function Min(x: int, y: int): int {
    if x <= y then x else y
  }

  /** Some string is longer than every string of a finite set. */
  lemma {:induction false} FreshString(s: set<string>) returns (t: string)
    ensures t !in s
    ensures forall x | x in s :: |x| < |t|
  {
    if s == {} {
      t := "";
    } else {
      var x :| x in s;
      var u := FreshString(s - {x});
      t := u + x + "x";
    }
  }
}

/** Cardinality arguments used by the counting theorems. */
module Counting {

  function Image<A, B>(f: A -> B, s: set<A>): set<B> {
    set x | x in s :: f(x)
  }

  ghost predicate InjectiveOn<A, B>(f: A -> B, s: set<A>) {
    forall x, y | x in s && y in s && f(x) == f(y) :: x == y
  }

  lemma {:induction false} SubsetSize<A>(s: set<A>, t: set<A>)
    requires s <= t
    ensures |s| <= |t|
    ensures |s| == |t| ==> s == t
  {
    assert t == s + (t - s);
    assert |t| == |s| + |t - s|;
  }

  lemma {:induction false} InjectiveImageSize<A, B>(f: A -> B, s: set<A>)
    requires InjectiveOn(f, s)
    ensures |Image(f, s)| == |s|
  {
    if s == {} {
      assert Image(f, s) == {};
    } else {
      var x :| x in s;
      InjectiveImageSize(f, s - {x});
      assert Image(f, s) == Image(f, s - {x}) + {f(x)};
    }
  }

  ghost function Fibre<A, B>(f: A -> B, s: set<A>, y: B): set<A> {
    set x | x in s && f(x) == y
  }

  /** A set whose fibres under f have at most k elements has at most k times as many elements as f has values. */
  lemma {:induction false} FibreBound<A, B>(f: A -> B, s: set<A>, k: nat)
    requires forall y | y in Image(f, s) :: |Fibre(f, s, y)| <= k
    ensures |s| <= k * |Image(f, s)|
  {
    if s == {} {
      assert Image(f, s) == {};
    } else {
      var x0 :| x0 in s;
      var y := f(x0);
      var fibre := Fibre(f, s, y);
      var rest := s - fibre;
      assert Image(f, rest) == Image(f, s) - {y};
      forall z | z in Image(f, rest) ensures |Fibre(f, rest, z)| <= k {
        assert Fibre(f, rest, z) == Fibre(f, s, z);
      }
      assert |rest| < |s| by { assert x0 in fibre; SubsetSize(rest, s - {x0}); }
      FibreBound(f, rest, k);
      assert |s| == |fibre| + |rest| by { assert s == fibre + rest; }
      var m := |Image(f, rest)|;
      assert |Image(f, s)| == m + 1;
      assert k * (m + 1) == k * m + k;
    }
  }
}
