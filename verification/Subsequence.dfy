// One list kept, in order, inside another.
module Subsequence {
  function Init<T>(a: seq<T>): seq<T>
    requires a != []
  {
    a[..|a| - 1]
  }

  function Last<T>(a: seq<T>): T
    requires a != []
  {
    a[|a| - 1]
  }

  // `a` can be had from `b` by leaving elements out.
  ghost predicate Sub<T>(a: seq<T>, b: seq<T>) {
    a == [] || (b != [] && ((Last(a) == Last(b) && Sub(Init(a), Init(b))) || Sub(a, Init(b))))
  }

  lemma {:induction false} SubSelf<T>(a: seq<T>)
    ensures Sub(a, a)
  {
    if a != [] { SubSelf(Init(a)); }
  }

  lemma SubAppend<T>(a: seq<T>, b: seq<T>, x: T)
    requires Sub(a, b)
    ensures Sub(a + [x], b + [x]) && Sub(a, b + [x])
  {
    assert Init(a + [x]) == a && Init(b + [x]) == b;
  }

  lemma {:induction false} SubTransitive<T>(a: seq<T>, b: seq<T>, c: seq<T>)
    requires Sub(a, b) && Sub(b, c)
    ensures Sub(a, c)
  {
    if a != [] {
      if Sub(b, Init(c)) {
        SubTransitive(a, b, Init(c));
      } else if Last(a) == Last(b) && Sub(Init(a), Init(b)) {
        SubTransitive(Init(a), Init(b), Init(c));
      } else {
        SubTransitive(a, Init(b), Init(c));
      }
    }
  }

  lemma {:induction false} SubLength<T>(a: seq<T>, b: seq<T>)
    requires Sub(a, b)
    ensures |a| <= |b| && forall x :: x in a ==> x in b
  {
    if a != [] {
      if Sub(a, Init(b)) {
        SubLength(a, Init(b));
      } else {
        SubLength(Init(a), Init(b));
        assert a == Init(a) + [Last(a)];
      }
    }
  }
}
