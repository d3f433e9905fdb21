/** Small value types shared by every module of the model. */
module Common {
  datatype Option<+T> = None | Some(value: T)

  datatype Result<+T, +E> = Ok(value: T) | Err(error: E)

  /** Instants are points on one unbounded UTC axis. */
  type Instant = int

  /** The least element of a finite non-empty set of integers, as `sorted(...)[0]` picks it. */
  function Least(s: set<int>): (m: int)
    requires s != {}
    ensures m in s && forall x :: x in s ==> m <= x
  {
    assert exists m :: m in s && forall x :: x in s ==> m <= x by { var m := LeastExists(s); }
    var m :| m in s && forall x :: x in s ==> m <= x;
    m
  }

  lemma {:induction false} LeastExists(s: set<int>) returns (m: int)
    requires s != {}
    ensures m in s && forall x :: x in s ==> m <= x
  {
    var y := Member(s);
    if s == {y} {
      m := y;
    } else {
      m := LeastExists(s - {y});
      if y < m { m := y; }
      forall x | x in s ensures m <= x { assert x == y || x in s - {y}; }
    }
  }

  lemma Member<T>(s: set<T>) returns (x: T)
    requires s != {}
    ensures x in s
  {
    x :| x in s;
  }

  /** The member of a singleton. */
  function TheOnly<T(==)>(s: set<T>): (x: T)
    requires |s| == 1
    ensures s == {x}
  {
    assert exists x :: x in s && s == {x} by {
      var x := Member(s);
      assert |s - {x}| == 0;
    }
    var x :| x in s && s == {x};
    x
  }

  lemma TwoMembers<T>(s: set<T>) returns (x: T, y: T)
    requires |s| > 1
    ensures x in s && y in s && x != y
  {
    x := Member(s);
    assert |s - {x}| == |s| - 1;
    y := Member(s - {x});
  }

  lemma Associative<T>(a: seq<T>, b: seq<T>, c: seq<T>)
    ensures a + (b + c) == (a + b) + c
  {
  }

  lemma SplitLast<T>(s: seq<T>)
    requires s != []
    ensures s == s[..|s| - 1] + [s[|s| - 1]]
  {
  }
}
