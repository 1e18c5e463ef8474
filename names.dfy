/** Player names and the order Python's sorted() puts them in: strings compared
    code point by code point, a proper prefix first. */
module Names {

  /** a < b for Python strings. */
  predicate Below(a: string, b: string)
  {
    if a == [] then b != []
    else if b == [] then false
    else a[0] < b[0] || (a[0] == b[0] && Below(a[1..], b[1..]))
  }

  /** a is a proper prefix of b. */
  predicate PrefixBelow(a: string, b: string)
  {
    |a| < |b| && a == b[..|a|]
  }

  /** a and b agree before position k, where a holds the smaller code point. */
  predicate DiffersBelowAt(a: string, b: string, k: int)
  {
    0 <= k < |a| && k < |b| && a[..k] == b[..k] && a[k] < b[k]
  }

  lemma DiffersShift(a: string, b: string, k: int)
    requires a != [] && b != [] && a[0] == b[0]
    ensures DiffersBelowAt(a, b, k + 1) <==> DiffersBelowAt(a[1..], b[1..], k)
  {
    if 0 <= k && k + 1 < |a| && k + 1 < |b| {
      assert a[..k + 1] == [a[0]] + a[1..][..k];
      assert b[..k + 1] == [b[0]] + b[1..][..k];
    }
  }

  /** The usual description of that order: a is a proper prefix of b, or the
      two agree up to a first position where a holds the smaller code point. */
  lemma {:induction false} BelowMeaning(a: string, b: string)
    ensures Below(a, b) <==> PrefixBelow(a, b) || exists k :: DiffersBelowAt(a, b, k)
  {
    if a == [] {
      if b != [] {
        assert PrefixBelow(a, b);
      }
    } else if b != [] {
      BelowMeaning(a[1..], b[1..]);
      if a[0] < b[0] {
        assert DiffersBelowAt(a, b, 0);
      } else if a[0] == b[0] {
        assert PrefixBelow(a, b) <==> PrefixBelow(a[1..], b[1..]) by {
          assert a == [a[0]] + a[1..];
          if |a| < |b| {
            assert b[..|a|] == [b[0]] + b[1..][..|a| - 1];
          }
        }
        forall k | DiffersBelowAt(a, b, k)
          ensures DiffersBelowAt(a[1..], b[1..], k - 1)
        {
          DiffersShift(a, b, k - 1);
        }
        forall k | DiffersBelowAt(a[1..], b[1..], k)
          ensures DiffersBelowAt(a, b, k + 1)
        {
          DiffersShift(a, b, k);
        }
      }
    }
  }

  lemma {:induction false} BelowIrreflexive(a: string)
    ensures !Below(a, a)
  {
    if a != [] {
      BelowIrreflexive(a[1..]);
    }
  }

  lemma {:induction false} BelowTransitive(a: string, b: string, c: string)
    requires Below(a, b) && Below(b, c)
    ensures Below(a, c)
  {
    if a != [] && a[0] == b[0] && b[0] == c[0] {
      BelowTransitive(a[1..], b[1..], c[1..]);
    }
  }

  /** Any two distinct names are ordered one way or the other. */
  lemma {:induction false} BelowTotal(a: string, b: string)
    ensures a == b || Below(a, b) || Below(b, a)
  {
    if a != [] && b != [] && a[0] == b[0] {
      BelowTotal(a[1..], b[1..]);
      if a[1..] == b[1..] {
        assert a == [a[0]] + a[1..] && b == [b[0]] + b[1..];
      }
    }
  }

  lemma BelowAsymmetric(a: string, b: string)
    requires Below(a, b)
    ensures !Below(b, a)
  {
    if Below(b, a) {
      BelowTransitive(a, b, a);
      BelowIrreflexive(a);
    }
  }

  /** Ascending without repeats: the shape of sorted(s) for a set s. */
  predicate StrictlySorted(r: seq<string>)
  {
    forall i, j :: 0 <= i < j < |r| ==> Below(r[i], r[j])
  }

  /** Inserts a new name into an ascending list at its place. */
  function Insert(r: seq<string>, x: string): (t: seq<string>)
    requires StrictlySorted(r)
    requires x !in r
    ensures StrictlySorted(t)
    ensures |t| == |r| + 1
    ensures forall y :: y in t <==> y in r || y == x
  {
    if r == [] then [x]
    else
      BelowTotal(x, r[0]);
      if Below(x, r[0]) then
        assert forall j :: 0 < j < |r| ==> Below(x, r[j]) by {
          forall j | 0 < j < |r| {
            BelowTransitive(x, r[0], r[j]);
          }
        }
        [x] + r
      else
        var t := [r[0]] + Insert(r[1..], x);
        assert forall y :: y in t[1..] ==> Below(r[0], y) by {
          assert forall y :: y in r[1..] ==> Below(r[0], y);
        }
        t
  }

  /** m is the least name of s. */
  predicate IsLeast(m: string, s: set<string>)
  {
    m in s && forall y :: y in s && y != m ==> Below(m, y)
  }

  /** Every non-empty set of names has a least one. */
  lemma {:induction false} LeastExists(s: set<string>)
    requires s != {}
    ensures exists m :: IsLeast(m, s)
  {
    var x :| x in s;
    if s == {x} {
      assert IsLeast(x, s);
    } else {
      LeastExists(s - {x});
      var m :| IsLeast(m, s - {x});
      BelowTotal(x, m);
      if Below(x, m) {
        forall y | y in s && y != x
          ensures Below(x, y)
        {
          if y != m {
            BelowTransitive(x, m, y);
          }
        }
        assert IsLeast(x, s);
      } else {
        assert IsLeast(m, s);
      }
    }
  }

  /** sorted(s): the names of s in ascending order. */
  ghost function SortedOf(s: set<string>): (r: seq<string>)
    ensures StrictlySorted(r)
    ensures |r| == |s|
    ensures forall y :: y in r <==> y in s
    decreases |s|
  {
    if s == {} then []
    else
      LeastExists(s);
      var m :| IsLeast(m, s);
      var rest := SortedOf(s - {m});
      assert forall j :: 0 <= j < |rest| ==> Below(m, rest[j]) by {
        forall j | 0 <= j < |rest|
          ensures Below(m, rest[j])
        {
          assert rest[j] in s - {m};
        }
      }
      [m] + rest
  }

  /** Two ascending lists without repeats that hold the same names are equal. */
  lemma {:induction false} SortedUnique(r: seq<string>, t: seq<string>)
    requires StrictlySorted(r) && StrictlySorted(t)
    requires forall y :: y in r <==> y in t
    ensures r == t
  {
    if r != [] {
      assert r[0] in r;
    }
    if t != [] {
      assert t[0] in t;
    }
    if r != [] && t != [] {
      assert t[0] in r && r[0] in t;
      var i :| 0 <= i < |r| && r[i] == t[0];
      var j :| 0 <= j < |t| && t[j] == r[0];
      if i != 0 && j != 0 {
        assert Below(r[0], t[0]) && Below(t[0], r[0]);
        BelowAsymmetric(r[0], t[0]);
      }
      assert r[0] == t[0];
      forall y
        ensures y in r[1..] <==> y in t[1..]
      {
        if y in r[1..] {
          var p :| 1 <= p < |r| && r[p] == y;
          assert Below(r[0], y);
          BelowIrreflexive(y);
          assert y in t;
          var q :| 0 <= q < |t| && t[q] == y;
          assert q != 0;
        }
        if y in t[1..] {
          var p :| 1 <= p < |t| && t[p] == y;
          assert Below(t[0], y);
          BelowIrreflexive(y);
          assert y in r;
          var q :| 0 <= q < |r| && r[q] == y;
          assert q != 0;
        }
      }
      SortedUnique(r[1..], t[1..]);
      assert r == [r[0]] + r[1..] && t == [t[0]] + t[1..];
    }
  }

  /** sorted(s) computed by inserting the names one at a time, in whatever
      order the set yields them. */
  method SortNames(s: set<string>) returns (r: seq<string>)
    ensures StrictlySorted(r)
    ensures |r| == |s|
    ensures forall y :: y in r <==> y in s
    ensures r == SortedOf(s)
  {
    r := [];
    var rest := s;
    while rest != {}
      invariant rest <= s
      invariant StrictlySorted(r)
      invariant forall y :: y in r <==> y in s - rest
      invariant |r| + |rest| == |s|
      decreases |rest|
    {
      var x :| x in rest;
      r := Insert(r, x);
      rest := rest - {x};
    }
    SortedUnique(r, SortedOf(s));
  }
}
