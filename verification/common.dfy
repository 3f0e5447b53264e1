/** Shared value types: optional values, the exceptions the source raises, and
    small sequence helpers used by several components. */
module Common {

  /** Python's `None` versus a present value. */
  datatype Option<+T> = None | Some(value: T) {
    function GetOr(default: T): T {
      match this
      case Some(v) => v
      case None => default
    }
  }

  /** The exceptions the modelled code lets escape to its caller. */
  datatype Error =
    | KeyError          // a required key or cohort name is missing
    | ValueError        // an unparsable timestamp, or nothing to summarise
    | InvalidOperation  // `Decimal(...)` rejected its text
    | TypeError         // `sorted` compared values Python cannot order

  /** Either a value or the exception the source would raise instead. */
  datatype Result<+T> = Ok(value: T) | Err(error: Error) {
    predicate IsFailure() {
      Err?
    }

    function PropagateFailure<U>(): Result<U>
      requires Err?
    {
      Err(error)
    }

    function Extract(): T
      requires Ok?
    {
      value
    }
  }

  /** Order-preserving filter, as a Python list comprehension with an `if`. */
  function Filter<T>(p: T -> bool, s: seq<T>): (r: seq<T>)
    ensures |r| <= |s|
  {
    if s == [] then []
    else if p(s[0]) then [s[0]] + Filter(p, s[1..])
    else Filter(p, s[1..])
  }

  /** The filter keeps exactly the elements that pass the test. */
  lemma {:induction false} FilterMembers<T>(p: T -> bool, s: seq<T>)
    ensures forall x :: x in Filter(p, s) <==> x in s && p(x)
  {
    if s != [] {
      FilterMembers(p, s[1..]);
      FilterCons(p, s[0], s[1..]);
      assert s == [s[0]] + s[1..];
    }
  }

  lemma {:induction false} FilterConcat<T>(p: T -> bool, a: seq<T>, b: seq<T>)
    ensures Filter(p, a + b) == Filter(p, a) + Filter(p, b)
  {
    if a != [] {
      assert (a + b)[0] == a[0];
      assert (a + b)[1..] == a[1..] + b;
      FilterConcat(p, a[1..], b);
      if p(a[0]) {
        assert Filter(p, a + b) == [a[0]] + (Filter(p, a[1..]) + Filter(p, b));
        assert Filter(p, a) == [a[0]] + Filter(p, a[1..]);
      } else {
        assert Filter(p, a + b) == Filter(p, a[1..]) + Filter(p, b);
      }
    } else {
      assert a + b == b;
    }
  }

  /** Filtering a sequence with a given head. */
  lemma FilterCons<T>(p: T -> bool, x: T, s: seq<T>)
    ensures Filter(p, [x] + s) == (if p(x) then [x] else []) + Filter(p, s)
  {
    assert ([x] + s)[0] == x;
    assert ([x] + s)[1..] == s;
  }

  /** A suffix that filtering t adds over filtering u survives a common head. */
  lemma FilterConsSuffix<T>(p: T -> bool, x: T, t: seq<T>, u: seq<T>, e: seq<T>)
    requires Filter(p, t) == Filter(p, u) + e
    ensures Filter(p, [x] + t) == Filter(p, [x] + u) + e
  {
    FilterCons(p, x, t);
    FilterCons(p, x, u);
    if p(x) {
      AppendAssoc([x], Filter(p, u), e);
    } else {
      assert [] + Filter(p, t) == Filter(p, t);
      assert [] + Filter(p, u) == Filter(p, u);
    }
  }

  lemma AppendAssoc<T>(a: seq<T>, b: seq<T>, c: seq<T>)
    ensures a + (b + c) == (a + b) + c
  {
  }

  /** Filtering twice by the same test changes nothing. */
  lemma {:induction false} FilterIdempotent<T>(p: T -> bool, s: seq<T>)
    ensures Filter(p, Filter(p, s)) == Filter(p, s)
  {
    if s != [] {
      FilterIdempotent(p, s[1..]);
    }
  }

  /** Sum of `f` over a sequence, as Python's `sum(f(x) for x in s)`. */
  function SumOf<T>(s: seq<T>, f: T -> real): real
  {
    if s == [] then 0.0 else f(s[0]) + SumOf(s[1..], f)
  }

  lemma {:induction false} SumOfConcat<T>(a: seq<T>, b: seq<T>, f: T -> real)
    ensures SumOf(a + b, f) == SumOf(a, f) + SumOf(b, f)
  {
    if a != [] {
      assert (a + b)[0] == a[0];
      assert (a + b)[1..] == a[1..] + b;
      SumOfConcat(a[1..], b, f);
    } else {
      assert a + b == b;
    }
  }

  /** Flattens a sequence of sequences, keeping order. */
  function Concat<T>(ss: seq<seq<T>>): (r: seq<T>)
  {
    if ss == [] then [] else ss[0] + Concat(ss[1..])
  }

  /** No element occurs twice. */
  predicate Distinct<T(==)>(s: seq<T>) {
    forall i, j :: 0 <= i < j < |s| ==> s[i] != s[j]
  }

  /** A sequence has at least as many positions as distinct elements. */
  lemma {:induction false} SeqSetCard<T>(s: seq<T>)
    ensures |set x | x in s| <= |s|
  {
    if s != [] {
      var init := s[..|s| - 1];
      SeqSetCard(init);
      assert (set x | x in s) <= (set x | x in init) + {s[|s| - 1]} by {
        forall x | x in s
          ensures x in init || x == s[|s| - 1]
        {
          var k :| 0 <= k < |s| && s[k] == x;
          if k < |s| - 1 {
            assert init[k] == x;
          }
        }
      }
      SubsetCard(set x | x in s, (set x | x in init) + {s[|s| - 1]});
    }
  }

  /** A subset is no larger than its superset. */
  lemma SubsetCard<T>(a: set<T>, b: set<T>)
    requires a <= b
    ensures |a| <= |b|
  {
    assert a * b == a;
    assert |b - a| + |a| == |b| by {
      assert (b - a) + a == b;
      assert (b - a) * a == {};
    }
  }

  /** `{g(x) for x in s}`. */
  function Image<A, B>(s: set<A>, g: A -> B): (r: set<B>)
    ensures forall x :: x in s ==> g(x) in r
    ensures forall y :: y in r ==> exists x :: x in s && g(x) == y
  {
    set x | x in s :: g(x)
  }

  /** The image of a set under a function is no larger than the set. */
  lemma {:induction false} ImageCard<A, B>(s: set<A>, g: A -> B)
    ensures |Image(s, g)| <= |s|
    decreases |s|
  {
    if s != {} {
      var x :| x in s;
      var rest := s - {x};
      ImageCard(rest, g);
      var img := Image(s, g);
      var imgRest := Image(rest, g);
      assert img <= imgRest + {g(x)};
      SubsetCard(img, imgRest + {g(x)});
    }
  }
}
