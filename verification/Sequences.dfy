/** Options and sequence facts shared by all the models. */
module Sequences {

  datatype Option<+T> = None | Some(value: T)

  ghost predicate NoDup<T>(s: seq<T>) {
    forall i, j :: 0 <= i < j < |s| ==> s[i] != s[j]
  }

  function FlatMap<A, B>(f: A -> seq<B>, s: seq<A>): seq<B> {
    if s == [] then [] else f(s[0]) + FlatMap(f, s[1..])
  }

  lemma FlatMapOne<A, B>(f: A -> seq<B>, x: A)
    ensures FlatMap(f, [x]) == f(x)
  {
    assert [x][1..] == [];
  }

  lemma {:induction false} FlatMapConcat<A, B>(f: A -> seq<B>, s: seq<A>, t: seq<A>)
    ensures FlatMap(f, s + t) == FlatMap(f, s) + FlatMap(f, t)
  {
    if s == [] {
      assert s + t == t;
    } else {
      FlatMapConcat(f, s[1..], t);
      assert (s + t)[1..] == s[1..] + t;
    }
  }

  /** Where each element of the image comes from. */
  lemma {:induction false} FlatMapIn<A, B>(f: A -> seq<B>, s: seq<A>, y: B)
    ensures y in FlatMap(f, s) <==> exists x :: x in s && y in f(x)
  {
    if s != [] {
      FlatMapIn(f, s[1..], y);
      assert s == [s[0]] + s[1..];
    }
  }

  lemma FlatMapMiddle<A, B>(f: A -> seq<B>, a: seq<A>, x: A, b: seq<A>)
    ensures FlatMap(f, a + ([x] + b)) == FlatMap(f, a) + (f(x) + FlatMap(f, b))
  {
    FlatMapConcat(f, a, [x] + b);
    FlatMapConcat(f, [x], b);
    FlatMapOne(f, x);
  }

  lemma TakeOut<A>(s: seq<A>, t: seq<A>) returns (a: seq<A>, b: seq<A>)
    requires s != [] && multiset(s) == multiset(t)
    ensures t == a + ([s[0]] + b) && multiset(s[1..]) == multiset(a + b)
  {
    var j := IndexIn(t, s[0], s);
    a, b := t[..j], t[j + 1..];
    CountMiddle([], s[0], s[1..]);
    CountMiddle(a, s[0], b);
    assert [] + ([s[0]] + s[1..]) == s && [] + s[1..] == s[1..];
    Cancel(multiset(s[1..]), multiset(a + b), s[0]);
  }

  lemma IndexIn<A>(t: seq<A>, x: A, s: seq<A>) returns (j: nat)
    requires multiset(s) == multiset(t) && x in s
    ensures j < |t| && t[j] == x && t == t[..j] + ([x] + t[j + 1..])
  {
    assert x in multiset(s);
    assert x in multiset(t);
    j :| 0 <= j < |t| && t[j] == x;
  }

  lemma Cancel<A>(m: multiset<A>, n: multiset<A>, x: A)
    requires m + multiset{x} == n + multiset{x}
    ensures m == n
  {
    assert (m + multiset{x}) - multiset{x} == m && (n + multiset{x}) - multiset{x} == n;
  }

  lemma CountMiddle<A>(a: seq<A>, x: A, b: seq<A>)
    ensures multiset(a + ([x] + b)) == multiset(a + b) + multiset{x}
  {
  }

  /** Reordering the sources only reorders the image. */
  lemma {:induction false} FlatMapPermutes<A, B>(f: A -> seq<B>, s: seq<A>, t: seq<A>)
    requires multiset(s) == multiset(t)
    ensures multiset(FlatMap(f, s)) == multiset(FlatMap(f, t))
    decreases |s|
  {
    assert |s| == |multiset(s)| == |multiset(t)| == |t|;
    if s != [] {
      var a, b := TakeOut(s, t);
      FlatMapPermutes(f, s[1..], a + b);
      FlatMapMiddle(f, a, s[0], b);
      FlatMapConcat(f, a, b);
      FlatMapHead(f, s);
      hide FlatMap;
    }
  }

  lemma FlatMapHead<A, B>(f: A -> seq<B>, s: seq<A>)
    requires s != []
    ensures FlatMap(f, s) == f(s[0]) + FlatMap(f, s[1..])
  {
  }

  lemma NoDupConcat<T>(s: seq<T>, t: seq<T>)
    ensures NoDup(s + t) <==> NoDup(s) && NoDup(t) && (forall x :: x in s ==> x !in t)
  {
    if NoDup(s + t) {
      forall i, j | 0 <= i < j < |s| ensures s[i] != s[j] {
        assert (s + t)[i] == s[i] && (s + t)[j] == s[j];
      }
      forall i, j | 0 <= i < j < |t| ensures t[i] != t[j] {
        assert (s + t)[|s| + i] == t[i] && (s + t)[|s| + j] == t[j];
      }
      forall x | x in s ensures x !in t {
        var i :| 0 <= i < |s| && s[i] == x;
        forall j | 0 <= j < |t| ensures t[j] != x {
          assert (s + t)[i] == x && (s + t)[|s| + j] == t[j];
        }
      }
    }
    if NoDup(s) && NoDup(t) && forall x :: x in s ==> x !in t {
      forall i, j | 0 <= i < j < |s + t| ensures (s + t)[i] != (s + t)[j] {
        if i < |s| <= j {
          assert s[i] in s && t[j - |s|] in t;
        }
      }
    }
  }

  lemma {:induction false} NoDupByCount<T>(s: seq<T>)
    ensures NoDup(s) <==> forall x :: multiset(s)[x] <= 1
  {
    if s != [] {
      var t := s[1..];
      assert s == [s[0]] + t;
      NoDupByCount(t);
      NoDupConcat([s[0]], t);
      if NoDup(s) {
        assert s[0] !in t;
      } else if NoDup(t) {
        assert s[0] in t;
        assert multiset(s)[s[0]] >= 2;
      } else {
        var x :| multiset(t)[x] > 1;
        assert multiset(s)[x] > 1;
      }
    }
  }

  lemma NoDupPermutes<T>(s: seq<T>, t: seq<T>)
    requires multiset(s) == multiset(t)
    ensures NoDup(s) <==> NoDup(t)
  {
    NoDupByCount(s);
    NoDupByCount(t);
  }
}
