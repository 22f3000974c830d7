/**
 Sequence vocabulary shared by the protocol modules: concatenation of parts,
 duplicate-freedom and the subsequence order.
 */
module Seqs {

  datatype Option<+T> = None | Some(value: T)

  /** The concatenation of a sequence of sequences. */
  function Flatten<T>(xss: seq<seq<T>>): seq<T> {
    if xss == [] then [] else xss[0] + Flatten(xss[1..])
  }

  lemma {:induction false} FlattenAppend<T>(xss: seq<seq<T>>, yss: seq<seq<T>>)
    ensures Flatten(xss + yss) == Flatten(xss) + Flatten(yss)
  {
    if xss == [] {
      assert xss + yss == yss;
    } else {
      assert (xss + yss)[0] == xss[0] && (xss + yss)[1..] == xss[1..] + yss;
      FlattenAppend(xss[1..], yss);
      assert xss[0] + (Flatten(xss[1..]) + Flatten(yss)) == xss[0] + Flatten(xss[1..]) + Flatten(yss);
    }
  }

  lemma FlattenSnoc<T>(xss: seq<seq<T>>, x: seq<T>)
    ensures Flatten(xss + [x]) == Flatten(xss) + x
  {
    FlattenAppend(xss, [x]);
    assert Flatten([x]) == x + Flatten([]);
  }

  /** Event e is helpful after run: it keeps it good and leaves less work. */
  ghost predicate Advances<E(!new)>(
    good: seq<E> -> bool, helps: E -> bool, work: seq<E> -> nat, run: seq<E>, e: E)
  {
    helps(e) && good(run + [e]) && work(run + [e]) < work(run)
  }

  /** A run that can always be advanced until it is done can be completed. */
  lemma {:induction false} Descend<E(!new)>(
    good: seq<E> -> bool, done: seq<E> -> bool, helps: E -> bool, work: seq<E> -> nat, run: seq<E>)
    returns (more: seq<E>)
    requires good(run)
    requires forall r: seq<E> :: good(r) && !done(r) ==> exists e :: Advances(good, helps, work, r, e)
    ensures (forall i :: 0 <= i < |more| ==> helps(more[i])) && good(run + more) && done(run + more)
    decreases work(run)
  {
    if done(run) {
      more := [];
      assert run + more == run;
    } else {
      var e :| Advances(good, helps, work, run, e);
      var rest := Descend(good, done, helps, work, run + [e]);
      more := [e] + rest;
      assert run + more == run + [e] + rest;
    }
  }

  /** No element occurs twice. */
  predicate NoDup<T(==)>(s: seq<T>) {
    forall i, j :: 0 <= i < j < |s| ==> s[i] != s[j]
  }

  /** The elements of a sequence, as a set. */
  function Elements<T>(s: seq<T>): set<T> {
    set x | x in s
  }

  /** The sequence without its element k. */
  function Without<T>(q: seq<T>, k: nat): seq<T>
    requires k < |q|
  {
    q[..k] + q[k + 1..]
  }

  /** `a` is obtained from `b` by deleting elements. */
  ghost predicate IsSubseq<T(!new)>(a: seq<T>, b: seq<T>) {
    || a == []
    || (b != [] && ((a[0] == b[0] && IsSubseq(a[1..], b[1..])) || IsSubseq(a, b[1..])))
  }

  lemma {:induction false} SubseqRefl<T(!new)>(a: seq<T>)
    ensures IsSubseq(a, a)
  {
    if a != [] {
      SubseqRefl(a[1..]);
    }
  }

  lemma {:induction false} SubseqLength<T(!new)>(a: seq<T>, b: seq<T>)
    requires IsSubseq(a, b)
    ensures |a| <= |b|
    ensures |a| == |b| ==> a == b
    decreases |b|
  {
    if a != [] {
      if a[0] == b[0] && IsSubseq(a[1..], b[1..]) {
        SubseqLength(a[1..], b[1..]);
        assert a == [a[0]] + a[1..] && b == [b[0]] + b[1..];
      } else {
        SubseqLength(a, b[1..]);
      }
    }
  }

  lemma {:induction false} SubseqTrans<T(!new)>(a: seq<T>, b: seq<T>, c: seq<T>)
    requires IsSubseq(a, b) && IsSubseq(b, c)
    ensures IsSubseq(a, c)
    decreases |b| + |c|
  {
    if a != [] {
      if b[0] == c[0] && IsSubseq(b[1..], c[1..]) {
        if a[0] == b[0] && IsSubseq(a[1..], b[1..]) {
          SubseqTrans(a[1..], b[1..], c[1..]);
        } else {
          SubseqTrans(a, b[1..], c[1..]);
        }
      } else {
        SubseqTrans(a, b, c[1..]);
      }
    }
  }

  lemma {:induction false} SubseqMember<T(!new)>(a: seq<T>, b: seq<T>, x: T)
    requires IsSubseq(a, b) && x in a
    ensures x in b
    decreases |b|
  {
    if a[0] == b[0] && IsSubseq(a[1..], b[1..]) {
      if x != a[0] {
        assert x in a[1..];
        SubseqMember(a[1..], b[1..], x);
      }
    } else {
      SubseqMember(a, b[1..], x);
    }
  }

  /** Appending the same tail to both sides keeps the order. */
  lemma {:induction false} SubseqAppend<T(!new)>(a: seq<T>, b: seq<T>, t: seq<T>)
    requires IsSubseq(a, b)
    ensures IsSubseq(a + t, b + t)
    decreases |b|
  {
    if b == [] {
      assert a + t == t && b + t == t;
      SubseqRefl(t);
    } else {
      assert (b + t)[1..] == b[1..] + t;
      if a != [] && a[0] == b[0] && IsSubseq(a[1..], b[1..]) {
        assert (a + t)[1..] == a[1..] + t;
        SubseqAppend(a[1..], b[1..], t);
      } else {
        SubseqAppend(a, b[1..], t);
        assert IsSubseq(a + t, (b + t)[1..]);
      }
    }
  }

  /** Deleting one element in the middle. */
  lemma {:induction false} SubseqDelete<T(!new)>(x: seq<T>, e: T, y: seq<T>)
    ensures IsSubseq(x + y, x + [e] + y)
  {
    var a, b := x + y, x + [e] + y;
    if x == [] {
      assert a == y && b[1..] == y;
      SubseqRefl(y);
    } else {
      assert a[1..] == x[1..] + y && b[1..] == x[1..] + [e] + y;
      SubseqDelete(x[1..], e, y);
    }
  }

  /** Deleting a stretch in the middle. */
  lemma {:induction false} SubseqCut<T(!new)>(x: seq<T>, d: seq<T>, y: seq<T>)
    ensures IsSubseq(x + y, x + d + y)
    decreases |d|
  {
    if d == [] {
      assert x + d + y == x + y;
      SubseqRefl(x + y);
    } else {
      SubseqDelete(x, d[0], d[1..] + y);
      assert x + [d[0]] + (d[1..] + y) == x + d + y;
      SubseqCut(x, d[1..], y);
      assert x + d[1..] + y == x + (d[1..] + y);
      SubseqTrans(x + y, x + (d[1..] + y), x + d + y);
    }
  }
}
