/** A binary max-heap in a list, generic in its comparator, as the scheduler uses the standard library's.

    `le(a, b)` says that `a` compares at most equal to `b`. */
module BinaryHeap {
  import opened Wrappers

  ghost predicate TotalPreorder<T(!new)>(le: (T, T) -> bool) {
    && (forall a, b :: le(a, b) || le(b, a))
    && forall a, b, c :: le(a, b) && le(b, c) ==> le(a, c)
  }

  function Swap<T>(s: seq<T>, i: nat, j: nat): (r: seq<T>)
    requires i < |s| && j < |s|
    ensures multiset(r) == multiset(s)
  {
    s[i := s[j]][j := s[i]]
  }

  function Parent(i: int): int {
    (i - 1) / 2
  }

  /** Element `i`, if there is one below the top, is at most its parent. */
  ghost predicate InOrder<T>(le: (T, T) -> bool, s: seq<T>, i: int) {
    0 < i < |s| ==> le(s[i], s[Parent(i)])
  }

  ghost predicate IsHeap<T>(le: (T, T) -> bool, s: seq<T>) {
    forall i :: InOrder(le, s, i)
  }

  function SiftUp<T>(le: (T, T) -> bool, s: seq<T>, i: nat): (r: seq<T>)
    requires i < |s|
    ensures multiset(r) == multiset(s)
    decreases i
  {
    if i == 0 || le(s[i], s[Parent(i)]) then s
    else SiftUp(le, Swap(s, i, Parent(i)), Parent(i))
  }

  /** The child of `i` to compare with: the greater one. */
  function GreaterChild<T>(le: (T, T) -> bool, s: seq<T>, i: nat): (c: nat)
    requires 2 * i + 1 < |s|
    ensures c < |s| && c > i && Parent(c) == i
  {
    if 2 * i + 2 < |s| && le(s[2 * i + 1], s[2 * i + 2]) then 2 * i + 2 else 2 * i + 1
  }

  function SiftDown<T>(le: (T, T) -> bool, s: seq<T>, i: nat): (r: seq<T>)
    requires i < |s|
    ensures multiset(r) == multiset(s)
    decreases |s| - i
  {
    if 2 * i + 1 >= |s| then s else
      var c := GreaterChild(le, s, i);
      if le(s[c], s[i]) then s else SiftDown(le, Swap(s, i, c), c)
  }

  function Push<T>(le: (T, T) -> bool, s: seq<T>, x: T): (r: seq<T>)
    ensures multiset(r) == multiset(s) + multiset{x}
  {
    assert multiset(s + [x]) == multiset(s) + multiset{x};
    SiftUp(le, s + [x], |s|)
  }

  /** The element on top of the heap, and the heap without it. */
  function Pop<T>(le: (T, T) -> bool, s: seq<T>): (r: (Option<T>, seq<T>))
    ensures s == [] ==> r == (None, [])
    ensures s != [] ==> r.0 == Some(s[0]) && multiset(r.1) + multiset{s[0]} == multiset(s)
  {
    if s == [] then (None, [])
    else if |s| == 1 then (Some(s[0]), [])
    else
      var n := |s| - 1;
      assert multiset(s[..n][0 := s[n]]) + multiset{s[0]} == multiset(s) by {
        MoveLast(s);
      }
      (Some(s[0]), SiftDown(le, s[..n][0 := s[n]], 0))
  }

  lemma MoveLast<T>(s: seq<T>)
    requires |s| > 1
    ensures multiset(s[..|s| - 1][0 := s[|s| - 1]]) + multiset{s[0]} == multiset(s)
  {
    var n := |s| - 1;
    assert s == [s[0]] + s[1..n] + [s[n]];
    assert s[..n][0 := s[n]] == [s[n]] + s[1..n];
  }

  /** A heap of the elements in any order. */
  function Build<T>(le: (T, T) -> bool, s: seq<T>): (r: seq<T>)
    ensures multiset(r) == multiset(s)
  {
    if s == [] then [] else
      assert s == s[..|s| - 1] + [s[|s| - 1]];
      Push(le, Build(le, s[..|s| - 1]), s[|s| - 1])
  }

  function Filter<T(!new)>(keep: T -> bool, s: seq<T>): (r: seq<T>)
    ensures forall x :: multiset(r)[x] == if keep(x) then multiset(s)[x] else 0
  {
    if s == [] then [] else
      var n := |s| - 1;
      assert s == s[..n] + [s[n]];
      if keep(s[n]) then Filter(keep, s[..n]) + [s[n]] else Filter(keep, s[..n])
  }

  function Retain<T(!new)>(le: (T, T) -> bool, keep: T -> bool, s: seq<T>): (r: seq<T>)
    ensures forall x :: multiset(r)[x] == if keep(x) then multiset(s)[x] else 0
  {
    Build(le, Filter(keep, s))
  }

  // ----- The heap order ---------------------------------------------------------------------------

  /** Element `j`, if it is a child of `i`, is at most the parent of `i`. */
  ghost predicate BelowGrandparent<T>(le: (T, T) -> bool, s: seq<T>, j: int, i: nat) {
    0 < j < |s| && Parent(j) == i && 0 < i < |s| ==> le(s[j], s[Parent(i)])
  }

  /** A heap but for the element at `i`, which may be greater than its parent. */
  ghost predicate HeapButUp<T>(le: (T, T) -> bool, s: seq<T>, i: nat) {
    && (forall j :: j != i ==> InOrder(le, s, j))
    && forall j :: BelowGrandparent(le, s, j, i)
  }

  lemma {:induction false} SiftUpHeap<T(!new)>(le: (T, T) -> bool, s: seq<T>, i: nat)
    requires TotalPreorder(le) && i < |s| && HeapButUp(le, s, i)
    ensures IsHeap(le, SiftUp(le, s, i))
    decreases i
  {
    if i > 0 && !le(s[i], s[Parent(i)]) {
      var p := Parent(i);
      var t := Swap(s, i, p);
      assert le(s[p], s[i]);
      forall j | j != p
        ensures InOrder(le, t, j)
      {
        assert InOrder(le, s, j) || j == i;
        assert BelowGrandparent(le, s, j, i);
      }
      forall j
        ensures BelowGrandparent(le, t, j, p)
      {
        assert InOrder(le, s, p);
        assert j != i ==> InOrder(le, s, j);
      }
      SiftUpHeap(le, t, p);
    } else {
      assert InOrder(le, s, i);
    }
  }

  /** A heap but for the element at `i`, which may be less than its children. */
  ghost predicate HeapButDown<T>(le: (T, T) -> bool, s: seq<T>, i: nat) {
    && (forall j :: Parent(j) != i ==> InOrder(le, s, j))
    && forall j :: BelowGrandparent(le, s, j, i)
  }

  lemma {:induction false} SiftDownHeap<T(!new)>(le: (T, T) -> bool, s: seq<T>, i: nat)
    requires TotalPreorder(le) && i < |s| && HeapButDown(le, s, i)
    ensures IsHeap(le, SiftDown(le, s, i))
    decreases |s| - i
  {
    if 2 * i + 1 < |s| {
      var c := GreaterChild(le, s, i);
      if le(s[c], s[i]) {
        forall j
          ensures InOrder(le, s, j)
        {
          if 0 < j < |s| && Parent(j) == i {
            assert le(s[j], s[c]);
          }
        }
      } else {
        var t := Swap(s, i, c);
        assert le(s[i], s[c]);
        forall j | Parent(j) != c
          ensures InOrder(le, t, j)
        {
          if 0 < j < |s| && Parent(j) == i {
            assert le(s[j], s[c]);
          } else if j == i {
            assert BelowGrandparent(le, s, c, i);
          } else {
            assert InOrder(le, s, j);
          }
        }
        forall j
          ensures BelowGrandparent(le, t, j, c)
        {
          assert InOrder(le, s, j) || Parent(j) == i;
        }
        SiftDownHeap(le, t, c);
      }
    } else {
      forall j
        ensures InOrder(le, s, j)
      {
        assert Parent(j) != i || j >= |s|;
      }
    }
  }

  lemma PushHeap<T(!new)>(le: (T, T) -> bool, s: seq<T>, x: T)
    requires TotalPreorder(le) && IsHeap(le, s)
    ensures IsHeap(le, Push(le, s, x))
  {
    var t := s + [x];
    forall j | j != |s|
      ensures InOrder(le, t, j)
    {
      assert InOrder(le, s, j);
    }
    SiftUpHeap(le, t, |s|);
  }

  lemma PopHeap<T(!new)>(le: (T, T) -> bool, s: seq<T>)
    requires TotalPreorder(le) && IsHeap(le, s)
    ensures IsHeap(le, Pop(le, s).1)
  {
    if |s| > 1 {
      var n := |s| - 1;
      var t := s[..n][0 := s[n]];
      forall j | Parent(j) != 0
        ensures InOrder(le, t, j)
      {
        assert InOrder(le, s, j);
      }
      SiftDownHeap(le, t, 0);
    }
  }

  lemma {:induction false} BuildHeap<T(!new)>(le: (T, T) -> bool, s: seq<T>)
    requires TotalPreorder(le)
    ensures IsHeap(le, Build(le, s))
  {
    if s != [] {
      BuildHeap(le, s[..|s| - 1]);
      PushHeap(le, Build(le, s[..|s| - 1]), s[|s| - 1]);
    }
  }

  lemma RetainHeap<T(!new)>(le: (T, T) -> bool, keep: T -> bool, s: seq<T>)
    requires TotalPreorder(le)
    ensures IsHeap(le, Retain(le, keep, s))
  {
    BuildHeap(le, Filter(keep, s));
  }

  lemma PushSize<T>(le: (T, T) -> bool, s: seq<T>, x: T)
    ensures |Push(le, s, x)| == |s| + 1
  {
    var r := Push(le, s, x);
    assert |multiset(r)| == |r| && |multiset(s)| == |s|;
    assert |multiset(s) + multiset{x}| == |s| + 1;
  }

  lemma PopSize<T>(le: (T, T) -> bool, s: seq<T>)
    ensures |Pop(le, s).1| == if s == [] then 0 else |s| - 1
  {
    if s != [] {
      SameSize(Pop(le, s).1, s);
    }
  }

  lemma RetainSize<T(!new)>(le: (T, T) -> bool, s: seq<T>, keep: T -> bool)
    ensures |Retain(le, keep, s)| <= |s|
  {
    var r := multiset(Retain(le, keep, s));
    assert r <= multiset(s);
    assert multiset(s) == r + (multiset(s) - r);
    assert |r| == |Retain(le, keep, s)|;
  }

  /** Nothing in a heap is greater than its top. */
  lemma {:induction false} TopIsGreatest<T(!new)>(le: (T, T) -> bool, s: seq<T>, i: nat)
    requires TotalPreorder(le) && IsHeap(le, s) && i < |s|
    ensures le(s[i], s[0])
  {
    if i > 0 {
      assert InOrder(le, s, i);
      TopIsGreatest(le, s, Parent(i));
    }
  }

  lemma PushOne<T>(le: (T, T) -> bool, a: T)
    ensures Push(le, [], a) == [a]
  {
    var none: seq<T> := [];
    assert none + [a] == [a];
  }

  lemma PushTwo<T>(le: (T, T) -> bool, a: T, b: T)
    ensures Push(le, [a], b) == if le(b, a) then [a, b] else [b, a]
  {
    assert [a] + [b] == [a, b];
    assert Swap([a, b], 1, 0) == [b, a];
    assert Parent(1) == 0;
    assert SiftUp(le, [b, a], 0) == [b, a];
  }

  // ----- Runs -------------------------------------------------------------------------------------

  datatype Op<!T> = PushOp(x: T) | PopOp | RetainOp(keep: T -> bool)

  function Applied<T(!new)>(le: (T, T) -> bool, s: seq<T>, op: Op<T>): seq<T> {
    match op
    case PushOp(x) => Push(le, s, x)
    case PopOp => Pop(le, s).1
    case RetainOp(keep) => Retain(le, keep, s)
  }

  /** The heap after a run of operations on an empty one. */
  function Run<T(!new)>(le: (T, T) -> bool, ops: seq<Op<T>>): seq<T> {
    if ops == [] then [] else Applied(le, Run(le, ops[..|ops| - 1]), ops[|ops| - 1])
  }

  lemma {:induction false} RunIsHeap<T(!new)>(le: (T, T) -> bool, ops: seq<Op<T>>)
    requires TotalPreorder(le)
    ensures IsHeap(le, Run(le, ops))
  {
    if ops != [] {
      var before := Run(le, ops[..|ops| - 1]);
      RunIsHeap(le, ops[..|ops| - 1]);
      match ops[|ops| - 1]
      case PushOp(x) => PushHeap(le, before, x);
      case PopOp => PopHeap(le, before);
      case RetainOp(keep) => RetainHeap(le, keep, before);
    }
  }

  /** Each pop in any run of pushes, pops and retains returns an element that nothing pending exceeds. */
  lemma PopsTheBest<T(!new)>(le: (T, T) -> bool, ops: seq<Op<T>>)
    requires TotalPreorder(le)
    ensures var pending := Run(le, ops);
            match Pop(le, pending).0
            case None => pending == []
            case Some(top) => top in pending && forall x :: x in pending ==> le(x, top)
  {
    var pending := Run(le, ops);
    RunIsHeap(le, ops);
    forall i: nat | i < |pending|
      ensures le(pending[i], pending[0])
    {
      TopIsGreatest(le, pending, i);
    }
  }

  /** All elements in the order in which the heap pops them. */
  function Drain<T>(le: (T, T) -> bool, s: seq<T>): (r: seq<T>)
    ensures multiset(r) == multiset(s)
    decreases |s|
  {
    if s == [] then [] else
      var rest := Pop(le, s).1;
      SameSize(rest, s);
      [s[0]] + Drain(le, rest)
  }

  lemma SameSize<T>(rest: seq<T>, s: seq<T>)
    requires s != [] && multiset(rest) + multiset{s[0]} == multiset(s)
    ensures |rest| == |s| - 1
  {
    assert |multiset(rest)| == |rest| && |multiset(s)| == |s|;
    assert |multiset(rest) + multiset{s[0]}| == |rest| + 1;
  }

  lemma DrainedBelowTop<T(!new)>(le: (T, T) -> bool, s: seq<T>, j: nat)
    requires TotalPreorder(le) && IsHeap(le, s) && 0 < j < |s|
    ensures |Drain(le, s)| == |s| && le(Drain(le, s)[j], s[0])
  {
    DrainSize(le, s);
    var x := Drain(le, s)[j];
    assert x in multiset(Drain(le, s));
    assert x in multiset(s);
    var k: nat :| k < |s| && s[k] == x;
    TopIsGreatest(le, s, k);
  }

  lemma DrainStep<T>(le: (T, T) -> bool, s: seq<T>)
    requires s != []
    ensures Drain(le, s) == [s[0]] + Drain(le, Pop(le, s).1) && |Pop(le, s).1| == |s| - 1
  {
    SameSize(Pop(le, s).1, s);
  }

  /** Draining a heap yields a permutation of it in descending order. */
  lemma {:induction false} DrainDescends<T(!new)>(le: (T, T) -> bool, s: seq<T>, i: nat, j: nat)
    requires TotalPreorder(le) && IsHeap(le, s) && i < j < |s|
    ensures |Drain(le, s)| == |s| && le(Drain(le, s)[j], Drain(le, s)[i])
    decreases |s|
  {
    hide Pop, Drain, IsHeap, TotalPreorder;
    PopHeap(le, s);
    DrainStep(le, s);
    DrainSize(le, s);
    if i > 0 {
      DrainDescends(le, Pop(le, s).1, i - 1, j - 1);
    } else {
      DrainedBelowTop(le, s, j);
    }
  }

  lemma DrainSize<T>(le: (T, T) -> bool, s: seq<T>)
    ensures |Drain(le, s)| == |s|
  {
    assert |multiset(Drain(le, s))| == |Drain(le, s)| && |multiset(s)| == |s|;
  }
}
