/** Compiler types as uniform trees, the substitution of generic parameters, and the two
    pre-order walks over a type: the plain one, and the one `ty.walk()` performs, which
    never yields the same type twice. */
module Types {

  type DefId = nat

  /** The outermost constructor of a type. Lifetimes are leaves of the tree, constants part of the head. */
  datatype Head =
    | Prim(id: nat)
    | Adt(did: DefId)
    | Tuple
    | Ref(mutbl: bool)
    | RawPtr(mutbl: bool)
    | Array(len: nat)
    | Slice
    | FnDef(did: DefId)
    | FnPtr
    | Closure(did: DefId)
    | Dynamic(did: DefId)
    | Foreign(did: DefId)
    | Param(index: nat)
    | Alias(did: DefId)
    | Lifetime(id: nat)

  datatype Ty = Ty(head: Head, args: seq<Ty>)

  /** The lifetime that stands for all of them once they are erased. */
  const ERASED := Ty(Lifetime(0), [])

  const BOOL := Ty(Prim(0), [])
  const USIZE := Ty(Prim(1), [])

  predicate IsTuple(t: Ty) {
    t.head == Tuple
  }

  predicate IsRef(t: Ty) {
    t.head.Ref?
  }

  /** Some node of `t` has a head satisfying `p`. */
  predicate Any(t: Ty, p: Head -> bool) {
    p(t.head) || exists k | 0 <= k < |t.args| :: Any(t.args[k], p)
  }

  predicate IsClosureHead(h: Head) {
    h.Closure?
  }

  predicate IsErasingHead(h: Head) {
    h.Param? || h.FnPtr? || h.RawPtr? || h.Dynamic? || h.Foreign?
  }

  predicate IsParamHead(h: Head) {
    h.Param?
  }

  predicate ContainsClosure(t: Ty) {
    Any(t, IsClosureHead)
  }

  /** The type hides the concrete types that may flow through it, so they have to be tracked. */
  predicate ContainsErased(t: Ty) {
    !ContainsClosure(t) && Any(t, IsErasingHead)
  }

  /** `t` mentions no type parameter. */
  predicate Closed(t: Ty) {
    !Any(t, IsParamHead)
  }

  function Subst(t: Ty, s: seq<Ty>): Ty {
    if t.head.Param? then
      if t.head.index < |s| then s[t.head.index] else t
    else
      Ty(t.head, seq(|t.args|, k requires 0 <= k < |t.args| => Subst(t.args[k], s)))
  }

  /** Types in bodies have their lifetimes erased. */
  function Erase(t: Ty): Ty {
    Ty(if t.head.Lifetime? then Lifetime(0) else t.head, seq(|t.args|, k requires 0 <= k < |t.args| => Erase(t.args[k])))
  }

  function SubstAll(ts: seq<Ty>, s: seq<Ty>): seq<Ty> {
    seq(|ts|, k requires 0 <= k < |ts| => Subst(ts[k], s))
  }

  lemma {:induction false} SubstClosed(t: Ty, s: seq<Ty>)
    requires Closed(t)
    ensures Subst(t, s) == t
  {
    forall k | 0 <= k < |t.args|
      ensures Subst(t.args[k], s) == t.args[k]
    {
      assert Closed(t.args[k]);
      SubstClosed(t.args[k], s);
    }
  }

  lemma SubstAllAt(ts: seq<Ty>, s: seq<Ty>, k: nat)
    requires k < |ts|
    ensures |SubstAll(ts, s)| == |ts| && SubstAll(ts, s)[k] == Subst(ts[k], s)
  {
  }

  /** Substituting parameters by themselves changes nothing, and neither does having nothing to substitute. */
  lemma {:induction false} SubstIdentity(t: Ty, s: seq<Ty>)
    requires forall k | 0 <= k < |s| :: s[k] == Ty(Param(k), [])
    requires ParamsAreLeaves(t)
    ensures Subst(t, s) == t
  {
    forall k | 0 <= k < |t.args|
      ensures Subst(t.args[k], s) == t.args[k]
    {
      SubstIdentity(t.args[k], s);
    }
  }

  predicate ParamsAreLeaves(t: Ty) {
    (t.head.Param? ==> t.args == []) && forall k | 0 <= k < |t.args| :: ParamsAreLeaves(t.args[k])
  }

  /** All parameters of the type are among the first `n`. */
  predicate ParamsBelow(t: Ty, n: nat) {
    (t.head.Param? ==> t.head.index < n) && forall k | 0 <= k < |t.args| :: ParamsBelow(t.args[k], n)
  }

  /** Substituting twice is substituting what was substituted. */
  lemma {:induction false} SubstComposes(t: Ty, a: seq<Ty>, b: seq<Ty>)
    requires ParamsBelow(t, |a|)
    ensures Subst(Subst(t, a), b) == Subst(t, SubstAll(a, b))
  {
    if t.head.Param? {
      SubstAllAt(a, b, t.head.index);
    } else {
      forall k | 0 <= k < |t.args|
        ensures Subst(Subst(t.args[k], a), b) == Subst(t.args[k], SubstAll(a, b))
      {
        SubstComposes(t.args[k], a, b);
      }
      assert Subst(Subst(t, a), b).args == Subst(t, SubstAll(a, b)).args;
    }
  }

  // ---------------------------------------------------------------------------------------
  // Sizes

  function Size(t: Ty): (n: nat)
    ensures n > 0
    decreases t, 0
  {
    1 + TotalSize(t.args)
  }

  function TotalSize(ts: seq<Ty>): nat
    decreases ts, 1
  {
    if ts == [] then 0 else Size(ts[0]) + TotalSize(ts[1..])
  }

  lemma {:induction false} TotalSizeConcat(a: seq<Ty>, b: seq<Ty>)
    ensures TotalSize(a + b) == TotalSize(a) + TotalSize(b)
    decreases |a|
  {
    if a == [] {
      assert a + b == b;
    } else {
      assert (a + b)[1..] == a[1..] + b;
      TotalSizeConcat(a[1..], b);
    }
  }

  /** Replacing the top of the stack by its children shrinks the stack. */
  lemma {:induction false} PushShrinks(stack: seq<Ty>)
    requires stack != []
    ensures TotalSize(stack[0].args + stack[1..]) < TotalSize(stack)
  {
    TotalSizeConcat(stack[0].args, stack[1..]);
    assert Size(stack[0]) == 1 + TotalSize(stack[0].args);
  }

  lemma {:induction false} ElementSmaller(ts: seq<Ty>, k: nat)
    requires k < |ts|
    ensures Size(ts[k]) <= TotalSize(ts)
    decreases |ts|
  {
    if k > 0 {
      ElementSmaller(ts[1..], k - 1);
    }
  }

  // ---------------------------------------------------------------------------------------
  // Subterms and walks

  predicate Within(x: Ty, t: Ty) {
    x == t || exists k | 0 <= k < |t.args| :: Within(x, t.args[k])
  }

  lemma {:induction false} WithinSize(x: Ty, t: Ty)
    requires Within(x, t)
    ensures Size(x) <= Size(t)
    ensures x != t ==> Size(x) < Size(t)
  {
    if x != t {
      var k :| 0 <= k < |t.args| && Within(x, t.args[k]);
      WithinSize(x, t.args[k]);
      ElementSmaller(t.args, k);
    }
  }

  lemma {:induction false} WithinClosed(x: Ty, t: Ty)
    requires Within(x, t) && Closed(t)
    ensures Closed(x)
  {
    if x != t {
      var k :| 0 <= k < |t.args| && Within(x, t.args[k]);
      assert Closed(t.args[k]);
      WithinClosed(x, t.args[k]);
    }
  }

  /** The plain pre-order walk over a stack of types. */
  function Preorder(stack: seq<Ty>): seq<Ty>
    decreases TotalSize(stack)
  {
    if stack == [] then []
    else
      PushShrinks(stack);
      [stack[0]] + Preorder(stack[0].args + stack[1..])
  }

  /** The walk the compiler performs: a type met before is skipped together with its children. */
  function Fresh(stack: seq<Ty>, seen: set<Ty>): seq<Ty>
    decreases TotalSize(stack)
  {
    if stack == [] then []
    else if stack[0] in seen then Fresh(stack[1..], seen)
    else
      PushShrinks(stack);
      [stack[0]] + Fresh(stack[0].args + stack[1..], seen + {stack[0]})
  }

  function Walk(t: Ty): seq<Ty> {
    Fresh([t], {})
  }

  /** Whatever the compiler's walk yields is new: not seen before, and yielded once. */
  lemma {:induction false} FreshIsNew(stack: seq<Ty>, seen: set<Ty>)
    ensures forall n | n in Fresh(stack, seen) :: n !in seen
    ensures forall i, j | 0 <= i < j < |Fresh(stack, seen)| :: Fresh(stack, seen)[i] != Fresh(stack, seen)[j]
    decreases TotalSize(stack)
  {
    if stack == [] {
    } else if stack[0] in seen {
      FreshIsNew(stack[1..], seen);
    } else {
      PushShrinks(stack);
      FreshIsNew(stack[0].args + stack[1..], seen + {stack[0]});
    }
  }

  /** Every already seen type has all its children either seen or still waiting on the stack. */
  ghost predicate Explored(stack: seq<Ty>, seen: set<Ty>) {
    forall x, k | x in seen && 0 <= k < |x.args| :: x.args[k] in seen || x.args[k] in stack
  }

  lemma {:induction false} FreshCovers(stack: seq<Ty>, seen: set<Ty>)
    requires Explored(stack, seen)
    ensures forall t | t in stack :: t in seen || t in Fresh(stack, seen)
    ensures forall x, k | (x in seen || x in Fresh(stack, seen)) && 0 <= k < |x.args| ::
              x.args[k] in seen || x.args[k] in Fresh(stack, seen)
    decreases TotalSize(stack)
  {
    if stack == [] {
    } else if stack[0] in seen {
      FreshCovers(stack[1..], seen);
    } else {
      PushShrinks(stack);
      var rest := stack[0].args + stack[1..];
      var seen' := seen + {stack[0]};
      forall x, k | x in seen' && 0 <= k < |x.args|
        ensures x.args[k] in seen' || x.args[k] in rest
      {
        if x == stack[0] {
          assert rest[k] == x.args[k];
        } else if x.args[k] !in seen' {
          var j :| 0 <= j < |stack| && stack[j] == x.args[k];
          assert rest[|stack[0].args| + j - 1] == stack[j];
        }
      }
      FreshCovers(rest, seen');
      forall t | t in stack
        ensures t in seen || t in Fresh(stack, seen)
      {
        if t != stack[0] {
          var j :| 0 <= j < |stack| && stack[j] == t;
          assert rest[|stack[0].args| + j - 1] == t;
        }
      }
    }
  }

  /** Nothing but subterms of the stack is ever yielded. */
  lemma {:induction false} FreshWithin(stack: seq<Ty>, seen: set<Ty>, n: Ty)
    requires n in Fresh(stack, seen)
    ensures exists t :: t in stack && Within(n, t)
    decreases TotalSize(stack)
  {
    assert stack[0] in stack;
    if stack[0] in seen {
      FreshWithin(stack[1..], seen, n);
      var t :| t in stack[1..] && Within(n, t);
      assert t in stack;
    } else if n == stack[0] {
      assert Within(n, stack[0]);
    } else {
      PushShrinks(stack);
      FreshWithin(stack[0].args + stack[1..], seen + {stack[0]}, n);
      var t :| t in stack[0].args + stack[1..] && Within(n, t);
      if t in stack[0].args {
        var k :| 0 <= k < |stack[0].args| && stack[0].args[k] == t;
        assert Within(n, stack[0].args[k]);
        assert Within(n, stack[0]);
      } else {
        assert t in stack[1..];
        assert t in stack;
      }
    }
  }

  lemma {:induction false} ReachedBelow(t: Ty, walked: seq<Ty>, n: Ty)
    requires t in walked && Within(n, t)
    requires forall x, k | x in walked && 0 <= k < |x.args| :: x.args[k] in walked
    ensures n in walked
    decreases t
  {
    if n != t {
      var k :| 0 <= k < |t.args| && Within(n, t.args[k]);
      ReachedBelow(t.args[k], walked, n);
    }
  }

  lemma {:induction false} AnyWithin(t: Ty, p: Head -> bool)
    ensures Any(t, p) <==> exists n :: Within(n, t) && p(n.head)
  {
    if p(t.head) {
      assert Within(t, t);
    }
    forall k | 0 <= k < |t.args|
      ensures Any(t.args[k], p) <==> exists n :: Within(n, t.args[k]) && p(n.head)
    {
      AnyWithin(t.args[k], p);
    }
    if n :| Within(n, t) && p(n.head) {
      if n != t {
        var k :| 0 <= k < |t.args| && Within(n, t.args[k]);
        assert Any(t.args[k], p);
      }
    }
    if Any(t, p) && !p(t.head) {
      var k :| 0 <= k < |t.args| && Any(t.args[k], p);
      var n :| Within(n, t.args[k]) && p(n.head);
      assert Within(n, t);
    }
  }

  /** The walk yields every subterm exactly once, so scanning it decides `Any`: this is what
      makes the scan in `contains_erased` insensitive to the skipping of repeated types. */
  lemma {:induction false} WalkVisitsEverySubtermOnce(t: Ty, p: Head -> bool)
    ensures forall n :: n in Walk(t) <==> Within(n, t)
    ensures forall i, j | 0 <= i < j < |Walk(t)| :: Walk(t)[i] != Walk(t)[j]
    ensures (exists n :: n in Walk(t) && p(n.head)) <==> Any(t, p)
  {
    FreshIsNew([t], {});
    FreshCovers([t], {});
    forall n
      ensures n in Walk(t) <==> Within(n, t)
    {
      if Within(n, t) {
        assert t in [t];
        ReachedBelow(t, Walk(t), n);
      }
      if n in Walk(t) {
        FreshWithin([t], {}, n);
      }
    }
    AnyWithin(t, p);
  }

  /** A type hides something exactly if the walk over it meets a type parameter, a pointer to a function, a raw pointer, a
      trait object or a foreign type, and no closure. */
  lemma HidesExactly(t: Ty)
    ensures ContainsErased(t) <==>
            && (exists n :: n in Walk(t) && match n.head
                                            case Param(_) => true
                                            case FnPtr => true
                                            case RawPtr(_) => true
                                            case Dynamic(_) => true
                                            case Foreign(_) => true
                                            case _ => false)
            && !exists n, did :: n in Walk(t) && n.head == Closure(did)
  {
    WalkVisitsEverySubtermOnce(t, IsErasingHead);
    WalkVisitsEverySubtermOnce(t, IsClosureHead);
    if n, did :| n in Walk(t) && n.head == Closure(did) {
      assert n in Walk(t) && IsClosureHead(n.head);
    }
    if ContainsClosure(t) {
      var n :| n in Walk(t) && IsClosureHead(n.head);
      assert n.head == Closure(n.head.did);
    }
  }

  // ---------------------------------------------------------------------------------------
  // The compiler's walk is the plain walk without repetitions

  /** The elements that were not seen before, each at its first occurrence. */
  function Dedup(xs: seq<Ty>, seen: set<Ty>): seq<Ty> {
    if xs == [] then []
    else if xs[0] in seen then Dedup(xs[1..], seen)
    else [xs[0]] + Dedup(xs[1..], seen + {xs[0]})
  }

  lemma {:induction false} DedupSkips(xs: seq<Ty>, ys: seq<Ty>, seen: set<Ty>)
    requires forall x | x in xs :: x in seen
    ensures Dedup(xs + ys, seen) == Dedup(ys, seen)
  {
    if xs == [] {
      assert xs + ys == ys;
    } else {
      assert (xs + ys)[0] == xs[0] && (xs + ys)[1..] == xs[1..] + ys;
      DedupSkips(xs[1..], ys, seen);
    }
  }

  lemma {:induction false} PreorderConcat(a: seq<Ty>, b: seq<Ty>)
    ensures Preorder(a + b) == Preorder(a) + Preorder(b)
    decreases TotalSize(a)
  {
    if a == [] {
      assert a + b == b;
    } else {
      PushShrinks(a);
      assert (a + b)[0] == a[0] && (a + b)[0].args + (a + b)[1..] == (a[0].args + a[1..]) + b;
      PreorderConcat(a[0].args + a[1..], b);
    }
  }

  lemma {:induction false} PreorderWithin(stack: seq<Ty>, n: Ty)
    requires n in Preorder(stack)
    ensures exists k :: 0 <= k < |stack| && Within(n, stack[k])
    decreases TotalSize(stack)
  {
    if n == stack[0] {
      assert Within(n, stack[0]);
    } else {
      PushShrinks(stack);
      var rest := stack[0].args + stack[1..];
      PreorderWithin(rest, n);
      var k :| 0 <= k < |rest| && Within(n, rest[k]);
      if k < |stack[0].args| {
        assert Within(n, stack[0].args[k]);
        assert Within(n, stack[0]);
      } else {
        assert rest[k] == stack[k - |stack[0].args| + 1];
      }
    }
  }

  /** `left[x]` elements of the stack belong to `x`, which was met before: they are smaller than `x`,
      and every part of `x` was met or is in them. */
  ghost predicate InProgress(stack: seq<Ty>, seen: set<Ty>, left: map<Ty, nat>, x: Ty)
    requires x in left
  {
    && left[x] <= |stack|
    && (forall j | 0 <= j < left[x] :: Size(stack[j]) < Size(x))
    && forall n {:trigger Within(n, x)} | Within(n, x) :: n in seen || PartOfFirst(n, stack, left[x])
  }

  ghost predicate PartOfFirst(n: Ty, stack: seq<Ty>, m: nat) {
    exists j :: 0 <= j < m && j < |stack| && Within(n, stack[j])
  }

  ghost predicate Walking(stack: seq<Ty>, seen: set<Ty>, left: map<Ty, nat>) {
    left.Keys == seen && forall x {:trigger InProgress(stack, seen, left, x)} | x in seen :: InProgress(stack, seen, left, x)
  }

  /** How much is left after the top of the stack was dropped, or replaced by its `m` parts. */
  function Advance(left: nat, m: nat): nat {
    if left == 0 then 0 else left - 1 + m
  }

  lemma PartMoves(n: Ty, stack: seq<Ty>, m: nat, pushed: seq<Ty>)
    requires stack != [] && m <= |stack| && PartOfFirst(n, stack, m)
    requires !Within(n, stack[0]) || PartOfFirst(n, pushed, |pushed|)
    ensures PartOfFirst(n, pushed + stack[1..], Advance(m, |pushed|))
  {
    var j :| 0 <= j < m && j < |stack| && Within(n, stack[j]);
    var next := pushed + stack[1..];
    if j == 0 {
      var k :| 0 <= k < |pushed| && Within(n, pushed[k]);
      assert next[k] == pushed[k];
    } else {
      assert next[|pushed| + j - 1] == stack[j];
    }
  }

  /** A type on top that was met before has been walked completely. */
  lemma MetIsDone(stack: seq<Ty>, seen: set<Ty>, left: map<Ty, nat>)
    requires stack != [] && stack[0] in seen && Walking(stack, seen, left)
    ensures forall n | Within(n, stack[0]) :: n in seen
  {
    var x := stack[0];
    assert InProgress(stack, seen, left, x);
    assert left[x] == 0;
  }

  lemma DropKeepsWalking(stack: seq<Ty>, seen: set<Ty>, left: map<Ty, nat>)
    requires stack != [] && stack[0] in seen && Walking(stack, seen, left)
    ensures Walking(stack[1..], seen, map x | x in left :: Advance(left[x], 0))
  {
    MetIsDone(stack, seen, left);
    var left' := map x | x in left :: Advance(left[x], 0);
    forall x | x in seen ensures InProgress(stack[1..], seen, left', x) {
      assert InProgress(stack, seen, left, x);
      forall j | 0 <= j < left'[x] ensures Size(stack[1..][j]) < Size(x) {
        assert stack[1..][j] == stack[j + 1];
      }
      forall n | Within(n, x) && n !in seen ensures PartOfFirst(n, stack[1..], left'[x]) {
        assert [] + stack[1..] == stack[1..];
        PartMoves(n, stack, left[x], []);
      }
    }
  }

  lemma PushKeepsWalking(stack: seq<Ty>, seen: set<Ty>, left: map<Ty, nat>)
    requires stack != [] && stack[0] !in seen && Walking(stack, seen, left)
    ensures var head := stack[0];
            Walking(head.args + stack[1..], seen + {head}, (map x | x in left :: Advance(left[x], |head.args|))[head := |head.args|])
  {
    var head, next := stack[0], stack[0].args + stack[1..];
    var left' := (map x | x in left :: Advance(left[x], |head.args|))[head := |head.args|];
    forall x | x in seen + {head} ensures InProgress(next, seen + {head}, left', x) {
      if x == head {
        PartsAreFirst(head, stack[1..], seen);
      } else {
        assert InProgress(stack, seen, left, x);
        PushedForOther(stack, seen, left, x);
      }
    }
  }

  lemma PartsAreFirst(head: Ty, rest: seq<Ty>, seen: set<Ty>)
    ensures forall j | 0 <= j < |head.args| :: Size((head.args + rest)[j]) < Size(head)
    ensures forall n | Within(n, head) :: n in seen + {head} || PartOfFirst(n, head.args + rest, |head.args|)
  {
    forall j | 0 <= j < |head.args| ensures Size((head.args + rest)[j]) < Size(head) {
      ElementSmaller(head.args, j);
    }
    forall n | Within(n, head) && n != head ensures PartOfFirst(n, head.args + rest, |head.args|) {
      var k :| 0 <= k < |head.args| && Within(n, head.args[k]);
      assert (head.args + rest)[k] == head.args[k];
    }
  }

  lemma PushedForOther(stack: seq<Ty>, seen: set<Ty>, left: map<Ty, nat>, x: Ty)
    requires stack != [] && x in left && InProgress(stack, seen, left, x)
    ensures var head, m := stack[0], Advance(left[x], |stack[0].args|);
            && m <= |head.args + stack[1..]|
            && (forall j | 0 <= j < m :: Size((head.args + stack[1..])[j]) < Size(x))
            && forall n | Within(n, x) :: n in seen + {head} || PartOfFirst(n, head.args + stack[1..], m)
  {
    var head, next, m := stack[0], stack[0].args + stack[1..], Advance(left[x], |stack[0].args|);
    forall j | 0 <= j < m ensures Size(next[j]) < Size(x) {
      if j < |head.args| {
        ElementSmaller(head.args, j);
        assert Size(stack[0]) < Size(x);
      } else {
        assert next[j] == stack[j - |head.args| + 1];
      }
    }
    forall n | Within(n, x) && n !in seen + {head} ensures PartOfFirst(n, next, m) {
      if Within(n, head) {
        var k :| 0 <= k < |head.args| && Within(n, head.args[k]);
        assert PartOfFirst(n, head.args, |head.args|);
      }
      PartMoves(n, stack, left[x], head.args);
    }
  }

  lemma {:induction false} FreshIsDedup(stack: seq<Ty>, seen: set<Ty>, left: map<Ty, nat>)
    requires Walking(stack, seen, left)
    ensures Fresh(stack, seen) == Dedup(Preorder(stack), seen)
    decreases TotalSize(stack)
  {
    if stack != [] {
      PushShrinks(stack);
      if stack[0] in seen {
        MetIsDone(stack, seen, left);
        DropKeepsWalking(stack, seen, left);
        FreshIsDedup(stack[1..], seen, map x | x in left :: Advance(left[x], 0));
        assert stack == [stack[0]] + stack[1..];
        PreorderConcat([stack[0]], stack[1..]);
        forall n | n in Preorder([stack[0]]) ensures n in seen {
          PreorderWithin([stack[0]], n);
        }
        DedupSkips(Preorder([stack[0]]), Preorder(stack[1..]), seen);
      } else {
        var head := stack[0];
        PushKeepsWalking(stack, seen, left);
        FreshIsDedup(head.args + stack[1..], seen + {head}, (map x | x in left :: Advance(left[x], |head.args|))[head := |head.args|]);
        assert Preorder(stack) == [head] + Preorder(head.args + stack[1..]);
      }
    }
  }

  /** The compiler's walk yields what the plain walk does, each type at its first occurrence only. */
  lemma WalkIsDedup(t: Ty)
    ensures Walk(t) == Dedup(Preorder([t]), {})
  {
    FreshIsDedup([t], {}, map[]);
  }
}
