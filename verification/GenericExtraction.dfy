/** Recovering the types substituted for generic parameters from the tracked types of call
    arguments, by walking a declared parameter type and an argument type in parallel. */
module GenericExtraction {
  import opened Options
  import opened Types
  import opened TrackedTypes

  /** The element of `concrete` standing opposite the first occurrence of parameter `i`. */
  function PeelWalks(generic: seq<Ty>, concrete: seq<Ty>, i: nat): Option<Ty> {
    if generic == [] || concrete == [] then None
    else if generic[0].head == Param(i) then Some(concrete[0])
    else PeelWalks(generic[1..], concrete[1..], i)
  }

  function Peel(generic: Ty, concrete: Ty, i: nat): Option<Ty> {
    PeelWalks(Walk(generic), Walk(concrete), i)
  }

  /** Every type some tracked argument suggests for parameter `i`. */
  function ExtractSubsts(args: seq<TrackedTy>, generics: seq<Ty>, i: nat): set<Ty> {
    set j, t | 0 <= j < |generics| && j < |args| && t in TypesOf(args[j]) && Peel(generics[j], t, i).Some?
      :: Peel(generics[j], t, i).value
  }

  // ---------------------------------------------------------------------------------------
  // Peeling undoes substitution

  /** The types the plain walk yields ahead of the first type parameter. */
  function Before(stack: seq<Ty>): seq<Ty>
    decreases TotalSize(stack)
  {
    if stack == [] || stack[0].head.Param? then []
    else
      PushShrinks(stack);
      [stack[0]] + Before(stack[0].args + stack[1..])
  }

  function FirstParam(stack: seq<Ty>): Option<nat>
    decreases TotalSize(stack)
  {
    if stack == [] then None
    else if stack[0].head.Param? then Some(stack[0].head.index)
    else
      PushShrinks(stack);
      FirstParam(stack[0].args + stack[1..])
  }

  lemma {:induction false} BeforeIsPrefix(stack: seq<Ty>, p: nat)
    requires p < |Preorder(stack)| && Preorder(stack)[p].head.Param?
    requires forall q | 0 <= q < p :: !Preorder(stack)[q].head.Param?
    ensures Before(stack) == Preorder(stack)[..p]
    ensures FirstParam(stack) == Some(Preorder(stack)[p].head.index)
    decreases TotalSize(stack)
  {
    if p > 0 {
      PushShrinks(stack);
      assert !Preorder(stack)[0].head.Param?;
      forall q | 0 <= q < p - 1
        ensures !Preorder(stack[0].args + stack[1..])[q].head.Param?
      {
        assert !Preorder(stack)[q + 1].head.Param?;
      }
      BeforeIsPrefix(stack[0].args + stack[1..], p - 1);
    }
  }

  /** A leading closed type is walked completely and holds no parameter. */
  lemma {:induction false} ClosedHead(t: Ty, rest: seq<Ty>)
    requires Closed(t)
    ensures FirstParam([t] + rest) == FirstParam(rest)
    ensures forall n :: n in Before([t] + rest) <==> Within(n, t) || n in Before(rest)
    decreases t, 0
  {
    var stack := [t] + rest;
    assert stack[0].args + stack[1..] == t.args + rest;
    ClosedHeads(t.args, rest);
  }

  lemma {:induction false} ClosedHeads(ts: seq<Ty>, rest: seq<Ty>)
    requires forall k | 0 <= k < |ts| :: Closed(ts[k])
    ensures FirstParam(ts + rest) == FirstParam(rest)
    ensures forall n :: n in Before(ts + rest) <==> (exists k :: 0 <= k < |ts| && Within(n, ts[k])) || n in Before(rest)
    decreases ts, 1
  {
    if ts == [] {
      assert ts + rest == rest;
    } else {
      assert ts + rest == [ts[0]] + (ts[1..] + rest);
      ClosedHeads(ts[1..], rest);
      ClosedHead(ts[0], ts[1..] + rest);
      forall n
        ensures (exists k :: 0 <= k < |ts| && Within(n, ts[k])) <==>
                Within(n, ts[0]) || exists k :: 0 <= k < |ts[1..]| && Within(n, ts[1..][k])
      {
        if k :| 0 <= k < |ts| && Within(n, ts[k]) {
          assert k > 0 ==> ts[1..][k - 1] == ts[k];
        }
        if k :| 0 <= k < |ts[1..]| && Within(n, ts[1..][k]) {
          assert ts[k + 1] == ts[1..][k];
        }
      }
    }
  }

  /** How many closed types lead the stack. */
  function Lead(stack: seq<Ty>): (n: nat)
    ensures n <= |stack|
    ensures forall k | 0 <= k < n :: Closed(stack[k])
    ensures n < |stack| ==> !Closed(stack[n])
  {
    if stack == [] || !Closed(stack[0]) then 0 else 1 + Lead(stack[1..])
  }

  lemma {:induction false} LeadPushClosed(ts: seq<Ty>, rest: seq<Ty>)
    requires forall k | 0 <= k < |ts| :: Closed(ts[k])
    ensures Lead(ts + rest) == |ts| + Lead(rest)
  {
    if ts == [] {
      assert ts + rest == rest;
    } else {
      assert (ts + rest)[1..] == ts[1..] + rest;
      LeadPushClosed(ts[1..], rest);
    }
  }

  lemma {:induction false} LeadPushOpen(ts: seq<Ty>, rest: seq<Ty>)
    requires exists k :: 0 <= k < |ts| && !Closed(ts[k])
    ensures Lead(ts + rest) < |ts|
  {
    assert !Closed((ts + rest)[0]) || (ts + rest)[1..] == ts[1..] + rest;
    if Closed(ts[0]) {
      var k :| 0 <= k < |ts| && !Closed(ts[k]);
      assert ts[1..][k - 1] == ts[k];
      LeadPushOpen(ts[1..], rest);
    }
  }

  /** The first parameter of an open leading type is the first parameter of the stack. */
  lemma {:induction false} OpenHead(t: Ty, rest: seq<Ty>, s: seq<Ty>)
    requires !Closed(t)
    ensures FirstParam([t] + rest).Some?
    ensures var i := FirstParam([t] + rest).value; i < |s| ==> Within(s[i], Subst(t, s))
    decreases t, 0
  {
    var stack := [t] + rest;
    if !t.head.Param? {
      assert stack[0].args + stack[1..] == t.args + rest;
      OpenHeads(t.args, rest, s);
      var i := FirstParam(stack).value;
      if i < |s| {
        var k :| 0 <= k < |t.args| && Within(s[i], Subst(t.args[k], s));
        assert Subst(t, s).args[k] == Subst(t.args[k], s);
      }
    }
  }

  lemma {:induction false} OpenHeads(ts: seq<Ty>, rest: seq<Ty>, s: seq<Ty>)
    requires exists k :: 0 <= k < |ts| && !Closed(ts[k])
    ensures FirstParam(ts + rest).Some?
    ensures var i := FirstParam(ts + rest).value;
            i < |s| ==> exists k :: 0 <= k < |ts| && Within(s[i], Subst(ts[k], s))
    decreases ts, 1
  {
    assert ts + rest == [ts[0]] + (ts[1..] + rest);
    if Closed(ts[0]) {
      var k :| 0 <= k < |ts| && !Closed(ts[k]);
      assert ts[1..][k - 1] == ts[k];
      ClosedHead(ts[0], ts[1..] + rest);
      OpenHeads(ts[1..], rest, s);
      var i := FirstParam(ts + rest).value;
      if i < |s| {
        var j :| 0 <= j < |ts[1..]| && Within(s[i], Subst(ts[1..][j], s));
        assert ts[j + 1] == ts[1..][j];
      }
    } else {
      OpenHead(ts[0], ts[1..] + rest, s);
    }
  }

  /** The type is among the closed types leading the stack. */
  ghost predicate Waiting(t: Ty, stack: seq<Ty>) {
    exists j :: 0 <= j < Lead(stack) && stack[j] == t
  }

  /** What was met on the concrete side are the images of what was met on the generic side. */
  ghost predicate MetImages(seen: set<Ty>, cseen: set<Ty>, s: seq<Ty>) {
    && (forall x | x in seen :: !x.head.Param? && Subst(x, s) in cseen)
    && (forall y | y in cseen :: exists x :: x in seen && Subst(x, s) == y)
  }

  /** `seen` and `cseen` are what the two walks have met when they are still aligned on `stack`:
      - the concrete side has met exactly the substituted generic types;
      - open types met so far are ancestors of what leads the stack, hence larger;
      - the children of closed types met so far were met or are among the leading closed types. */
  ghost predicate Aligned(stack: seq<Ty>, seen: set<Ty>, cseen: set<Ty>, s: seq<Ty>) {
    && MetImages(seen, cseen, s)
    && (forall x, k | x in seen && !Closed(x) && 0 <= k <= Lead(stack) && k < |stack| ::
          Size(Subst(stack[k], s)) < Size(Subst(x, s)))
    && (forall x, k | x in seen && Closed(x) && 0 <= k < |x.args| ::
          x.args[k] in seen || Waiting(x.args[k], stack))
  }

  /** Subterms of a closed type met so far were met too, or are still ahead. */
  lemma {:induction false} MetBelow(x: Ty, n: Ty, stack: seq<Ty>, seen: set<Ty>, cseen: set<Ty>, s: seq<Ty>)
    requires Aligned(stack, seen, cseen, s)
    requires x in seen && Closed(x) && Within(n, x)
    ensures n in seen || exists k :: 0 <= k < Lead(stack) && Within(n, stack[k])
    decreases x
  {
    if n != x {
      var k :| 0 <= k < |x.args| && Within(n, x.args[k]);
      assert Closed(x.args[k]);
      if x.args[k] in seen {
        MetBelow(x.args[k], n, stack, seen, cseen, s);
      }
    }
  }

  /** A closed leading type was met on one side exactly when it was met on the other. */
  lemma MetTogether(stack: seq<Ty>, seen: set<Ty>, cseen: set<Ty>, s: seq<Ty>)
    requires stack != [] && Closed(stack[0]) && Aligned(stack, seen, cseen, s)
    ensures Subst(stack[0], s) == stack[0]
    ensures stack[0] in seen <==> stack[0] in cseen
  {
    SubstClosed(stack[0], s);
    if stack[0] in cseen {
      var x :| x in seen && Subst(x, s) == stack[0];
      if Closed(x) {
        SubstClosed(x, s);
      }
    }
  }

  lemma {:induction false} PeelFinds(g: seq<Ty>, c: seq<Ty>, i: nat)
    ensures PeelWalks(g, c, i).Some? ==> PeelWalks(g, c, i).value in c
  {
    if g != [] && c != [] && g[0].head != Param(i) {
      PeelFinds(g[1..], c[1..], i);
    }
  }

  lemma PopAligned(stack: seq<Ty>, seen: set<Ty>, cseen: set<Ty>, s: seq<Ty>)
    requires stack != [] && Closed(stack[0]) && stack[0] in seen && Aligned(stack, seen, cseen, s)
    ensures Aligned(stack[1..], seen, cseen, s)
  {
    var rest := stack[1..];
    assert Lead(stack) == 1 + Lead(rest);
    forall x, k | x in seen && Closed(x) && 0 <= k < |x.args|
      ensures x.args[k] in seen || Waiting(x.args[k], rest)
    {
      if x.args[k] !in seen {
        var j :| 0 <= j < Lead(stack) && stack[j] == x.args[k];
        assert rest[j - 1] == x.args[k];
      }
    }
    forall x, k | x in seen && !Closed(x) && 0 <= k <= Lead(rest) && k < |rest|
      ensures Size(Subst(rest[k], s)) < Size(Subst(x, s))
    {
      assert stack[k + 1] == rest[k];
    }
  }

  lemma PushClosedSizes(stack: seq<Ty>, seen: set<Ty>, cseen: set<Ty>, s: seq<Ty>, x: Ty, k: nat)
    requires stack != [] && Closed(stack[0]) && Aligned(stack, seen, cseen, s)
    requires x in seen && !Closed(x)
    requires Lead(stack[0].args + stack[1..]) >= k && k < |stack[0].args + stack[1..]|
    requires Lead(stack[0].args + stack[1..]) == |stack[0].args| + Lead(stack[1..])
    ensures Size(Subst((stack[0].args + stack[1..])[k], s)) < Size(Subst(x, s))
  {
    var head := stack[0];
    assert Lead(stack) == 1 + Lead(stack[1..]);
    if k < |head.args| {
      assert Size(Subst(head, s)) < Size(Subst(x, s));
      SubstClosed(head, s);
      assert Closed(head.args[k]);
      SubstClosed(head.args[k], s);
      ElementSmaller(head.args, k);
    } else {
      var j := k - |head.args| + 1;
      assert stack[j] == (head.args + stack[1..])[k];
    }
  }

  lemma PushClosedChildren(stack: seq<Ty>, seen: set<Ty>, x: Ty, k: nat)
    requires stack != [] && Closed(stack[0])
    requires x in seen + {stack[0]} && k < |x.args|
    requires Lead(stack[0].args + stack[1..]) == |stack[0].args| + Lead(stack[1..])
    requires x in seen ==> x.args[k] in seen || Waiting(x.args[k], stack)
    ensures x.args[k] in seen + {stack[0]} || Waiting(x.args[k], stack[0].args + stack[1..])
  {
    var head, rest := stack[0], stack[0].args + stack[1..];
    if x !in seen {
      assert rest[k] == x.args[k];
    } else if x.args[k] !in seen {
      var j :| 0 <= j < Lead(stack) && stack[j] == x.args[k];
      if j > 0 {
        assert rest[|head.args| + j - 1] == x.args[k];
      }
    }
  }

  lemma MeetImage(seen: set<Ty>, cseen: set<Ty>, s: seq<Ty>, t: Ty)
    requires MetImages(seen, cseen, s) && !t.head.Param?
    ensures MetImages(seen + {t}, cseen + {Subst(t, s)}, s)
  {
  }

  lemma PushClosedAligned(stack: seq<Ty>, seen: set<Ty>, cseen: set<Ty>, s: seq<Ty>)
    requires stack != [] && Closed(stack[0]) && Aligned(stack, seen, cseen, s)
    ensures Aligned(stack[0].args + stack[1..], seen + {stack[0]}, cseen + {stack[0]}, s)
  {
    var head, rest := stack[0], stack[0].args + stack[1..];
    forall k | 0 <= k < |head.args| ensures Closed(head.args[k]) {
    }
    SubstClosed(head, s);
    LeadPushClosed(head.args, stack[1..]);
    MeetImage(seen, cseen, s, head);
    forall x, k | x in seen + {head} && !Closed(x) && 0 <= k <= Lead(rest) && k < |rest|
      ensures Size(Subst(rest[k], s)) < Size(Subst(x, s))
    {
      PushClosedSizes(stack, seen, cseen, s, x, k);
    }
    forall x, k | x in seen + {head} && Closed(x) && 0 <= k < |x.args|
      ensures x.args[k] in seen + {head} || Waiting(x.args[k], rest)
    {
      PushClosedChildren(stack, seen, x, k);
    }
  }

  lemma PushOpenAligned(stack: seq<Ty>, seen: set<Ty>, cseen: set<Ty>, s: seq<Ty>)
    requires stack != [] && !Closed(stack[0]) && !stack[0].head.Param? && Aligned(stack, seen, cseen, s)
    ensures Aligned(stack[0].args + stack[1..], seen + {stack[0]}, cseen + {Subst(stack[0], s)}, s)
  {
    var head, rest := stack[0], stack[0].args + stack[1..];
    LeadPushOpen(head.args, stack[1..]);
    forall k | 0 <= k < |head.args|
      ensures Size(Subst(head.args[k], s)) < Size(Subst(head, s))
    {
      assert Subst(head, s).args[k] == Subst(head.args[k], s);
      ElementSmaller(Subst(head, s).args, k);
    }
    assert Lead(stack) == 0;
    MeetImage(seen, cseen, s, head);
    forall x, k | x in seen + {head} && !Closed(x) && 0 <= k <= Lead(rest) && k < |rest|
      ensures Size(Subst(rest[k], s)) < Size(Subst(x, s))
    {
      assert rest[k] == head.args[k];
      if x != head {
        assert Size(Subst(stack[0], s)) < Size(Subst(x, s));
      }
    }
  }

  /** `v` is a closed type met already or still ahead of the first parameter. */
  ghost predicate MetEarlier(v: Ty, stack: seq<Ty>, seen: set<Ty>) {
    Closed(v) && (v in seen || v in Before(stack))
  }

  lemma {:induction false} WalksStayAligned(stack: seq<Ty>, seen: set<Ty>, cseen: set<Ty>, s: seq<Ty>, i: nat)
    requires Aligned(stack, seen, cseen, s)
    requires FirstParam(stack) == Some(i) && i < |s|
    ensures PeelWalks(Fresh(stack, seen), Fresh(SubstAll(stack, s), cseen), i) == Some(s[i]) <==>
            !MetEarlier(s[i], stack, seen)
    decreases TotalSize(stack)
  {
    var head, rest := stack[0], stack[0].args + stack[1..];
    var cstack := SubstAll(stack, s);
    assert cstack[1..] == SubstAll(stack[1..], s);
    PushShrinks(stack);
    if head.head.Param? {
      ParamOnTop(stack, seen, cseen, s, i);
    } else {
      assert Subst(head, s).args + cstack[1..] == SubstAll(rest, s);
      if Closed(head) {
        MetTogether(stack, seen, cseen, s);
        assert stack == [head] + stack[1..];
        ClosedHead(head, stack[1..]);
        if head in seen {
          PopAligned(stack, seen, cseen, s);
          WalksStayAligned(stack[1..], seen, cseen, s, i);
          SkippedLosesNothing(stack, seen, cseen, s, s[i]);
        } else {
          PushClosedAligned(stack, seen, cseen, s);
          WalksStayAligned(rest, seen + {head}, cseen + {head}, s, i);
        }
      } else {
        assert head !in seen;
        if Subst(head, s) in cseen {
          Misaligned(stack, seen, cseen, s, i);
        } else {
          PushOpenAligned(stack, seen, cseen, s);
          WalksStayAligned(rest, seen + {head}, cseen + {Subst(head, s)}, s, i);
          assert s[i] == head ==> !Closed(s[i]);
        }
      }
    }
  }

  lemma ParamOnTop(stack: seq<Ty>, seen: set<Ty>, cseen: set<Ty>, s: seq<Ty>, i: nat)
    requires Aligned(stack, seen, cseen, s)
    requires stack != [] && stack[0].head == Param(i) && i < |s|
    ensures PeelWalks(Fresh(stack, seen), Fresh(SubstAll(stack, s), cseen), i) == Some(s[i]) <==>
            !MetEarlier(s[i], stack, seen)
  {
    var c := Fresh(SubstAll(stack, s), cseen);
    assert SubstAll(stack, s)[0] == s[i];
    assert !Closed(stack[0]) && Lead(stack) == 0;
    if s[i] in cseen {
      FreshIsNew(SubstAll(stack, s), cseen);
      PeelFinds(Fresh(stack, seen), c, i);
      var x :| x in seen && Subst(x, s) == s[i];
      if Closed(x) {
        SubstClosed(x, s);
      }
    } else if Closed(s[i]) {
      SubstClosed(s[i], s);
    }
  }

  /** Skipping a leading type that was met before loses none of the types met earlier. */
  lemma SkippedLosesNothing(stack: seq<Ty>, seen: set<Ty>, cseen: set<Ty>, s: seq<Ty>, v: Ty)
    requires stack != [] && Closed(stack[0]) && stack[0] in seen
    requires Aligned(stack[1..], seen, cseen, s)
    ensures MetEarlier(v, stack, seen) <==> MetEarlier(v, stack[1..], seen)
  {
    var rest := stack[1..];
    assert stack == [stack[0]] + rest;
    ClosedHead(stack[0], rest);
    if Within(v, stack[0]) {
      MetBelow(stack[0], v, rest, seen, cseen, s);
      if v !in seen {
        var lead := rest[..Lead(rest)];
        assert rest == lead + rest[Lead(rest)..];
        ClosedHeads(lead, rest[Lead(rest)..]);
        var k :| 0 <= k < Lead(rest) && Within(v, rest[k]);
        assert Within(v, lead[k]);
      }
    }
  }

  /** Once the concrete walk has met the image of an open type, the wanted type was met with it
      and can never be yielded again. */
  lemma Misaligned(stack: seq<Ty>, seen: set<Ty>, cseen: set<Ty>, s: seq<Ty>, i: nat)
    requires Aligned(stack, seen, cseen, s)
    requires FirstParam(stack) == Some(i) && i < |s|
    requires !Closed(stack[0]) && Subst(stack[0], s) in cseen
    ensures PeelWalks(Fresh(stack, seen), Fresh(SubstAll(stack, s), cseen), i) != Some(s[i])
    ensures MetEarlier(s[i], stack, seen)
  {
    assert stack == [stack[0]] + stack[1..];
    OpenHead(stack[0], stack[1..], s);
    var x :| x in seen && Subst(x, s) == Subst(stack[0], s);
    assert Lead(stack) == 0;
    assert Closed(x);
    SubstClosed(x, s);
    WithinClosed(s[i], x);
    MetBelow(x, s[i], stack, seen, cseen, s);
    SubstClosed(s[i], s);
    FreshIsNew(SubstAll(stack, s), cseen);
    PeelFinds(Fresh(stack, seen), Fresh(SubstAll(stack, s), cseen), i);
  }

  /** Without lifetimes, peeling a generic type against an instance of it gives back what was substituted for its
      first parameter, exactly when that type does not already occur, as a type of its own, in
      the generic type ahead of the parameter. (The walk skips types it has met, so such an
      occurrence makes the concrete walk one step shorter.) */
  lemma PeelInvertsSubstitution(generic: Ty, s: seq<Ty>, p: nat)
    requires p < |Preorder([generic])| && Preorder([generic])[p].head.Param?
    requires forall q | 0 <= q < p :: !Preorder([generic])[q].head.Param?
    requires Preorder([generic])[p].head.index < |s|
    ensures var i := Preorder([generic])[p].head.index;
            Peel(generic, Subst(generic, s), i) == Some(s[i]) <==>
            !(Closed(s[i]) && s[i] in Preorder([generic])[..p])
  {
    var i := Preorder([generic])[p].head.index;
    BeforeIsPrefix([generic], p);
    assert SubstAll([generic], s) == [Subst(generic, s)];
    WalksStayAligned([generic], {}, {}, s, i);
  }

  /** The failure is real: for `(i32, T)` and `T = i32` nothing is extracted. */
  lemma RepeatedTypeIsNotExtracted()
    ensures var i32 := Ty(Prim(7), []);
            Peel(Ty(Tuple, [i32, Ty(Param(0), [])]), Ty(Tuple, [i32, i32]), 0) == None
  {
    var i32, t := Ty(Prim(7), []), Ty(Param(0), []);
    var g, c := Ty(Tuple, [i32, t]), Ty(Tuple, [i32, i32]);
    PreorderOfPair(g, i32, t);
    PreorderOfPair(c, i32, i32);
    WalkIsDedup(g);
    WalkIsDedup(c);
    DedupOfThree(g, i32, t);
    DedupOfThree(c, i32, i32);
    assert [g, i32, t][1..] == [i32, t] && [i32, t][1..] == [t];
    assert [c, i32][1..] == [i32] && [i32][1..] == [];
  }

  lemma PreorderOfPair(t: Ty, a: Ty, b: Ty)
    requires t.args == [a, b] && a.args == [] && b.args == []
    ensures Preorder([t]) == [t, a, b]
  {
    assert [t][0].args + [t][1..] == [a, b];
    assert [a, b][0].args + [a, b][1..] == [b];
    assert [b][0].args + [b][1..] == [];
    assert Preorder([]) == [] && Preorder([b]) == [b] && Preorder([a, b]) == [a] + [b];
  }

  lemma DedupOfThree(x: Ty, y: Ty, z: Ty)
    requires x != y && x != z
    ensures Dedup([x, y, z], {}) == if y == z then [x, y] else [x, y, z]
  {
    assert [x, y, z][1..] == [y, z] && [y, z][1..] == [z] && [z][1..] == [];
    assert Dedup([], {x, y, z}) == [] && Dedup([], {x, y}) == [];
    assert {} + {x} == {x} && {x} + {y} == {x, y} && {x, y} + {z} == {x, y, z};
    assert Dedup([z], {x, y}) == if y == z then [] else [z];
    assert Dedup([y, z], {x}) == [y] + Dedup([z], {x, y});
  }

  // ---------------------------------------------------------------------------------------
  // Lifetimes

  /** What stands on the concrete side for a part of the declared type: parameters are substituted and
      lifetimes erased. */
  function Image(t: Ty, s: seq<Ty>): Ty {
    Erase(Subst(t, s))
  }

  function Images(ts: seq<Ty>, s: seq<Ty>): seq<Ty> {
    seq(|ts|, k requires 0 <= k < |ts| => Image(ts[k], s))
  }

  lemma ImageOfParts(t: Ty, s: seq<Ty>)
    requires !t.head.Param?
    ensures Image(t, s).args == Images(t.args, s)
  {
    assert Subst(t, s).args == SubstAll(t.args, s);
  }

  /** Up to the first parameter the concrete walk yields the images of what the declared one does. */
  lemma {:induction false} PreorderOfImages(stack: seq<Ty>, s: seq<Ty>, p: nat)
    requires p < |Preorder(stack)| && forall q | 0 <= q < p :: !Preorder(stack)[q].head.Param?
    ensures p < |Preorder(Images(stack, s))|
    ensures forall q | 0 <= q <= p :: Preorder(Images(stack, s))[q] == Image(Preorder(stack)[q], s)
    decreases TotalSize(stack)
  {
    var cstack := Images(stack, s);
    assert cstack[0] == Image(stack[0], s);
    if p > 0 {
      var rest := stack[0].args + stack[1..];
      PushShrinks(stack);
      assert !Preorder(stack)[0].head.Param?;
      ImageOfParts(stack[0], s);
      assert cstack[0].args + cstack[1..] == Images(rest, s);
      forall q | 0 <= q < p - 1 ensures !Preorder(rest)[q].head.Param? {
        assert Preorder(rest)[q] == Preorder(stack)[q + 1];
      }
      PreorderOfImages(rest, s, p - 1);
      forall q | 0 <= q <= p ensures Preorder(cstack)[q] == Image(Preorder(stack)[q], s) {
        if q > 0 {
          assert Preorder(cstack)[q] == Preorder(Images(rest, s))[q - 1];
          assert Preorder(stack)[q] == Preorder(rest)[q - 1];
        }
      }
    }
  }

  /** The part before a first occurrence fixes its position. */
  lemma {:induction false} DedupPosition(xs: seq<Ty>, v: Ty, ys: seq<Ty>, seen: set<Ty>)
    ensures |Dedup(xs + [v] + ys, seen)| >= |Dedup(xs, seen)|
    ensures Dedup(xs + [v] + ys, seen)[..|Dedup(xs, seen)|] == Dedup(xs, seen)
    ensures v !in xs && v !in seen ==>
              |Dedup(xs, seen)| < |Dedup(xs + [v] + ys, seen)| && Dedup(xs + [v] + ys, seen)[|Dedup(xs, seen)|] == v
    decreases |xs|
  {
    var all := xs + [v] + ys;
    if xs == [] {
      assert all[0] == v;
    } else {
      assert all[0] == xs[0] && all[1..] == xs[1..] + [v] + ys;
      DedupPosition(xs[1..], v, ys, if xs[0] in seen then seen else seen + {xs[0]});
    }
  }

  lemma {:induction false} DedupMembers(xs: seq<Ty>, seen: set<Ty>)
    ensures forall x :: x in Dedup(xs, seen) <==> x in xs && x !in seen
    ensures forall i, j | 0 <= i < j < |Dedup(xs, seen)| :: Dedup(xs, seen)[i] != Dedup(xs, seen)[j]
    decreases |xs|
  {
    if xs != [] {
      assert xs == [xs[0]] + xs[1..];
      DedupMembers(xs[1..], if xs[0] in seen then seen else seen + {xs[0]});
    }
  }

  /** What is met ahead of the parameter stays apart from each other, and from `v`, on the concrete side. */
  ghost predicate StaysApart(ahead: seq<Ty>, s: seq<Ty>, v: Ty) {
    && ImagesDiffer(ahead, s)
    && forall a | a in ahead :: Image(a, s) != v
  }

  ghost predicate ImagesDiffer(ahead: seq<Ty>, s: seq<Ty>) {
    forall a, b | a in ahead && b in ahead && Image(a, s) == Image(b, s) :: a == b
  }

  /** Mapping cannot add elements, and loses some exactly when different ones become the same. */
  lemma {:induction false} DedupOfImages(xs: seq<Ty>, s: seq<Ty>)
    ensures |Dedup(Images(xs, s), {})| <= |Dedup(xs, {})|
    ensures |Dedup(Images(xs, s), {})| == |Dedup(xs, {})| <==> ImagesDiffer(xs, s)
    decreases |xs|
  {
    if xs == [] {
      assert Images(xs, s) == [];
    } else {
      var n := |xs| - 1;
      var init, last := xs[..n], xs[n];
      DedupOfImages(init, s);
      assert xs == init + [last] && Images(xs, s) == Images(init, s) + [Image(last, s)];
      DedupLast(init, last);
      DedupLast(Images(init, s), Image(last, s));
      LastImage(init, last, s);
    }
  }

  lemma DedupLast(xs: seq<Ty>, v: Ty)
    ensures |Dedup(xs + [v], {})| == |Dedup(xs, {})| + (if v in xs then 0 else 1)
  {
    DedupLastSeen(xs, v, {});
  }

  lemma {:induction false} DedupLastSeen(xs: seq<Ty>, v: Ty, seen: set<Ty>)
    ensures |Dedup(xs + [v], seen)| == |Dedup(xs, seen)| + (if v in xs || v in seen then 0 else 1)
    decreases |xs|
  {
    if xs == [] {
      assert xs + [v] == [v] && [v][1..] == [];
      assert forall other :: Dedup([], other) == [];
    } else {
      assert (xs + [v])[0] == xs[0] && (xs + [v])[1..] == xs[1..] + [v];
      assert xs == [xs[0]] + xs[1..];
      DedupLastSeen(xs[1..], v, if xs[0] in seen then seen else seen + {xs[0]});
    }
  }

  lemma ImagesMember(xs: seq<Ty>, s: seq<Ty>, y: Ty)
    ensures y in Images(xs, s) <==> exists x :: x in xs && Image(x, s) == y
  {
    if y in Images(xs, s) {
      var k :| 0 <= k < |xs| && Images(xs, s)[k] == y;
      assert xs[k] in xs;
    }
    if x :| x in xs && Image(x, s) == y {
      var k :| 0 <= k < |xs| && xs[k] == x;
      assert Images(xs, s)[k] == y;
    }
  }

  lemma LastImage(init: seq<Ty>, last: Ty, s: seq<Ty>)
    ensures last in init ==> Image(last, s) in Images(init, s)
    ensures ImagesDiffer(init + [last], s) <==> ImagesDiffer(init, s) && (last in init || Image(last, s) !in Images(init, s))
  {
    ImagesMember(init, s, Image(last, s));
    assert forall x :: x in init + [last] <==> x in init || x == last;
  }

  lemma {:induction false} PeelAtFirst(g: seq<Ty>, c: seq<Ty>, i: nat, p: nat)
    requires p < |g| && g[p].head == Param(i) && forall q | 0 <= q < p :: !g[q].head.Param?
    ensures PeelWalks(g, c, i) == if p < |c| then Some(c[p]) else None
    decreases p
  {
    if p > 0 && c != [] {
      assert !g[0].head.Param?;
      PeelAtFirst(g[1..], c[1..], i, p - 1);
    }
  }

  /** Peeling an instance with erased lifetimes gives back what was substituted for the first parameter
      exactly when nothing ahead of the parameter becomes equal: neither two different types or
      lifetimes to each other, nor one of them to the substituted type. The compiler's walk skips
      what it has met, so any such collision makes the concrete walk shorter. */
  lemma PeelInvertsUpToLifetimes(generic: Ty, s: seq<Ty>, p: nat)
    requires p < |Preorder([generic])| && Preorder([generic])[p].head.Param?
    requires forall q | 0 <= q < p :: !Preorder([generic])[q].head.Param?
    requires Preorder([generic])[p].head.index < |s|
    ensures var i := Preorder([generic])[p].head.index;
            Peel(generic, Image(generic, s), i) == Some(Erase(s[i])) <==>
            StaysApart(Preorder([generic])[..p], s, Erase(s[i]))
  {
    var g, c := Preorder([generic]), Preorder([Image(generic, s)]);
    assert Images([generic], s) == [Image(generic, s)];
    PreorderOfImages([generic], s, p);
    assert c[p] == Image(g[p], s) && g[p] == Ty(g[p].head, g[p].args);
    assert Image(g[p], s) == Erase(s[g[p].head.index]);
    assert c[..p] == Images(g[..p], s);
    WalkIsDedup(generic);
    WalkIsDedup(Image(generic, s));
    PeelOfDedups(g, c, s, p, g[p].head.index, Erase(s[g[p].head.index]));
  }

  lemma AheadInDedup(xs: seq<Ty>, p: nat)
    requires p < |xs|
    ensures var n := |Dedup(xs[..p], {})|;
            && n <= |Dedup(xs, {})| && Dedup(xs, {})[..n] == Dedup(xs[..p], {})
            && (xs[p] !in xs[..p] ==> n < |Dedup(xs, {})| && Dedup(xs, {})[n] == xs[p])
  {
    assert xs == xs[..p] + [xs[p]] + xs[p + 1..];
    DedupPosition(xs[..p], xs[p], xs[p + 1..], {});
  }

  lemma ParamIsNew(ahead: seq<Ty>, t: Ty)
    requires t.head.Param? && forall q | 0 <= q < |ahead| :: !ahead[q].head.Param?
    ensures t !in ahead
  {
  }

  lemma PeelOfDedups(g: seq<Ty>, c: seq<Ty>, s: seq<Ty>, p: nat, i: nat, v: Ty)
    requires p < |g| && p < |c| && g[p].head == Param(i) && forall q | 0 <= q < p :: !g[q].head.Param?
    requires c[p] == v && c[..p] == Images(g[..p], s)
    ensures PeelWalks(Dedup(g, {}), Dedup(c, {}), i) == Some(v) <==> StaysApart(g[..p], s, v)
  {
    var ahead, images := g[..p], c[..p];
    AheadInDedup(g, p);
    AheadInDedup(c, p);
    DedupMembers(images, {});
    DedupMembers(c, {});
    ParamIsNew(ahead, g[p]);
    ParamIsFirst(ahead, Dedup(g, {}), i);
    DedupOfImages(ahead, s);
    ImagesMember(ahead, s, v);
    PositionDecides(Dedup(ahead, {}), Dedup(images, {}), Dedup(c, {}), images, v);
  }

  lemma ParamIsFirst(ahead: seq<Ty>, walk: seq<Ty>, i: nat)
    requires forall q | 0 <= q < |ahead| :: !ahead[q].head.Param?
    requires |Dedup(ahead, {})| < |walk| && walk[..|Dedup(ahead, {})|] == Dedup(ahead, {})
    requires walk[|Dedup(ahead, {})|].head == Param(i)
    ensures forall c :: PeelWalks(walk, c, i) == if |Dedup(ahead, {})| < |c| then Some(c[|Dedup(ahead, {})|]) else None
  {
    var p := |Dedup(ahead, {})|;
    DedupMembers(ahead, {});
    forall q | 0 <= q < p ensures !walk[q].head.Param? {
      assert walk[q] == Dedup(ahead, {})[q] && Dedup(ahead, {})[q] in Dedup(ahead, {});
    }
    forall c ensures PeelWalks(walk, c, i) == if p < |c| then Some(c[p]) else None {
      PeelAtFirst(walk, c, i, p);
    }
  }

  /** The wanted type stands opposite the parameter exactly if it is new and nothing was skipped. */
  lemma PositionDecides(ahead: seq<Ty>, cahead: seq<Ty>, walk: seq<Ty>, images: seq<Ty>, v: Ty)
    requires |cahead| <= |ahead| && |cahead| <= |walk| && walk[..|cahead|] == cahead
    requires forall i, j | 0 <= i < j < |walk| :: walk[i] != walk[j]
    requires forall x :: x in cahead <==> x in images
    requires v !in images ==> |cahead| < |walk| && walk[|cahead|] == v
    ensures (|ahead| < |walk| && walk[|ahead|] == v) <==> (|cahead| == |ahead| && v !in images)
  {
    if v in images {
      var k :| 0 <= k < |cahead| && cahead[k] == v;
      assert walk[k] == v;
    }
  }

  /** Two lifetimes are enough: from `(&'a i32, &'b T)` and `(&i32, &bool)` the type of `T` is not extracted. */
  lemma LifetimesMisalign()
    ensures var i32, t := Ty(Prim(7), []), Ty(Param(0), []);
            var generic := Ty(Tuple, [Ty(Ref(false), [Ty(Lifetime(1), []), i32]), Ty(Ref(false), [Ty(Lifetime(2), []), t])]);
            Peel(generic, Image(generic, [BOOL]), 0) != Some(BOOL)
  {
    var i32, t, a, b := Ty(Prim(7), []), Ty(Param(0), []), Ty(Lifetime(1), []), Ty(Lifetime(2), []);
    var first, second := Ty(Ref(false), [a, i32]), Ty(Ref(false), [b, t]);
    var generic := Ty(Tuple, [first, second]);
    PreorderOfTwoReferences(first, second, a, i32, b, t);
    assert Preorder([generic])[6] == t;
    PeelInvertsUpToLifetimes(generic, [BOOL], 6);
    var ahead := Preorder([generic])[..6];
    assert ahead[2] == a && ahead[5] == b && a in ahead && b in ahead;
    assert Image(a, [BOOL]) == ERASED && Image(b, [BOOL]) == ERASED;
    assert Erase(BOOL) == BOOL;
  }

  lemma PreorderOfTwoReferences(first: Ty, second: Ty, a: Ty, x: Ty, b: Ty, y: Ty)
    requires first.args == [a, x] && second.args == [b, y] && a.args == [] && x.args == [] && b.args == [] && y.args == []
    ensures Preorder([Ty(Tuple, [first, second])]) == [Ty(Tuple, [first, second]), first, a, x, second, b, y]
  {
    var whole := Ty(Tuple, [first, second]);
    PreorderOfPair(first, a, x);
    PreorderOfPair(second, b, y);
    assert [first] + [second] == [first, second];
    PreorderConcat([first], [second]);
    assert [whole][0].args + [whole][1..] == [first, second];
    assert Preorder([whole]) == [whole] + Preorder([first, second]);
  }

  // ---------------------------------------------------------------------------------------
  // Candidate instances

  /** The choices `multi_cartesian_product` enumerates; it yields nothing for no factors at all. */
  function Combinations(slots: seq<set<Ty>>): set<seq<Ty>> {
    if slots == [] then {} else Product(slots)
  }

  function SubstSlots(args: seq<TrackedTy>, generics: seq<Ty>, n: nat): (slots: seq<set<Ty>>)
    ensures |slots| == n
  {
    seq(n, i requires 0 <= i < n => ExtractSubsts(args, generics, i))
  }

  /** The instances obtained from all combinations of extracted substitutions for the `n` generics. */
  function PlausibleInstances<I>(args: seq<TrackedTy>, generics: seq<Ty>, n: nat,
                                 resolve: seq<Ty> -> Option<I>): set<I>
  {
    set c | c in Combinations(SubstSlots(args, generics, n)) && resolve(c).Some? :: resolve(c).value
  }

  lemma PlausibleInstancesExact<I>(args: seq<TrackedTy>, generics: seq<Ty>, n: nat,
                                   resolve: seq<Ty> -> Option<I>, inst: I)
    ensures inst in PlausibleInstances(args, generics, n, resolve) <==>
            n > 0 && exists c: seq<Ty> ::
              && |c| == n && resolve(c) == Some(inst)
              && forall i | 0 <= i < n :: c[i] in ExtractSubsts(args, generics, i)
  {
    var slots := SubstSlots(args, generics, n);
    forall c: seq<Ty>
      ensures c in Combinations(slots) <==>
              n > 0 && |c| == n && forall i | 0 <= i < n :: c[i] in ExtractSubsts(args, generics, i)
    {
      ProductIsAllChoices(slots, c);
      if |c| == n {
        assert forall i | 0 <= i < n :: slots[i] == ExtractSubsts(args, generics, i);
      }
    }
    if inst in PlausibleInstances(args, generics, n, resolve) {
      var c :| c in Combinations(slots) && resolve(c).Some? && resolve(c).value == inst;
    }
  }

  predicate AllBelow(args: seq<TrackedTy>, args': seq<TrackedTy>) {
    |args| == |args'| && forall j | 0 <= j < |args| :: Below(args[j], args'[j])
  }

  /** Learning more about the arguments only adds candidates. */
  lemma PlausibleInstancesMonotone<I>(args: seq<TrackedTy>, args': seq<TrackedTy>, generics: seq<Ty>,
                                      n: nat, resolve: seq<Ty> -> Option<I>)
    requires AllBelow(args, args')
    ensures PlausibleInstances(args, generics, n, resolve) <= PlausibleInstances(args', generics, n, resolve)
  {
    forall i: nat
      ensures ExtractSubsts(args, generics, i) <= ExtractSubsts(args', generics, i)
    {
      forall x | x in ExtractSubsts(args, generics, i)
        ensures x in ExtractSubsts(args', generics, i)
      {
        var j, t :| 0 <= j < |generics| && j < |args| && t in TypesOf(args[j]) &&
                    Peel(generics[j], t, i).Some? && x == Peel(generics[j], t, i).value;
        assert Below(args[j], args'[j]);
        assert t in TypesOf(args'[j]);
      }
    }
    forall inst | inst in PlausibleInstances(args, generics, n, resolve)
      ensures inst in PlausibleInstances(args', generics, n, resolve)
    {
      PlausibleInstancesExact(args, generics, n, resolve, inst);
      PlausibleInstancesExact(args', generics, n, resolve, inst);
    }
  }

  /** Parameter `i` leads the declared type of an argument whose tracked types include its instance
      under `s`, and nothing ahead of it collides. */
  ghost predicate Reveals(generic: Ty, arg: TrackedTy, s: seq<Ty>, i: nat) {
    && Image(generic, s) in TypesOf(arg)
    && exists p: nat ::
         && p < |Preorder([generic])| && Preorder([generic])[p].head == Param(i)
         && (forall q | 0 <= q < p :: !Preorder([generic])[q].head.Param?)
         && i < |s| && Erase(s[i]) == s[i]
         && StaysApart(Preorder([generic])[..p], s, s[i])
  }

  ghost predicate RevealedByArgument(generics: seq<Ty>, args: seq<TrackedTy>, s: seq<Ty>, i: nat) {
    exists j :: 0 <= j < |generics| && j < |args| && Reveals(generics[j], args[j], s, i)
  }

  /** If the substitution a call really runs with is revealed, parameter by parameter, by tracked
      argument types, then the instance it runs is among the candidates, whatever else is tracked. */
  lemma ActualCalleeIsPlausible<I>(args: seq<TrackedTy>, generics: seq<Ty>, s: seq<Ty>,
                                   resolve: seq<Ty> -> Option<I>)
    requires s != [] && resolve(s).Some?
    requires forall i: nat | i < |s| :: RevealedByArgument(generics, args, s, i)
    ensures resolve(s).value in PlausibleInstances(args, generics, |s|, resolve)
  {
    forall i: nat | i < |s|
      ensures s[i] in ExtractSubsts(args, generics, i)
    {
      assert RevealedByArgument(generics, args, s, i);
      var j :| 0 <= j < |generics| && j < |args| && Reveals(generics[j], args[j], s, i);
      var g := generics[j];
      var p: nat :| p < |Preorder([g])| && Preorder([g])[p].head == Param(i) &&
                    (forall q | 0 <= q < p :: !Preorder([g])[q].head.Param?) &&
                    i < |s| && Erase(s[i]) == s[i] && StaysApart(Preorder([g])[..p], s, s[i]);
      PeelInvertsUpToLifetimes(g, s, p);
      assert Peel(g, Image(g, s), i).value == s[i];
    }
    PlausibleInstancesExact(args, generics, |s|, resolve, resolve(s).value);
  }
}
