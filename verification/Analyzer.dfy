/** The verdict: a walk over the stored call graph with important locals. */
module Analyzer {
  import opened Options
  import opened Types
  import opened Mir
  import opened FunctionStorage
  import opened ImportantLocals

  /** The configured lists, as predicates on definitions, and whether a method takes `&self`. */
  datatype Policy = Policy(allowlisted: DefId -> bool, trustedLibrary: DefId -> bool, takesImmutSelf: Instance -> bool)

  datatype Context = Context(flow: FlowContext, policy: Policy, fns: seq<FunctionInfo>)

  /** A function under analysis with its important locals. */
  datatype Frame = Frame(item: FunctionInfo, locals: set<nat>)

  predicate IsTrusted(p: Policy, item: FunctionInfo) {
    p.trustedLibrary(item.DefIdOf()) && !(item.InfoWithBody? && p.takesImmutSelf(item.instance))
  }

  predicate IsAllowlisted(p: Policy, item: FunctionInfo) {
    p.allowlisted(item.DefIdOf())
  }

  /** Passes without being looked into. */
  predicate Skipped(p: Policy, f: Frame) {
    f.locals == {} || IsAllowlisted(p, f.item) || IsTrusted(p, f.item)
  }

  /** Leaks by itself: no body, an unhandled callee, a raw pointer write or a mutable transmute. */
  predicate LocallyBad(item: FunctionInfo) {
    item.InfoWithoutBody? || item.unhandled != {} || item.body.hasRawPtrDeref || item.body.hasTransmute
  }

  /** The storage is one a collection produced, and closure calls follow their convention. */
  ghost predicate Analyzable(cx: Context) {
    && Ordered(cx.fns)
    && forall k, c | 0 <= k < |cx.fns| && c in cx.fns[k].Calls() :: ConventionHolds(cx.flow, c)
  }

  /** The first position of a stored summary: the measure of the walk. */
  function Rank(fns: seq<FunctionInfo>, item: FunctionInfo): (r: nat)
    requires item in fns
    ensures r < |fns| && fns[r] == item
    ensures forall k | 0 <= k < r :: fns[k] != item
  {
    if item in fns[..|fns| - 1] then Rank(fns[..|fns| - 1], item) else |fns| - 1
  }

  ghost predicate IsFrame(cx: Context, f: Frame) {
    Analyzable(cx) && f.item in cx.fns
  }

  /** The frame a recorded call leads to. */
  ghost function Child(cx: Context, f: Frame, c: FunctionCall): (child: Frame)
    requires IsFrame(cx, f) && c in f.item.Calls()
    ensures IsFrame(cx, child) && IsAbout(child.item, c)
    ensures exists j :: 0 <= j < |cx.fns| && child.item == cx.fns[j] && IsFirstAbout(cx.fns, c, j)
    ensures Rank(cx.fns, child.item) < Rank(cx.fns, f.item)
  {
    FoundIsFirstAbout(cx.fns, c);
    var k := Rank(cx.fns, f.item);
    assert c in cx.fns[k].Calls();
    var j := Find(cx.fns, c).value;
    assert cx.fns[j] in cx.fns;
    RankAtMost(cx.fns, j);
    Frame(cx.fns[j], Transition(cx.flow, f.locals, c))
  }

  lemma RankAtMost(fns: seq<FunctionInfo>, j: nat)
    requires j < |fns|
    ensures fns[j] in fns && Rank(fns, fns[j]) <= j
  {
  }

  /** The verdict on a frame, as the recursion computes it. */
  ghost predicate Verdict(cx: Context, f: Frame)
    requires IsFrame(cx, f)
    decreases Rank(cx.fns, f.item)
  {
    Skipped(cx.policy, f) ||
    (!LocallyBad(f.item) && forall c | c in f.item.Calls() :: Verdict(cx, Child(cx, f, c)))
  }

  // ---------------------------------------------------------------------------------------
  // Meaning of the verdict

  ghost predicate IsChild(cx: Context, f: Frame, g: Frame) {
    IsFrame(cx, f) && !Skipped(cx.policy, f) && exists c :: c in f.item.Calls() && g == Child(cx, f, c)
  }

  /** A path of expanded frames, except possibly the last one. */
  ghost predicate IsWalk(cx: Context, f: Frame, path: seq<Frame>, g: Frame) {
    && path != [] && path[0] == f && path[|path| - 1] == g
    && forall k | 0 <= k < |path| - 1 :: IsChild(cx, path[k], path[k + 1])
  }

  ghost predicate Reaches(cx: Context, f: Frame, g: Frame) {
    exists path :: IsWalk(cx, f, path, g)
  }

  /** Expanded, and leaking by itself. */
  ghost predicate BadFrame(cx: Context, g: Frame) {
    !Skipped(cx.policy, g) && LocallyBad(g.item)
  }

  lemma ExtendWalk(cx: Context, f: Frame, g: Frame, h: Frame)
    requires IsChild(cx, f, g) && Reaches(cx, g, h)
    ensures Reaches(cx, f, h)
  {
    var path :| IsWalk(cx, g, path, h);
    var longer := [f] + path;
    forall k | 0 <= k < |longer| - 1 ensures IsChild(cx, longer[k], longer[k + 1]) {
      if k > 0 {
        assert IsChild(cx, path[k - 1], path[k - 1 + 1]);
      }
    }
    assert IsWalk(cx, f, longer, h);
  }

  lemma {:induction false} FailureHasWitness(cx: Context, f: Frame)
    requires IsFrame(cx, f) && !Verdict(cx, f)
    ensures exists g :: Reaches(cx, f, g) && BadFrame(cx, g)
    decreases Rank(cx.fns, f.item)
  {
    if LocallyBad(f.item) {
      assert IsWalk(cx, f, [f], f);
      assert Reaches(cx, f, f) && BadFrame(cx, f);
    } else {
      var c :| c in f.item.Calls() && !Verdict(cx, Child(cx, f, c));
      FailureHasWitness(cx, Child(cx, f, c));
      var g :| Reaches(cx, Child(cx, f, c), g) && BadFrame(cx, g);
      ExtendWalk(cx, f, Child(cx, f, c), g);
    }
  }

  lemma {:induction false} WalkCarriesFailure(cx: Context, f: Frame, path: seq<Frame>, g: Frame)
    requires IsFrame(cx, f) && IsWalk(cx, f, path, g)
    requires IsFrame(cx, g) ==> !Verdict(cx, g)
    ensures !Verdict(cx, f)
    decreases |path|
  {
    if |path| > 1 {
      var rest := path[1..];
      assert IsChild(cx, path[0], path[0 + 1]);
      forall k | 0 <= k < |rest| - 1 ensures IsChild(cx, rest[k], rest[k + 1]) {
        assert IsChild(cx, path[k + 1], path[k + 1 + 1]);
      }
      var c :| c in f.item.Calls() && path[1] == Child(cx, f, c);
      WalkCarriesFailure(cx, path[1], rest, g);
    }
  }

  /** A function passes exactly when no path of expanded frames leads to a bad one. */
  lemma VerdictMeansNoBadFrameReached(cx: Context, f: Frame)
    requires IsFrame(cx, f)
    ensures Verdict(cx, f) <==> !exists g :: Reaches(cx, f, g) && BadFrame(cx, g)
  {
    if !Verdict(cx, f) {
      FailureHasWitness(cx, f);
    }
    if g :| Reaches(cx, f, g) && BadFrame(cx, g) {
      var path :| IsWalk(cx, f, path, g);
      WalkCarriesFailure(cx, f, path, g);
    }
  }

  // ---------------------------------------------------------------------------------------
  // Visits

  /** How often the walk from `f` visits `g`. */
  ghost function Visits(cx: Context, f: Frame, g: Frame): nat
    requires IsFrame(cx, f)
    decreases Rank(cx.fns, f.item), |f.item.Calls()| + 1
  {
    (if f == g then 1 else 0) + (if Skipped(cx.policy, f) then 0 else VisitsBelow(cx, f, f.item.Calls(), g))
  }

  ghost function VisitsBelow(cx: Context, f: Frame, calls: set<FunctionCall>, g: Frame): nat
    requires IsFrame(cx, f) && calls <= f.item.Calls()
    decreases Rank(cx.fns, f.item), |calls|
  {
    if calls == {} then 0
    else Visits(cx, Child(cx, f, SomeCall(calls)), g) + VisitsBelow(cx, f, calls - {SomeCall(calls)}, g)
  }

  ghost function SomeCall(calls: set<FunctionCall>): (c: FunctionCall)
    requires calls != {}
    ensures c in calls
  {
    var c :| c in calls; c
  }

  /** The order in which the calls of a frame are taken does not matter. */
  lemma {:induction false} VisitsInAnyOrder(cx: Context, f: Frame, calls: set<FunctionCall>, c: FunctionCall, g: Frame)
    requires IsFrame(cx, f) && calls <= f.item.Calls() && c in calls
    ensures VisitsBelow(cx, f, calls, g) == Visits(cx, Child(cx, f, c), g) + VisitsBelow(cx, f, calls - {c}, g)
    decreases |calls|
  {
    var d := SomeCall(calls);
    if d != c {
      VisitsInAnyOrder(cx, f, calls - {d}, c, g);
      VisitsInAnyOrder(cx, f, calls - {c}, d, g);
      assert calls - {d} - {c} == calls - {c} - {d};
    }
  }

  lemma {:induction false} VisitedBelowHasChild(cx: Context, f: Frame, calls: set<FunctionCall>, g: Frame)
    requires IsFrame(cx, f) && calls <= f.item.Calls()
    ensures VisitsBelow(cx, f, calls, g) > 0 <==> exists c :: c in calls && Visits(cx, Child(cx, f, c), g) > 0
    decreases |calls|
  {
    if calls != {} {
      var c := SomeCall(calls);
      VisitedBelowHasChild(cx, f, calls - {c}, g);
      if d :| d in calls && Visits(cx, Child(cx, f, d), g) > 0 {
        assert d == c || d in calls - {c};
      }
    }
  }

  /** Dropping the first frame of a walk. */
  lemma RestOfWalk(cx: Context, f: Frame, path: seq<Frame>, g: Frame)
    requires IsWalk(cx, f, path, g) && |path| > 1
    ensures IsChild(cx, f, path[1]) && Reaches(cx, path[1], g)
  {
    assert IsChild(cx, path[0], path[0 + 1]);
    var rest := path[1..];
    forall k | 0 <= k < |rest| - 1 ensures IsChild(cx, rest[k], rest[k + 1]) {
      assert IsChild(cx, path[k + 1], path[k + 1 + 1]);
    }
    assert IsWalk(cx, path[1], rest, g);
  }

  /** The visited frames are the ones reached by paths of expanded frames. */
  lemma {:induction false} VisitedMeansReached(cx: Context, f: Frame, g: Frame)
    requires IsFrame(cx, f)
    ensures Visits(cx, f, g) > 0 <==> Reaches(cx, f, g)
    decreases Rank(cx.fns, f.item), 1
  {
    if f == g {
      assert IsWalk(cx, f, [f], g);
    } else {
      VisitedBelowHasChild(cx, f, f.item.Calls(), g);
      if Visits(cx, f, g) > 0 {
        VisitedIsReached(cx, f, g);
      }
      if Reaches(cx, f, g) {
        var path :| IsWalk(cx, f, path, g);
        RestOfWalk(cx, f, path, g);
        var c :| c in f.item.Calls() && path[1] == Child(cx, f, c);
        VisitedMeansReached(cx, path[1], g);
      }
    }
  }

  lemma {:induction false} VisitedIsReached(cx: Context, f: Frame, g: Frame)
    requires IsFrame(cx, f) && f != g && Visits(cx, f, g) > 0
    ensures Reaches(cx, f, g)
    decreases Rank(cx.fns, f.item), 0
  {
    VisitedBelowHasChild(cx, f, f.item.Calls(), g);
    var c :| c in f.item.Calls() && Visits(cx, Child(cx, f, c), g) > 0;
    VisitedMeansReached(cx, Child(cx, f, c), g);
    ExtendWalk(cx, f, Child(cx, f, c), g);
  }

  /** The verdict is true exactly when every visited frame passes. */
  lemma VerdictMeansAllVisitedPass(cx: Context, f: Frame)
    requires IsFrame(cx, f)
    ensures Verdict(cx, f) <==> forall g | IsFrame(cx, g) && Visits(cx, f, g) > 0 :: Verdict(cx, g)
  {
    assert Visits(cx, f, f) > 0;
    forall g | IsFrame(cx, g) && Visits(cx, f, g) > 0 && !Verdict(cx, g)
      ensures !Verdict(cx, f)
    {
      VisitedMeansReached(cx, f, g);
      var path :| IsWalk(cx, f, path, g);
      WalkCarriesFailure(cx, f, path, g);
    }
  }

  // ---------------------------------------------------------------------------------------
  // The walk itself

  /** An entry of the passing or failing list. */
  datatype Record = Record(frame: Frame, rawPtrDeref: bool, allowlisted: bool, transmute: bool)

  /** How a visited frame is reported; skipped frames are reported without their flags. */
  function RecordOf(p: Policy, f: Frame): Record {
    if Skipped(p, f) then Record(f, false, IsAllowlisted(p, f.item), false)
    else
      Record(f, f.item.InfoWithBody? && f.item.body.hasRawPtrDeref, IsAllowlisted(p, f.item),
             f.item.InfoWithBody? && f.item.body.hasTransmute)
  }

  /** The lists filled during the walk. */
  class Report {
    var passing: seq<Record>
    var failing: seq<Record>

    constructor ()
      ensures passing == [] && failing == []
    {
      passing, failing := [], [];
    }
  }

  /** What the walk from `f` adds to a list for `r`, when the list takes frames with verdict `v`. */
  ghost function Added(cx: Context, f: Frame, r: Record, v: bool): nat
    requires IsFrame(cx, f)
  {
    if IsFrame(cx, r.frame) && r == RecordOf(cx.policy, r.frame) && Verdict(cx, r.frame) == v then Visits(cx, f, r.frame)
    else 0
  }

  ghost function AddedBelow(cx: Context, f: Frame, calls: set<FunctionCall>, r: Record, v: bool): nat
    requires IsFrame(cx, f) && calls <= f.item.Calls()
  {
    if IsFrame(cx, r.frame) && r == RecordOf(cx.policy, r.frame) && Verdict(cx, r.frame) == v
    then VisitsBelow(cx, f, calls, r.frame) else 0
  }

  lemma AddChild(cx: Context, f: Frame, done: set<FunctionCall>, c: FunctionCall, r: Record, v: bool)
    requires IsFrame(cx, f) && done <= f.item.Calls() && c in f.item.Calls() && c !in done
    ensures AddedBelow(cx, f, done + {c}, r, v) == AddedBelow(cx, f, done, r, v) + Added(cx, Child(cx, f, c), r, v)
  {
    assert done + {c} - {c} == done;
    VisitsInAnyOrder(cx, f, done + {c}, c, r.frame);
  }

  /** An expanded frame adds itself to what its callees add. */
  lemma AddSelf(cx: Context, f: Frame, r: Record, v: bool)
    requires IsFrame(cx, f) && !Skipped(cx.policy, f)
    ensures Added(cx, f, r, v) == AddedBelow(cx, f, f.item.Calls(), r, v) +
                                  if r == RecordOf(cx.policy, f) && Verdict(cx, f) == v then 1 else 0
  {
  }

  /** A skipped frame adds only itself, and passes. */
  lemma AddSkipped(cx: Context, f: Frame, r: Record, v: bool)
    requires IsFrame(cx, f) && Skipped(cx.policy, f)
    ensures Added(cx, f, r, v) == if r == RecordOf(cx.policy, f) && v then 1 else 0
  {
  }

  /** The list grew by what the walk from `f` adds to it. */
  ghost predicate Grew(cx: Context, f: Frame, before: seq<Record>, after: seq<Record>, v: bool)
    requires IsFrame(cx, f)
  {
    forall r :: multiset(after)[r] == multiset(before)[r] + Added(cx, f, r, v)
  }

  ghost predicate GrewBelow(cx: Context, f: Frame, done: set<FunctionCall>, before: seq<Record>, after: seq<Record>, v: bool)
    requires IsFrame(cx, f) && done <= f.item.Calls()
  {
    forall r :: multiset(after)[r] == multiset(before)[r] + AddedBelow(cx, f, done, r, v)
  }

  lemma GrewByChild(cx: Context, f: Frame, done: set<FunctionCall>, c: FunctionCall,
                    before: seq<Record>, middle: seq<Record>, after: seq<Record>, v: bool)
    requires IsFrame(cx, f) && done <= f.item.Calls() && c in f.item.Calls() && c !in done
    requires GrewBelow(cx, f, done, before, middle, v) && Grew(cx, Child(cx, f, c), middle, after, v)
    ensures GrewBelow(cx, f, done + {c}, before, after, v)
  {
    forall r ensures multiset(after)[r] == multiset(before)[r] + AddedBelow(cx, f, done + {c}, r, v) {
      AddChild(cx, f, done, c, r, v);
    }
  }

  lemma GrewBySelf(cx: Context, f: Frame, before: seq<Record>, middle: seq<Record>, after: seq<Record>, v: bool)
    requires IsFrame(cx, f) && !Skipped(cx.policy, f)
    requires GrewBelow(cx, f, f.item.Calls(), before, middle, v)
    requires after == if Verdict(cx, f) == v then middle + [RecordOf(cx.policy, f)] else middle
    ensures Grew(cx, f, before, after, v)
  {
    forall r ensures multiset(after)[r] == multiset(before)[r] + Added(cx, f, r, v) {
      AddSelf(cx, f, r, v);
    }
  }

  lemma GrewBySkipped(cx: Context, f: Frame, before: seq<Record>, after: seq<Record>, v: bool)
    requires IsFrame(cx, f) && Skipped(cx.policy, f)
    requires after == if v then before + [RecordOf(cx.policy, f)] else before
    ensures Grew(cx, f, before, after, v)
  {
    forall r ensures multiset(after)[r] == multiset(before)[r] + Added(cx, f, r, v) {
      AddSkipped(cx, f, r, v);
    }
  }

  /** The recursive walk. It returns the verdict, appends every visited frame that fails to the
      failing list and every other visited frame to the passing list, as often as it is visited. */
  method AnalyzeItem(item: FunctionInfo, locals: set<nat>, report: Report, storage: FunctionInfoStorage,
                     flow: FlowContext, policy: Policy)
    returns (pure: bool)
    requires IsFrame(Context(flow, policy, storage.fns), Frame(item, locals))
    modifies report
    ensures pure == Verdict(Context(flow, policy, storage.fns), Frame(item, locals))
    ensures Grew(Context(flow, policy, storage.fns), Frame(item, locals), old(report.failing), report.failing, false)
    ensures Grew(Context(flow, policy, storage.fns), Frame(item, locals), old(report.passing), report.passing, true)
    decreases Rank(storage.fns, item)
  {
    ghost var cx, f := Context(flow, policy, storage.fns), Frame(item, locals);
    if locals == {} || IsAllowlisted(policy, item) || IsTrusted(policy, item) {
      report.passing := report.passing + [Record(Frame(item, locals), false, IsAllowlisted(policy, item), false)];
      GrewBySkipped(cx, f, old(report.passing), report.passing, true);
      GrewBySkipped(cx, f, old(report.failing), report.failing, false);
      return true;
    }
    var noLeakingCalls := AnalyzeCallees(item, locals, report, storage, flow, policy);
    var hasUnhandled := item.InfoWithBody? && item.unhandled != {};
    var hasRawPtrDeref := item.InfoWithBody? && item.body.hasRawPtrDeref;
    var hasTransmute := item.InfoWithBody? && item.body.hasTransmute;
    var record := Record(Frame(item, locals), hasRawPtrDeref, IsAllowlisted(policy, item), hasTransmute);
    ghost var passing, failing := report.passing, report.failing;
    pure := !hasUnhandled && !hasRawPtrDeref && !hasTransmute && item.InfoWithBody? && noLeakingCalls;
    if pure {
      report.passing := report.passing + [record];
    } else {
      report.failing := report.failing + [record];
    }
    GrewBySelf(cx, f, old(report.passing), passing, report.passing, true);
    GrewBySelf(cx, f, old(report.failing), failing, report.failing, false);
  }

  /** Walks all callees of an expanded frame, in any order, without stopping at the first failure. */
  method AnalyzeCallees(item: FunctionInfo, locals: set<nat>, report: Report, storage: FunctionInfoStorage,
                        flow: FlowContext, policy: Policy)
    returns (noLeakingCalls: bool)
    requires IsFrame(Context(flow, policy, storage.fns), Frame(item, locals))
    modifies report
    ensures var cx, f := Context(flow, policy, storage.fns), Frame(item, locals);
            && (noLeakingCalls <==> forall c | c in item.Calls() :: Verdict(cx, Child(cx, f, c)))
            && GrewBelow(cx, f, item.Calls(), old(report.failing), report.failing, false)
            && GrewBelow(cx, f, item.Calls(), old(report.passing), report.passing, true)
    decreases Rank(storage.fns, item), 0
  {
    ghost var cx, f := Context(flow, policy, storage.fns), Frame(item, locals);
    var calls := item.Calls();
    noLeakingCalls := true;
    var rest := calls;
    while rest != {}
      invariant rest <= calls
      invariant noLeakingCalls <==> forall c | c in calls - rest :: Verdict(cx, Child(cx, f, c))
      invariant GrewBelow(cx, f, calls - rest, old(report.failing), report.failing, false)
      invariant GrewBelow(cx, f, calls - rest, old(report.passing), report.passing, true)
    {
      var c :| c in rest;
      ghost var done, passing, failing := calls - rest, report.passing, report.failing;
      ghost var child := Child(cx, f, c);
      ghost var k := Rank(cx.fns, item);
      assert c in cx.fns[k].Calls();
      var callee := storage.GetByCall(c, k);
      assert child == Frame(callee, Transition(flow, locals, c));
      var leaksNothing := AnalyzeItem(callee, Transition(flow, locals, c), report, storage, flow, policy);
      GrewByChild(cx, f, done, c, old(report.passing), passing, report.passing, true);
      GrewByChild(cx, f, done, c, old(report.failing), failing, report.failing, false);
      rest := rest - {c};
      assert calls - rest == done + {c};
      noLeakingCalls := noLeakingCalls && leaksNothing;
    }
    assert calls - rest == calls;
  }

  lemma NonEmptyCounts(list: seq<Record>)
    ensures list == [] || exists r :: r in multiset(list)
  {
    if list != [] {
      assert list[0] in multiset(list);
    }
  }

  /** The analysis of a collected storage: the origin summary is looked up and walked. */
  method Run(storage: FunctionInfoStorage, locals: set<nat>, flow: FlowContext, policy: Policy)
    returns (status: bool, report: Report)
    requires Analyzable(Context(flow, policy, storage.fns)) && FindInstance(storage.fns, storage.origin).Some?
    ensures fresh(report)
    ensures var cx := Context(flow, policy, storage.fns);
            var origin := Frame(cx.fns[FindInstance(cx.fns, storage.origin).value], locals);
            && IsFrame(cx, origin)
            && status == Verdict(cx, origin)
            && (status <==> report.failing == [])
            && (status <==> !exists g :: Reaches(cx, origin, g) && BadFrame(cx, g))
  {
    report := new Report();
    var found := storage.GetWithBody(storage.origin);
    ghost var cx := Context(flow, policy, storage.fns);
    ghost var origin := Frame(found.value, locals);
    assert found.value in cx.fns;
    status := AnalyzeItem(found.value, locals, report, storage, flow, policy);
    VerdictMeansNoBadFrameReached(cx, origin);
    VerdictMeansAllVisitedPass(cx, origin);
    if status {
      forall r ensures r !in multiset(report.failing) {
        assert Added(cx, origin, r, false) == 0;
      }
      NonEmptyCounts(report.failing);
    } else {
      ghost var r := RecordOf(policy, origin);
      assert Added(cx, origin, r, false) > 0;
      assert r in multiset(report.failing);
    }
  }

  // ---------------------------------------------------------------------------------------
  // Monotonicity

  /** `q` lists at least what `p` lists. */
  ghost predicate AtLeastAsPermissive(p: Policy, q: Policy) {
    && (forall did :: p.allowlisted(did) ==> q.allowlisted(did))
    && (forall did :: p.trustedLibrary(did) ==> q.trustedLibrary(did))
    && (forall i :: p.takesImmutSelf(i) == q.takesImmutSelf(i))
  }

  /** Enlarging the lists never turns a pass into a failure; enlarging the important locals never
      turns a failure into a pass. */
  lemma {:induction false} VerdictMonotone(cx: Context, policy': Policy, item: FunctionInfo, locals: set<nat>, locals': set<nat>)
    requires IsFrame(cx, Frame(item, locals)) && MonotoneFlow(cx.flow)
    requires AtLeastAsPermissive(cx.policy, policy') && locals' <= locals
    requires Verdict(cx, Frame(item, locals))
    ensures IsFrame(cx.(policy := policy'), Frame(item, locals'))
    ensures Verdict(cx.(policy := policy'), Frame(item, locals'))
    decreases Rank(cx.fns, item)
  {
    var cx', f, f' := cx.(policy := policy'), Frame(item, locals), Frame(item, locals');
    if !Skipped(policy', f') {
      assert !Skipped(cx.policy, f);
      forall c | c in item.Calls()
        ensures Verdict(cx', Child(cx', f', c))
      {
        var child, child' := Child(cx, f, c), Child(cx', f', c);
        assert ConventionHolds(cx.flow, c) by {
          assert c in cx.fns[Rank(cx.fns, item)].Calls();
        }
        TransitionMonotone(cx.flow, locals', locals, c);
        VerdictMonotone(cx, policy', child.item, child.locals, child'.locals);
      }
    }
  }

  // ---------------------------------------------------------------------------------------
  // Taint chains

  /** A call and the argument position taint takes. */
  datatype Link = Link(call: FunctionCall, position: nat)

  /** Taint in `tainted` travels along the links from `item` to a function that leaks by itself,
      through no constructor and no allowlisted or trusted function, each step carrying on with
      what depends on the one argument it entered by. */
  ghost predicate TaintChain(cx: Context, item: FunctionInfo, tainted: set<nat>, links: seq<Link>)
    requires Analyzable(cx)
    decreases |links|
  {
    && item in cx.fns
    && !IsAllowlisted(cx.policy, item) && !IsTrusted(cx.policy, item)
    && if links == [] then LocallyBad(item)
       else
         var call, did := links[0].call, links[0].call.DefIdOf();
         && call in item.Calls()
         && !cx.flow.isConstructor(did)
         && Receives(cx.flow, tainted, call, links[0].position)
         && Find(cx.fns, call).Some?
         && TaintChain(cx, cx.fns[Find(cx.fns, call).value], Entered(cx.flow, did, links[0].position), links[1..])
  }

  /** If taint of an important local can travel to a leak, the verdict is negative. */
  lemma {:induction false} TaintedLeakIsCaught(cx: Context, item: FunctionInfo, tainted: set<nat>, locals: set<nat>, links: seq<Link>)
    requires Analyzable(cx) && MonotoneFlow(cx.flow) && ExtensiveFlow(cx.flow)
    requires TaintChain(cx, item, tainted, links) && tainted != {} && tainted <= locals
    ensures !Verdict(cx, Frame(item, locals))
    decreases |links|
  {
    var f := Frame(item, locals);
    assert !Skipped(cx.policy, f);
    if links != [] {
      var call, did := links[0].call, links[0].call.DefIdOf();
      assert ConventionHolds(cx.flow, call) by {
        assert call in cx.fns[Rank(cx.fns, item)].Calls();
      }
      var next := Entered(cx.flow, did, links[0].position);
      assert links[0].position + 1 in next;
      ReceivedTaintIsImportant(cx.flow, tainted, locals, call, links[0].position);
      var child := Child(cx, f, call);
      TaintedLeakIsCaught(cx, child.item, next, child.locals, links[1..]);
    }
  }

  /** The same from the important arguments of the origin. */
  lemma TaintedArgumentIsCaught(cx: Context, item: FunctionInfo, args: set<nat>, arg: nat, links: seq<Link>)
    requires Analyzable(cx) && MonotoneFlow(cx.flow) && ExtensiveFlow(cx.flow)
    requires arg in args && TaintChain(cx, item, cx.flow.dependents(item.DefIdOf(), {arg}), links)
    ensures !Verdict(cx, Frame(item, FromImportantArgs(cx.flow, args, item.DefIdOf())))
  {
    assert {arg} <= args;
    assert arg in cx.flow.dependents(item.DefIdOf(), {arg});
    TaintedLeakIsCaught(cx, item, cx.flow.dependents(item.DefIdOf(), {arg}),
                        FromImportantArgs(cx.flow, args, item.DefIdOf()), links);
  }

  // ---------------------------------------------------------------------------------------
  // The verdict in the configuration's terms

  /** The definition of a summary is listed in `lists`. */
  predicate IsListed(lists: DefId -> bool, item: FunctionInfo) {
    match item
    case InfoWithBody(instance, _, _, _, _, _) => lists(instance.did)
    case InfoWithoutBody(did, _) => lists(did)
  }

  /** A summary is passed without a look if nothing important reaches it, or its definition is allowlisted, or it is
      a trusted one; but a method that takes `&self` is looked into although it is trusted. */
  predicate PassesUnseen(p: Policy, f: Frame) {
    || f.locals == {}
    || IsListed(p.allowlisted, f.item)
    || (IsListed(p.trustedLibrary, f.item) && (f.item.InfoWithoutBody? || !p.takesImmutSelf(f.item.instance)))
  }

  /** The frame that follows `f` at a call: of the first stored summary about the callee. */
  ghost predicate Follows(cx: Context, f: Frame, c: FunctionCall, g: Frame) {
    && (exists j :: 0 <= j < |cx.fns| && g.item == cx.fns[j] && IsFirstAbout(cx.fns, c, j))
    && ConventionHolds(cx.flow, c) && g.locals == Transition(cx.flow, f.locals, c)
  }

  /** A frame passes exactly if it passes unseen, or there is a body, everything it calls is handled, it has neither
      a raw pointer write nor a mutable transmute, and what follows at each of its calls passes. */
  lemma VerdictExactly(cx: Context, f: Frame)
    requires IsFrame(cx, f)
    ensures Verdict(cx, f) <==>
            || PassesUnseen(cx.policy, f)
            || (&& f.item.InfoWithBody? && f.item.unhandled == {} && !f.item.body.hasRawPtrDeref && !f.item.body.hasTransmute
                && forall c, g | c in f.item.calls && IsFrame(cx, g) && Follows(cx, f, c, g) :: Verdict(cx, g))
  {
    assert Skipped(cx.policy, f) <==> PassesUnseen(cx.policy, f);
    if f.item.InfoWithBody? {
      forall c, g | c in f.item.calls && IsFrame(cx, g) && Follows(cx, f, c, g)
        ensures g == Child(cx, f, c)
      {
        FirstIsOne(cx.fns, c, g.item, Child(cx, f, c).item);
      }
      forall c | c in f.item.calls ensures IsFrame(cx, Child(cx, f, c)) && Follows(cx, f, c, Child(cx, f, c)) {
        assert c in cx.fns[Rank(cx.fns, f.item)].Calls();
      }
    }
  }

  lemma FirstIsOne(fns: seq<FunctionInfo>, c: FunctionCall, a: FunctionInfo, b: FunctionInfo)
    requires exists j :: 0 <= j < |fns| && a == fns[j] && IsFirstAbout(fns, c, j)
    requires exists j :: 0 <= j < |fns| && b == fns[j] && IsFirstAbout(fns, c, j)
    ensures a == b
  {
    var i :| 0 <= i < |fns| && a == fns[i] && IsFirstAbout(fns, c, i);
    var j :| 0 <= j < |fns| && b == fns[j] && IsFirstAbout(fns, c, j);
    assert !(i < j) && !(j < i);
  }
}
