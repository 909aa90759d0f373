/** What propagation maintains: the types tracked for a place, projected along a path inside it,
    are tracked for the place at the end of that path. */
module ProjectionClosure {
  import opened Options
  import opened Types
  import opened TrackedTypes
  import opened Mir
  import opened Domains

  /** What is assumed of `interior_paths` and of declared types: interior paths extend the place
      without passing a reference, stay among the tracked places, compose, and have the declared
      type found by projecting. */
  ghost predicate InteriorsOk(tcx: Tcx, body: Body) {
    && (forall p, q | p in body.places && q in tcx.interiorPaths(body, p) ::
          && q in body.places && Extends(p, q)
          && (forall k | |p.proj| <= k < |q.proj| :: q.proj[k] != Deref)
          && ProjectTy(tcx, tcx.placeTy(body, p), VariantOf(p), Tail(p, q)) == Some(tcx.placeTy(body, q)))
    && (forall p, q, r | p in body.places && q in tcx.interiorPaths(body, p) && r in tcx.interiorPaths(body, q) ::
          r in tcx.interiorPaths(body, p))
  }

  /** Every tracked place has the shape its declared type asks for. */
  ghost predicate Shaped(tcx: Tcx, body: Body, d: Domain) {
    && d.places.Keys == body.places
    && forall p | p in d.places ::
         if ContainsErased(tcx.placeTy(body, p)) then d.places[p].Erased?
         else d.places[p] == Present(tcx.placeTy(body, p))
  }

  predicate EndsInDeref(p: Place) {
    p.proj != [] && p.proj[|p.proj| - 1] == Deref
  }

  /** The types of `p` project to types tracked for `q`, if `q` tracks a set. */
  ghost predicate ClosedAt(tcx: Tcx, d: Domain, p: Place, q: Place) {
    && p in d.places && q in d.places
    && (d.places[q].Erased? ==>
          var x := ProjectTracked(tcx, d.places[p], p, q);
          x.Some? && TypesOf(x.value) <= d.places[q].deps)
  }

  /** Closed at every place which is not itself the target of a reference. */
  ghost predicate ClosedUnderProjection(tcx: Tcx, body: Body, d: Domain) {
    forall p, q | p in body.places && q in tcx.interiorPaths(body, p) && !EndsInDeref(p) :: ClosedAt(tcx, d, p, q)
  }

  ghost predicate ClosedEverywhere(tcx: Tcx, body: Body, d: Domain) {
    forall p, q | p in body.places && q in tcx.interiorPaths(body, p) :: ClosedAt(tcx, d, p, q)
  }

  lemma PresentProjects(tcx: Tcx, body: Body, d: Domain, p: Place, q: Place)
    requires InteriorsOk(tcx, body) && Shaped(tcx, body, d)
    requires p in body.places && q in tcx.interiorPaths(body, p)
    requires d.places[p].Present?
    ensures ProjectTracked(tcx, d.places[p], p, q) == Some(FromTy(tcx.placeTy(body, q)))
    ensures ClosedAt(tcx, d, p, q)
  {
  }

  /** The declared types alone are closed. */
  lemma DeclaredIsClosed(tcx: Tcx, body: Body)
    requires InteriorsOk(tcx, body)
    ensures var d := Domain(DeclaredPlaces(tcx, body), {}, {});
            Shaped(tcx, body, d) && ClosedEverywhere(tcx, body, d)
  {
    var d := Domain(DeclaredPlaces(tcx, body), {}, {});
    forall p, q | p in body.places && q in tcx.interiorPaths(body, p)
      ensures ClosedAt(tcx, d, p, q)
    {
      if d.places[p].Present? {
        PresentProjects(tcx, body, d, p, q);
      }
    }
  }

  lemma UpdateKeepsShape(tcx: Tcx, body: Body, d: Domain, p: Place, t: TrackedTy)
    requires Shaped(tcx, body, d) && Update(tcx, body, d, p, t).Some?
    ensures Shaped(tcx, body, Update(tcx, body, d, p, t).value)
  {
    UpdateInflates(tcx, body, d, p, t);
  }

  /** What an update leaves in a place. */
  lemma UpdateAt(tcx: Tcx, body: Body, d: Domain, p: Place, t: TrackedTy, q: Place)
    requires Update(tcx, body, d, p, t).Some? && q in d.places
    ensures var d' := Update(tcx, body, d, p, t).value;
            var joined := Join(d.places[p], t);
            var base := if q == p then joined else d.places[q];
            q in d'.places && d'.places[q] ==
              if q in Targets(tcx, body, p, joined) then Join(base, ProjectTracked(tcx, joined, p, q).value) else base
    ensures var joined := Join(d.places[p], t);
            q in Targets(tcx, body, p, joined) ==> ProjectTracked(tcx, joined, p, q).Some?
  {
    var joined := Join(d.places[p], t);
    if q in Targets(tcx, body, p, joined) {
      assert Projectable(tcx, body, p, joined);
    }
  }

  /** The updated place itself is closed afterwards: every interior place got the projections. */
  lemma UpdatedPlaceIsClosed(tcx: Tcx, body: Body, d: Domain, p: Place, t: TrackedTy, q: Place)
    requires InteriorsOk(tcx, body) && Shaped(tcx, body, d)
    requires Update(tcx, body, d, p, t).Some? && q in tcx.interiorPaths(body, p)
    ensures ClosedAt(tcx, Update(tcx, body, d, p, t).value, p, q)
  {
    var d' := Update(tcx, body, d, p, t).value;
    var joined := Join(d.places[p], t);
    UpdateKeepsShape(tcx, body, d, p, t);
    if joined.Present? {
      PresentProjects(tcx, body, d', p, q);
    } else {
      UpdateAt(tcx, body, d, p, t, q);
      UpdateAt(tcx, body, d, p, t, p);
      assert DerefOf(p) != p;
      if p in tcx.interiorPaths(body, p) {
        assert Tail(p, p) == [];
        forall ty ensures ProjectTy(tcx, ty, VariantOf(p), Tail(p, p)) == Some(ty) {
        }
        assert ProjectTracked(tcx, joined, p, p).value.deps == joined.deps;
      }
      assert d'.places[p] == joined;
    }
  }

  /** Types that arrived at `p` by projection from `p0` project on to types that arrived at `q`. */
  lemma ReceivedProjectsOn(tcx: Tcx, from: TrackedTy, p0: Place, p: Place, q: Place, u: Ty)
    requires Extends(p0, p) && Extends(p, q) && from.Erased?
    requires ProjectTracked(tcx, from, p0, p).Some? && ProjectTracked(tcx, from, p0, q).Some?
    requires u in ProjectTracked(tcx, from, p0, p).value.deps
    ensures ProjectTy(tcx, u, VariantOf(p), Tail(p, q)).Some?
    ensures ProjectTy(tcx, u, VariantOf(p), Tail(p, q)).value in ProjectTracked(tcx, from, p0, q).value.deps
  {
    var ty :| ty in from.deps && ProjectTy(tcx, ty, VariantOf(p0), Tail(p0, p)) == Some(u);
    ProjectThrough(tcx, ty, p0, p, q);
  }

  /** When both ends grow, the closure asks only for what is new and does not arrive. */
  lemma ClosedAfterBothGrow(tcx: Tcx, d: Domain, d': Domain, p: Place, q: Place, added: set<Ty>, arriving: set<Ty>)
    requires ClosedAt(tcx, d, p, q) && d.places[p].Erased? && d.places[q].Erased?
    requires p in d'.places && d'.places[p] == Erased(d.places[p].deps + added)
    requires q in d'.places && d'.places[q] == Erased(d.places[q].deps + arriving)
    ensures ClosedAt(tcx, d', p, q) <==>
            forall u | u in added ::
              var x := ProjectTy(tcx, u, VariantOf(p), Tail(p, q));
              x.Some? && x.value in d.places[q].deps + arriving
  {
  }

  /** A place inside the updated one stays closed: whatever it received, its own interior
      received the projections of it. */
  lemma InteriorStaysClosed(tcx: Tcx, body: Body, d: Domain, p0: Place, t: TrackedTy, p: Place, q: Place)
    requires InteriorsOk(tcx, body) && Shaped(tcx, body, d)
    requires Update(tcx, body, d, p0, t).Some?
    requires p in tcx.interiorPaths(body, p0) && q in tcx.interiorPaths(body, p) && p != p0
    requires ClosedAt(tcx, d, p, q)
    ensures ClosedAt(tcx, Update(tcx, body, d, p0, t).value, p, q)
  {
    var d' := Update(tcx, body, d, p0, t).value;
    var joined := Join(d.places[p0], t);
    UpdateKeepsShape(tcx, body, d, p0, t);
    if d'.places[p].Present? {
      PresentProjects(tcx, body, d', p, q);
    } else if d'.places[q].Erased? {
      UpdateAt(tcx, body, d, p0, t, p);
      UpdateAt(tcx, body, d, p0, t, q);
      var received := ProjectTracked(tcx, joined, p0, p).value;
      var inside := ProjectTracked(tcx, joined, p0, q).value;
      ClosedAfterBothGrow(tcx, d, d', p, q, TypesOf(received), TypesOf(inside));
      if joined.Present? {
        PresentProjects(tcx, body, d, p0, p);
        assert received == Erased({});
      } else {
        assert Extends(p0, p) && Extends(p, q);
        forall u | u in received.deps
          ensures ProjectTy(tcx, u, VariantOf(p), Tail(p, q)).Some?
          ensures ProjectTy(tcx, u, VariantOf(p), Tail(p, q)).value in inside.deps
        {
          ReceivedProjectsOn(tcx, joined, p0, p, q, u);
        }
      }
    }
  }

  /** Every update keeps the closure, except at the places references point to (see below). */
  lemma UpdateKeepsClosure(tcx: Tcx, body: Body, d: Domain, p0: Place, t: TrackedTy)
    requires InteriorsOk(tcx, body) && Shaped(tcx, body, d)
    requires ClosedUnderProjection(tcx, body, d)
    requires Update(tcx, body, d, p0, t).Some?
    ensures var d' := Update(tcx, body, d, p0, t).value;
            Shaped(tcx, body, d') && ClosedUnderProjection(tcx, body, d')
  {
    UpdateKeepsShape(tcx, body, d, p0, t);
    forall p, q | p in body.places && q in tcx.interiorPaths(body, p) && !EndsInDeref(p)
      ensures ClosedAt(tcx, Update(tcx, body, d, p0, t).value, p, q)
    {
      if p == p0 {
        UpdatedPlaceIsClosed(tcx, body, d, p0, t, q);
      } else if p in tcx.interiorPaths(body, p0) {
        assert ClosedAt(tcx, d, p, q);
        InteriorStaysClosed(tcx, body, d, p0, t, p, q);
      } else {
        OtherStaysClosed(tcx, body, d, p0, t, p, q);
      }
    }
  }

  /** A place an update does not reach keeps its types, and its interior only gains some. */
  lemma OtherStaysClosed(tcx: Tcx, body: Body, d: Domain, p0: Place, t: TrackedTy, p: Place, q: Place)
    requires InteriorsOk(tcx, body) && Shaped(tcx, body, d)
    requires Update(tcx, body, d, p0, t).Some?
    requires p in body.places && q in tcx.interiorPaths(body, p) && ClosedAt(tcx, d, p, q)
    requires p != p0 && p !in Targets(tcx, body, p0, Join(d.places[p0], t))
    ensures ClosedAt(tcx, Update(tcx, body, d, p0, t).value, p, q)
  {
    UpdateInflates(tcx, body, d, p0, t);
    UpdateAt(tcx, body, d, p0, t, p);
    UpdateAt(tcx, body, d, p0, t, q);
  }

  datatype Assignment = Assignment(place: Place, ty: TrackedTy)

  /** A run of updates; `None` when one of them panics. */
  function UpdateAll(tcx: Tcx, body: Body, d: Domain, assignments: seq<Assignment>): Option<Domain>
    decreases |assignments|
  {
    if assignments == [] then Some(d)
    else
      match Update(tcx, body, d, assignments[0].place, assignments[0].ty)
      case None => None
      case Some(next) => UpdateAll(tcx, body, next, assignments[1..])
  }

  /** Closure after any run of updates. */
  lemma {:induction false} UpdatesKeepClosure(tcx: Tcx, body: Body, d: Domain, assignments: seq<Assignment>)
    requires InteriorsOk(tcx, body) && Shaped(tcx, body, d)
    requires ClosedUnderProjection(tcx, body, d)
    requires UpdateAll(tcx, body, d, assignments).Some?
    ensures var d' := UpdateAll(tcx, body, d, assignments).value;
            Shaped(tcx, body, d') && ClosedUnderProjection(tcx, body, d')
    decreases |assignments|
  {
    if assignments != [] {
      UpdateKeepsClosure(tcx, body, d, assignments[0].place, assignments[0].ty);
      UpdatesKeepClosure(tcx, body, Update(tcx, body, d, assignments[0].place, assignments[0].ty).value, assignments[1..]);
    }
  }

  /** Immediately after an update, what the place points to has received the pointees. */
  lemma PointeesArePropagated(tcx: Tcx, body: Body, d: Domain, p: Place, t: TrackedTy, ty: Ty)
    requires Update(tcx, body, d, p, t).Some?
    requires ty in TypesOf(Join(d.places[p], t)) && IsRef(ty)
    ensures var d' := Update(tcx, body, d, p, t).value;
            var to := DerefOf(p);
            to in d'.places && (d'.places[to].Erased? && Join(d.places[p], t).Erased? ==>
              exists u :: BuiltinDeref(tcx, ty) == Some(u) && u in d'.places[to].deps)
  {
    var joined := Join(d.places[p], t);
    var to := DerefOf(p);
    UpdateAt(tcx, body, d, p, t, to);
    assert Tail(p, to) == [Deref];
    if joined.Erased? {
      var x := ProjectTy(tcx, ty, VariantOf(p), Tail(p, to));
      assert x.Some?;
      assert ProjectAll(tcx, PlaceTy(ty, VariantOf(p)), [Deref]) == Project(tcx, PlaceTy(ty, VariantOf(p)), Deref) by {
        assert forall y :: ProjectAll(tcx, y, [Deref][1..]) == Some(y);
      }
      assert BuiltinDeref(tcx, ty) == Some(x.value);
    }
  }

  /** The types added to the target of `p` project along the way to `q` to types tracked there. */
  ghost predicate PointeesKnownAt(tcx: Tcx, d: Domain, p: Place, joined: TrackedTy, q: Place) {
    var to := DerefOf(p);
    var pointees := ProjectTracked(tcx, joined, p, to);
    && q in d.places
    && (d.places[q].Erased? && pointees.Some? ==>
          forall u | u in TypesOf(pointees.value) ::
            var x := ProjectTy(tcx, u, VariantOf(to), Tail(to, q));
            x.Some? && x.value in d.places[q].deps)
  }

  /** What an update would have to find in place already: the pointees it adds to the target of
      `p` have all their fields tracked inside that target. */
  ghost predicate PointeesKnownInside(tcx: Tcx, body: Body, d: Domain, p: Place, joined: TrackedTy) {
    && DerefOf(p) in d.places
    && (d.places[DerefOf(p)].Erased? ==>
          forall q | q in tcx.interiorPaths(body, DerefOf(p)) && q != DerefOf(p) ::
            PointeesKnownAt(tcx, d, p, joined, q))
  }

  /** Propagation follows a reference one step and does not descend into what it points to.
      Closure at every place survives an update exactly when the update adds no reference, or
      the places inside the target knew the new pointees' fields before. */
  lemma UpdateKeepsClosureEverywhereExactly(tcx: Tcx, body: Body, d: Domain, p0: Place, t: TrackedTy)
    requires InteriorsOk(tcx, body) && Shaped(tcx, body, d)
    requires ClosedEverywhere(tcx, body, d)
    requires Update(tcx, body, d, p0, t).Some?
    ensures var joined := Join(d.places[p0], t);
            ClosedEverywhere(tcx, body, Update(tcx, body, d, p0, t).value) <==>
            ((exists ty :: ty in TypesOf(joined) && IsRef(ty)) ==>
               PointeesKnownInside(tcx, body, d, p0, joined))
  {
    var joined := Join(d.places[p0], t);
    var d' := Update(tcx, body, d, p0, t).value;
    var to := DerefOf(p0);
    UpdateKeepsShape(tcx, body, d, p0, t);
    forall p, q | p in body.places && q in tcx.interiorPaths(body, p) && (p != to || to !in Targets(tcx, body, p0, joined))
      ensures ClosedAt(tcx, d', p, q)
    {
      assert ClosedAt(tcx, d, p, q);
      if p == p0 {
        UpdatedPlaceIsClosed(tcx, body, d, p0, t, q);
      } else if p in tcx.interiorPaths(body, p0) {
        InteriorStaysClosed(tcx, body, d, p0, t, p, q);
      } else {
        OtherStaysClosed(tcx, body, d, p0, t, p, q);
      }
    }
    if to in Targets(tcx, body, p0, joined) {
      assert to.proj[|p0.proj|] == Deref;
      assert to !in tcx.interiorPaths(body, p0);
      assert exists ty :: ty in TypesOf(joined) && IsRef(ty);
      UpdateAt(tcx, body, d, p0, t, to);
      TargetClosedExactly(tcx, body, d, p0, t);
    } else {
      assert !exists ty :: ty in TypesOf(joined) && IsRef(ty);
    }
  }

  /** What lies behind a reference in `p` is not inside `p`. */
  lemma BehindReference(tcx: Tcx, body: Body, p: Place, q: Place)
    requires InteriorsOk(tcx, body) && p in body.places
    requires |p.proj| < |q.proj| && q.proj[|p.proj|] == Deref
    ensures q !in tcx.interiorPaths(body, p)
  {
  }

  /** Places inside the target of `p0` are out of reach of an update of `p0`. */
  lemma BeyondTheTarget(tcx: Tcx, body: Body, d: Domain, p0: Place, t: TrackedTy, q: Place)
    requires InteriorsOk(tcx, body) && Shaped(tcx, body, d)
    requires Update(tcx, body, d, p0, t).Some?
    requires DerefOf(p0) in body.places && q in tcx.interiorPaths(body, DerefOf(p0)) && q != DerefOf(p0)
    ensures q in body.places && q in Update(tcx, body, d, p0, t).value.places
    ensures Update(tcx, body, d, p0, t).value.places[q] == d.places[q]
  {
    var to := DerefOf(p0);
    assert Extends(to, q);
    assert q.proj[|p0.proj|] == to.proj[|p0.proj|];
    BehindReference(tcx, body, p0, q);
    UpdateAt(tcx, body, d, p0, t, q);
  }

  lemma ClosedAfterGrowing(tcx: Tcx, d: Domain, d': Domain, p: Place, q: Place, added: set<Ty>)
    requires ClosedAt(tcx, d, p, q) && d.places[p].Erased?
    requires p in d'.places && d'.places[p] == Erased(d.places[p].deps + added)
    requires q in d'.places && d'.places[q] == d.places[q]
    ensures ClosedAt(tcx, d', p, q) <==>
            (d.places[q].Erased? ==>
               forall u | u in added ::
                 var x := ProjectTy(tcx, u, VariantOf(p), Tail(p, q));
                 x.Some? && x.value in d.places[q].deps)
  {
  }

  lemma TargetClosedAtExactly(tcx: Tcx, body: Body, d: Domain, p0: Place, t: TrackedTy, q: Place)
    requires InteriorsOk(tcx, body) && Shaped(tcx, body, d)
    requires Update(tcx, body, d, p0, t).Some?
    requires DerefOf(p0) in Targets(tcx, body, p0, Join(d.places[p0], t))
    requires q in tcx.interiorPaths(body, DerefOf(p0)) && q != DerefOf(p0)
    requires ClosedAt(tcx, d, DerefOf(p0), q) && d.places[DerefOf(p0)].Erased?
    ensures ClosedAt(tcx, Update(tcx, body, d, p0, t).value, DerefOf(p0), q) <==>
            PointeesKnownAt(tcx, d, p0, Join(d.places[p0], t), q)
  {
    var joined := Join(d.places[p0], t);
    var d' := Update(tcx, body, d, p0, t).value;
    var to := DerefOf(p0);
    UpdateAt(tcx, body, d, p0, t, to);
    var pointees := ProjectTracked(tcx, joined, p0, to).value;
    assert to != p0;
    BeyondTheTarget(tcx, body, d, p0, t, q);
    ClosedAfterGrowing(tcx, d, d', to, q, TypesOf(pointees));
  }

  lemma TargetSelfClosed(tcx: Tcx, body: Body, d: Domain, p: Place)
    requires Shaped(tcx, body, d) && p in d.places
    requires d.places[p].Erased?
    ensures ClosedAt(tcx, d, p, p)
  {
    assert Tail(p, p) == [];
    forall u ensures ProjectTy(tcx, u, VariantOf(p), Tail(p, p)) == Some(u) {
    }
  }

  lemma TargetClosedExactly(tcx: Tcx, body: Body, d: Domain, p0: Place, t: TrackedTy)
    requires InteriorsOk(tcx, body) && Shaped(tcx, body, d)
    requires ClosedEverywhere(tcx, body, d)
    requires Update(tcx, body, d, p0, t).Some?
    requires DerefOf(p0) in Targets(tcx, body, p0, Join(d.places[p0], t))
    ensures PointeesKnownInside(tcx, body, d, p0, Join(d.places[p0], t)) <==>
            forall q | q in tcx.interiorPaths(body, DerefOf(p0)) ::
              ClosedAt(tcx, Update(tcx, body, d, p0, t).value, DerefOf(p0), q)
  {
    var d' := Update(tcx, body, d, p0, t).value;
    var to := DerefOf(p0);
    UpdateKeepsShape(tcx, body, d, p0, t);
    UpdateAt(tcx, body, d, p0, t, to);
    if d.places[to].Present? {
      forall q | q in tcx.interiorPaths(body, to) ensures ClosedAt(tcx, d', to, q) {
        PresentProjects(tcx, body, d', to, q);
      }
    } else {
      ErasedTargetClosedExactly(tcx, body, d, p0, t);
    }
  }

  lemma ErasedTargetClosedExactly(tcx: Tcx, body: Body, d: Domain, p0: Place, t: TrackedTy)
    requires InteriorsOk(tcx, body) && Shaped(tcx, body, d)
    requires ClosedEverywhere(tcx, body, d)
    requires Update(tcx, body, d, p0, t).Some?
    requires DerefOf(p0) in Targets(tcx, body, p0, Join(d.places[p0], t))
    requires DerefOf(p0) in d.places && d.places[DerefOf(p0)].Erased?
    ensures PointeesKnownInside(tcx, body, d, p0, Join(d.places[p0], t)) <==>
            forall q | q in tcx.interiorPaths(body, DerefOf(p0)) ::
              ClosedAt(tcx, Update(tcx, body, d, p0, t).value, DerefOf(p0), q)
  {
    var to, d' := DerefOf(p0), Update(tcx, body, d, p0, t).value;
    UpdateKeepsShape(tcx, body, d, p0, t);
    UpdateInflates(tcx, body, d, p0, t);
    TargetSelfClosed(tcx, body, d', to);
    forall q | q in tcx.interiorPaths(body, to) && q != to
      ensures ClosedAt(tcx, d', to, q) <==> PointeesKnownAt(tcx, d, p0, Join(d.places[p0], t), q)
    {
      assert ClosedAt(tcx, d, to, q);
      TargetClosedAtExactly(tcx, body, d, p0, t, q);
    }
  }

  // ---------------------------------------------------------------------------------------
  // Augmentation

  /** What augmenting a tracked place leaves in it and inside it. */
  lemma AugmentAt(tcx: Tcx, body: Body, d: Domain, p: Place, t: TrackedTy, q: Place)
    requires InteriorsOk(tcx, body) && p in d.places && d.places.Keys == body.places && q in tcx.interiorPaths(body, p)
    requires Augment(tcx, body, d, p, t).Some? && q != p
    ensures var d' := Augment(tcx, body, d, p, t).value;
            && p in d'.places && d'.places[p] == Join(d.places[p], t)
            && q in d'.places && ProjectTracked(tcx, t, p, q).Some?
            && d'.places[q] == Join(d.places[q], ProjectTracked(tcx, t, p, q).value)
  {
    assert Projectable(tcx, body, p, t);
    assert q in Targets(tcx, body, p, t);
    assert DerefOf(p) != p;
    if p in tcx.interiorPaths(body, p) {
      assert Tail(p, p) == [];
      forall ty ensures ProjectTy(tcx, ty, VariantOf(p), Tail(p, p)) == Some(ty) {
      }
      assert TypesOf(ProjectTracked(tcx, t, p, p).value) <= TypesOf(t);
      JoinLaws(Join(d.places[p], t), ProjectTracked(tcx, t, p, p).value);
    }
  }

  /** Arguments and captured variables are propagated by their own type, not by what the place then
      holds. A `Present` type arriving at a place that tracks a set keeps the closure exactly when
      its projection hides nothing, or is tracked already: a field that hides something (a raw
      pointer inside a vector, say) is not propagated. */
  lemma AugmentKeepsClosureExactly(tcx: Tcx, body: Body, d: Domain, p: Place, t: TrackedTy, q: Place)
    requires InteriorsOk(tcx, body) && Shaped(tcx, body, d)
    requires p in body.places && d.places[p].Erased? && q in tcx.interiorPaths(body, p) && q != p
    requires ClosedAt(tcx, d, p, q) && Augment(tcx, body, d, p, t).Some?
    ensures ClosedAt(tcx, Augment(tcx, body, d, p, t).value, p, q) <==>
            (t.Present? && d.places[q].Erased? ==>
               var y := ProjectTy(tcx, t.ty, VariantOf(p), Tail(p, q));
               y.Some? && (!ContainsErased(y.value) || y.value in d.places[q].deps))
  {
    AugmentAt(tcx, body, d, p, t, q);
    if d.places[q].Erased? {
      var arriving := TypesOf(ProjectTracked(tcx, t, p, q).value);
      ClosedAfterBothGrow(tcx, d, Augment(tcx, body, d, p, t).value, p, q, TypesOf(t), arriving);
    }
  }
}
