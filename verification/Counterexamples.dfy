/** Concrete inputs on which properties fail that one would expect to hold. When exactly they hold is
    stated next to the operations. */
module Counterexamples {
  import opened Options
  import opened Types
  import opened TrackedTypes
  import opened Mir
  import opened Domains
  import opened CollectorDomains
  import opened ProjectionClosure
  import opened Transfers
  import opened TypeSoundness
  import opened PathTypes

  const I32 := Ty(Prim(7), [])
  const DYN := Ty(Dynamic(5), [])
  const GENERIC := Ty(Param(0), [])

  lemma HidesOrNot()
    ensures FromTy(I32) == Present(I32) && FromTy(BOOL) == Present(BOOL) && FromTy(DYN) == Erased({}) && FromTy(GENERIC) == Erased({})
  {
  }

  /** A known type in the middle swallows what comes after it. */
  lemma JoinIsNotAssociative()
    ensures var none, i32, bool_ := Erased({}), Present(I32), Present(BOOL);
            Join(Join(none, i32), bool_) == Erased({I32, BOOL}) && Join(none, Join(i32, bool_)) == Erased({I32})
  {
  }

  /** `(x, 1)`, with nothing known about `x`, is spread into a single field. */
  lemma PackingLosesTheArity()
    ensures SpreadTuple(Pack([Erased({}), Present(I32)])) == Some([Erased({})])
  {
    PackNothing([Erased({}), Present(I32)], 0);
  }

  // ---------------------------------------------------------------------------------------
  // Taking an address

  /** Of the address of a place of known type nothing is tracked. */
  lemma AddressIsNotTracked(tcx: Tcx, body: Body, d: Domain, actual: RealTypes, p: Place)
    requires p in d.places && d.places[p] == Present(I32) && actual(p) == I32
    ensures RvalueTracked(tcx, body, [], d, AddressOf(true, p)) == Some(Erased({}))
    ensures RealRvalue(tcx, [], actual, AddressOf(true, p)) == Some(Ty(RawPtr(true), [I32]))
  {
    assert Map(Present(I32), ty => Ty(RawPtr(true), [ty])) == FromTy(Ty(RawPtr(true), [I32]));
    assert Any(Ty(RawPtr(true), [I32]), IsErasingHead);
    assert !Any(I32, IsClosureHead);
    forall k | 0 <= k < |[I32]| ensures !Any([I32][k], IsClosureHead) {
    }
    assert !ContainsClosure(Ty(RawPtr(true), [I32]));
  }

  // ---------------------------------------------------------------------------------------
  // Converting

  const U8 := Ty(Prim(2), [])
  const U64 := Ty(Prim(3), [])

  /** `x as u64`, with `x` known to be a `u8`, is tracked as a `u8`. Assigned to a place declared as `u64` it is
      tracked as what it is. */
  lemma ConversionIsNotTracked(tcx: Tcx, body: Body, d: Domain, actual: RealTypes, x: Place, y: Place)
    requires x in d.places && d.places[x] == Present(U8) && actual(x) == U8
    requires y in d.places && d.places[y] == Present(U64)
    ensures var rvalue := Cast(Conversion, Copy(x), U64);
            && RvalueTracked(tcx, body, [], d, rvalue) == Some(Present(U8)) && RealRvalue(tcx, [], actual, rvalue) == Some(U64)
            && !Admits(Present(U8), U64) && !TakesHidingConstant(rvalue) && !Rebuilt(tcx, body, d, rvalue)
            && (StatementEffect(tcx, body, [], d, Assign(y, rvalue)).Some? ==>
                  Admits(StatementEffect(tcx, body, [], d, Assign(y, rvalue)).value.places[y], U64))
  {
    var rvalue := Cast(Conversion, Copy(x), U64);
    if StatementEffect(tcx, body, [], d, Assign(y, rvalue)).Some? {
      AssignmentAdmitsExactly(tcx, body, [], d, actual, y, rvalue);
    }
  }

  // ---------------------------------------------------------------------------------------
  // Propagating by hand

  /** A projection by one element, and by none. */
  lemma ProjectOne(tcx: Tcx, ty: Ty, variant: Option<nat>, e: Elem)
    requires Project(tcx, PlaceTy(ty, variant), e).Some?
    ensures ProjectTy(tcx, ty, variant, [e]) == Some(Project(tcx, PlaceTy(ty, variant), e).value.ty)
    ensures ProjectTy(tcx, ty, variant, []) == Some(ty)
  {
    assert forall y :: ProjectAll(tcx, y, [e][1..]) == Some(y);
  }

  /** A set of one type projects to the set of its projection. */
  lemma ProjectSingle(tcx: Tcx, ty: Ty, p: Place, q: Place, y: Ty)
    requires ProjectTy(tcx, ty, VariantOf(p), Tail(p, q)) == Some(y)
    ensures ProjectTracked(tcx, Erased({ty}), p, q) == Some(Erased({y}))
    ensures ProjectTracked(tcx, Erased({}), p, q) == Some(Erased({}))
  {
    var single := ProjectTracked(tcx, Erased({ty}), p, q);
    assert single.Some? && ty in {ty};
    assert single.value.deps == {y};
    assert ProjectTracked(tcx, Erased({}), p, q).value.deps == {};
  }

  lemma ProjectDouble(tcx: Tcx, a: Ty, b: Ty, p: Place, q: Place, x: Ty, y: Ty)
    requires ProjectTy(tcx, a, VariantOf(p), Tail(p, q)) == Some(x) && ProjectTy(tcx, b, VariantOf(p), Tail(p, q)) == Some(y)
    ensures ProjectTracked(tcx, Erased({a, b}), p, q) == Some(Erased({x, y}))
  {
    var both := ProjectTracked(tcx, Erased({a, b}), p, q);
    assert both.Some? && a in {a, b} && b in {a, b};
    assert both.value.deps == {x, y};
  }

  lemma ProjectSelf(tcx: Tcx, ty: Ty, p: Place)
    ensures Tail(p, p) == [] && ProjectTy(tcx, ty, VariantOf(p), Tail(p, p)) == Some(ty)
  {
  }

  /** What is propagated, given target by target. */
  lemma PropagatesTo(tcx: Tcx, body: Body, places: map<Place, TrackedTy>, p: Place, t: TrackedTy, paths: map<Place, TrackedTy>)
    requires Targets(tcx, body, p, t) == paths.Keys && paths.Keys <= places.Keys
    requires forall q | q in paths :: ProjectTracked(tcx, t, p, q) == Some(paths[q])
    ensures Domains.Propagate(tcx, body, places, p, t) == Propagated(Contribute(places, paths))
  {
    assert Projections(tcx, body, p, t) == paths;
  }

  /** Propagation to two targets. */
  lemma PropagatesToTwo(tcx: Tcx, body: Body, places: map<Place, TrackedTy>, p: Place, t: TrackedTy,
                        a: Place, at: TrackedTy, b: Place, bt: TrackedTy)
    requires Targets(tcx, body, p, t) == {a, b} && a != b && a in places && b in places
    requires ProjectTracked(tcx, t, p, a) == Some(at) && ProjectTracked(tcx, t, p, b) == Some(bt)
    ensures Domains.Propagate(tcx, body, places, p, t) == Propagated(places[a := Join(places[a], at)][b := Join(places[b], bt)])
  {
    var paths := map[a := at, b := bt];
    PropagatesTo(tcx, body, places, p, t, paths);
    assert Contribute(places, paths) == places[a := Join(places[a], at)][b := Join(places[b], bt)];
  }

  lemma UpdateBy(tcx: Tcx, body: Body, d: Domain, p: Place, t: TrackedTy, places: map<Place, TrackedTy>)
    requires p in d.places
    requires Domains.Propagate(tcx, body, d.places[p := Join(d.places[p], t)], p, Join(d.places[p], t)) == Propagated(places)
    ensures Update(tcx, body, d, p, t) == Some(d.(places := places))
  {
  }

  /** A state in which sets only are tracked, and no type anywhere, is closed. */
  lemma NothingKnownIsClosed(tcx: Tcx, body: Body, d: Domain)
    requires InteriorsOk(tcx, body) && d.places.Keys == body.places && forall p | p in d.places :: d.places[p] == Erased({})
    ensures ClosedEverywhere(tcx, body, d)
  {
    forall p, q | p in body.places && q in tcx.interiorPaths(body, p)
      ensures ClosedAt(tcx, d, p, q)
    {
      assert ProjectTracked(tcx, d.places[p], p, q).value.deps == {};
    }
  }

  // ---------------------------------------------------------------------------------------
  // A reference that is pointed elsewhere

  const DYN_REF := RefTo(false, DYN)
  const I32_REF := RefTo(false, I32)
  const BOOL_REF := RefTo(false, BOOL)
  const PAIR := Ty(Tuple, [DYN_REF, I32])
  const I32_PAIR := Ty(Tuple, [I32_REF, I32])
  const BOOL_PAIR := Ty(Tuple, [BOOL_REF, I32])

  const X := Place(1, [])
  const PAIR_PLACE := Place(1, [Deref])
  const FIRST := Place(1, [Deref, Field(0)])
  const Z := Place(3, [])
  const W := Place(4, [])
  const W_TARGET := Place(4, [Deref])

  const POINT_ELSEWHERE := Assign(X, RefOf(false, Z))
  const READ_FIRST := Assign(W, Use(Copy(FIRST)))

  const PAIR_BODY := Body([Block([POINT_ELSEWHERE, READ_FIRST], OtherTerminator, {})], 1,
                          {X, PAIR_PLACE, FIRST, Z, W, W_TARGET}, {0}, [], 0, false, false)

  /** `x: &(&dyn T, i32)`, `z: (&dyn T, i32)` and `w: &dyn T`, with `x = &z; w = (*x).0`. Places that play
      no role are left out. */
  function PairTcx(): Tcx {
    Tcx(_ => PAIR_BODY,
        (_, p) => if p == X then RefTo(false, PAIR) else if p == PAIR_PLACE || p == Z then PAIR
                  else if p == W_TARGET then DYN else DYN_REF,
        (_, p) => if p == PAIR_PLACE then {PAIR_PLACE, FIRST} else {p},
        (_, _, _, _) => None, _ => [], _ => false, (t, _) => t, t => t, t => t, (_, _) => None,
        _ => false, _ => false, _ => [], _ => [], _ => I32, _ => DYN, _ => None, _ => false)
  }

  /** `x` points to a pair with an `&i32`, `z` holds one with a `&bool`; all of that is known. */
  const PAIR_STATE :=
    Domain(map[X := Erased({RefTo(false, I32_PAIR)}), PAIR_PLACE := Erased({I32_PAIR}), FIRST := Erased({I32_REF}),
               Z := Erased({BOOL_PAIR}), W := Erased({}), W_TARGET := Erased({})], {}, {})

  const POINTED_STATE :=
    Domain(map[X := Erased({RefTo(false, I32_PAIR), RefTo(false, BOOL_PAIR)}), PAIR_PLACE := Erased({I32_PAIR, BOOL_PAIR}),
               FIRST := Erased({I32_REF}), Z := Erased({BOOL_PAIR}), W := Erased({}), W_TARGET := Erased({})], {}, {})

  const READ_STATE :=
    Domain(map[X := Erased({RefTo(false, I32_PAIR), RefTo(false, BOOL_PAIR)}), PAIR_PLACE := Erased({I32_PAIR, BOOL_PAIR}),
               FIRST := Erased({I32_REF}), Z := Erased({BOOL_PAIR}), W := Erased({I32_REF}), W_TARGET := Erased({I32})], {}, {})

  lemma PairHides()
    ensures ContainsErased(DYN) && ContainsErased(DYN_REF) && ContainsErased(PAIR) && ContainsErased(RefTo(false, PAIR))
  {
    assert PAIR.args[0] == DYN_REF && PAIR.args[1] == I32 && DYN_REF.args == [ERASED, DYN] && RefTo(false, PAIR).args == [ERASED, PAIR];
    assert !ContainsClosure(ERASED);
    assert !ContainsClosure(DYN) && !ContainsClosure(I32) && !ContainsClosure(DYN_REF);
    assert !ContainsClosure(PAIR) && !ContainsClosure(RefTo(false, PAIR));
    assert Any(DYN_REF.args[1], IsErasingHead) && Any(PAIR.args[0], IsErasingHead) && Any(RefTo(false, PAIR).args[1], IsErasingHead);
  }

  lemma PairProjections()
    ensures Tail(X, PAIR_PLACE) == [Deref] && Tail(PAIR_PLACE, FIRST) == [Field(0)] && Tail(W, W_TARGET) == [Deref]
    ensures ProjectTy(PairTcx(), PAIR, None, [Field(0)]) == Some(DYN_REF)
    ensures ProjectTy(PairTcx(), I32_PAIR, None, [Field(0)]) == Some(I32_REF)
    ensures ProjectTy(PairTcx(), BOOL_PAIR, None, [Field(0)]) == Some(BOOL_REF)
    ensures ProjectTy(PairTcx(), RefTo(false, I32_PAIR), None, [Deref]) == Some(I32_PAIR)
    ensures ProjectTy(PairTcx(), RefTo(false, BOOL_PAIR), None, [Deref]) == Some(BOOL_PAIR)
    ensures ProjectTy(PairTcx(), I32_REF, None, [Deref]) == Some(I32)
  {
    ProjectOne(PairTcx(), PAIR, None, Field(0));
    ProjectOne(PairTcx(), I32_PAIR, None, Field(0));
    ProjectOne(PairTcx(), BOOL_PAIR, None, Field(0));
    ProjectOne(PairTcx(), RefTo(false, I32_PAIR), None, Deref);
    ProjectOne(PairTcx(), RefTo(false, BOOL_PAIR), None, Deref);
    ProjectOne(PairTcx(), I32_REF, None, Deref);
  }

  lemma PairIsShaped()
    ensures Shaped(PairTcx(), PAIR_BODY, PAIR_STATE)
  {
    PairHides();
  }

  lemma PairInteriors(p: Place, q: Place)
    requires p in PAIR_BODY.places && q in PairTcx().interiorPaths(PAIR_BODY, p)
    ensures q in PAIR_BODY.places && Extends(p, q)
    ensures forall k | |p.proj| <= k < |q.proj| :: q.proj[k] != Deref
    ensures ProjectTy(PairTcx(), PairTcx().placeTy(PAIR_BODY, p), VariantOf(p), Tail(p, q)) == Some(PairTcx().placeTy(PAIR_BODY, q))
  {
    ProjectSelf(PairTcx(), PairTcx().placeTy(PAIR_BODY, p), p);
    if p != q {
      PairProjections();
    }
  }

  lemma PairIsWellFormed()
    ensures InteriorsOk(PairTcx(), PAIR_BODY)
  {
    var tcx := PairTcx();
    forall p, q | p in PAIR_BODY.places && q in tcx.interiorPaths(PAIR_BODY, p)
      ensures q in PAIR_BODY.places && Extends(p, q)
      ensures forall k | |p.proj| <= k < |q.proj| :: q.proj[k] != Deref
      ensures ProjectTy(tcx, tcx.placeTy(PAIR_BODY, p), VariantOf(p), Tail(p, q)) == Some(tcx.placeTy(PAIR_BODY, q))
    {
      PairInteriors(p, q);
    }
  }

  lemma FirstIsClosed(d: Domain)
    requires PAIR_PLACE in d.places && d.places[PAIR_PLACE] == Erased({I32_PAIR})
    requires FIRST in d.places && d.places[FIRST] == Erased({I32_REF})
    ensures ClosedAt(PairTcx(), d, PAIR_PLACE, FIRST)
  {
    PairProjections();
    ProjectSingle(PairTcx(), I32_PAIR, PAIR_PLACE, FIRST, I32_REF);
  }

  lemma PairIsClosed()
    ensures ClosedEverywhere(PairTcx(), PAIR_BODY, PAIR_STATE)
  {
    PairIsShaped();
    FirstIsClosed(PAIR_STATE);
    forall p, q | p in PAIR_BODY.places && q in PairTcx().interiorPaths(PAIR_BODY, p)
      ensures ClosedAt(PairTcx(), PAIR_STATE, p, q)
    {
      if p == q {
        assert PAIR_STATE.places[p].Erased?;
        TargetSelfClosed(PairTcx(), PAIR_BODY, PAIR_STATE, p);
      }
    }
  }

  lemma PointedTargets()
    ensures Targets(PairTcx(), PAIR_BODY, X, Erased({RefTo(false, I32_PAIR), RefTo(false, BOOL_PAIR)})) == {X, PAIR_PLACE}
  {
    var r, t := RefTo(false, I32_PAIR), Erased({RefTo(false, I32_PAIR), RefTo(false, BOOL_PAIR)});
    assert IsRef(r) && r in TypesOf(t) && DerefOf(X) == PAIR_PLACE;
  }

  lemma PointedContribution(both: TrackedTy, pairs: TrackedTy)
    requires both == Erased({RefTo(false, I32_PAIR), RefTo(false, BOOL_PAIR)}) && pairs == Erased({I32_PAIR, BOOL_PAIR})
    ensures var places := PAIR_STATE.places[X := both];
            && X in places && PAIR_PLACE in places
            && places[X := Join(places[X], both)][PAIR_PLACE := Join(places[PAIR_PLACE], pairs)] == POINTED_STATE.places
  {
    assert Join(both, both) == both && Join(Erased({I32_PAIR}), pairs) == pairs;
  }

  lemma PointedProjections()
    ensures var both := Erased({RefTo(false, I32_PAIR), RefTo(false, BOOL_PAIR)});
            && ProjectTracked(PairTcx(), both, X, X) == Some(both)
            && ProjectTracked(PairTcx(), both, X, PAIR_PLACE) == Some(Erased({I32_PAIR, BOOL_PAIR}))
  {
    var tcx, before, now := PairTcx(), RefTo(false, I32_PAIR), RefTo(false, BOOL_PAIR);
    PairProjections();
    ProjectSelf(tcx, before, X);
    ProjectSelf(tcx, now, X);
    ProjectDouble(tcx, before, now, X, X, before, now);
    ProjectDouble(tcx, before, now, X, PAIR_PLACE, I32_PAIR, BOOL_PAIR);
  }

  lemma PointedPropagation()
    ensures var both := Erased({RefTo(false, I32_PAIR), RefTo(false, BOOL_PAIR)});
            Domains.Propagate(PairTcx(), PAIR_BODY, PAIR_STATE.places[X := both], X, both) == Propagated(POINTED_STATE.places)
  {
    var both, pairs := Erased({RefTo(false, I32_PAIR), RefTo(false, BOOL_PAIR)}), Erased({I32_PAIR, BOOL_PAIR});
    PointedProjections();
    PointedTargets();
    PointedContribution(both, pairs);
    PropagatesToTwo(PairTcx(), PAIR_BODY, PAIR_STATE.places[X := both], X, both, X, both, PAIR_PLACE, pairs);
  }

  lemma PointedRvalue()
    ensures RvalueTracked(PairTcx(), PAIR_BODY, [], PAIR_STATE, RefOf(false, Z)) == Some(Erased({RefTo(false, BOOL_PAIR)}))
  {
    assert PAIR_STATE.places[Z] == Erased({BOOL_PAIR});
    MapSingle(BOOL_PAIR, ty => RefTo(false, ty));
  }

  lemma MapSingle(x: Ty, f: Ty -> Ty)
    ensures Map(Erased({x}), f) == Erased({f(x)})
  {
    assert x in {x} && Map(Erased({x}), f).deps == {f(x)};
  }

  lemma PointedJoin()
    ensures X in PAIR_STATE.places
    ensures Join(PAIR_STATE.places[X], Erased({RefTo(false, BOOL_PAIR)})) == Erased({RefTo(false, I32_PAIR), RefTo(false, BOOL_PAIR)})
  {
  }

  /** `x = &z` */
  lemma PointElsewhere()
    ensures Update(PairTcx(), PAIR_BODY, PAIR_STATE, X, Erased({RefTo(false, BOOL_PAIR)})) == Some(POINTED_STATE)
    ensures StatementEffect(PairTcx(), PAIR_BODY, [], PAIR_STATE, POINT_ELSEWHERE) == Some(POINTED_STATE)
  {
    PointedRvalue();
    PointedJoin();
    PointedPropagation();
    UpdateBy(PairTcx(), PAIR_BODY, PAIR_STATE, X, Erased({RefTo(false, BOOL_PAIR)}), POINTED_STATE.places);
  }

  /** Assigning a reference to `(&bool, i32)` makes the pair known behind the reference, but not its field. */
  lemma FieldBehindReferenceLags()
    ensures InteriorsOk(PairTcx(), PAIR_BODY) && Shaped(PairTcx(), PAIR_BODY, PAIR_STATE)
    ensures ClosedEverywhere(PairTcx(), PAIR_BODY, PAIR_STATE)
    ensures Update(PairTcx(), PAIR_BODY, PAIR_STATE, X, Erased({RefTo(false, BOOL_PAIR)})) == Some(POINTED_STATE)
    ensures !ClosedAt(PairTcx(), POINTED_STATE, PAIR_PLACE, FIRST)
  {
    PairIsWellFormed();
    PairIsShaped();
    PairIsClosed();
    PointElsewhere();
    FirstLags(POINTED_STATE);
  }

  lemma FirstLags(d: Domain)
    requires PAIR_PLACE in d.places && d.places[PAIR_PLACE] == Erased({I32_PAIR, BOOL_PAIR})
    requires FIRST in d.places && d.places[FIRST] == Erased({I32_REF})
    ensures !ClosedAt(PairTcx(), d, PAIR_PLACE, FIRST)
  {
    PairProjections();
    ProjectDouble(PairTcx(), I32_PAIR, BOOL_PAIR, PAIR_PLACE, FIRST, I32_REF, BOOL_REF);
    assert BOOL_REF in {I32_REF, BOOL_REF} && BOOL_REF !in {I32_REF};
  }

  lemma ReadTargets()
    ensures Targets(PairTcx(), PAIR_BODY, W, Erased({I32_REF})) == {W, W_TARGET}
  {
    assert IsRef(I32_REF) && I32_REF in TypesOf(Erased({I32_REF})) && DerefOf(W) == W_TARGET;
  }

  lemma ReadContribution(t: TrackedTy)
    requires t == Erased({I32_REF})
    ensures POINTED_STATE.places[W := t][W := t][W_TARGET := Erased({I32})] == READ_STATE.places
    ensures Join(t, t) == t && Join(Erased({}), Erased({I32})) == Erased({I32})
  {
  }

  lemma ReadPropagation()
    ensures var t := Erased({I32_REF});
            Domains.Propagate(PairTcx(), PAIR_BODY, POINTED_STATE.places[W := t], W, t) == Propagated(READ_STATE.places)
  {
    var tcx, t := PairTcx(), Erased({I32_REF});
    PairProjections();
    ProjectSelf(tcx, I32_REF, W);
    ProjectSingle(tcx, I32_REF, W, W, I32_REF);
    ProjectSingle(tcx, I32_REF, W, W_TARGET, I32);
    ReadTargets();
    PropagatesToTwo(tcx, PAIR_BODY, POINTED_STATE.places[W := t], W, t, W, t, W_TARGET, Erased({I32}));
    ReadContribution(t);
  }

  lemma ReadJoin()
    ensures W in POINTED_STATE.places && Join(POINTED_STATE.places[W], Erased({I32_REF})) == Erased({I32_REF})
    ensures RvalueTracked(PairTcx(), PAIR_BODY, [], POINTED_STATE, Use(Copy(FIRST))) == Some(Erased({I32_REF}))
  {
  }

  /** `w = (*x).0` */
  lemma ReadFirst()
    ensures StatementEffect(PairTcx(), PAIR_BODY, [], POINTED_STATE, READ_FIRST) == Some(READ_STATE)
  {
    ReadJoin();
    ReadPropagation();
    UpdateBy(PairTcx(), PAIR_BODY, POINTED_STATE, W, Erased({I32_REF}), READ_STATE.places);
  }

  /** The types when the locals have these types, and all other locals are booleans. */
  function TypesWhen(x: Ty, w: Ty): RealTypes {
    (p: Place) =>
      var local := if p.local == 1 then x else if p.local == 3 then BOOL_PAIR else if p.local == 4 then w else BOOL;
      var ty := ProjectTy(PairTcx(), local, None, p.proj);
      if ty.Some? then ty.value else BOOL
  }

  lemma {:induction false} NothingInsideBool(variant: Option<nat>, tail: seq<Elem>)
    ensures var pty := ProjectAll(PairTcx(), PlaceTy(BOOL, variant), tail);
            pty.Some? ==> pty.value.ty == BOOL
    decreases |tail|
  {
    if tail != [] {
      var next := Project(PairTcx(), PlaceTy(BOOL, variant), tail[0]);
      if next.Some? {
        assert next.value.ty == BOOL;
        NothingInsideBool(next.value.variant, tail[1..]);
      }
    }
  }

  /** These types fit together. */
  lemma TypesFit(x: Ty, w: Ty)
    ensures IsMoment(PairTcx(), PAIR_STATE, TypesWhen(x, w))
  {
    var tcx, types := PairTcx(), TypesWhen(x, w);
    forall p, q | Extends(p, q) && Inside(tcx, p, types(p), q).Some?
      ensures Fits(types(q), Inside(tcx, p, types(p), q).value)
    {
      TypesFitAt(x, w, p, q);
    }
  }

  lemma TypesFitAt(x: Ty, w: Ty, p: Place, q: Place)
    requires Extends(p, q) && Inside(PairTcx(), p, TypesWhen(x, w)(p), q).Some?
    ensures TypesWhen(x, w)(q) == Inside(PairTcx(), p, TypesWhen(x, w)(p), q).value
  {
    var tcx, root := PairTcx(), Place(p.local, []);
    var local := if p.local == 1 then x else if p.local == 3 then BOOL_PAIR else if p.local == 4 then w else BOOL;
    assert Tail(root, p) == p.proj && Tail(root, q) == q.proj;
    if ProjectTy(tcx, local, None, p.proj).Some? {
      ProjectThrough(tcx, local, root, p, q);
    } else {
      assert q.proj == p.proj + Tail(p, q);
      ProjectAllComposes(tcx, PlaceTy(local, None), p.proj, Tail(p, q));
      NothingInsideBool(VariantOf(p), Tail(p, q));
    }
  }

  /** Reading through a reference after pointing it elsewhere can lose the type: the analysis ends with
      `&i32` alone for `w`, which holds a `&bool` in every execution from where `z` holds one; and there
      is such an execution. Before, everything that is read was known. */
  lemma StaleRead()
    ensures StatementEffect(PairTcx(), PAIR_BODY, [], PAIR_STATE, POINT_ELSEWHERE) == Some(POINTED_STATE)
    ensures StatementEffect(PairTcx(), PAIR_BODY, [], POINTED_STATE, READ_FIRST) == Some(READ_STATE)
    ensures forall a, b, c | RunsStaleRead(a, b, c) && a(Z) == BOOL_PAIR :: c(W) == BOOL_REF && !Admits(READ_STATE.places[W], c(W))
    ensures var a, b, c := TypesWhen(RefTo(false, I32_PAIR), BOOL), TypesWhen(RefTo(false, BOOL_PAIR), BOOL),
                           TypesWhen(RefTo(false, BOOL_PAIR), BOOL_REF);
            RunsStaleRead(a, b, c) && a(Z) == BOOL_PAIR && KnownTypes(PAIR_STATE, a, {X, PAIR_PLACE, FIRST, Z})
  {
    PointElsewhere();
    ReadFirst();
    forall a, b, c | RunsStaleRead(a, b, c) && a(Z) == BOOL_PAIR
      ensures c(W) == BOOL_REF && !Admits(READ_STATE.places[W], c(W))
    {
      EveryRunReadsBool(a, b, c);
    }
    RunExists();
  }

  /** Both statements are executed. */
  ghost predicate RunsStaleRead(a: RealTypes, b: RealTypes, c: RealTypes) {
    var tcx := PairTcx();
    && IsMoment(tcx, PAIR_STATE, a) && IsMoment(tcx, PAIR_STATE, b) && IsMoment(tcx, PAIR_STATE, c)
    && Executes(tcx, PAIR_BODY, [], PAIR_STATE, a, POINT_ELSEWHERE, b) && Executes(tcx, PAIR_BODY, [], PAIR_STATE, b, READ_FIRST, c)
  }

  lemma BoolsHideNothing()
    ensures !ContainsErased(BOOL_REF) && !ContainsErased(BOOL_PAIR)
  {
    assert !Any(BOOL, IsErasingHead) && !Any(I32, IsErasingHead) && !Any(ERASED, IsErasingHead);
    assert BOOL_REF.args == [ERASED, BOOL] && BOOL_PAIR.args == [BOOL_REF, I32];
    assert !Any(BOOL_REF, IsErasingHead);
  }

  lemma EveryRunReadsBool(a: RealTypes, b: RealTypes, c: RealTypes)
    requires RunsStaleRead(a, b, c) && a(Z) == BOOL_PAIR
    ensures c(W) == BOOL_REF && !Admits(READ_STATE.places[W], c(W))
  {
    PairProjections();
    BoolsHideNothing();
    assert b(X) == RefTo(false, BOOL_PAIR);
    assert Extends(X, PAIR_PLACE) && Inside(PairTcx(), X, b(X), PAIR_PLACE) == Some(BOOL_PAIR);
    assert Extends(PAIR_PLACE, FIRST) && Inside(PairTcx(), PAIR_PLACE, b(PAIR_PLACE), FIRST) == Some(BOOL_REF);
    assert c(W) == b(FIRST);
    assert BOOL_REF != I32_REF;
  }

  lemma TypesAre(x: Ty, w: Ty)
    ensures TypesWhen(x, w)(X) == x && TypesWhen(x, w)(Z) == BOOL_PAIR && TypesWhen(x, w)(W) == w
  {
    ProjectSelf(PairTcx(), x, X);
    ProjectSelf(PairTcx(), BOOL_PAIR, Z);
    ProjectSelf(PairTcx(), w, W);
  }

  lemma TypesBehind(w: Ty)
    ensures var types := TypesWhen(RefTo(false, I32_PAIR), w); types(PAIR_PLACE) == I32_PAIR && types(FIRST) == I32_REF
    ensures TypesWhen(RefTo(false, BOOL_PAIR), w)(FIRST) == BOOL_REF
  {
    var tcx := PairTcx();
    PairProjections();
    TypesAre(RefTo(false, I32_PAIR), w);
    TypesAre(RefTo(false, BOOL_PAIR), w);
    assert Extends(X, PAIR_PLACE) && Extends(PAIR_PLACE, FIRST);
    TypesFitAt(RefTo(false, I32_PAIR), w, X, PAIR_PLACE);
    TypesFitAt(RefTo(false, I32_PAIR), w, PAIR_PLACE, FIRST);
    TypesFitAt(RefTo(false, BOOL_PAIR), w, X, PAIR_PLACE);
    TypesFitAt(RefTo(false, BOOL_PAIR), w, PAIR_PLACE, FIRST);
  }

  lemma PointingExecutes()
    ensures Executes(PairTcx(), PAIR_BODY, [], PAIR_STATE, TypesWhen(RefTo(false, I32_PAIR), BOOL), POINT_ELSEWHERE, TypesWhen(RefTo(false, BOOL_PAIR), BOOL))
  {
    var a, b := TypesWhen(RefTo(false, I32_PAIR), BOOL), TypesWhen(RefTo(false, BOOL_PAIR), BOOL);
    TypesAre(RefTo(false, I32_PAIR), BOOL);
    TypesAre(RefTo(false, BOOL_PAIR), BOOL);
    forall q | !MayChange(PairTcx(), PAIR_BODY, a, X, q) ensures b(q) == a(q) {
      assert !Extends(X, q);
    }
  }

  lemma ReadingExecutes()
    ensures Executes(PairTcx(), PAIR_BODY, [], PAIR_STATE, TypesWhen(RefTo(false, BOOL_PAIR), BOOL), READ_FIRST, TypesWhen(RefTo(false, BOOL_PAIR), BOOL_REF))
  {
    var b, c := TypesWhen(RefTo(false, BOOL_PAIR), BOOL), TypesWhen(RefTo(false, BOOL_PAIR), BOOL_REF);
    TypesAre(RefTo(false, BOOL_PAIR), BOOL_REF);
    TypesBehind(BOOL);
    forall q | !MayChange(PairTcx(), PAIR_BODY, b, W, q) ensures c(q) == b(q) {
      assert !Extends(W, q);
    }
  }

  lemma AllIsKnown()
    ensures var a := TypesWhen(RefTo(false, I32_PAIR), BOOL);
            a(Z) == BOOL_PAIR && KnownTypes(PAIR_STATE, a, {X, PAIR_PLACE, FIRST, Z})
  {
    TypesAre(RefTo(false, I32_PAIR), BOOL);
    TypesBehind(BOOL);
  }

  lemma RunExists()
    ensures var a, b, c := TypesWhen(RefTo(false, I32_PAIR), BOOL), TypesWhen(RefTo(false, BOOL_PAIR), BOOL),
                           TypesWhen(RefTo(false, BOOL_PAIR), BOOL_REF);
            RunsStaleRead(a, b, c) && a(Z) == BOOL_PAIR && KnownTypes(PAIR_STATE, a, {X, PAIR_PLACE, FIRST, Z})
  {
    TypesFit(RefTo(false, I32_PAIR), BOOL);
    TypesFit(RefTo(false, BOOL_PAIR), BOOL);
    TypesFit(RefTo(false, BOOL_PAIR), BOOL_REF);
    PointingExecutes();
    ReadingExecutes();
    AllIsKnown();
  }

  // ---------------------------------------------------------------------------------------
  // A raw pointer in a field

  const GENERIC_VEC := Ty(Adt(1), [GENERIC])
  const I32_VEC := Ty(Adt(1), [I32])

  const VEC := Place(1, [])
  const BUFFER := Place(1, [Field(0)])

  const VEC_BODY := Body([], 1, {VEC, BUFFER}, {}, [], 0, false, false)

  function PointerTo(ty: Ty): Ty {
    Ty(RawPtr(true), [ty])
  }

  /** One argument of type `Vec<T>`, with the raw pointer in it. */
  function VecTcx(): Tcx {
    Tcx(_ => VEC_BODY, (_, p) => if p == VEC then GENERIC_VEC else PointerTo(GENERIC),
        (_, p) => if p == VEC then {VEC, BUFFER} else {p},
        (did, _, _, args) => if did == 1 && |args| == 1 then Some(PointerTo(args[0])) else None,
        _ => [], _ => false, (t, _) => t, t => t, t => t, (_, _) => None,
        _ => false, _ => false, _ => [], _ => [], _ => I32, _ => I32, _ => None, _ => false)
  }

  const VEC_STATE := Domain(map[VEC := Erased({}), BUFFER := Erased({})], {}, {})
  const VEC_AFTER := Domain(map[VEC := Erased({I32_VEC}), BUFFER := Erased({})], {}, {})

  lemma VecHides()
    ensures ContainsErased(GENERIC_VEC) && ContainsErased(PointerTo(GENERIC)) && ContainsErased(PointerTo(I32))
    ensures !ContainsErased(I32_VEC)
  {
    assert GENERIC_VEC.args[0] == GENERIC && I32_VEC.args[0] == I32 && PointerTo(GENERIC).args[0] == GENERIC && PointerTo(I32).args[0] == I32;
    assert !ContainsClosure(GENERIC) && !ContainsClosure(I32) && Any(GENERIC, IsErasingHead) && !Any(I32, IsErasingHead);
    assert !ContainsClosure(GENERIC_VEC) && !ContainsClosure(PointerTo(GENERIC)) && !ContainsClosure(PointerTo(I32));
    assert Any(GENERIC_VEC.args[0], IsErasingHead);
  }

  lemma VecProjections()
    ensures Tail(VEC, BUFFER) == [Field(0)]
    ensures ProjectTy(VecTcx(), GENERIC_VEC, None, [Field(0)]) == Some(PointerTo(GENERIC))
    ensures ProjectTy(VecTcx(), I32_VEC, None, [Field(0)]) == Some(PointerTo(I32))
  {
    ProjectOne(VecTcx(), GENERIC_VEC, None, Field(0));
    ProjectOne(VecTcx(), I32_VEC, None, Field(0));
  }

  lemma VecIsWellFormed()
    ensures InteriorsOk(VecTcx(), VEC_BODY) && Shaped(VecTcx(), VEC_BODY, VEC_STATE)
  {
    VecHides();
    VecProjections();
    forall p | p in VEC_BODY.places
      ensures ProjectTy(VecTcx(), VecTcx().placeTy(VEC_BODY, p), VariantOf(p), Tail(p, p)) == Some(VecTcx().placeTy(VEC_BODY, p))
    {
      ProjectSelf(VecTcx(), VecTcx().placeTy(VEC_BODY, p), p);
    }
  }

  lemma VecAugment()
    ensures Augment(VecTcx(), VEC_BODY, VEC_STATE, VEC, Present(I32_VEC)) == Some(VEC_AFTER)
  {
    var tcx, t := VecTcx(), Present(I32_VEC);
    VecHides();
    VecProjections();
    ProjectSelf(tcx, I32_VEC, VEC);
    assert ProjectTracked(tcx, t, VEC, VEC) == Some(t);
    assert ProjectTracked(tcx, t, VEC, BUFFER) == Some(Erased({}));
    PropagatesTo(tcx, VEC_BODY, VEC_STATE.places[VEC := Erased({I32_VEC})], VEC, t, map[VEC := t, BUFFER := Erased({})]);
    VecContribution();
  }

  lemma VecContribution()
    ensures Join(Erased({}), Present(I32_VEC)) == Erased({I32_VEC})
    ensures Contribute(VEC_STATE.places[VEC := Erased({I32_VEC})], map[VEC := Present(I32_VEC), BUFFER := Erased({})]) == VEC_AFTER.places
  {
    assert Join(Erased({I32_VEC}), Present(I32_VEC)) == Erased({I32_VEC});
    assert Join(Erased({}), Erased({})) == Erased({});
  }

  /** When a `Vec<i32>` arrives, the pointer inside it is not tracked. */
  lemma PointerFieldDoesNotArrive()
    ensures InteriorsOk(VecTcx(), VEC_BODY) && Shaped(VecTcx(), VEC_BODY, VEC_STATE)
    ensures ClosedEverywhere(VecTcx(), VEC_BODY, VEC_STATE)
    ensures Augment(VecTcx(), VEC_BODY, VEC_STATE, VEC, Present(I32_VEC)) == Some(VEC_AFTER)
    ensures !ClosedAt(VecTcx(), VEC_AFTER, VEC, BUFFER)
  {
    VecIsWellFormed();
    NothingKnownIsClosed(VecTcx(), VEC_BODY, VEC_STATE);
    VecAugment();
    VecProjections();
    ProjectSingle(VecTcx(), I32_VEC, VEC, BUFFER, PointerTo(I32));
    assert PointerTo(I32) !in VEC_AFTER.places[BUFFER].deps;
  }
}
