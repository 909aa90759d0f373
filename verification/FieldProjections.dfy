/** What the places inside a place are, in the terms of the compiler: fields of variants, tuples and closures,
    pointees and elements, and that an assignment makes their types known. */
module FieldProjections {
  import opened Options
  import opened Types
  import opened TrackedTypes
  import opened Mir
  import opened Domains
  import opened Transfers

  // ---------------------------------------------------------------------------------------
  // One step

  /** In a value of type `ty`, of which `variant` is selected, the element `e` has type `x`. A field of a variant
      is as the definition says for the type's arguments; without a selected variant it is the first one's. An
      associated type is looked into at its own first argument. */
  ghost predicate Holds(tcx: Tcx, ty: Ty, variant: Option<nat>, e: Elem, x: Ty) {
    || (exists did, args, i :: ty == Ty(Adt(did), args) && e == Field(i) && FieldOfAdt(tcx, did, args, variant, i) == Some(x))
    || (exists args, i: nat :: i < |args| && ty == Ty(Tuple, args) && e == Field(i) && x == args[i])
    || (exists did, args, i: nat :: ty == Ty(Closure(did), args) && e == Field(i)
                                    && i < |tcx.upvarTys(ty)| && x == tcx.upvarTys(ty)[i])
    || (exists mutbl, region :: ty == Ty(Ref(mutbl), [region, x]) && e == Deref)
    || (exists mutbl :: ty == Ty(RawPtr(mutbl), [x]) && e == Deref)
    || (exists did, rest :: tcx.isBox(did) && ty == Ty(Adt(did), [x] + rest) && e == Deref)
    || (exists n :: ty == Ty(Array(n), [x]) && e == Index)
    || (ty == Ty(Slice, [x]) && e == Index)
    || (exists id :: e == Other(id) && x == tcx.projectOther(ty, id))
  }

  function FieldOfAdt(tcx: Tcx, did: DefId, args: seq<Ty>, variant: Option<nat>, i: nat): Option<Ty> {
    match variant
    case None => tcx.fieldTy(did, 0, i, args)
    case Some(v) => tcx.fieldTy(did, v, i, args)
  }

  /** A type with as many arguments as its constructor takes. */
  predicate WellFormedTy(ty: Ty) {
    && (ty.head.Ref? ==> |ty.args| == 2)
    && (ty.head.RawPtr? || ty.head.Array? || ty.head.Slice? ==> |ty.args| == 1)
  }

  lemma OneStep(tcx: Tcx, ty: Ty, variant: Option<nat>, e: Elem)
    ensures ProjectTy(tcx, ty, variant, [e]) ==
            match Project(tcx, PlaceTy(ty, variant), e) { case None => None case Some(pty) => Some(pty.ty) }
  {
    assert [e][1..] == [];
    assert forall pty :: ProjectAll(tcx, pty, []) == Some(pty);
  }

  /** A field, a pointee or an element is projected exactly to what lies there. */
  lemma ProjectsExactly(tcx: Tcx, ty: Ty, variant: Option<nat>, e: Elem, x: Ty)
    requires WellFormedTy(ty) && !ty.head.Alias? && !e.Downcast?
    ensures ProjectTy(tcx, ty, variant, [e]) == Some(x) <==> Holds(tcx, ty, variant, e, x)
  {
    OneStep(tcx, ty, variant, e);
    if ProjectTy(tcx, ty, variant, [e]) == Some(x) && !e.Other? {
      match ty.head
      case Ref(_) => assert ty == Ty(ty.head, [ty.args[0], x]);
      case RawPtr(_) => assert ty == Ty(ty.head, [x]);
      case Array(_) => assert ty == Ty(ty.head, [x]);
      case Slice => assert ty == Ty(ty.head, [x]);
      case Adt(did) =>
        if e.Deref? {
          assert ty.args == [x] + ty.args[1..];
        }
      case _ =>
    }
  }

  /** An associated type `<T as Trait>::Name` has the fields of `T`. */
  lemma AssociatedField(tcx: Tcx, did: DefId, self: Ty, rest: seq<Ty>, variant: Option<nat>, i: nat)
    requires !self.head.Alias?
    ensures ProjectTy(tcx, Ty(Alias(did), [self] + rest), variant, [Field(i)]) == ProjectTy(tcx, self, variant, [Field(i)])
  {
    OneStep(tcx, Ty(Alias(did), [self] + rest), variant, Field(i));
    OneStep(tcx, self, variant, Field(i));
  }

  /** A downcast selects the variant for the field after it. */
  lemma PayloadField(tcx: Tcx, did: DefId, args: seq<Ty>, variant: Option<nat>, v: nat, i: nat)
    ensures ProjectTy(tcx, Ty(Adt(did), args), variant, [Downcast(v), Field(i)]) == tcx.fieldTy(did, v, i, args)
  {
    var ty, tail := Ty(Adt(did), args), [Downcast(v), Field(i)];
    assert tail[1..] == [Field(i)] && [Field(i)][1..] == [];
    assert ProjectAll(tcx, PlaceTy(ty, variant), tail) == ProjectAll(tcx, PlaceTy(ty, Some(v)), [Field(i)]);
    OneStep(tcx, ty, Some(v), Field(i));
  }

  // ---------------------------------------------------------------------------------------
  // Assignments

  /** What `q` is inside `p`. */
  function Inner(p: Place, tail: seq<Elem>): Place {
    Place(p.local, p.proj + tail)
  }

  lemma InnerTail(p: Place, tail: seq<Elem>)
    ensures Tail(p, Inner(p, tail)) == tail
  {
  }

  /** If what is assigned to a place that tracks a set may be of type `ty`, and inside of that lies `x`, then `x` is
      tracked there afterwards; if inside of that nothing lies there, the update panics. */
  lemma InsideIsTracked(tcx: Tcx, body: Body, d: Domain, p: Place, t: TrackedTy, ty: Ty, tail: seq<Elem>)
    requires p in d.places && d.places[p].Erased? && ty in TypesOf(t)
    requires Inner(p, tail) in tcx.interiorPaths(body, p) || (tail == [Deref] && IsRef(ty))
    ensures ProjectTy(tcx, ty, VariantOf(p), tail).None? ==> Update(tcx, body, d, p, t).None?
    ensures Update(tcx, body, d, p, t).Some? && Inner(p, tail) in d.places && d.places[Inner(p, tail)].Erased? ==>
              ProjectTy(tcx, ty, VariantOf(p), tail).value in Update(tcx, body, d, p, t).value.places[Inner(p, tail)].deps
  {
    var q, joined := Inner(p, tail), Join(d.places[p], t);
    InnerTail(p, tail);
    assert ty in TypesOf(joined);
    assert q in Targets(tcx, body, p, joined);
    if Update(tcx, body, d, p, t).Some? {
      assert Projectable(tcx, body, p, joined);
      assert ProjectTracked(tcx, joined, p, q).Some?;
    }
  }

  /** The payload of a variant: after an enum of type `Ty(Adt(did), args)` is assigned, the payload place of each
      variant tracks what the variant's field is; the assignment panics if there is no such field. */
  lemma PayloadIsTracked(tcx: Tcx, body: Body, d: Domain, p: Place, t: TrackedTy, did: DefId, args: seq<Ty>, v: nat, i: nat)
    requires p in d.places && d.places[p].Erased? && Ty(Adt(did), args) in TypesOf(t)
    requires Inner(p, [Downcast(v), Field(i)]) in tcx.interiorPaths(body, p)
    ensures tcx.fieldTy(did, v, i, args).None? ==> Update(tcx, body, d, p, t).None?
    ensures var q := Inner(p, [Downcast(v), Field(i)]);
            Update(tcx, body, d, p, t).Some? && q in d.places && d.places[q].Erased? ==>
              tcx.fieldTy(did, v, i, args).value in Update(tcx, body, d, p, t).value.places[q].deps
  {
    PayloadField(tcx, did, args, VariantOf(p), v, i);
    InsideIsTracked(tcx, body, d, p, t, Ty(Adt(did), args), [Downcast(v), Field(i)]);
  }

  /** One step inside: fields of structs, tuples and closures, pointees, elements. */
  lemma ElementIsTracked(tcx: Tcx, body: Body, d: Domain, p: Place, t: TrackedTy, ty: Ty, e: Elem, x: Ty)
    requires p in d.places && d.places[p].Erased? && ty in TypesOf(t) && WellFormedTy(ty) && !ty.head.Alias?
    requires !e.Downcast?
    requires Inner(p, [e]) in tcx.interiorPaths(body, p) || (e.Deref? && IsRef(ty))
    ensures (forall y :: !Holds(tcx, ty, VariantOf(p), e, y)) ==> Update(tcx, body, d, p, t).None?
    ensures Holds(tcx, ty, VariantOf(p), e, x) && Update(tcx, body, d, p, t).Some?
            && Inner(p, [e]) in d.places && d.places[Inner(p, [e])].Erased? ==>
              x in Update(tcx, body, d, p, t).value.places[Inner(p, [e])].deps
  {
    InsideIsTracked(tcx, body, d, p, t, ty, [e]);
    ProjectsExactly(tcx, ty, VariantOf(p), e, x);
    var y := ProjectTy(tcx, ty, VariantOf(p), [e]);
    if y.Some? {
      ProjectsExactly(tcx, ty, VariantOf(p), e, y.value);
    }
  }

  /** The same where the place that is assigned is a variant already: its fields are those of the variant. */
  lemma VariantFieldIsTracked(tcx: Tcx, body: Body, d: Domain, whole: Place, v: nat, t: TrackedTy, did: DefId, args: seq<Ty>, i: nat)
    requires var p := Inner(whole, [Downcast(v)]);
             && p in d.places && d.places[p].Erased? && Ty(Adt(did), args) in TypesOf(t)
             && Inner(p, [Field(i)]) in tcx.interiorPaths(body, p)
    ensures tcx.fieldTy(did, v, i, args).None? ==> Update(tcx, body, d, Inner(whole, [Downcast(v)]), t).None?
    ensures var p, q := Inner(whole, [Downcast(v)]), Inner(Inner(whole, [Downcast(v)]), [Field(i)]);
            Update(tcx, body, d, p, t).Some? && q in d.places && d.places[q].Erased? ==>
              tcx.fieldTy(did, v, i, args).value in Update(tcx, body, d, p, t).value.places[q].deps
  {
    var p := Inner(whole, [Downcast(v)]);
    assert VariantOf(p) == Some(v);
    OneStep(tcx, Ty(Adt(did), args), Some(v), Field(i));
    InsideIsTracked(tcx, body, d, p, t, Ty(Adt(did), args), [Field(i)]);
  }

  /** A place that selects no variant is one of the first variant, if of any: a struct. */
  lemma StructFieldIsTracked(tcx: Tcx, body: Body, d: Domain, p: Place, t: TrackedTy, did: DefId, args: seq<Ty>, i: nat)
    requires p.proj == [] || !p.proj[|p.proj| - 1].Downcast?
    requires p in d.places && d.places[p].Erased? && Ty(Adt(did), args) in TypesOf(t)
    requires Inner(p, [Field(i)]) in tcx.interiorPaths(body, p)
    ensures tcx.fieldTy(did, 0, i, args).None? ==> Update(tcx, body, d, p, t).None?
    ensures var q := Inner(p, [Field(i)]);
            Update(tcx, body, d, p, t).Some? && q in d.places && d.places[q].Erased? ==>
              tcx.fieldTy(did, 0, i, args).value in Update(tcx, body, d, p, t).value.places[q].deps
  {
    OneStep(tcx, Ty(Adt(did), args), None, Field(i));
    InsideIsTracked(tcx, body, d, p, t, Ty(Adt(did), args), [Field(i)]);
  }

  /** If one of the assigned types is a reference, all of them are followed one step: what they point to, as
      references, raw pointers or boxes, is tracked there. */
  lemma PointeeIsTracked(tcx: Tcx, body: Body, d: Domain, p: Place, t: TrackedTy, ref: Ty, ty: Ty, y: Ty)
    requires p in d.places && d.places[p].Erased? && ref in TypesOf(t) && ref.head.Ref? && ty in TypesOf(t) && WellFormedTy(ty)
    requires Update(tcx, body, d, p, t).Some? && Holds(tcx, ty, VariantOf(p), Deref, y)
    ensures DerefOf(p) in d.places
    ensures d.places[DerefOf(p)].Erased? ==> y in Update(tcx, body, d, p, t).value.places[DerefOf(p)].deps
  {
    ReferencesAreFollowed(tcx, body, d, p, t, ref, ty);
    ProjectsExactly(tcx, ty, VariantOf(p), Deref, y);
  }

  lemma ReferencesAreFollowed(tcx: Tcx, body: Body, d: Domain, p: Place, t: TrackedTy, ref: Ty, ty: Ty)
    requires p in d.places && d.places[p].Erased? && ref in TypesOf(t) && ref.head.Ref? && ty in TypesOf(t)
    requires Update(tcx, body, d, p, t).Some?
    ensures DerefOf(p) in d.places && ProjectTy(tcx, ty, VariantOf(p), [Deref]).Some?
    ensures d.places[DerefOf(p)].Erased? ==>
              ProjectTy(tcx, ty, VariantOf(p), [Deref]).value in Update(tcx, body, d, p, t).value.places[DerefOf(p)].deps
  {
    var joined := Join(d.places[p], t);
    assert IsRef(ref) && ref in TypesOf(joined) && ty in TypesOf(joined);
    assert DerefOf(p) == Inner(p, [Deref]);
    InnerTail(p, [Deref]);
    assert DerefOf(p) in Targets(tcx, body, p, joined);
    assert Projectable(tcx, body, p, joined) && ProjectTracked(tcx, joined, p, DerefOf(p)).Some?;
  }
}
