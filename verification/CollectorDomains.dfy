/** The domain object the transfer functions mutate, proved against the operations on values. */
module CollectorDomains {
  import opened Options
  import opened Types
  import opened TrackedTypes
  import opened Mir
  import opened Domains

  const RETURN_PLACE := Place(0, [])

  /** The tracked type handed back to a caller: the declared one unless it hides something.
      `None` is the panic of a body that does not track its return place. */
  function ReturnType(tcx: Tcx, body: Body, places: map<Place, TrackedTy>): Option<TrackedTy> {
    if RETURN_PLACE !in places then None
    else
      var provided := FromTy(tcx.placeTy(body, RETURN_PLACE));
      Some(if provided.Present? then provided else places[RETURN_PLACE])
  }

  function OperandTracked(tcx: Tcx, body: Body, d: Domain, op: Operand): TrackedTy {
    match op
    case Constant(ty) => FromTy(ty)
    case Copy(p) => LookupOr(d, p, tcx.placeTy(body, p))
    case Move(p) => LookupOr(d, p, tcx.placeTy(body, p))
  }

  /** `construct_args`. */
  function ArgumentTypes(tcx: Tcx, body: Body, d: Domain, args: seq<Operand>): (tys: seq<TrackedTy>)
    ensures |tys| == |args|
  {
    seq(|args|, i requires 0 <= i < |args| => OperandTracked(tcx, body, d, args[i]))
  }

  /** Argument `i` of the caller arrives in local `i + 1`. */
  function AugmentArgs(tcx: Tcx, body: Body, d: Domain, args: seq<TrackedTy>, i: nat): Option<Domain>
    decreases |args| - i
  {
    if i >= |args| then Some(d)
    else
      match Augment(tcx, body, d, Place(i + 1, []), args[i])
      case None => None
      case Some(next) => AugmentArgs(tcx, body, next, args, i + 1)
  }

  /** Captured variable `i` is field `i` of the closure, behind a reference unless it is taken by value. */
  function UpvarPlace(tcx: Tcx, body: Body, i: nat): Place {
    Place(1, if IsRef(tcx.placeTy(body, Place(1, []))) then [Deref, Field(i)] else [Field(i)])
  }

  function AugmentUpvars(tcx: Tcx, body: Body, d: Domain, upvars: seq<TrackedTy>, i: nat): Option<Domain>
    decreases |upvars| - i
  {
    if i >= |upvars| then Some(d)
    else
      match Augment(tcx, body, d, UpvarPlace(tcx, body, i), upvars[i])
      case None => None
      case Some(next) => AugmentUpvars(tcx, body, next, upvars, i + 1)
  }

  datatype Status = Done | ProjectionError | Panic

  class CollectorDomain {
    var places: map<Place, TrackedTy>
    var calls: set<FunctionCall>
    var unhandled: set<Ty>

    constructor (d: Domain)
      ensures View() == d
    {
      places, calls, unhandled := d.places, d.calls, d.unhandled;
    }

    function View(): Domain
      reads this
    {
      Domain(places, calls, unhandled)
    }

    /** First all projections are computed, then all targets are joined: a projection error is
        reported before anything changed. */
    method Propagate(tcx: Tcx, body: Body, p: Place, t: TrackedTy) returns (status: Status)
      modifies this`places
      ensures status == match Domains.Propagate(tcx, body, old(places), p, t)
                        case Propagated(_) => Done
                        case Rejected => ProjectionError
                        case Missing => Panic
      ensures status == Done ==> Propagated(places) == Domains.Propagate(tcx, body, old(places), p, t)
      ensures status == ProjectionError ==> places == old(places)
    {
      var targets := Targets(tcx, body, p, t);
      var paths: map<Place, TrackedTy> := map[];
      var rest := targets;
      while rest != {}
        invariant rest <= targets
        invariant paths.Keys == targets - rest
        invariant forall q | q in paths :: ProjectTracked(tcx, t, p, q) == Some(paths[q])
      {
        var q :| q in rest;
        var projected := ProjectTracked(tcx, t, p, q);
        if projected.None? {
          return ProjectionError;
        }
        paths := paths[q := projected.value];
        rest := rest - {q};
      }
      assert paths == Projections(tcx, body, p, t);

      rest := targets;
      while rest != {}
        invariant rest <= targets
        invariant targets - rest <= old(places).Keys
        invariant places.Keys == old(places).Keys
        invariant forall q | q in places ::
                    places[q] == if q in targets - rest then Join(old(places)[q], paths[q]) else old(places)[q]
      {
        var q :| q in rest;
        if q !in places {
          return Panic;
        }
        var joined, _ := JoinInto(places[q], paths[q]);
        places := places[q := joined];
        rest := rest - {q};
      }
      assert places == Contribute(old(places), paths);
      return Done;
    }

    method UpdateWith(tcx: Tcx, body: Body, p: Place, t: TrackedTy) returns (ok: bool)
      modifies this
      ensures ok <==> Update(tcx, body, old(View()), p, t).Some?
      ensures ok ==> Some(View()) == Update(tcx, body, old(View()), p, t)
    {
      if p !in places {
        return false;
      }
      var joined, _ := JoinInto(places[p], t);
      places := places[p := joined];
      var status := Propagate(tcx, body, p, joined);
      return status == Done;
    }

    method AugmentWith(tcx: Tcx, body: Body, p: Place, t: TrackedTy) returns (ok: bool)
      modifies this
      ensures ok <==> Augment(tcx, body, old(View()), p, t).Some?
      ensures ok ==> Some(View()) == Augment(tcx, body, old(View()), p, t)
    {
      if p in places {
        var joined, _ := JoinInto(places[p], t);
        places := places[p := joined];
      } else {
        places := places[p := t];
      }
      var status := Propagate(tcx, body, p, t);
      return status == Done;
    }

    method AugmentWithArgs(tcx: Tcx, body: Body, args: seq<TrackedTy>, isClosure: bool) returns (ok: bool)
      modifies this
      ensures ok <==> AugmentArgs(tcx, body, old(View()), args, if isClosure then 1 else 0).Some?
      ensures ok ==> Some(View()) == AugmentArgs(tcx, body, old(View()), args, if isClosure then 1 else 0)
    {
      var i := if isClosure then 1 else 0;
      while i < |args|
        invariant AugmentArgs(tcx, body, View(), args, i) ==
                  AugmentArgs(tcx, body, old(View()), args, if isClosure then 1 else 0)
      {
        ok := AugmentWith(tcx, body, Place(i + 1, []), args[i]);
        if !ok {
          return;
        }
        i := i + 1;
      }
      ok := true;
    }

    method AugmentClosureWithUpvars(tcx: Tcx, body: Body, upvars: seq<TrackedTy>) returns (ok: bool)
      modifies this
      ensures ok <==> AugmentUpvars(tcx, body, old(View()), upvars, 0).Some?
      ensures ok ==> Some(View()) == AugmentUpvars(tcx, body, old(View()), upvars, 0)
    {
      for i := 0 to |upvars|
        invariant AugmentUpvars(tcx, body, View(), upvars, i) == AugmentUpvars(tcx, body, old(View()), upvars, 0)
      {
        ok := AugmentWith(tcx, body, UpvarPlace(tcx, body, i), upvars[i]);
        if !ok {
          return;
        }
      }
      ok := true;
    }

    method AddCall(call: FunctionCall)
      modifies this`calls
      ensures calls == old(calls) + {call}
    {
      calls := calls + {call};
    }

    method AddUnhandled(ty: Ty)
      modifies this`unhandled
      ensures unhandled == old(unhandled) + {ty}
    {
      unhandled := unhandled + {ty};
    }

    /** The in-place join of two states. The flag tells exactly whether anything changed. */
    method JoinWith(other: Domain) returns (updated: bool)
      requires other.places.Keys <= places.Keys
      modifies this
      ensures View() == JoinDomains(old(View()), other)
      ensures updated <==> View() != old(View())
      ensures SameShape(old(View()), other) ==> (updated <==> !Leq(other, old(View())))
    {
      ghost var before := View();
      updated := false;
      var keys := other.places.Keys;
      while keys != {}
        invariant keys <= other.places.Keys
        invariant calls == before.calls && unhandled == before.unhandled
        invariant places == map p | p in before.places ::
                              if p in other.places && p !in keys then Join(before.places[p], other.places[p])
                              else before.places[p]
        invariant updated <==> places != before.places
      {
        var p :| p in keys;
        ghost var previous := places;
        var joined, grew := JoinInto(places[p], other.places[p]);
        JoinLaws(places[p], other.places[p]);
        places := places[p := joined];
        keys := keys - {p};
        if grew {
          assert places[p] != before.places[p];
        } else {
          assert places == previous;
        }
        if updated {
          ghost var q :| q in previous && previous[q] != before.places[q];
          assert q != p && places[q] != before.places[q];
        }
        updated := updated || grew;
      }
      assert places == JoinPlaces(before.places, other.places);
      updated := !(other.calls <= calls) || updated;
      calls := calls + other.calls;
      updated := !(other.unhandled <= unhandled) || updated;
      unhandled := unhandled + other.unhandled;
      if SameShape(before, other) {
        JoinIsLeastUpperBound(before, other);
      }
    }
  }
}
