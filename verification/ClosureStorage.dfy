/** The storage of closures: their resolved type and the tracked types of their captured
    variables, joined position by position over all places that create the closure. */
module ClosureStorage {
  import opened Options
  import opened Types
  import opened TrackedTypes

  datatype ClosureInfo = ClosureInfo(withSubsts: Ty, upvars: seq<TrackedTy>)

  type Closures = map<DefId, ClosureInfo>

  function JoinUpvars(kept: seq<TrackedTy>, added: seq<TrackedTy>): (r: seq<TrackedTy>)
    requires |kept| == |added|
    ensures |r| == |kept|
  {
    seq(|kept|, j requires 0 <= j < |kept| => Join(kept[j], added[j]))
  }

  /** What a contribution makes of recorded upvars. `None` is the panic on different counts. */
  function Absorb(upvars: seq<TrackedTy>, contribution: seq<TrackedTy>): Option<seq<TrackedTy>> {
    if upvars == [] then Some(contribution)
    else if contribution == [] then Some(upvars)
    else if |contribution| != |upvars| then None
    else Some(JoinUpvars(upvars, contribution))
  }

  /** `update_with`; types that are not closures are ignored. */
  function UpdateClosures(m: Closures, ty: Ty, outer: seq<Ty>, upvars: seq<TrackedTy>): Option<Closures> {
    if !ty.head.Closure? then Some(m)
    else
      var did := ty.head.did;
      if did !in m then Some(m[did := ClosureInfo(Subst(ty, outer), upvars)])
      else
        match Absorb(m[did].upvars, upvars)
        case None => None
        case Some(absorbed) => Some(m[did := m[did].(upvars := absorbed)])
  }

  class ClosureInfoStorage {
    var closures: Closures
    ghost var history: seq<Event>

    constructor ()
      ensures closures == map[] && history == [] && Valid()
    {
      closures, history := map[], [];
    }

    /** What is stored is what all updates so far amount to. */
    ghost predicate Valid()
      reads this
    {
      Replay(map[], history) == Some(closures)
    }

    method UpdateWith(ty: Ty, outer: seq<Ty>, upvars: seq<TrackedTy>) returns (ok: bool)
      requires Valid()
      modifies this
      ensures ok <==> UpdateClosures(old(closures), ty, outer, upvars).Some?
      ensures ok ==> Some(closures) == UpdateClosures(old(closures), ty, outer, upvars)
      ensures ok ==> history == old(history) + [Event(ty, outer, upvars)] && Valid()
    {
      ReplayOneMore(map[], history, Event(ty, outer, upvars));
      if UpdateClosures(closures, ty, outer, upvars).Some? {
        history := history + [Event(ty, outer, upvars)];
      }
      if !ty.head.Closure? {
        return true;
      }
      var did := ty.head.did;
      if did !in closures {
        closures := closures[did := ClosureInfo(Subst(ty, outer), upvars)];
        return true;
      }
      var info := closures[did];
      if info.upvars == [] {
        assert info.upvars + upvars == upvars;
        closures := closures[did := info.(upvars := info.upvars + upvars)];
      } else if upvars != [] {
        if |upvars| != |info.upvars| {
          return false;
        }
        var joined := info.upvars;
        for j := 0 to |upvars|
          invariant closures == old(closures) && |joined| == |upvars|
          invariant history == old(history) + [Event(ty, outer, upvars)]
          invariant forall k | 0 <= k < |joined| ::
                      joined[k] == if k < j then Join(info.upvars[k], upvars[k]) else info.upvars[k]
        {
          var merged, _ := JoinInto(joined[j], upvars[j]);
          joined := joined[j := merged];
        }
        assert joined == JoinUpvars(info.upvars, upvars);
        closures := closures[did := info.(upvars := joined)];
      } else {
        assert closures[did := info] == closures;
      }
      return true;
    }
  }

  // ---------------------------------------------------------------------------------------
  // Histories of updates

  datatype Event = Event(ty: Ty, outer: seq<Ty>, upvars: seq<TrackedTy>)

  predicate Concerns(e: Event, did: DefId) {
    e.ty.head == Closure(did)
  }

  function Replay(m: Closures, events: seq<Event>): Option<Closures>
    decreases |events|
  {
    if events == [] then Some(m)
    else
      match UpdateClosures(m, events[0].ty, events[0].outer, events[0].upvars)
      case None => None
      case Some(next) => Replay(next, events[1..])
  }

  lemma {:induction false} ReplayOneMore(m: Closures, events: seq<Event>, e: Event)
    ensures Replay(m, events + [e]) ==
            match Replay(m, events) { case None => None case Some(n) => UpdateClosures(n, e.ty, e.outer, e.upvars) }
    decreases |events|
  {
    if events == [] {
      assert ([e])[1..] == [];
    } else {
      assert (events + [e])[1..] == events[1..] + [e];
      var next := UpdateClosures(m, events[0].ty, events[0].outer, events[0].upvars);
      if next.Some? {
        ReplayOneMore(next.value, events[1..], e);
      }
    }
  }

  /** The non-empty contributions to one closure, in order. */
  function Contributions(events: seq<Event>, did: DefId): seq<seq<TrackedTy>>
    decreases |events|
  {
    if events == [] then []
    else if Concerns(events[0], did) && events[0].upvars != [] then [events[0].upvars] + Contributions(events[1..], did)
    else Contributions(events[1..], did)
  }

  /** Everything the contributions bring to position `j`. */
  function Brought(contributions: seq<seq<TrackedTy>>, j: nat): set<Ty> {
    set c, t | c in contributions && j < |c| && t in TypesOf(c[j]) :: t
  }

  /** The upvars after an entry holding `first` absorbed all contributions. */
  function Accumulated(first: seq<TrackedTy>, contributions: seq<seq<TrackedTy>>): (r: seq<TrackedTy>)
    ensures |r| == |first|
  {
    seq(|first|, j requires 0 <= j < |first| =>
      if first[j].Present? then first[j] else Erased(first[j].deps + Brought(contributions, j)))
  }

  lemma AccumulateOne(first: seq<TrackedTy>, c: seq<TrackedTy>, rest: seq<seq<TrackedTy>>)
    requires |c| == |first|
    ensures Accumulated(JoinUpvars(first, c), rest) == Accumulated(first, [c] + rest)
  {
    forall j | 0 <= j < |first| && first[j].Erased?
      ensures first[j].deps + TypesOf(c[j]) + Brought(rest, j) == first[j].deps + Brought([c] + rest, j)
    {
      assert forall x :: x in [c] + rest <==> x == c || x in rest;
    }
  }

  /** Entries are never removed, keep their type, keep the number of upvars once there are any,
      and hold what they held joined with all contributions since. A run that does not panic
      contributed consistent counts. */
  lemma {:induction false} EntryHistory(m: Closures, events: seq<Event>, did: DefId)
    requires Replay(m, events).Some?
    requires did in m && m[did].upvars != []
    ensures did in Replay(m, events).value
    ensures var info := Replay(m, events).value[did];
            && info.withSubsts == m[did].withSubsts
            && info.upvars == Accumulated(m[did].upvars, Contributions(events, did))
    ensures forall c | c in Contributions(events, did) :: |c| == |m[did].upvars|
    decreases |events|
  {
    if events == [] {
      assert forall j | 0 <= j < |m[did].upvars| && m[did].upvars[j].Erased? ::
        m[did].upvars[j].deps + Brought([], j) == m[did].upvars[j].deps;
      assert Accumulated(m[did].upvars, []) == m[did].upvars;
    } else {
      var e := events[0];
      var next := UpdateClosures(m, e.ty, e.outer, e.upvars).value;
      EntryHistory(next, events[1..], did);
      if Concerns(e, did) && e.upvars != [] {
        AccumulateOne(m[did].upvars, e.upvars, Contributions(events[1..], did));
      }
    }
  }

  /** From an empty storage: the entry's type comes from the first update of the closure, its
      upvars from the first non-empty one joined with all later ones. */
  lemma {:induction false} EntryFromScratch(m: Closures, events: seq<Event>, did: DefId)
    requires Replay(m, events).Some?
    requires did in m ==> m[did].upvars == []
    ensures var cs := Contributions(events, did);
            && (cs != [] ==> did in Replay(m, events).value &&
                             Replay(m, events).value[did].upvars == Accumulated(cs[0], cs[1..]) &&
                             forall k | 0 <= k < |cs| :: |cs[k]| == |cs[0]|)
            && (cs == [] && did in Replay(m, events).value ==> Replay(m, events).value[did].upvars == [])
    ensures did in m ==> did in Replay(m, events).value && Replay(m, events).value[did].withSubsts == m[did].withSubsts
    decreases |events|
  {
    if events != [] {
      var e := events[0];
      var next := UpdateClosures(m, e.ty, e.outer, e.upvars).value;
      if Concerns(e, did) && e.upvars != [] {
        EntryHistory(next, events[1..], did);
        var cs := Contributions(events, did);
        assert cs[1..] == Contributions(events[1..], did);
        forall k | 0 <= k < |cs| ensures |cs[k]| == |cs[0]| {
          if k > 0 {
            assert cs[k] == cs[1..][k - 1];
          }
        }
      } else {
        EntryFromScratch(next, events[1..], did);
      }
    }
  }

  /** The entry of a closure has the type of the update that made it, with the type arguments of the function the closure
      is created in substituted; later updates do not change it. */
  lemma {:induction false} EntryTypeIsTheFirst(events: seq<Event>, k: nat, did: DefId, args: seq<Ty>)
    requires Replay(map[], events).Some? && k < |events| && events[k].ty == Ty(Closure(did), args)
    requires forall j | 0 <= j < k :: !Concerns(events[j], did)
    ensures did in Replay(map[], events).value
    ensures Replay(map[], events).value[did].withSubsts == Ty(Closure(did), SubstAll(args, events[k].outer))
  {
    var before, rest := events[..k], events[k + 1..];
    assert events == before + ([events[k]] + rest);
    ReplayInTwo(map[], before, [events[k]] + rest);
    NotEntered(map[], before, did);
    var m, e := Replay(map[], before).value, events[k];
    var next := UpdateClosures(m, e.ty, e.outer, e.upvars).value;
    assert ([e] + rest)[1..] == rest;
    assert next[did].withSubsts == Subst(e.ty, e.outer);
    if next[did].upvars != [] {
      EntryHistory(next, rest, did);
    } else {
      EntryFromScratch(next, rest, did);
    }
  }

  lemma {:induction false} NotEntered(m: Closures, events: seq<Event>, did: DefId)
    requires Replay(m, events).Some? && did !in m && forall j | 0 <= j < |events| :: !Concerns(events[j], did)
    ensures did !in Replay(m, events).value
    decreases |events|
  {
    if events != [] {
      var e := events[0];
      var next := UpdateClosures(m, e.ty, e.outer, e.upvars).value;
      assert did !in next;
      forall j | 0 <= j < |events[1..]| ensures !Concerns(events[1..][j], did) {
        assert events[1..][j] == events[j + 1];
      }
      NotEntered(next, events[1..], did);
    }
  }

  /** Reordering the contributions after the first changes nothing. */
  lemma AccumulationIgnoresOrder(events: seq<Event>, events': seq<Event>, did: DefId)
    requires Replay(map[], events).Some? && Replay(map[], events').Some?
    requires var cs, cs' := Contributions(events, did), Contributions(events', did);
             cs != [] && cs' != [] && cs[0] == cs'[0] && multiset(cs[1..]) == multiset(cs'[1..])
    ensures did in Replay(map[], events).value && did in Replay(map[], events').value
    ensures Replay(map[], events).value[did].upvars == Replay(map[], events').value[did].upvars
  {
    EntryFromScratch(map[], events, did);
    EntryFromScratch(map[], events', did);
    var cs, cs' := Contributions(events, did), Contributions(events', did);
    SameContributions(cs[0], cs[1..], cs'[1..]);
  }

  lemma SameContributions(first: seq<TrackedTy>, cs: seq<seq<TrackedTy>>, cs': seq<seq<TrackedTy>>)
    requires multiset(cs) == multiset(cs')
    ensures Accumulated(first, cs) == Accumulated(first, cs')
  {
    forall c ensures c in cs <==> c in cs' {
      assert c in cs <==> c in multiset(cs);
      assert c in cs' <==> c in multiset(cs');
    }
    assert forall j: nat :: Brought(cs, j) == Brought(cs', j);
  }

  // ---------------------------------------------------------------------------------------
  // What was captured is kept

  /** Nothing of `captured` is missing in `kept`, unless `kept` tracks no set. */
  predicate Keeps(kept: TrackedTy, captured: TrackedTy) {
    kept.Present? || TypesOf(captured) <= kept.deps
  }

  lemma {:induction false} EventContributes(events: seq<Event>, e: Event, did: DefId)
    requires e in events && Concerns(e, did) && e.upvars != []
    ensures e.upvars in Contributions(events, did)
    decreases |events|
  {
    if events[0] != e {
      EventContributes(events[1..], e, did);
    }
  }

  /** Whatever was captured at some creation of a closure is in the storage from then on. */
  lemma CapturesAreKept(events: seq<Event>, e: Event, did: DefId)
    requires Replay(map[], events).Some? && e in events && Concerns(e, did) && e.upvars != []
    ensures did in Replay(map[], events).value
    ensures var upvars := Replay(map[], events).value[did].upvars;
            |upvars| == |e.upvars| && forall j | 0 <= j < |upvars| :: Keeps(upvars[j], e.upvars[j])
  {
    EntryFromScratch(map[], events, did);
    EventContributes(events, e, did);
    var cs := Contributions(events, did);
    var k :| 0 <= k < |cs| && cs[k] == e.upvars;
    if k > 0 {
      assert cs[1..][k - 1] == e.upvars;
    }
  }

  lemma {:induction false} ReplayInTwo(m: Closures, a: seq<Event>, b: seq<Event>)
    requires Replay(m, a + b).Some?
    ensures Replay(m, a).Some? && Replay(Replay(m, a).value, b) == Replay(m, a + b)
    decreases |a|
  {
    if a == [] {
      assert a + b == b;
    } else {
      assert (a + b)[1..] == a[1..] + b;
      ReplayInTwo(UpdateClosures(m, a[0].ty, a[0].outer, a[0].upvars).value, a[1..], b);
    }
  }

  /** Everything an entry once held, it still holds. */
  lemma EntriesOnlyGrow(events: seq<Event>, n: nat, did: DefId)
    requires n <= |events| && Replay(map[], events).Some?
    ensures Replay(map[], events[..n]).Some?
    ensures var before, now := Replay(map[], events[..n]).value, Replay(map[], events).value;
            did in before ==>
              && did in now && now[did].withSubsts == before[did].withSubsts
              && (before[did].upvars != [] ==> |now[did].upvars| == |before[did].upvars|)
              && forall j | 0 <= j < |before[did].upvars| :: Below(before[did].upvars[j], now[did].upvars[j])
  {
    assert events == events[..n] + events[n..];
    ReplayInTwo(map[], events[..n], events[n..]);
    var before := Replay(map[], events[..n]).value;
    if did in before {
      if before[did].upvars != [] {
        EntryHistory(before, events[n..], did);
      } else {
        EntryFromScratch(before, events[n..], did);
      }
    }
  }
}
