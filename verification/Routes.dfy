/** Static routes of a router: provider/neutron/ip.py `diff_routes`, and how update_router in
    provider/neutron/neutron_api.py applies its result through provider/ovndb/ovn_north.py. */
module Routes {
  type Prefix = string
  type Hop = nat

  datatype Route = Route(prefix: Prefix, hop: Hop)

  const DEFAULT_ROUTE4: Prefix := "0.0.0.0/0"
  const DEFAULT_ROUTE6: Prefix := "::/0"

  /** The rows of the table: a destination is in it at most once, since adding it twice fails. */
  function Pairs(routes: map<Prefix, Hop>): set<Route> {
    set p | p in routes :: Route(p, routes[p])
  }

  function Wanted(requested: seq<Route>): set<Route> {
    set r | r in requested
  }

  /** Python's `dict(pairs)`: one of the next hops for each destination, whichever comes last. */
  ghost predicate DictOf(d: map<Prefix, Hop>, pairs: set<Route>) {
    && (forall p :: p in d ==> Route(p, d[p]) in pairs)
    && (forall r :: r in pairs ==> r.prefix in d)
  }

  /** At most one next hop for each destination. */
  ghost predicate OneHop(pairs: set<Route>) {
    forall a, b :: a in pairs && b in pairs && a.prefix == b.prefix ==> a == b
  }

  /** Adding the routes of `d` in a given order, up to the first destination that is there already. */
  function AddedInOrder(routes: map<Prefix, Hop>, order: seq<Prefix>, d: map<Prefix, Hop>): (map<Prefix, Hop>, bool)
    requires forall i :: 0 <= i < |order| ==> order[i] in d
    decreases |order|
  {
    if order == [] then (routes, true)
    else if order[0] in routes then (routes, false)
    else AddedInOrder(routes[order[0] := d[order[0]]], order[1..], d)
  }

  ghost predicate IsOrder(order: seq<Prefix>, keys: set<Prefix>) {
    && (forall i :: 0 <= i < |order| ==> order[i] in keys)
    && (forall k :: k in keys ==> k in order)
    && (forall i, j :: 0 <= i < j < |order| ==> order[i] != order[j])
  }

  /** The routes and whether the call goes on, when `added` and `removed` are the two dictionaries. */
  function Reconciled(routes: map<Prefix, Hop>, removed: set<Prefix>, order: seq<Prefix>, added: map<Prefix, Hop>)
    : (map<Prefix, Hop>, bool)
    requires forall i :: 0 <= i < |order| ==> order[i] in added
  {
    AddedInOrder(routes - removed, order, added)
  }

  // ---------------------------------------------------------------------------------------------
  // Reconciliation
  // ---------------------------------------------------------------------------------------------

  lemma RestIsOrder(order: seq<Prefix>, d: map<Prefix, Hop>)
    requires order != [] && IsOrder(order, d.Keys)
    ensures IsOrder(order[1..], (d - {order[0]}).Keys)
  {
    forall k | k in (d - {order[0]}).Keys
      ensures k in order[1..]
    {
      var i :| 0 <= i < |order| && order[i] == k;
      assert order[1..][i - 1] == k;
    }
  }

  lemma {:induction false} AddedInOrderIs(routes: map<Prefix, Hop>, order: seq<Prefix>, d: map<Prefix, Hop>)
    requires IsOrder(order, d.Keys)
    ensures AddedInOrder(routes, order, d).1 <==> routes.Keys !! d.Keys
    ensures routes.Keys !! d.Keys ==> AddedInOrder(routes, order, d).0 == routes + d
    decreases |order|
  {
    if order == [] {
      assert d.Keys == {};
      assert routes + d == routes;
    } else {
      var p := order[0];
      FirstAdded(routes, d, p);
      RestIsOrder(order, d);
      if p !in routes {
        AddedInOrderIs(routes[p := d[p]], order[1..], d - {p});
        OnlyListed(routes[p := d[p]], order[1..], d, d - {p});
      }
    }
  }

  lemma FirstAdded(routes: map<Prefix, Hop>, d: map<Prefix, Hop>, p: Prefix)
    requires p in d
    ensures p !in routes ==> routes[p := d[p]] + (d - {p}) == routes + d
    ensures routes.Keys !! d.Keys <==> p !in routes && routes[p := d[p]].Keys !! (d - {p}).Keys
  {
    if routes.Keys !! d.Keys {
      assert p !in routes;
    }
  }

  lemma {:induction false} OnlyListed(routes: map<Prefix, Hop>, order: seq<Prefix>, d: map<Prefix, Hop>,
                                      e: map<Prefix, Hop>)
    requires forall i :: 0 <= i < |order| ==> order[i] in d && order[i] in e && d[order[i]] == e[order[i]]
    ensures AddedInOrder(routes, order, d) == AddedInOrder(routes, order, e)
    decreases |order|
  {
    if order != [] {
      OnlyListed(routes[order[0] := d[order[0]]], order[1..], d, e);
    }
  }

  /** What is kept, and what is added to it, make up the request exactly when the request has one next
      hop for each destination; then every route is added to a destination that is free. */
  lemma KeptAndAdded(routes: map<Prefix, Hop>, requested: seq<Route>, added: map<Prefix, Hop>,
                     removed: map<Prefix, Hop>)
    requires DictOf(added, Wanted(requested) - Pairs(routes)) && DictOf(removed, Pairs(routes) - Wanted(requested))
    ensures var left := routes - removed.Keys;
            (left.Keys !! added.Keys && Pairs(left + added) == Wanted(requested)) <==> OneHop(Wanted(requested))
  {
    var left := routes - removed.Keys;
    assert forall p :: p in left <==> p in routes && Route(p, routes[p]) in Wanted(requested);
    if OneHop(Wanted(requested)) {
      forall p | p in added
        ensures p !in left
      {
        assert Route(p, added[p]) in Wanted(requested);
      }
      forall r
        ensures r in Pairs(left + added) <==> r in Wanted(requested)
      {
        if r in Wanted(requested) && r !in Pairs(routes) {
          assert Route(r.prefix, added[r.prefix]) in Wanted(requested);
        }
        if r in Wanted(requested) && r in Pairs(routes) {
          assert r.prefix in left && r.prefix !in added;
        }
      }
    } else {
      assert OneHop(Pairs(left + added));
    }
  }

  /** The same for the calls one after the other, in whatever order the dictionary is walked. */
  lemma ReconciledIffOneHop(routes: map<Prefix, Hop>, requested: seq<Route>, added: map<Prefix, Hop>,
                            removed: map<Prefix, Hop>, order: seq<Prefix>)
    requires DictOf(added, Wanted(requested) - Pairs(routes)) && DictOf(removed, Pairs(routes) - Wanted(requested))
    requires IsOrder(order, added.Keys)
    ensures var (final, ok) := Reconciled(routes, removed.Keys, order, added);
            (ok && Pairs(final) == Wanted(requested)) <==> OneHop(Wanted(requested))
  {
    hide DictOf, OneHop, Pairs, Wanted;
    AddedInOrderIs(routes - removed.Keys, order, added);
    KeptAndAdded(routes, requested, added, removed);
  }

  /** A request with two next hops for a destination, one of them in place, stops the call half-way. */
  lemma TwoHopsFail(p: Prefix, a: Hop, b: Hop)
    requires a != b
    ensures DictOf(map[p := b], Wanted([Route(p, a), Route(p, b)]) - Pairs(map[p := a]))
    ensures Reconciled(map[p := a], {}, [p], map[p := b]) == (map[p := a], false)
  {
    assert Route(p, a) in [Route(p, a), Route(p, b)] && Route(p, b) in [Route(p, a), Route(p, b)];
    assert map[p := a] - {} == map[p := a];
  }

  /** `start` with those of `added` that are not left. */
  ghost function Adding(start: map<Prefix, Hop>, added: map<Prefix, Hop>, left: set<Prefix>): map<Prefix, Hop> {
    start + (added - left)
  }

  lemma AddingOne(start: map<Prefix, Hop>, added: map<Prefix, Hop>, left: set<Prefix>, p: Prefix)
    requires left <= added.Keys && p in left
    ensures p in Adding(start, added, left) <==> p in start
    ensures Adding(start, added, left)[p := added[p]] == Adding(start, added, left - {p})
    ensures start.Keys !! added.Keys - left && p !in start ==> start.Keys !! added.Keys - (left - {p})
  {
  }

  lemma AddingFrom(start: map<Prefix, Hop>, added: map<Prefix, Hop>, left: set<Prefix>)
    ensures From(Adding(start, added, left), start, added)
    ensures Adding(start, added, added.Keys) == start && Adding(start, added, {}) == start + added
  {
    assert added - {} == added;
  }

  /** Every route comes from one of two tables. */
  ghost predicate From(routes: map<Prefix, Hop>, a: map<Prefix, Hop>, b: map<Prefix, Hop>) {
    forall p :: p in routes ==> (p in a && routes[p] == a[p]) || (p in b && routes[p] == b[p])
  }

  // ---------------------------------------------------------------------------------------------
  // The code
  // ---------------------------------------------------------------------------------------------

  /** `dict(pairs)` */
  method ToDict(pairs: set<Route>) returns (d: map<Prefix, Hop>)
    ensures DictOf(d, pairs)
  {
    d := map[];
    var todo := pairs;
    while todo != {}
      invariant todo <= pairs && DictOf(d, pairs - todo)
      decreases |todo|
    {
      var r :| r in todo;
      d := d[r.prefix := r.hop];
      todo := todo - {r};
    }
    assert pairs - {} == pairs;
  }

  /** `diff_routes` */
  method DiffRoutes(requested: seq<Route>, current: map<Prefix, Hop>) returns (added: map<Prefix, Hop>,
                    removed: map<Prefix, Hop>)
    ensures DictOf(added, Wanted(requested) - Pairs(current))
    ensures DictOf(removed, Pairs(current) - Wanted(requested))
  {
    var wanted := set r | r in requested;
    var present := set p | p in current :: Route(p, current[p]);
    added := ToDict(wanted - present);
    removed := ToDict(present - wanted);
  }

  /** The `static_routes` of one router. */
  class StaticRoutes {
    var routes: map<Prefix, Hop>

    constructor (r: map<Prefix, Hop>)
      ensures routes == r
    {
      routes := r;
    }

    /** `add_route`, which fails when the destination is there. */
    method AddRoute(prefix: Prefix, hop: Hop) returns (ok: bool)
      modifies this
      ensures ok <==> prefix !in old(routes)
      ensures routes == if ok then old(routes)[prefix := hop] else old(routes)
    {
      ok := prefix !in routes;
      if ok {
        routes := routes[prefix := hop];
      }
    }

    /** `remove_static_route` */
    method RemoveStaticRoute(prefix: Prefix)
      modifies this
      ensures routes == old(routes) - {prefix}
    {
      routes := routes - {prefix};
    }

    method RemoveAll(removed: set<Prefix>)
      modifies this
      ensures routes == old(routes) - removed
    {
      ghost var start := routes;
      var todo := removed;
      assert start - (removed - todo) == start;
      while todo != {}
        invariant todo <= removed && routes == start - (removed - todo)
        decreases |todo|
      {
        var p :| p in todo;
        RemoveStaticRoute(p);
        todo := todo - {p};
      }
      assert removed - {} == removed;
    }

    /** Adding stops at the first destination that is taken. */
    method AddAll(added: map<Prefix, Hop>) returns (ok: bool)
      modifies this
      ensures ok <==> old(routes).Keys !! added.Keys
      ensures ok ==> routes == old(routes) + added
      ensures From(routes, old(routes), added)
    {
      hide From, Adding;
      ghost var start := routes;
      var left := added.Keys;
      AddingFrom(start, added, left);
      ghost var clash: set<Prefix> := {};
      ok := true;
      while ok && left != {}
        invariant left <= added.Keys
        invariant routes == Adding(start, added, if ok then left else left + clash)
        invariant ok ==> start.Keys !! added.Keys - left
        invariant !ok ==> !(start.Keys !! added.Keys)
        decreases if ok then 1 else 0, |left|
      {
        var p :| p in left;
        AddingOne(start, added, left, p);
        ok := AddRoute(p, added[p]);
        if !ok {
          clash := {p};
          assert left - {p} + {p} == left;
        }
        left := left - {p};
      }
      AddingFrom(start, added, if ok then left else left + clash);
    }

    /** The routes part of `update_router`: the removed destinations go, then the added ones come. */
    method Reconcile(requested: seq<Route>) returns (ok: bool)
      modifies this
      ensures (ok && Pairs(routes) == Wanted(requested)) <==> OneHop(Wanted(requested))
      ensures forall p :: p in routes ==> Route(p, routes[p]) in Pairs(old(routes)) + Wanted(requested)
    {
      var added, removed := DiffRoutes(requested, routes);
      KeptAndAdded(routes, requested, added, removed);
      RemoveAll(removed.Keys);
      ok := AddAll(added);
    }
  }
}
