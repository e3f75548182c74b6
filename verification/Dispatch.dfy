/** What the greedy dispatch of `SelectingHandler` promises, stated on the plain entries. */
module Dispatch {
  import opened Text
  import opened SelectingHandler

  // ---------------------------------------------------------------------------------------------
  // What a found handler means
  // ---------------------------------------------------------------------------------------------

  /** The parts name the literals of the path, up to wildcards. */
  ghost predicate Fits(path: Path, parts: seq<string>) {
    && |path| == |parts|
    && forall i :: 0 <= i < |path| && path[i].Literal? ==> path[i].text == parts[i] || path[i].text == WILDCARD_KEY
  }

  ghost function Bindings(path: Path, parts: seq<string>, bound: map<string, string>): map<string, string>
    requires |path| == |parts|
  {
    if path == [] then bound
    else if path[0].Parameter? then Bindings(path[1..], parts[1..], bound[path[0].name := parts[0]])
    else Bindings(path[1..], parts[1..], bound)
  }

  lemma Regroup(q: Path, seg: Segment, tail: Path)
    ensures q + ([seg] + tail) == Snoc(q, seg) + tail
    ensures ([seg] + tail)[1..] == tail
  {
  }

  /** A successful search goes on below one segment, which the first part fits. */
  lemma FoundStep(entries: set<Entry>, q: Path, verb: string, parts: seq<string>, bound: map<string, string>)
    returns (seg: Segment)
    requires parts != [] && Search(Under(entries, q), |q|, verb, parts, bound).Found?
    ensures Fits([seg], parts[..1])
    ensures Search(Under(entries, q), |q|, verb, parts, bound) ==
            Search(Under(entries, Snoc(q, seg)), |q| + 1, verb, parts[1..],
                   if seg.Parameter? then bound[seg.name := parts[0]] else bound)
  {
    SearchStep(entries, q, verb, parts, bound);
    var below := Under(entries, q);
    seg := if Known(entries, Snoc(q, Literal(parts[0]))) then Literal(parts[0])
           else if HasParameter(below, |q|) then Parameter(ParameterAt(below, |q|))
           else Literal(WILDCARD_KEY);
  }

  /** Every answer comes from a registered route that fits the request, with its parameters bound. */
  lemma {:induction false} FoundIsRegistered(entries: set<Entry>, q: Path, verb: string, parts: seq<string>,
                                             bound: map<string, string>)
    returns (rest: Path)
    requires Search(Under(entries, q), |q|, verb, parts, bound).Found?
    ensures var found := Search(Under(entries, q), |q|, verb, parts, bound);
            && Route(q + rest, verb, found.handler) in entries
            && Fits(rest, parts)
            && found.parameters == Bindings(rest, parts, bound)
    decreases |parts|
  {
    if parts == [] {
      rest := [];
      var below := Under(entries, q);
      var e :| e in below && e.Route? && |e.path| == |q| && e.verb == verb && e.handler == HandlerAt(below, |q|, verb);
      assert e == Route(q, verb, e.handler) && q + rest == q;
    } else {
      var seg := FoundStep(entries, q, verb, parts, bound);
      var bound' := if seg.Parameter? then bound[seg.name := parts[0]] else bound;
      var tail := FoundIsRegistered(entries, Snoc(q, seg), verb, parts[1..], bound');
      rest := [seg] + tail;
      Regroup(q, seg, tail);
    }
  }

  // ---------------------------------------------------------------------------------------------
  // When a registered route is found
  // ---------------------------------------------------------------------------------------------

  /** The segment the search goes on with: the literal, else a parameter, else the wildcard. */
  ghost function Next(entries: set<Entry>, q: Path, part: string): Option<Segment> {
    if Known(entries, Snoc(q, Literal(part))) then Some(Literal(part))
    else if HasParameter(Under(entries, q), |q|) then Some(Parameter(ParameterAt(Under(entries, q), |q|)))
    else if Known(entries, Snoc(q, Literal(WILDCARD_KEY))) then Some(Literal(WILDCARD_KEY))
    else None
  }

  /** The one path the search follows, or none when it gets stuck. */
  ghost function Walk(entries: set<Entry>, q: Path, parts: seq<string>): Option<Path>
    decreases |parts|
  {
    if parts == [] then Some([])
    else
      var seg := Next(entries, q, parts[0]);
      if seg == None then None
      else
        var rest := Walk(entries, Snoc(q, seg.value), parts[1..]);
        if rest == None then None else Some([seg.value] + rest.value)
  }

  /** The answer is that of the routes at the end of the path followed. */
  ghost predicate AnswersFrom(entries: set<Entry>, path: Path, verb: string, parameters: map<string, string>,
                              answer: Response) {
    match answer
    case Found(handler, bound) => Route(path, verb, handler) in entries && bound == parameters
    case MethodNotAllowed => !Taken(entries, path, verb) && exists v :: Taken(entries, path, v)
    case PathNotFound => forall v :: !Taken(entries, path, v)
  }

  lemma WalkEnds(entries: set<Entry>, q: Path, verb: string, bound: map<string, string>)
    ensures AnswersFrom(entries, q, verb, bound, Search(Under(entries, q), |q|, verb, [], bound))
  {
    var below := Under(entries, q);
    forall e | e in below && |e.path| == |q|
      ensures e.path == q && (e.Route? ==> e == Route(q, e.verb, e.handler))
    {
    }
    assert forall v, h :: Route(q, v, h) in entries ==> Route(q, v, h) in below;
    if EndsAt(below, |q|) {
      var e :| e in below && e.Route? && |e.path| == |q|;
      assert Taken(entries, q, e.verb);
    }
  }

  lemma NextStep(entries: set<Entry>, q: Path, verb: string, parts: seq<string>, bound: map<string, string>)
    requires parts != []
    ensures var seg := Next(entries, q, parts[0]);
            Search(Under(entries, q), |q|, verb, parts, bound) ==
            if seg == None then PathNotFound
            else Search(Under(entries, Snoc(q, seg.value)), |q| + 1, verb, parts[1..],
                        if seg.value.Parameter? then bound[seg.value.name := parts[0]] else bound)
  {
    SearchStep(entries, q, verb, parts, bound);
  }

  /** The search answers what is registered at the end of its walk, and nothing when it gets stuck. */
  lemma {:induction false} SearchIsWalk(entries: set<Entry>, q: Path, verb: string, parts: seq<string>,
                                        bound: map<string, string>)
    ensures var answer := Search(Under(entries, q), |q|, verb, parts, bound);
            match Walk(entries, q, parts)
            case None => answer == PathNotFound
            case Some(rest) =>
              |rest| == |parts| && AnswersFrom(entries, q + rest, verb, Bindings(rest, parts, bound), answer)
    decreases |parts|
  {
    if parts == [] {
      WalkEnds(entries, q, verb, bound);
      assert q + [] == q;
    } else {
      NextStep(entries, q, verb, parts, bound);
      var seg := Next(entries, q, parts[0]);
      if seg.Some? {
        var bound' := if seg.value.Parameter? then bound[seg.value.name := parts[0]] else bound;
        SearchIsWalk(entries, Snoc(q, seg.value), verb, parts[1..], bound');
        var rest := Walk(entries, Snoc(q, seg.value), parts[1..]);
        if rest.Some? {
          Regroup(q, seg.value, rest.value);
        }
      }
    }
  }

  /** At this depth the search prefers the segment of the path: it is the part itself, or no entry has
      that literal there, and the segment is the parameter, or the wildcard where there is no parameter. */
  ghost predicate Preferred(entries: set<Entry>, path: Path, parts: seq<string>, d: nat)
    requires d < |path| && d < |parts|
  {
    || path[d] == Literal(parts[d])
    || (&& !Known(entries, Snoc(path[..d], Literal(parts[d])))
        && (path[d].Parameter? ||
            (path[d] == Literal(WILDCARD_KEY) && forall x :: !Known(entries, Snoc(path[..d], Parameter(x))))))
  }

  lemma ParameterIffKnown(entries: set<Entry>, q: Path)
    ensures HasParameter(Under(entries, q), |q|) <==> exists x :: Known(entries, Snoc(q, Parameter(x)))
    ensures HasParameter(Under(entries, q), |q|) ==>
              Known(entries, Snoc(q, Parameter(ParameterAt(Under(entries, q), |q|))))
  {
    if HasParameter(Under(entries, q), |q|) {
      var x := ParameterAt(Under(entries, q), |q|);
      var e :| e in Under(entries, q) && |q| < |e.path| && e.path[|q|].Parameter? && e.path[|q|].name == x;
      NextOfPrefix(q, e.path);
      assert Leads(Snoc(q, Parameter(x)), e.path);
    }
    if x :| Known(entries, Snoc(q, Parameter(x))) {
      var e :| e in entries && Leads(Snoc(q, Parameter(x)), e.path);
      assert q <= e.path && e.path[|q|] == Parameter(x);
    }
  }

  lemma KnownPrefix(entries: set<Entry>, path: Path, d: nat)
    requires Known(entries, path) && d < |path|
    ensures Known(entries, Snoc(path[..d], path[d]))
  {
    var e :| e in entries && Leads(path, e.path);
    NextPrefix(path, d);
    assert Leads(path[..d + 1], e.path);
  }

  lemma OneName(entries: set<Entry>, q: Path, x: string, y: string)
    requires Coherent(entries) && Known(entries, Snoc(q, Parameter(x))) && Known(entries, Snoc(q, Parameter(y)))
    ensures x == y
  {
    assert Snoc(q, Parameter(x)) == q + [Parameter(x)] && Snoc(q, Parameter(y)) == q + [Parameter(y)];
  }

  lemma NextIffPreferred(entries: set<Entry>, path: Path, parts: seq<string>, d: nat)
    requires Coherent(entries) && Known(entries, path) && d < |path| && d < |parts|
    ensures Next(entries, path[..d], parts[d]) == Some(path[d]) <==> Preferred(entries, path, parts, d)
  {
    var q := path[..d];
    KnownPrefix(entries, path, d);
    ParameterIffKnown(entries, q);
    if path[d].Parameter? && HasParameter(Under(entries, q), |q|) {
      OneName(entries, q, path[d].name, ParameterAt(Under(entries, q), |q|));
    }
    hide Known, HasParameter, ParameterAt, Under, Coherent;
  }

  lemma SameTail(seg: Segment, x: Path, y: Path)
    ensures [seg] + x == [seg] + y <==> x == y
  {
    if [seg] + x == [seg] + y {
      assert ([seg] + x)[1..] == x && ([seg] + y)[1..] == y;
    }
  }

  lemma WalkStep(entries: set<Entry>, path: Path, parts: seq<string>, d: nat)
    requires d < |path| && d < |parts|
    ensures Walk(entries, path[..d], parts[d..]) == Some(path[d..]) <==>
            Next(entries, path[..d], parts[d]) == Some(path[d]) &&
            Walk(entries, path[..d + 1], parts[d + 1..]) == Some(path[d + 1..])
  {
    hide Next;
    NextPrefix(path, d);
    assert parts[d..][0] == parts[d] && parts[d..][1..] == parts[d + 1..];
    assert path[d..] == [path[d]] + path[d + 1..] && path[d..][0] == path[d];
    var seg := Next(entries, path[..d], parts[d]);
    if seg.Some? {
      var rest := Walk(entries, Snoc(path[..d], seg.value), parts[d + 1..]);
      if rest.Some? {
        assert ([seg.value] + rest.value)[0] == seg.value;
        SameTail(path[d], rest.value, path[d + 1..]);
      }
    }
  }

  /** The walk follows the rest of a known path exactly when every segment of it is preferred. */
  lemma {:induction false} WalkFollowsIff(entries: set<Entry>, path: Path, parts: seq<string>, d: nat)
    requires Coherent(entries) && Known(entries, path) && |path| == |parts| && d <= |path|
    ensures Walk(entries, path[..d], parts[d..]) == Some(path[d..]) <==>
            forall i :: d <= i < |path| ==> Preferred(entries, path, parts, i)
    decreases |path| - d
  {
    if d < |path| {
      hide Walk, Next, Preferred, Coherent, Known;
      NextIffPreferred(entries, path, parts, d);
      WalkStep(entries, path, parts, d);
      WalkFollowsIff(entries, path, parts, d + 1);
    } else {
      assert parts[d..] == [] && path[d..] == [];
    }
  }

  /** A registered route is what a request reaches if and only if every one of its segments is preferred; it
      then answers the request, and else the search ends at another path or nowhere. */
  lemma RouteIsFoundIff(entries: set<Entry>, route: Entry, parts: seq<string>, bound: map<string, string>)
    requires Coherent(entries) && route in entries && route.Route? && |route.path| == |parts|
    ensures Walk(entries, [], parts) == Some(route.path) <==>
              forall d :: 0 <= d < |parts| ==> Preferred(entries, route.path, parts, d)
    ensures (forall d :: 0 <= d < |parts| ==> Preferred(entries, route.path, parts, d)) ==>
              Search(entries, 0, route.verb, parts, bound) == Found(route.handler, Bindings(route.path, parts, bound))
  {
    var path := route.path;
    assert Known(entries, path) by {
      assert Leads(path, route.path);
    }
    assert Under(entries, []) == entries;
    hide Search, Walk, Preferred, Bindings, Known, Under;
    assert path[..0] == [] && parts[0..] == parts && path[0..] == path && [] + path == path;
    WalkFollowsIff(entries, path, parts, 0);
    SearchIsWalk(entries, [], route.verb, parts, bound);
    if Walk(entries, [], parts) == Some(path) {
      FoundAtEnd(entries, route, Bindings(path, parts, bound), Search(entries, 0, route.verb, parts, bound));
    }
  }

  lemma FoundAtEnd(entries: set<Entry>, route: Entry, parameters: map<string, string>, answer: Response)
    requires Coherent(entries) && route in entries && route.Route?
    requires AnswersFrom(entries, route.path, route.verb, parameters, answer)
    ensures answer == Found(route.handler, parameters)
  {
    assert route == Route(route.path, route.verb, route.handler);
    assert Taken(entries, route.path, route.verb);
  }

  /** Beside a parameter or a wildcard there is nothing else. */
  ghost predicate Unshadowed(entries: set<Entry>, path: Path) {
    forall d, e | 0 <= d < |path| && e in entries && d < |e.path| && e.path[..d] == path[..d] ::
      path[d].Parameter? || path[d] == Literal(WILDCARD_KEY) ==> e.path[d] == path[d]
  }

  lemma OnlyNext(entries: set<Entry>, path: Path, d: nat, seg: Segment)
    requires d < |path| && Unshadowed(entries, path) && Known(entries, Snoc(path[..d], seg))
    requires path[d].Parameter? || path[d] == Literal(WILDCARD_KEY)
    ensures seg == path[d]
  {
    var q := path[..d];
    var e :| e in entries && Leads(Snoc(q, seg), e.path);
    assert e.path[..d] == Snoc(q, seg)[..d] == q && e.path[d] == Snoc(q, seg)[d];
  }

  /** A route with nothing beside its parameters and wildcards answers every request that fits it. */
  lemma UnshadowedRouteIsFound(entries: set<Entry>, route: Entry, parts: seq<string>, bound: map<string, string>)
    requires Coherent(entries) && route in entries && route.Route?
    requires Unshadowed(entries, route.path) && Fits(route.path, parts)
    ensures Search(entries, 0, route.verb, parts, bound) == Found(route.handler, Bindings(route.path, parts, bound))
  {
    hide Coherent, Search, Bindings, Known, Unshadowed;
    forall d | 0 <= d < |parts|
      ensures Preferred(entries, route.path, parts, d)
    {
      forall seg | Known(entries, Snoc(route.path[..d], seg)) && route.path[d] != Literal(parts[d])
        ensures seg == route.path[d]
      {
        OnlyNext(entries, route.path, d, seg);
      }
    }
    RouteIsFoundIff(entries, route, parts, bound);
  }

  /** The search does not go back: a fitting route is missed behind a literal that leads nowhere. */
  lemma LiteralHidesParameter()
    ensures var entries := {Route([Literal("a"), Literal("b")], "GET", "f"),
                            Route([Parameter("x"), Literal("c")], "GET", "g")};
            && Coherent(entries)
            && Fits([Parameter("x"), Literal("c")], ["a", "c"])
            && Search(entries, 0, "GET", ["a", "c"], map[]) == PathNotFound
  {
    var f := Route([Literal("a"), Literal("b")], "GET", "f");
    var g := Route([Parameter("x"), Literal("c")], "GET", "g");
    var entries := {f, g};
    forall p: Path, x, y | Known(entries, p + [Parameter(x)]) && Known(entries, p + [Parameter(y)])
      ensures x == y
    {
      forall z | Known(entries, p + [Parameter(z)])
        ensures p == [] && z == "x"
      {
        var e :| e in entries && Leads(p + [Parameter(z)], e.path);
        assert e.path[|p|] == (p + [Parameter(z)])[|p|];
      }
    }
    assert f in Narrow(entries, 0, Literal("a"));
    assert Narrow(entries, 0, Literal("a")) == {f};
    var below := {f};
    assert f.path[1].text[0] != "c"[0];
    assert Narrow(below, 1, Literal("c")) == {};
    assert Narrow(below, 1, Literal(WILDCARD_KEY)) == {} by {
      assert f.path[1].text[0] != WILDCARD_KEY[0];
    }
    assert ["a", "c"][1..] == ["c"];
    assert Search(below, 1, "GET", ["c"], map[]) == PathNotFound;
  }

  /** What a tree represents is coherent. */
  lemma RepresentedIsCoherent(nodes: seq<Node>, at: map<Path, nat>, entries: set<Entry>)
    requires Represents(nodes, at, entries)
    ensures Coherent(entries)
  {
    forall p: Path, x, y | Known(entries, p + [Parameter(x)]) && Known(entries, p + [Parameter(y)])
      ensures x == y
    {
      assert Snoc(p, Parameter(x)) in at && Snoc(p, Parameter(y)) in at;
      assert nodes[at[p]].Child(Parameter(x)).Some? && nodes[at[p]].Child(Parameter(y)).Some?;
    }
    forall p, v, g, h | Route(p, v, g) in entries && Route(p, v, h) in entries
      ensures g == h
    {
      assert Leads(p, Route(p, v, g).path);
      assert Known(entries, p);
      assert nodes[at[p]].Answers(v, g) && nodes[at[p]].Answers(v, h);
    }
  }

  // ---------------------------------------------------------------------------------------------
  // The order of registration
  // ---------------------------------------------------------------------------------------------

  ghost predicate Accepts(entries: set<Entry>, route: Entry) {
    route.Route? && CleanBelow(entries, route.path, |route.path|) && !Taken(entries, route.path, route.verb)
  }

  /** A registration succeeds exactly when the entries accept the route. */
  lemma RegisteredIffAccepted(before: set<Entry>, path: Path, verb: string, handler: Handler,
                              outcome: Registration, k: nat, after: set<Entry>)
    requires Registers(before, path, verb, handler, outcome, k, after)
    ensures outcome == Registered <==> Accepts(before, Route(path, verb, handler))
    ensures outcome == Registered ==> after == before + {Route(path, verb, handler)}
  {
    if outcome == DuplicateParameter || outcome == ConflictingParameter {
      assert Violates(before, path, k);
    }
  }

  ghost predicate AllAccepted(entries: set<Entry>, routes: seq<Entry>)
    decreases |routes|
  {
    routes == [] || (Accepts(entries, routes[0]) && AllAccepted(entries + {routes[0]}, routes[1..]))
  }

  lemma InhabitedWith(entries: set<Entry>, e: Entry, path: Path)
    requires Inhabited(entries, path)
    ensures Inhabited(entries + {e}, path)
  {
    var d :| d in entries && Leads(path, d.path) && (path != d.path || d.Route?);
    assert d in entries + {e};
  }

  lemma NoConflictSwapped(entries: set<Entry>, r: Entry, s: Entry, d: nat)
    requires Accepts(entries, r) && Accepts(entries + {r}, s) && d < |r.path|
    ensures !Conflicts(entries + {s}, r.path, d)
  {
    var q := r.path[..d];
    assert !Violates(entries, r.path, d);
    forall y | r.path[d].Parameter? && Known(entries + {s}, q + [Parameter(y)])
      ensures Inhabited(entries + {s}, r.path[..d + 1])
    {
      var p := q + [Parameter(y)];
      KnownWith(entries, s);
      KnownWith(entries, r);
      if Known(entries, p) {
        InhabitedWith(entries, s, r.path[..d + 1]);
      } else {
        assert s.path[..d + 1] == p && s.path[..d] == q;
        assert !Violates(entries + {r}, s.path, d);
        assert q + [r.path[d]] == r.path[..d + 1];
        assert Known(entries + {r}, q + [Parameter(r.path[d].name)]);
        var e :| e in entries + {r} && Leads(p, e.path) && (p != e.path || e.Route?);
        assert e == r;
        assert r.path[..d + 1] == p;
        assert s in entries + {s} && Leads(p, s.path);
      }
    }
  }

  lemma AcceptedAlone(entries: set<Entry>, r: Entry, s: Entry)
    requires Accepts(entries + {r}, s) && Accepts(entries, r)
    ensures Accepts(entries, s)
  {
    forall d | 0 <= d < |s.path|
      ensures !Violates(entries, s.path, d)
    {
      assert !Violates(entries + {r}, s.path, d);
      var p := s.path[..d + 1];
      forall y | s.path[d].Parameter? && Known(entries, s.path[..d] + [Parameter(y)])
        ensures Inhabited(entries, p)
      {
        KnownWith(entries, r);
        assert Known(entries + {r}, s.path[..d] + [Parameter(y)]);
        var e :| e in entries + {r} && Leads(p, e.path) && (p != e.path || e.Route?);
        if e !in entries {
          assert r.path[..d + 1] == p && r.path[..d] == s.path[..d] && r.path[d] == s.path[d];
          assert !Violates(entries, r.path, d);
        }
      }
    }
    forall h
      ensures Route(s.path, s.verb, h) !in entries
    {
      assert Route(s.path, s.verb, h) !in entries + {r};
    }
  }

  /** Two registrations that succeed one after the other succeed the other way round. */
  lemma Commute(entries: set<Entry>, r: Entry, s: Entry)
    requires Accepts(entries, r) && Accepts(entries + {r}, s)
    ensures Accepts(entries, s) && Accepts(entries + {s}, r)
  {
    AcceptedAlone(entries, r, s);
    forall d | 0 <= d < |r.path|
      ensures !Violates(entries + {s}, r.path, d)
    {
      assert !Violates(entries, r.path, d);
      NoConflictSwapped(entries, r, s, d);
    }
    forall h
      ensures Route(r.path, r.verb, h) !in entries + {s}
    {
      assert Route(r.path, r.verb, h) !in entries;
      assert Route(s.path, s.verb, r.handler) !in entries + {r};
    }
  }

  lemma {:induction false} MoveToFront(entries: set<Entry>, routes: seq<Entry>, i: nat)
    requires i < |routes| && AllAccepted(entries, routes)
    ensures AllAccepted(entries, [routes[i]] + routes[..i] + routes[i + 1..])
    decreases i
  {
    if i == 0 {
      assert [routes[0]] + routes[..0] + routes[1..] == routes;
    } else {
      var tail := routes[1..];
      MoveToFront(entries + {routes[0]}, tail, i - 1);
      var moved := [tail[i - 1]] + tail[..i - 1] + tail[i..];
      assert moved[0] == routes[i] && moved[1..] == tail[..i - 1] + tail[i..];
      Commute(entries, routes[0], routes[i]);
      var result := [routes[i]] + routes[..i] + routes[i + 1..];
      assert routes[..i] == [routes[0]] + tail[..i - 1] && routes[i + 1..] == tail[i..];
      assert result[1..] == [routes[0]] + moved[1..] && result[1..][1..] == moved[1..];
      assert entries + {routes[0]} + {routes[i]} == entries + {routes[i]} + {routes[0]};
    }
  }

  lemma BringToFront(entries: set<Entry>, routes: seq<Entry>, first: Entry) returns (rest: seq<Entry>)
    requires AllAccepted(entries, routes) && first in routes
    ensures AllAccepted(entries, [first] + rest)
    ensures multiset([first]) + multiset(rest) == multiset(routes)
  {
    hide AllAccepted;
    var i :| 0 <= i < |routes| && routes[i] == first;
    MoveToFront(entries, routes, i);
    rest := routes[..i] + routes[i + 1..];
    assert [first] + rest == [routes[i]] + routes[..i] + routes[i + 1..];
    PickedOut(routes, i);
  }

  lemma PickedOut(routes: seq<Entry>, i: nat)
    requires i < |routes|
    ensures multiset([routes[i]]) + multiset(routes[..i] + routes[i + 1..]) == multiset(routes)
  {
    assert routes == routes[..i] + [routes[i]] + routes[i + 1..];
  }

  lemma SameMembers(s: seq<Entry>, t: seq<Entry>)
    requires multiset(s) == multiset(t)
    ensures (set e | e in s) == (set e | e in t)
    ensures s != [] ==> s[0] in t
  {
    forall e
      ensures e in s <==> e in t
    {
      assert e in multiset(s) <==> e in multiset(t);
    }
  }

  lemma TailOf(s: seq<Entry>, rest: seq<Entry>)
    requires s != [] && multiset([s[0]]) + multiset(rest) == multiset(s)
    ensures multiset(rest) == multiset(s[1..])
  {
    assert s == [s[0]] + s[1..];
    assert multiset(rest) == multiset(s) - multiset([s[0]]);
  }

  /** Routes that all register do so in every order; the entries, and so every lookup, are the same. */
  lemma {:induction false} OrderDoesNotMatter(entries: set<Entry>, routes: seq<Entry>, shuffled: seq<Entry>)
    requires AllAccepted(entries, routes) && multiset(shuffled) == multiset(routes)
    ensures AllAccepted(entries, shuffled)
    ensures entries + Members(shuffled) == entries + Members(routes)
    decreases |shuffled|
  {
    SameMembers(shuffled, routes);
    if shuffled != [] {
      var rest := BringToFront(entries, routes, shuffled[0]);
      assert ([shuffled[0]] + rest)[1..] == rest;
      TailOf(shuffled, rest);
      OrderDoesNotMatter(entries + {shuffled[0]}, rest, shuffled[1..]);
    }
  }

  // ---------------------------------------------------------------------------------------------
  // A whole module of declarations
  // ---------------------------------------------------------------------------------------------

  /** One use of the `rest` decorator. */
  datatype Declaration = Declaration(verb: string, parts: seq<string>, handler: Handler)

  function RouteOf(d: Declaration): Entry {
    Route(PathOf(d.parts), d.verb, d.handler)
  }

  function RoutesOf(declarations: seq<Declaration>): (routes: seq<Entry>)
    ensures |routes| == |declarations|
    ensures forall i :: 0 <= i < |routes| ==> routes[i] == RouteOf(declarations[i])
  {
    seq(|declarations|, i requires 0 <= i < |declarations| => RouteOf(declarations[i]))
  }

  function Members(routes: seq<Entry>): set<Entry> {
    set e | e in routes
  }

  lemma MembersMore(entries: set<Entry>, routes: seq<Entry>, i: nat)
    requires i < |routes|
    ensures entries + Members(routes[..i]) + {routes[i]} == entries + Members(routes[..i + 1])
  {
    assert routes[..i + 1] == routes[..i] + [routes[i]];
  }

  lemma AcceptedNext(entries: set<Entry>, routes: seq<Entry>, i: nat)
    requires i < |routes|
    ensures AllAccepted(entries, routes[i..]) <==>
            Accepts(entries, routes[i]) && AllAccepted(entries + {routes[i]}, routes[i + 1..])
  {
    hide Accepts;
    assert routes[i..][0] == routes[i] && routes[i..][1..] == routes[i + 1..];
  }

  lemma AtStartAndEnd(entries: set<Entry>, routes: seq<Entry>)
    ensures entries + Members(routes[..0]) == entries && routes[0..] == routes && routes[..|routes|] == routes
    ensures AllAccepted(entries + Members(routes), routes[|routes|..])
  {
    assert routes[|routes|..] == [];
  }

  /** The decorators of a module, run one after the other: none fails exactly when each route is accepted
      after those before it, and then the entries, which every lookup searches, are the routes declared. */
  method DeclareAll(responses: Responses, declarations: seq<Declaration>) returns (ok: bool)
    requires responses.Valid()
    modifies responses
    ensures responses.Valid()
    ensures ok <==> AllAccepted(old(responses.entries), RoutesOf(declarations))
    ensures ok ==> responses.entries == old(responses.entries) + Members(RoutesOf(declarations))
  {
    hide Accepts, Registers, PathOf, AllAccepted, Members;
    ghost var start := responses.entries;
    ghost var routes := RoutesOf(declarations);
    var i := 0;
    AtStartAndEnd(start, routes);
    while i < |declarations|
      invariant 0 <= i <= |declarations| && responses.Valid()
      invariant responses.entries == start + Members(routes[..i])
      invariant AllAccepted(start, routes) <==> AllAccepted(responses.entries, routes[i..])
    {
      ghost var before := responses.entries;
      var d := declarations[i];
      AcceptedNext(before, routes, i);
      MembersMore(start, routes, i);
      var outcome;
      ghost var k: nat;
      outcome, k := responses.Rest(d.verb, d.parts, d.handler);
      RegisteredIffAccepted(before, PathOf(d.parts), d.verb, d.handler, outcome, k, responses.entries);
      if outcome != Registered {
        return false;
      }
      i := i + 1;
    }
    return true;
  }
}
