/** Routes as their authors write them: names in braces, and everything else as it stands.  What is
    registered for a written route, and which requests it then answers. */
module WrittenRoutes {
  import opened Text
  import opened SelectingHandler
  import opened Dispatch

  // ---------------------------------------------------------------------------------------------
  // Writing a route and reading it
  // ---------------------------------------------------------------------------------------------

  function Written(seg: Segment): string {
    match seg
    case Literal(text) => text
    case Parameter(name) => "{" + name + "}"
  }

  function WrittenPath(path: Path): seq<string> {
    MapSeq(Written, path)
  }

  /** A parameter has a name, and a literal is not a name in braces. */
  ghost predicate Plain(seg: Segment) {
    match seg
    case Literal(text) => forall name: string :: name != "" ==> text != "{" + name + "}"
    case Parameter(name) => name != ""
  }

  ghost predicate AllPlain(path: Path) {
    forall i :: 0 <= i < |path| ==> Plain(path[i])
  }

  /** A part is read as it was meant exactly when it is plain. */
  lemma SegmentReadsBackIff(seg: Segment)
    ensures SegmentOf(Written(seg)) == seg <==> Plain(seg)
  {
    var part := Written(seg);
    match seg
    case Literal(text) =>
      if SegmentOf(text).Parameter? {
        var name := SegmentOf(text).name;
        assert name != "" && text == "{" + name + "}";
      }
      forall name: string | name != "" && text == "{" + name + "}"
        ensures SegmentOf(text) == Parameter(name)
      {
        assert text[1..|text| - 1] == name;
      }
    case Parameter(name) => assert part[1..|part| - 1] == name;
  }

  /** A route is read as it was meant exactly when all its parts are plain. */
  lemma PathReadsBackIff(path: Path)
    ensures PathOf(WrittenPath(path)) == path <==> AllPlain(path)
  {
    hide SegmentOf, Plain, Written;
    MapAt(Written, path);
    forall i | 0 <= i < |path|
      ensures PathOf(WrittenPath(path))[i] == path[i] <==> Plain(path[i])
    {
      SegmentReadsBackIff(path[i]);
    }
    if AllPlain(path) {
      assert PathOf(WrittenPath(path)) == path;
    }
  }

  const PATH_SEPARATOR := "/"

  ghost predicate NoSeparators(path: Path) {
    forall i :: 0 <= i < |path| ==> '/' !in (if path[i].Literal? then path[i].text else path[i].name)
  }

  /** So is the route written as one string, whose parts are split again. */
  lemma RouteTextReadsBack(path: Path)
    requires path != [] && AllPlain(path) && NoSeparators(path)
    ensures PathOf(Split(Join(WrittenPath(path), PATH_SEPARATOR), PATH_SEPARATOR)) == path
  {
    PathReadsBackIff(path);
    hide AllPlain, PathOf, Split, Join;
    MapAt(Written, path);
    assert Without(WrittenPath(path), '/') by {
      forall i | 0 <= i < |path|
        ensures '/' !in WrittenPath(path)[i]
      {
        assert WrittenPath(path)[i] == Written(path[i]);
      }
    }
    SplitJoin(WrittenPath(path), PATH_SEPARATOR, 0);
  }

  // ---------------------------------------------------------------------------------------------
  // Names along a route
  // ---------------------------------------------------------------------------------------------

  /** No parameter name occurs twice. */
  ghost predicate DistinctNames(path: Path) {
    forall i, j :: 0 <= i < j < |path| && path[i].Parameter? && path[j].Parameter? ==> path[i].name != path[j].name
  }

  lemma DistinctIffNoRepeat(path: Path)
    ensures DistinctNames(path) <==> forall d :: 0 <= d < |path| ==> !Repeats(path, d)
  {
    forall d | 0 <= d < |path|
      ensures Repeats(path, d) <==>
              path[d].Parameter? && exists i :: 0 <= i < d && path[i].Parameter? && path[i].name == path[d].name
    {
      if Repeats(path, d) {
        var i :| 0 <= i < d && path[..d][i] == path[d];
        assert path[i] == path[d];
      }
      forall i | 0 <= i < d && path[i] == path[d]
        ensures path[d] in path[..d]
      {
        assert path[..d][i] == path[d];
      }
    }
  }

  /** Whatever was registered before, a route that is registered names each of its parameters once. */
  lemma RegisteredNamesDistinct(before: set<Entry>, path: Path, verb: string, handler: Handler,
                                outcome: Registration, k: nat, after: set<Entry>)
    requires Registers(before, path, verb, handler, outcome, k, after)
    ensures outcome == Registered ==> DistinctNames(path)
    ensures before == {} ==> (outcome == Registered <==> DistinctNames(path))
  {
    DistinctIffNoRepeat(path);
    if before == {} {
      assert forall d | 0 <= d < |path| :: !Conflicts(before, path, d);
    }
    if k < |path| {
      assert Violates(before, path, k);
    }
    forall d | 0 <= d < k
      ensures !Repeats(path, d)
    {
      assert !Violates(before, path, d);
    }
  }

  // ---------------------------------------------------------------------------------------------
  // What a written route answers
  // ---------------------------------------------------------------------------------------------

  /** The request has the literals of the route, anything where it has a parameter, and anything where it
      has a star. */
  ghost predicate Answerable(path: Path, parts: seq<string>) {
    && |path| == |parts|
    && forall i :: 0 <= i < |path| && path[i].Literal? ==> path[i].text == parts[i] || path[i].text == "*"
  }

  /** Each name of the route, and nothing else, bound to the part at its place. */
  ghost predicate BindsNames(path: Path, parts: seq<string>, parameters: map<string, string>)
    requires |path| == |parts|
  {
    && (forall i :: 0 <= i < |path| && path[i].Parameter? ==>
          path[i].name in parameters && parameters[path[i].name] == parts[i])
    && (forall x :: x in parameters ==> Parameter(x) in path)
  }

  /** Bindings of a path, beside those there were, when its names are new and distinct. */
  lemma {:induction false} BindingsBind(path: Path, parts: seq<string>, bound: map<string, string>)
    requires |path| == |parts| && DistinctNames(path)
    requires forall i :: 0 <= i < |path| && path[i].Parameter? ==> path[i].name !in bound
    ensures var m := Bindings(path, parts, bound);
            && (forall x :: x in bound ==> x in m && m[x] == bound[x])
            && (forall i :: 0 <= i < |path| && path[i].Parameter? ==> path[i].name in m && m[path[i].name] == parts[i])
            && (forall x :: x in m ==> x in bound || Parameter(x) in path)
    decreases |path|
  {
    if path != [] {
      assert path == [path[0]] + path[1..] && parts == [parts[0]] + parts[1..];
      assert forall i :: 1 <= i < |path| ==> path[i] == path[1..][i - 1] && parts[i] == parts[1..][i - 1];
      var more := if path[0].Parameter? then bound[path[0].name := parts[0]] else bound;
      BindingsBind(path[1..], parts[1..], more);
      assert forall x :: Parameter(x) in path <==> Parameter(x) == path[0] || Parameter(x) in path[1..];
    }
  }

  lemma NamesBound(path: Path, parts: seq<string>)
    requires |path| == |parts| && DistinctNames(path)
    ensures BindsNames(path, parts, Bindings(path, parts, map[]))
  {
    BindingsBind(path, parts, map[]);
  }

  /** A written route with nothing beside its parameters and stars answers the requests it is meant for,
      with every name bound. */
  lemma WrittenRouteAnswers(entries: set<Entry>, path: Path, verb: string, handler: Handler, parts: seq<string>)
    requires AllPlain(path) && DistinctNames(path) && Coherent(entries) && Unshadowed(entries, path)
    requires Route(PathOf(WrittenPath(path)), verb, handler) in entries && Answerable(path, parts)
    ensures var answer := Search(entries, 0, verb, parts, map[]);
            answer.Found? && answer.handler == handler && BindsNames(path, parts, answer.parameters)
  {
    PathReadsBackIff(path);
    hide AllPlain, Coherent, Unshadowed, Search, PathOf, Bindings, BindsNames, DistinctNames;
    UnshadowedRouteIsFound(entries, Route(path, verb, handler), parts, map[]);
    NamesBound(path, parts);
  }

  lemma AloneAnswers(path: Path, verb: string, handler: Handler, parts: seq<string>)
    requires AllPlain(path) && DistinctNames(path) && Answerable(path, parts)
    ensures var answer := Search({Route(PathOf(WrittenPath(path)), verb, handler)}, 0, verb, parts, map[]);
            answer.Found? && answer.handler == handler && BindsNames(path, parts, answer.parameters)
  {
    PathReadsBackIff(path);
    hide AllPlain, Search, PathOf, BindsNames, DistinctNames;
    var entries := {Route(path, verb, handler)};
    assert Coherent(entries) by {
      forall p: Path, x, y | Known(entries, p + [Parameter(x)]) && Known(entries, p + [Parameter(y)])
        ensures x == y
      {
        forall z | Known(entries, p + [Parameter(z)])
          ensures |p| < |path| && path[|p|] == Parameter(z)
        {
          var e :| e in entries && Leads(p + [Parameter(z)], e.path);
          assert e.path[|p|] == (p + [Parameter(z)])[|p|];
        }
      }
    }
    WrittenRouteAnswers(entries, path, verb, handler, parts);
  }

  /** A written route is registered with an empty tree, and a request is made: the registration fails only
      on a name written twice, and the request finds the handler with each name bound to its text. */
  method RegisterAndRequest(path: Path, verb: string, handler: Handler, parts: seq<string>)
    returns (outcome: Registration, answer: Response)
    requires AllPlain(path) && Answerable(path, parts)
    ensures outcome == if DistinctNames(path) then Registered else DuplicateParameter
    ensures outcome == Registered ==>
              answer.Found? && answer.handler == handler && BindsNames(path, parts, answer.parameters)
  {
    var responses := new Responses();
    ghost var k: nat;
    outcome, k := responses.Rest(verb, WrittenPath(path), handler);
    PathReadsBackIff(path);
    RegisteredNamesDistinct({}, path, verb, handler, outcome, k, responses.entries);
    assert outcome == ConflictingParameter ==> !Conflicts({}, path, k);
    answer := responses.GetResponseHandler(verb, parts);
    if outcome == Registered {
      assert responses.entries == {Route(path, verb, handler)};
      AloneAnswers(path, verb, handler, parts);
    }
  }
}
