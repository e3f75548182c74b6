/** The REST dispatcher of provider/handlers/selecting_handler.py.

    `rest` grows a tree of nested dictionaries in place; `get_response_handler` walks it greedily.
    The dictionaries live in one growing table and refer to each other by index.  The meaning of a
    tree is the plain set of entries that was put into it.  An entry is a registered route, or the
    stub a rejected registration leaves behind.
  */
module SelectingHandler {
  import opened Text

  const WILDCARD_KEY := "*"

  type Handler = string

  datatype Segment = Literal(text: string) | Parameter(name: string)

  type Path = seq<Segment>

  ghost function Snoc(p: Path, seg: Segment): Path {
    p + [seg]
  }

  /** A part of a route is a parameter when it is a non-empty name in braces. */
  function SegmentOf(part: string): Segment {
    if |part| > 2 && part[0] == '{' && part[|part| - 1] == '}' then
      Parameter(part[1..|part| - 1])
    else
      Literal(part)
  }

  function PathOf(parts: seq<string>): (path: Path)
    ensures |path| == |parts|
    ensures forall i :: 0 <= i < |parts| ==> path[i] == SegmentOf(parts[i])
  {
    seq(|parts|, i requires 0 <= i < |parts| => SegmentOf(parts[i]))
  }

  datatype Entry =
    | Route(path: Path, verb: string, handler: Handler)
    | Stub(path: Path)

  datatype Registration = Registered | DuplicateParameter | ConflictingParameter | DuplicateRoute

  datatype Response = Found(handler: Handler, parameters: map<string, string>) | PathNotFound | MethodNotAllowed

  // ---------------------------------------------------------------------------------------------
  // The plain view: what registration and lookup mean on a set of entries
  // ---------------------------------------------------------------------------------------------

  ghost predicate Leads(p: Path, q: Path) {
    p <= q
  }

  ghost predicate Known(entries: set<Entry>, path: Path) {
    exists e :: e in entries && Leads(path, e.path)
  }

  /** Something hangs below `path`, or a method is registered at it. */
  ghost predicate Inhabited(entries: set<Entry>, path: Path) {
    exists e :: e in entries && Leads(path, e.path) && (path != e.path || e.Route?)
  }

  /** The parameter at depth `d` repeats a name, competes with another name, or meets a bare stub. */
  ghost predicate Repeats(path: Path, d: nat)
    requires d < |path|
  {
    path[d].Parameter? && path[d] in path[..d]
  }

  ghost predicate Conflicts(entries: set<Entry>, path: Path, d: nat)
    requires d < |path|
  {
    && path[d].Parameter?
    && (exists y :: Known(entries, path[..d] + [Parameter(y)]))
    && !Inhabited(entries, path[..d + 1])
  }

  ghost predicate Violates(entries: set<Entry>, path: Path, d: nat)
    requires d < |path|
  {
    Repeats(path, d) || Conflicts(entries, path, d)
  }

  ghost predicate CleanBelow(entries: set<Entry>, path: Path, k: nat)
    requires k <= |path|
  {
    forall d :: 0 <= d < k ==> !Violates(entries, path, d)
  }

  lemma CleanNext(entries: set<Entry>, path: Path, i: nat)
    requires i < |path| && CleanBelow(entries, path, i) && !Violates(entries, path, i)
    ensures CleanBelow(entries, path, i + 1)
  {
  }

  ghost predicate Taken(entries: set<Entry>, path: Path, verb: string) {
    exists h :: Route(path, verb, h) in entries
  }

  /** The outcome of a registration and the entries after it; `k` is the depth reached. */
  ghost predicate Registers(before: set<Entry>, path: Path, verb: string, handler: Handler,
                            outcome: Registration, k: nat, after: set<Entry>)
  {
    && k <= |path|
    && CleanBelow(before, path, k)
    && match outcome
       case Registered =>
         k == |path| && !Taken(before, path, verb) && after == before + {Route(path, verb, handler)}
       case DuplicateRoute =>
         k == |path| && Taken(before, path, verb) && after == before
       case DuplicateParameter =>
         k < |path| && Repeats(path, k) && after == before + {Stub(path[..k])}
       case ConflictingParameter =>
         k < |path| && !Repeats(path, k) && Conflicts(before, path, k) && after == before + {Stub(path[..k])}
  }

  ghost function Under(entries: set<Entry>, path: Path): set<Entry> {
    set e | e in entries && path <= e.path
  }

  /** The candidates whose segment at depth `d` is `seg`. */
  ghost function Narrow(candidates: set<Entry>, d: nat, seg: Segment): set<Entry> {
    set e | e in candidates && d < |e.path| && e.path[d] == seg
  }

  ghost predicate HasParameter(candidates: set<Entry>, d: nat) {
    exists e :: e in candidates && d < |e.path| && e.path[d].Parameter?
  }

  ghost function ParameterAt(candidates: set<Entry>, d: nat): string
    requires HasParameter(candidates, d)
  {
    var e :| e in candidates && d < |e.path| && e.path[d].Parameter?;
    e.path[d].name
  }

  ghost predicate EndsAt(candidates: set<Entry>, d: nat) {
    exists e :: e in candidates && e.Route? && |e.path| == d
  }

  ghost predicate AnswersAt(candidates: set<Entry>, d: nat, verb: string) {
    exists e :: e in candidates && e.Route? && |e.path| == d && e.verb == verb
  }

  ghost function HandlerAt(candidates: set<Entry>, d: nat, verb: string): Handler
    requires AnswersAt(candidates, d, verb)
  {
    var e :| e in candidates && e.Route? && |e.path| == d && e.verb == verb;
    e.handler
  }

  /** Lookup on the plain set: at each part keep the entries with that literal, else those with a
      parameter, else those with the wildcard; never go back. */
  ghost function Search(candidates: set<Entry>, d: nat, verb: string, parts: seq<string>,
                        bound: map<string, string>): Response
    decreases |parts|
  {
    if parts == [] then
      if !EndsAt(candidates, d) then PathNotFound
      else if !AnswersAt(candidates, d, verb) then MethodNotAllowed
      else Found(HandlerAt(candidates, d, verb), bound)
    else if Narrow(candidates, d, Literal(parts[0])) != {} then
      Search(Narrow(candidates, d, Literal(parts[0])), d + 1, verb, parts[1..], bound)
    else if HasParameter(candidates, d) then
      var x := ParameterAt(candidates, d);
      Search(Narrow(candidates, d, Parameter(x)), d + 1, verb, parts[1..], bound[x := parts[0]])
    else if Narrow(candidates, d, Literal(WILDCARD_KEY)) != {} then
      Search(Narrow(candidates, d, Literal(WILDCARD_KEY)), d + 1, verb, parts[1..], bound)
    else
      PathNotFound
  }

  /** One parameter name per node, one handler per path and method: what registration preserves. */
  ghost predicate Coherent(entries: set<Entry>) {
    && (forall p: Path, x, y :: Known(entries, p + [Parameter(x)]) && Known(entries, p + [Parameter(y)]) ==> x == y)
    && (forall p, v, g, h :: Route(p, v, g) in entries && Route(p, v, h) in entries ==> g == h)
  }

  lemma NextOfPrefix(q: Path, r: Path)
    requires q <= r && q != r
    ensures Snoc(q, r[|q|]) <= r
  {
    assert r[..|q| + 1] == Snoc(q, r[|q|]);
  }

  lemma NextPrefix(path: Path, i: nat)
    requires i < |path|
    ensures path[..i + 1] == Snoc(path[..i], path[i])
    ensures forall x :: x in path[..i + 1] <==> x in path[..i] || x == path[i]
  {
  }

  lemma SnocInjective(q: Path, last: Segment)
    ensures forall p, seg :: Snoc(p, seg) == Snoc(q, last) ==> p == q && seg == last
  {
    forall p, seg | Snoc(p, seg) == Snoc(q, last)
      ensures p == q && seg == last
    {
      assert (p + [seg])[..|p|] == p && (q + [last])[..|q|] == q;
      assert (p + [seg])[|p|] == seg;
    }
  }

  // ---------------------------------------------------------------------------------------------
  // The tree
  // ---------------------------------------------------------------------------------------------

  /** One dictionary.  `parameters` is the dictionary under '#PARAMETER' and `methods` the one under
      '#VALUE'; the other keys are the literals.  Children are indices into the table. */
  datatype Node = Node(literals: map<string, nat>, parameters: map<string, nat>, methods: Option<map<string, Handler>>)
  {
    /** Python's falsity of an empty dictionary. */
    predicate IsEmpty() {
      literals == map[] && parameters == map[] && methods == None
    }

    ghost function Child(seg: Segment): Option<nat> {
      match seg
      case Literal(k) => if k in literals then Some(literals[k]) else None
      case Parameter(k) => if k in parameters then Some(parameters[k]) else None
    }

    function WithChild(seg: Segment, child: nat): Node {
      match seg
      case Literal(k) => this.(literals := literals[k := child])
      case Parameter(k) => this.(parameters := parameters[k := child])
    }

    function Methods(): map<string, Handler> {
      if methods.Some? then methods.value else map[]
    }

    ghost predicate OneParameter() {
      forall x, y :: x in parameters && y in parameters ==> x == y
    }

    ghost predicate Answers(verb: string, handler: Handler) {
      methods.Some? && verb in methods.value && methods.value[verb] == handler
    }
  }

  const EMPTY_NODE := Node(map[], map[], None)

  /** `at` says where the dictionary of each path is. */
  ghost predicate Indexed(nodes: seq<Node>, at: map<Path, nat>) {
    && [] in at && at[[]] == 0
    && (forall p :: p in at ==> at[p] < |nodes|)
    && (forall p, q :: p in at && q in at && at[p] == at[q] ==> p == q)
  }

  ghost predicate EdgesAgree(nodes: seq<Node>, at: map<Path, nat>)
    requires Indexed(nodes, at)
  {
    && (forall p, seg :: p in at && nodes[at[p]].Child(seg).Some? ==>
          Snoc(p, seg) in at && nodes[at[p]].Child(seg) == Some(at[Snoc(p, seg)]))
    && (forall p, seg :: Snoc(p, seg) in at ==> p in at && nodes[at[p]].Child(seg).Some?)
    && (forall p :: p in at ==> nodes[at[p]].OneParameter())
  }

  ghost predicate MethodsAgree(nodes: seq<Node>, at: map<Path, nat>, entries: set<Entry>)
    requires Indexed(nodes, at)
  {
    && (forall p, v, h :: p in at ==> (nodes[at[p]].Answers(v, h) <==> Route(p, v, h) in entries))
    && (forall p :: p in at && nodes[at[p]].methods.Some? ==> exists v :: v in nodes[at[p]].methods.value)
  }

  ghost predicate PathsKnown(at: map<Path, nat>, entries: set<Entry>) {
    forall p :: p in at <==> p == [] || Known(entries, p)
  }

  ghost predicate Represents(nodes: seq<Node>, at: map<Path, nat>, entries: set<Entry>) {
    Indexed(nodes, at) && EdgesAgree(nodes, at) && MethodsAgree(nodes, at, entries) && PathsKnown(at, entries)
  }

  /** An edge leads where the extended path says. */
  lemma EdgeIffKnown(nodes: seq<Node>, at: map<Path, nat>, entries: set<Entry>, p: Path, seg: Segment)
    requires Represents(nodes, at, entries) && p in at
    ensures nodes[at[p]].Child(seg).Some? <==> Known(entries, Snoc(p, seg))
    ensures nodes[at[p]].Child(seg).Some? ==>
              Snoc(p, seg) in at && nodes[at[p]].Child(seg).value == at[Snoc(p, seg)]
  {
  }

  lemma EdgeInhabits(nodes: seq<Node>, at: map<Path, nat>, entries: set<Entry>, q: Path, seg: Segment)
    requires Represents(nodes, at, entries) && q in at && nodes[at[q]].Child(seg).Some?
    ensures Inhabited(entries, q)
  {
    var e :| e in entries && Snoc(q, seg) <= e.path;
    assert q <= e.path && q != e.path;
  }

  /** Emptiness of a dictionary, read off the entries. */
  lemma EmptyIffUninhabited(nodes: seq<Node>, at: map<Path, nat>, entries: set<Entry>, q: Path)
    requires Represents(nodes, at, entries) && q in at
    ensures nodes[at[q]].IsEmpty() <==> !Inhabited(entries, q)
  {
    var n := nodes[at[q]];
    if Inhabited(entries, q) {
      var e :| e in entries && q <= e.path && (q != e.path || e.Route?);
      if q != e.path {
        NextOfPrefix(q, e.path);
        EdgeIffKnown(nodes, at, entries, q, e.path[|q|]);
      } else {
        assert e == Route(q, e.verb, e.handler);
        assert n.Answers(e.verb, e.handler);
      }
    }
    if k :| k in n.literals {
      EdgeInhabits(nodes, at, entries, q, Literal(k));
    }
    if k :| k in n.parameters {
      EdgeInhabits(nodes, at, entries, q, Parameter(k));
    }
    if n.methods.Some? {
      var v :| v in n.methods.value;
      assert n.Answers(v, n.methods.value[v]);
    }
  }

  lemma KnownWith(entries: set<Entry>, e: Entry)
    ensures forall p :: Known(entries + {e}, p) <==> Known(entries, p) || Leads(p, e.path)
  {
    forall p
      ensures Known(entries + {e}, p) <==> Known(entries, p) || Leads(p, e.path)
    {
      if Known(entries, p) {
        var d :| d in entries && Leads(p, d.path);
        assert d in entries + {e};
      }
      assert e in entries + {e};
    }
  }

  lemma PrefixOfSnoc(q: Path, seg: Segment)
    ensures forall p :: Leads(p, Snoc(q, seg)) <==> Leads(p, q) || p == Snoc(q, seg)
  {
    forall p | Leads(p, Snoc(q, seg)) && p != Snoc(q, seg)
      ensures Leads(p, q)
    {
      assert p == Snoc(q, seg)[..|p|] == q[..|p|];
    }
  }

  /** The table with an empty dictionary added under `seg` of dictionary `i`. */
  function Grown(nodes: seq<Node>, i: nat, seg: Segment): (grown: seq<Node>)
    requires i < |nodes|
    ensures |grown| == |nodes| + 1 && grown[|nodes|] == EMPTY_NODE
    ensures grown[i] == nodes[i].WithChild(seg, |nodes|)
    ensures forall j :: 0 <= j < |nodes| && j != i ==> grown[j] == nodes[j]
  {
    nodes[i := nodes[i].WithChild(seg, |nodes|)] + [EMPTY_NODE]
  }

  ghost function Extended(nodes: seq<Node>, at: map<Path, nat>, q: Path, seg: Segment): map<Path, nat> {
    at[Snoc(q, seg) := |nodes|]
  }

  lemma GrownIndexed(nodes: seq<Node>, at: map<Path, nat>, q: Path, seg: Segment)
    requires Indexed(nodes, at) && q in at && Snoc(q, seg) !in at
    ensures Indexed(Grown(nodes, at[q], seg), Extended(nodes, at, q, seg))
  {
    assert Snoc(q, seg) != [];
  }

  lemma GrownForward(nodes: seq<Node>, at: map<Path, nat>, q: Path, seg: Segment, p: Path, s: Segment)
    requires Indexed(nodes, at) && EdgesAgree(nodes, at) && q in at && Snoc(q, seg) !in at
    requires Indexed(Grown(nodes, at[q], seg), Extended(nodes, at, q, seg))
    requires p in Extended(nodes, at, q, seg)
    requires Grown(nodes, at[q], seg)[Extended(nodes, at, q, seg)[p]].Child(s).Some?
    ensures var at' := Extended(nodes, at, q, seg);
            Snoc(p, s) in at' && Grown(nodes, at[q], seg)[at'[p]].Child(s) == Some(at'[Snoc(p, s)])
  {
    SnocInjective(q, seg);
    if p != q || s != seg {
      assert p in at && nodes[at[p]].Child(s).Some?;
    }
  }

  lemma GrownBack(nodes: seq<Node>, at: map<Path, nat>, q: Path, seg: Segment, p: Path, s: Segment)
    requires Indexed(nodes, at) && EdgesAgree(nodes, at) && q in at && Snoc(q, seg) !in at
    requires Indexed(Grown(nodes, at[q], seg), Extended(nodes, at, q, seg))
    requires Snoc(p, s) in Extended(nodes, at, q, seg)
    ensures p in Extended(nodes, at, q, seg)
    ensures Grown(nodes, at[q], seg)[Extended(nodes, at, q, seg)[p]].Child(s).Some?
  {
    SnocInjective(q, seg);
    if p != q || s != seg {
      assert Snoc(p, s) in at;
    }
  }

  lemma GrownEdges(nodes: seq<Node>, at: map<Path, nat>, q: Path, seg: Segment)
    requires Indexed(nodes, at) && EdgesAgree(nodes, at) && q in at && Snoc(q, seg) !in at
    requires seg.Parameter? ==> nodes[at[q]].parameters == map[]
    requires Indexed(Grown(nodes, at[q], seg), Extended(nodes, at, q, seg))
    ensures EdgesAgree(Grown(nodes, at[q], seg), Extended(nodes, at, q, seg))
  {
    var nodes', at' := Grown(nodes, at[q], seg), Extended(nodes, at, q, seg);
    forall p, s | p in at' && nodes'[at'[p]].Child(s).Some?
      ensures Snoc(p, s) in at' && nodes'[at'[p]].Child(s) == Some(at'[Snoc(p, s)])
    {
      GrownForward(nodes, at, q, seg, p, s);
    }
    forall p, s | Snoc(p, s) in at'
      ensures p in at' && nodes'[at'[p]].Child(s).Some?
    {
      GrownBack(nodes, at, q, seg, p, s);
    }
  }

  lemma GrownMethods(nodes: seq<Node>, at: map<Path, nat>, entries: set<Entry>, q: Path, seg: Segment)
    requires Indexed(nodes, at) && MethodsAgree(nodes, at, entries + {Stub(q)}) && PathsKnown(at, entries + {Stub(q)})
    requires q in at && Snoc(q, seg) !in at
    requires Indexed(Grown(nodes, at[q], seg), Extended(nodes, at, q, seg))
    ensures MethodsAgree(Grown(nodes, at[q], seg), Extended(nodes, at, q, seg), entries + {Stub(Snoc(q, seg))})
  {
    forall v, h
      ensures Route(Snoc(q, seg), v, h) !in entries
    {
      var r := Route(Snoc(q, seg), v, h);
      assert !Known(entries + {Stub(q)}, Snoc(q, seg));
      assert r in entries + {Stub(q)} ==> Leads(r.path, r.path);
    }
    forall p, v, h
      ensures Route(p, v, h) in entries + {Stub(q)} <==> Route(p, v, h) in entries + {Stub(Snoc(q, seg))}
    {
    }
  }

  lemma GrownPaths(at: map<Path, nat>, entries: set<Entry>, q: Path, seg: Segment, child: nat)
    requires PathsKnown(at, entries + {Stub(q)}) && q in at
    ensures PathsKnown(at[Snoc(q, seg) := child], entries + {Stub(Snoc(q, seg))})
  {
    KnownWith(entries, Stub(q));
    KnownWith(entries, Stub(Snoc(q, seg)));
    PrefixOfSnoc(q, seg);
  }

  /** A new empty dictionary hung below the one at `q`. */
  lemma Grows(nodes: seq<Node>, at: map<Path, nat>, entries: set<Entry>, q: Path, seg: Segment)
    requires Represents(nodes, at, entries + {Stub(q)}) && q in at && Snoc(q, seg) !in at
    requires seg.Parameter? ==> nodes[at[q]].parameters == map[]
    ensures Represents(Grown(nodes, at[q], seg), Extended(nodes, at, q, seg), entries + {Stub(Snoc(q, seg))})
  {
    GrownIndexed(nodes, at, q, seg);
    GrownEdges(nodes, at, q, seg);
    GrownMethods(nodes, at, entries, q, seg);
    GrownPaths(at, entries, q, seg, |nodes|);
  }

  /** The tree depends on the entries only through their routes and their prefixes. */
  lemma Relabel(nodes: seq<Node>, at: map<Path, nat>, before: set<Entry>, after: set<Entry>)
    requires Represents(nodes, at, before)
    requires forall p, v, h :: Route(p, v, h) in before <==> Route(p, v, h) in after
    requires forall p :: p == [] || Known(before, p) <==> p == [] || Known(after, p)
    ensures Represents(nodes, at, after)
  {
  }

  lemma StubOfRoot(nodes: seq<Node>, at: map<Path, nat>, entries: set<Entry>)
    requires Represents(nodes, at, entries)
    ensures Represents(nodes, at, entries + {Stub([])})
  {
    KnownWith(entries, Stub([]));
    Relabel(nodes, at, entries, entries + {Stub([])});
  }

  /** Walking down an existing edge. */
  lemma Descends(nodes: seq<Node>, at: map<Path, nat>, entries: set<Entry>, q: Path, seg: Segment)
    requires Represents(nodes, at, entries + {Stub(q)}) && q in at && Snoc(q, seg) in at
    ensures Represents(nodes, at, entries + {Stub(Snoc(q, seg))})
  {
    KnownWith(entries, Stub(q));
    KnownWith(entries, Stub(Snoc(q, seg)));
    PrefixOfSnoc(q, seg);
    Relabel(nodes, at, entries + {Stub(q)}, entries + {Stub(Snoc(q, seg))});
  }

  lemma DropStub(nodes: seq<Node>, at: map<Path, nat>, entries: set<Entry>, q: Path)
    requires Represents(nodes, at, entries + {Stub(q)}) && Known(entries, q)
    ensures Represents(nodes, at, entries)
  {
    KnownWith(entries, Stub(q));
    var e :| e in entries && q <= e.path;
    forall p | p <= q
      ensures Known(entries, p)
    {
      assert p <= e.path;
    }
    Relabel(nodes, at, entries + {Stub(q)}, entries);
  }

  /** The table with a method added to the '#VALUE' dictionary of dictionary `i`. */
  function Answered(nodes: seq<Node>, i: nat, verb: string, handler: Handler): (answered: seq<Node>)
    requires i < |nodes|
    ensures |answered| == |nodes|
    ensures forall j :: 0 <= j < |nodes| && j != i ==> answered[j] == nodes[j]
    ensures forall seg :: answered[i].Child(seg) == nodes[i].Child(seg)
    ensures answered[i].parameters == nodes[i].parameters
    ensures answered[i].methods.Some? && verb in answered[i].methods.value
  {
    nodes[i := nodes[i].(methods := Some(nodes[i].Methods()[verb := handler]))]
  }

  lemma AnsweredMethods(nodes: seq<Node>, at: map<Path, nat>, entries: set<Entry>, q: Path, verb: string,
                        handler: Handler)
    requires Indexed(nodes, at) && q in at && MethodsAgree(nodes, at, entries + {Stub(q)})
    requires verb !in nodes[at[q]].Methods()
    ensures MethodsAgree(Answered(nodes, at[q], verb, handler), at, entries + {Route(q, verb, handler)})
  {
    var nodes' := Answered(nodes, at[q], verb, handler);
    assert forall v, h :: nodes'[at[q]].Answers(v, h) <==> nodes[at[q]].Answers(v, h) || (v == verb && h == handler);
    forall p, v, h
      ensures Route(p, v, h) in entries + {Route(q, verb, handler)} <==>
              Route(p, v, h) in entries + {Stub(q)} || (p == q && v == verb && h == handler)
    {
    }
  }

  lemma Answering(nodes: seq<Node>, at: map<Path, nat>, entries: set<Entry>, q: Path, verb: string, handler: Handler)
    requires Represents(nodes, at, entries + {Stub(q)}) && q in at
    requires verb !in nodes[at[q]].Methods()
    ensures Represents(Answered(nodes, at[q], verb, handler), at, entries + {Route(q, verb, handler)})
  {
    KnownWith(entries, Stub(q));
    KnownWith(entries, Route(q, verb, handler));
    AnsweredMethods(nodes, at, entries, q, verb, handler);
    assert EdgesAgree(Answered(nodes, at[q], verb, handler), at);
  }

  lemma StubInhabitsNothingBelow(entries: set<Entry>, q: Path, seg: Segment)
    ensures Inhabited(entries + {Stub(q)}, Snoc(q, seg)) <==> Inhabited(entries, Snoc(q, seg))
  {
    var p := Snoc(q, seg);
    if Inhabited(entries, p) {
      var e :| e in entries && Leads(p, e.path) && (p != e.path || e.Route?);
      assert e in entries + {Stub(q)};
    }
  }

  lemma ParametersKnown(nodes: seq<Node>, at: map<Path, nat>, entries: set<Entry>, q: Path)
    requires Represents(nodes, at, entries + {Stub(q)}) && q in at
    ensures nodes[at[q]].parameters != map[] <==> exists y :: Known(entries, q + [Parameter(y)])
  {
    var existing := nodes[at[q]].parameters;
    forall y
      ensures y in existing <==> Known(entries, q + [Parameter(y)])
    {
      EdgeIffKnown(nodes, at, entries + {Stub(q)}, q, Parameter(y));
      KnownWith(entries, Stub(q));
      assert Snoc(q, Parameter(y)) == q + [Parameter(y)];
    }
    assert existing != map[] <==> exists y :: y in existing;
  }

  /** The test `rest` makes on the dictionaries, read off the entries. */
  lemma ConflictIff(nodes: seq<Node>, at: map<Path, nat>, entries: set<Entry>, path: Path, i: nat)
    requires i < |path| && path[i].Parameter?
    requires Represents(nodes, at, entries + {Stub(path[..i])}) && path[..i] in at
    ensures var existing := nodes[at[path[..i]]].parameters;
            var name := path[i].name;
            && (name in existing ==> existing[name] < |nodes|)
            && (Conflicts(entries, path, i) <==>
                existing != map[] && (name !in existing || nodes[existing[name]].IsEmpty()))
  {
    var q := path[..i];
    var all := entries + {Stub(q)};
    NextPrefix(path, i);
    ParametersKnown(nodes, at, entries, q);
    StubInhabitsNothingBelow(entries, q, path[i]);
    EdgeIffKnown(nodes, at, all, q, path[i]);
    if path[i].name in nodes[at[q]].parameters {
      EmptyIffUninhabited(nodes, at, all, Snoc(q, path[i]));
    } else {
      assert !Known(all, Snoc(q, path[i]));
    }
  }

  /** The parameter names met so far. */
  ghost predicate Names(parameters: seq<string>, q: Path) {
    forall x :: x in parameters <==> Parameter(x) in q
  }

  lemma NamesNext(parameters: seq<string>, q: Path, seg: Segment)
    requires Names(parameters, q)
    ensures Names(if seg.Parameter? then parameters + [seg.name] else parameters, Snoc(q, seg))
  {
  }

  /** Narrowing the entries below `q` by a segment leaves the entries below the longer path. */
  lemma NarrowUnder(entries: set<Entry>, q: Path, seg: Segment)
    ensures Narrow(Under(entries, q), |q|, seg) == Under(entries, Snoc(q, seg))
    ensures Narrow(Under(entries, q), |q|, seg) != {} <==> Known(entries, Snoc(q, seg))
  {
    forall e | e in entries
      ensures q <= e.path && |q| < |e.path| && e.path[|q|] == seg <==> Leads(Snoc(q, seg), e.path)
    {
      if q <= e.path && |q| < |e.path| && e.path[|q|] == seg {
        NextOfPrefix(q, e.path);
      }
      if Leads(Snoc(q, seg), e.path) {
        assert q == Snoc(q, seg)[..|q|] && seg == Snoc(q, seg)[|q|];
      }
    }
    if e :| e in entries && Leads(Snoc(q, seg), e.path) {
      assert e in Under(entries, Snoc(q, seg));
    }
    if e :| e in Under(entries, Snoc(q, seg)) {
      assert Leads(Snoc(q, seg), e.path);
    }
  }

  /** One step of the search, with the candidates named by the path they share. */
  lemma SearchStep(entries: set<Entry>, q: Path, verb: string, parts: seq<string>, bound: map<string, string>)
    requires parts != []
    ensures Search(Under(entries, q), |q|, verb, parts, bound) ==
            if Known(entries, Snoc(q, Literal(parts[0]))) then
              Search(Under(entries, Snoc(q, Literal(parts[0]))), |q| + 1, verb, parts[1..], bound)
            else if HasParameter(Under(entries, q), |q|) then
              var x := ParameterAt(Under(entries, q), |q|);
              Search(Under(entries, Snoc(q, Parameter(x))), |q| + 1, verb, parts[1..], bound[x := parts[0]])
            else if Known(entries, Snoc(q, Literal(WILDCARD_KEY))) then
              Search(Under(entries, Snoc(q, Literal(WILDCARD_KEY))), |q| + 1, verb, parts[1..], bound)
            else
              PathNotFound
  {
    NarrowUnder(entries, q, Literal(parts[0]));
    NarrowUnder(entries, q, Literal(WILDCARD_KEY));
    if HasParameter(Under(entries, q), |q|) {
      NarrowUnder(entries, q, Parameter(ParameterAt(Under(entries, q), |q|)));
    }
  }

  /** The one parameter below `q`, as the tree and as the entries have it. */
  lemma ParameterBelow(nodes: seq<Node>, at: map<Path, nat>, entries: set<Entry>, q: Path)
    requires Represents(nodes, at, entries) && q in at
    ensures HasParameter(Under(entries, q), |q|) <==> nodes[at[q]].parameters != map[]
    ensures forall x :: x in nodes[at[q]].parameters ==>
              HasParameter(Under(entries, q), |q|) && ParameterAt(Under(entries, q), |q|) == x
  {
    var below := Under(entries, q);
    var existing := nodes[at[q]].parameters;
    forall e | e in below && |q| < |e.path| && e.path[|q|].Parameter?
      ensures e.path[|q|].name in existing
    {
      NextOfPrefix(q, e.path);
      assert Leads(Snoc(q, e.path[|q|]), e.path);
      EdgeIffKnown(nodes, at, entries, q, e.path[|q|]);
    }
    forall x | x in existing
      ensures HasParameter(below, |q|)
    {
      EdgeIffKnown(nodes, at, entries, q, Parameter(x));
      var e :| e in entries && Leads(Snoc(q, Parameter(x)), e.path);
      assert e.path[|q|] == Snoc(q, Parameter(x))[|q|];
      assert q == Snoc(q, Parameter(x))[..|q|];
      assert e in below;
    }
    assert existing != map[] <==> exists x :: x in existing;
  }

  /** The methods at the end of the walk, as the tree and as the entries have them. */
  lemma MethodsBelow(nodes: seq<Node>, at: map<Path, nat>, entries: set<Entry>, q: Path, verb: string)
    requires Represents(nodes, at, entries) && q in at
    ensures EndsAt(Under(entries, q), |q|) <==> nodes[at[q]].methods.Some?
    ensures AnswersAt(Under(entries, q), |q|, verb) <==>
            nodes[at[q]].methods.Some? && verb in nodes[at[q]].methods.value
    ensures AnswersAt(Under(entries, q), |q|, verb) ==>
              HandlerAt(Under(entries, q), |q|, verb) == nodes[at[q]].methods.value[verb]
  {
    var n := nodes[at[q]];
    forall e | e in Under(entries, q) && e.Route? && |e.path| == |q|
      ensures n.Answers(e.verb, e.handler)
    {
      assert e == Route(q, e.verb, e.handler);
    }
    if n.methods.Some? {
      forall v | v in n.methods.value
        ensures Route(q, v, n.methods.value[v]) in Under(entries, q)
      {
        assert n.Answers(v, n.methods.value[v]);
      }
      var v :| v in n.methods.value;
      assert Route(q, v, n.methods.value[v]) in Under(entries, q);
    }
  }

  lemma NoParameterNoViolation(entries: set<Entry>, path: Path, i: nat)
    requires i < |path|
    ensures path[i].Literal? ==> !Violates(entries, path, i)
  {
  }

  lemma SearchEnds(candidates: set<Entry>, d: nat, verb: string, bound: map<string, string>)
    ensures Search(candidates, d, verb, [], bound) ==
            if !EndsAt(candidates, d) then PathNotFound
            else if !AnswersAt(candidates, d, verb) then MethodNotAllowed
            else Found(HandlerAt(candidates, d, verb), bound)
  {
  }

  class Responses {
    var nodes: seq<Node>
    ghost var at: map<Path, nat>
    ghost var entries: set<Entry>

    ghost predicate Valid()
      reads this
    {
      Represents(nodes, at, entries)
    }

    constructor ()
      ensures Valid() && entries == {}
    {
      nodes := [EMPTY_NODE];
      at := map[[] := 0];
      entries := {};
    }

    /** The dictionary below `current` under `seg`, made when it is not there. */
    method Descend(current: nat, ghost q: Path, seg: Segment) returns (next: nat)
      requires Represents(nodes, at, entries + {Stub(q)}) && q in at && at[q] == current
      requires seg.Parameter? ==> seg.name in nodes[current].parameters || nodes[current].parameters == map[]
      modifies this
      ensures Represents(nodes, at, entries + {Stub(Snoc(q, seg))}) && entries == old(entries)
      ensures Snoc(q, seg) in at && at[Snoc(q, seg)] == next
    {
      EdgeIffKnown(nodes, at, entries + {Stub(q)}, q, seg);
      if seg.Parameter? && seg.name in nodes[current].parameters {
        Descends(nodes, at, entries, q, seg);
        next := nodes[current].parameters[seg.name];
      } else if seg.Literal? && seg.text in nodes[current].literals {
        Descends(nodes, at, entries, q, seg);
        next := nodes[current].literals[seg.text];
      } else {
        Grows(nodes, at, entries, q, seg);
        next := |nodes|;
        at := Extended(nodes, at, q, seg);
        nodes := Grown(nodes, current, seg);
      }
    }

    /** The end of `rest`: the method goes under '#VALUE' unless one is there. */
    method Assign(current: nat, ghost path: Path, verb: string, handler: Handler) returns (outcome: Registration)
      requires Represents(nodes, at, entries + {Stub(path)}) && path in at && at[path] == current
      modifies this
      ensures Valid()
      ensures outcome == if old(Taken(entries, path, verb)) then DuplicateRoute else Registered
      ensures entries == if old(Taken(entries, path, verb)) then old(entries)
                         else old(entries) + {Route(path, verb, handler)}
    {
      var methods := nodes[current].Methods();
      forall h
        ensures Route(path, verb, h) in entries <==> verb in methods && methods[verb] == h
      {
        assert nodes[current].Answers(verb, h) <==> Route(path, verb, h) in entries + {Stub(path)};
      }
      if verb in methods {
        assert Route(path, verb, methods[verb]) in entries;
        assert Leads(path, Route(path, verb, methods[verb]).path);
        DropStub(nodes, at, entries, path);
        outcome := DuplicateRoute;
      } else {
        Answering(nodes, at, entries, path, verb, handler);
        nodes := Answered(nodes, current, verb, handler);
        entries := entries + {Route(path, verb, handler)};
        outcome := Registered;
      }
    }

    /** `_validate_path_parameters`; `Registered` stands for no objection. */
    method ValidatePathParameters(name: string, parameters: seq<string>, current: nat, ghost path: Path, ghost i: nat)
      returns (verdict: Registration)
      requires i < |path| && path[i] == Parameter(name)
      requires Names(parameters, path[..i])
      requires Represents(nodes, at, entries + {Stub(path[..i])}) && path[..i] in at && at[path[..i]] == current
      ensures verdict == if Repeats(path, i) then DuplicateParameter
                         else if Conflicts(entries, path, i) then ConflictingParameter
                         else Registered
      ensures verdict == Registered ==> name in nodes[current].parameters || nodes[current].parameters == map[]
    {
      ConflictIff(nodes, at, entries, path, i);
      var existing := nodes[current].parameters;
      if name in parameters {
        verdict := DuplicateParameter;
      } else if existing != map[] && (name !in existing || nodes[existing[name]].IsEmpty()) {
        verdict := ConflictingParameter;
      } else {
        verdict := Registered;
      }
    }

    /** One part of the path: its dictionary is made unless it is objected to. */
    method AddPart(part: string, parameters: seq<string>, current: nat, ghost path: Path, ghost i: nat)
      returns (verdict: Registration, more: seq<string>, next: nat)
      requires i < |path| && path[i] == SegmentOf(part) && Names(parameters, path[..i])
      requires Represents(nodes, at, entries + {Stub(path[..i])}) && path[..i] in at && at[path[..i]] == current
      modifies this
      ensures entries == old(entries) && verdict != DuplicateRoute
      ensures Violates(entries, path, i) <==> verdict != Registered
      ensures verdict == DuplicateParameter <==> Repeats(path, i)
      ensures verdict == Registered ==>
                && Represents(nodes, at, entries + {Stub(path[..i + 1])}) && path[..i + 1] in at
                && at[path[..i + 1]] == next
                && Names(more, path[..i + 1])
      ensures verdict != Registered ==> Represents(nodes, at, entries + {Stub(path[..i])})
    {
      hide Represents, Conflicts, Names;
      var seg := SegmentOf(part);
      verdict, more, next := Registered, parameters, current;
      if seg.Parameter? {
        verdict := ValidatePathParameters(seg.name, parameters, current, path, i);
        if verdict != Registered {
          return;
        }
        more := parameters + [seg.name];
      }
      NextPrefix(path, i);
      NamesNext(parameters, path[..i], seg);
      assert !Violates(entries, path, i) by { NoParameterNoViolation(entries, path, i); }
      next := Descend(current, path[..i], seg);
    }

    /** The loop of `rest`: makes the dictionaries of the path, up to the first part it objects to. */
    method MakePath(parts: seq<string>) returns (verdict: Registration, current: nat, ghost k: nat)
      requires Valid()
      modifies this
      ensures k <= |parts| && CleanBelow(entries, PathOf(parts), k) && entries == old(entries)
      ensures Represents(nodes, at, entries + {Stub(PathOf(parts)[..k])})
      ensures verdict == Registered ==> k == |parts| && PathOf(parts) in at && at[PathOf(parts)] == current
      ensures verdict == DuplicateParameter ==> k < |parts| && Repeats(PathOf(parts), k)
      ensures verdict == ConflictingParameter ==>
                k < |parts| && !Repeats(PathOf(parts), k) && Conflicts(entries, PathOf(parts), k)
      ensures verdict != DuplicateRoute
    {
      ghost var path := PathOf(parts);
      var parameters: seq<string> := [];
      current := 0;
      var i := 0;
      StubOfRoot(nodes, at, entries);
      assert Names(parameters, path[..0]) && CleanBelow(entries, path, 0) && path[..0] == [] && [] in at && at[[]] == 0;
      hide Represents, CleanBelow, Conflicts, Repeats, Names, SegmentOf;
      while i < |parts|
        invariant 0 <= i <= |parts| && CleanBelow(entries, path, i) && entries == old(entries)
        invariant Represents(nodes, at, entries + {Stub(path[..i])}) && path[..i] in at && at[path[..i]] == current
        invariant Names(parameters, path[..i])
      {
        var next: nat;
        verdict, parameters, next := AddPart(parts[i], parameters, current, path, i);
        if verdict != Registered {
          return verdict, current, i;
        }
        CleanNext(entries, path, i);
        current, i := next, i + 1;
      }
      assert path[..i] == path;
      return Registered, current, i;
    }

    /** `rest(verb, path, response_handlers)` applied to a handler; `parts` is the split path.
        `k` is the depth that was reached. */
    method Rest(verb: string, parts: seq<string>, handler: Handler) returns (outcome: Registration, ghost k: nat)
      requires Valid()
      modifies this
      ensures Valid()
      ensures Registers(old(entries), PathOf(parts), verb, handler, outcome, k, entries)
    {
      var current: nat;
      outcome, current, k := MakePath(parts);
      if outcome == Registered {
        assert PathOf(parts)[..k] == PathOf(parts);
        outcome := Assign(current, PathOf(parts), verb, handler);
      } else {
        entries := entries + {Stub(PathOf(parts)[..k])};
      }
    }

    /** `get_response_handler`: the greedy walk gives what the search on the plain entries gives. */
    method GetResponseHandler(verb: string, parts: seq<string>) returns (response: Response)
      requires Valid()
      ensures response == Search(entries, 0, verb, parts, map[])
    {
      ghost var q: Path := [];
      var parameters: map<string, string> := map[];
      var current := 0;
      var i := 0;
      assert Under(entries, q) == entries && q in at && at[q] == current;
      assert parts[i..] == parts;
      hide Search, Under, Known, HasParameter, ParameterAt, EdgesAgree, MethodsAgree, PathsKnown;
      while i < |parts|
        invariant 0 <= i <= |parts| && i == |q|
        invariant q in at && at[q] == current
        invariant Search(entries, 0, verb, parts, map[]) == Search(Under(entries, q), |q|, verb, parts[i..], parameters)
      {
        var part := parts[i];
        assert parts[i..][1..] == parts[i + 1..];
        SearchStep(entries, q, verb, parts[i..], parameters);
        EdgeIffKnown(nodes, at, entries, q, Literal(part));
        ParameterBelow(nodes, at, entries, q);
        EdgeIffKnown(nodes, at, entries, q, Literal(WILDCARD_KEY));
        if part in nodes[current].literals {
          current := nodes[current].literals[part];
          q := Snoc(q, Literal(part));
        } else if nodes[current].parameters != map[] {
          var key :| key in nodes[current].parameters;
          EdgeIffKnown(nodes, at, entries, q, Parameter(key));
          current := nodes[current].parameters[key];
          parameters := parameters[key := part];
          q := Snoc(q, Parameter(key));
        } else if WILDCARD_KEY in nodes[current].literals {
          current := nodes[current].literals[WILDCARD_KEY];
          q := Snoc(q, Literal(WILDCARD_KEY));
        } else {
          return PathNotFound;
        }
        i := i + 1;
      }
      MethodsBelow(nodes, at, entries, q, verb);
      SearchEnds(Under(entries, q), |q|, verb, parameters);
      assert parts[i..] == [];
      if nodes[current].methods == None {
        return PathNotFound;
      }
      if verb !in nodes[current].methods.value {
        return MethodNotAllowed;
      }
      return Found(nodes[current].methods.value[verb], parameters);
    }
  }
}
