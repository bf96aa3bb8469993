/** The reference walker of scripts/validate_openapi.py: local_documents with its nested load
    and walk, and the resolver's cached_file.

    Parsed YAML values are objects with an identity that may be shared and may even be cyclic
    (anchors), so they are modelled as a heap. A file that cannot be read or parsed, or that
    repeats a key, is missing from `files`. URL splitting, unquoting, path joining and Python's
    int() belong to the libraries and are arbitrary functions. */
module RefWalker {
  import opened Common
  import Graph
  import JsonPointer

  type Path = string
  type Id = nat

  datatype Key = Text(text: string) | NotText

  datatype Value =
    | Scalar(text: Option<string>)
    | List(items: seq<Id>)
    | Dict(entries: seq<(Key, Id)>)

  datatype Uri = Uri(scheme: string, netloc: string, path: string, query: string, fragment: string)

  datatype World = World(
    heap: map<Id, Value>,
    files: map<Path, Id>,
    inside: Path -> bool,
    join: (Path, string) -> Path,
    split: string -> Uri,
    unquote: string -> string,
    number: string -> Option<int>)

  datatype Context = OpenApi | Schema | Components | Link | Callback | PathItem | Response

  /** The arguments of one call of walk, which are also its key in `visited`. */
  datatype Site = Site(source: Path, value: Id, context: Context, mapValues: bool, extensions: bool)

  predicate Closed(w: World) {
    && (forall p :: p in w.files ==> w.files[p] in w.heap)
    && (forall v :: v in w.heap ==>
          match w.heap[v]
          case Scalar(_) => true
          case List(items) => forall i :: 0 <= i < |items| ==> items[i] in w.heap
          case Dict(entries) => forall i :: 0 <= i < |entries| ==> entries[i].1 in w.heap)
  }

  predicate Known(w: World, s: Site) { s.source in w.files && s.value in w.heap }

  predicate Container(w: World, s: Site) { s.value in w.heap && !w.heap[s.value].Scalar? }

  // ---------------------------------------------------------------- the edges

  function Lookup(entries: seq<(Key, Id)>, name: string): (r: Option<Id>)
    ensures r.Some? <==> exists i :: 0 <= i < |entries| && entries[i].0 == Text(name)
    ensures r.Some? ==> exists i :: 0 <= i < |entries| && entries[i] == (Text(name), r.value)
  {
    if entries == [] then None
    else if entries[0].0 == Text(name) then Some(entries[0].1)
    else Lookup(entries[1..], name)
  }

  predicate IsExtension(name: string) { |name| >= 2 && name[..2] == "x-" }

  const SCHEMA_MAPS: set<string> := {"properties", "patternProperties", "$defs", "definitions", "dependentSchemas"}

  const SCHEMA_CHILDREN: set<string> :=
    {"allOf", "anyOf", "oneOf", "prefixItems", "items", "additionalItems",
     "additionalProperties", "unevaluatedItems", "unevaluatedProperties",
     "contains", "contentSchema", "if", "then", "else", "not", "propertyNames"}

  const LITERALS: set<string> := {"example", "value", "default", "enum", "const"}

  const BASES: seq<string> := ["$id", "$dynamicRef", "$dynamicAnchor"]

  datatype Route = Refuse | Skip | Go(context: Context, mapValues: bool, extensions: bool)

  /** Where the child of a dict goes, by context and key; a key that is not text breaks every
      context that looks at its prefix. */
  function RouteOf(context: Context, key: Key, childIsDict: bool): (r: Route) {
    if context == Schema then
      (match key
       case NotText => Skip
       case Text(name) =>
         if name in SCHEMA_MAPS then Go(Schema, true, false)
         else if name in SCHEMA_CHILDREN then Go(Schema, false, false)
         else Skip)
    else match key
      case NotText => Refuse
      case Text(name) =>
        if IsExtension(name) || name == "$ref" then Skip
        else if context == Components then
          Go(if name == "schemas" then Schema else if name == "links" then Link
             else if name == "callbacks" then Callback else if name == "responses" then Response else OpenApi, true, false)
        else if context == Link && (name == "parameters" || name == "requestBody") then Skip
        else if context == Callback then Go(PathItem, false, false)
        else if name == "components" then Go(Components, false, false)
        else if name == "schema" then Go(Schema, false, false)
        else if name == "paths" then Go(PathItem, true, true)
        else if name == "responses" then Go(Response, true, true)
        else if name == "webhooks" then Go(PathItem, true, false)
        else if name == "callbacks" then Go(Callback, true, false)
        else if name == "links" then Go(Link, true, false)
        else if name in {"parameters", "headers", "content", "encoding", "examples"} then Go(OpenApi, childIsDict, false)
        else if name in LITERALS then Skip
        else Go(OpenApi, false, false)
  }

  /** Python's list index: negative numbers count from the end. */
  function ListIndex(n: nat, i: int): (r: Option<nat>) {
    if 0 <= i < n then Some(i) else if i < 0 && n + i >= 0 then Some(n + i) else None
  }

  /** Following pointer tokens; None where Python raises. */
  function Follow(w: World, target: Id, tokens: seq<string>): (r: Option<Id>)
    requires Closed(w) && target in w.heap
    ensures r.Some? ==> r.value in w.heap
    decreases |tokens|
  {
    if tokens == [] then Some(target)
    else match w.heap[target]
      case Scalar(_) => None
      case List(items) =>
        (match w.number(tokens[0])
         case None => None
         case Some(i) =>
           match ListIndex(|items|, i)
           case None => None
           case Some(k) => Follow(w, items[k], tokens[1..]))
      case Dict(entries) =>
        match Lookup(entries, tokens[0])
        case None => None
        case Some(child) => Follow(w, child, tokens[1..])
  }

  /** load: a file inside the workspace that can be read. */
  predicate Loadable(w: World, p: Path) { w.inside(p) && p in w.files }

  /** The text of a dict's $ref, if it has one. */
  function RefOf(w: World, entries: seq<(Key, Id)>): (r: Option<string>) {
    match Lookup(entries, "$ref")
    case None => None
    case Some(v) => if v in w.heap && w.heap[v].Scalar? then w.heap[v].text else None
  }

  predicate IsLocal(u: Uri) { u.scheme == "" && u.netloc == "" && u.query == "" }

  function TargetPath(w: World, source: Path, u: Uri): (r: Path) {
    if u.path != "" then w.join(source, w.unquote(u.path)) else source
  }

  /** The (document, node) a reference means; None where the walker raises. */
  function Target(w: World, source: Path, ref: string): (r: Option<(Path, Id)>)
    requires Closed(w)
    ensures r.Some? ==> r.value.0 in w.files && r.value.1 in w.heap
  {
    var u := w.split(ref);
    var p, fragment := TargetPath(w, source, u), w.unquote(u.fragment);
    if !IsLocal(u) || !Loadable(w, p) || (fragment != "" && fragment[0] != '/') then None
    else
      match Follow(w, w.files[p], JsonPointer.Tokens(fragment))
      case None => None
      case Some(v) => Some((p, v))
  }

  ghost predicate HasBase(entries: seq<(Key, Id)>) {
    exists k :: k in BASES && Lookup(entries, k).Some?
  }

  ghost predicate IsExtensionKey(key: Key) { key.Text? && IsExtension(key.text) }

  /** One of the checks that walk makes at this site itself raises. */
  ghost predicate Fails(w: World, s: Site)
    requires Closed(w) && Known(w, s)
  {
    match w.heap[s.value]
    case Scalar(_) => false
    case List(_) => false
    case Dict(entries) =>
      if s.mapValues then s.extensions && exists i :: 0 <= i < |entries| && entries[i].0.NotText?
      else
        || (s.context == Schema && HasBase(entries))
        || (RefOf(w, entries).Some? && Target(w, s.source, RefOf(w, entries).value).None?)
        || exists i :: 0 <= i < |entries| && ChildRoute(w, s, entries[i]).Refuse?
  }

  /** walk calls itself from site s with the arguments e. */
  ghost predicate Calls(w: World, s: Site, e: Site)
    requires Closed(w) && Known(w, s)
  {
    match w.heap[s.value]
    case Scalar(_) => false
    case List(items) => exists i :: 0 <= i < |items| && e == Site(s.source, items[i], s.context, false, false)
    case Dict(entries) =>
      if s.mapValues then
        exists i :: 0 <= i < |entries| && !(s.extensions && IsExtensionKey(entries[i].0))
          && e == Site(s.source, entries[i].1, s.context, false, false)
      else
        || RefCalls(w, s, entries, e)
        || exists i :: 0 <= i < |entries| && ChildRoute(w, s, entries[i]).Go? && e == Child(s, entries[i], ChildRoute(w, s, entries[i]))
  }

  ghost predicate RefCalls(w: World, s: Site, entries: seq<(Key, Id)>, e: Site)
    requires Closed(w)
  {
    match RefOf(w, entries)
    case None => false
    case Some(ref) =>
      match Target(w, s.source, ref)
      case None => false
      case Some((p, v)) => e == Site(p, v, s.context, false, false)
  }

  function ChildRoute(w: World, s: Site, entry: (Key, Id)): (r: Route) {
    RouteOf(s.context, entry.0, entry.1 in w.heap && w.heap[entry.1].Dict?)
  }

  function Child(s: Site, entry: (Key, Id), route: Route): (r: Site)
    requires route.Go?
  {
    Site(s.source, entry.1, route.context, route.mapValues, route.extensions)
  }

  lemma ItemCalled(w: World, s: Site, i: nat)
    requires Closed(w) && Known(w, s) && w.heap[s.value].List? && i < |w.heap[s.value].items|
    ensures Calls(w, s, Site(s.source, w.heap[s.value].items[i], s.context, false, false))
  {
  }

  lemma ValueCalled(w: World, s: Site, i: nat)
    requires Closed(w) && Known(w, s) && w.heap[s.value].Dict? && s.mapValues && i < |w.heap[s.value].entries|
    requires !(s.extensions && IsExtensionKey(w.heap[s.value].entries[i].0))
    ensures Calls(w, s, Site(s.source, w.heap[s.value].entries[i].1, s.context, false, false))
  {
  }

  lemma ChildCalled(w: World, s: Site, i: nat)
    requires Closed(w) && Known(w, s) && w.heap[s.value].Dict? && !s.mapValues && i < |w.heap[s.value].entries|
    requires ChildRoute(w, s, w.heap[s.value].entries[i]).Go?
    ensures var entry := w.heap[s.value].entries[i]; Calls(w, s, Child(s, entry, ChildRoute(w, s, entry)))
  {
  }

  // ---------------------------------------------------------------- reachability

  /** walk goes from one container to another: neither ends in an error at a, nor at a scalar. */
  ghost predicate Goes(w: World, a: Site, b: Site) {
    Closed(w) && Known(w, a) && !Fails(w, a) && Calls(w, a, b) && Container(w, b)
  }

  ghost function Going(w: World): (r: (Site, Site) -> bool) { (a, b) => Goes(w, a, b) }

  ghost predicate Reachable(w: World, a: Site, b: Site) {
    Container(w, a) && Graph.Reachable(Going(w), a, b)
  }

  lemma ReachSelf(w: World, s: Site)
    requires Container(w, s)
    ensures Reachable(w, s, s)
  {
    Graph.ReachSelf(Going(w), s);
  }

  lemma ReachStep(w: World, s: Site, e: Site, t: Site)
    requires Container(w, s) && Goes(w, s, e) && Reachable(w, e, t)
    ensures Reachable(w, s, t)
  {
    Graph.ReachBefore(Going(w), s, e, t);
  }

  /** All the sites there can be. */
  function Universe(w: World): (r: set<Site>) {
    set p, v, c, m, e |
      p in w.files.Keys && v in w.heap.Keys && c in {OpenApi, Schema, Components, Link, Callback, PathItem, Response}
      && m in {false, true} && e in {false, true}
      :: Site(p, v, c, m, e)
  }

  lemma InUniverse(w: World, s: Site)
    ensures s in Universe(w) <==> Known(w, s)
  {
    assert s.context.OpenApi? || s.context.Schema? || s.context.Components? || s.context.Link? || s.context.Callback?
        || s.context.PathItem? || s.context.Response?;
    assert s.mapValues in {false, true} && s.extensions in {false, true};
    assert s == Site(s.source, s.value, s.context, s.mapValues, s.extensions);
  }

  /** The site's own checks pass and every call from it to a container has been made. */
  ghost predicate Expanded(w: World, visited: set<Site>, s: Site) {
    && Closed(w) && Known(w, s) && !Fails(w, s)
    && forall e :: Calls(w, s, e) && Container(w, e) ==> e in visited
  }

  ghost predicate Entered(w: World, visited: set<Site>, e: Site) { Container(w, e) ==> e in visited }

  function Item(w: World, s: Site, k: nat): (r: Site)
    requires Closed(w) && Known(w, s) && w.heap[s.value].List? && k < |w.heap[s.value].items|
  {
    Site(s.source, w.heap[s.value].items[k], s.context, false, false)
  }

  /** The first n items of the list at s have been walked. */
  ghost predicate ItemsWalked(w: World, visited: set<Site>, s: Site, n: nat)
    requires Closed(w) && Known(w, s) && w.heap[s.value].List?
  {
    n <= |w.heap[s.value].items| && forall k: nat | k < n :: Entered(w, visited, Item(w, s, k))
  }

  lemma ItemWalked(w: World, before: set<Site>, visited: set<Site>, s: Site, n: nat)
    requires Closed(w) && Known(w, s) && w.heap[s.value].List? && n < |w.heap[s.value].items|
    requires ItemsWalked(w, before, s, n) && before <= visited && Entered(w, visited, Item(w, s, n))
    ensures ItemsWalked(w, visited, s, n + 1)
  {
    forall k: nat | k < n ensures Entered(w, visited, Item(w, s, k)) { assert Entered(w, before, Item(w, s, k)); }
  }

  lemma ItemsExpanded(w: World, visited: set<Site>, s: Site)
    requires Closed(w) && Known(w, s) && w.heap[s.value].List? && ItemsWalked(w, visited, s, |w.heap[s.value].items|)
    ensures Expanded(w, visited, s)
  {
    forall e | Calls(w, s, e) ensures Entered(w, visited, e) {
      var items := w.heap[s.value].items;
      var i :| 0 <= i < |items| && e == Site(s.source, items[i], s.context, false, false);
      assert e == Item(w, s, i);
    }
  }

  /** The entry of a plain map is walked, unless it is an extension where those are skipped. */
  ghost predicate ValueWalked(w: World, visited: set<Site>, s: Site, k: nat)
    requires Closed(w) && Known(w, s) && w.heap[s.value].Dict? && k < |w.heap[s.value].entries|
  {
    var entry := w.heap[s.value].entries[k];
    && !(s.extensions && entry.0.NotText?)
    && (!(s.extensions && IsExtensionKey(entry.0)) ==> Entered(w, visited, Site(s.source, entry.1, s.context, false, false)))
  }

  ghost predicate ValuesWalked(w: World, visited: set<Site>, s: Site, n: nat)
    requires Closed(w) && Known(w, s) && w.heap[s.value].Dict?
  {
    n <= |w.heap[s.value].entries| && forall k: nat | k < n :: ValueWalked(w, visited, s, k)
  }

  lemma NextValueWalked(w: World, before: set<Site>, visited: set<Site>, s: Site, n: nat)
    requires Closed(w) && Known(w, s) && w.heap[s.value].Dict? && n < |w.heap[s.value].entries|
    requires ValuesWalked(w, before, s, n) && before <= visited && ValueWalked(w, visited, s, n)
    ensures ValuesWalked(w, visited, s, n + 1)
  {
    forall k: nat | k < n ensures ValueWalked(w, visited, s, k) { assert ValueWalked(w, before, s, k); }
  }

  lemma ValuesExpanded(w: World, visited: set<Site>, s: Site)
    requires Closed(w) && Known(w, s) && w.heap[s.value].Dict? && s.mapValues
    requires ValuesWalked(w, visited, s, |w.heap[s.value].entries|)
    ensures Expanded(w, visited, s)
  {
    var entries := w.heap[s.value].entries;
    forall i | 0 <= i < |entries|
      ensures !(s.extensions && entries[i].0.NotText?)
      ensures !(s.extensions && IsExtensionKey(entries[i].0)) ==> Entered(w, visited, Site(s.source, entries[i].1, s.context, false, false))
    {
      assert ValueWalked(w, visited, s, i);
    }
  }

  /** The reference of the dict at s has been checked and walked. */
  ghost predicate RefDone(w: World, visited: set<Site>, s: Site)
    requires Closed(w) && Known(w, s) && w.heap[s.value].Dict?
  {
    match RefOf(w, w.heap[s.value].entries)
    case None => true
    case Some(ref) =>
      Target(w, s.source, ref).Some? && forall e :: RefCalls(w, s, w.heap[s.value].entries, e) ==> Entered(w, visited, e)
  }

  /** The entry of a dict is not refused, and walked when it is routed. */
  ghost predicate ChildWalked(w: World, visited: set<Site>, s: Site, k: nat)
    requires Closed(w) && Known(w, s) && w.heap[s.value].Dict? && k < |w.heap[s.value].entries|
  {
    var entry := w.heap[s.value].entries[k];
    match ChildRoute(w, s, entry)
    case Refuse => false
    case Skip => true
    case Go(_, _, _) => Entered(w, visited, Child(s, entry, ChildRoute(w, s, entry)))
  }

  ghost predicate ChildrenWalked(w: World, visited: set<Site>, s: Site, n: nat)
    requires Closed(w) && Known(w, s) && w.heap[s.value].Dict?
  {
    n <= |w.heap[s.value].entries| && forall k: nat | k < n :: ChildWalked(w, visited, s, k)
  }

  lemma NextChildWalked(w: World, before: set<Site>, visited: set<Site>, s: Site, n: nat)
    requires Closed(w) && Known(w, s) && w.heap[s.value].Dict? && n < |w.heap[s.value].entries|
    requires ChildrenWalked(w, before, s, n) && before <= visited && ChildWalked(w, visited, s, n)
    ensures ChildrenWalked(w, visited, s, n + 1)
  {
    forall k: nat | k < n ensures ChildWalked(w, visited, s, k) { assert ChildWalked(w, before, s, k); }
  }

  lemma RefStaysDone(w: World, before: set<Site>, visited: set<Site>, s: Site)
    requires Closed(w) && Known(w, s) && w.heap[s.value].Dict? && RefDone(w, before, s) && before <= visited
    ensures RefDone(w, visited, s)
  {
  }

  lemma DictExpanded(w: World, visited: set<Site>, s: Site)
    requires Closed(w) && Known(w, s) && w.heap[s.value].Dict? && !s.mapValues && RefDone(w, visited, s)
    requires !(s.context == Schema && HasBase(w.heap[s.value].entries))
    requires ChildrenWalked(w, visited, s, |w.heap[s.value].entries|)
    ensures Expanded(w, visited, s)
  {
    var entries := w.heap[s.value].entries;
    forall i: nat | i < |entries| ensures !ChildRoute(w, s, entries[i]).Refuse? { assert ChildWalked(w, visited, s, i); }
    forall e | Calls(w, s, e) ensures Entered(w, visited, e) {
      if !RefCalls(w, s, entries, e) {
        var i: nat :| i < |entries| && ChildRoute(w, s, entries[i]).Go? && e == Child(s, entries[i], ChildRoute(w, s, entries[i]));
        assert ChildWalked(w, visited, s, i);
      }
    }
  }

  /** A site reached from s whose own checks raise. */
  ghost predicate Bad(w: World, s: Site, t: Site) {
    Closed(w) && Reachable(w, s, t) && Known(w, t) && Fails(w, t)
  }

  /** walk(s) must raise. */
  ghost predicate Doomed(w: World, s: Site) {
    exists t :: Bad(w, s, t)
  }

  lemma BadHere(w: World, s: Site)
    requires Closed(w) && Known(w, s) && Container(w, s) && Fails(w, s)
    ensures Doomed(w, s)
  {
    ReachSelf(w, s);
    assert Bad(w, s, s);
  }

  lemma BadBelow(w: World, s: Site, e: Site)
    requires Closed(w) && Known(w, s) && Container(w, s) && (Fails(w, s) || Calls(w, s, e))
    requires Doomed(w, e)
    ensures Doomed(w, s)
  {
    if Fails(w, s) {
      BadHere(w, s);
    } else {
      var t :| Bad(w, e, t);
      ReachStep(w, s, e, t);
      assert Bad(w, s, t);
    }
  }

  // ---------------------------------------------------------------- the walker

  class Walker {
    const w: World
    var visited: set<Site>
    var documents: map<Path, Id>

    constructor (w: World)
      ensures this.w == w && visited == {} && documents == map[]
    {
      this.w := w;
      visited, documents := {}, map[];
    }

    /** Only files inside the workspace are cached, as they were parsed. */
    ghost predicate CacheOk()
      reads this
    {
      forall p :: p in documents ==> w.inside(p) && p in w.files && documents[p] == w.files[p]
    }

    /** Visited sites are containers of cached documents. */
    ghost predicate Valid()
      reads this
    {
      && Closed(w) && CacheOk()
      && forall s :: s in visited ==> Known(w, s) && Container(w, s) && s.source in documents
    }

    /** The state only grows. */
    twostate predicate Grew()
      reads this
    {
      && old(visited) <= visited
      && old(documents.Keys) <= documents.Keys
    }

    /** A walk that returned: every site it added is fully expanded and reachable from `s`. */
    twostate predicate Finished(s: Site)
      reads this
    {
      && (Container(w, s) ==> s in visited)
      && forall t :: t in visited && t !in old(visited) ==> Expanded(w, visited, t) && Reachable(w, s, t)
    }

    method Load(p: Path) returns (ok: bool)
      requires Valid()
      modifies this`documents
      ensures Valid() && Grew()
      ensures ok <==> Loadable(w, p)
      ensures ok ==> p in documents
    {
      if !w.inside(p) { return false; }
      if p !in documents {
        if p !in w.files { return false; }
        documents := documents[p := w.files[p]];
      }
      return true;
    }

    /** walk(value, source, context, map_values, extensions). */
    method Walk(s: Site) returns (ok: bool)
      requires Valid() && Known(w, s) && s.source in documents
      modifies this
      ensures Valid() && Grew()
      ensures ok ==> Finished(s)
      ensures !ok ==> Doomed(w, s)
      decreases Universe(w) - visited, 2
    {
      if w.heap[s.value].Scalar? { return true; }
      if s in visited { return true; }
      InUniverse(w, s);
      visited := visited + {s};
      label entered:
      if w.heap[s.value].List? {
        ok := WalkItems(s, old(visited));
      } else if s.mapValues {
        ok := WalkValues(s, old(visited));
      } else {
        ok := WalkDict(s, old(visited));
      }
    }

    /** What the loops below keep: the walk of `s` began at `before` and the sites it added,
        other than s itself, are expanded and reachable. */
    ghost predicate Within(s: Site, before: set<Site>)
      requires Closed(w)
      reads this
    {
      && s in visited && Known(w, s) && Container(w, s)
      && (forall t :: t in visited && t !in before ==> t == s || Fails(w, s) || Reachable(w, s, t))
      && (forall t :: t in visited && t !in before && t != s ==> Expanded(w, visited, t))
    }

    /** One call from inside the walk of `s`. */
    method Call(s: Site, e: Site, ghost before: set<Site>) returns (ok: bool)
      requires Valid() && Within(s, before) && before < visited
      requires Known(w, e) && e.source in documents
      requires Fails(w, s) || Calls(w, s, e)
      modifies this
      ensures Valid() && Grew()
      ensures ok ==> Within(s, before) && Entered(w, visited, e)
      ensures !ok ==> Doomed(w, s)
      decreases Universe(w) - visited, 3
    {
      ok := Walk(e);
      if ok {
        forall t | t in visited && t !in before && t != s
          ensures (Fails(w, s) || Reachable(w, s, t)) && Expanded(w, visited, t)
        {
          if t in old(visited) {
            assert Expanded(w, old(visited), t);
          } else if !Fails(w, s) {
            ReachStep(w, s, e, t);
          }
        }
      } else {
        BadBelow(w, s, e);
      }
    }

    /** The state while the sites called from s are being walked. */
    twostate predicate Walking(s: Site, before: set<Site>)
      reads this
    {
      Valid() && Grew() && Within(s, before) && before < visited
    }

    method WalkItems(s: Site, ghost before: set<Site>) returns (ok: bool)
      requires Valid() && Known(w, s) && w.heap[s.value].List? && Within(s, before) && before < visited
      modifies this
      ensures Valid() && Grew()
      ensures ok ==> DoneWith(s, before)
      ensures !ok ==> Doomed(w, s)
      decreases Universe(w) - visited, 4
    {
      var items := w.heap[s.value].items;
      for i := 0 to |items|
        invariant Walking(s, before)
        invariant ItemsWalked(w, visited, s, i)
      {
        ItemCalled(w, s, i);
        ghost var earlier := visited;
        ok := Call(s, Site(s.source, items[i], s.context, false, false), before);
        if !ok { return; }
        ItemWalked(w, earlier, visited, s, i);
      }
      ok := true;
      ItemsExpanded(w, visited, s);
      Complete(s, before);
    }

    method WalkValues(s: Site, ghost before: set<Site>) returns (ok: bool)
      requires Valid() && Known(w, s) && w.heap[s.value].Dict? && s.mapValues && Within(s, before) && before < visited
      modifies this
      ensures Valid() && Grew()
      ensures ok ==> DoneWith(s, before)
      ensures !ok ==> Doomed(w, s)
      decreases Universe(w) - visited, 4
    {
      var entries := w.heap[s.value].entries;
      for i := 0 to |entries|
        invariant Walking(s, before)
        invariant ValuesWalked(w, visited, s, i)
      {
        var (key, child) := entries[i];
        ghost var earlier := visited;
        if s.extensions && key.NotText? { BadHere(w, s); return false; }
        if !s.extensions || !IsExtension(key.text) {
          ValueCalled(w, s, i);
          ok := Call(s, Site(s.source, child, s.context, false, false), before);
          if !ok { return; }
        }
        NextValueWalked(w, earlier, visited, s, i);
      }
      ok := true;
      ValuesExpanded(w, visited, s);
      Complete(s, before);
    }

    method WalkDict(s: Site, ghost before: set<Site>) returns (ok: bool)
      requires Valid() && Known(w, s) && w.heap[s.value].Dict? && !s.mapValues && Within(s, before) && before < visited
      modifies this
      ensures Valid() && Grew()
      ensures ok ==> DoneWith(s, before)
      ensures !ok ==> Doomed(w, s)
      decreases Universe(w) - visited, 5
    {
      ok := NoBases(w.heap[s.value].entries);
      if s.context == Schema && !ok { BadHere(w, s); return; }
      ok := WalkRef(s, before);
      if !ok { return; }
      ok := WalkChildren(s, before);
    }

    method NoBases(entries: seq<(Key, Id)>) returns (ok: bool)
      ensures ok <==> !HasBase(entries)
    {
      for i := 0 to |BASES|
        invariant forall k :: 0 <= k < i ==> Lookup(entries, BASES[k]).None?
      {
        if Lookup(entries, BASES[i]).Some? { assert BASES[i] in BASES; return false; }
      }
      return true;
    }

    method WalkChildren(s: Site, ghost before: set<Site>) returns (ok: bool)
      requires Valid() && Known(w, s) && w.heap[s.value].Dict? && !s.mapValues && Within(s, before) && before < visited
      requires RefDone(w, visited, s) && !(s.context == Schema && HasBase(w.heap[s.value].entries))
      modifies this
      ensures Valid() && Grew()
      ensures ok ==> DoneWith(s, before)
      ensures !ok ==> Doomed(w, s)
      decreases Universe(w) - visited, 4
    {
      var entries := w.heap[s.value].entries;
      for i := 0 to |entries|
        invariant Walking(s, before)
        invariant RefDone(w, visited, s)
        invariant ChildrenWalked(w, visited, s, i)
      {
        ghost var earlier := visited;
        var route := RouteOf(s.context, entries[i].0, w.heap[entries[i].1].Dict?);
        match route {
          case Refuse => BadHere(w, s); return false;
          case Skip =>
          case Go(context, mapValues, extensions) =>
            ChildCalled(w, s, i);
            ok := Call(s, Site(s.source, entries[i].1, context, mapValues, extensions), before);
            if !ok { return; }
        }
        RefStaysDone(w, earlier, visited, s);
        NextChildWalked(w, earlier, visited, s, i);
      }
      ok := true;
      DictExpanded(w, visited, s);
      Complete(s, before);
    }

    /** Check a reference, load its document and follow its pointer. */
    method ResolveRef(source: Path, ref: string) returns (r: Option<(Path, Id)>)
      requires Valid()
      modifies this`documents
      ensures Valid() && Grew()
      ensures r == Target(w, source, ref)
      ensures r.Some? ==> r.value.0 in documents
    {
      var uri := w.split(ref);
      if uri.scheme != "" || uri.netloc != "" || uri.query != "" { return None; }
      var p := if uri.path != "" then w.join(source, w.unquote(uri.path)) else source;
      var ok := Load(p);
      if !ok { return None; }
      var fragment := w.unquote(uri.fragment);
      if fragment != "" && fragment[0] != '/' { return None; }
      var target := FollowTokens(documents[p], JsonPointer.Tokens(fragment));
      if target.None? { return None; }
      return Some((p, target.value));
    }

    method FollowTokens(root: Id, tokens: seq<string>) returns (r: Option<Id>)
      requires Closed(w) && root in w.heap
      ensures r == Follow(w, root, tokens)
    {
      var target := root;
      for i := 0 to |tokens|
        invariant target in w.heap
        invariant Follow(w, root, tokens) == Follow(w, target, tokens[i..])
      {
        assert tokens[i..][0] == tokens[i] && tokens[i..][1..] == tokens[i + 1..];
        match w.heap[target] {
          case Scalar(_) => return None;
          case List(items) =>
            var number := w.number(tokens[i]);
            if number.None? { return None; }
            var k := ListIndex(|items|, number.value);
            if k.None? { return None; }
            target := items[k.value];
          case Dict(children) =>
            var child := Lookup(children, tokens[i]);
            if child.None? { return None; }
            target := child.value;
        }
      }
      return Some(target);
    }

    method WalkRef(s: Site, ghost before: set<Site>) returns (ok: bool)
      requires Valid() && Known(w, s) && w.heap[s.value].Dict? && !s.mapValues && Within(s, before) && before < visited
      modifies this
      ensures Valid() && Grew()
      ensures ok ==> Within(s, before) && RefDone(w, visited, s)
      ensures !ok ==> Doomed(w, s)
      decreases Universe(w) - visited, 4
    {
      var ref := RefOf(w, w.heap[s.value].entries);
      if ref.None? { return true; }
      var target := ResolveRef(s.source, ref.value);
      if target.None? { BadHere(w, s); return false; }
      var e := Site(target.value.0, target.value.1, s.context, false, false);
      assert RefCalls(w, s, w.heap[s.value].entries, e);
      ok := Call(s, e, before);
    }

    /** The walk of `s` is over. */
    ghost predicate DoneWith(s: Site, before: set<Site>)
      requires Closed(w)
      reads this
    {
      && s in visited
      && forall t :: t in visited && t !in before ==> Expanded(w, visited, t) && Reachable(w, s, t)
    }

    lemma Complete(s: Site, before: set<Site>)
      requires Closed(w) && Within(s, before) && Expanded(w, visited, s)
      ensures DoneWith(s, before)
    {
      ReachSelf(w, s);
    }

    /** local_documents: load the document, walk it. */
    method LocalDocuments(path: Path) returns (ok: bool)
      requires Closed(w) && visited == {} && documents == map[]
      modifies this
      ensures Valid()
      ensures ok <==> Loadable(w, path) && !Doomed(w, Start(w, path))
      ensures ok ==> forall t :: t in visited <==> Reachable(w, Start(w, path), t)
    {
      ok := Load(path);
      if !ok { return; }
      ok := Walk(Start(w, path));
      if ok { Preflighted(Start(w, path)); }
    }

    lemma Preflighted(start: Site)
      requires Closed(w) && (Container(w, start) ==> start in visited)
      requires forall t :: t in visited ==> Expanded(w, visited, t) && Reachable(w, start, t)
      ensures forall t :: t in visited <==> Reachable(w, start, t)
      ensures !Doomed(w, start)
    {
      forall t | Reachable(w, start, t) ensures t in visited && !Bad(w, start, t) {
        Graph.ReachWithin(Going(w), visited, start, t);
        assert Expanded(w, visited, t);
      }
    }

    /** The resolver's reader: only what the preflight cached. */
    method CachedFile(uri: Uri, resolved: Path) returns (r: Option<Id>)
      requires Valid()
      ensures r.Some? <==> uri.scheme == "file" && uri.netloc == "" && uri.query == "" && resolved in documents
      ensures r.Some? ==> w.inside(resolved) && resolved in w.files && r.value == w.files[resolved]
    {
      if uri.scheme != "file" || uri.netloc != "" || uri.query != "" { return None; }
      if resolved !in documents { return None; }
      return Some(documents[resolved]);
    }
  }

  function Start(w: World, path: Path): (r: Site)
    requires path in w.files
  {
    Site(path, w.files[path], OpenApi, false, false)
  }

  /** What a passing preflight means for references: every reachable dict with a $ref outside
      a plain map points to a local node of a file inside the workspace, that file is cached,
      and its target was walked in the context of the reference. */
  lemma ReferencesChecked(w: World, visited: set<Site>, documents: map<Path, Id>, start: Site, s: Site, ref: string)
    requires Closed(w) && Known(w, s) && Reachable(w, start, s) && !Fails(w, s)
    requires forall t :: t in visited <==> Reachable(w, start, t)
    requires forall t :: t in visited ==> t.source in documents
    requires w.heap[s.value].Dict? && !s.mapValues && RefOf(w, w.heap[s.value].entries) == Some(ref)
    ensures IsLocal(w.split(ref))
    ensures var target := Target(w, s.source, ref);
            && target.Some? && w.inside(target.value.0)
            && var site := Site(target.value.0, target.value.1, s.context, false, false);
               Container(w, site) ==> site in visited && site.source in documents
  {
    var target := Target(w, s.source, ref).value;
    var e := Site(target.0, target.1, s.context, false, false);
    assert RefCalls(w, s, w.heap[s.value].entries, e);
    if Container(w, e) { Graph.ReachAfter(Going(w), start, s, e); }
  }
}
