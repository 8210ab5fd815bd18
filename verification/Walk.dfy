/**
 Discovery's walk: breadth-first over forward references, pruned by the path filter. The walk
 over chunked Browse requests is proved to compute a queue-based exploration, and that
 exploration is related to paths in the address space: reachability without a filter,
 filter-after-walk on trees, and soundness on every graph.
 */
module Walk {
  import opened Paging
  import opened Browsing
  import opened Filters

  const OBJECTS: nat := 85
  const SERVER: nat := 2253

  /** The address space as browsed, the filter, and how BrowseNames are traced and globs fit. */
  datatype World = World(graph: Graph, filter: PathFilter, clean: string -> string, fits: Fits)
  {
    function Refs(node: nat): seq<Reference> {
      if node in graph then graph[node] else []
    }

    function Traced(path: Path): (r: Path)
      ensures |r| == |path|
    {
      seq(|path|, i requires 0 <= i < |path| => clean(path[i]))
    }

    predicate Excluded(path: Path) {
      filter.Excluded(fits, Traced(path))
    }

    predicate Traces(path: Path) {
      !Excluded(path) && filter.Included(fits, Traced(path))
    }

    /** Worth browsing: traced, or something below may be. */
    predicate Browses(path: Path) {
      Traces(path) || (!Excluded(path) && filter.Reachable(fits, Traced(path)))
    }
  }

  /** Followed wherever it leads: no property, nothing on another server, Variables, and Objects not
      named `_*`. */
  predicate Followed(ref: Reference) {
    && !ref.remote
    && (ref.kind.Variable? || (ref.kind.Object? && (ref.name == "" || ref.name[0] != '_')))
  }

  /** A node taken by the walk, the path it was taken on, and whether it is a Variable. */
  datatype Entry = Entry(node: nat, path: Path, variable: bool)

  const Root := Entry(OBJECTS, [], false)

  function Nodes(entries: seq<Entry>): set<nat> {
    set i | 0 <= i < |entries| :: entries[i].node
  }

  /** Not visited yet, followed, and worth browsing on this path. */
  predicate Takes(w: World, entries: seq<Entry>, path: Path, ref: Reference) {
    && Followed(ref) && ref.node != SERVER && ref.node !in Nodes(entries)
    && w.Browses(path + [ref.name])
  }

  function Grow(w: World, entries: seq<Entry>, path: Path, ref: Reference): seq<Entry> {
    if Takes(w, entries, path, ref)
    then entries + [Entry(ref.node, path + [ref.name], ref.kind.Variable?)]
    else entries
  }

  /** The references of one node, in order. */
  function GrowAll(w: World, entries: seq<Entry>, path: Path, refs: seq<Reference>): (r: seq<Entry>)
    ensures |entries| <= |r| && r[..|entries|] == entries
    ensures forall k :: |entries| <= k < |r| ==>
              r[k].node !in Nodes(entries) && exists ref :: ref in refs && ref.node == r[k].node
    decreases |refs|
  {
    if refs == [] then entries else
      var next := Grow(w, entries, path, refs[0]);
      assert forall k :: 0 <= k < |entries| ==> next[k] == entries[k];
      assert forall k :: 0 <= k < |entries| ==> entries[k].node in Nodes(next);
      assert Nodes(entries) <= Nodes(next);
      GrowAll(w, next, path, refs[1..])
  }

  /** The first of these references that leads to its node and is taken. */
  ghost predicate FirstTaken(w: World, entries: seq<Entry>, path: Path, refs: seq<Reference>, a: nat) {
    && a < |refs| && Takes(w, entries, path, refs[a])
    && forall b :: 0 <= b < a && refs[b].node == refs[a].node ==> !Takes(w, entries, path, refs[b])
  }

  /** `at` lists the references of one node that were taken: of several to one node the first, in order. */
  ghost predicate TakenAt(w: World, entries: seq<Entry>, path: Path, refs: seq<Reference>, r: seq<Entry>, at: seq<nat>) {
    && |r| == |entries| + |at|
    && (forall j, k :: 0 <= j < k < |at| ==> at[j] < at[k])
    && (forall a: nat :: a in at <==> FirstTaken(w, entries, path, refs, a))
    && forall k :: 0 <= k < |at| ==>
         at[k] < |refs|
         && r[|entries| + k] == Entry(refs[at[k]].node, path + [refs[at[k]].name], refs[at[k]].kind.Variable?)
  }

  lemma {:induction false} GrowAllTakes(w: World, entries: seq<Entry>, path: Path, refs: seq<Reference>) returns (at: seq<nat>)
    ensures TakenAt(w, entries, path, refs, GrowAll(w, entries, path, refs), at)
    decreases |refs|
  {
    at := [];
    if refs != [] {
      var next := Grow(w, entries, path, refs[0]);
      var rest := GrowAllTakes(w, next, path, refs[1..]);
      at := TakenAlso(w, entries, path, refs, GrowAll(w, next, path, refs[1..]), rest);
    }
  }

  lemma TakenAlso(w: World, entries: seq<Entry>, path: Path, refs: seq<Reference>, r: seq<Entry>, rest: seq<nat>)
    returns (at: seq<nat>)
    requires refs != [] && TakenAt(w, Grow(w, entries, path, refs[0]), path, refs[1..], r, rest)
    requires |entries| <= |r| && r[..|entries|] == entries
    requires Takes(w, entries, path, refs[0]) ==>
               |r| > |entries| && r[|entries|] == Entry(refs[0].node, path + [refs[0].name], refs[0].kind.Variable?)
    ensures TakenAt(w, entries, path, refs, r, at)
  {
    var first: seq<nat> := if Takes(w, entries, path, refs[0]) then [0] else [];
    var later := OneOn(rest);
    at := first + later;
    forall a: nat
      ensures a in at <==> FirstTaken(w, entries, path, refs, a)
    {
      if a > 0 {
        FirstOn(w, entries, path, refs, a);
      }
    }
    forall k | 0 <= k < |at|
      ensures at[k] < |refs|
      ensures r[|entries| + k] == Entry(refs[at[k]].node, path + [refs[at[k]].name], refs[at[k]].kind.Variable?)
    {
      if k >= |first| {
        assert at[k] == rest[k - |first|] + 1 && refs[at[k]] == refs[1..][rest[k - |first|]];
      }
    }
  }

  function OneOn(s: seq<nat>): (r: seq<nat>)
    ensures |r| == |s| && forall k :: 0 <= k < |s| ==> r[k] == s[k] + 1
    ensures forall a: nat :: a in r <==> a > 0 && a - 1 in s
  {
    var r := seq(|s|, k requires 0 <= k < |s| => s[k] + 1);
    assert forall a: nat :: a > 0 && a - 1 in s ==> a in r by {
      forall a: nat | a > 0 && a - 1 in s
        ensures a in r
      {
        var k :| 0 <= k < |s| && s[k] == a - 1;
        assert r[k] == a;
      }
    }
    r
  }

  /** After the first reference the others are taken as before, but for those to its node if it was. */
  lemma TakesOn(w: World, entries: seq<Entry>, path: Path, refs: seq<Reference>)
    requires refs != []
    ensures forall ref :: Takes(w, Grow(w, entries, path, refs[0]), path, ref) <==>
              Takes(w, entries, path, ref) && !(Takes(w, entries, path, refs[0]) && ref.node == refs[0].node)
  {
    var next := Grow(w, entries, path, refs[0]);
    if Takes(w, entries, path, refs[0]) {
      var e := Entry(refs[0].node, path + [refs[0].name], refs[0].kind.Variable?);
      assert next[|entries|] == e;
      assert Nodes(next) == Nodes(entries) + {e.node} by {
        NodesGrow(entries, next);
        assert e.node in Nodes(next);
      }
    }
  }

  lemma FirstOn(w: World, entries: seq<Entry>, path: Path, refs: seq<Reference>, a: nat)
    requires refs != [] && a > 0
    ensures FirstTaken(w, Grow(w, entries, path, refs[0]), path, refs[1..], a - 1) <==> FirstTaken(w, entries, path, refs, a)
  {
    TakesOn(w, entries, path, refs);
    if a < |refs| {
      assert forall b :: 0 < b < |refs| ==> refs[b] == refs[1..][b - 1];
    }
  }

  function Universe(g: Graph): set<nat> {
    set n, k | n in g && 0 <= k < |g[n]| :: g[n][k].node
  }

  /** Takes what each entry's references lead to, entry by entry. */
  function Explore(w: World, entries: seq<Entry>, i: nat): (r: seq<Entry>)
    requires i <= |entries|
    ensures |entries| <= |r| && r[..|entries|] == entries
    decreases Universe(w.graph) - Nodes(entries), |entries| - i
  {
    if i == |entries| then entries else
      var next := GrowAll(w, entries, entries[i].path, w.Refs(entries[i].node));
      GrowShrinks(w, entries, i, next);
      var r := Explore(w, next, i + 1);
      assert r[..|entries|] == r[..|next|][..|entries|];
      r
  }

  lemma GrowShrinks(w: World, entries: seq<Entry>, i: nat, next: seq<Entry>)
    requires i < |entries| && next == GrowAll(w, entries, entries[i].path, w.Refs(entries[i].node))
    ensures |next| == |entries| || Universe(w.graph) - Nodes(next) < Universe(w.graph) - Nodes(entries)
    ensures next == entries || |next| > |entries|
  {
    assert forall k :: 0 <= k < |entries| ==> next[k] == next[..|entries|][k];
    assert Nodes(entries) <= Nodes(next);
    if |next| > |entries| {
      var taken := next[|entries|];
      var refs := w.Refs(entries[i].node);
      var ref :| ref in refs && ref.node == taken.node;
      var k :| 0 <= k < |refs| && refs[k] == ref;
      assert taken.node in Universe(w.graph);
      assert taken.node in Nodes(next) && taken.node !in Nodes(entries);
    } else {
      assert next == next[..|entries|];
    }
  }

  /** Everything the walk takes. */
  function Taken(w: World): seq<Entry> {
    Explore(w, [Root], 0)
  }

  /** What the walk reports: the Variables it took on a traced path, in order. */
  function Found(w: World, entries: seq<Entry>): (r: seq<Entry>)
    ensures forall e :: e in r <==> e in entries && e.variable && w.Traces(e.path)
  {
    if entries == [] then [] else
      var last := entries[|entries| - 1];
      var before := Found(w, entries[..|entries| - 1]);
      assert entries == entries[..|entries| - 1] + [last];
      if last.variable && w.Traces(last.path) then before + [last] else before
  }

  // ------------------------------------------------------------ the walk itself

  /** What the walk updates: the nodes visited, the Variables found, the next level. */
  datatype Progress = Progress(visited: set<nat>, found: seq<Entry>, next: seq<Entry>)

  ghost predicate Tracks(w: World, p: Progress, entries: seq<Entry>, base: nat) {
    && p.visited == Nodes(entries) + {SERVER} && p.found == Found(w, entries)
    && base <= |entries| && p.next == entries[base..]
  }

  /** One node's references. */
  method TakeRefs(w: World, path: Path, refs: seq<Reference>, before: Progress, ghost entries: seq<Entry>, ghost base: nat)
    returns (p: Progress)
    requires Tracks(w, before, entries, base)
    ensures Tracks(w, p, GrowAll(w, entries, path, refs), base)
  {
    p := before;
    ghost var now := entries;
    var k := 0;
    while k < |refs|
      invariant 0 <= k <= |refs| && Tracks(w, p, now, base)
      invariant GrowAll(w, now, path, refs[k..]) == GrowAll(w, entries, path, refs)
    {
      var ref := refs[k];
      if Followed(ref) && ref.node !in p.visited && w.Browses(path + [ref.name]) {
        var e := Entry(ref.node, path + [ref.name], ref.kind.Variable?);
        TracksNext(w, p, now, base, e);
        p := Progress(p.visited + {e.node},
                      if e.variable && w.Traces(e.path) then p.found + [e] else p.found,
                      p.next + [e]);
        now := now + [e];
      }
      k := k + 1;
    }
  }

  lemma TracksNext(w: World, p: Progress, entries: seq<Entry>, base: nat, e: Entry)
    requires Tracks(w, p, entries, base)
    ensures Tracks(w, Progress(p.visited + {e.node}, if e.variable && w.Traces(e.path) then p.found + [e] else p.found,
                               p.next + [e]), entries + [e], base)
  {
    var more := entries + [e];
    assert more[..|more| - 1] == entries;
    NodesGrow(entries, more);
    assert Nodes(more) == Nodes(entries) + {e.node} by {
      assert more[|entries|] == e;
    }
    assert more[base..] == entries[base..] + [e];
  }

  /** One node's references are taken. */
  ghost predicate Step(w: World, entries: seq<Entry>, i: nat, next: seq<Entry>) {
    i < |entries| && next == GrowAll(w, entries, entries[i].path, w.Refs(entries[i].node))
  }

  /** The entries before the first node's references, after them, after the second's, .. */
  ghost predicate Logged(w: World, log: seq<seq<Entry>>) {
    log != [] && log[0] == [Root] && forall i :: 0 <= i < |log| - 1 ==> Step(w, log[i], i, log[i + 1])
  }

  function Latest(log: seq<seq<Entry>>): seq<Entry>
    requires log != []
  {
    log[|log| - 1]
  }

  lemma {:induction false} LoggedTaken(w: World, log: seq<seq<Entry>>)
    requires Logged(w, log)
    ensures |log| - 1 <= |Latest(log)| && Explore(w, Latest(log), |log| - 1) == Taken(w)
  {
    if |log| > 1 {
      var n := |log| - 1;
      LoggedTaken(w, log[..n]);
    }
  }

  /** A level under way: the first `j` of `entries` are done, what they lead to is appended. */
  ghost predicate Level(w: World, p: Progress, entries: seq<Entry>, log: seq<seq<Entry>>, j: nat) {
    && Logged(w, log) && |log| == j + 1 && j <= |entries| && Grown(entries, Latest(log))
    && Tracks(w, p, Latest(log), |entries|) && Shrinks(w, entries, Latest(log))
  }

  ghost predicate Grown(entries: seq<Entry>, now: seq<Entry>) {
    |entries| <= |now| && now[..|entries|] == entries
  }

  ghost predicate Shrinks(w: World, entries: seq<Entry>, now: seq<Entry>) {
    now == entries || Universe(w.graph) - Nodes(now) < Universe(w.graph) - Nodes(entries)
  }

  lemma LevelNext(w: World, entries: seq<Entry>, now: seq<Entry>, j: nat)
    requires j < |entries| && Grown(entries, now) && Shrinks(w, entries, now)
    ensures now[j] == entries[j]
    ensures var next := GrowAll(w, now, entries[j].path, w.Refs(entries[j].node));
            Step(w, now, j, next) && Grown(entries, next) && Shrinks(w, entries, next)
  {
    assert now[j] == now[..|entries|][j];
    var next := GrowAll(w, now, entries[j].path, w.Refs(entries[j].node));
    GrowShrinks(w, now, j, next);
    assert next[..|entries|] == next[..|now|][..|entries|];
  }

  method TakeNode(w: World, e: Entry, refs: seq<Reference>, before: Progress,
                  ghost entries: seq<Entry>, ghost was: seq<seq<Entry>>, ghost j: nat)
    returns (p: Progress, ghost log: seq<seq<Entry>>)
    requires Level(w, before, entries, was, j) && j < |entries| && entries[j] == e && refs == w.Refs(e.node)
    ensures Level(w, p, entries, log, j + 1)
  {
    LevelNext(w, entries, Latest(was), j);
    p := TakeRefs(w, e.path, refs, before, Latest(was), |entries|);
    log := was + [GrowAll(w, Latest(was), e.path, refs)];
  }

  /** The pages of one request, node by node. */
  method TakeBatch(w: World, batch: seq<Entry>, pages: seq<seq<Reference>>, before: Progress,
                   ghost entries: seq<Entry>, ghost was: seq<seq<Entry>>, ghost j: nat)
    returns (p: Progress, ghost log: seq<seq<Entry>>)
    requires Level(w, before, entries, was, j)
    requires j + |batch| <= |entries| && batch == entries[j..j + |batch|]
    requires |pages| == |batch| && forall k :: 0 <= k < |batch| ==> pages[k] == w.Refs(batch[k].node)
    ensures Level(w, p, entries, log, j + |batch|)
  {
    p, log := before, was;
    var k := 0;
    while k < |batch|
      invariant 0 <= k <= |batch|
      invariant Level(w, p, entries, log, j + k)
    {
      p, log := TakeNode(w, batch[k], pages[k], p, entries, log, j + k);
      k := k + 1;
    }
  }

  /** One level, in Browse requests of `chunk` nodes. */
  method TakeLevel(s: Server, w: World, chunk: nat, frontier: seq<Entry>, before: Progress,
                   ghost entries: seq<Entry>, ghost was: seq<seq<Entry>>, ghost i: nat)
    returns (p: Progress, ghost log: seq<seq<Entry>>)
    requires s.Valid() && s.held == map[] && s.graph == w.graph
    requires chunk > 0 && (s.maxNodes == 0 || chunk <= s.maxNodes)
    requires Level(w, before, entries, was, i) && frontier == entries[i..]
    modifies s
    ensures s.Valid() && s.held == map[]
    ensures Level(w, p, entries, log, |entries|)
  {
    p, log := before, was;
    var start := 0;
    while start < |frontier|
      invariant 0 <= start <= |frontier| && s.Valid() && s.held == map[]
      invariant Level(w, p, entries, log, i + start)
    {
      var stop := if start + chunk < |frontier| then start + chunk else |frontier|;
      var batch := frontier[start..stop];
      SliceOfRest(entries, i, start, stop);
      assert i + start + |batch| == i + stop && stop <= |frontier|;
      p, log := TakeRequest(s, w, batch, p, entries, log, i + start);
      start := stop;
    }
  }

  lemma SliceOfRest(entries: seq<Entry>, i: nat, a: nat, b: nat)
    requires i <= |entries| && a <= b <= |entries| - i
    ensures entries[i..][a..b] == entries[i + a..i + b]
  {}

  /** One Browse request of a level. */
  method TakeRequest(s: Server, w: World, batch: seq<Entry>, before: Progress,
                     ghost entries: seq<Entry>, ghost was: seq<seq<Entry>>, ghost j: nat)
    returns (p: Progress, ghost log: seq<seq<Entry>>)
    requires s.Valid() && s.held == map[] && s.graph == w.graph && (s.maxNodes == 0 || |batch| <= s.maxNodes)
    requires Level(w, before, entries, was, j)
    requires j + |batch| <= |entries| && batch == entries[j..j + |batch|]
    modifies s
    ensures s.Valid() && s.held == map[]
    ensures Level(w, p, entries, log, j + |batch|)
  {
    var nodes: seq<nat> := seq(|batch|, k requires 0 <= k < |batch| => batch[k].node);
    var pages, bad := BrowseBatch(s, nodes, true);
    p, log := TakeBatch(w, batch, pages, before, entries, was, j);
  }

  /** Level by level from Objects. What it finds does not depend on the chunk size or on the server's
      paging, and no continuation point is left held. */
  method BreadthFirst(s: Server, w: World, chunk: nat) returns (found: seq<Entry>)
    requires s.Valid() && s.held == map[] && s.graph == w.graph
    requires chunk > 0 && (s.maxNodes == 0 || chunk <= s.maxNodes)
    modifies s
    ensures s.Valid() && s.held == map[]
    ensures found == Found(w, Taken(w))
  {
    var p := Progress({OBJECTS, SERVER}, [], []);
    var frontier := [Root];
    ghost var entries, log, i := [Root], [[Root]], 0;
    assert Nodes([Root]) == {OBJECTS} by {
      assert [Root][0].node in Nodes([Root]);
    }
    while frontier != []
      invariant s.Valid() && s.held == map[]
      invariant 0 <= i <= |entries| && frontier == entries[i..]
      invariant Level(w, p.(next := []), entries, log, i) && Latest(log) == entries
      decreases Universe(w.graph) - Nodes(entries), |frontier|
    {
      p, log := TakeLevel(s, w, chunk, frontier, p.(next := []), entries, log, i);
      i := |entries|;
      entries := Latest(log);
      frontier := p.next;
    }
    LoggedTaken(w, log);
    found := p.found;
  }

  // ------------------------------------------------------------ paths in the address space

  /** A reference of `parent` to a node of this server: a Variable, or an Object whose name does not begin with an
      underscore, and neither Server nor Objects itself. */
  ghost predicate Leads(w: World, parent: nat, ref: Reference) {
    && parent in w.graph && ref in w.graph[parent] && !ref.remote && ref.node !in {SERVER, OBJECTS}
    && match ref.kind
       case Variable => true
       case Object => !(['_'] <= ref.name)
       case Property => false
       case Other => false
  }

  /** The path above, and the last name. */
  function Up(path: Path): Path
    requires path != []
  {
    path[..|path| - 1]
  }

  function Tip(path: Path): string
    requires path != []
  {
    path[|path| - 1]
  }

  ghost predicate Ends(w: World, parent: nat, ref: Reference, node: nat, name: string, variable: bool) {
    Leads(w, parent, ref) && ref.node == node && ref.name == name && ref.kind.Variable? == variable
  }

  /** A chain of followed references from Objects to `node`, named `path`, the last one to a Variable
      or not. */
  ghost predicate Reaches(w: World, node: nat, path: Path, variable: bool)
    decreases |path|
  {
    if path == [] then node == OBJECTS && !variable
    else exists parent, above, ref ::
           Ends(w, parent, ref, node, Tip(path), variable) && Reaches(w, parent, Up(path), above)
  }

  /** Every branch of the path is worth browsing. */
  ghost predicate Open(w: World, path: Path) {
    forall n :: 1 <= n <= |path| ==> w.Browses(path[..n])
  }

  ghost predicate Sound(w: World, e: Entry) {
    Reaches(w, e.node, e.path, e.variable) && Open(w, e.path) && e.node != SERVER
  }

  ghost predicate Distinct(entries: seq<Entry>) {
    forall i, j :: 0 <= i < j < |entries| ==> entries[i].node != entries[j].node
  }

  /** What the references of an entry lead to was taken, unless it is not worth browsing. */
  ghost predicate Closed(w: World, e: Entry, refs: seq<Reference>, entries: seq<Entry>) {
    forall ref :: ref in refs && Followed(ref) && ref.node != SERVER && w.Browses(e.path + [ref.name])
                  ==> ref.node in Nodes(entries)
  }

  ghost predicate Explored(w: World, entries: seq<Entry>, i: nat) {
    && i <= |entries| && entries != [] && entries[0] == Root && Distinct(entries)
    && (forall k :: 0 <= k < |entries| ==> Sound(w, entries[k]))
    && (forall k :: 0 <= k < i ==> Closed(w, entries[k], w.Refs(entries[k].node), entries))
  }

  lemma NodesGrow(a: seq<Entry>, b: seq<Entry>)
    requires |a| <= |b| && b[..|a|] == a
    ensures Nodes(a) <= Nodes(b)
  {
    assert forall k :: 0 <= k < |a| ==> a[k] == b[..|a|][k];
    assert forall k :: 0 <= k < |a| ==> b[k].node in Nodes(b);
  }

  lemma TakenSound(w: World, e: Entry, ref: Reference)
    requires Sound(w, e) && ref in w.Refs(e.node) && Followed(ref) && ref.node != SERVER && ref.node != OBJECTS
    requires w.Browses(e.path + [ref.name])
    ensures Sound(w, Entry(ref.node, e.path + [ref.name], ref.kind.Variable?))
  {
    var path := e.path + [ref.name];
    assert Up(path) == e.path;
    assert Ends(w, e.node, ref, ref.node, Tip(path), ref.kind.Variable?);
    forall n | 1 <= n <= |path|
      ensures w.Browses(path[..n])
    {
      if n <= |e.path| {
        assert path[..n] == e.path[..n];
      } else {
        assert path[..n] == path;
      }
    }
  }

  lemma GrowKeeps(w: World, entries: seq<Entry>, e: Entry, ref: Reference)
    requires entries != [] && entries[0] == Root && Distinct(entries)
    requires forall k :: 0 <= k < |entries| ==> Sound(w, entries[k])
    requires Sound(w, e) && ref in w.Refs(e.node)
    ensures var r := Grow(w, entries, e.path, ref);
            && r != [] && r[0] == Root && Distinct(r) && (forall k :: 0 <= k < |r| ==> Sound(w, r[k]))
            && (Followed(ref) && ref.node != SERVER && w.Browses(e.path + [ref.name]) ==> ref.node in Nodes(r))
  {
    var r := Grow(w, entries, e.path, ref);
    assert forall k :: 0 <= k < |entries| ==> entries[k].node in Nodes(entries);
    if Takes(w, entries, e.path, ref) {
      assert OBJECTS == entries[0].node;
      TakenSound(w, e, ref);
      assert r[|entries|].node in Nodes(r);
    }
  }

  lemma {:induction false} GrowAllKeeps(w: World, entries: seq<Entry>, e: Entry, refs: seq<Reference>)
    requires entries != [] && entries[0] == Root && Distinct(entries)
    requires forall k :: 0 <= k < |entries| ==> Sound(w, entries[k])
    requires Sound(w, e) && forall ref :: ref in refs ==> ref in w.Refs(e.node)
    ensures var r := GrowAll(w, entries, e.path, refs);
            Distinct(r) && (forall k :: 0 <= k < |r| ==> Sound(w, r[k])) && Closed(w, e, refs, r)
    decreases |refs|
  {
    if refs != [] {
      var ref := refs[0];
      assert ref in refs;
      var next := Grow(w, entries, e.path, ref);
      GrowKeeps(w, entries, e, ref);
      GrowAllKeeps(w, next, e, refs[1..]);
      var r := GrowAll(w, next, e.path, refs[1..]);
      NodesGrow(next, r);
      forall other | other in refs && Followed(other) && other.node != SERVER && w.Browses(e.path + [other.name])
        ensures other.node in Nodes(r)
      {
        if other != ref {
          assert other in refs[1..];
        }
      }
    }
  }

  lemma ExploredNext(w: World, entries: seq<Entry>, i: nat)
    requires Explored(w, entries, i) && i < |entries|
    ensures Explored(w, GrowAll(w, entries, entries[i].path, w.Refs(entries[i].node)), i + 1)
  {
    var refs := w.Refs(entries[i].node);
    var next := GrowAll(w, entries, entries[i].path, refs);
    GrowAllKeeps(w, entries, entries[i], refs);
    assert forall k :: 0 <= k < |entries| ==> entries[k] == next[..|entries|][k];
    NodesGrow(entries, next);
  }

  lemma {:induction false} ExploreKeeps(w: World, entries: seq<Entry>, i: nat)
    requires Explored(w, entries, i)
    ensures var r := Explore(w, entries, i); Explored(w, r, |r|)
    decreases Universe(w.graph) - Nodes(entries), |entries| - i
  {
    if i < |entries| {
      var next := GrowAll(w, entries, entries[i].path, w.Refs(entries[i].node));
      GrowShrinks(w, entries, i, next);
      ExploredNext(w, entries, i);
      ExploreKeeps(w, next, i + 1);
    }
  }

  lemma TakenExplored(w: World)
    ensures Explored(w, Taken(w), |Taken(w)|)
  {
    assert Sound(w, Root);
    ExploreKeeps(w, [Root], 0);
  }

  // ------------------------------------------------------------ what the filter means

  /** The names as they are traced. */
  ghost predicate Cleaned(w: World, path: Path, names: Path) {
    |names| == |path| && forall i :: 0 <= i < |path| ==> names[i] == w.clean(path[i])
  }

  /** Matched by an include, or below a branch that is. */
  ghost predicate Branched(w: World, names: Path) {
    w.filter.includes == [] || exists n :: 1 <= n <= |names| && Hit(w.fits, w.filter.includes, names[..n])
  }

  lemma ExcludedMeans(w: World, path: Path, names: Path)
    requires Cleaned(w, path, names)
    ensures w.Excluded(path) <==> Hit(w.fits, w.filter.excludes, names)
  {
    assert names == w.Traced(path);
    ExcludedIff(w.filter, w.fits, names);
  }

  lemma TracesMeans(w: World, path: Path, names: Path)
    requires Cleaned(w, path, names)
    ensures w.Traces(path) <==> !Hit(w.fits, w.filter.excludes, names) && Branched(w, names)
  {
    assert names == w.Traced(path);
    ExcludedIff(w.filter, w.fits, names);
    IncludedIff(w.filter, w.fits, names);
  }

  /** Browsed into: not excluded, and traced itself or with something traced at or below it. */
  lemma BrowsesMeans(w: World, path: Path, names: Path)
    requires Cleaned(w, path, names) && forall p :: p in w.filter.includes ==> Satisfiable(w.fits, p)
    ensures w.Browses(path) <==>
              && !Hit(w.fits, w.filter.excludes, names)
              && (Branched(w, names) || exists suffix :: Hit(w.fits, w.filter.includes, names + suffix))
  {
    assert names == w.Traced(path);
    TracesMeans(w, path, names);
    ExcludedIff(w.filter, w.fits, names);
    ReachableIff(w.filter, w.fits, names);
  }

  // ------------------------------------------------------------ what the walk finds

  ghost predicate FoundAt(w: World, node: nat, path: Path) {
    Entry(node, path, true) in Found(w, Taken(w))
  }

  /** On any graph, a Variable found has a real path, included and with no excluded branch. */
  lemma FoundIsReal(w: World, node: nat, path: Path)
    requires FoundAt(w, node, path)
    ensures Reaches(w, node, path, true) && w.Traces(path)
    ensures forall n :: 1 <= n <= |path| ==> !w.Excluded(path[..n])
  {
    TakenExplored(w);
    var k :| 0 <= k < |Taken(w)| && Taken(w)[k] == Entry(node, path, true);
    assert Sound(w, Taken(w)[k]);
    assert path[..|path|] == path;
  }

  /** No node is found twice. */
  lemma FoundOnce(w: World, node: nat, path: Path, other: Path)
    requires FoundAt(w, node, path) && FoundAt(w, node, other)
    ensures path == other
  {
    TakenOnce(w, Entry(node, path, true), Entry(node, other, true));
  }

  ghost predicate Unfiltered(w: World) {
    w.filter == PathFilter([], [])
  }

  /** Every node's references agree on its class. */
  ghost predicate Classed(w: World) {
    forall p, q, r, s :: Leads(w, p, r) && Leads(w, q, s) && r.node == s.node ==> r.kind.Variable? == s.kind.Variable?
  }

  lemma {:induction false} ReachedIsTaken(w: World, node: nat, path: Path, variable: bool)
    requires Unfiltered(w) && Reaches(w, node, path, variable)
    ensures node in Nodes(Taken(w))
    decreases |path|
  {
    TakenExplored(w);
    var t := Taken(w);
    if path == [] {
      assert t[0].node == OBJECTS;
    } else {
      var parent, above, ref :| Ends(w, parent, ref, node, Tip(path), variable)
                                && Reaches(w, parent, Up(path), above);
      ReachedIsTaken(w, parent, Up(path), above);
      var k :| 0 <= k < |t| && t[k].node == parent;
      assert Closed(w, t[k], w.Refs(t[k].node), t);
      assert w.Browses(t[k].path + [ref.name]);
    }
  }

  lemma SameClass(w: World, node: nat, path: Path, e: Entry)
    requires Classed(w) && Reaches(w, node, path, true) && Reaches(w, node, e.path, e.variable)
    ensures e.variable
  {
    var p, a, r :| Ends(w, p, r, node, Tip(path), true) && Reaches(w, p, Up(path), a);
    if e.path != [] {
      var q, b, s :| Ends(w, q, s, node, Tip(e.path), e.variable) && Reaches(w, q, Up(e.path), b);
    }
  }

  lemma ReachedIsFound(w: World, node: nat, path: Path) returns (found: Path)
    requires Unfiltered(w) && Classed(w) && Reaches(w, node, path, true)
    ensures FoundAt(w, node, found)
  {
    TakenExplored(w);
    ReachedIsTaken(w, node, path, true);
    var t := Taken(w);
    var k :| 0 <= k < |t| && t[k].node == node;
    assert Sound(w, t[k]);
    SameClass(w, node, path, t[k]);
    found := t[k].path;
    assert w.Traces(found);
    assert t[k] in t;
  }

  ghost predicate IsFound(w: World, node: nat) {
    exists e :: e in Found(w, Taken(w)) && e.node == node
  }

  ghost predicate IsReachable(w: World, node: nat) {
    exists path :: Reaches(w, node, path, true)
  }

  /** Without a filter, the walk finds exactly the reachable Variables, cycles and shared children
      included. */
  lemma UnfilteredIsReachability(w: World, node: nat)
    requires Unfiltered(w) && Classed(w)
    ensures IsFound(w, node) <==> IsReachable(w, node)
  {
    if IsFound(w, node) {
      var e :| e in Found(w, Taken(w)) && e.node == node;
      FoundIsReal(w, node, e.path);
    }
    if IsReachable(w, node) {
      var path :| Reaches(w, node, path, true);
      var found := ReachedIsFound(w, node, path);
      assert Entry(node, found, true).node == node;
    }
  }

  // ------------------------------------------------------------ trees

  /** One followed reference leads to each node. */
  ghost predicate Tree(w: World) {
    forall p, q, r, s :: Leads(w, p, r) && Leads(w, q, s) && r.node == s.node ==> p == q && r == s
  }

  lemma {:induction false} TreePathsUnique(w: World, node: nat, p: Path, v: bool, q: Path, u: bool)
    requires Tree(w) && Reaches(w, node, p, v) && Reaches(w, node, q, u)
    ensures p == q && v == u
    decreases |p|
  {
    if p != [] && q != [] {
      var a, va, r :| Ends(w, a, r, node, Tip(p), v) && Reaches(w, a, Up(p), va);
      var b, vb, s :| Ends(w, b, s, node, Tip(q), u) && Reaches(w, b, Up(q), vb);
      TreePathsUnique(w, a, Up(p), va, Up(q), vb);
      assert p == Up(p) + [r.name] && q == Up(q) + [s.name];
    }
  }

  /** No branch of the path, itself included, is excluded. */
  ghost predicate NotExcluded(w: World, path: Path) {
    forall n :: 1 <= n <= |path| ==> !w.Excluded(path[..n])
  }

  lemma BranchBrowsed(w: World, path: Path, suffix: Path)
    requires path != []
    requires NotExcluded(w, path + suffix) && w.filter.Included(w.fits, w.Traced(path + suffix))
    ensures w.Browses(path)
  {
    assert w.Traced(path + suffix) == w.Traced(path) + w.Traced(suffix);
    IncludedAbove(w.filter, w.fits, w.Traced(path), w.Traced(suffix));
    assert (path + suffix)[..|path|] == path;
  }

  lemma TreeChildTaken(w: World, e: Entry, ref: Reference, node: nat, path: Path, variable: bool)
    requires Tree(w) && e in Taken(w) && Leads(w, e.node, ref) && ref.node == node && path == e.path + [ref.name]
    requires w.Browses(path) && Reaches(w, node, path, variable)
    ensures Entry(node, path, variable) in Taken(w)
  {
    TakenExplored(w);
    var t := Taken(w);
    assert Closed(w, e, w.Refs(e.node), t);
    var j :| 0 <= j < |t| && t[j].node == node;
    assert Sound(w, t[j]);
    TreePathsUnique(w, node, path, variable, t[j].path, t[j].variable);
  }

  /** On a tree, every branch above an included path with no excluded branch is taken. */
  lemma {:induction false} TreeTaken(w: World, node: nat, path: Path, variable: bool, suffix: Path)
    requires Tree(w) && Reaches(w, node, path, variable)
    requires NotExcluded(w, path + suffix) && w.filter.Included(w.fits, w.Traced(path + suffix))
    ensures Entry(node, path, variable) in Taken(w)
    decreases |path|
  {
    TakenExplored(w);
    var t := Taken(w);
    if path == [] {
      assert t[0] == Entry(node, path, variable);
    } else {
      var parent, above, ref :| Ends(w, parent, ref, node, Tip(path), variable) && Reaches(w, parent, Up(path), above);
      assert path + suffix == Up(path) + ([Tip(path)] + suffix);
      TreeTaken(w, parent, Up(path), above, [Tip(path)] + suffix);
      var k :| 0 <= k < |t| && t[k] == Entry(parent, Up(path), above);
      BranchBrowsed(w, path, suffix);
      assert path == Up(path) + [ref.name];
      TreeChildTaken(w, t[k], ref, node, path, variable);
    }
  }

  /** On a tree, pruning loses nothing: found are exactly the Variables whose path is included and has no
      excluded branch. */
  lemma TreeFilterExact(w: World, node: nat, path: Path)
    requires Tree(w)
    ensures FoundAt(w, node, path) <==>
              Reaches(w, node, path, true) && NotExcluded(w, path) && w.filter.Included(w.fits, w.Traced(path))
  {
    if FoundAt(w, node, path) {
      FoundIsReal(w, node, path);
    }
    if Reaches(w, node, path, true) && NotExcluded(w, path) && w.filter.Included(w.fits, w.Traced(path)) {
      assert path + [] == path;
      TreeTaken(w, node, path, true, []);
      assert path[..|path|] == path;
    }
  }

  /** The same of the names: no branch of the path is matched by an exclude, and an include matches it or a branch
      above it. */
  lemma TreeFilterMeans(w: World, node: nat, path: Path, names: Path)
    requires Tree(w) && Cleaned(w, path, names)
    ensures FoundAt(w, node, path) <==>
              && Reaches(w, node, path, true) && Branched(w, names)
              && forall n :: 1 <= n <= |path| ==> !Hit(w.fits, w.filter.excludes, names[..n])
  {
    TreeFilterExact(w, node, path);
    assert names == w.Traced(path);
    IncludedIff(w.filter, w.fits, names);
    forall n | 1 <= n <= |path|
      ensures w.Excluded(path[..n]) <==> Hit(w.fits, w.filter.excludes, names[..n])
    {
      ExcludedMeans(w, path[..n], names[..n]);
    }
  }

  // ------------------------------------------------------------ breadth first

  /** Some entry has the node, no further than `d` from Objects. */
  ghost predicate Within(entries: seq<Entry>, node: nat, d: int) {
    exists k :: 0 <= k < |entries| && entries[k].node == node && |entries[k].path| <= d
  }

  /** What an entry's references lead to was taken no further than one step past it, unless it is not worth
      browsing. */
  ghost predicate Nears(w: World, e: Entry, refs: seq<Reference>, entries: seq<Entry>) {
    forall ref :: ref in refs && Followed(ref) && ref.node != SERVER && w.Browses(e.path + [ref.name])
                  ==> Within(entries, ref.node, |e.path| + 1)
  }

  ghost predicate Layered(w: World, entries: seq<Entry>, i: nat) {
    && i <= |entries|
    && (forall j, k :: 0 <= j < k < |entries| ==> |entries[j].path| <= |entries[k].path|)
    && (forall j, k :: 0 <= j < |entries| && j == i && 0 <= k < |entries| ==> |entries[k].path| <= |entries[j].path| + 1)
    && (forall k :: 0 <= k < i ==> Nears(w, entries[k], w.Refs(entries[k].node), entries))
  }

  /** Each entry added is one step past the path. */
  ghost predicate Steps(entries: seq<Entry>, path: Path, n: nat) {
    forall k :: n <= k < |entries| ==> |entries[k].path| == |path| + 1
  }

  lemma {:induction false} GrowAllLayers(w: World, entries: seq<Entry>, path: Path, refs: seq<Reference>, n: nat)
    requires n <= |entries| && Steps(entries, path, n)
    ensures Steps(GrowAll(w, entries, path, refs), path, n)
    decreases |refs|
  {
    if refs != [] {
      GrowAllLayers(w, Grow(w, entries, path, refs[0]), path, refs[1..], n);
    }
  }

  lemma StillNear(w: World, e: Entry, refs: seq<Reference>, a: seq<Entry>, b: seq<Entry>)
    requires Nears(w, e, refs, a) && |a| <= |b| && b[..|a|] == a
    ensures Nears(w, e, refs, b)
  {
    assert forall k :: 0 <= k < |a| ==> a[k] == b[..|a|][k];
    forall ref | ref in refs && Followed(ref) && ref.node != SERVER && w.Browses(e.path + [ref.name])
      ensures Within(b, ref.node, |e.path| + 1)
    {
      var k :| 0 <= k < |a| && a[k].node == ref.node && |a[k].path| <= |e.path| + 1;
      assert b[k] == a[k];
    }
  }

  lemma LayerNext(w: World, entries: seq<Entry>, i: nat)
    requires Explored(w, entries, i) && Layered(w, entries, i) && i < |entries|
    ensures Layered(w, GrowAll(w, entries, entries[i].path, w.Refs(entries[i].node)), i + 1)
  {
    var e, refs := entries[i], w.Refs(entries[i].node);
    var next := GrowAll(w, entries, e.path, refs);
    GrowAllKeeps(w, entries, e, refs);
    GrowAllLayers(w, entries, e.path, refs, |entries|);
    assert forall k :: 0 <= k < |entries| ==> next[k] == next[..|entries|][k];
    assert forall k :: 0 <= k < |next| ==> |next[k].path| <= |e.path| + 1;
    forall k | 0 <= k <= i
      ensures Nears(w, next[k], w.Refs(next[k].node), next)
    {
      if k < i {
        StillNear(w, entries[k], w.Refs(entries[k].node), entries, next);
      } else {
        ClosedNear(w, e, refs, next);
      }
    }
  }

  lemma ClosedNear(w: World, e: Entry, refs: seq<Reference>, entries: seq<Entry>)
    requires Closed(w, e, refs, entries) && forall k :: 0 <= k < |entries| ==> |entries[k].path| <= |e.path| + 1
    ensures Nears(w, e, refs, entries)
  {}

  lemma {:induction false} ExploreLayers(w: World, entries: seq<Entry>, i: nat)
    requires Explored(w, entries, i) && Layered(w, entries, i)
    ensures var r := Explore(w, entries, i); Layered(w, r, |r|)
    decreases Universe(w.graph) - Nodes(entries), |entries| - i
  {
    if i < |entries| {
      var next := GrowAll(w, entries, entries[i].path, w.Refs(entries[i].node));
      GrowShrinks(w, entries, i, next);
      ExploredNext(w, entries, i);
      LayerNext(w, entries, i);
      ExploreLayers(w, next, i + 1);
    }
  }

  lemma TakenLayered(w: World)
    ensures Layered(w, Taken(w), |Taken(w)|)
  {
    assert Sound(w, Root);
    ExploreLayers(w, [Root], 0);
  }

  // ------------------------------------------------------------ several parents

  /** A path every branch of which is worth browsing. */
  ghost predicate OpenTo(w: World, node: nat, path: Path, variable: bool) {
    Reaches(w, node, path, variable) && Open(w, path)
  }

  /** No open path to the node is shorter. */
  ghost predicate Shortest(w: World, node: nat, path: Path, variable: bool) {
    OpenTo(w, node, path, variable) && forall q, u :: OpenTo(w, node, q, u) ==> |path| <= |q|
  }

  /** Whichever open path it is taken on, the same is worth browsing below the node. */
  ghost predicate BrowsedAlike(w: World, node: nat) {
    forall p, v, q, u, name :: OpenTo(w, node, p, v) && OpenTo(w, node, q, u) ==>
      (Onward(w, p, name) <==> Onward(w, q, name))
  }

  ghost predicate Onward(w: World, path: Path, name: string) {
    w.Browses(path + [name])
  }

  /** The open paths to a node agree on whether it is a Variable to trace. */
  ghost predicate TracedAlike(w: World, node: nat) {
    forall p, v, q, u :: OpenTo(w, node, p, v) && OpenTo(w, node, q, u) ==> v == u && (w.Traces(p) <==> w.Traces(q))
  }

  /** Its shortest ones do. */
  ghost predicate ShortestAlike(w: World, node: nat) {
    forall p, v, q, u :: Shortest(w, node, p, v) && Shortest(w, node, q, u) ==> v == u && (w.Traces(p) <==> w.Traces(q))
  }

  /** Variables whose path is included and has no excluded branch: filter after walk. */
  ghost predicate Wanted(w: World, node: nat) {
    exists path :: WantedAt(w, node, path)
  }

  ghost predicate WantedAt(w: World, node: nat, path: Path) {
    Reaches(w, node, path, true) && NotExcluded(w, path) && w.filter.Included(w.fits, w.Traced(path))
  }

  /** An open path's node is taken within its length, or `v` is, strictly. */
  lemma {:induction false} TakenBy(w: World, v: nat, node: nat, path: Path, variable: bool)
    requires forall n: nat :: n != v ==> BrowsedAlike(w, n)
    requires OpenTo(w, node, path, variable)
    ensures Within(Taken(w), node, |path|) || Within(Taken(w), v, |path| - 1)
    decreases |path|
  {
    var t := Taken(w);
    if path == [] {
      TakenExplored(w);
      assert t[0].node == OBJECTS && t[0].path == [];
    } else {
      var parent, above, ref := OpenUp(w, node, path, variable);
      TakenBy(w, v, parent, Up(path), above);
      if parent != v && Within(t, parent, |path| - 1) {
        var k :| 0 <= k < |t| && t[k].node == parent && |t[k].path| <= |path| - 1;
        StepAlike(w, k, Up(path), above, ref);
        NextWithin(w, k, ref);
      }
    }
  }

  /** The last step of an open path. */
  lemma OpenUp(w: World, node: nat, path: Path, variable: bool) returns (parent: nat, above: bool, ref: Reference)
    requires path != [] && OpenTo(w, node, path, variable)
    ensures OpenTo(w, parent, Up(path), above) && Onward(w, Up(path), ref.name)
    ensures ref in w.Refs(parent) && Followed(ref) && ref.node == node && node != SERVER
  {
    assert Reaches(w, node, path, variable);
    parent, above, ref :| Ends(w, parent, ref, node, Tip(path), variable) && Reaches(w, parent, Up(path), above);
    assert forall n :: 1 <= n <= |Up(path)| ==> Up(path)[..n] == path[..n];
    assert path == Up(path) + [ref.name] && path[..|path|] == path;
  }

  /** The step is taken from the path the node was taken on as well. */
  lemma StepAlike(w: World, k: nat, path: Path, variable: bool, ref: Reference)
    requires k < |Taken(w)| && OpenTo(w, Taken(w)[k].node, path, variable) && BrowsedAlike(w, Taken(w)[k].node)
    requires Onward(w, path, ref.name)
    ensures Onward(w, Taken(w)[k].path, ref.name)
  {
    TakenExplored(w);
    var e := Taken(w)[k];
    assert Sound(w, e);
    assert OpenTo(w, e.node, e.path, e.variable);
  }

  lemma NextWithin(w: World, k: nat, ref: Reference)
    requires k < |Taken(w)| && ref in w.Refs(Taken(w)[k].node) && Followed(ref) && ref.node != SERVER
    requires w.Browses(Taken(w)[k].path + [ref.name])
    ensures Within(Taken(w), ref.node, |Taken(w)[k].path| + 1)
  {
    TakenLayered(w);
    var t := Taken(w);
    assert Nears(w, t[k], w.Refs(t[k].node), t);
  }

  /** With every other node browsed alike, a node is taken on one of its shortest open paths. */
  lemma TakenShortest(w: World, v: nat, path: Path, variable: bool) returns (e: Entry)
    requires forall n: nat :: n != v ==> BrowsedAlike(w, n)
    requires OpenTo(w, v, path, variable)
    ensures e in Taken(w) && e.node == v && Shortest(w, v, e.path, e.variable)
  {
    TakenExplored(w);
    var t := Taken(w);
    TakenBy(w, v, v, path, variable);
    var k :| 0 <= k < |t| && t[k].node == v;
    e := t[k];
    assert Sound(w, e);
    forall q, u | OpenTo(w, v, q, u)
      ensures |e.path| <= |q|
    {
      NoShorter(w, v, e, q, u);
    }
  }

  lemma NoShorter(w: World, v: nat, e: Entry, path: Path, variable: bool)
    requires forall n: nat :: n != v ==> BrowsedAlike(w, n)
    requires e in Taken(w) && e.node == v && OpenTo(w, v, path, variable)
    ensures |e.path| <= |path|
  {
    TakenBy(w, v, v, path, variable);
    var k :| 0 <= k < |Taken(w)| && Taken(w)[k].node == v && |Taken(w)[k].path| <= |path|;
    TakenOnce(w, e, Taken(w)[k]);
  }

  /** On any graph whose other nodes are browsed alike on all their paths, a Variable is found exactly when its
      shortest open paths are traced: a longer one that would be does not count. */
  lemma ShortestDecides(w: World, v: nat)
    requires forall n: nat :: n != v ==> BrowsedAlike(w, n)
    requires ShortestAlike(w, v)
    ensures IsFound(w, v) <==> exists path :: Shortest(w, v, path, true) && w.Traces(path)
  {
    if IsFound(w, v) {
      var f :| f in Found(w, Taken(w)) && f.node == v;
      assert FoundAt(w, v, f.path);
      FoundOpen(w, f);
      var e := TakenShortest(w, v, f.path, true);
      TakenOnce(w, e, f);
    }
    if path :| Shortest(w, v, path, true) && w.Traces(path) {
      var e := TakenShortest(w, v, path, true);
      FirstPathDecides(w, e);
    }
  }

  lemma FoundOpen(w: World, f: Entry)
    requires f in Found(w, Taken(w))
    ensures f in Taken(w) && f.variable && w.Traces(f.path) && OpenTo(w, f.node, f.path, true)
  {
    TakenExplored(w);
    var k :| 0 <= k < |Taken(w)| && Taken(w)[k] == f;
    assert Sound(w, Taken(w)[k]);
  }

  lemma WantedOpen(w: World, node: nat, path: Path)
    requires WantedAt(w, node, path)
    ensures OpenTo(w, node, path, true) && w.Traces(path)
  {
    forall n | 1 <= n <= |path|
      ensures w.Browses(path[..n])
    {
      assert path[..n] + path[n..] == path;
      BranchBrowsed(w, path[..n], path[n..]);
    }
    assert path[..|path|] == path;
  }

  /** So a Variable the filter wants is lost exactly when no shortest open path to it is traced. */
  lemma LostIff(w: World, v: nat)
    requires forall n: nat :: n != v ==> BrowsedAlike(w, n)
    requires ShortestAlike(w, v) && Wanted(w, v)
    ensures !IsFound(w, v) <==> forall path :: Shortest(w, v, path, true) ==> !w.Traces(path)
  {
    ShortestDecides(w, v);
  }

  /** On any graph whose nodes are browsed alike on all their paths, the filter is exact for every Variable traced
      alike on its: found exactly when some path to it is included with no excluded branch. */
  lemma AlikeFilterExact(w: World, v: nat)
    requires (forall n: nat :: BrowsedAlike(w, n)) && TracedAlike(w, v)
    ensures IsFound(w, v) <==> Wanted(w, v)
  {
    ShortestDecides(w, v);
    if IsFound(w, v) {
      var f :| f in Found(w, Taken(w)) && f.node == v;
      FoundIsReal(w, v, f.path);
      assert WantedAt(w, v, f.path);
    }
    if Wanted(w, v) {
      var path :| WantedAt(w, v, path);
      WantedOpen(w, v, path);
      var e := TakenShortest(w, v, path, true);
    }
  }

  /** A tree's nodes have one path each. */
  lemma TreeAlike(w: World, node: nat)
    requires Tree(w)
    ensures BrowsedAlike(w, node) && TracedAlike(w, node)
  {
    forall p, v, q, u | OpenTo(w, node, p, v) && OpenTo(w, node, q, u)
      ensures p == q && v == u
    {
      TreePathsUnique(w, node, p, v, q, u);
    }
  }

  /** On any graph, a Variable is found exactly when the path the walk took it on is traced: a second
      path that would be traced does not count. */
  lemma FirstPathDecides(w: World, e: Entry)
    requires e in Taken(w) && e.variable
    ensures IsFound(w, e.node) <==> w.Traces(e.path)
  {
    var t := Taken(w);
    if IsFound(w, e.node) {
      var f :| f in Found(w, t) && f.node == e.node;
      TakenOnce(w, e, f);
    }
    if w.Traces(e.path) {
      assert e in Found(w, t);
    }
  }

  lemma TakenOnce(w: World, e: Entry, f: Entry)
    requires e in Taken(w) && f in Taken(w) && e.node == f.node
    ensures e == f
  {
    TakenExplored(w);
  }

  /** A Variable under Objects and under a branch b; the filter wants it as b/v, and something below v. */
  function Shared(): World {
    World(map[OBJECTS := [Reference(3, "v", Variable, false), Reference(2, "b", Object, false)],
              2 := [Reference(3, "v", Variable, false)]],
          PathFilter([[Glob("v"), Glob("z")], [Glob("b"), Glob("v")]], []),
          name => name, (name, glob) => name == glob)
  }

  /** Browsed for what may lie below it, v is not traced under Objects, and never looked at as b/v. */
  lemma SharedIsMissed()
    ensures var w := Shared(); Reaches(w, 3, ["b", "v"], true) && w.Traces(["b", "v"]) && !IsFound(w, 3)
  {
    SharedAbove();
    SharedBelow();
    SharedTaken();
    FirstPathDecides(Shared(), Entry(3, ["v"], true));
  }

  lemma SharedTaken()
    requires Shared().Browses(["v"])
    ensures Entry(3, ["v"], true) in Taken(Shared())
  {
    var w, v := Shared(), Entry(3, ["v"], true);
    var refs := w.Refs(OBJECTS);
    assert [] + ["v"] == ["v"];
    assert Takes(w, [Root], [], refs[0]);
    var next := GrowAll(w, [Root], [], refs);
    assert next == GrowAll(w, [Root] + [v], [], refs[1..]);
    assert next[..2][1] == v;
    assert Taken(w)[..|next|][1] == v;
  }

  lemma SharedAbove()
    ensures Shared().Browses(["v"]) && !Shared().Traces(["v"])
  {
    var w := Shared();
    var p, q, path := w.filter.includes[0], w.filter.includes[1], w.Traced(["v"]);
    assert path == ["v"];
    assert Below(w.fits, p[1..], path[1..]);
    assert Below(w.fits, p, path);
    assert !Match(w.fits, p[1..], path[1..]);
    assert path[..1] == path;
  }

  lemma SharedBelow()
    ensures Shared().Traces(["b", "v"]) && Reaches(Shared(), 3, ["b", "v"], true)
  {
    var w := Shared();
    var q, path := w.filter.includes[1], w.Traced(["b", "v"]);
    assert path == ["b", "v"];
    assert Match(w.fits, q[1..][1..], path[1..][1..]);
    assert Match(w.fits, q[1..], path[1..]);
    assert Match(w.fits, q, path) && path[..2] == path;
    assert q in w.filter.includes && Match(w.fits, q, path[..2]);
    assert Up(["b"]) == [] && Up(["b", "v"]) == ["b"];
    assert "b"[0] == 'b' && "_"[0] == '_';
    assert Ends(w, OBJECTS, w.Refs(OBJECTS)[1], 2, Tip(["b"]), false) && Reaches(w, OBJECTS, Up(["b"]), false);
    assert Reaches(w, 2, ["b"], false);
    assert Ends(w, 2, w.Refs(2)[0], 3, Tip(["b", "v"]), true);
  }
}
