/**
 Declared schemas on a trace source several clients share: what a discovery adds, leaves out and rotates, and
 what holds of every declared field over any number of discoveries.
 */
module Schema {
  import opened Services
  import Rows

  /** A mapped node: its field name, datatype and unit. */
  datatype Node = Node(name: string, datatype_: string, units: string)

  type Types = map<string, string>  // field -> datatype

  /** An event of one client's. */
  type Key = (nat, string)

  type NodeMap = map<string, seq<Node>>

  predicate Unique(nodes: seq<Node>) {
    forall i, j :: 0 <= i < j < |nodes| ==> nodes[i].name != nodes[j].name
  }

  function TypesOf(nodes: seq<Node>): (r: Types)
    ensures forall n :: n in nodes ==> n.name in r
    ensures forall f :: f in r ==> exists n :: n in nodes && n.name == f && n.datatype_ == r[f]
  {
    if nodes == [] then map[] else
      var k := |nodes| - 1;
      assert nodes == nodes[..k] + [nodes[k]];
      TypesOf(nodes[..k])[nodes[k].name := nodes[k].datatype_]
  }

  /** The nodes of a datatype other than the declared one. */
  predicate Changed(schema: Types, n: Node) {
    n.name in schema && schema[n.name] != n.datatype_
  }

  function Unchanged(schema: Types, nodes: seq<Node>): (r: seq<Node>)
    ensures forall n :: n in r <==> n in nodes && !Changed(schema, n)
    ensures Unique(nodes) ==> Unique(r)
  {
    if nodes == [] then [] else
      var k := |nodes| - 1;
      var before := Unchanged(schema, nodes[..k]);
      assert nodes == nodes[..k] + [nodes[k]];
      assert Unique(nodes) ==> forall n :: n in nodes[..k] ==> n.name != nodes[k].name;
      if Changed(schema, nodes[k]) then before else before + [nodes[k]]
  }

  function Added(schema: Types, nodes: seq<Node>): (r: seq<Node>)
    ensures forall n :: n in r <==> n in nodes && n.name !in schema
    ensures Unique(nodes) ==> Unique(r)
  {
    if nodes == [] then [] else
      var k := |nodes| - 1;
      var before := Added(schema, nodes[..k]);
      assert nodes == nodes[..k] + [nodes[k]];
      assert Unique(nodes) ==> forall n :: n in nodes[..k] ==> n.name != nodes[k].name;
      if nodes[k].name in schema then before else before + [nodes[k]]
  }

  /** What is declared of an event: the datatype of each field, and the fields in order. */
  datatype Declared = Declared(types: Types, fields: seq<Node>)

  /** Each field once, with the datatype its first declaration gave it. */
  ghost predicate Consistent(d: Declared) {
    && Unique(d.fields)
    && (forall n :: n in d.fields ==> n.name in d.types && d.types[n.name] == n.datatype_)
    && forall f :: f in d.types ==> exists n :: n in d.fields && n.name == f
  }

  /** An event's declaration once a discovery found `nodes` for it. */
  function Redeclared(d: Option<Declared>, nodes: seq<Node>): Option<Declared> {
    if nodes == [] then d
    else if d.None? then Some(Declared(TypesOf(nodes), nodes))
    else
      var fresh_ := Added(d.value.types, nodes);
      Some(Declared(d.value.types + TypesOf(fresh_), d.value.fields + fresh_))
  }

  /** The nodes left in the map. */
  function Traced(d: Option<Declared>, nodes: seq<Node>): seq<Node> {
    if d.None? then nodes else Unchanged(d.value.types, nodes)
  }

  predicate Grown(d: Option<Declared>, nodes: seq<Node>) {
    d.Some? && Added(d.value.types, nodes) != []
  }

  // ------------------------------------------------------------ the shared source

  /** The declarations of every client's events, the fields declared on the live source, each client's node map. */
  datatype Source = Source(declared: map<Key, Declared>, live: map<Key, seq<Node>>, maps: map<nat, NodeMap>)

  /** Every declared field is on the live source; every mapped node has its declared datatype. */
  ghost predicate Sound(s: Source) {
    && (forall k :: k in s.declared <==> k in s.live)
    && (forall k :: k in s.declared ==> Consistent(s.declared[k]) && s.live[k] == s.declared[k].fields)
    && forall c, e, n :: Maps(s, c, e, n) ==> Typed(s, c, e, n)
  }

  predicate Maps(s: Source, c: nat, e: string, n: Node) {
    c in s.maps && e in s.maps[c] && n in s.maps[c][e]
  }

  predicate Typed(s: Source, c: nat, e: string, n: Node) {
    (c, e) in s.declared && n.name in s.declared[(c, e)].types && s.declared[(c, e)].types[n.name] == n.datatype_
  }

  /** Nothing declared is taken back: fields are only appended, datatypes stay. */
  ghost predicate Keeps(s: Source, t: Source) {
    forall k :: k in s.declared ==> KeepsEvent(s, t, k)
  }

  /** One discovery by client `c`. */
  ghost predicate Discovered(s: Source, c: nat, found: NodeMap, t: Source) {
    DeclaredAnew(s, c, found, t) && MappedAnew(s, c, found, t)
  }

  ghost predicate DeclaredAnew(s: Source, c: nat, found: NodeMap, t: Source) {
    && (forall k :: Get(t.declared, k) ==
          if k.0 == c && k.1 in found then Redeclared(Get(s.declared, k), found[k.1]) else Get(s.declared, k))
    && (forall k :: k in t.declared <==> k in t.live)
    && (forall k :: k in t.declared ==> t.live[k] == t.declared[k].fields)
  }

  ghost predicate MappedAnew(s: Source, c: nat, found: NodeMap, t: Source) {
    && (forall d :: d != c ==> Get(t.maps, d) == Get(s.maps, d))
    && c in t.maps && t.maps[c].Keys == found.Keys
    && (forall e :: e in found ==> t.maps[c][e] == Traced(Get(s.declared, (c, e)), found[e]))
  }

  ghost predicate UniqueNames(found: NodeMap) {
    forall e :: e in found ==> Unique(found[e])
  }

  class Shared {
    var declared: map<Key, Declared>
    var live: map<Key, seq<Node>>
    var maps: map<nat, NodeMap>

    constructor ()
      ensures Sound(View())
    {
      declared, live, maps := map[], map[], map[];
    }

    function View(): Source
      reads this
    {
      Source(declared, live, maps)
    }

    /** Replaces client `c`'s node map by what it discovered, on this segment of the source or the next. */
    method Discover(c: nat, found: NodeMap) returns (rotated: bool)
      requires Sound(View())
      modifies this
      ensures Discovered(old(View()), c, found, View())
      ensures rotated <==> exists e, n :: e in found && n in found[e] && (c, e) in old(declared)
                                         && n.name !in old(declared)[(c, e)].types
    {
      ghost var was := View();
      var traced;
      traced, rotated := Redeclare(c, found);
      maps := maps[c := traced];
      GrownMeans(was, c, found);
    }

    /** Declares what is new, on the next segment if a declared event has grown. */
    method Redeclare(c: nat, found: NodeMap) returns (traced: NodeMap, rotated: bool)
      requires Sound(View())
      modifies `declared, `live
      ensures DeclaredAnew(old(View()), c, found, View()) && Sifted(old(View()), c, found, {}, traced, rotated)
    {
      ghost var was := View();
      traced, rotated := DeclareEvents(c, found);
      ghost var mid := View();
      NextSegment(c, found, traced, rotated, was);
      Settled(was, c, found, mid, View());
    }

    /** The next segment if a declared event has grown; else the live one has every field. */
    method NextSegment(c: nat, found: NodeMap, traced: NodeMap, rotated: bool, ghost was: Source)
      requires Sound(was) && Halfway(was, c, found, {}, View()) && Sifted(was, c, found, {}, traced, rotated)
      modifies `live
      ensures OnSource(View())
    {
      if rotated {
        Rotate();
      } else {
        LiveStays(was, c, found, traced, View());
      }
    }

    /** Declares the new events; records the fields added to declared ones. */
    method DeclareEvents(c: nat, found: NodeMap) returns (traced: NodeMap, added: bool)
      modifies `declared, `live
      ensures Halfway(old(View()), c, found, {}, View()) && Sifted(old(View()), c, found, {}, traced, added)
    {
      traced, added := found, false;
      var left := found.Keys;
      while left != {}
        invariant left <= found.Keys
        invariant Halfway(old(View()), c, found, left, View()) && Sifted(old(View()), c, found, left, traced, added)
      {
        var e :| e in left;
        ghost var was := View();
        var kept, grown := DeclareEvent((c, e), found[e]);
        NextEvent(old(View()), c, found, left, e, was, View());
        traced, added := traced[e := kept], added || grown;
        left := left - {e};
      }
    }

    method DeclareEvent(key: Key, nodes: seq<Node>) returns (kept: seq<Node>, grown: bool)
      modifies `declared, `live
      ensures EventDeclared(old(View()), key, nodes, View())
      ensures kept == Traced(Get(old(declared), key), nodes) && (grown <==> Grown(Get(old(declared), key), nodes))
    {
      kept, grown := nodes, false;
      if nodes == [] {
      } else if key !in declared {
        declared, live := declared[key := Declared(TypesOf(nodes), nodes)], live[key := nodes];
      } else {
        var d := declared[key];
        kept := Unchanged(d.types, nodes);
        var more := Added(d.types, nodes);
        grown := more != [];
        declared := declared[key := Declared(d.types + TypesOf(more), d.fields + more)];
      }
    }

    /** The next segment, with every client's fields. */
    method Rotate()
      modifies `live
      ensures OnSource(View())
    {
      live := map k | k in declared :: declared[k].fields;
    }
  }

  ghost predicate EventDeclared(s: Source, key: Key, nodes: seq<Node>, t: Source) {
    && (forall k :: Get(t.declared, k) == if k == key then Redeclared(Get(s.declared, k), nodes) else Get(s.declared, k))
    && (forall k :: Get(t.live, k) == if k == key && nodes != [] && k !in s.declared then Some(nodes) else Get(s.live, k))
    && t.maps == s.maps
  }

  /** All but the events in `left` are declared anew, on the live source where they are new to it. */
  ghost predicate Halfway(s: Source, c: nat, found: NodeMap, left: set<string>, t: Source) {
    && (forall k :: Get(t.declared, k) ==
          if k.0 == c && k.1 in found && k.1 !in left then Redeclared(Get(s.declared, k), found[k.1]) else Get(s.declared, k))
    && (forall k :: Get(t.live, k) ==
          if k.0 == c && k.1 in found && k.1 !in left && found[k.1] != [] && k !in s.declared then Some(found[k.1])
          else Get(s.live, k))
    && t.maps == s.maps
  }

  /** And what is traced of them; whether any has fields added. */
  ghost predicate Sifted(s: Source, c: nat, found: NodeMap, left: set<string>, traced: NodeMap, added: bool) {
    && traced.Keys == found.Keys
    && (forall e :: e in found ==> traced[e] == if e in left then found[e] else Traced(Get(s.declared, (c, e)), found[e]))
    && (added <==> exists e :: e in found && e !in left && Grown(Get(s.declared, (c, e)), found[e]))
  }

  lemma NextEvent(s: Source, c: nat, found: NodeMap, left: set<string>, e: string, t: Source, u: Source)
    requires Halfway(s, c, found, left, t) && e in left && e in found && EventDeclared(t, (c, e), found[e], u)
    ensures Get(t.declared, (c, e)) == Get(s.declared, (c, e)) && Halfway(s, c, found, left - {e}, u)
  {
    assert Get(t.declared, (c, e)) == Get(s.declared, (c, e));
    forall k: Key
      ensures Get(u.declared, k) ==
                if k.0 == c && k.1 in found && k.1 !in left - {e} then Redeclared(Get(s.declared, k), found[k.1])
                else Get(s.declared, k)
      ensures Get(u.live, k) ==
                if k.0 == c && k.1 in found && k.1 !in left - {e} && found[k.1] != [] && k !in s.declared then Some(found[k.1])
                else Get(s.live, k)
    {
      assert k == (c, e) <==> k.0 == c && k.1 == e;
      assert Get(u.declared, k) == if k == (c, e) then Redeclared(Get(t.declared, k), found[e]) else Get(t.declared, k);
      assert Get(t.declared, k).Some? <==> k in t.declared;
    }
  }

  /** A declared event has grown when it has a node of a name not declared. */
  lemma GrownMeans(s: Source, c: nat, found: NodeMap)
    ensures (exists e :: e in found && Grown(Get(s.declared, (c, e)), found[e])) <==>
              exists e, n :: e in found && n in found[e] && (c, e) in s.declared && n.name !in s.declared[(c, e)].types
  {
    forall e | e in found
      ensures Grown(Get(s.declared, (c, e)), found[e]) <==>
                exists n :: n in found[e] && (c, e) in s.declared && n.name !in s.declared[(c, e)].types
    {
      if (c, e) in s.declared {
        var added := Added(s.declared[(c, e)].types, found[e]);
        assert added != [] ==> added[0] in added;
      }
    }
  }

  /** Every declared field is on the live source as it is. */
  ghost predicate OnSource(t: Source) {
    forall k :: Get(t.live, k) == if k in t.declared then Some(t.declared[k].fields) else None
  }

  lemma Settled(s: Source, c: nat, found: NodeMap, mid: Source, t: Source)
    requires Halfway(s, c, found, {}, mid) && t.declared == mid.declared && OnSource(t)
    ensures DeclaredAnew(s, c, found, t)
  {
    forall k
      ensures k in t.declared <==> k in t.live
      ensures k in t.declared ==> t.live[k] == t.declared[k].fields
    {
      assert Get(t.live, k) == if k in t.declared then Some(t.declared[k].fields) else None;
    }
  }

  /** With nothing added to a declared event, the live source already has every field. */
  lemma LiveStays(s: Source, c: nat, found: NodeMap, traced: NodeMap, t: Source)
    requires Sound(s) && Halfway(s, c, found, {}, t) && Sifted(s, c, found, {}, traced, false)
    ensures OnSource(t)
  {
    forall k
      ensures Get(t.live, k) == if k in t.declared then Some(t.declared[k].fields) else None
    {
      LiveKey(s, c, found, t, k);
    }
  }

  lemma LiveKey(s: Source, c: nat, found: NodeMap, t: Source, k: Key)
    requires Sound(s) && Halfway(s, c, found, {}, t)
    requires k.0 == c && k.1 in found ==> !Grown(Get(s.declared, k), found[k.1])
    ensures Get(t.live, k) == if k in t.declared then Some(t.declared[k].fields) else None
  {
    var d := Get(s.declared, k);
    assert k in t.declared <==> Get(t.declared, k).Some?;
    assert Get(s.live, k) == if d.Some? then Some(d.value.fields) else None;
    if k.0 == c && k.1 in found && d.Some? {
      assert Added(d.value.types, found[k.1]) == [];
      assert d.value.fields + [] == d.value.fields;
    }
  }

  // ------------------------------------------------------------ over any number of discoveries

  lemma {:induction false} TypesOfUnique(nodes: seq<Node>)
    requires Unique(nodes)
    ensures forall n :: n in nodes ==> TypesOf(nodes)[n.name] == n.datatype_
  {
    if nodes != [] {
      var k := |nodes| - 1;
      TypesOfUnique(nodes[..k]);
      assert nodes == nodes[..k] + [nodes[k]];
      assert forall n :: n in nodes[..k] ==> n.name != nodes[k].name;
    }
  }

  /** One event: its declaration stays consistent, nothing of it is taken back, and what is traced of it is exactly
      what has the declared datatypes. */
  lemma RedeclaredKeeps(d: Option<Declared>, nodes: seq<Node>)
    requires Unique(nodes) && (d.Some? ==> Consistent(d.value))
    ensures var r := Redeclared(d, nodes);
            && (d.Some? || nodes != [] ==> r.Some? && Consistent(r.value))
            && (d.Some? ==> d.value.fields <= r.value.fields)
            && (r.Some? ==> forall n :: n in r.value.fields <==>
                              (d.Some? && n in d.value.fields) || (n in nodes && (d.Some? ==> n.name !in d.value.types)))
            && (d.Some? ==> forall f :: f in d.value.types ==> f in r.value.types && r.value.types[f] == d.value.types[f])
            && (forall n :: n in nodes ==> n.name in r.value.types)
            && (forall n :: n in Traced(d, nodes) <==> n in nodes && r.value.types[n.name] == n.datatype_)
  {
    if nodes != [] {
      if d.None? {
        TypesOfUnique(nodes);
      } else {
        var more := Added(d.value.types, nodes);
        TypesOfUnique(more);
      }
    }
  }

  /** One discovery, whoever's: the source stays sound and takes nothing back; the discovering client traces exactly
      the nodes found with their declared datatypes. */
  lemma DiscoveryKeeps(s: Source, c: nat, found: NodeMap, t: Source)
    requires Sound(s) && UniqueNames(found) && Discovered(s, c, found, t)
    ensures Sound(t) && Keeps(s, t)
    ensures forall e, n :: Maps(t, c, e, n) <==> e in found && n in found[e] && Typed(t, c, e, n)
  {
    forall k | k in s.declared || k in t.declared
      ensures k in t.declared && Consistent(t.declared[k])
      ensures k in s.declared ==> KeepsEvent(s, t, k)
    {
      EventKeeps(s, c, found, t, k);
    }
    forall e, n
      ensures Maps(t, c, e, n) <==> e in found && n in found[e] && Typed(t, c, e, n)
    {
      if e in found {
        TracedTyped(s, c, found, t, e, n);
      }
    }
    forall d, e, n | Maps(t, d, e, n)
      ensures Typed(t, d, e, n)
    {
      if d != c {
        assert Get(t.maps, d) == Get(s.maps, d);
        assert Maps(s, d, e, n);
        assert Typed(s, d, e, n);
        assert KeepsEvent(s, t, (d, e));
      }
    }
  }

  ghost predicate KeepsEvent(s: Source, t: Source, k: Key)
    requires k in s.declared
  {
    && k in t.declared && s.declared[k].fields <= t.declared[k].fields
    && forall f :: f in s.declared[k].types ==> f in t.declared[k].types && t.declared[k].types[f] == s.declared[k].types[f]
  }

  lemma EventKeeps(s: Source, c: nat, found: NodeMap, t: Source, k: Key)
    requires Sound(s) && UniqueNames(found) && Discovered(s, c, found, t) && (k in s.declared || k in t.declared)
    ensures k in t.declared && Consistent(t.declared[k]) && (k in s.declared ==> KeepsEvent(s, t, k))
  {
    assert Get(t.declared, k) ==
           if k.0 == c && k.1 in found then Redeclared(Get(s.declared, k), found[k.1]) else Get(s.declared, k);
    if k.0 == c && k.1 in found {
      RedeclaredKeeps(Get(s.declared, k), found[k.1]);
    }
  }

  lemma TracedTyped(s: Source, c: nat, found: NodeMap, t: Source, e: string, n: Node)
    requires Sound(s) && UniqueNames(found) && Discovered(s, c, found, t) && e in found
    ensures Maps(t, c, e, n) <==> n in found[e] && Typed(t, c, e, n)
  {
    var k := (c, e);
    assert Get(t.declared, k) == Redeclared(Get(s.declared, k), found[e]);
    RedeclaredKeeps(Get(s.declared, k), found[e]);
  }

  // ------------------------------------------------------------ what is logged

  /** What happens to a source, with what one of its clients logs in between. */
  datatype Happening = Discovers(client: nat, found: NodeMap) | Logs(event: Rows.Event)

  /** A mapped node's field of the event. */
  ghost predicate Named(s: Source, c: nat, e: string, f: string) {
    exists n :: Maps(s, c, e, n) && n.name == f
  }

  /** The field was mapped at some time, though it may not be now. */
  ghost predicate EverNamed(states: seq<Source>, c: nat, m: nat, e: string, f: string) {
    exists i :: 0 <= i <= m && i < |states| && Named(states[i], c, e, f)
  }

  ghost predicate Happened(states: seq<Source>, run: seq<Happening>, c: nat, m: nat)
    requires m < |run| && |states| == |run| + 1
  {
    match run[m]
    case Discovers(d, found) => UniqueNames(found) && Discovered(states[m], d, found, states[m + 1])
    case Logs(v) =>
      && states[m + 1] == states[m]
      && (v.Logged? ==> forall x :: x in v.batch ==> EverNamed(states, c, m, x.event, x.field))
  }

  /** A run from a sound source, each sample that client `c` logs of a field mapped then or before. */
  ghost predicate History(states: seq<Source>, run: seq<Happening>, c: nat) {
    |states| == |run| + 1 && Sound(states[0]) && forall m :: 0 <= m < |run| ==> Happened(states, run, c, m)
  }

  lemma KeepsItself(s: Source)
    ensures Keeps(s, s)
  {}

  lemma HappenedKeeps(states: seq<Source>, run: seq<Happening>, c: nat, m: nat)
    requires History(states, run, c) && 0 < m < |states| && Sound(states[m - 1])
    ensures Sound(states[m]) && Keeps(states[m - 1], states[m])
  {
    assert Happened(states, run, c, m - 1);
    match run[m - 1]
    case Discovers(d, found) => DiscoveryKeeps(states[m - 1], d, found, states[m]);
    case Logs(_) => KeepsItself(states[m]);
  }

  lemma {:induction false} StaysSound(states: seq<Source>, run: seq<Happening>, c: nat, m: nat)
    requires History(states, run, c) && m < |states|
    ensures Sound(states[m])
  {
    if m > 0 {
      StaysSound(states, run, c, m - 1);
      HappenedKeeps(states, run, c, m);
    }
  }

  /** Over any run: what is declared after the i-th happening stays, and the source stays sound. */
  lemma {:induction false} Evolves(states: seq<Source>, run: seq<Happening>, c: nat, i: nat, j: nat)
    requires History(states, run, c) && i <= j < |states|
    ensures Sound(states[j]) && Keeps(states[i], states[j])
    decreases j - i
  {
    StaysSound(states, run, c, j);
    if i == j {
      KeepsItself(states[j]);
    } else {
      Evolves(states, run, c, i, j - 1);
      HappenedKeeps(states, run, c, j);
    }
  }

  ghost predicate Declares(s: Source, c: nat, e: string, f: string) {
    (c, e) in s.declared && f in s.declared[(c, e)].types
  }

  lemma NamedStaysDeclared(states: seq<Source>, run: seq<Happening>, c: nat, m: nat, e: string, f: string)
    requires History(states, run, c) && m < |states| && EverNamed(states, c, m, e, f)
    ensures Declares(states[m], c, e, f)
  {
    var i :| 0 <= i <= m && i < |states| && Named(states[i], c, e, f);
    Evolves(states, run, c, 0, i);
    Evolves(states, run, c, i, m);
    var n :| Maps(states[i], c, e, n) && n.name == f;
    assert Typed(states[i], c, e, n);
    assert KeepsEvent(states[i], states[m], (c, e));
  }

  /** What the client logged in a run, and what else touched its last values. */
  function Past(run: seq<Happening>): seq<Rows.Event> {
    if run == [] then [] else
      var n := |run| - 1;
      Past(run[..n]) + if run[n].Logs? then [run[n].event] else []
  }

  /** A field's last value, after some of the run. */
  function LastOf(run: seq<Happening>, e: string, f: string): Option<Rows.Cell> {
    Rows.FieldRun(None, Past(run), e, f)
  }

  lemma LastOfNext(run: seq<Happening>, e: string, f: string)
    requires run != []
    ensures var n := |run| - 1;
            LastOf(run, e, f) == if run[n].Logs? then Rows.FieldStep(LastOf(run[..n], e, f), run[n].event, e, f) else LastOf(run[..n], e, f)
  {
    var n := |run| - 1;
    if run[n].Logs? {
      assert (Past(run[..n]) + [run[n].event])[..|Past(run[..n])|] == Past(run[..n]);
    } else {
      assert Past(run[..n]) + [] == Past(run[..n]);
    }
  }

  lemma BestNamed(batch: seq<Rows.Sample>, e: string, f: string, n: int)
    requires Rows.Best(batch, e, f, n).Some?
    ensures exists x :: x in batch && x.event == e && x.field == f
  {
    Rows.BestIsNewest(batch, e, f, n);
    var j: nat :| Rows.IsNewest(batch, e, f, n, j);
    assert batch[j] in batch;
  }

  /** Every last value is of a declared field, whatever was unmapped, discovered or logged late since. */
  lemma {:induction false} LastIsDeclared(states: seq<Source>, run: seq<Happening>, c: nat, m: nat, e: string, f: string)
    requires History(states, run, c) && m <= |run| && LastOf(run[..m], e, f).Some?
    ensures Declares(states[m], c, e, f)
    decreases m
  {
    if m > 0 {
      var past := run[..m - 1];
      assert run[..m][..m - 1] == past;
      LastOfNext(run[..m], e, f);
      assert Happened(states, run, c, m - 1);
      if LastOf(past, e, f).Some? {
        LastIsDeclared(states, run, c, m - 1, e, f);
        Evolves(states, run, c, m - 1, m);
        assert KeepsEvent(states[m - 1], states[m], (c, e));
      } else {
        var batch := run[m - 1].event.batch;
        BestNamed(batch, e, f, Rows.Top(batch));
        NamedStaysDeclared(states, run, c, m - 1, e, f);
      }
    }
  }

  /** Every field of every row logged over a run is on the live source when it is logged, samples of fields unmapped
      meanwhile and values kept from before included. */
  lemma LoggedIsDeclared(states: seq<Source>, run: seq<Happening>, c: nat, m: nat, last: Rows.Latest, rows: seq<Rows.Row>,
                         i: nat, f: string)
    requires History(states, run, c) && m < |run| && run[m].Logs? && run[m].event.Logged?
    requires forall e, g :: Get(last, (e, g)) == LastOf(run[..m], e, g)
    requires Rows.RowsOf(run[m].event.batch, run[m].event.declared, last, rows) && i < |rows| && f in rows[i].cells
    ensures exists n :: (c, rows[i].event) in states[m].live && n in states[m].live[(c, rows[i].event)] && n.name == f
  {
    var e, stamp, batch := rows[i].event, rows[i].stamp, run[m].event.batch;
    assert Get(rows[i].cells, f) == Rows.RowCell(batch, e, f, Get(last, (e, f)), stamp);
    Rows.AtIff(batch, e, f, stamp);
    assert Happened(states, run, c, m);
    if Rows.Best(batch, e, f, stamp).Some? {
      BestNamed(batch, e, f, stamp);
      NamedStaysDeclared(states, run, c, m, e, f);
    } else {
      LastIsDeclared(states, run, c, m, e, f);
    }
    Evolves(states, run, c, 0, m);
  }
}
