/** Vendor DataTypes deriving from a builtin integer, resolved a hierarchy level at a time for every
    type at once. */
module DataTypes {
  import opened Services

  datatype NodeId = Numeric(ns: nat, n: nat) | Named(ns: nat, name: string)

  // Hierarchy levels followed from a vendor type to a builtin one.
  const TYPE_DEPTH: nat := 8
  const ENUMERATION: nat := 29
  const BASE_DATATYPE := Numeric(0, 24)

  /** ns=0 builtin and abstract types: nothing to resolve. */
  predicate BuiltinOrAbstract(t: NodeId) {
    t.Numeric? && t.ns == 0 && t.n <= ENUMERATION
  }

  /** The field type of a concrete builtin. */
  function Builtin(t: NodeId): Option<string> {
    if !t.Numeric? || t.ns != 0 then None else
      match t.n
      case 1 => Some("bool") case 2 => Some("int8") case 3 => Some("uint8") case 4 => Some("int16")
      case 5 => Some("uint16") case 6 => Some("int32") case 7 => Some("uint32") case 8 => Some("int64")
      case 9 => Some("uint64") case 10 => Some("float32") case 11 => Some("float64") case 12 => Some("string")
      case _ => None
  }

  predicate IsInteger(t: NodeId) {
    t.Numeric? && t.ns == 0 && 2 <= t.n <= 9
  }

  /** Each DataType's HasSubtype parent, where it has one. */
  type Hierarchy = map<NodeId, NodeId>

  function Parent(h: Hierarchy, t: NodeId): Option<NodeId> {
    if t in h then Some(h[t]) else None
  }

  /** The k-th supertype, one parent at a time. */
  function Ancestor(h: Hierarchy, t: NodeId, k: nat): Option<NodeId> {
    if k == 0 then Some(t) else
      var below := Ancestor(h, t, k - 1);
      if below.None? then None else Parent(h, below.value)
  }

  /** One of the first types of namespace 0, up to Enumeration. */
  predicate Standard(t: NodeId) {
    t.Numeric? && t.ns == 0 && t.n in {0, 1, 2, 3, 4, 5, 6, 7, 8, 9, 10, 11, 12, 13, 14, 15, 16, 17, 18, 19, 20, 21, 22, 23, 24,
                                       25, 26, 27, 28, 29}
  }

  /** The concrete builtin types by number, as fields name them. */
  const TYPE_NAMES: seq<string> := ["", "bool", "int8", "uint8", "int16", "uint16", "int32", "uint32", "int64", "uint64",
                                    "float32", "float64", "string"]

  /** `a` is the first builtin or abstract type met following `t`'s supertypes, within the depth. */
  ghost predicate FirstStop(h: Hierarchy, t: NodeId, a: NodeId) {
    Standard(a) && exists k :: 0 <= k <= TYPE_DEPTH && StopsAt(h, t, k, a)
  }

  ghost predicate StopsAt(h: Hierarchy, t: NodeId, k: nat, a: NodeId) {
    && Ancestor(h, t, k) == Some(a)
    && forall j :: 0 <= j < k ==> Ancestor(h, t, j).Some? && !Standard(Ancestor(h, t, j).value)
  }

  /** What a type has come to after `rounds` levels: stopped, gone without a parent, or still climbing. */
  function Climb(h: Hierarchy, t: NodeId, rounds: nat): Option<NodeId> {
    if rounds == 0 then Some(t) else
      var a := Climb(h, t, rounds - 1);
      if a.None? || BuiltinOrAbstract(a.value) then a else Parent(h, a.value)
  }

  /** While it climbs it is the plain ancestor; once stopped it stays. */
  lemma {:induction false} ClimbIsAncestor(h: Hierarchy, t: NodeId, r: nat)
    ensures forall a :: Climb(h, t, r) == Some(a) && BuiltinOrAbstract(a) ==> exists k :: 0 <= k <= r && StopsAt(h, t, k, a)
    ensures (Climb(h, t, r).None? || !BuiltinOrAbstract(Climb(h, t, r).value)) ==>
              Climb(h, t, r) == Ancestor(h, t, r)
              && forall j :: 0 <= j < r ==> Ancestor(h, t, j).Some? ==> !BuiltinOrAbstract(Ancestor(h, t, j).value)
    ensures Climb(h, t, r).Some? && !BuiltinOrAbstract(Climb(h, t, r).value) ==>
              forall j :: 0 <= j <= r ==> Ancestor(h, t, j).Some?
  {
    if r > 0 {
      ClimbIsAncestor(h, t, r - 1);
      var below := Climb(h, t, r - 1);
      if below.Some? {
        if !BuiltinOrAbstract(below.value) {
          var a := Climb(h, t, r);
          assert a == Ancestor(h, t, r);
          if a.Some? && BuiltinOrAbstract(a.value) {
            assert StopsAt(h, t, r, a.value);
          }
        }
      }
    } else if BuiltinOrAbstract(t) {
      assert StopsAt(h, t, 0, t);
    }
  }

  lemma {:induction false} StopStays(h: Hierarchy, t: NodeId, k: nat, a: NodeId, r: nat)
    requires StopsAt(h, t, k, a) && BuiltinOrAbstract(a) && k <= r
    ensures Climb(h, t, r) == Some(a)
    decreases r
  {
    if r == k {
      ClimbingTo(h, t, k);
    } else {
      StopStays(h, t, k, a, r - 1);
    }
  }

  lemma {:induction false} ClimbingTo(h: Hierarchy, t: NodeId, k: nat)
    requires Ancestor(h, t, k).Some?
    requires forall j :: 0 <= j < k ==> Ancestor(h, t, j).Some? && !BuiltinOrAbstract(Ancestor(h, t, j).value)
    ensures Climb(h, t, k) == Ancestor(h, t, k)
  {
    if k > 0 {
      ClimbingTo(h, t, k - 1);
    }
  }

  /** Level by level for every type at once comes to the same as following each chain alone. */
  lemma ClimbIff(h: Hierarchy, t: NodeId, a: NodeId)
    ensures Climb(h, t, TYPE_DEPTH) == Some(a) && BuiltinOrAbstract(a) <==> FirstStop(h, t, a)
  {
    ClimbIsAncestor(h, t, TYPE_DEPTH);
    if FirstStop(h, t, a) {
      var k :| 0 <= k <= TYPE_DEPTH && StopsAt(h, t, k, a);
      StopStays(h, t, k, a, TYPE_DEPTH);
    }
  }

  /** Each type's parent, `chunk` types per Browse. */
  method Supertypes(h: Hierarchy, types: seq<NodeId>, chunk: nat) returns (out: seq<Option<NodeId>>)
    requires chunk > 0
    ensures |out| == |types| && forall i :: 0 <= i < |types| ==> out[i] == Parent(h, types[i])
  {
    out := [];
    var start := 0;
    while start < |types|
      invariant 0 <= start <= |types| && |out| == start
      invariant forall i :: 0 <= i < start ==> out[i] == Parent(h, types[i])
    {
      var stop := if start + chunk < |types| then start + chunk else |types|;
      var batch := types[start..stop];
      var parents := Browse(h, batch, chunk);
      out := out + parents;
      start := stop;
    }
  }

  /** One inverse Browse, of as many types as the server takes. */
  method Browse(h: Hierarchy, types: seq<NodeId>, limit: nat) returns (out: seq<Option<NodeId>>)
    requires |types| <= limit
    ensures |out| == |types| && forall i :: 0 <= i < |types| ==> out[i] == Parent(h, types[i])
  {
    out := seq(|types|, i requires 0 <= i < |types| => Parent(h, types[i]));
  }

  /** The members of a set, in some order. */
  method Listed(s: set<NodeId>) returns (r: seq<NodeId>)
    ensures forall t :: t in r <==> t in s
  {
    r := [];
    var left := s;
    while left != {}
      invariant left <= s && forall t :: t in r <==> t in s - left
    {
      var t :| t in left;
      r := r + [t];
      left := left - {t};
    }
  }

  /** One level for every type still climbing. */
  method Level(h: Hierarchy, ancestor: map<NodeId, NodeId>, pending: set<NodeId>, chunk: nat)
    returns (next: map<NodeId, NodeId>)
    requires chunk > 0
    requires pending == set t | t in ancestor && !BuiltinOrAbstract(ancestor[t]) :: ancestor[t]
    ensures forall t :: t in next <==> t in ancestor && (BuiltinOrAbstract(ancestor[t]) || ancestor[t] in h)
    ensures forall t :: t in next ==> next[t] == if BuiltinOrAbstract(ancestor[t]) then ancestor[t] else h[ancestor[t]]
  {
    var listed := Listed(pending);
    var out := Supertypes(h, listed, chunk);
    var parents: map<NodeId, Option<NodeId>> := map[];
    var i := 0;
    while i < |listed|
      invariant 0 <= i <= |listed|
      invariant forall t :: t in parents <==> t in listed[..i]
      invariant forall t :: t in parents ==> parents[t] == Parent(h, t)
    {
      parents := parents[listed[i] := out[i]];
      i := i + 1;
    }
    assert listed[..i] == listed;
    next := map t | t in ancestor && (BuiltinOrAbstract(ancestor[t]) || parents[ancestor[t]].Some?) ::
              if BuiltinOrAbstract(ancestor[t]) then ancestor[t] else parents[ancestor[t]].value;
  }

  /** The types deriving from a builtin integer, as that integer. */
  method IntegerSubtypes(h: Hierarchy, types: set<NodeId>, chunk: nat) returns (r: map<NodeId, string>)
    requires chunk > 0
    ensures r == Integers(h, types)
  {
    var ancestor := map t | t in types :: t;
    var rounds := 0;
    while rounds < TYPE_DEPTH
      invariant 0 <= rounds <= TYPE_DEPTH
      invariant forall t :: t in ancestor <==> t in types && Climb(h, t, rounds).Some?
      invariant forall t :: t in ancestor ==> Some(ancestor[t]) == Climb(h, t, rounds)
    {
      var pending := set t | t in ancestor && !BuiltinOrAbstract(ancestor[t]) :: ancestor[t];
      assert forall t :: t in ancestor && !BuiltinOrAbstract(ancestor[t]) ==> ancestor[t] in pending;
      if pending == {} {
        break;
      }
      ancestor := Level(h, ancestor, pending, chunk);
      rounds := rounds + 1;
    }
    forall t | t in types
      ensures Climb(h, t, rounds) == Climb(h, t, TYPE_DEPTH)
    {
      ClimbSettles(h, t, rounds, TYPE_DEPTH);
    }
    r := map t | t in ancestor && IsInteger(ancestor[t]) :: Builtin(ancestor[t]).value;
  }

  lemma {:induction false} ClimbSettles(h: Hierarchy, t: NodeId, r: nat, more: nat)
    requires r <= more && (r == more || Climb(h, t, r).None? || BuiltinOrAbstract(Climb(h, t, r).value))
    ensures Climb(h, t, more) == Climb(h, t, r)
    decreases more
  {
    if r < more {
      ClimbSettles(h, t, r, more - 1);
    }
  }

  /** Per type, with no batching. */
  function Integers(h: Hierarchy, types: set<NodeId>): (r: map<NodeId, string>) {
    map t | t in types && Climb(h, t, TYPE_DEPTH).Some? && IsInteger(Climb(h, t, TYPE_DEPTH).value) ::
      Builtin(Climb(h, t, TYPE_DEPTH).value).value
  }

  /** A type resolves to an integer exactly when that is the first builtin or abstract type up its chain,
      within the depth, whatever the hierarchy: cycles, sharing, missing parents. */
  lemma IntegersIff(h: Hierarchy, types: set<NodeId>, t: NodeId, name: string)
    ensures t in Integers(h, types) && Integers(h, types)[t] == name <==>
              t in types && exists k: nat :: 2 <= k <= 9 && FirstStop(h, t, Numeric(0, k)) && name == TYPE_NAMES[k]
  {
    if t in Integers(h, types) && Integers(h, types)[t] == name {
      var a := Climb(h, t, TYPE_DEPTH).value;
      ClimbIff(h, t, a);
      assert a == Numeric(0, a.n) && name == TYPE_NAMES[a.n];
    }
    if t in types {
      forall k: nat | 2 <= k <= 9 && FirstStop(h, t, Numeric(0, k))
        ensures t in Integers(h, types) && Integers(h, types)[t] == TYPE_NAMES[k]
      {
        ClimbIff(h, t, Numeric(0, k));
      }
    }
  }
}
