/**
 Batched reading and describing: chunked Reads that isolate the values that do not decode, and the index
 arithmetic that hands each discovered Variable its own attributes, properties and value back.
 */
module Describe {
  import opened Services
  import opened DataTypes

  datatype Attribute = DataType | ValueRank | AccessLevel | DisplayName | Description | Value

  datatype Item = Item(node: NodeId, attribute: Attribute)

  datatype Status = Good | Uncertain | Bad | BadDecoding

  /** What a value can hold, by the kinds that are told apart; a range comes rendered. */
  datatype Content =
    | Id(id: NodeId)
    | Int(n: int)
    | Localized(text: string)
    | EngineeringUnit(name: string)
    | Range(text: string)
    | List
    | Structure
    | Scalar(kind: string)
    | Unsupported

  datatype DataValue = DataValue(status: Status, content: Option<Content>)
  {
    predicate Usable() {
      status.Good? || status.Uncertain?
    }

    /** A usable value, else nothing. */
    function Held(): Option<Content> {
      if Usable() then content else None
    }
  }

  /** What the server would answer, None where the client cannot decode it. */
  type Server = Item -> Option<DataValue>

  /** One item read alone. */
  function ReadOne(s: Server, item: Item): DataValue {
    if s(item).Some? then s(item).value else DataValue(BadDecoding, None)
  }

  function ReadEach(s: Server, items: seq<Item>): (r: seq<DataValue>)
    ensures |r| == |items| && forall i :: 0 <= i < |items| ==> r[i] == ReadOne(s, items[i])
  {
    seq(|items|, i requires 0 <= i < |items| => ReadOne(s, items[i]))
  }

  /** One Read, of as many items as the server takes: a single undecodable value fails the whole response. */
  method Read(s: Server, items: seq<Item>, limit: nat) returns (r: Option<seq<DataValue>>)
    requires |items| <= limit
    ensures r.Some? <==> forall i :: 0 <= i < |items| ==> s(items[i]).Some?
    ensures r.Some? ==> r.value == ReadEach(s, items)
  {
    var i := 0;
    while i < |items|
      invariant 0 <= i <= |items| && forall k :: 0 <= k < i ==> s(items[k]).Some?
    {
      if s(items[i]).None? {
        return None;
      }
      i := i + 1;
    }
    r := Some(ReadEach(s, items));
  }

  /** `chunk` items per request, one result per item in order; the undecodable ones, and only they, come back
      as such. */
  method ReadMany(s: Server, items: seq<Item>, chunk: nat) returns (out: seq<DataValue>)
    requires chunk > 0
    ensures out == ReadEach(s, items)
  {
    out := [];
    var start := 0;
    while start < |items|
      invariant 0 <= start <= |items| && out == ReadEach(s, items[..start])
    {
      var stop := if start + chunk < |items| then start + chunk else |items|;
      var batch := items[start..stop];
      assert items[..stop] == items[..start] + batch;
      var read := Read(s, batch, chunk);
      if read.Some? {
        out := out + read.value;
      } else {
        var i := 0;
        while i < |batch|
          invariant 0 <= i <= |batch| && out == ReadEach(s, items[..start + i])
        {
          assert items[..start + i + 1] == items[..start + i] + [batch[i]];
          assert [batch[i]][0] == batch[i];
          var alone := Read(s, [batch[i]], chunk);
          out := out + (if alone.Some? then alone.value else [DataValue(BadDecoding, None)]);
          i := i + 1;
        }
        assert items[..start + i] == items[..stop];
      }
      start := stop;
    }
    assert items[..start] == items;
  }

  // ------------------------------------------------------------ one Variable

  /** A Variable the walk reached, with its unit and range properties. */
  datatype Found = Found(node: NodeId, name: string, eu: Option<NodeId>, range: Option<NodeId>)

  datatype Described = Described(variable: Found, datatype_: string, units: string, description: string)

  datatype Outcome = Traced(d: Described, variant: bool) | Skipped(reason: string)

  /** What the server holds: values and the DataType hierarchy. */
  datatype World = World(server: Server, types: Hierarchy)

  function Declared(t: Option<NodeId>, subtypes: map<NodeId, string>): Option<string> {
    if t.None? then None
    else if Builtin(t.value).Some? then Builtin(t.value)
    else if t.value == Numeric(0, 26) then Some("float64")
    else if t.value == Numeric(0, 27) then Some("int64")
    else if t.value == Numeric(0, 28) then Some("uint64")
    else if t.value in subtypes then Some(subtypes[t.value]) else None
  }

  /** A field's datatype, or why there is none; `dv` is the value, where it had to be read. */
  function FieldDatatype(t: Option<NodeId>, dv: Option<DataValue>, subtypes: map<NodeId, string>): (Option<string>, string) {
    var declared := Declared(t, subtypes);
    if dv.None? then (declared, "")
    else if dv.value.status.BadDecoding? then (None, "undecodable")
    else
      match dv.value.Held()
      case None => (None, "no value")
      case Some(List) => (None, "array")
      case Some(c) =>
        if declared.Some? then (declared, "")
        else if t == Some(BASE_DATATYPE) then (Some("string"), "")
        else
          match c
          case Structure => (None, "struct")
          case EngineeringUnit(_) => (None, "struct")
          case Range(_) => (None, "struct")
          case Int(_) => (Some("float64"), "")
          case Scalar(kind) => (Some(if kind == "bool" || kind == "string" then kind else "float64"), "")
          case _ => (None, "unsupported type")
  }

  predicate MaybeScalar(rank: Option<int>) {
    rank == Some(-2) || rank == Some(-3)
  }

  function AsId(c: Option<Content>): Option<NodeId> {
    if c.Some? && c.value.Id? then Some(c.value.id) else None
  }

  function AsInt(c: Option<Content>): Option<int> {
    if c.Some? && c.value.Int? then Some(c.value.n) else None
  }

  function TextOf(dv: DataValue): string {
    match dv.Held()
    case Some(Localized(text)) => text
    case _ => ""
  }

  /** Leading blanks removed. */
  function Stripped(s: string): string {
    if s != "" && (s[0] == ' ' || s[0] == '\t' || s[0] == '\n' || s[0] == '\r') then Stripped(s[1..]) else s
  }

  /** The five attributes read of every Variable, in order. */
  const ATTRIBUTES := [DataType, ValueRank, AccessLevel, DisplayName, Description]

  function ItemsOf(v: Found): (r: seq<Item>)
    ensures |r| == |ATTRIBUTES| == 5
  {
    [Item(v.node, DataType), Item(v.node, ValueRank), Item(v.node, AccessLevel),
     Item(v.node, DisplayName), Item(v.node, Description)]
  }

  /** Why a Variable is not traced, judged by its attributes alone. */
  function Unsuitable(attrs: seq<DataValue>): Option<string>
    requires |attrs| == 5
  {
    var access, rank := AsInt(attrs[2].Held()), attrs[1].Held();
    if access.Some? && access.value % 2 == 0 then Some("not readable")
    else if rank.Some? && rank.value !in {Int(-1), Int(-2), Int(-3)} then Some("array")
    else None
  }

  function DataTypeOf(attrs: seq<DataValue>): Option<NodeId>
    requires |attrs| == 5
  {
    AsId(attrs[0].Held())
  }

  predicate NeedsValue(attrs: seq<DataValue>, subtypes: map<NodeId, string>)
    requires |attrs| == 5
  {
    Declared(DataTypeOf(attrs), subtypes).None? || MaybeScalar(AsInt(attrs[1].Held()))
  }

  /** The row made of a Variable's own attributes, properties and value. */
  function Row(v: Found, attrs: seq<DataValue>, eu: Option<Content>, range: Option<Content>, dv: Option<DataValue>,
               subtypes: map<NodeId, string>): Outcome
    requires |attrs| == 5
  {
    var (datatype_, reason) := FieldDatatype(DataTypeOf(attrs), dv, subtypes);
    if datatype_.None? then Skipped(reason) else
      Traced(Described(v, datatype_.value, UnitsOf(eu), DescriptionOf(v.name, TextOf(attrs[3]), TextOf(attrs[4]), range)),
             DataTypeOf(attrs) == Some(BASE_DATATYPE))
  }

  function UnitsOf(eu: Option<Content>): string {
    if eu.Some? && eu.value.EngineeringUnit? then eu.value.name else ""
  }

  function DescriptionOf(name: string, display: string, text: string, range: Option<Content>): string {
    var description := if text != "" then text else if display != name then display else "";
    if range.Some? && range.value.Range? then Stripped(description + " (range " + range.value.text + ")") else description
  }

  function Property(s: Server, ref: Option<NodeId>): Option<Content> {
    if ref.None? then None else ReadOne(s, Item(ref.value, Value)).Held()
  }

  /** The subtypes a Variable's own type needs. */
  function OwnSubtypes(w: World, t: Option<NodeId>): map<NodeId, string> {
    if t.Some? && !BuiltinOrAbstract(t.value) then Integers(w.types, {t.value}) else map[]
  }

  /** Describing one Variable by itself: every read about it alone. */
  function DescribeOne(w: World, v: Found): Outcome {
    var attrs := ReadEach(w.server, ItemsOf(v));
    var why := Unsuitable(attrs);
    if why.Some? then Skipped(why.value) else
      var t := DataTypeOf(attrs);
      var own := OwnSubtypes(w, t);
      var dv := if NeedsValue(attrs, own) then Some(ReadOne(w.server, Item(v.node, Value))) else None;
      Row(v, attrs, Property(w.server, v.eu), Property(w.server, v.range), dv, own)
  }

  /** The described Variables, in order. */
  function Rows(outcomes: seq<Outcome>): seq<Described> {
    if outcomes == [] then [] else
      var n := |outcomes| - 1;
      Rows(outcomes[..n]) + (if outcomes[n].Traced? then [outcomes[n].d] else [])
  }

  /** How often each reason was given. */
  function Reasons(outcomes: seq<Outcome>): multiset<string> {
    if outcomes == [] then multiset{} else
      var n := |outcomes| - 1;
      Reasons(outcomes[..n]) + (if outcomes[n].Skipped? then multiset{outcomes[n].reason} else multiset{})
  }

  /** Every outcome is a row or a counted skip, never both. */
  lemma {:induction false} EachCounted(outcomes: seq<Outcome>)
    ensures |Rows(outcomes)| + |Reasons(outcomes)| == |outcomes|
  {
    if outcomes != [] {
      EachCounted(outcomes[..|outcomes| - 1]);
    }
  }

  /** The nodes declared BaseDataType. */
  function Variants(outcomes: seq<Outcome>): set<NodeId> {
    set i | 0 <= i < |outcomes| && outcomes[i].Traced? && outcomes[i].variant :: outcomes[i].d.variable.node
  }

  function DescribeEach(w: World, found: seq<Found>): (r: seq<Outcome>)
    ensures |r| == |found| && forall i :: 0 <= i < |r| ==> r[i] == DescribeOne(w, found[i])
  {
    seq(|found|, i requires 0 <= i < |found| => DescribeOne(w, found[i]))
  }

  // ------------------------------------------------------------ what a Variable comes out as

  /** A usable value of an attribute, as the server has it. */
  ghost predicate Reads(w: World, node: NodeId, a: Attribute, c: Content) {
    var dv := w.server(Item(node, a));
    dv.Some? && (dv.value.status == Status.Good || dv.value.status == Status.Uncertain) && dv.value.content == Some(c)
  }

  lemma HeldIff(w: World, node: NodeId, a: Attribute)
    ensures forall c :: ReadOne(w.server, Item(node, a)).Held() == Some(c) <==> Reads(w, node, a, c)
  {}

  /** Its AccessLevel lacks the CurrentRead bit. */
  ghost predicate NotReadable(w: World, v: Found) {
    exists n: int :: n % 2 == 0 && Reads(w, v.node, AccessLevel, Int(n))
  }

  /** Its rank is given and rules a scalar out. */
  ghost predicate NotScalar(w: World, v: Found) {
    exists c :: c !in {Int(-1), Int(-2), Int(-3)} && Reads(w, v.node, ValueRank, c)
  }

  /** The rank leaves a scalar possible, not certain. */
  ghost predicate RankOpen(w: World, v: Found) {
    Reads(w, v.node, ValueRank, Int(-2)) || Reads(w, v.node, ValueRank, Int(-3))
  }

  ghost predicate Suits(w: World, v: Found) {
    !NotReadable(w, v) && !NotScalar(w, v)
  }

  /** A DataType that fixes the field's: a concrete builtin by its name, an abstract number by its widest, or a vendor's
      by the builtin integer it derives from. */
  ghost predicate Fixes(types: Hierarchy, t: NodeId, name: string) {
    || (exists k: nat :: 1 <= k <= 12 && t == Numeric(0, k) && name == TYPE_NAMES[k])
    || (t == Numeric(0, 26) && name == "float64")
    || (t == Numeric(0, 27) && name == "int64")
    || (t == Numeric(0, 28) && name == "uint64")
    || (!Standard(t) && exists k: nat :: 2 <= k <= 9 && FirstStop(types, t, Numeric(0, k)) && name == TYPE_NAMES[k])
  }

  ghost predicate Fixed(w: World, v: Found, name: string) {
    exists t :: Reads(w, v.node, DataType, Id(t)) && Fixes(w.types, t, name)
  }

  ghost predicate AnyFixed(w: World, v: Found) {
    exists name :: Fixed(w, v, name)
  }

  /** Declared BaseDataType: its value's type may change. */
  ghost predicate OfAnyType(w: World, v: Found) {
    Reads(w, v.node, DataType, Id(Numeric(0, 24)))
  }

  /** Its value is looked at: neither DataType nor rank leave it out. */
  ghost predicate LookedAt(w: World, v: Found) {
    !AnyFixed(w, v) || RankOpen(w, v)
  }

  ghost predicate Undecodable(w: World, v: Found) {
    var dv := w.server(Item(v.node, Value)); dv.None? || dv.value.status == BadDecoding
  }

  /** The datatype a value's own kind gives a field. */
  ghost predicate KindGives(c: Content, name: string) {
    match c
    case Int(_) => name == "float64"
    case Scalar(kind) => name == if kind in {"bool", "string"} then kind else "float64"
    case _ => false
  }

  /** The field's datatype: the one fixed, else string for BaseDataType, else by the value's kind. */
  ghost predicate FieldOf(w: World, v: Found, c: Content, name: string) {
    if AnyFixed(w, v) then Fixed(w, v, name)
    else if OfAnyType(w, v) then name == "string"
    else KindGives(c, name)
  }

  ghost predicate TracedAs(w: World, v: Found, name: string) {
    if LookedAt(w, v) then exists c :: Reads(w, v.node, Value, c) && c != List && FieldOf(w, v, c, name)
    else Fixed(w, v, name)
  }

  /** Why a Variable is left out, reason by reason. */
  ghost predicate LeftOut(w: World, v: Found, reason: string) {
    || (reason == "not readable" && NotReadable(w, v))
    || (reason == "array" && !NotReadable(w, v) && NotScalar(w, v))
    || (Suits(w, v) && LookedAt(w, v) && ValueLeavesOut(w, v, reason))
  }

  ghost predicate ValueLeavesOut(w: World, v: Found, reason: string) {
    || (reason == "undecodable" && Undecodable(w, v))
    || (reason == "no value" && !Undecodable(w, v) && forall c :: !Reads(w, v.node, Value, c))
    || (reason == "array" && Reads(w, v.node, Value, List))
    || (!AnyFixed(w, v) && !OfAnyType(w, v) && exists c :: Reads(w, v.node, Value, c) && KindLeavesOut(c, reason))
  }

  ghost predicate KindLeavesOut(c: Content, reason: string) {
    || (reason == "struct" && (c.Structure? || c.EngineeringUnit? || c.Range?))
    || (reason == "unsupported type" && (c.Id? || c.Localized? || c.Unsupported?))
  }

  /** The unit its own property names. */
  ghost predicate UnitIs(w: World, v: Found, units: string) {
    if exists u :: v.eu.Some? && Reads(w, v.eu.value, Value, EngineeringUnit(u))
    then v.eu.Some? && Reads(w, v.eu.value, Value, EngineeringUnit(units))
    else units == ""
  }

  ghost predicate TextIs(w: World, node: NodeId, a: Attribute, text: string) {
    if exists t :: Reads(w, node, a, Localized(t)) then Reads(w, node, a, Localized(text)) else text == ""
  }

  /** The Description, else a DisplayName other than its name. */
  ghost predicate BareIs(w: World, v: Found, before: string) {
    if exists t :: t != "" && TextIs(w, v.node, Description, t) then TextIs(w, v.node, Description, before)
    else if TextIs(w, v.node, DisplayName, v.name) then before == ""
    else TextIs(w, v.node, DisplayName, before)
  }

  ghost predicate RangeIs(w: World, v: Found, r: string) {
    v.range.Some? && Reads(w, v.range.value, Value, Range(r))
  }

  /** Then its own range. */
  ghost predicate DescriptionIs(w: World, v: Found, description: string) {
    exists before :: BareIs(w, v, before) && RangeAdds(w, v, before, description)
  }

  ghost predicate RangeAdds(w: World, v: Found, before: string, description: string) {
    if exists r :: RangeIs(w, v, r) then exists r :: RangeIs(w, v, r) && Trimmed(before + " (range " + r + ")", description)
    else description == before
  }

  /** Less the blanks it begins with. */
  ghost predicate Trimmed(s: string, r: string) {
    exists k: nat :: TrimmedAt(s, r, k)
  }

  ghost predicate TrimmedAt(s: string, r: string, k: nat) {
    k <= |s| && s[k..] == r && (forall i :: 0 <= i < k ==> Blank(s[i])) && (k < |s| ==> !Blank(s[k]))
  }

  predicate Blank(c: char) {
    c in {' ', '\t', '\n', '\r'}
  }

  /** What one Variable comes out as. */
  ghost predicate Means(w: World, v: Found, o: Outcome) {
    match o
    case Skipped(reason) => LeftOut(w, v, reason)
    case Traced(d, variant) =>
      && Suits(w, v) && d.variable == v && TracedAs(w, v, d.datatype_)
      && UnitIs(w, v, d.units) && DescriptionIs(w, v, d.description) && (variant <==> OfAnyType(w, v))
  }

  lemma UnsuitableMeans(w: World, v: Found)
    ensures var why := Unsuitable(ReadEach(w.server, ItemsOf(v)));
            && (why == Some("not readable") <==> NotReadable(w, v))
            && (why == Some("array") <==> !NotReadable(w, v) && NotScalar(w, v))
            && (why.None? <==> Suits(w, v))
  {
    HeldIff(w, v.node, AccessLevel);
    HeldIff(w, v.node, ValueRank);
    var attrs := ReadEach(w.server, ItemsOf(v));
    assert attrs[2] == ReadOne(w.server, Item(v.node, AccessLevel));
    assert attrs[1] == ReadOne(w.server, Item(v.node, ValueRank));
    var access, rank := attrs[2].Held(), attrs[1].Held();
    if access.Some? && access.value.Int? {
      assert Reads(w, v.node, AccessLevel, Int(access.value.n));
    }
    if rank.Some? {
      assert Reads(w, v.node, ValueRank, rank.value);
    }
  }

  lemma DeclaredMeans(w: World, t: Option<NodeId>, name: string)
    ensures Declared(t, OwnSubtypes(w, t)) == Some(name) <==> t.Some? && Fixes(w.types, t.value, name)
  {
    if t.Some? {
      if BuiltinOrAbstract(t.value) {
        assert t.value == Numeric(0, t.value.n);
        assert 1 <= t.value.n <= 12 ==> Builtin(t.value) == Some(TYPE_NAMES[t.value.n]);
      } else {
        IntegersIff(w.types, {t.value}, t.value, name);
      }
    }
  }

  lemma FixedMeans(w: World, v: Found)
    ensures var t := DataTypeOf(ReadEach(w.server, ItemsOf(v)));
            && (forall name :: Declared(t, OwnSubtypes(w, t)) == Some(name) <==> Fixed(w, v, name))
            && (Declared(t, OwnSubtypes(w, t)).Some? <==> AnyFixed(w, v))
            && (t == Some(BASE_DATATYPE) <==> OfAnyType(w, v))
  {
    var attrs := ReadEach(w.server, ItemsOf(v));
    var t := DataTypeOf(attrs);
    HeldIff(w, v.node, DataType);
    assert attrs[0] == ReadOne(w.server, Item(v.node, DataType));
    assert forall u :: t == Some(u) <==> Reads(w, v.node, DataType, Id(u));
    forall name
      ensures Declared(t, OwnSubtypes(w, t)) == Some(name) <==> Fixed(w, v, name)
    {
      DeclaredMeans(w, t, name);
    }
    if Declared(t, OwnSubtypes(w, t)).Some? {
      assert Fixed(w, v, Declared(t, OwnSubtypes(w, t)).value);
    }
  }

  lemma LookedAtMeans(w: World, v: Found)
    ensures var attrs := ReadEach(w.server, ItemsOf(v));
            NeedsValue(attrs, OwnSubtypes(w, DataTypeOf(attrs))) <==> LookedAt(w, v)
  {
    FixedMeans(w, v);
    HeldIff(w, v.node, ValueRank);
    assert ReadEach(w.server, ItemsOf(v))[1] == ReadOne(w.server, Item(v.node, ValueRank));
  }

  /** The value's part: what type it gives the field, or why none. */
  lemma ValueMeans(w: World, v: Found)
    requires LookedAt(w, v)
    ensures var t := DataTypeOf(ReadEach(w.server, ItemsOf(v)));
            var (name, reason) := FieldDatatype(t, Some(ReadOne(w.server, Item(v.node, Value))), OwnSubtypes(w, t));
            if name.Some? then TracedAs(w, v, name.value) else ValueLeavesOut(w, v, reason)
  {
    FixedMeans(w, v);
    HeldIff(w, v.node, Value);
    var held := ReadOne(w.server, Item(v.node, Value)).Held();
    if held.Some? {
      assert Reads(w, v.node, Value, held.value);
    }
  }

  lemma TextMeans(w: World, node: NodeId, a: Attribute)
    ensures TextIs(w, node, a, TextOf(ReadOne(w.server, Item(node, a))))
  {
    HeldIff(w, node, a);
    var held := ReadOne(w.server, Item(node, a)).Held();
    if held.Some? && held.value.Localized? {
      assert Reads(w, node, a, Localized(held.value.text));
    }
  }

  lemma {:induction false} StrippedTrims(s: string) returns (k: nat)
    ensures TrimmedAt(s, Stripped(s), k)
  {
    k := 0;
    if s != "" && Blank(s[0]) {
      k := StrippedTrims(s[1..]);
      k := k + 1;
    } else {
      assert s[0..] == s;
    }
  }

  lemma DescriptionMeans(w: World, v: Found)
    ensures DescriptionIs(w, v, DescriptionOf(v.name, TextOf(ReadOne(w.server, Item(v.node, DisplayName))),
                                              TextOf(ReadOne(w.server, Item(v.node, Description))), Property(w.server, v.range)))
  {
    TextMeans(w, v.node, DisplayName);
    TextMeans(w, v.node, Description);
    TextOnce(w, v.node, DisplayName);
    TextOnce(w, v.node, Description);
    var display, text := TextOf(ReadOne(w.server, Item(v.node, DisplayName))), TextOf(ReadOne(w.server, Item(v.node, Description)));
    var before := if text != "" then text else if display != v.name then display else "";
    assert BareIs(w, v, before);
    RangeMeans(w, v, before, DescriptionOf(v.name, display, text, Property(w.server, v.range)));
  }

  lemma TextOnce(w: World, node: NodeId, a: Attribute)
    ensures forall s, t :: TextIs(w, node, a, s) && TextIs(w, node, a, t) ==> s == t
  {}

  lemma RangeMeans(w: World, v: Found, before: string, description: string)
    requires var range := Property(w.server, v.range);
             description == if range.Some? && range.value.Range? then Stripped(before + " (range " + range.value.text + ")") else before
    ensures RangeAdds(w, v, before, description)
  {
    if v.range.Some? {
      HeldIff(w, v.range.value, Value);
      var held := Property(w.server, v.range);
      if held.Some? && held.value.Range? {
        assert RangeIs(w, v, held.value.text);
        var k := StrippedTrims(before + " (range " + held.value.text + ")");
      }
    }
  }

  /** One Variable described alone comes out as it should. */
  lemma DescribedMeans(w: World, v: Found)
    ensures Means(w, v, DescribeOne(w, v))
  {
    var attrs := ReadEach(w.server, ItemsOf(v));
    UnsuitableMeans(w, v);
    if Unsuitable(attrs).None? {
      FixedMeans(w, v);
      LookedAtMeans(w, v);
      if LookedAt(w, v) {
        ValueMeans(w, v);
      }
      DescriptionMeans(w, v);
      assert attrs[3] == ReadOne(w.server, Item(v.node, DisplayName));
      assert attrs[4] == ReadOne(w.server, Item(v.node, Description));
    }
  }

  lemma FixedOnce(w: World, v: Found, name: string, other: string)
    requires Fixed(w, v, name) && Fixed(w, v, other)
    ensures name == other
  {
    FixedMeans(w, v);
  }

  lemma TracedAsOnce(w: World, v: Found, name: string, other: string)
    requires TracedAs(w, v, name) && TracedAs(w, v, other)
    ensures name == other
  {
    if AnyFixed(w, v) {
      FixedOnce(w, v, name, other);
    }
  }

  lemma DescriptionOnce(w: World, v: Found, a: string, b: string)
    requires DescriptionIs(w, v, a) && DescriptionIs(w, v, b)
    ensures a == b
  {
    TextOnce(w, v.node, DisplayName);
    TextOnce(w, v.node, Description);
    var before :| BareIs(w, v, before) && RangeAdds(w, v, before, a);
    var other :| BareIs(w, v, other) && RangeAdds(w, v, other, b);
    BareOnce(w, v, before, other);
    if exists r :: RangeIs(w, v, r) {
      var r :| RangeIs(w, v, r) && Trimmed(before + " (range " + r + ")", a);
      var q :| RangeIs(w, v, q) && Trimmed(before + " (range " + q + ")", b);
    }
  }

  lemma BareOnce(w: World, v: Found, a: string, b: string)
    requires BareIs(w, v, a) && BareIs(w, v, b)
    ensures a == b
  {
    TextOnce(w, v.node, DisplayName);
    TextOnce(w, v.node, Description);
  }

  /** And as nothing else. */
  lemma MeansOnce(w: World, v: Found, o: Outcome, p: Outcome)
    requires Means(w, v, o) && Means(w, v, p)
    ensures o == p
  {
    if o.Traced? && p.Traced? {
      TracedAsOnce(w, v, o.d.datatype_, p.d.datatype_);
      DescriptionOnce(w, v, o.d.description, p.d.description);
    } else if o.Traced? {
      TracedNotLeft(w, v, o.d.datatype_, p.reason);
    } else if p.Traced? {
      TracedNotLeft(w, v, p.d.datatype_, o.reason);
    }
  }

  lemma TracedNotLeft(w: World, v: Found, name: string, reason: string)
    requires Suits(w, v) && TracedAs(w, v, name)
    ensures !LeftOut(w, v, reason)
  {}

  ghost predicate AllMean(w: World, found: seq<Found>, outcomes: seq<Outcome>) {
    |outcomes| == |found| && forall i :: 0 <= i < |found| ==> Means(w, found[i], outcomes[i])
  }

  lemma EachMeans(w: World, found: seq<Found>)
    ensures AllMean(w, found, DescribeEach(w, found))
  {
    forall i | 0 <= i < |found|
      ensures Means(w, found[i], DescribeEach(w, found)[i])
    {
      DescribedMeans(w, found[i]);
    }
  }

  /** The rows are those of the traced outcomes, in order; `at` says of which. */
  ghost predicate RowsAt(outcomes: seq<Outcome>, out: seq<Described>, at: seq<nat>) {
    && |at| == |out|
    && (forall k :: 0 <= k < |at| ==> at[k] < |outcomes| && outcomes[at[k]].Traced? && outcomes[at[k]].d == out[k])
    && (forall j, k :: 0 <= j < k < |at| ==> at[j] < at[k])
    && forall i: nat :: i < |outcomes| && outcomes[i].Traced? ==> i in at
  }

  lemma {:induction false} RowsInOrder(outcomes: seq<Outcome>) returns (at: seq<nat>)
    ensures RowsAt(outcomes, Rows(outcomes), at)
  {
    at := [];
    if outcomes != [] {
      var n := |outcomes| - 1;
      at := RowsInOrder(outcomes[..n]);
      RowsAtNext(outcomes[..n], Rows(outcomes[..n]), at, outcomes[n]);
      assert outcomes == outcomes[..n] + [outcomes[n]];
      if outcomes[n].Traced? {
        at := at + [n];
      } else {
        assert Rows(outcomes) == Rows(outcomes[..n]);
      }
    }
  }

  lemma RowsAtNext(outcomes: seq<Outcome>, out: seq<Described>, at: seq<nat>, o: Outcome)
    requires RowsAt(outcomes, out, at)
    ensures o.Traced? ==> RowsAt(outcomes + [o], out + [o.d], at + [|outcomes|])
    ensures !o.Traced? ==> RowsAt(outcomes + [o], out, at)
  {
    var all := outcomes + [o];
    assert all[|outcomes|] == o && forall i :: 0 <= i < |outcomes| ==> all[i] == outcomes[i];
    assert forall i :: i in at ==> i in at + [|outcomes|];
    assert (at + [|outcomes|])[|at|] == |outcomes|;
  }

  ghost function SkippedFor(outcomes: seq<Outcome>, reason: string): set<nat> {
    set i: nat | i < |outcomes| && outcomes[i] == Skipped(reason)
  }

  /** Each reason is counted once per outcome it skipped. */
  lemma {:induction false} ReasonsCounted(outcomes: seq<Outcome>, reason: string)
    ensures Reasons(outcomes)[reason] == |SkippedFor(outcomes, reason)|
  {
    if outcomes == [] {
      assert SkippedFor(outcomes, reason) == {};
    } else {
      ReasonsCounted(outcomes[..|outcomes| - 1], reason);
      SkippedNext(outcomes, reason);
    }
  }

  lemma SkippedNext(outcomes: seq<Outcome>, reason: string)
    requires outcomes != []
    ensures var n := |outcomes| - 1;
            |SkippedFor(outcomes, reason)| == |SkippedFor(outcomes[..n], reason)| + if outcomes[n] == Skipped(reason) then 1 else 0
  {
    var n := |outcomes| - 1;
    var before, all := SkippedFor(outcomes[..n], reason), SkippedFor(outcomes, reason);
    assert n !in before;
    assert all == if outcomes[n] == Skipped(reason) then before + {n} else before;
  }

  /** What describing comes to: one outcome per Variable, the rows, the count of each reason, and the nodes whose type
      may change. */
  ghost predicate Tells(w: World, found: seq<Found>, out: seq<Described>, skipped: multiset<string>, variant: set<NodeId>,
                        outcomes: seq<Outcome>, at: seq<nat>) {
    && AllMean(w, found, outcomes) && RowsAt(outcomes, out, at)
    && (forall reason :: skipped[reason] == |SkippedFor(outcomes, reason)|)
    && forall n :: n in variant <==> exists i :: 0 <= i < |outcomes| && outcomes[i].Traced? && outcomes[i].variant
                                                 && outcomes[i].d.variable.node == n
  }

  lemma Told(w: World, found: seq<Found>)
    ensures var all := DescribeEach(w, found);
            exists outcomes, at :: Tells(w, found, Rows(all), Reasons(all), Variants(all), outcomes, at)
  {
    var all := DescribeEach(w, found);
    EachMeans(w, found);
    var at := RowsInOrder(all);
    forall reason
      ensures Reasons(all)[reason] == |SkippedFor(all, reason)|
    {
      ReasonsCounted(all, reason);
    }
    assert Tells(w, found, Rows(all), Reasons(all), Variants(all), all, at);
  }

  // ------------------------------------------------------------ the batch

  function AttributeItems(found: seq<Found>): (r: seq<Item>)
    ensures |r| == 5 * |found|
    ensures forall i :: 0 <= i < |found| ==> r[5 * i..5 * i + 5] == ItemsOf(found[i])
  {
    if found == [] then [] else
      var n := |found| - 1;
      var before, last := AttributeItems(found[..n]), ItemsOf(found[n]);
      assert forall i :: 0 <= i < n ==> (before + last)[5 * i..5 * i + 5] == before[5 * i..5 * i + 5] == ItemsOf(found[i]);
      assert (before + last)[5 * n..5 * n + 5] == last;
      before + last
  }

  /** A property to read: whose, which of the two, and where. */
  datatype Prop = Prop(index: nat, range: bool, ref: NodeId)

  function RefOf(v: Found, range: bool): Option<NodeId> {
    if range then v.range else v.eu
  }

  function PropsOf(found: seq<Found>): (r: seq<Prop>)
    ensures forall p :: p in r <==> p.index < |found| && RefOf(found[p.index], p.range) == Some(p.ref)
  {
    if found == [] then [] else
      var n := |found| - 1;
      PropsOf(found[..n])
      + (if found[n].eu.Some? then [Prop(n, false, found[n].eu.value)] else [])
      + (if found[n].range.Some? then [Prop(n, true, found[n].range.value)] else [])
  }

  function PropertyItems(props: seq<Prop>): (r: seq<Item>)
    ensures |r| == |props| && forall k :: 0 <= k < |r| ==> r[k] == Item(props[k].ref, Value)
  {
    seq(|props|, k requires 0 <= k < |props| => Item(props[k].ref, Value))
  }

  function Attributes(w: World, v: Found): (r: seq<DataValue>)
    ensures |r| == 5
  {
    ReadEach(w.server, ItemsOf(v))
  }

  /** Why each Variable is set aside by its attributes, if it is. */
  function Whys(w: World, found: seq<Found>): (r: seq<Option<string>>)
    ensures |r| == |found| && forall i :: 0 <= i < |r| ==> r[i] == Unsuitable(Attributes(w, found[i]))
  {
    seq(|found|, i requires 0 <= i < |found| => Unsuitable(Attributes(w, found[i])))
  }

  /** The positions not set aside. */
  function Kept(whys: seq<Option<string>>): (r: seq<nat>)
    ensures forall k :: 0 <= k < |r| ==> r[k] < |whys| && whys[r[k]].None?
    ensures forall i: nat :: i < |whys| && whys[i].None? ==> i in r
  {
    if whys == [] then [] else
      var n := |whys| - 1;
      Kept(whys[..n]) + (if whys[n].None? then [n] else [])
  }

  function EarlyReasons(whys: seq<Option<string>>): multiset<string> {
    if whys == [] then multiset{} else
      var n := |whys| - 1;
      EarlyReasons(whys[..n]) + (if whys[n].Some? then multiset{whys[n].value} else multiset{})
  }

  /** The outcomes at some positions. */
  function Pick(all: seq<Outcome>, kept: seq<nat>): (r: seq<Outcome>)
    requires forall k :: 0 <= k < |kept| ==> kept[k] < |all|
    ensures |r| == |kept| && forall k :: 0 <= k < |r| ==> r[k] == all[kept[k]]
  {
    seq(|kept|, k requires 0 <= k < |kept| => all[kept[k]])
  }

  /** Setting the unsuitable ones aside first changes neither the rows, nor the skip counts, nor the variants. */
  lemma {:induction false} PickAll(whys: seq<Option<string>>, all: seq<Outcome>)
    requires |whys| == |all| && forall i :: 0 <= i < |all| ==> whys[i].Some? ==> all[i] == Skipped(whys[i].value)
    ensures SameTally(Pick(all, Kept(whys)), EarlyReasons(whys), all)
  {
    if whys == [] {
      assert Pick(all, Kept(whys)) == all;
    } else {
      var n := |whys| - 1;
      PickAll(whys[..n], all[..n]);
      PickLast(whys, all);
      var picked, early := Pick(all[..n], Kept(whys[..n])), EarlyReasons(whys[..n]);
      OneMore(picked, early, all[..n], all[n], all);
    }
  }

  /** The last outcome is counted with the rest, or set aside early. */
  lemma PickLast(whys: seq<Option<string>>, all: seq<Outcome>)
    requires 0 < |whys| == |all|
    ensures var n := |whys| - 1; var picked := Pick(all[..n], Kept(whys[..n]));
            && all == all[..n] + [all[n]]
            && Pick(all, Kept(whys)) == (if whys[n].None? then picked + [all[n]] else picked)
            && EarlyReasons(whys) ==
               EarlyReasons(whys[..n]) + (if whys[n].Some? then multiset{whys[n].value} else multiset{})
  {
    var n := |whys| - 1;
    assert all[..n] + [all[n]] == all;
  }

  ghost predicate SameTally(picked: seq<Outcome>, early: multiset<string>, all: seq<Outcome>) {
    && Rows(picked) == Rows(all)
    && early + Reasons(picked) == Reasons(all)
    && Variants(picked) == Variants(all)
  }

  /** Tallies that agree still do after one outcome more, counted with the rest or set aside early. */
  lemma OneMore(picked: seq<Outcome>, early: multiset<string>, before: seq<Outcome>, last: Outcome, all: seq<Outcome>)
    requires SameTally(picked, early, before) && all == before + [last]
    ensures SameTally(picked + [last], early, all)
    ensures last.Skipped? ==> SameTally(picked, early + multiset{last.reason}, all)
  {
    Appended(picked, last);
    Appended(before, last);
  }

  /** One outcome more. */
  lemma Appended(before: seq<Outcome>, o: Outcome)
    ensures var all := before + [o];
            && Rows(all) == Rows(before) + (if o.Traced? then [o.d] else [])
            && Reasons(all) == Reasons(before) + (if o.Skipped? then multiset{o.reason} else multiset{})
            && Variants(all) == Variants(before) + (if o.Traced? && o.variant then {o.d.variable.node} else {})
  {
    assert (before + [o])[..|before|] == before;
    VariantsSnoc(before, o);
  }

  lemma VariantsSnoc(outcomes: seq<Outcome>, last: Outcome)
    ensures Variants(outcomes + [last]) ==
            Variants(outcomes) + if last.Traced? && last.variant then {last.d.variable.node} else {}
  {
    var all := outcomes + [last];
    assert forall i :: 0 <= i < |outcomes| ==> all[i] == outcomes[i];
    assert all[|outcomes|] == last;
    forall x | x in Variants(outcomes)
      ensures x in Variants(all)
    {
      var i :| 0 <= i < |outcomes| && outcomes[i].Traced? && outcomes[i].variant && outcomes[i].d.variable.node == x;
      assert all[i].d.variable.node == x;
    }
  }

  /** With the vendor types of all kept Variables resolved at once, each is typed as by itself. */
  lemma SharedSubtypes(w: World, t: Option<NodeId>, vendor: set<NodeId>)
    requires forall v :: v in vendor ==> !BuiltinOrAbstract(v)
    requires t.Some? && !BuiltinOrAbstract(t.value) ==> t.value in vendor
    ensures Declared(t, Integers(w.types, vendor)) == Declared(t, OwnSubtypes(w, t))
  {}

  type Values = map<(nat, bool), Option<Content>>

  function Looked(values: Values, i: nat, range: bool): Option<Content> {
    if (i, range) in values then values[(i, range)] else None
  }

  /** The property values, keyed by Variable and which property. */
  method Properties(w: World, found: seq<Found>, props: seq<Prop>, dvs: seq<DataValue>) returns (values: Values)
    requires props == PropsOf(found) && dvs == ReadEach(w.server, PropertyItems(props))
    ensures forall i, range :: 0 <= i < |found| ==> Looked(values, i, range) == Property(w.server, RefOf(found[i], range))
  {
    values := map[];
    var k := 0;
    while k < |props|
      invariant 0 <= k <= |props|
      invariant forall i, range :: (i, range) in values ==>
                  i < |found| && values[(i, range)] == Property(w.server, RefOf(found[i], range))
      invariant forall j :: 0 <= j < k ==> (props[j].index, props[j].range) in values
    {
      assert props[k] in props;
      values := values[(props[k].index, props[k].range) := dvs[k].Held()];
      k := k + 1;
    }
    forall i, range | 0 <= i < |found| && RefOf(found[i], range).Some?
      ensures (i, range) in values
    {
      var p := Prop(i, range, RefOf(found[i], range).value);
      assert p in props;
      var j :| 0 <= j < |props| && props[j] == p;
    }
  }

  /** A Variable whose attributes suit, and those attributes. */
  datatype Candidate = Candidate(index: nat, attrs: seq<DataValue>)

  ghost predicate Candidates(w: World, found: seq<Found>, indices: seq<nat>, kept: seq<Candidate>) {
    && |kept| == |indices|
    && forall k :: 0 <= k < |kept| ==>
         kept[k].index == indices[k] && indices[k] < |found| && kept[k].attrs == Attributes(w, found[indices[k]])
  }

  /** The declared types that have to be resolved. */
  function Vendor(kept: seq<Candidate>): set<NodeId>
    requires forall k :: 0 <= k < |kept| ==> |kept[k].attrs| == 5
  {
    set k | 0 <= k < |kept| && DataTypeOf(kept[k].attrs).Some? && !BuiltinOrAbstract(DataTypeOf(kept[k].attrs).value) ::
      DataTypeOf(kept[k].attrs).value
  }

  /** Splits the Variables by their attributes. */
  method Suitable(w: World, found: seq<Found>, dvs: seq<DataValue>) returns (kept: seq<Candidate>, skipped: multiset<string>)
    requires |dvs| == 5 * |found| && forall i :: 0 <= i < |found| ==> dvs[5 * i..5 * i + 5] == Attributes(w, found[i])
    ensures Candidates(w, found, Kept(Whys(w, found)), kept) && skipped == EarlyReasons(Whys(w, found))
    ensures forall i: nat :: i < |found| ==> (Suits(w, found[i]) <==> exists k :: 0 <= k < |kept| && kept[k].index == i)
  {
    ghost var whys := Whys(w, found);
    kept, skipped := [], multiset{};
    var i := 0;
    while i < |found|
      invariant 0 <= i <= |found|
      invariant Candidates(w, found, Kept(whys[..i]), kept) && skipped == EarlyReasons(whys[..i])
    {
      kept, skipped := Sift(w, found, whys, i, dvs[5 * i..5 * i + 5], kept, skipped);
      i := i + 1;
    }
    assert whys[..i] == whys;
    AllSuitable(w, found, kept);
  }

  /** The candidates are the Variables that suit. */
  lemma AllSuitable(w: World, found: seq<Found>, kept: seq<Candidate>)
    requires Candidates(w, found, Kept(Whys(w, found)), kept)
    ensures forall i: nat :: i < |found| ==> (Suits(w, found[i]) <==> exists k :: 0 <= k < |kept| && kept[k].index == i)
  {
    var whys := Whys(w, found);
    forall i: nat | i < |found|
      ensures Suits(w, found[i]) <==> exists k :: 0 <= k < |kept| && kept[k].index == i
    {
      UnsuitableMeans(w, found[i]);
      if whys[i].None? {
        assert i in Kept(whys);
        var k :| 0 <= k < |Kept(whys)| && Kept(whys)[k] == i;
        assert kept[k].index == i;
      }
    }
  }

  method Sift(w: World, found: seq<Found>, ghost whys: seq<Option<string>>, i: nat, attrs: seq<DataValue>,
              kept0: seq<Candidate>, skipped0: multiset<string>) returns (kept: seq<Candidate>, skipped: multiset<string>)
    requires i < |found| == |whys| && attrs == Attributes(w, found[i]) && whys[i] == Unsuitable(attrs)
    requires Candidates(w, found, Kept(whys[..i]), kept0) && skipped0 == EarlyReasons(whys[..i])
    ensures Candidates(w, found, Kept(whys[..i + 1]), kept) && skipped == EarlyReasons(whys[..i + 1])
  {
    assert whys[..i + 1][..i] == whys[..i];
    kept, skipped := kept0, skipped0;
    var why := Unsuitable(attrs);
    if why.Some? {
      skipped := skipped + multiset{why.value};
    } else {
      kept := kept + [Candidate(i, attrs)];
    }
  }

  /** The values to read: one per Variable whose type is left open, in order. */
  function ValueItems(found: seq<Found>, kept: seq<Candidate>, subtypes: map<NodeId, string>): seq<Item>
    requires forall k :: 0 <= k < |kept| ==> kept[k].index < |found| && |kept[k].attrs| == 5
  {
    if kept == [] then [] else
      var n := |kept| - 1;
      ValueItems(found, kept[..n], subtypes)
      + (if NeedsValue(kept[n].attrs, subtypes) then [Item(found[kept[n].index].node, Value)] else [])
  }

  lemma {:induction false} ValueItemsPrefix(found: seq<Found>, kept: seq<Candidate>, subtypes: map<NodeId, string>, k: nat)
    requires forall k :: 0 <= k < |kept| ==> kept[k].index < |found| && |kept[k].attrs| == 5
    requires k <= |kept|
    ensures ValueItems(found, kept[..k], subtypes) <= ValueItems(found, kept, subtypes)
  {
    var n := |kept| - 1;
    if k < |kept| {
      ValueItemsPrefix(found, kept[..n], subtypes, k);
      assert kept[..n][..k] == kept[..k];
      var before := ValueItems(found, kept[..n], subtypes);
      assert ValueItems(found, kept, subtypes)[..|before|] == before;
    } else {
      assert kept[..k] == kept;
    }
  }

  /** What typing a candidate needs: its property values as they are, its vendor type among those resolved. */
  ghost predicate Prepared(w: World, found: seq<Found>, props: Values, vendor: set<NodeId>, subtypes: map<NodeId, string>,
                           c: Candidate) {
    && c.index < |found| && c.attrs == Attributes(w, found[c.index]) && Unsuitable(c.attrs).None?
    && (forall range :: Looked(props, c.index, range) == Property(w.server, RefOf(found[c.index], range)))
    && subtypes == Integers(w.types, vendor) && (forall v :: v in vendor ==> !BuiltinOrAbstract(v))
    && var t := DataTypeOf(c.attrs); t.Some? && !BuiltinOrAbstract(t.value) ==> t.value in vendor
  }

  /** Subtypes that declare a type alike need its value alike and give it the same row. */
  lemma SameRow(v: Found, attrs: seq<DataValue>, eu: Option<Content>, range: Option<Content>, dv: Option<DataValue>,
                a: map<NodeId, string>, b: map<NodeId, string>)
    requires |attrs| == 5 && Declared(DataTypeOf(attrs), a) == Declared(DataTypeOf(attrs), b)
    ensures NeedsValue(attrs, a) == NeedsValue(attrs, b)
    ensures Row(v, attrs, eu, range, dv, a) == Row(v, attrs, eu, range, dv, b)
  {}

  lemma TypedAlone(w: World, found: seq<Found>, props: Values, vendor: set<NodeId>, subtypes: map<NodeId, string>, c: Candidate)
    requires Prepared(w, found, props, vendor, subtypes, c)
    ensures var v := found[c.index];
            var dv := if NeedsValue(c.attrs, subtypes) then Some(ReadOne(w.server, Item(v.node, Value))) else None;
            Row(v, c.attrs, Looked(props, c.index, false), Looked(props, c.index, true), dv, subtypes) == DescribeOne(w, v)
  {
    var v, t := found[c.index], DataTypeOf(c.attrs);
    var own := OwnSubtypes(w, t);
    var dv := if NeedsValue(c.attrs, own) then Some(ReadOne(w.server, Item(v.node, Value))) else None;
    SharedSubtypes(w, t, vendor);
    SameRow(v, c.attrs, Property(w.server, v.eu), Property(w.server, v.range), dv, own, subtypes);
    assert Looked(props, c.index, false) == Property(w.server, v.eu);
    assert Looked(props, c.index, true) == Property(w.server, v.range);
  }

  /** The next candidate's value is the next one read. */
  lemma NextValue(w: World, found: seq<Found>, kept: seq<Candidate>, subtypes: map<NodeId, string>, values: seq<DataValue>, k: nat)
    requires forall k :: 0 <= k < |kept| ==> kept[k].index < |found| && |kept[k].attrs| == 5
    requires values == ReadEach(w.server, ValueItems(found, kept, subtypes)) && k < |kept|
    ensures var v := |ValueItems(found, kept[..k], subtypes)|; var c := kept[k];
            && |ValueItems(found, kept[..k + 1], subtypes)| == v + (if NeedsValue(c.attrs, subtypes) then 1 else 0)
            && (NeedsValue(c.attrs, subtypes) ==>
                  v < |values| && values[v] == ReadOne(w.server, Item(found[c.index].node, Value)))
  {
    ValueItemsPrefix(found, kept, subtypes, k + 1);
    assert kept[..k + 1][..k] == kept[..k];
    var before, items := ValueItems(found, kept[..k], subtypes), ValueItems(found, kept, subtypes);
    var own: seq<Item> := if NeedsValue(kept[k].attrs, subtypes) then [Item(found[kept[k].index].node, Value)] else [];
    assert ValueItems(found, kept[..k + 1], subtypes) == before + own;
    assert before + own == items[..|before| + |own|];
    assert own != [] ==> items[..|before| + |own|][|before|] == own[0];
  }

  ghost function Outcomes(w: World, found: seq<Found>, kept: seq<Candidate>): (r: seq<Outcome>)
    requires forall k :: 0 <= k < |kept| ==> kept[k].index < |found|
    ensures |r| == |kept| && forall k :: 0 <= k < |r| ==> r[k] == DescribeOne(w, found[kept[k].index])
  {
    seq(|kept|, k requires 0 <= k < |kept| => DescribeOne(w, found[kept[k].index]))
  }

  lemma OutcomesSnoc(w: World, found: seq<Found>, kept: seq<Candidate>, k: nat)
    requires k < |kept| && forall k :: 0 <= k < |kept| ==> kept[k].index < |found|
    ensures Outcomes(w, found, kept[..k + 1]) == Outcomes(w, found, kept[..k]) + [DescribeOne(w, found[kept[k].index])]
  {}

  /** Rows, skip counts and variants of the outcomes so far, on top of the early skips. */
  datatype Tally = Tally(out: seq<Described>, skipped: multiset<string>, variant: set<NodeId>)

  ghost function Tallied(outcomes: seq<Outcome>, early: multiset<string>): Tally {
    Tally(Rows(outcomes), early + Reasons(outcomes), Variants(outcomes))
  }

  method Count(t: Tally, o: Outcome, ghost before: seq<Outcome>, ghost early: multiset<string>) returns (r: Tally)
    requires t == Tallied(before, early)
    ensures r == Tallied(before + [o], early)
  {
    Appended(before, o);
    if o.Skipped? {
      r := t.(skipped := t.skipped + multiset{o.reason});
    } else {
      r := t.(out := t.out + [o.d], variant := if o.variant then t.variant + {o.d.variable.node} else t.variant);
    }
  }

  /** Types each candidate, taking the next value read wherever one was. */
  method TypeAll(w: World, found: seq<Found>, kept: seq<Candidate>, props: Values, ghost vendor: set<NodeId>,
                 subtypes: map<NodeId, string>, early: multiset<string>, chunk: nat)
    returns (t: Tally)
    requires chunk > 0 && forall k :: 0 <= k < |kept| ==> Prepared(w, found, props, vendor, subtypes, kept[k])
    requires forall k :: 0 <= k < |kept| ==> kept[k].index < |found| && |kept[k].attrs| == 5
    ensures t == Tallied(Outcomes(w, found, kept), early)
  {
    var values := ReadMany(w.server, ValueItems(found, kept, subtypes), chunk);
    t := Tally([], early, {});
    var k, v := 0, 0;
    while k < |kept|
      invariant 0 <= k <= |kept|
      invariant v == |ValueItems(found, kept[..k], subtypes)|
      invariant t == Tallied(Outcomes(w, found, kept[..k]), early)
    {
      t, v := TypeNext(w, found, kept, props, vendor, subtypes, values, k, v, t, early);
      k := k + 1;
    }
    assert kept[..k] == kept;
  }

  /** One candidate more typed and counted. */
  method TypeNext(w: World, found: seq<Found>, kept: seq<Candidate>, props: Values, ghost vendor: set<NodeId>,
                  subtypes: map<NodeId, string>, values: seq<DataValue>, k: nat, v: nat, t: Tally,
                  ghost early: multiset<string>)
    returns (counted: Tally, next: nat)
    requires forall k :: 0 <= k < |kept| ==> kept[k].index < |found| && |kept[k].attrs| == 5
    requires k < |kept| && Prepared(w, found, props, vendor, subtypes, kept[k])
    requires values == ReadEach(w.server, ValueItems(found, kept, subtypes))
    requires v == |ValueItems(found, kept[..k], subtypes)| && t == Tallied(Outcomes(w, found, kept[..k]), early)
    ensures next == |ValueItems(found, kept[..k + 1], subtypes)|
    ensures counted == Tallied(Outcomes(w, found, kept[..k + 1]), early)
  {
    NextValue(w, found, kept, subtypes, values, k);
    var outcome;
    outcome, next := TypeOne(w, found, kept[k], props, vendor, subtypes, values, v);
    OutcomesSnoc(w, found, kept, k);
    counted := Count(t, outcome, Outcomes(w, found, kept[..k]), early);
  }

  method TypeOne(w: World, found: seq<Found>, c: Candidate, props: Values, ghost vendor: set<NodeId>,
                 subtypes: map<NodeId, string>, values: seq<DataValue>, v: nat)
    returns (outcome: Outcome, next: nat)
    requires Prepared(w, found, props, vendor, subtypes, c)
    requires NeedsValue(c.attrs, subtypes) ==>
               v < |values| && values[v] == ReadOne(w.server, Item(found[c.index].node, Value))
    ensures outcome == DescribeOne(w, found[c.index])
    ensures next == v + (if NeedsValue(c.attrs, subtypes) then 1 else 0)
  {
    var dv := None;
    next := v;
    if NeedsValue(c.attrs, subtypes) {
      dv := Some(values[v]);
      next := v + 1;
    }
    outcome := Row(found[c.index], c.attrs, Looked(props, c.index, false), Looked(props, c.index, true), dv, subtypes);
    TypedAlone(w, found, props, vendor, subtypes, c);
  }

  lemma {:induction false} AttributesRead(w: World, found: seq<Found>, attrs: seq<DataValue>)
    requires attrs == ReadEach(w.server, AttributeItems(found))
    ensures forall i :: 0 <= i < |found| ==> attrs[5 * i..5 * i + 5] == Attributes(w, found[i])
  {
    forall i | 0 <= i < |found|
      ensures attrs[5 * i..5 * i + 5] == Attributes(w, found[i])
    {
      assert AttributeItems(found)[5 * i..5 * i + 5] == ItemsOf(found[i]);
    }
  }

  /** The attributes and the property values of all Variables, from one batch of reads. */
  method ReadAbout(w: World, found: seq<Found>, chunk: nat) returns (attrs: seq<DataValue>, values: Values)
    requires chunk > 0
    ensures |attrs| == 5 * |found| && forall i :: 0 <= i < |found| ==> attrs[5 * i..5 * i + 5] == Attributes(w, found[i])
    ensures forall i, range :: 0 <= i < |found| ==> Looked(values, i, range) == Property(w.server, RefOf(found[i], range))
  {
    var props := PropsOf(found);
    var a, b := AttributeItems(found), PropertyItems(props);
    var dvs := ReadMany(w.server, a + b, chunk);
    attrs := dvs[..|a|];
    AttributesRead(w, found, attrs);
    values := Properties(w, found, props, dvs[|a|..]);
  }

  /** The candidates typed, their vendor types resolved at once. */
  method TypeKept(w: World, found: seq<Found>, kept: seq<Candidate>, values: Values, early: multiset<string>,
                  chunk: nat, browseChunk: nat)
    returns (t: Tally)
    requires chunk > 0 && browseChunk > 0
    requires Candidates(w, found, Kept(Whys(w, found)), kept)
    requires forall i, range :: 0 <= i < |found| ==> Looked(values, i, range) == Property(w.server, RefOf(found[i], range))
    ensures t == Tallied(Outcomes(w, found, kept), early)
  {
    var vendor := Vendor(kept);
    var subtypes := IntegerSubtypes(w.types, vendor, browseChunk);
    t := TypeAll(w, found, kept, values, vendor, subtypes, early, chunk);
  }

  /** The candidates' outcomes and the early skips tally as all outcomes do. */
  lemma KeptTally(w: World, found: seq<Found>, kept: seq<Candidate>)
    requires Candidates(w, found, Kept(Whys(w, found)), kept)
    ensures Tallied(Outcomes(w, found, kept), EarlyReasons(Whys(w, found))) == Tallied(DescribeEach(w, found), multiset{})
  {
    PickAll(Whys(w, found), DescribeEach(w, found));
    assert Outcomes(w, found, kept) == Pick(DescribeEach(w, found), Kept(Whys(w, found)));
  }

  /** Every Variable described from four batches of reads: attributes, properties, type hierarchy, and the values
      left open. Each comes out as if described alone; described and skipped add up to what was found. */
  method Describe(w: World, found: seq<Found>, chunk: nat, browseChunk: nat)
    returns (out: seq<Described>, skipped: multiset<string>, variant: set<NodeId>)
    requires chunk > 0 && browseChunk > 0
    ensures out == Rows(DescribeEach(w, found))
    ensures skipped == Reasons(DescribeEach(w, found))
    ensures variant == Variants(DescribeEach(w, found))
    ensures |out| + |skipped| == |found|
    ensures exists outcomes, at :: Tells(w, found, out, skipped, variant, outcomes, at)
  {
    EachCounted(DescribeEach(w, found));
    var attrs, values := ReadAbout(w, found, chunk);
    var kept;
    kept, skipped := Suitable(w, found, attrs);
    KeptTally(w, found, kept);
    var t := TypeKept(w, found, kept, values, skipped, chunk, browseChunk);
    Told(w, found);
    out, skipped, variant := t.out, t.skipped, t.variant;
  }
}
