/**
 Node id strings: printed with the namespace's URI, parsed back, and resolved against a NamespaceArray whose
 order may have changed.
 */
module NodeIds {
  import opened Services

  datatype Identifier = Num(n: nat) | Str(s: string) | Guid(g: nat) | Opaque(bytes: seq<nat>)

  datatype NodeId = NodeId(ns: nat, id: Identifier)

  datatype Namespace = Index(n: nat) | Uri(uri: string)

  datatype Parsed = Parsed(ns: Namespace, id: Identifier)

  /** The library's GUID and base64 text forms. */
  datatype Codec = Codec(guidText: nat -> string, guidOf: string -> Option<nat>,
                         bytesText: seq<nat> -> string, bytesOf: string -> Option<seq<nat>>)

  /** Text forms that read back; only the empty opaque has an empty one. */
  ghost predicate Lossless(c: Codec) {
    && (forall g: nat :: c.guidOf(c.guidText(g)) == Some(g) && c.guidText(g) != "" && '\n' !in c.guidText(g))
    && (forall b: seq<nat> :: c.bytesOf(c.bytesText(b)) == Some(b) && (c.bytesText(b) == "" <==> b == []) && '\n' !in c.bytesText(b))
  }

  // ------------------------------------------------------------ numbers

  predicate IsDigit(c: char) {
    '0' <= c <= '9'
  }

  function Digits(n: nat): (s: string)
    ensures s != "" && forall i :: 0 <= i < |s| ==> IsDigit(s[i])
  {
    if n < 10 then [('0' as int + n) as char] else Digits(n / 10) + [('0' as int + n % 10) as char]
  }

  /** A run of decimal digits, leading zeros allowed. */
  function Number(s: string): Option<nat> {
    if s == "" then None
    else
      var k := |s| - 1;
      if !IsDigit(s[k]) then None
      else
        var low := s[k] as int - '0' as int;
        if k == 0 then Some(low)
        else
          var high := Number(s[..k]);
          if high.None? then None else Some(10 * high.value + low)
  }

  lemma {:induction false} NumberOfDigits(n: nat)
    ensures Number(Digits(n)) == Some(n)
  {
    if n >= 10 {
      NumberOfDigits(n / 10);
      var s := Digits(n);
      assert s[..|s| - 1] == Digits(n / 10);
    }
  }

  // ------------------------------------------------------------ percent escapes

  /** '%' and ';' escaped. */
  function Quote(u: string): string {
    if u == "" then "" else
      (if u[0] == '%' then "%25" else if u[0] == ';' then "%3B" else [u[0]]) + Quote(u[1..])
  }

  function HexDigit(c: char): Option<nat> {
    if '0' <= c <= '9' then Some(c as int - '0' as int)
    else if 'a' <= c <= 'f' then Some(c as int - 'a' as int + 10)
    else if 'A' <= c <= 'F' then Some(c as int - 'A' as int + 10)
    else None
  }

  /** The escapes undone; what is no escape stays. */
  function Unquote(s: string): string {
    if s == "" then "" else
      if s[0] == '%' && |s| >= 3 && HexDigit(s[1]).Some? && HexDigit(s[2]).Some?
      then [(16 * HexDigit(s[1]).value + HexDigit(s[2]).value) as char] + Unquote(s[3..])
      else [s[0]] + Unquote(s[1..])
  }

  /** Escapes are undone in either case; all else stays. */
  lemma {:induction false} UnquoteMeans(s: string, t: string)
    ensures Unquote("%3B" + t) == ";" + Unquote(t) && Unquote("%3b" + t) == ";" + Unquote(t) && Unquote("%25" + t) == "%" + Unquote(t)
    ensures '%' !in s ==> Unquote(s) == s
  {
    assert ("%3B" + t)[3..] == t && ("%3b" + t)[3..] == t && ("%25" + t)[3..] == t;
    if s != "" {
      UnquoteMeans(s[1..], t);
    }
  }

  lemma {:induction false} UnquoteQuote(u: string)
    ensures Unquote(Quote(u)) == u
  {
    if u != "" {
      UnquoteQuote(u[1..]);
      var q, rest := Quote(u), Quote(u[1..]);
      if u[0] == '%' || u[0] == ';' {
        assert q[3..] == rest;
      } else {
        assert q[1..] == rest;
      }
    }
  }

  lemma {:induction false} QuoteClean(u: string)
    ensures ';' !in Quote(u) && (Quote(u) == "" <==> u == "")
  {
    if u != "" {
      QuoteClean(u[1..]);
    }
  }

  // ------------------------------------------------------------ printing

  function Bare(id: Identifier, c: Codec): string {
    match id
    case Num(n) => "i=" + Digits(n)
    case Str(s) => "s=" + s
    case Guid(g) => "g=" + c.guidText(g)
    case Opaque(b) => "b=" + c.bytesText(b)
  }

  function FormatNsu(uri: string, identifier: string): string {
    "nsu=" + Quote(uri) + ";" + identifier
  }

  /** The URI-qualified form, nothing if the index is not in the NamespaceArray. */
  function ToNsuString(node: NodeId, namespaces: seq<string>, c: Codec): Option<string> {
    if node.ns >= |namespaces| then None else Some(FormatNsu(namespaces[node.ns], Bare(node.id, c)))
  }

  /** By URI for a server namespace, by index for namespace 0 and for an index beyond the array. */
  function NodeIdString(node: NodeId, namespaces: seq<string>, c: Codec): string {
    var nsu := ToNsuString(node, namespaces, c);
    if node.ns != 0 && nsu.Some? then nsu.value else "ns=" + Digits(node.ns) + ";" + Bare(node.id, c)
  }

  // ------------------------------------------------------------ parsing

  /** Where `ch` first is, past the end if nowhere. */
  function Find(s: string, ch: char): (k: nat)
    ensures k <= |s| && (k < |s| ==> s[k] == ch) && forall i :: 0 <= i < k ==> s[i] != ch
  {
    if s == "" || s[0] == ch then 0 else
      assert forall i :: 0 < i < |s| ==> s[i] == s[1..][i - 1];
      1 + Find(s[1..], ch)
  }

  /** The rest of one line: not empty, at most one newline and that at the end, which is dropped. */
  function Line(s: string): Option<string> {
    var body := if s != "" && s[|s| - 1] == '\n' then s[..|s| - 1] else s;
    if body == "" || '\n' in body then None else Some(body)
  }

  function ParseIdentifier(s: string, c: Codec): Option<Identifier> {
    if |s| < 2 || s[1] != '=' then None else
      var raw := Line(s[2..]);
      if raw.None? then None
      else if s[0] == 's' then Some(Str(raw.value))
      else if s[0] == 'i' then
        var n := Number(raw.value);
        if n.None? then None else Some(Num(n.value))
      else if s[0] == 'g' then
        var g := c.guidOf(raw.value);
        if g.None? then None else Some(Guid(g.value))
      else if s[0] == 'b' then
        var b := c.bytesOf(raw.value);
        if b.None? then None else Some(Opaque(b.value))
      else None
  }

  /** `ns=<digits>;` or `nsu=<escaped URI>;`, then the identifier. */
  function Parse(s: string, c: Codec): Option<Parsed> {
    if "ns=" <= s then ParseRest(s[3..], false, c)
    else if "nsu=" <= s then ParseRest(s[4..], true, c)
    else None
  }

  function ParseRest(s: string, byUri: bool, c: Codec): Option<Parsed> {
    var k := Find(s, ';');
    if k == |s| then None else
      var ns, id := ParseNamespace(s[..k], byUri), ParseIdentifier(s[k + 1..], c);
      if ns.None? || id.None? then None else Some(Parsed(ns.value, id.value))
  }

  function ParseNamespace(s: string, byUri: bool): Option<Namespace> {
    if !byUri then
      var n := Number(s);
      if n.None? then None else Some(Index(n.value))
    else if s == "" then None else Some(Uri(Unquote(s)))
  }

  function IndexOf(namespaces: seq<string>, uri: string): (k: nat)
    ensures k <= |namespaces| && (k < |namespaces| ==> namespaces[k] == uri) && forall i :: 0 <= i < k ==> namespaces[i] != uri
  {
    if namespaces == [] || namespaces[0] == uri then 0 else
      assert forall i :: 0 < i < |namespaces| ==> namespaces[i] == namespaces[1..][i - 1];
      1 + IndexOf(namespaces[1..], uri)
  }

  /** Against this session's NamespaceArray; nothing if malformed or the URI is not in it. */
  function Resolve(s: string, namespaces: seq<string>, c: Codec): Option<NodeId> {
    var p := Parse(s, c);
    if p.None? then None
    else if p.value.ns.Index? then Some(NodeId(p.value.ns.n, p.value.id))
    else
      var k := IndexOf(namespaces, p.value.ns.uri);
      if k == |namespaces| then None else Some(NodeId(k, p.value.id))
  }

  // ------------------------------------------------------------ the forms written and read

  /** `ns=` and the index for namespace 0 or an index with no URI, `nsu=` and the escaped URI for another. */
  lemma Written(id: Identifier, c: Codec)
    ensures NodeIdString(NodeId(0, id), ["u"], c) == "ns=0;" + Bare(id, c)
    ensures NodeIdString(NodeId(7, id), ["u"], c) == "ns=7;" + Bare(id, c)
    ensures NodeIdString(NodeId(1, id), ["u", "a%;b"], c) == "nsu=a%25%3Bb;" + Bare(id, c)
  {
    assert Digits(0) == "0" && Digits(7) == "7";
  }

  /** The identifier by its kind. */
  lemma WrittenIdentifiers(s: string, g: nat, bytes: seq<nat>, c: Codec)
    ensures Bare(Num(85), c) == "i=85" && Bare(Str(s), c) == "s=" + s
    ensures Bare(Guid(g), c) == "g=" + c.guidText(g) && Bare(Opaque(bytes), c) == "b=" + c.bytesText(bytes)
  {
    assert Digits(8) == "8";
    assert Digits(85) == Digits(8) + "5";
  }

  /** What is read: either form up to the first ';', an index in digits or a URI of at least one character, then an
      identifier. */
  lemma ParseIff(s: string, c: Codec, p: Parsed)
    ensures Parse(s, c) == Some(p) <==> exists head, tail :: Splits(s, c, p, head, tail)
  {
    if Parse(s, c) == Some(p) {
      ParseSplits(s, c, p);
    }
    if head, tail :| Splits(s, c, p, head, tail) {
      SplitParses(s, c, p, head, tail);
    }
  }

  ghost predicate Splits(s: string, c: Codec, p: Parsed, head: string, tail: string) {
    && s == SpaceText(p.ns) + (head + ";" + tail) && ';' !in head
    && Reads(head, p.ns) && ParseIdentifier(tail, c) == Some(p.id)
  }

  lemma ParseSplits(s: string, c: Codec, p: Parsed)
    requires Parse(s, c) == Some(p)
    ensures exists head, tail :: Splits(s, c, p, head, tail)
  {
    var start := SpaceText(p.ns);
    assert s == start + s[|start|..];
    var head, tail := RestSplits(s[|start|..], p.ns.Uri?, c, p);
    assert Splits(s, c, p, head, tail);
  }

  lemma RestSplits(s: string, byUri: bool, c: Codec, p: Parsed) returns (head: string, tail: string)
    requires ParseRest(s, byUri, c) == Some(p)
    ensures s == head + ";" + tail && ';' !in head
    ensures byUri == p.ns.Uri? && Reads(head, p.ns) && ParseIdentifier(tail, c) == Some(p.id)
  {
    var k := Find(s, ';');
    head, tail := s[..k], s[k + 1..];
  }

  lemma SplitParses(s: string, c: Codec, p: Parsed, head: string, tail: string)
    requires Splits(s, c, p, head, tail)
    ensures Parse(s, c) == Some(p)
  {
    var rest := head + ";" + tail;
    if p.ns.Index? {
      ParseNs(rest, c);
    } else {
      ParseNsu(rest, c);
    }
    RestParses(head, tail, p.ns.Uri?, c);
  }

  lemma ParseNs(rest: string, c: Codec)
    ensures Parse("ns=" + rest, c) == ParseRest(rest, false, c)
  {
    assert ("ns=" + rest)[3..] == rest;
  }

  lemma ParseNsu(rest: string, c: Codec)
    ensures Parse("nsu=" + rest, c) == ParseRest(rest, true, c)
  {
    assert ("nsu=" + rest)[4..] == rest && ("nsu=" + rest)[2] == 'u';
  }

  lemma RestParses(head: string, tail: string, byUri: bool, c: Codec)
    requires ';' !in head
    ensures ParseRest(head + ";" + tail, byUri, c) ==
            var ns, id := ParseNamespace(head, byUri), ParseIdentifier(tail, c);
            if ns.None? || id.None? then None else Some(Parsed(ns.value, id.value))
  {
    SplitAt(head, tail);
  }

  function SpaceText(ns: Namespace): string {
    if ns.Index? then "ns=" else "nsu="
  }

  predicate Reads(head: string, ns: Namespace) {
    match ns
    case Index(n) => Number(head) == Some(n)
    case Uri(uri) => head != "" && Unquote(head) == uri
  }

  /** One line of text, its end dropped if it is there. */
  lemma LineIff(s: string, t: string)
    ensures Line(s) == Some(t) <==> (s == t || s == t + "\n") && t != "" && '\n' !in t
  {
    if s != "" && s[|s| - 1] == '\n' {
      assert s == s[..|s| - 1] + "\n";
      assert s == t ==> t[|t| - 1] == '\n';
    }
    if s == t + "\n" {
      assert s[..|s| - 1] == t;
    }
  }

  /** An identifier is a letter for its kind, '=', and a line of text that kind reads. */
  lemma IdentifierIff(s: string, c: Codec, id: Identifier)
    ensures ParseIdentifier(s, c) == Some(id) <==>
              |s| >= 2 && s[1] == '=' && exists t :: Line(s[2..]) == Some(t) && KindReads(s[0], t, id, c)
  {}

  predicate KindReads(kind: char, t: string, id: Identifier, c: Codec) {
    match id
    case Num(n) => kind == 'i' && Number(t) == Some(n)
    case Str(text) => kind == 's' && t == text
    case Guid(g) => kind == 'g' && c.guidOf(t) == Some(g)
    case Opaque(bytes) => kind == 'b' && c.bytesOf(t) == Some(bytes)
  }

  /** A number is a run of decimal digits. */
  lemma {:induction false} NumberIff(s: string)
    ensures Number(s).Some? <==> s != "" && forall i :: 0 <= i < |s| ==> IsDigit(s[i])
  {
    if s != "" {
      var k := |s| - 1;
      assert forall i :: 0 <= i < k ==> s[..k][i] == s[i];
      if k > 0 {
        NumberIff(s[..k]);
      }
    }
  }

  /** The last is worth one, each before it ten times the one after. */
  lemma NumberMeans(s: string, d: char)
    requires IsDigit(d)
    ensures Number([d]) == Some(d as int - '0' as int)
    ensures Number(s).Some? ==> Number(s + [d]) == Some(10 * Number(s).value + (d as int - '0' as int))
  {
    assert (s + [d])[..|s + [d]| - 1] == s;
  }

  // ------------------------------------------------------------ round trips

  /** One line of text: what a string identifier must be to be read back, and an opaque one not empty. */
  predicate OneLine(id: Identifier) {
    match id
    case Str(s) => s != "" && '\n' !in s
    case Opaque(b) => b != []
    case _ => true
  }

  lemma IdentifierRoundTripIff(id: Identifier, c: Codec)
    requires Lossless(c)
    ensures ParseIdentifier(Bare(id, c), c) == Some(id) <==> OneLine(id)
  {
    var s := Bare(id, c);
    match id {
      case Num(n) =>
        NumberOfDigits(n);
        assert s[2..] == Digits(n);
        var d := Digits(n);
        assert forall i :: 0 <= i < |d| ==> IsDigit(d[i]);
        assert '\n' !in d;
      case Str(t) => assert s[2..] == t;
      case Guid(g) => assert s[2..] == c.guidText(g);
      case Opaque(b) => assert s[2..] == c.bytesText(b);
    }
  }

  /** A split at the first ';'. */
  lemma SplitAt(head: string, tail: string)
    requires ';' !in head
    ensures var s := head + ";" + tail; Find(s, ';') == |head| && s[..|head|] == head && s[|head| + 1..] == tail
  {
    var s := head + ";" + tail;
    assert s[|head|] == ';';
    assert forall i :: 0 <= i < |head| ==> s[i] == head[i] && head[i] in head;
  }

  lemma NsuParsed(uri: string, id: Identifier, c: Codec)
    ensures Parse(FormatNsu(uri, Bare(id, c)), c) ==
            var r := ParseIdentifier(Bare(id, c), c); if uri == "" || r.None? then None else Some(Parsed(Uri(uri), r.value))
  {
    var bare := Bare(id, c);
    assert FormatNsu(uri, bare) == "nsu=" + (Quote(uri) + ";" + bare);
    ParseNsu(Quote(uri) + ";" + bare, c);
    QuoteClean(uri);
    UnquoteQuote(uri);
    RestParses(Quote(uri), bare, true, c);
  }

  lemma NsParsed(n: nat, id: Identifier, c: Codec)
    ensures Parse("ns=" + Digits(n) + ";" + Bare(id, c), c) ==
            var r := ParseIdentifier(Bare(id, c), c); if r.None? then None else Some(Parsed(Index(n), r.value))
  {
    var bare, d := Bare(id, c), Digits(n);
    assert "ns=" + d + ";" + bare == "ns=" + (d + ";" + bare);
    ParseNs(d + ";" + bare, c);
    NumberOfDigits(n);
    assert ';' !in d;
    RestParses(d, bare, false, c);
  }

  /** A printed id reads back as the same URI and identifier exactly when the URI is not empty and the
      identifier is one line, whatever escapes or separators the URI holds. */
  lemma NsuRoundTripIff(uri: string, id: Identifier, c: Codec)
    requires Lossless(c)
    ensures Parse(FormatNsu(uri, Bare(id, c)), c) == Some(Parsed(Uri(uri), id)) <==> uri != "" && OneLine(id)
  {
    NsuParsed(uri, id, c);
    IdentifierRoundTripIff(id, c);
  }

  /** Where a printed id leads in another session: a server namespace to wherever its URI is now, if anywhere;
      the rest to the same index. */
  function Meant(node: NodeId, was: seq<string>, now: seq<string>): Option<NodeId> {
    if node.ns == 0 || node.ns >= |was| then Some(node)
    else
      var k := IndexOf(now, was[node.ns]);
      if k == |now| then None else Some(node.(ns := k))
  }

  /** A printed id of a server namespace leads to the first index of its URI. */
  lemma ByUri(node: NodeId, was: seq<string>, now: seq<string>, c: Codec)
    requires 0 < node.ns < |was|
    ensures var r, k := ParseIdentifier(Bare(node.id, c), c), IndexOf(now, was[node.ns]);
            Resolve(NodeIdString(node, was, c), now, c) ==
            if was[node.ns] == "" || r.None? || k == |now| then None else Some(NodeId(k, r.value))
  {
    NsuParsed(was[node.ns], node.id, c);
  }

  /** The rest to their own. */
  lemma ByIndex(node: NodeId, was: seq<string>, now: seq<string>, c: Codec)
    requires node.ns == 0 || node.ns >= |was|
    ensures var r := ParseIdentifier(Bare(node.id, c), c);
            Resolve(NodeIdString(node, was, c), now, c) == if r.None? then None else Some(NodeId(node.ns, r.value))
  {
    NsParsed(node.ns, node.id, c);
  }

  /** Against a NamespaceArray in any order: the same URI and identifier at the index the URI has now. */
  lemma Reordered(node: NodeId, was: seq<string>, now: seq<string>, c: Codec)
    requires Lossless(c) && OneLine(node.id)
    requires 0 < node.ns < |was| ==> was[node.ns] != ""
    ensures Resolve(NodeIdString(node, was, c), now, c) == Meant(node, was, now)
  {
    if 0 < node.ns < |was| {
      ByUri(node, was, now, c);
    } else {
      ByIndex(node, was, now, c);
    }
    IdentifierRoundTripIff(node.id, c);
  }

  /** In the same session a printed id reads back as the same NodeId exactly when its URI can be told from every
      earlier one and from nothing, and the identifier is one line. */
  lemma RoundTripIff(node: NodeId, namespaces: seq<string>, c: Codec)
    requires Lossless(c)
    ensures Resolve(NodeIdString(node, namespaces, c), namespaces, c) == Some(node) <==>
              && OneLine(node.id)
              && (0 < node.ns < |namespaces| ==> namespaces[node.ns] != "" && namespaces[node.ns] !in namespaces[..node.ns])
  {
    IdentifierRoundTripIff(node.id, c);
    if 0 < node.ns < |namespaces| {
      ByUri(node, namespaces, namespaces, c);
      FirstAt(namespaces, node.ns);
    } else {
      ByIndex(node, namespaces, namespaces, c);
    }
  }

  /** An empty URI does not parse; a repeated one leads to its first index. */
  lemma NotReadBack(c: Codec)
    requires Lossless(c)
    ensures var id := Num(7);
            && Resolve(NodeIdString(NodeId(1, id), ["u", ""], c), ["u", ""], c) == None
            && Resolve(NodeIdString(NodeId(2, id), ["u", "v", "v"], c), ["u", "v", "v"], c) == Some(NodeId(1, id))
  {
    var id := Num(7);
    ByUri(NodeId(1, id), ["u", ""], ["u", ""], c);
    Reordered(NodeId(2, id), ["u", "v", "v"], ["u", "v", "v"], c);
    FirstAt(["u", "v", "v"], 1);
  }

  lemma FirstAt(namespaces: seq<string>, i: nat)
    requires i < |namespaces|
    ensures IndexOf(namespaces, namespaces[i]) == i <==> namespaces[i] !in namespaces[..i]
  {
    var k := IndexOf(namespaces, namespaces[i]);
    assert k <= i;
    assert k < i ==> namespaces[..i][k] == namespaces[i];
  }
}
