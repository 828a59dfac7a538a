/** Which product fields a GraphQL query asks for: a path such as
    `products/items` is looked up in the query's selection tree and the
    names selected under it are collected. The base collector takes every
    named selection; the stock and attribute post-processors replace it with
    their own. */
module ResolveInfoFields {
  import opened Types

  /** A node of the query's selection tree: a field has a name; an inline
      fragment has none; a leaf has no selection set. */
  datatype Node = Node(name: Option<string>, selectionSet: Option<seq<Node>>)

  /** What the resolver passes in: the resolve info of the field, or a field
      node of an enclosing query. */
  datatype ResolveSource =
    | ResolveInfo(fieldNodes: seq<Node>)
    | FieldNode(node: Node)

  /** `$node->selectionSet->selections`; a leaf iterates as nothing. */
  function Selections(n: Node): seq<Node>
  {
    if n.selectionSet.Some? then n.selectionSet.value else []
  }

  /** The top-level nodes searched: a field node's selections, or the resolve
      info's field nodes (a field node without a selection set has neither). */
  function TopNodes(source: ResolveSource): seq<Node>
  {
    match source
    case ResolveInfo(fieldNodes) => fieldNodes
    case FieldNode(node) => Selections(node)
  }

  // ---------------------------------------------------------------------------
  // explode('/', $path)
  // ---------------------------------------------------------------------------

  const PATH_SEPARATOR: char := '/'

  /** `explode`: the pieces between separators, at least one. */
  function Explode(s: string, sep: char): (r: seq<string>)
    ensures |r| >= 1
    ensures forall p :: p in r ==> sep !in p
  {
    if s == [] then [""]
    else
      var rest := Explode(s[1..], sep);
      if s[0] == sep then [""] + rest
      else
        assert rest[0] in rest;
        [[s[0]] + rest[0]] + rest[1..]
  }

  /** `implode`, the inverse of `explode`. */
  function Implode(pieces: seq<string>, sep: char): string
    requires |pieces| >= 1
  {
    if |pieces| == 1 then pieces[0] else pieces[0] + [sep] + Implode(pieces[1..], sep)
  }

  /** Splitting a path and joining it back gives the path. */
  lemma {:induction false} ImplodeExplode(s: string, sep: char)
    ensures Implode(Explode(s, sep), sep) == s
  {
    if s != [] {
      var rest := Explode(s[1..], sep);
      ImplodeExplode(s[1..], sep);
      if s[0] != sep {
        var r := [[s[0]] + rest[0]] + rest[1..];
        if |rest| == 1 {
          assert r == [[s[0]] + rest[0]];
        } else {
          assert r[1..] == rest[1..];
          assert Implode(r, sep) == [s[0]] + rest[0] + [sep] + Implode(rest[1..], sep);
        }
        assert s == [s[0]] + s[1..];
      }
    }
  }

  // ---------------------------------------------------------------------------
  // getFieldContent and its two overrides
  // ---------------------------------------------------------------------------

  /** The collector in use: the trait's own, or the override of the stock or
      attribute post-processor. */
  datatype ContentKind = AllNames | StockFields | AttributeFields

  const ONLY_X_LEFT_IN_STOCK: string := "only_x_left_in_stock"
  const STOCK_STATUS: string := "stock_status"
  const ATTRIBUTES: string := "s_attributes"

  /** The names of the named selections, in order. */
  function NamedFields(sels: seq<Node>): (r: seq<Option<string>>)
    ensures forall f :: f in r ==> f.Some? && exists n :: n in sels && n.name == f
    ensures forall n :: n in sels && n.name.Some? ==> n.name in r
    ensures |r| <= |sels|
  {
    if sels == [] then []
    else
      var rest := NamedFields(sels[..|sels| - 1]);
      var n := sels[|sels| - 1];
      assert sels == sels[..|sels| - 1] + [n];
      if n.name.Some? then rest + [n.name] else rest
  }

  /** Stocks::getFieldContent: the named selections that are stock fields. */
  function StockNames(sels: seq<Node>): (r: seq<Option<string>>)
    ensures forall f :: f in r ==> f == Some(ONLY_X_LEFT_IN_STOCK) || f == Some(STOCK_STATUS)
    ensures forall f :: f in r ==> exists n :: n in sels && n.name == f
    ensures forall n :: n in sels && (n.name == Some(ONLY_X_LEFT_IN_STOCK) || n.name == Some(STOCK_STATUS)) ==> n.name in r
    ensures |r| <= |sels|
  {
    if sels == [] then []
    else
      var rest := StockNames(sels[..|sels| - 1]);
      var n := sels[|sels| - 1];
      assert sels == sels[..|sels| - 1] + [n];
      if n.name == Some(ONLY_X_LEFT_IN_STOCK) || n.name == Some(STOCK_STATUS) then rest + [n.name] else rest
  }

  /** The first selection named `name`, skipping unnamed ones. */
  function FirstNamed(sels: seq<Node>, name: string): (r: Option<Node>)
    ensures r.Some? ==> r.value in sels && r.value.name == Some(name)
    ensures r.None? ==> forall n :: n in sels ==> n.name != Some(name)
  {
    if sels == [] then None
    else if sels[0].name == Some(name) then Some(sels[0])
    else FirstNamed(sels[1..], name)
  }

  /** Every selection's name, `null` for an unnamed one. */
  function AllNames(sels: seq<Node>): (r: seq<Option<string>>)
    ensures |r| == |sels| && forall i :: 0 <= i < |sels| ==> r[i] == sels[i].name
  {
    seq(|sels|, i requires 0 <= i < |sels| => sels[i].name)
  }

  /** Attributes::getFieldContent: the selections under the first
      `s_attributes` selection; nothing when there is none or it is a leaf. */
  function AttributeNames(sels: seq<Node>): (r: seq<Option<string>>)
    ensures FirstNamed(sels, ATTRIBUTES).None? ==> r == []
    ensures FirstNamed(sels, ATTRIBUTES).Some? ==> |r| == |Selections(FirstNamed(sels, ATTRIBUTES).value)|
  {
    match FirstNamed(sels, ATTRIBUTES)
    case None => []
    case Some(attributes) => AllNames(Selections(attributes))
  }

  function FieldContent(kind: ContentKind, node: Node): seq<Option<string>>
  {
    match kind
    case AllNames => NamedFields(Selections(node))
    case StockFields => StockNames(Selections(node))
    case AttributeFields => AttributeNames(Selections(node))
  }

  /** ResolveInfoFieldsTrait::getFieldContent, as a loop. */
  method CollectNamedFields(node: Node) returns (fields: seq<Option<string>>)
    ensures fields == NamedFields(Selections(node))
  {
    var sels := Selections(node);
    fields := [];
    var i := 0;
    while i < |sels|
      invariant 0 <= i <= |sels|
      invariant fields == NamedFields(sels[..i])
    {
      assert sels[..i + 1][..i] == sels[..i];
      if sels[i].name.Some? {
        fields := fields + [sels[i].name];
      }
      i := i + 1;
    }
    assert sels[..i] == sels;
  }

  /** Stocks::getFieldContent, as a loop. */
  method CollectStockFields(node: Node) returns (stocks: seq<Option<string>>)
    ensures stocks == StockNames(Selections(node))
  {
    var sels := Selections(node);
    stocks := [];
    var i := 0;
    while i < |sels|
      invariant 0 <= i <= |sels|
      invariant stocks == StockNames(sels[..i])
    {
      assert sels[..i + 1][..i] == sels[..i];
      var name := sels[i].name;
      if name.Some? && (name.value == ONLY_X_LEFT_IN_STOCK || name.value == STOCK_STATUS) {
        stocks := stocks + [name];
      }
      i := i + 1;
    }
    assert sels[..i] == sels;
  }

  /** Attributes::getFieldContent, as a search loop followed by a copy loop. */
  method CollectAttributeFields(node: Node) returns (fieldNames: seq<Option<string>>)
    ensures fieldNames == AttributeNames(Selections(node))
  {
    var sels := Selections(node);
    var attributes: Option<seq<Node>> := None;
    var i := 0;
    while i < |sels|
      invariant 0 <= i <= |sels|
      invariant FirstNamed(sels, ATTRIBUTES) == FirstNamed(sels[i..], ATTRIBUTES)
      invariant attributes == None
    {
      assert sels[i..][1..] == sels[i + 1..];
      if sels[i].name == Some(ATTRIBUTES) {
        attributes := Some(Selections(sels[i]));
        break;
      }
      i := i + 1;
    }
    fieldNames := [];
    if attributes.Some? {
      var selected := attributes.value;
      var j := 0;
      while j < |selected|
        invariant 0 <= j <= |selected|
        invariant fieldNames == AllNames(selected[..j])
      {
        fieldNames := fieldNames + [selected[j].name];
        j := j + 1;
      }
      assert selected[..j] == selected;
    }
  }

  method CollectFieldContent(kind: ContentKind, node: Node) returns (fields: seq<Option<string>>)
    ensures fields == FieldContent(kind, node)
  {
    match kind
    case AllNames =>
      fields := CollectNamedFields(node);
    case StockFields =>
      fields := CollectStockFields(node);
    case AttributeFields =>
      fields := CollectAttributeFields(node);
  }

  // ---------------------------------------------------------------------------
  // getFieldsFromProductInfo
  // ---------------------------------------------------------------------------

  /** The search, as a recursive definition: the first top-level node named
      like the first piece that settles the lookup. With one piece it is the
      first such node; with more, the first such node with a child named like
      the second piece, whose content is returned. */
  function FieldsAt(kind: ContentKind, nodes: seq<Node>, pieces: seq<string>): seq<Option<string>>
    requires |pieces| >= 1
  {
    if nodes == [] then []
    else if nodes[0].name != Some(pieces[0]) then FieldsAt(kind, nodes[1..], pieces)
    else if |pieces| == 1 then FieldContent(kind, nodes[0])
    else
      match FirstNamed(Selections(nodes[0]), pieces[1])
      case Some(selection) => FieldContent(kind, selection)
      case None => FieldsAt(kind, nodes[1..], pieces)
  }

  function FieldsFromProductInfo(kind: ContentKind, source: ResolveSource, path: string): seq<Option<string>>
  {
    FieldsAt(kind, TopNodes(source), Explode(path, PATH_SEPARATOR))
  }

  /** The inner loop of the search: the first selection named `name`. */
  method FindSelection(sels: seq<Node>, name: string) returns (found: Option<Node>)
    ensures found == FirstNamed(sels, name)
  {
    var j := 0;
    while j < |sels|
      invariant 0 <= j <= |sels|
      invariant FirstNamed(sels, name) == FirstNamed(sels[j..], name)
    {
      assert sels[j..][1..] == sels[j + 1..];
      if sels[j].name == Some(name) {
        return Some(sels[j]);
      }
      j := j + 1;
    }
    return None;
  }

  /** The nested search with early returns. */
  method GetFieldsFromProductInfo(kind: ContentKind, source: ResolveSource, path: string)
    returns (fields: seq<Option<string>>)
    ensures fields == FieldsFromProductInfo(kind, source, path)
  {
    var nodes := TopNodes(source);
    var pathPieces := Explode(path, PATH_SEPARATOR);
    var i := 0;
    while i < |nodes|
      invariant 0 <= i <= |nodes|
      invariant FieldsAt(kind, nodes, pathPieces) == FieldsAt(kind, nodes[i..], pathPieces)
    {
      var node := nodes[i];
      assert nodes[i..][0] == node && nodes[i..][1..] == nodes[i + 1..];
      if node.name == Some(pathPieces[0]) {
        if |pathPieces| == 1 {
          fields := CollectFieldContent(kind, node);
          return;
        }
        var selection := FindSelection(Selections(node), pathPieces[1]);
        if selection.Some? {
          fields := CollectFieldContent(kind, selection.value);
          return;
        }
      }
      i := i + 1;
    }
    fields := [];
  }

  /** Only the first two pieces of the path are looked at. */
  lemma {:induction false} ExtraPiecesIgnored(kind: ContentKind, nodes: seq<Node>, pieces: seq<string>)
    requires |pieces| >= 2
    ensures FieldsAt(kind, nodes, pieces) == FieldsAt(kind, nodes, pieces[..2])
  {
    if nodes != [] {
      ExtraPiecesIgnored(kind, nodes[1..], pieces);
    }
  }

  /** Without a top-level node named like the first piece nothing is found. */
  lemma {:induction false} UnmatchedPathIsEmpty(kind: ContentKind, nodes: seq<Node>, pieces: seq<string>)
    requires |pieces| >= 1
    requires forall n :: n in nodes ==> n.name != Some(pieces[0])
    ensures FieldsAt(kind, nodes, pieces) == []
  {
    if nodes != [] {
      assert nodes[0] in nodes;
      UnmatchedPathIsEmpty(kind, nodes[1..], pieces);
    }
  }

  /** A one-piece path gives the content of the first node with that name. */
  lemma {:induction false} SinglePieceTakesFirstMatch(kind: ContentKind, nodes: seq<Node>, name: string)
    ensures FirstNamed(nodes, name).Some? ==> FieldsAt(kind, nodes, [name]) == FieldContent(kind, FirstNamed(nodes, name).value)
    ensures FirstNamed(nodes, name).None? ==> FieldsAt(kind, nodes, [name]) == []
  {
    if nodes != [] {
      SinglePieceTakesFirstMatch(kind, nodes[1..], name);
    }
  }
}
