/**
 * The T-SQL parse tree the engine walks and rewrites. A fragment is a kind
 * (with the few scalar properties the engine reads), its source span, its
 * token range, and its fragment-valued properties in declaration order: each
 * property is either a single, possibly null, child or a list of children.
 * A property is addressed by its name, as the engine addresses it by
 * reflection.
 */
module ParseTree {
  import opened Wrappers
  import opened Text

  datatype QuoteType = NotQuoted | SquareBracket | DoubleQuote

  datatype ColumnType = Regular | IdentityCol | RowGuidCol | Wildcard | PseudoColumn

  /** ScriptDom's QualifiedJoinType. */
  datatype QualifiedJoinType = Inner | LeftOuter | RightOuter | FullOuter

  /** The numeric value of a QualifiedJoinType member. */
  function JoinTypeValue(t: QualifiedJoinType): nat
  {
    match t
    case Inner => 0
    case LeftOuter => 1
    case RightOuter => 2
    case FullOuter => 3
  }

  datatype BinaryExpressionType = Add | Subtract | Multiply | Divide | Modulo | OtherOperator

  /** The runtime classes of TSqlFragment the engine distinguishes. */
  datatype FragmentKind =
    | Script
    | SelectStatement | InsertStatement | UpdateStatement | DeleteStatement
    | QuerySpecification | InsertSpecification | UpdateSpecification | DeleteSpecification
    | QueryDerivedTable
    | NamedTableReference
    | OtherTableReferenceWithAlias
    | QualifiedJoin(JoinKind: QualifiedJoinType)
    | SelectScalarExpression
    | SelectStarExpression
    | SelectSetVariable
    | ColumnReferenceExpression(ColumnKind: ColumnType)
    | WhereClause
    | FunctionCall
    | Identifier(Value: string, Quote: QuoteType)
    | IdentifierOrValueExpression(Value: string)
    | MultiPartIdentifier
    | SchemaObjectName
    | BinaryLiteral(Value: string)
    | ParenthesisExpression
    | BinaryExpression(Operator: BinaryExpressionType)
    | OtherFragment

  /** `fragment is TableReferenceWithAlias`. */
  predicate IsTableReferenceWithAlias(k: FragmentKind)
  {
    k.QueryDerivedTable? || k.NamedTableReference? || k.OtherTableReferenceWithAlias?
  }

  /** `fragment is SelectElement`. */
  predicate IsSelectElement(k: FragmentKind)
  {
    k.SelectScalarExpression? || k.SelectStarExpression? || k.SelectSetVariable?
  }

  datatype Fragment = Fragment(
    Kind: FragmentKind,
    StartOffset: int,
    FragmentLength: int,
    FirstTokenIndex: int,
    LastTokenIndex: int,
    Slots: seq<Slot>)

  /** One fragment-valued property: a single child or a list of children. */
  datatype Slot =
    | Field(Name: string, Child: Option<Fragment>)
    | Items(Name: string, Elements: seq<Fragment>)

  /** A fragment created by the rewriter: it has no source span and no tokens. */
  function NewFragment(kind: FragmentKind, slots: seq<Slot>): (f: Fragment)
    ensures f.Kind == kind && f.Slots == slots
    ensures f.FirstTokenIndex > f.LastTokenIndex
  {
    Fragment(kind, -1, -1, -1, -2, slots)
  }

  // ---------------------------------------------------- Property access

  /** Position of the first property called `name`, or |slots| when there is none. */
  function SlotIndex(slots: seq<Slot>, name: string): (k: nat)
    ensures k <= |slots|
    ensures k < |slots| ==> slots[k].Name == name
    ensures forall j | 0 <= j < k :: slots[j].Name != name
  {
    if slots == [] || slots[0].Name == name then 0
    else 1 + SlotIndex(slots[1..], name)
  }

  /** The value of a single-valued property; null when it is null or absent. */
  function FieldValue(f: Fragment, name: string): (r: Option<Fragment>)
    ensures r.Some? ==> exists k | 0 <= k < |f.Slots| :: f.Slots[k] == Field(name, r)
  {
    var k := SlotIndex(f.Slots, name);
    if k < |f.Slots| && f.Slots[k].Field? then f.Slots[k].Child else None
  }

  /** The elements of a list-valued property; empty when it is absent. */
  function ListValue(f: Fragment, name: string): (r: seq<Fragment>)
    ensures r != [] ==> exists k | 0 <= k < |f.Slots| :: f.Slots[k] == Items(name, r)
  {
    var k := SlotIndex(f.Slots, name);
    if k < |f.Slots| && f.Slots[k].Items? then f.Slots[k].Elements else []
  }

  const IdentifiersProperty := "Identifiers"

  /** `identifier?.Value` for an Identifier-valued property. */
  function IdentifierText(f: Option<Fragment>): Option<string>
  {
    if f.Some? && f.value.Kind.Identifier? then Some(f.value.Kind.Value) else None
  }

  /** The Value of every Identifier of a MultiPartIdentifier / SchemaObjectName, in order. */
  function IdentifierValues(ids: seq<Fragment>): (r: seq<string>)
    ensures |r| == |ids|
    ensures forall k | 0 <= k < |ids| :: r[k] == ValueOf(ids[k])
  {
    if ids == [] then []
    else [ValueOf(ids[0])] + IdentifierValues(ids[1..])
  }

  /** `identifier.Value`; a fragment that is not an Identifier reads as "". */
  function ValueOf(f: Fragment): string
  {
    if f.Kind.Identifier? then f.Kind.Value else ""
  }

  /**
   * The right-aligned parts of a SchemaObjectName: `Part(ids, 1)` is the base
   * identifier, 2 the schema, 3 the database, 4 the server; null when the
   * name has fewer parts.
   */
  function Part(ids: seq<string>, k: nat): (r: Option<string>)
    requires 1 <= k
    ensures r.Some? <==> k <= |ids|
  {
    if k <= |ids| then Some(ids[|ids| - k]) else None
  }

  /** A fresh Identifier fragment `new Identifier() { Value = value }`. */
  function NewIdentifier(value: string): Fragment
  {
    NewFragment(Identifier(value, NotQuoted), [])
  }

  /** The list of fresh Identifier fragments for a list of values. */
  function NewIdentifiers(values: seq<string>): (r: seq<Fragment>)
    ensures |r| == |values|
    ensures IdentifierValues(r) == values
  {
    if values == [] then [] else [NewIdentifier(values[0])] + NewIdentifiers(values[1..])
  }

  // ---------------------------------------------- Replacing a child in place

  /** `node` is the value of `parent.<property>`, or one of its elements when it is a list. */
  predicate Holds(parent: Fragment, property: string, node: Fragment)
  {
    var k := SlotIndex(parent.Slots, property);
    k < |parent.Slots| &&
    match parent.Slots[k]
    case Field(_, child) => child == Some(node)
    case Items(_, elements) => node in elements
  }

  /** A property whose value is non-null holds that value. */
  lemma FieldHolds(f: Fragment, name: string)
    requires FieldValue(f, name).Some?
    ensures Holds(f, name, FieldValue(f, name).value)
  {
  }

  /** `list.IndexOf(node)`: the first position of `node`. */
  function IndexOf(elements: seq<Fragment>, node: Fragment): (i: nat)
    requires node in elements
    ensures i < |elements| && elements[i] == node
    ensures forall j | 0 <= j < i :: elements[j] != node
  {
    if elements[0] == node then 0 else 1 + IndexOf(elements[1..], node)
  }

  /**
   * The reflection-based slot replacement of the visitors: a single-valued
   * property is set to `expression`, a list property has the element at
   * `list.IndexOf(node)` overwritten.
   */
  function Replace(parent: Fragment, property: string, node: Fragment, expression: Fragment): (r: Fragment)
    requires Holds(parent, property, node)
  {
    var k := SlotIndex(parent.Slots, property);
    var current := parent.Slots[k];
    var slot :=
      if current.Field? then Field(current.Name, Some(expression))
      else Items(current.Name, current.Elements[IndexOf(current.Elements, node) := expression]);
    parent.(Slots := parent.Slots[k := slot])
  }

  /**
   * Replacing keeps every other property and, inside a list, every other
   * element and the list length; the new child is found where the old one was.
   */
  lemma ReplaceInPlace(parent: Fragment, property: string, node: Fragment, expression: Fragment)
    requires Holds(parent, property, node)
    ensures var r := Replace(parent, property, node, expression);
      var k := SlotIndex(parent.Slots, property);
      r.Kind == parent.Kind && |r.Slots| == |parent.Slots|
      && (forall j | 0 <= j < |parent.Slots| && j != k :: r.Slots[j] == parent.Slots[j])
      && r.Slots[k].Name == property
      && Holds(r, property, expression)
      && (parent.Slots[k].Field? ==> r.Slots[k] == Field(property, Some(expression)))
      && (parent.Slots[k].Items? ==>
           var elements := parent.Slots[k].Elements;
           var i := IndexOf(elements, node);
           r.Slots[k].Items? && |r.Slots[k].Elements| == |elements| && r.Slots[k].Elements[i] == expression
           && forall j | 0 <= j < |elements| && j != i :: r.Slots[k].Elements[j] == elements[j])
  {
    var r := Replace(parent, property, node, expression);
    var k := SlotIndex(parent.Slots, property);
    assert SlotIndex(r.Slots, property) == k by {
      SlotIndexOfUpdate(parent.Slots, property, k, r.Slots[k]);
    }
    if parent.Slots[k].Items? {
      var i := IndexOf(parent.Slots[k].Elements, node);
      assert r.Slots[k].Elements[i] == expression;
    }
  }

  /** Overwriting the slot a name selects with a slot of the same name keeps the selection. */
  lemma {:induction false} SlotIndexOfUpdate(slots: seq<Slot>, name: string, k: nat, slot: Slot)
    requires k == SlotIndex(slots, name) && k < |slots| && slot.Name == name
    ensures SlotIndex(slots[k := slot], name) == k
  {
    if k > 0 {
      SlotIndexOfUpdate(slots[1..], name, k - 1, slot);
      assert slots[k := slot][1..] == slots[1..][k - 1 := slot];
    }
  }

  /** Putting the same node back changes nothing. */
  lemma ReplaceSelf(parent: Fragment, property: string, node: Fragment)
    requires Holds(parent, property, node)
    ensures Replace(parent, property, node, node) == parent
  {
    var k := SlotIndex(parent.Slots, property);
    if parent.Slots[k].Items? {
      var elements := parent.Slots[k].Elements;
      assert elements[IndexOf(elements, node) := node] == elements;
    }
  }

  /**
   * `parent.<property> = expression` through reflection, as the column
   * visitors write it: a single-valued property is set, a list property has
   * the element at `list.IndexOf(node)` overwritten. An absent property
   * throws (the PropertyInfo is null) and a list without the node throws
   * (IndexOf gives -1).
   */
  function SetSlot(parent: Fragment, property: string, node: Fragment, expression: Fragment): (r: Result<Fragment>)
    ensures Holds(parent, property, node) ==> r == Ok(Replace(parent, property, node, expression))
    ensures SlotIndex(parent.Slots, property) == |parent.Slots| ==> r == Throws(NullReference)
  {
    var k := SlotIndex(parent.Slots, property);
    if k == |parent.Slots| then Throws(NullReference)
    else if parent.Slots[k].Field? then Ok(parent.(Slots := parent.Slots[k := Field(property, Some(expression))]))
    else if node in parent.Slots[k].Elements then Ok(Replace(parent, property, node, expression))
    else Throws(IndexOutOfRange)
  }

  /**
   * A slot write succeeds exactly when the property exists and, for a list,
   * holds the node; the property then holds the new expression, and every
   * other property is as it was.
   */
  lemma SetSlotPlaces(parent: Fragment, property: string, node: Fragment, expression: Fragment)
    ensures var k := SlotIndex(parent.Slots, property);
      SetSlot(parent, property, node, expression).Ok? <==>
        k < |parent.Slots| && (parent.Slots[k].Field? || node in parent.Slots[k].Elements)
    ensures var r := SetSlot(parent, property, node, expression);
      var k := SlotIndex(parent.Slots, property);
      r.Ok? ==>
        Holds(r.value, property, expression) && r.value.Kind == parent.Kind && |r.value.Slots| == |parent.Slots|
        && forall j | 0 <= j < |parent.Slots| && j != k :: r.value.Slots[j] == parent.Slots[j]
  {
    var k := SlotIndex(parent.Slots, property);
    if k < |parent.Slots| {
      if parent.Slots[k].Field? {
        SlotIndexOfUpdate(parent.Slots, property, k, Field(property, Some(expression)));
      } else if node in parent.Slots[k].Elements {
        ReplaceInPlace(parent, property, node, expression);
      }
    }
  }

  /** `f.<name>` set to a new list, for a list property f has. */
  function WithElements(f: Fragment, name: string, elements: seq<Fragment>): Fragment
    requires SlotIndex(f.Slots, name) < |f.Slots|
  {
    f.(Slots := f.Slots[SlotIndex(f.Slots, name) := Items(name, elements)])
  }

  /** The list property reads back as the new list; nothing else of the fragment changes. */
  lemma WithElementsReads(f: Fragment, name: string, elements: seq<Fragment>)
    requires SlotIndex(f.Slots, name) < |f.Slots|
    ensures var r := WithElements(f, name, elements);
      ListValue(r, name) == elements && r.Kind == f.Kind && |r.Slots| == |f.Slots|
      && forall j | 0 <= j < |f.Slots| && j != SlotIndex(f.Slots, name) :: r.Slots[j] == f.Slots[j]
  {
    SlotIndexOfUpdate(f.Slots, name, SlotIndex(f.Slots, name), Items(name, elements));
  }

  // ------------------------------------------------------ Pre-order walk

  /** The fragment followed by the walk of each property, in property order. */
  function PreOrder(f: Fragment): (r: seq<Fragment>)
    ensures |r| >= 1 && r[0] == f
    decreases f
  {
    [f] + SlotsOrder(f.Slots)
  }

  /** The walk of a run of properties, in order. */
  function SlotsOrder(slots: seq<Slot>): seq<Fragment>
    decreases slots
  {
    if slots == [] then [] else SlotOrder(slots[0]) + SlotsOrder(slots[1..])
  }

  /** The walk of one property: nothing for null, the child's walk, or a list in index order. */
  function SlotOrder(slot: Slot): seq<Fragment>
    decreases slot
  {
    match slot
    case Field(_, None) => []
    case Field(_, Some(child)) => PreOrder(child)
    case Items(_, elements) => ListOrder(elements)
  }

  /** The walk of the elements of a list property. */
  function ListOrder(elements: seq<Fragment>): seq<Fragment>
    decreases elements
  {
    if elements == [] then [] else PreOrder(elements[0]) + ListOrder(elements[1..])
  }

  // ------------------------------------------------------------- Tokens

  /** The TSqlParserTokenType members the engine tests for. */
  datatype TokenType = Dot | IdentifierToken | QuotedIdentifier | WhiteSpace | From | Join | OtherToken

  /** A TSqlParserToken; IsKeyword stands for the (external) IsKeyword() extension. */
  datatype ParserToken = ParserToken(TokenType: TokenType, Text: string, Offset: int, IsKeyword: bool)

  /** The concatenated texts of a run of tokens. */
  function Texts(tokens: seq<ParserToken>): string
  {
    if tokens == [] then "" else tokens[0].Text + Texts(tokens[1..])
  }

  function TotalLength(tokens: seq<ParserToken>): nat
  {
    if tokens == [] then 0 else |tokens[0].Text| + TotalLength(tokens[1..])
  }

  /** The text of a run of tokens is as long as the token texts together. */
  lemma {:induction false} TextsLength(tokens: seq<ParserToken>)
    ensures |Texts(tokens)| == TotalLength(tokens)
  {
    if tokens != [] {
      TextsLength(tokens[1..]);
    }
  }

  lemma {:induction false} TextsAppend(a: seq<ParserToken>, b: seq<ParserToken>)
    ensures Texts(a + b) == Texts(a) + Texts(b)
  {
    if a == [] {
      assert a + b == b;
    } else {
      var ab := a + b;
      assert ab != [] && ab[0] == a[0] && ab[1..] == a[1..] + b;
      TextsAppend(a[1..], b);
      calc {
        Texts(ab);
        a[0].Text + Texts(a[1..] + b);
        a[0].Text + (Texts(a[1..]) + Texts(b));
        (a[0].Text + Texts(a[1..])) + Texts(b);
      }
    }
  }

  /**
   * ToSourceSqlString: the texts of the tokens FirstTokenIndex..LastTokenIndex
   * of the script's token stream, in order. An index outside the stream
   * throws, as the indexer does.
   */
  method ToSourceSqlString(fragment: Fragment, tokens: seq<ParserToken>) returns (r: Result<string>)
    ensures fragment.FirstTokenIndex > fragment.LastTokenIndex ==> r == Ok("")
    ensures 0 <= fragment.FirstTokenIndex <= fragment.LastTokenIndex < |tokens| ==>
      r == Ok(Texts(tokens[fragment.FirstTokenIndex..fragment.LastTokenIndex + 1]))
    ensures (fragment.FirstTokenIndex <= fragment.LastTokenIndex
             && !(0 <= fragment.FirstTokenIndex && fragment.LastTokenIndex < |tokens|))
      ==> r == Throws(IndexOutOfRange)
  {
    var sql := "";
    var first, last := fragment.FirstTokenIndex, fragment.LastTokenIndex;
    var i := first;
    while i <= last
      invariant first > last ==> i == first
      invariant first <= last ==> first <= i <= last + 1
      invariant i > first ==> 0 <= first && i <= |tokens|
      invariant i == first ==> sql == ""
      invariant i > first ==> sql == Texts(tokens[first..i])
      decreases last + 1 - i
    {
      if i < 0 || i >= |tokens| {
        return Throws(IndexOutOfRange);
      }
      TextsAppend(tokens[first..i], [tokens[i]]);
      assert tokens[first..i + 1] == tokens[first..i] + [tokens[i]];
      sql := sql + tokens[i].Text;
      i := i + 1;
    }
    return Ok(sql);
  }
}
