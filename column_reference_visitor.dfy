/**
 * ColumnReferenceExpressionVisitor: resolves a column reference
 * `[alias.]Property[.uuid|.type|.TYPE]` of a statement against the entities
 * of the statement's tables and rewrites it into physical columns: a value
 * property is renamed to its single field, a pseudo-field selects one field
 * of a reference property (or folds into a binary literal), and a bare
 * reference becomes the sum `(type code + object column)` that the
 * 1C platform stores a reference value as.
 *
 * The source rewrites the column reference in place and, for the sums and
 * literals, overwrites the parent's property that holds it. The model
 * returns the column reference as rewritten and, when the parent was
 * written, the parent as rewritten.
 */
module ColumnReferenceVisitor {
  import opened Wrappers
  import opened Text
  import opened Metadata
  import opened ParseTree
  import opened SyntaxTree
  import opened ScriptingService

  const MultiPartIdentifierProperty := "MultiPartIdentifier"

  /** The pseudo-fields a reference property can be followed by. */
  const SpecialFields := ["uuid", "type", "TYPE"]

  /** The comparison is exact: only these three spellings, in this case, are pseudo-fields. */
  predicate IsSpecialField(fieldName: string)
    ensures IsSpecialField(fieldName) <==> fieldName in SpecialFields
  {
    fieldName == "uuid" || fieldName == "type" || fieldName == "TYPE"
  }

  // ------------------------------------------------------ Part classification

  /**
   * What the parts of a column name stand for: the position of the
   * identifier naming the property, the pseudo-field after it, the table
   * alias before it and the property name.
   */
  datatype Parts = Parts(Identifier: nat, FieldName: Option<string>, Alias: Option<string>, PropertyName: string)

  /**
   * The classification by part count: one part is a property, two parts are
   * a property and a pseudo-field when the second is uuid, type or TYPE and
   * alias.property otherwise, three or more parts are
   * alias.property.pseudo-field. No part at all fails on `identifiers[2]`.
   */
  function ColumnParts(ids: seq<string>): (r: Result<Parts>)
    ensures r.Throws? <==> ids == []
    ensures r.Throws? ==> r.error == IndexOutOfRange
    ensures r.Ok? ==>
      var p := r.value;
      p.Identifier < |ids| && ids[p.Identifier] == p.PropertyName
      && (p.Alias.Some? <==> p.Identifier == 1)
      && (p.Alias.Some? ==> p.Alias.value == ids[0])
      && (p.FieldName.Some? ==> p.Identifier + 1 < |ids| && p.FieldName.value == ids[p.Identifier + 1])
      && (p.FieldName.None? ==> p.Identifier == |ids| - 1)
      && (p.Alias.None? && p.FieldName.Some? ==> IsSpecialField(p.FieldName.value))
      && (|ids| >= 3 ==> p.Identifier == 1 && p.FieldName.Some?)
  {
    if |ids| == 1 then Ok(Parts(0, None, None, ids[0]))
    else if |ids| == 2 then
      if IsSpecialField(ids[1]) then Ok(Parts(0, Some(ids[1]), None, ids[0]))
      else Ok(Parts(1, None, Some(ids[0]), ids[1]))
    else if |ids| == 0 then Throws(IndexOutOfRange)
    else Ok(Parts(1, Some(ids[2]), Some(ids[0]), ids[1]))
  }

  /** The loop that copies the Value of every identifier into a list of strings. */
  method ReadIdentifiers(ids: seq<Fragment>) returns (values: seq<string>)
    ensures values == IdentifierValues(ids)
  {
    values := [];
    for i := 0 to |ids|
      invariant values == IdentifierValues(ids[..i])
    {
      IdentifierValuesStep(ids, i);
      values := values + [ValueOf(ids[i])];
    }
    assert ids[..|ids|] == ids;
  }

  lemma IdentifierValuesSnoc(ids: seq<Fragment>, id: Fragment)
    ensures IdentifierValues(ids + [id]) == IdentifierValues(ids) + [ValueOf(id)]
  {
  }

  lemma IdentifierValuesStep(ids: seq<Fragment>, i: nat)
    requires i < |ids|
    ensures IdentifierValues(ids[..i + 1]) == IdentifierValues(ids[..i]) + [ValueOf(ids[i])]
  {
    assert ids[..i + 1] == ids[..i] + [ids[i]];
    IdentifierValuesSnoc(ids[..i], ids[i]);
  }

  // ------------------------------------------------------- Property lookup

  /** The nodes a statement's table dictionary holds. */
  function TableNodes(entries: seq<(string, SyntaxNode)>): set<SyntaxNode>
  {
    set e | e in entries :: e.1
  }

  /** A resolved property and the entity it belongs to. */
  datatype Found = Found(Owner: ApplicationObject, Property: MetadataProperty)

  /** The first property of the table's entity with that name, when the node is a table with an entity. */
  function TableProperty(table: SyntaxNode, name: string): (r: Option<Found>)
    reads table
    ensures r.Some? ==>
      table.Kind == TableNode && table.ApplicationObject == Some(r.value.Owner)
      && r.value.Property in r.value.Owner.Properties && r.value.Property.Name == name
  {
    if table.Kind == TableNode && table.ApplicationObject.Some? then
      var p := FirstProperty(table.ApplicationObject.value.Properties, name);
      if p.Some? then Some(Found(table.ApplicationObject.value, p.value)) else None
    else None
  }

  /**
   * GetPropertyWithTableAlias: only the table stored under the alias is
   * consulted; an alias bound to a derived table gives no property.
   */
  function PropertyWithTableAlias(entries: seq<(string, SyntaxNode)>, alias: string, name: string): (r: Option<Found>)
    reads TableNodes(entries)
    ensures var t := LookupTable(entries, alias);
      r.Some? ==> t.Some? && TableProperty(t.value, name) == r
    ensures var t := LookupTable(entries, alias);
      t.None? || t.value.Kind == StatementNode ==> r.None?
  {
    var t := LookupTable(entries, alias);
    if t.Some? then TableProperty(t.value, name) else None
  }

  /** A node the unaliased lookup takes its property from. */
  predicate Supplies(table: SyntaxNode, name: string)
    reads table
  {
    table.Alias.None? && TableProperty(table, name).Some?
  }

  /**
   * GetPropertyWithoutTableAlias: the tables in dictionary order; the first
   * table without an alias whose entity has the property wins, and a derived
   * table ends the search with no property.
   */
  function PropertyWithoutTableAlias(entries: seq<(string, SyntaxNode)>, name: string): Option<Found>
    reads TableNodes(entries)
  {
    if entries == [] then None
    else
      var t := entries[0].1;
      if Supplies(t, name) then TableProperty(t, name)
      else if t.Kind == StatementNode then None
      else PropertyWithoutTableAlias(entries[1..], name)
  }

  /** The position of the first derived table in the dictionary, or its size. */
  function Horizon(entries: seq<(string, SyntaxNode)>): (h: nat)
    reads TableNodes(entries)
    ensures h <= |entries|
    ensures forall j | 0 <= j < h :: entries[j].1.Kind != StatementNode
    ensures h < |entries| ==> entries[h].1.Kind == StatementNode
  {
    if entries == [] || entries[0].1.Kind == StatementNode then 0
    else 1 + Horizon(entries[1..])
  }

  /**
   * The unaliased lookup finds a property exactly when some unaliased table
   * before the first derived table supplies it, and then it is the property
   * of the first such table.
   */
  lemma {:induction false} UnaliasedFirstMatch(entries: seq<(string, SyntaxNode)>, name: string)
    ensures var r := PropertyWithoutTableAlias(entries, name);
      r.None? <==> forall k | 0 <= k < Horizon(entries) :: !Supplies(entries[k].1, name)
    ensures var r := PropertyWithoutTableAlias(entries, name);
      r.Some? ==> exists k | 0 <= k < Horizon(entries) ::
        Supplies(entries[k].1, name) && r == TableProperty(entries[k].1, name)
        && forall j | 0 <= j < k :: !Supplies(entries[j].1, name)
  {
    if entries != [] {
      var t := entries[0].1;
      if !Supplies(t, name) && t.Kind != StatementNode {
        UnaliasedFirstMatch(entries[1..], name);
        var r := PropertyWithoutTableAlias(entries, name);
        if r.Some? {
          var k :| 0 <= k < Horizon(entries[1..]) && Supplies(entries[1..][k].1, name)
            && r == TableProperty(entries[1..][k].1, name)
            && forall j | 0 <= j < k :: !Supplies(entries[1..][j].1, name);
          assert Supplies(entries[k + 1].1, name);
          forall j | 0 <= j < k + 1
            ensures !Supplies(entries[j].1, name)
          {
            if j > 0 {
              assert entries[j] == entries[1..][j - 1];
            }
          }
        } else {
          forall k | 0 <= k < Horizon(entries)
            ensures !Supplies(entries[k].1, name)
          {
            if k > 0 {
              assert entries[k] == entries[1..][k - 1];
            }
          }
        }
      } else if Supplies(t, name) {
        assert Supplies(entries[0].1, name);
      }
    }
  }

  /** The loop over `Tables.Values` of GetPropertyWithoutTableAlias. */
  method GetPropertyWithoutTableAlias(statement: SyntaxNode, name: string) returns (r: Option<Found>)
    ensures r == PropertyWithoutTableAlias(statement.TableMap, name)
  {
    var i := 0;
    while i < |statement.TableMap|
      invariant 0 <= i <= |statement.TableMap|
      invariant PropertyWithoutTableAlias(statement.TableMap, name) == PropertyWithoutTableAlias(statement.TableMap[i..], name)
    {
      var table := statement.TableMap[i].1;
      assert statement.TableMap[i..][1..] == statement.TableMap[i + 1..];
      if table.Kind == TableNode {
        if table.Alias.None? && table.ApplicationObject.Some? {
          var property := FirstProperty(table.ApplicationObject.value.Properties, name);
          if property.Some? {
            return Some(Found(table.ApplicationObject.value, property.value));
          }
        }
      } else if table.Kind == StatementNode {
        return None;
      }
      i := i + 1;
    }
    return None;
  }

  /** GetProperty: the alias decides which lookup runs. */
  function PropertyOf(entries: seq<(string, SyntaxNode)>, parts: Parts): Option<Found>
    reads TableNodes(entries)
  {
    if parts.Alias.Some? then PropertyWithTableAlias(entries, parts.Alias.value, parts.PropertyName)
    else PropertyWithoutTableAlias(entries, parts.PropertyName)
  }

  method GetProperty(statement: SyntaxNode, parts: Parts) returns (r: Option<Found>)
    ensures r == PropertyOf(statement.TableMap, parts)
  {
    if parts.Alias.Some? {
      r := PropertyWithTableAlias(statement.TableMap, parts.Alias.value, parts.PropertyName);
    } else {
      r := GetPropertyWithoutTableAlias(statement, parts.PropertyName);
    }
  }

  // ------------------------------------------------ Rewriting the identifiers

  /** The identifiers of a column reference's MultiPartIdentifier; none when it is null. */
  function ColumnIdentifiers(node: Fragment): seq<Fragment>
  {
    var mpi := FieldValue(node, MultiPartIdentifierProperty);
    if mpi.Some? then ListValue(mpi.value, IdentifiersProperty) else []
  }

  /** `identifier.Value = value`; the quoting stays. */
  function Renamed(id: Fragment, value: string): (r: Fragment)
    ensures ValueOf(r) == value
  {
    id.(Kind := Identifier(value, if id.Kind.Identifier? then id.Kind.Quote else NotQuoted))
  }

  /** A column reference with a MultiPartIdentifier holding at least one identifier. */
  predicate HasIdentifiers(node: Fragment)
  {
    FieldValue(node, MultiPartIdentifierProperty).Some? && ColumnIdentifiers(node) != []
  }

  /** The column reference whose MultiPartIdentifier now holds `ids`. */
  function WithIdentifiers(node: Fragment, ids: seq<Fragment>): Fragment
    requires HasIdentifiers(node)
  {
    var mpi := FieldValue(node, MultiPartIdentifierProperty).value;
    FieldHolds(node, MultiPartIdentifierProperty);
    Replace(node, MultiPartIdentifierProperty, mpi, WithElements(mpi, IdentifiersProperty, ids))
  }

  /** The new identifiers read back, and the node keeps its class. */
  lemma WithIdentifiersReads(node: Fragment, ids: seq<Fragment>)
    requires HasIdentifiers(node)
    ensures ColumnIdentifiers(WithIdentifiers(node, ids)) == ids
    ensures WithIdentifiers(node, ids).Kind == node.Kind
    ensures ids != [] ==> HasIdentifiers(WithIdentifiers(node, ids))
  {
    var mpi := FieldValue(node, MultiPartIdentifierProperty).value;
    var k := SlotIndex(node.Slots, MultiPartIdentifierProperty);
    var updated := WithElements(mpi, IdentifiersProperty, ids);
    WithElementsReads(mpi, IdentifiersProperty, ids);
    SlotIndexOfUpdate(node.Slots, MultiPartIdentifierProperty, k, Field(MultiPartIdentifierProperty, Some(updated)));
  }

  /** The column reference with identifier `i` renamed. */
  function RenameAt(node: Fragment, i: nat, value: string): Fragment
    requires HasIdentifiers(node) && i < |ColumnIdentifiers(node)|
  {
    var ids := ColumnIdentifiers(node);
    WithIdentifiers(node, ids[i := Renamed(ids[i], value)])
  }

  /** Renaming changes that one part of the name and nothing else. */
  lemma RenameAtReads(node: Fragment, i: nat, value: string)
    requires HasIdentifiers(node) && i < |ColumnIdentifiers(node)|
    ensures IdentifierValues(ColumnIdentifiers(RenameAt(node, i, value)))
         == IdentifierValues(ColumnIdentifiers(node))[i := value]
    ensures HasIdentifiers(RenameAt(node, i, value)) && RenameAt(node, i, value).Kind == node.Kind
  {
    var ids := ColumnIdentifiers(node);
    WithIdentifiersReads(node, ids[i := Renamed(ids[i], value)]);
  }

  // ----------------------------------------------------- The rewritten column

  /**
   * What one visit leaves: the column reference as rewritten, the parent
   * when its property was overwritten, and the exception thrown, if any.
   */
  datatype Outcome = Outcome(Node: Fragment, Parent: Option<Fragment>, Failure: Option<Exception>)

  /** A property holding a reference: its type can be one, or it is the system "Ссылка". */
  predicate IsReference(property: MetadataProperty)
  {
    property.PropertyType.CanBeReference || (property.Purpose == System && property.Name == "Ссылка")
  }

  /** VisitValueTypeColumn: a single field renames the identifier, several leave it alone. */
  function ValueTypeColumn(node: Fragment, i: nat, property: MetadataProperty): (r: Outcome)
    requires HasIdentifiers(node) && i < |ColumnIdentifiers(node)|
    // A value column never fails and never rewrites its parent; only a single field changes it.
    ensures r.Parent.None? && r.Failure.None?
    ensures |property.Fields| != 1 ==> r.Node == node
  {
    if |property.Fields| == 1 then Outcome(RenameAt(node, i, property.Fields[0].Name), None, None)
    else Outcome(node, None, None)
  }

  /** The column reference replaced by `expression` in the parent's property, or the failure of that write. */
  function Substituted(rewritten: Fragment, parent: Fragment, sourceProperty: string, node: Fragment, expression: Fragment): Outcome
  {
    match SetSlot(parent, sourceProperty, node, expression)
    case Ok(p) => Outcome(rewritten, Some(p), None)
    case Throws(e) => Outcome(rewritten, None, Some(e))
  }

  /** `new BinaryLiteral { Value = value }`. */
  function Literal(value: string): Fragment
  {
    NewFragment(BinaryLiteral(value), [])
  }

  /** What a pseudo-field selects: one of the property's fields (null when none fits) or a literal. */
  datatype Selection = Column(Field: Option<DatabaseField>) | Folded(Value: string)

  function PseudoFieldSelection(fieldName: string, property: MetadataProperty, code: int32): (r: Selection)
    // A selected column is one of the property's own fields; a literal is only chosen for a single field.
    ensures r.Column? && r.Field.Some? ==> r.Field.value in property.Fields
    ensures r.Folded? ==> |property.Fields| == 1
  {
    var single := |property.Fields| == 1;
    if fieldName == "uuid" then
      Column(if single then Some(property.Fields[0]) else FirstField(property.Fields, Object))
    else if fieldName == "type" then
      if single then Folded(HexLiteral(code)) else Column(FirstField(property.Fields, TypeCode))
    else if fieldName == "TYPE" then
      if single then Folded("0x08") else Column(FirstField(property.Fields, Discriminator))
    else Column(None)
  }

  /**
   * VisitReferenceTypeColumn with a pseudo-field: a selected field renames
   * the property identifier and drops the last identifier; a literal takes
   * the column reference's place in its parent; no field fails on
   * `field.Name`.
   */
  function PseudoFieldColumn(node: Fragment, parent: Fragment, sourceProperty: string, i: nat,
                             fieldName: string, property: MetadataProperty, code: int32): (r: Outcome)
    requires HasIdentifiers(node) && i < |ColumnIdentifiers(node)|
    // Only a literal rewrites the parent, and a failure leaves the column reference as it was.
    ensures r.Parent.Some? ==> r.Failure.None? && PseudoFieldSelection(fieldName, property, code).Folded?
    ensures r.Failure.Some? ==> r.Node == node && r.Parent.None?
  {
    match PseudoFieldSelection(fieldName, property, code)
    case Column(None) => Outcome(node, None, Some(NullReference))
    case Column(Some(field)) =>
      var ids := ColumnIdentifiers(node);
      Outcome(WithIdentifiers(node, ids[i := Renamed(ids[i], field.Name)][..|ids| - 1]), None, None)
    case Folded(value) => Substituted(node, parent, sourceProperty, node, Literal(value))
  }

  /** `(first + second)`: a ParenthesisExpression around an Add BinaryExpression. */
  function TypeCodeSum(first: Fragment, second: Fragment): Fragment
  {
    NewFragment(ParenthesisExpression, [Field("Expression", Some(
      NewFragment(BinaryExpression(Add), [Field("FirstExpression", Some(first)), Field("SecondExpression", Some(second))])))])
  }

  /** The sum reads back as a parenthesised addition with the type code term first. */
  lemma TypeCodeSumOperands(first: Fragment, second: Fragment)
    ensures var e := TypeCodeSum(first, second);
      e.Kind == ParenthesisExpression && FieldValue(e, "Expression").Some?
      && var b := FieldValue(e, "Expression").value;
      b.Kind == BinaryExpression(Add)
      && FieldValue(b, "FirstExpression") == Some(first) && FieldValue(b, "SecondExpression") == Some(second)
  {
    var b := NewFragment(BinaryExpression(Add), [Field("FirstExpression", Some(first)), Field("SecondExpression", Some(second))]);
    assert SlotIndex(b.Slots, "SecondExpression") == 1 by {
      assert b.Slots[1..] == [Field("SecondExpression", Some(second))];
    }
  }

  /** `new ColumnReferenceExpression { ColumnType = Regular, MultiPartIdentifier = mpi }`. */
  function ColumnFor(ids: seq<Fragment>): Fragment
  {
    NewFragment(ColumnReferenceExpression(Regular), [Field(MultiPartIdentifierProperty, Some(
      NewFragment(MultiPartIdentifier, [Items(IdentifiersProperty, ids)])))])
  }

  /** The copy loop `mpi.Identifiers.Add(new Identifier { Value = id.Value })`. */
  method CopyIdentifiers(ids: seq<Fragment>) returns (copy: seq<Fragment>)
    ensures copy == NewIdentifiers(IdentifierValues(ids))
  {
    copy := [];
    for i := 0 to |ids|
      invariant copy == NewIdentifiers(IdentifierValues(ids[..i]))
    {
      IdentifierValuesStep(ids, i);
      NewIdentifiersSnoc(IdentifierValues(ids[..i]), ValueOf(ids[i]));
      copy := copy + [NewIdentifier(ValueOf(ids[i]))];
    }
    assert ids[..|ids|] == ids;
  }

  lemma {:induction false} NewIdentifiersSnoc(values: seq<string>, value: string)
    ensures NewIdentifiers(values + [value]) == NewIdentifiers(values) + [NewIdentifier(value)]
  {
    if values != [] {
      assert (values + [value])[1..] == values[1..] + [value];
      NewIdentifiersSnoc(values[1..], value);
    }
  }

  /** The type code column of a composite reference: a copy of the name whose last part is the type code field. */
  function TypeCodeColumn(ids: seq<Fragment>, typeCodeName: string): Fragment
    requires ids != []
  {
    var copy := NewIdentifiers(IdentifierValues(ids));
    ColumnFor(copy[|copy| - 1 := Renamed(copy[|copy| - 1], typeCodeName)])
  }

  /**
   * VisitReferenceTypeColumn for a bare reference. One field gives
   * `(0xTTTTTTTT + column)` with the column renamed to the field. Several
   * fields give `(typeCodeColumn + column)` with the column renamed to the
   * Object field; a missing Object field fails before anything changes, a
   * missing TypeCode field after the rename.
   */
  function BareReferenceColumn(node: Fragment, parent: Fragment, sourceProperty: string, i: nat,
                               property: MetadataProperty, code: int32): (r: Outcome)
    requires HasIdentifiers(node) && i < |ColumnIdentifiers(node)|
    // Exactly the rewrites that succeed put the sum in the column reference's place in its parent.
    ensures r.Parent.Some? <==> r.Failure.None?
  {
    if |property.Fields| == 1 then
      var renamed := RenameAt(node, i, property.Fields[0].Name);
      Substituted(renamed, parent, sourceProperty, node, TypeCodeSum(Literal(HexLiteral(code)), renamed))
    else
      var typeCode := FirstField(property.Fields, TypeCode);
      var reference := FirstField(property.Fields, Object);
      if reference.None? then Outcome(node, None, Some(NullReference))
      else
        var renamed := RenameAt(node, i, reference.value.Name);
        if typeCode.None? then Outcome(renamed, None, Some(NullReference))
        else
          RenameAtReads(node, i, reference.value.Name);
          Substituted(renamed, parent, sourceProperty, node,
                      TypeCodeSum(TypeCodeColumn(ColumnIdentifiers(renamed), typeCode.value.Name), renamed))
  }

  /** The bare-reference overload as the source writes it, with the copy loop. */
  method VisitReferenceTypeColumn(node: Fragment, parent: Fragment, sourceProperty: string, i: nat,
                                  property: MetadataProperty, code: int32) returns (r: Outcome)
    requires HasIdentifiers(node) && i < |ColumnIdentifiers(node)|
    ensures r == BareReferenceColumn(node, parent, sourceProperty, i, property, code)
  {
    if |property.Fields| == 1 {
      var hexTypeCode := HexLiteral(code);
      var renamed := RenameAt(node, i, property.Fields[0].Name);
      return Substituted(renamed, parent, sourceProperty, node, TypeCodeSum(Literal(hexTypeCode), renamed));
    }
    var typeCode := FirstField(property.Fields, TypeCode);
    var reference := FirstField(property.Fields, Object);
    if reference.None? {
      return Outcome(node, None, Some(NullReference));
    }
    var renamed := RenameAt(node, i, reference.value.Name);
    RenameAtReads(node, i, reference.value.Name);
    var copy := CopyIdentifiers(ColumnIdentifiers(renamed));
    if typeCode.None? {
      return Outcome(renamed, None, Some(NullReference));
    }
    copy := copy[|copy| - 1 := Renamed(copy[|copy| - 1], typeCode.value.Name)];
    return Substituted(renamed, parent, sourceProperty, node, TypeCodeSum(ColumnFor(copy), renamed));
  }

  /** The rewrite once a property with fields is resolved and its type code patched. */
  function VisitColumn(node: Fragment, parent: Fragment, sourceProperty: string, parts: Parts,
                       property: MetadataProperty, code: int32): Outcome
    requires HasIdentifiers(node) && ColumnParts(IdentifierValues(ColumnIdentifiers(node))) == Ok(parts)
  {
    if property.Fields == [] then Outcome(node, None, None)
    else if IsReference(property) then
      if parts.FieldName.None? then BareReferenceColumn(node, parent, sourceProperty, parts.Identifier, property, code)
      else PseudoFieldColumn(node, parent, sourceProperty, parts.Identifier, parts.FieldName.value, property, code)
    else ValueTypeColumn(node, parts.Identifier, property)
  }

  // ------------------------------------------------- What the rewrite means

  /**
   * A value property with one field renames the identifier naming it to
   * that field; with several fields the column is left alone. The parent is
   * never written.
   */
  lemma ValueColumnRenamed(node: Fragment, i: nat, property: MetadataProperty)
    requires HasIdentifiers(node) && i < |ColumnIdentifiers(node)|
    ensures var o := ValueTypeColumn(node, i, property);
      o.Parent.None? && o.Failure.None?
      && (|property.Fields| == 1 ==>
            IdentifierValues(ColumnIdentifiers(o.Node))
            == IdentifierValues(ColumnIdentifiers(node))[i := property.Fields[0].Name])
      && (|property.Fields| != 1 ==> o.Node == node)
  {
    if |property.Fields| == 1 {
      RenameAtReads(node, i, property.Fields[0].Name);
    }
  }

  /**
   * The field a pseudo-field selects belongs to the property; when the
   * property has several fields it is the first one with the matching
   * purpose: Object for uuid, TypeCode for type, Discriminator for TYPE.
   * Only uuid, type and TYPE select anything; `TYPE` on a single-field
   * reference folds into the discriminator literal 0x08.
   */
  lemma SelectedFieldBelongs(fieldName: string, property: MetadataProperty, code: int32)
    ensures var s := PseudoFieldSelection(fieldName, property, code);
      (s.Column? && s.Field.Some? ==> s.Field.value in property.Fields)
      && (s.Column? && s.Field.Some? && |property.Fields| != 1 ==>
            s.Field.value.Purpose == (if fieldName == "uuid" then Object else if fieldName == "type" then TypeCode else Discriminator))
      && (!IsSpecialField(fieldName) ==> s == Column(None))
      && (s.Folded? ==> |property.Fields| == 1 && (fieldName == "type" || fieldName == "TYPE"))
      && (fieldName == "TYPE" && |property.Fields| == 1 ==> s == Folded("0x08"))
  {
  }

  /**
   * `type` on a single-field reference folds into "0x" and eight upper-case
   * hex digits that spell the reference type code (as an unsigned 32-bit
   * value).
   */
  lemma TypeLiteralEncodesCode(property: MetadataProperty, code: int32)
    requires |property.Fields| == 1
    ensures PseudoFieldSelection("type", property, code).Folded?
    ensures var v := PseudoFieldSelection("type", property, code).Value;
      |v| == 10 && v[..2] == "0x" && (forall k | 2 <= k < 10 :: v[k] in HexDigits)
      && HexValue(v[2..]) == (code as int) % 0x1_0000_0000
  {
    assert PseudoFieldSelection("type", property, code) == Folded(HexLiteral(code));
    HexLiteralShape(code);
  }

  /**
   * A pseudo-field that selects a field renames the property identifier to
   * that field and drops the last identifier, so the name gets one part
   * shorter. No field fails with the column intact; a
   * literal takes the column's place in the parent's property.
   */
  lemma PseudoFieldRemoved(node: Fragment, parent: Fragment, sourceProperty: string, i: nat,
                           fieldName: string, property: MetadataProperty, code: int32)
    requires HasIdentifiers(node) && i + 1 < |ColumnIdentifiers(node)|
    ensures var o := PseudoFieldColumn(node, parent, sourceProperty, i, fieldName, property, code);
      var s := PseudoFieldSelection(fieldName, property, code);
      var values := IdentifierValues(ColumnIdentifiers(node));
      (s == Column(None) ==> o == Outcome(node, None, Some(NullReference)))
      && (s.Column? && s.Field.Some? ==>
            o.Parent.None? && o.Failure.None?
            && IdentifierValues(ColumnIdentifiers(o.Node)) == values[i := s.Field.value.Name][..|values| - 1]
            && |ColumnIdentifiers(o.Node)| == |values| - 1)
      && (s.Folded? ==>
            o.Node == node
            && (o.Failure.None? <==> SetSlot(parent, sourceProperty, node, Literal(s.Value)).Ok?)
            && (o.Failure.None? ==> o.Parent.Some? && Holds(o.Parent.value, sourceProperty, Literal(s.Value))))
  {
    var s := PseudoFieldSelection(fieldName, property, code);
    var ids := ColumnIdentifiers(node);
    if s.Column? && s.Field.Some? {
      var shorter := ids[i := Renamed(ids[i], s.Field.value.Name)][..|ids| - 1];
      WithIdentifiersReads(node, shorter);
      RenameAndDrop(ids, i, s.Field.value.Name);
    } else if s.Folded? {
      SetSlotPlaces(parent, sourceProperty, node, Literal(s.Value));
    }
  }

  /** Renaming one identifier and dropping the last, read as values. */
  lemma RenameAndDrop(ids: seq<Fragment>, i: nat, name: string)
    requires i < |ids|
    ensures IdentifierValues(ids[i := Renamed(ids[i], name)][..|ids| - 1])
         == IdentifierValues(ids)[i := name][..|ids| - 1]
  {
    IdentifierValuesUpdate(ids, i, Renamed(ids[i], name));
  }

  /**
   * A bare single-field reference becomes `(0xTTTTTTTT + column)`: the type
   * code literal first, then the column reference renamed to the field, put
   * where the column reference was.
   */
  lemma SingleReferenceSum(node: Fragment, parent: Fragment, sourceProperty: string, i: nat,
                           property: MetadataProperty, code: int32)
    requires HasIdentifiers(node) && i < |ColumnIdentifiers(node)| && |property.Fields| == 1
    ensures var o := BareReferenceColumn(node, parent, sourceProperty, i, property, code);
      IdentifierValues(ColumnIdentifiers(o.Node))
        == IdentifierValues(ColumnIdentifiers(node))[i := property.Fields[0].Name]
      && (o.Failure.None? <==> SetSlot(parent, sourceProperty, node, TypeCodeSum(Literal(HexLiteral(code)), o.Node)).Ok?)
      && (o.Failure.None? ==>
            o.Parent.Some? && Holds(o.Parent.value, sourceProperty, TypeCodeSum(Literal(HexLiteral(code)), o.Node)))
  {
    var renamed := RenameAt(node, i, property.Fields[0].Name);
    RenameAtReads(node, i, property.Fields[0].Name);
    SetSlotPlaces(parent, sourceProperty, node, TypeCodeSum(Literal(HexLiteral(code)), renamed));
  }

  /** The type code column copies the name and replaces its last part with the type code field. */
  lemma TypeCodeColumnReads(ids: seq<Fragment>, typeCodeName: string)
    requires ids != []
    ensures var c := TypeCodeColumn(ids, typeCodeName);
      c.Kind == ColumnReferenceExpression(Regular) && HasIdentifiers(c)
      && IdentifierValues(ColumnIdentifiers(c)) == IdentifierValues(ids)[..|ids| - 1] + [typeCodeName]
  {
    var values := IdentifierValues(ids);
    var copy := NewIdentifiers(values);
    var last := copy[|copy| - 1 := Renamed(copy[|copy| - 1], typeCodeName)];
    ColumnForReads(last);
    IdentifierValuesUpdate(copy, |copy| - 1, Renamed(copy[|copy| - 1], typeCodeName));
    UpdateLast(values, typeCodeName);
  }

  /** Overwriting the last element is cutting it off and appending the new one. */
  lemma UpdateLast(s: seq<string>, x: string)
    requires s != []
    ensures s[|s| - 1 := x] == s[..|s| - 1] + [x]
  {
    var a, b := s[|s| - 1 := x], s[..|s| - 1] + [x];
    assert |a| == |b|;
    forall k | 0 <= k < |a|
      ensures a[k] == b[k]
    {
      if k < |s| - 1 {
        assert b[k] == s[k];
      }
    }
  }

  /** A column built from a list of identifiers reads that list back. */
  lemma ColumnForReads(ids: seq<Fragment>)
    ensures ColumnIdentifiers(ColumnFor(ids)) == ids
    ensures ids != [] ==> HasIdentifiers(ColumnFor(ids))
  {
  }

  /** Overwriting one identifier overwrites that one value. */
  lemma IdentifierValuesUpdate(ids: seq<Fragment>, k: nat, id: Fragment)
    requires k < |ids|
    ensures IdentifierValues(ids[k := id]) == IdentifierValues(ids)[k := ValueOf(id)]
  {
  }

  /**
   * A bare composite reference (the identifier naming it is the last part)
   * becomes `(typeCodeColumn + objectColumn)`: the two columns spell the same
   * name up to the last part, which is the TypeCode field in the first term
   * and the Object field in the second. A missing Object field fails with the
   * column intact; a missing TypeCode field fails after the rename.
   */
  lemma CompositeReferenceSum(node: Fragment, parent: Fragment, sourceProperty: string,
                              property: MetadataProperty, code: int32)
    requires HasIdentifiers(node) && |property.Fields| != 1
    ensures var i := |ColumnIdentifiers(node)| - 1;
      FirstField(property.Fields, Object).None? ==>
        BareReferenceColumn(node, parent, sourceProperty, i, property, code) == Outcome(node, None, Some(NullReference))
    ensures var i := |ColumnIdentifiers(node)| - 1;
      var reference := FirstField(property.Fields, Object);
      reference.Some? ==>
        var o := BareReferenceColumn(node, parent, sourceProperty, i, property, code);
        var renamed := RenameAt(node, i, reference.value.Name);
        o.Node == renamed && HasIdentifiers(renamed)
        && IdentifierValues(ColumnIdentifiers(renamed)) == IdentifierValues(ColumnIdentifiers(node))[..i] + [reference.value.Name]
        && (FirstField(property.Fields, TypeCode).None? ==> o.Parent.None? && o.Failure == Some(NullReference))
    ensures var i := |ColumnIdentifiers(node)| - 1;
      var reference := FirstField(property.Fields, Object);
      var typeCode := FirstField(property.Fields, TypeCode);
      reference.Some? && typeCode.Some? ==>
        var o := BareReferenceColumn(node, parent, sourceProperty, i, property, code);
        var renamed := RenameAt(node, i, reference.value.Name);
        HasIdentifiers(renamed)
        && var c := TypeCodeColumn(ColumnIdentifiers(renamed), typeCode.value.Name);
        IdentifierValues(ColumnIdentifiers(c)) == IdentifierValues(ColumnIdentifiers(node))[..i] + [typeCode.value.Name]
        && (o.Failure.None? ==> o.Parent.Some? && Holds(o.Parent.value, sourceProperty, TypeCodeSum(c, renamed)))
  {
    var ids := ColumnIdentifiers(node);
    var i := |ids| - 1;
    var typeCode := FirstField(property.Fields, TypeCode);
    var reference := FirstField(property.Fields, Object);
    if reference.Some? {
      var renamed := RenameAt(node, i, reference.value.Name);
      RenameAtReads(node, i, reference.value.Name);
      var values := IdentifierValues(ids);
      UpdateLast(values, reference.value.Name);
      if typeCode.Some? {
        var renamedIds := ColumnIdentifiers(renamed);
        TypeCodeColumnReads(renamedIds, typeCode.value.Name);
        assert IdentifierValues(renamedIds)[..i] == values[..i];
        SetSlotPlaces(parent, sourceProperty, node, TypeCodeSum(TypeCodeColumn(renamedIds, typeCode.value.Name), renamed));
      }
    }
  }

  // ------------------------------------------------------------- The visit

  /** The guards at the head of Visit: a Regular column reference inside a statement that has tables. */
  predicate Applies(node: Fragment, result: SyntaxNode?)
    reads result
  {
    node.Kind == ColumnReferenceExpression(Regular) && result != null && result.Kind == StatementNode
    && result.TableMap != []
  }

  /** The property the visit resolves, if it gets that far. */
  function Lookup(node: Fragment, result: SyntaxNode?): Option<Found>
    reads result, if result == null then {} else TableNodes(result.TableMap)
  {
    if Applies(node, result) && FieldValue(node, MultiPartIdentifierProperty).Some? then
      var parts := ColumnParts(IdentifierValues(ColumnIdentifiers(node)));
      if parts.Ok? then PropertyOf(result.TableMap, parts.value) else None
    else None
  }

  /** The type the visit may patch: that of the resolved property. */
  function PatchTarget(node: Fragment, result: SyntaxNode?): set<DataTypeInfo>
    reads result, if result == null then {} else TableNodes(result.TableMap)
  {
    var found := Lookup(node, result);
    if found.Some? then {found.value.Property.PropertyType} else {}
  }

  /** The property's reference type code once FixPropertyTypeCode has run. */
  function PatchedCode(service: Service, found: Found): int32
    reads found.Property.PropertyType
  {
    var p := found.Property;
    PatchedTypeCode(service, found.Owner, p.Name, p.Purpose, p.PropertyType.ReferenceTypeUuid, p.PropertyType.ReferenceTypeCode)
  }

  /** Everything Visit does to the column reference and its parent, in terms of the state it starts from. */
  function Expected(service: Service, node: Fragment, parent: Fragment, sourceProperty: string, result: SyntaxNode?): Outcome
    reads result, if result == null then {} else TableNodes(result.TableMap), PatchTarget(node, result)
  {
    if !Applies(node, result) then Outcome(node, None, None)
    else if FieldValue(node, MultiPartIdentifierProperty).None? then Outcome(node, None, Some(NullReference))
    else
      var parts := ColumnParts(IdentifierValues(ColumnIdentifiers(node)));
      if parts.Throws? then Outcome(node, None, Some(parts.error))
      else
        match Lookup(node, result)
        case None => Outcome(node, None, None)
        case Some(found) => VisitColumn(node, parent, sourceProperty, parts.value, found.Property, PatchedCode(service, found))
  }

  /**
   * Visit(node, parent, sourceProperty, result). The visitor's own return
   * value is always `result`; the model returns the column reference as
   * rewritten, the parent when its property was overwritten, and the
   * exception thrown, if any. Only the resolved property's type is patched.
   */
  method Visit(service: Service, node: Fragment, parent: Fragment, sourceProperty: string, result: SyntaxNode?)
    returns (rewritten: Fragment, parentAfter: Option<Fragment>, failure: Option<Exception>)
    modifies PatchTarget(node, result)
    ensures Outcome(rewritten, parentAfter, failure) == old(Expected(service, node, parent, sourceProperty, result))
    ensures var found := old(Lookup(node, result));
      found.Some? ==> found.value.Property.PropertyType.ReferenceTypeCode == old(PatchedCode(service, found.value))
  {
    if node.Kind != ColumnReferenceExpression(Regular) || result == null || result.Kind != StatementNode || result.TableMap == [] {
      return node, None, None;
    }
    if FieldValue(node, MultiPartIdentifierProperty).None? {
      return node, None, Some(NullReference);
    }
    ghost var lookup := Lookup(node, result);
    ghost var expected := Expected(service, node, parent, sourceProperty, result);
    ghost var code := if lookup.Some? then PatchedCode(service, lookup.value) else 0;
    ExpectedCases(service, node, parent, sourceProperty, result);
    var parts, found := Resolve(node, result);
    if parts.Throws? {
      return node, None, Some(parts.error);
    }
    assert forall o | o in TableNodes(result.TableMap) :: old(allocated(o));
    assert found == lookup;
    if found.None? {
      return node, None, None;
    }
    var property := found.value.Property;
    PatchType(service, found.value);
    assert property.PropertyType.ReferenceTypeCode == code;
    var outcome := ResolvedColumn(node, parent, sourceProperty, parts.value, property, property.PropertyType.ReferenceTypeCode);
    assert outcome == expected;
    return outcome.Node, outcome.Parent, outcome.Failure;
  }

  /** How Expected unfolds once the guards have passed and the column has a MultiPartIdentifier. */
  lemma ExpectedCases(service: Service, node: Fragment, parent: Fragment, sourceProperty: string, result: SyntaxNode)
    requires Applies(node, result) && FieldValue(node, MultiPartIdentifierProperty).Some?
    ensures var parts := ColumnParts(IdentifierValues(ColumnIdentifiers(node)));
      var found := Lookup(node, result);
      var expected := Expected(service, node, parent, sourceProperty, result);
      (parts.Throws? ==> expected == Outcome(node, None, Some(parts.error)))
      && (parts.Ok? ==> found == PropertyOf(result.TableMap, parts.value))
      && (parts.Ok? && found.None? ==> expected == Outcome(node, None, None))
      && (found.Some? ==>
            (parts.Ok? && HasIdentifiers(node)
             && expected == VisitColumn(node, parent, sourceProperty, parts.value, found.value.Property,
                                        PatchedCode(service, found.value))))
  {
  }

  /** Reading the identifiers, classifying them and looking the property up. */
  method Resolve(node: Fragment, result: SyntaxNode) returns (parts: Result<Parts>, found: Option<Found>)
    requires Applies(node, result) && FieldValue(node, MultiPartIdentifierProperty).Some?
    ensures parts == ColumnParts(IdentifierValues(ColumnIdentifiers(node)))
    ensures parts.Ok? ==> found == PropertyOf(result.TableMap, parts.value)
  {
    var values := ReadIdentifiers(ColumnIdentifiers(node));
    parts := ColumnParts(values);
    found := None;
    if parts.Ok? {
      found := GetProperty(result, parts.value);
    }
  }

  /** `if (property.PropertyType.ReferenceTypeCode == 0) FixPropertyTypeCode(...)`. */
  method PatchType(service: Service, found: Found)
    modifies found.Property.PropertyType
    ensures found.Property.PropertyType.ReferenceTypeCode == old(PatchedCode(service, found))
  {
    if found.Property.PropertyType.ReferenceTypeCode == 0 {
      FixPropertyTypeCode(service, found.Owner, found.Property);
    }
  }

  /** The branch on the property's type at the end of Visit. */
  method ResolvedColumn(node: Fragment, parent: Fragment, sourceProperty: string, parts: Parts,
                        property: MetadataProperty, code: int32) returns (r: Outcome)
    requires HasIdentifiers(node) && ColumnParts(IdentifierValues(ColumnIdentifiers(node))) == Ok(parts)
    ensures r == VisitColumn(node, parent, sourceProperty, parts, property, code)
  {
    if property.Fields == [] {
      return Outcome(node, None, None);
    }
    if IsReference(property) {
      if parts.FieldName.None? {
        r := VisitReferenceTypeColumn(node, parent, sourceProperty, parts.Identifier, property, code);
      } else {
        r := PseudoFieldColumn(node, parent, sourceProperty, parts.Identifier, parts.FieldName.value, property, code);
      }
    } else {
      r := ValueTypeColumn(node, parts.Identifier, property);
    }
  }
}
