/**
 * NamedTableReferenceVisitor: rewrites the name of a table in a FROM clause
 * into the bracketed "[Kind+Name]" / "[Kind+Owner+Part]" compound the
 * scripting service resolves, replaces the table's SchemaObjectName with the
 * rebuilt one whose base identifier is the physical table name, and
 * registers a TableNode for it in the statement's table dictionary.
 */
module TableReferenceVisitor {
  import opened Wrappers
  import opened Text
  import opened Metadata
  import opened ParseTree
  import opened SyntaxTree
  import opened ScriptingService

  /** The four right-aligned parts of a SchemaObjectName; a missing part is null. */
  datatype TableName = TableName(Server: Option<string>, Database: Option<string>, Schema: Option<string>, Table: string)

  /**
   * `name.ServerIdentifier?.Value`, ... , `name.BaseIdentifier?.Value`. A
   * missing base identifier reads as "", which the visitor treats like an
   * empty one.
   */
  function NameOf(schemaObject: Fragment): (n: TableName)
    ensures Aligned(n)
  {
    var ids := IdentifierValues(ListValue(schemaObject, IdentifiersProperty));
    TableName(Part(ids, 4), Part(ids, 3), Part(ids, 2), Str(Part(ids, 1)))
  }

  /** A name whose present parts are right-aligned, as a SchemaObjectName's are. */
  predicate Aligned(n: TableName)
  {
    (n.Server.Some? ==> n.Database.Some?) && (n.Database.Some? ==> n.Schema.Some?)
  }

  /** `$"[{p1}+{p2}]"`, `$"[{p1}+{p2}+{p3}]"`. */
  function Bracket(parts: seq<string>): string
  {
    "[" + Text.Join(parts, '+') + "]"
  }

  /** A database slot the service maps to the default schema: a kind marker (or ""). */
  predicate MarkerDatabase(n: TableName)
  {
    MapSchemaIdentifier(n.Database) == Some("")
  }

  /** The parts the rewrite puts into the bracketed compound. */
  function Compound(n: TableName): seq<string>
  {
    if n.Server.Some? && '+' !in n.Table && MarkerDatabase(n) then [Str(n.Database), Str(n.Schema), n.Table]
    else if n.Server.None? && n.Database.Some? && MarkerDatabase(n) then [Str(n.Database), Str(n.Schema), n.Table]
    else if n.Server.Some? || n.Database.Some? || n.Schema.Some? then [Str(n.Schema), n.Table]
    else [n.Table]
  }

  /**
   * The rewritten name, or null for a one-part name, which is left alone:
   * - `server.db.schema.[A+B]` and `server.db.schema.table` (db not a marker) keep
   *   server and database, with schema "" and table "[schema+table]";
   * - `db.Kind.Owner.Part` (a marker in the database slot of a four-part name)
   *   shifts the server into the database slot, drops the server, schema "";
   * - `Kind.Owner.Part` drops schema and database;
   * - `db.Kind.Name` keeps the database, with schema "";
   * - `Kind.Name` (any schema) drops the schema.
   */
  function Rewrite(n: TableName): Option<TableName>
  {
    var table := Bracket(Compound(n));
    if n.Server.Some? then
      if '+' !in n.Table && MarkerDatabase(n) then Some(TableName(None, n.Server, Some(""), table))
      else Some(TableName(n.Server, n.Database, Some(""), table))
    else if n.Database.Some? then
      if MarkerDatabase(n) then Some(TableName(None, None, None, table))
      else Some(TableName(None, n.Database, Some(""), table))
    else if n.Schema.Some? then Some(TableName(None, None, None, table))
    else None
  }

  /** `databaseIdentifier.TrimStart('[').TrimEnd(']')`, null without a database. */
  function DatabaseName(n: TableName): Option<string>
  {
    if n.Database.Some? then Some(TrimEnd(TrimStart(n.Database.value, '['), ']')) else None
  }

  function Present(part: Option<string>): seq<string>
  {
    if part.Some? then [part.value] else []
  }

  /**
   * The identifier values of the rebuilt SchemaObjectName: the non-null parts
   * in the order server, database, schema, table, the table replaced by its
   * physical name.
   */
  function RebuiltValues(service: Service, n: TableName): (r: seq<string>)
    ensures 1 <= |r| <= 4 && r[|r| - 1] == MapTableIdentifier(service, DatabaseName(n), n.Table)
  {
    Present(n.Server) + Present(n.Database) + Present(n.Schema)
    + [MapTableIdentifier(service, DatabaseName(n), n.Table)]
  }

  /** `new SchemaObjectName()` with one new Identifier per value. */
  function NewSchemaObjectName(values: seq<string>): Fragment
  {
    NewFragment(SchemaObjectName, [Items(IdentifiersProperty, NewIdentifiers(values))])
  }

  // ------------------------------------------------------------- Lemmas

  /** `$"[{a}+{b}]"` and `$"[{a}+{b}+{c}]"` are the bracketed joins of their parts. */
  lemma BracketTwo(a: string, b: string)
    ensures Bracket([a, b]) == "[" + a + "+" + b + "]"
  {
    assert Text.Join([a, b], '+') == a + ['+'] + Text.Join([b], '+');
  }

  lemma BracketThree(a: string, b: string, c: string)
    ensures Bracket([a, b, c]) == "[" + a + "+" + b + "+" + c + "]"
  {
    assert [a, b, c][1..] == [b, c];
    assert Text.Join([a, b, c], '+') == a + ['+'] + Text.Join([b, c], '+');
    assert Text.Join([b, c], '+') == b + ['+'] + Text.Join([c], '+');
  }

  /** The rewrite keeps names right-aligned and always leaves a bracketed compound of two or three parts. */
  lemma RewriteShape(n: TableName)
    requires Aligned(n) && Rewrite(n).Some?
    ensures Aligned(Rewrite(n).value)
    ensures Rewrite(n).value.Table == Bracket(Compound(n)) && 2 <= |Compound(n)| <= 3
    ensures Rewrite(n).value.Server.None? || Rewrite(n).value.Server == n.Server
  {
  }

  /**
   * The rebuilt SchemaObjectName reads back as the rewritten name, with the
   * physical table name as its base identifier.
   */
  lemma RebuiltReadsBack(service: Service, n: TableName)
    requires Aligned(n)
    ensures NameOf(NewSchemaObjectName(RebuiltValues(service, n)))
      == n.(Table := MapTableIdentifier(service, DatabaseName(n), n.Table))
  {
    NamePartsReadBack(n, MapTableIdentifier(service, DatabaseName(n), n.Table));
  }

  lemma NamePartsReadBack(n: TableName, t: string)
    requires Aligned(n)
    ensures NameOf(NewSchemaObjectName(Present(n.Server) + Present(n.Database) + Present(n.Schema) + [t])) == n.(Table := t)
  {
    var values := Present(n.Server) + Present(n.Database) + Present(n.Schema) + [t];
    SchemaObjectNameReadsBack(values);
    if n.Server.Some? {
      assert values == [n.Server.value, n.Database.value, n.Schema.value, t];
    } else if n.Database.Some? {
      assert values == [n.Database.value, n.Schema.value, t];
    } else if n.Schema.Some? {
      assert values == [n.Schema.value, t];
    } else {
      assert values == [t];
    }
  }

  lemma SchemaObjectNameReadsBack(values: seq<string>)
    ensures IdentifierValues(ListValue(NewSchemaObjectName(values), IdentifiersProperty)) == values
  {
    var f := NewSchemaObjectName(values);
    assert SlotIndex(f.Slots, IdentifiersProperty) == 0;
  }

  /**
   * When the compound's parts are plain names starting with a kind marker,
   * the TableNode's ApplicationObject is the entity those parts name in the
   * infobase the (trimmed) database name selects: `Kind.Name` and
   * `db.Kind.Name` find the entity, `Kind.Owner.Part` the owner's table part.
   */
  lemma RewriteResolves(service: Service, n: TableName)
    requires Rewrite(n).Some? && PlainParts(Compound(n)) && IsSpecialSchema(Some(Compound(n)[0]))
    requires SelectInfoBase(service, DatabaseName(Rewrite(n).value)).Some?
    ensures var r := Rewrite(n).value;
      var parts := Compound(n);
      var collection := GetCollection(SelectInfoBase(service, DatabaseName(r)).value, parts[0]);
      collection.Some? &&
      var owner := FirstNamed(Values(collection.value), parts[1]);
      GetApplicationObjectByName(service, DatabaseName(r), r.Table) ==
        if owner.None? then None
        else if |parts| == 3 then FirstNamed(owner.value.TableParts, parts[2])
        else owner
  {
    ResolvesCompound(service, DatabaseName(Rewrite(n).value), Compound(n));
  }

  /** In `Kind.Owner.Part` the database name is gone, so the main infobase is searched. */
  lemma KindOwnerPartSearchesMain(service: Service, kind: string, owner: string, part: string)
    requires IsSpecialSchema(Some(kind))
    ensures var r := Rewrite(TableName(None, Some(kind), Some(owner), part));
      r == Some(TableName(None, None, None, Bracket([kind, owner, part])))
      && SelectInfoBase(service, DatabaseName(r.value)) == Some(service.MainInfoBase)
  {
  }

  // ------------------------------------------------------------ Visitor

  /**
   * The branch-by-branch reassignment of the four identifiers; null when the
   * name has a single part and the visitor returns early.
   */
  method RewriteIdentifiers(name: TableName) returns (r: Option<TableName>)
    ensures r == Rewrite(name)
  {
    var server, database, schema, table := name.Server, name.Database, name.Schema, name.Table;
    if server.Some? {
      if '+' in table {
        table := "[" + Str(schema) + "+" + table + "]";
        BracketTwo(Str(schema), name.Table);
        schema := Some("");
      } else {
        var schemaName := MapSchemaIdentifier(database);
        if schemaName == Some("") {
          table := "[" + Str(database) + "+" + Str(schema) + "+" + table + "]";
          BracketThree(Str(database), Str(schema), name.Table);
          schema := Some("");
          database := server;
          server := None;
        } else {
          table := "[" + Str(schema) + "+" + table + "]";
          BracketTwo(Str(schema), name.Table);
          schema := Some("");
        }
      }
    } else if database.Some? {
      var schemaName := MapSchemaIdentifier(database);
      if schemaName == Some("") {
        table := "[" + Str(database) + "+" + Str(schema) + "+" + table + "]";
        BracketThree(Str(database), Str(schema), name.Table);
        schema := None;
        database := None;
      } else {
        table := "[" + Str(schema) + "+" + table + "]";
        BracketTwo(Str(schema), name.Table);
        schema := Some("");
      }
    } else if schema.Some? {
      table := "[" + Str(schema) + "+" + table + "]";
      BracketTwo(Str(schema), name.Table);
      schema := None;
    } else {
      return None;
    }
    return Some(TableName(server, database, schema, table));
  }

  /** The node a registered table gets: its links, its entity and its alias. */
  ghost predicate TableEntry(t: SyntaxTree.SyntaxNode, result: SyntaxTree.SyntaxNode, fragment: Fragment, parent: Fragment,
                             sourceProperty: string, entity: Option<ApplicationObject>, alias: Option<string>)
    reads t
  {
    t.Kind == TableNode && t.Parent == result && t.Fragment == Some(fragment) && t.ParentFragment == Some(parent)
    && t.TargetProperty == Some(sourceProperty) && t.ApplicationObject == entity && t.Alias == alias
    && t.Name.None?
  }

  /** The dictionary key of a table: its alias, or the compound when the alias is null or "". */
  function TableKey(alias: Option<string>, compound: string): string
  {
    if alias.None? || alias.value == "" then compound else alias.value
  }

  /** `new TableNode { ... }` followed by `statement.Tables.Add(key, table)`. */
  method RegisterTable(statement: SyntaxTree.SyntaxNode, fragment: Fragment, parent: Fragment, sourceProperty: string,
                       entity: Option<ApplicationObject>, alias: Option<string>, compound: string)
    returns (failure: Option<Exception>)
    modifies statement`TableMap
    ensures var key := TableKey(alias, compound);
      key in TableKeys(old(statement.TableMap)) ==> failure == Some(DuplicateKey) && statement.TableMap == old(statement.TableMap)
    ensures var key := TableKey(alias, compound);
      key !in TableKeys(old(statement.TableMap)) ==>
        failure.None? && |statement.TableMap| == |old(statement.TableMap)| + 1
        && statement.TableMap[..|old(statement.TableMap)|] == old(statement.TableMap)
        && statement.TableMap[|old(statement.TableMap)|].0 == key
        && fresh(statement.TableMap[|old(statement.TableMap)|].1)
        && TableEntry(statement.TableMap[|old(statement.TableMap)|].1, statement, fragment, parent, sourceProperty, entity,
                      if alias.None? || alias.value == "" then None else alias)
  {
    var table := new SyntaxTree.SyntaxNode(TableNode, statement, statement.Depth + 1);
    table.Fragment, table.ParentFragment, table.TargetProperty := Some(fragment), Some(parent), Some(sourceProperty);
    table.ApplicationObject := entity;
    if alias.None? || alias.value == "" {
      table.Alias := None;
      failure := statement.AddTable(compound, table);
    } else {
      table.Alias := alias;
      failure := statement.AddTable(alias.value, table);
    }
  }

  /** `tableReference.SchemaObject = name` on the value of the NamedTableReference. */
  function WithSchemaObject(node: Fragment, schemaObject: Fragment, name: Fragment): Fragment
    requires FieldValue(node, "SchemaObject") == Some(schemaObject)
  {
    FieldHolds(node, "SchemaObject");
    Replace(node, "SchemaObject", schemaObject, name)
  }

  /**
   * Visit(node, parent, sourceProperty, result). Returns the table reference
   * as rewritten (the source rewrites it in place) and the exception thrown,
   * if any; the visitor's own return value is always `result`.
   */
  method Visit(service: Service, node: Fragment, parent: Fragment, sourceProperty: string, result: SyntaxTree.SyntaxNode?)
    returns (rewritten: Fragment, failure: Option<Exception>)
    modifies result
    ensures result != null ==> unchanged(result`Statements, result`Columns, result`VisitContext, result`Where)
    ensures !node.Kind.NamedTableReference? || result == null || result.Kind != StatementNode ==>
      rewritten == node && failure.None? && (result != null ==> result.TableMap == old(result.TableMap))
    ensures (node.Kind.NamedTableReference? && result != null && result.Kind == StatementNode
             && FieldValue(node, "SchemaObject").None?) ==>
        rewritten == node && failure == Some(NullReference) && result.TableMap == old(result.TableMap)
    ensures var so := FieldValue(node, "SchemaObject");
      node.Kind.NamedTableReference? && result != null && result.Kind == StatementNode && so.Some?
      && (NameOf(so.value).Table == "" || Rewrite(NameOf(so.value)).None?) ==>
        rewritten == node && failure.None? && result.TableMap == old(result.TableMap)
    ensures var so := FieldValue(node, "SchemaObject");
      node.Kind.NamedTableReference? && result != null && result.Kind == StatementNode && so.Some?
      && NameOf(so.value).Table != "" && Rewrite(NameOf(so.value)).Some? ==>
        var n := Rewrite(NameOf(so.value)).value;
        var alias := IdentifierText(FieldValue(node, "Alias"));
        var key := TableKey(alias, n.Table);
        rewritten == WithSchemaObject(node, so.value, NewSchemaObjectName(RebuiltValues(service, n)))
        && (key in TableKeys(old(result.TableMap)) ==> failure == Some(DuplicateKey) && result.TableMap == old(result.TableMap))
        && (key !in TableKeys(old(result.TableMap)) ==>
              failure.None? && |result.TableMap| == |old(result.TableMap)| + 1
              && result.TableMap[..|old(result.TableMap)|] == old(result.TableMap)
              && result.TableMap[|old(result.TableMap)|].0 == key
              && fresh(result.TableMap[|old(result.TableMap)|].1)
              && TableEntry(result.TableMap[|old(result.TableMap)|].1, result, rewritten, parent, sourceProperty,
                            GetApplicationObjectByName(service, DatabaseName(n), n.Table),
                            if alias.None? || alias.value == "" then None else alias))
  {
    if !node.Kind.NamedTableReference? || result == null || result.Kind != StatementNode {
      return node, None;
    }
    var schemaObject := FieldValue(node, "SchemaObject");
    if schemaObject.None? {
      return node, Some(NullReference);
    }
    var name := NameOf(schemaObject.value);
    if name.Table == "" {
      return node, None;
    }
    var rewrite := RewriteIdentifiers(name);
    if rewrite.None? {
      return node, None;
    }
    var n := rewrite.value;
    var databaseName := DatabaseName(n);
    rewritten := WithSchemaObject(node, schemaObject.value, NewSchemaObjectName(RebuiltValues(service, n)));
    var entity := GetApplicationObjectByName(service, databaseName, n.Table);
    var alias := IdentifierText(FieldValue(node, "Alias"));
    failure := RegisterTable(result, rewritten, parent, sourceProperty, entity, alias, n.Table);
  }
}
