/**
 * The scope-building visitors: each looks at one parse-tree fragment and the
 * overlay node current at that point of the walk (`result`), and either
 * opens a new StatementNode, registers something in the current one, or
 * records the fragment being visited. Each returns the overlay node the walk
 * continues under. PriorityProperties names the properties the walk visits
 * first.
 */
module ScopeVisitors {
  import opened Wrappers
  import opened Text
  import opened ParseTree
  import opened SyntaxTree

  // ------------------------------------------------- PriorityProperties

  const QuerySpecificationPriority: seq<string> := ["FromClause"]
  const QualifiedJoinPriority: seq<string> := ["FirstTableReference", "SecondTableReference"]
  const UpdateSpecificationPriority: seq<string> := ["Target", "FromClause", "SetClauses"]
  const DeleteSpecificationPriority: seq<string> := ["Target", "FromClause"]
  const InsertSpecificationPriority: seq<string> := ["Target", "Columns", "InsertSource"]

  /** SelectElementVisitor and WhereClauseVisitor have none (null). */
  const NoPriority: Option<seq<string>> := None

  // ------------------------------------------------- New nodes

  /** The link fields every visitor sets on the node it creates. */
  ghost predicate Links(n: SyntaxNode, result: SyntaxNode?, fragment: Fragment, parent: Fragment, sourceProperty: string)
    reads n
  {
    n.Parent == result && n.Fragment == Some(fragment) && n.ParentFragment == Some(parent)
    && n.TargetProperty == Some(sourceProperty)
  }

  /** `new StatementNode { Parent, Fragment, ParentFragment, TargetProperty }`, with empty tables and columns. */
  method NewStatement(result: SyntaxNode, fragment: Fragment, parent: Fragment, sourceProperty: string)
    returns (statement: SyntaxNode)
    ensures fresh(statement) && statement.Kind == StatementNode
    ensures Links(statement, result, fragment, parent, sourceProperty)
    ensures statement.TableMap == [] && statement.Columns == [] && statement.Statements == []
    ensures statement.VisitContext.None? && statement.Where == null
  {
    statement := new SyntaxNode(StatementNode, result, result.Depth + 1);
    statement.Fragment, statement.ParentFragment, statement.TargetProperty := Some(fragment), Some(parent), Some(sourceProperty);
  }

  /** `script.Statements.Add(statement)`. */
  method AppendStatement(script: SyntaxNode, statement: SyntaxNode)
    modifies script`Statements
    ensures script.Statements == old(script.Statements) + [statement]
  {
    script.Statements := script.Statements + [statement];
  }

  // ------------------------------------------------- QuerySpecificationVisitor

  /** GetAlias: the alias of the table reference, or "" when it has none. */
  function AliasKey(table: Fragment): (key: string)
    ensures FieldValue(table, "Alias").None? ==> key == ""
    ensures IdentifierText(FieldValue(table, "Alias")).Some? ==> key == IdentifierText(FieldValue(table, "Alias")).value
  {
    match IdentifierText(FieldValue(table, "Alias"))
    case None => ""
    case Some(alias) => alias
  }

  /**
   * QuerySpecificationVisitor.Visit. Under the script, a query of a SELECT
   * statement opens a new statement scope appended to the script's
   * statements; under a statement, a derived table's query opens a scope
   * registered in the outer statement's tables under the derived table's
   * alias; under any other node nothing happens. The new scope is returned
   * even when it was registered nowhere. A repeated alias throws, with the
   * tables left as they were.
   */
  method VisitQuerySpecification(node: Fragment, parent: Fragment, sourceProperty: string, result: SyntaxNode?)
    returns (r: SyntaxNode?, failure: Option<Exception>)
    modifies result
    ensures result != null ==>
      unchanged(result`Columns, result`Tables, result`Where, result`VisitContext, result`Name, result`Alias)
    ensures (!node.Kind.QuerySpecification? || result == null || (result.Kind != ScriptNode && result.Kind != StatementNode)) ==>
      r == result && failure.None? && (result != null ==> unchanged(result))
    ensures (node.Kind.QuerySpecification? && result != null && result.Kind == ScriptNode) ==>
      failure.None? && r != null && fresh(r) && r.Kind == StatementNode
      && Links(r, result, node, parent, sourceProperty) && r.TableMap == [] && r.Columns == []
      && result.TableMap == old(result.TableMap)
      && result.Statements == if parent.Kind.SelectStatement? then old(result.Statements) + [r] else old(result.Statements)
    ensures (node.Kind.QuerySpecification? && result != null && result.Kind == StatementNode) ==>
      result.Statements == old(result.Statements)
      && (!IsTableReferenceWithAlias(parent.Kind) || AliasKey(parent) !in TableKeys(old(result.TableMap)) ==>
            failure.None? && r != null && fresh(r) && r.Kind == StatementNode
            && Links(r, result, node, parent, sourceProperty) && r.TableMap == [] && r.Columns == [])
      && (!IsTableReferenceWithAlias(parent.Kind) ==> result.TableMap == old(result.TableMap))
      && (IsTableReferenceWithAlias(parent.Kind) && AliasKey(parent) in TableKeys(old(result.TableMap)) ==>
            failure == Some(DuplicateKey) && r == result && result.TableMap == old(result.TableMap))
      && (IsTableReferenceWithAlias(parent.Kind) && AliasKey(parent) !in TableKeys(old(result.TableMap)) ==>
            result.TableMap == old(result.TableMap) + [(AliasKey(parent), r)])
  {
    if !node.Kind.QuerySpecification? || result == null || (result.Kind != ScriptNode && result.Kind != StatementNode) {
      return result, None;
    }
    var statement := NewStatement(result, node, parent, sourceProperty);
    failure := None;
    if result.Kind == ScriptNode {
      if parent.Kind.SelectStatement? {
        AppendStatement(result, statement);
      }
    } else if IsTableReferenceWithAlias(parent.Kind) {
      var alias := AliasKey(parent);
      failure := result.AddTable(alias, statement);
      if failure.Some? {
        return result, failure;
      }
    }
    r := statement;
  }

  // ------------------------------------------------- Update, Delete, Insert

  /** The statement kind a specification must sit directly under to open a scope. */
  datatype Specification = Update | Delete | Insert

  predicate IsSpecification(k: FragmentKind, s: Specification)
  {
    match s
    case Update => k.UpdateSpecification?
    case Delete => k.DeleteSpecification?
    case Insert => k.InsertSpecification?
  }

  predicate IsStatementOf(k: FragmentKind, s: Specification)
  {
    match s
    case Update => k.UpdateStatement?
    case Delete => k.DeleteStatement?
    case Insert => k.InsertStatement?
  }

  /** The properties the walk visits first under each specification. */
  function PriorityOf(s: Specification): (properties: seq<string>)
    ensures s == Update ==> properties == UpdateSpecificationPriority
    ensures s == Delete ==> properties == DeleteSpecificationPriority
    ensures s == Insert ==> properties == InsertSpecificationPriority
    ensures |properties| >= 2 && properties[0] == "Target"
  {
    match s
    case Update => UpdateSpecificationPriority
    case Delete => DeleteSpecificationPriority
    case Insert => InsertSpecificationPriority
  }

  /**
   * UpdateSpecificationVisitor, DeleteSpecificationVisitor and
   * InsertSpecificationVisitor .Visit: a specification directly under its
   * own statement, visited under the script, opens a new statement scope
   * appended to the script's statements and returned; in every other case
   * `result` is returned and the scope built for it is dropped.
   */
  method VisitSpecification(s: Specification, node: Fragment, parent: Fragment, sourceProperty: string, result: SyntaxNode?)
    returns (r: SyntaxNode?)
    modifies result
    ensures result != null ==>
      unchanged(result`TableMap, result`Columns, result`Tables, result`Where, result`VisitContext)
    ensures !(IsSpecification(node.Kind, s) && result != null && result.Kind == ScriptNode && IsStatementOf(parent.Kind, s)) ==>
      r == result && (result != null ==> unchanged(result))
    ensures (IsSpecification(node.Kind, s) && result != null && result.Kind == ScriptNode && IsStatementOf(parent.Kind, s)) ==>
      r != null && fresh(r) && r.Kind == StatementNode && Links(r, result, node, parent, sourceProperty)
      && r.TableMap == [] && r.Columns == [] && result.Statements == old(result.Statements) + [r]
  {
    if !IsSpecification(node.Kind, s) || result == null {
      return result;
    }
    var statement := NewStatement(result, node, parent, sourceProperty);
    if result.Kind == ScriptNode && IsStatementOf(parent.Kind, s) {
      AppendStatement(result, statement);
      return statement;
    }
    return result;
  }

  // ------------------------------------------------- Visiting context

  /**
   * SelectElementVisitor, QualifiedJoinVisitor and WhereClauseVisitor .Visit
   * share this step: inside a statement, remember the fragment being visited.
   */
  method SetVisitContext(statement: SyntaxNode, fragment: Fragment)
    modifies statement`VisitContext
    ensures statement.VisitContext == Some(fragment)
  {
    statement.VisitContext := Some(fragment);
  }

  /** QualifiedJoinVisitor.Visit: a join inside a statement becomes its visiting context; no scope is opened. */
  method VisitQualifiedJoin(node: Fragment, result: SyntaxNode?) returns (r: SyntaxNode?)
    modifies result
    ensures r == result
    ensures (node.Kind.QualifiedJoin? && result != null && result.Kind == StatementNode) ==>
      result.VisitContext == Some(node)
      && unchanged(result`Statements, result`TableMap, result`Columns, result`Tables, result`Where)
    ensures !(node.Kind.QualifiedJoin? && result != null && result.Kind == StatementNode) ==>
      result != null ==> unchanged(result)
  {
    if node.Kind.QualifiedJoin? && result != null && result.Kind == StatementNode {
      SetVisitContext(result, node);
    }
    r := result;
  }

  /** WhereClauseVisitor.Visit: a WHERE clause inside a statement becomes its visiting context. */
  method VisitWhereClause(node: Fragment, result: SyntaxNode?) returns (r: SyntaxNode?)
    modifies result
    ensures r == result
    ensures (node.Kind.WhereClause? && result != null && result.Kind == StatementNode) ==>
      result.VisitContext == Some(node)
      && unchanged(result`Statements, result`TableMap, result`Columns, result`Tables, result`Where)
    ensures !(node.Kind.WhereClause? && result != null && result.Kind == StatementNode) ==>
      result != null ==> unchanged(result)
  {
    if node.Kind.WhereClause? && result != null && result.Kind == StatementNode {
      SetVisitContext(result, node);
    }
    r := result;
  }

  /** `expression.ColumnName?.Value`: the column alias of a select-list expression, or "". */
  function ColumnNameValue(columnName: Option<Fragment>): (name: string)
    ensures columnName.None? ==> name == ""
    ensures columnName.Some? && columnName.value.Kind.IdentifierOrValueExpression? ==> name == columnName.value.Kind.Value
  {
    if columnName.Some? && columnName.value.Kind.IdentifierOrValueExpression? then columnName.value.Kind.Value else ""
  }

  /**
   * SelectElementVisitor.Visit: any select-list element inside a statement
   * becomes its visiting context; a scalar expression also appends a
   * ColumnNode named with its alias (or "") to the statement's columns.
   */
  method VisitSelectElement(node: Fragment, parent: Fragment, sourceProperty: string, result: SyntaxNode?)
    returns (r: SyntaxNode?)
    modifies result
    ensures r == result
    ensures !(IsSelectElement(node.Kind) && result != null && result.Kind == StatementNode) ==>
      result != null ==> unchanged(result)
    ensures (IsSelectElement(node.Kind) && result != null && result.Kind == StatementNode) ==>
      result.VisitContext == Some(node)
      && unchanged(result`Statements, result`TableMap, result`Tables, result`Where)
      && (!node.Kind.SelectScalarExpression? ==> result.Columns == old(result.Columns))
      && (node.Kind.SelectScalarExpression? ==>
            |result.Columns| == |old(result.Columns)| + 1
            && result.Columns[..|old(result.Columns)|] == old(result.Columns)
            && var column := result.Columns[|old(result.Columns)|];
            fresh(column) && column.Kind == ColumnNode && Links(column, result, node, parent, sourceProperty)
            && column.Name == Some(ColumnNameValue(FieldValue(node, "ColumnName"))))
  {
    r := result;
    if !IsSelectElement(node.Kind) || result == null || result.Kind != StatementNode {
      return;
    }
    SetVisitContext(result, node);
    if !node.Kind.SelectScalarExpression? {
      return;
    }
    var columnName := ColumnNameValue(FieldValue(node, "ColumnName"));
    var column := new SyntaxNode(ColumnNode, result, result.Depth + 1);
    column.Fragment, column.ParentFragment, column.TargetProperty := Some(node), Some(parent), Some(sourceProperty);
    column.Name := Some(columnName);
    result.Columns := result.Columns + [column];
  }
}
