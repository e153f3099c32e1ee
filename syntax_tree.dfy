/**
 * The scope-tree overlay built over the parse tree: script, statement,
 * select, derived-query, join, table, column and where nodes with parent
 * links, the ancestor lookups over those links and the flattening of the
 * tables a scope can see.
 *
 * The C# class hierarchy (an abstract SyntaxNode, ScriptNode, StatementNode,
 * SelectNode and its subclass QueryNode, JoinNode, TableNode, ColumnNode,
 * WhereNode) is one class here whose constant `Kind` is the runtime class;
 * each kind uses the fields its C# class declares and leaves the others at
 * their initial values. `Depth`, fixed at creation, is a proof device: a parent is always
 * shallower than its child, which is what makes the walks up the Parent
 * links and down the Tables lists terminate.
 */
module SyntaxTree {
  import opened Wrappers
  import opened Metadata
  import opened ParseTree
  import Text

  datatype NodeKind =
    | ScriptNode | StatementNode | SelectNode | QueryNode | JoinNode
    | TableNode | ColumnNode | WhereNode

  /** `kind is T`: QueryNode derives from SelectNode, the other classes stand alone. */
  predicate IsA(kind: NodeKind, t: NodeKind)
  {
    kind == t || (kind == QueryNode && t == SelectNode)
  }

  /** `kind is ITableScopeProvider`: SelectNode (and so QueryNode) and JoinNode. */
  predicate IsTableScopeProvider(kind: NodeKind)
  {
    IsA(kind, SelectNode) || kind == JoinNode
  }

  /** The overlay's JoinType enum. */
  datatype JoinType = InnerJoin | LeftJoin | RightJoin | FullJoin

  function JoinValue(j: JoinType): nat
  {
    match j
    case InnerJoin => 0
    case LeftJoin => 1
    case RightJoin => 2
    case FullJoin => 3
  }

  /** `(JoinType)join.QualifiedJoinType`: the cast keeps the numeric value. */
  function JoinTypeOf(q: QualifiedJoinType): (j: JoinType)
    ensures JoinValue(j) == JoinTypeValue(q)
  {
    match q
    case Inner => InnerJoin
    case LeftOuter => LeftJoin
    case RightOuter => RightJoin
    case FullOuter => FullJoin
  }

  class SyntaxNode {
    const Kind: NodeKind
    /** Set when the node is created, as every creator of the overlay does. */
    const Parent: SyntaxNode?
    var Fragment: Option<ParseTree.Fragment>
    var ParentFragment: Option<ParseTree.Fragment>
    var TargetProperty: Option<string>
    /** ScriptNode. */
    var Statements: seq<SyntaxNode>
    /** StatementNode: the Dictionary<string, ISyntaxNode> of tables, in insertion order. */
    var TableMap: seq<(string, SyntaxNode)>
    /** StatementNode. */
    var VisitContext: Option<ParseTree.Fragment>
    /** StatementNode, SelectNode, QueryNode, WhereNode. */
    var Columns: seq<SyntaxNode>
    /** SelectNode, QueryNode, JoinNode. */
    var Tables: seq<SyntaxNode>
    /** StatementNode (settable), SelectNode, QueryNode, JoinNode (created with the node). */
    var Where: SyntaxNode?
    /** JoinNode. */
    var JoinType: JoinType
    /** TableNode, ColumnNode. */
    var Name: Option<string>
    /** TableNode, ColumnNode, QueryNode. */
    var Alias: Option<string>
    /** TableNode. */
    var ApplicationObject: Option<Metadata.ApplicationObject>
    ghost const Depth: nat

    /** A node of a class without a Where node of its own, with every property at its default. */
    constructor (kind: NodeKind, parent: SyntaxNode?, ghost depth: nat)
      requires !IsTableScopeProvider(kind)
      ensures Kind == kind && Depth == depth && Parent == parent
      ensures Fragment.None? && ParentFragment.None? && TargetProperty.None?
      ensures Statements == [] && TableMap == [] && VisitContext.None? && Columns == []
      ensures Tables == [] && Where == null && JoinType == InnerJoin
      ensures Name.None? && Alias.None? && ApplicationObject.None?
    {
      Kind := kind;
      Depth := depth;
      Parent := parent;
      Fragment, ParentFragment, TargetProperty := None, None, None;
      Statements, TableMap, VisitContext, Columns := [], [], None, [];
      Tables, Where, JoinType := [], null, InnerJoin;
      Name, Alias, ApplicationObject := None, None, None;
    }

    /**
     * `new SelectNode()`, `new QueryNode()`, `new JoinNode()`: the node
     * creates its own empty WhereNode whose Parent is the node itself;
     * Tables and Columns start empty, JoinType is Inner, Alias is null.
     */
    constructor Scope(kind: NodeKind, parent: SyntaxNode?, ghost depth: nat)
      requires IsTableScopeProvider(kind)
      ensures Kind == kind && Depth == depth && Parent == parent
      ensures Fragment.None? && ParentFragment.None? && TargetProperty.None?
      ensures Statements == [] && TableMap == [] && VisitContext.None? && Columns == []
      ensures Tables == [] && JoinType == InnerJoin
      ensures Name.None? && Alias.None? && ApplicationObject.None?
      ensures fresh(Where) && Where.Kind == WhereNode && Where.Parent == this
      ensures Where.Columns == [] && Where.Tables == [] && Where.Where == null && Where.Depth == depth + 1
    {
      Kind := kind;
      Depth := depth;
      Parent := parent;
      Fragment, ParentFragment, TargetProperty := None, None, None;
      Statements, TableMap, VisitContext, Columns := [], [], None, [];
      Tables, JoinType := [], InnerJoin;
      Name, Alias, ApplicationObject := None, None, None;
      new;
      Where := new SyntaxNode(WhereNode, this, depth + 1);
    }

    /**
     * `Tables.Add(key, node)` on a StatementNode's dictionary: a key already
     * present throws and leaves the dictionary as it was.
     */
    method AddTable(key: string, node: SyntaxNode) returns (failure: Option<Exception>)
      modifies this`TableMap
      ensures key in TableKeys(old(TableMap)) ==> failure == Some(DuplicateKey) && TableMap == old(TableMap)
      ensures key !in TableKeys(old(TableMap)) ==> failure.None? && TableMap == old(TableMap) + [(key, node)]
    {
      if key in TableKeys(TableMap) {
        return Some(DuplicateKey);
      }
      TableMap := TableMap + [(key, node)];
      return None;
    }
  }

  /** The keys of a StatementNode's table dictionary, in insertion order. */
  function TableKeys(entries: seq<(string, SyntaxNode)>): (r: seq<string>)
    ensures |r| == |entries| && forall k | 0 <= k < |entries| :: r[k] == entries[k].0
  {
    seq(|entries|, k requires 0 <= k < |entries| => entries[k].0)
  }

  /** No key occurs twice, as in a Dictionary. */
  predicate DistinctKeys(entries: seq<(string, SyntaxNode)>)
  {
    forall i, j | 0 <= i < j < |entries| :: entries[i].0 != entries[j].0
  }

  /** `Tables.TryGetValue(key, out node)`. */
  function LookupTable(entries: seq<(string, SyntaxNode)>, key: string): (r: Option<SyntaxNode>)
    ensures r.Some? <==> key in TableKeys(entries)
    ensures r.Some? ==> (key, r.value) in entries
  {
    if entries == [] then None
    else if entries[0].0 == key then Some(entries[0].1)
    else LookupTable(entries[1..], key)
  }

  /**
   * An insertion that Dictionary.Add lets through keeps the keys distinct and
   * makes the key look up the inserted node, leaving every other key alone.
   */
  lemma {:induction false} AddTableKeepsDictionary(entries: seq<(string, SyntaxNode)>, key: string, node: SyntaxNode)
    requires DistinctKeys(entries) && key !in TableKeys(entries)
    ensures DistinctKeys(entries + [(key, node)])
    ensures LookupTable(entries + [(key, node)], key) == Some(node)
    ensures forall other | other != key :: LookupTable(entries + [(key, node)], other) == LookupTable(entries, other)
  {
    var e := entries + [(key, node)];
    forall i, j | 0 <= i < j < |e|
      ensures e[i].0 != e[j].0
    {
      if j == |entries| {
        assert TableKeys(entries)[i] == e[i].0;
      }
    }
    if entries != [] {
      assert e[1..] == entries[1..] + [(key, node)];
      assert TableKeys(entries[1..]) == TableKeys(entries)[1..];
      AddTableKeepsDictionary(entries[1..], key, node);
    }
  }

  /**
   * What the overlay asks of one node: it is shallower than the node count,
   * its parent is shallower than it, its WhereNode is present (and a scope
   * always has one), and the tables of a scope are deeper than the scope.
   */
  ghost predicate Placed(n: SyntaxNode, nodes: set<SyntaxNode>)
    reads n, nodes
  {
    n.Depth < |nodes|
    && (n.Parent != null ==> n.Parent in nodes && n.Parent.Depth < n.Depth)
    && (n.Where != null ==> n.Where in nodes)
    && (IsTableScopeProvider(n.Kind) ==> n.Where != null)
    && (forall k | 0 <= k < |n.Tables| :: n.Tables[k] in nodes && n.Depth < n.Tables[k].Depth)
  }

  /** The nodes form a well-founded overlay: every node is placed. */
  ghost predicate Linked(nodes: set<SyntaxNode>)
    reads nodes
  {
    forall n {:trigger Placed(n, nodes)} | n in nodes :: Placed(n, nodes)
  }

  /** Parent, grandparent, ... up to the root, nearest first. */
  ghost function Ancestors(n: SyntaxNode, nodes: set<SyntaxNode>): (chain: seq<SyntaxNode>)
    requires n in nodes && Linked(nodes)
    reads nodes
    ensures forall k | 0 <= k < |chain| :: chain[k] in nodes && chain[k].Depth < n.Depth
    decreases n.Depth
  {
    if n.Parent == null then []
    else
      assert Placed(n, nodes);
      [n.Parent] + Ancestors(n.Parent, nodes)
  }

  /** A kind test: the exact runtime class, or being a table-scope provider. */
  datatype KindTest = Exactly(t: NodeKind) | Provider

  predicate Passes(kind: NodeKind, test: KindTest)
  {
    match test
    case Exactly(t) => kind == t
    case Provider => IsTableScopeProvider(kind)
  }

  /** The first node of the chain passing the test, or null. */
  function Nearest(chain: seq<SyntaxNode>, test: KindTest): (r: SyntaxNode?)
    ensures r == null <==> forall k | 0 <= k < |chain| :: !Passes(chain[k].Kind, test)
    ensures r != null ==> exists i | 0 <= i < |chain| ::
      (chain[i] == r && Passes(r.Kind, test) && forall j | 0 <= j < i :: !Passes(chain[j].Kind, test))
  {
    if chain == [] then null
    else if Passes(chain[0].Kind, test) then chain[0]
    else
      Nearest(chain[1..], test)
  }

  /**
   * Walks the Parent links from `start`, skipping the nodes the test rejects;
   * the loop of Ancestor<T> and of TableScopeProvider.
   */
  method FindUp(start: SyntaxNode?, test: KindTest, ghost nodes: set<SyntaxNode>) returns (r: SyntaxNode?)
    requires start != null ==> start in nodes
    requires Linked(nodes)
    ensures r == if start == null then null else Nearest([start] + Ancestors(start, nodes), test)
  {
    var ancestor := start;
    ghost var chain := if start == null then [] else [start] + Ancestors(start, nodes);
    ghost var i := 0;
    while ancestor != null
      invariant 0 <= i <= |chain|
      invariant ancestor == null ==> i == |chain|
      invariant ancestor != null ==> ancestor in nodes && chain[i..] == [ancestor] + Ancestors(ancestor, nodes)
      invariant forall j | 0 <= j < i :: !Passes(chain[j].Kind, test)
      invariant Nearest(chain, test) == Nearest(chain[i..], test)
      decreases if ancestor == null then 0 else ancestor.Depth + 1
    {
      if Passes(ancestor.Kind, test) {
        break;
      }
      assert Placed(ancestor, nodes);
      assert chain[i + 1..] == chain[i..][1..];
      ancestor := ancestor.Parent;
      i := i + 1;
    }
    NearestSuffix(chain, i, test);
    r := ancestor;
  }

  /** Skipping a prefix the test rejects does not change the nearest match. */
  lemma {:induction false} NearestSuffix(chain: seq<SyntaxNode>, i: nat, test: KindTest)
    requires i <= |chain|
    requires forall j | 0 <= j < i :: !Passes(chain[j].Kind, test)
    ensures Nearest(chain, test) == Nearest(chain[i..], test)
  {
    if i > 0 {
      assert chain[1..][i - 1..] == chain[i..];
      NearestSuffix(chain[1..], i - 1, test);
    }
  }

  /** Ancestor<T>: the nearest proper ancestor whose runtime class is exactly T, or null. */
  method Ancestor(node: SyntaxNode, t: NodeKind, ghost nodes: set<SyntaxNode>) returns (r: SyntaxNode?)
    requires node in nodes && Linked(nodes)
    ensures r == Nearest(Ancestors(node, nodes), Exactly(t))
  {
    assert Placed(node, nodes);
    r := FindUp(node.Parent, Exactly(t), nodes);
  }

  /** SelfOrAncestor<T>: the node itself when it is a T (subclasses included), else Ancestor<T>. */
  method SelfOrAncestor(node: SyntaxNode, t: NodeKind, ghost nodes: set<SyntaxNode>) returns (r: SyntaxNode?)
    requires node in nodes && Linked(nodes)
    ensures IsA(node.Kind, t) ==> r == node
    ensures !IsA(node.Kind, t) ==> r == Nearest(Ancestors(node, nodes), Exactly(t))
  {
    if IsA(node.Kind, t) {
      return node;
    }
    r := Ancestor(node, t, nodes);
  }

  /** TableScopeProvider(): the node itself when it is a provider, else the nearest provider above it. */
  method TableScopeProvider(node: SyntaxNode, ghost nodes: set<SyntaxNode>) returns (r: SyntaxNode?)
    requires node in nodes && Linked(nodes)
    ensures r == Nearest([node] + Ancestors(node, nodes), Provider)
  {
    if IsTableScopeProvider(node.Kind) {
      return node;
    }
    assert Placed(node, nodes);
    r := FindUp(node.Parent, Provider, nodes);
    assert [node] + Ancestors(node, nodes) == [node] + (if node.Parent == null then [] else [node.Parent] + Ancestors(node.Parent, nodes));
  }

  /** The result of each lookup is the node itself or lies on its Parent chain, and has the class asked for. */
  lemma LookupsStayOnChain(node: SyntaxNode, t: NodeKind, nodes: set<SyntaxNode>)
    requires node in nodes && Linked(nodes)
    ensures var a := Nearest(Ancestors(node, nodes), Exactly(t));
      a != null ==> a in Ancestors(node, nodes) && a.Kind == t && a.Depth < node.Depth
    ensures var p := Nearest([node] + Ancestors(node, nodes), Provider);
      p != null ==>
        (IsTableScopeProvider(p.Kind) && (p == node || p in Ancestors(node, nodes)) && p.Depth <= node.Depth)
  {
  }

  // ------------------------------------------------------- GetTables

  /**
   * The tables a scope sees: each TableNode in its Tables list in order, each
   * nested provider expanded in place, every other node skipped.
   */
  ghost function FlattenTables(scope: SyntaxNode, nodes: set<SyntaxNode>): seq<SyntaxNode>
    requires scope in nodes && Linked(nodes)
    reads nodes
    decreases |nodes| - scope.Depth, 1
  {
    assert Placed(scope, nodes);
    FlattenList(scope.Tables, scope.Depth, nodes)
  }

  ghost function FlattenList(list: seq<SyntaxNode>, depth: nat, nodes: set<SyntaxNode>): seq<SyntaxNode>
    requires Linked(nodes) && depth < |nodes|
    requires forall k | 0 <= k < |list| :: list[k] in nodes && depth < list[k].Depth
    reads nodes
    decreases |nodes| - depth, 0, |list|
  {
    if list == [] then []
    else
      var node := list[0];
      assert Placed(node, nodes);
      (if node.Kind == TableNode then [node]
       else if IsTableScopeProvider(node.Kind) then FlattenTables(node, nodes)
       else [])
      + FlattenList(list[1..], depth, nodes)
  }

  /** ITableScopeProvider.GetTables(): a new list holding the flattened tables. */
  method GetTables(scope: SyntaxNode, ghost nodes: set<SyntaxNode>) returns (tables: seq<SyntaxNode>)
    requires scope in nodes && Linked(nodes)
    ensures tables == FlattenTables(scope, nodes)
  {
    tables := CollectTables([], scope, nodes);
  }

  /** The private recursive GetTables(tables, scope): appends the tables `scope` sees. */
  method CollectTables(tables: seq<SyntaxNode>, scope: SyntaxNode, ghost nodes: set<SyntaxNode>)
    returns (r: seq<SyntaxNode>)
    requires scope in nodes && Linked(nodes)
    ensures r == tables + FlattenTables(scope, nodes)
    decreases |nodes| - scope.Depth
  {
    assert Placed(scope, nodes);
    r := tables;
    var i := 0;
    while i < |scope.Tables|
      invariant 0 <= i <= |scope.Tables|
      invariant r + FlattenList(scope.Tables[i..], scope.Depth, nodes) == tables + FlattenTables(scope, nodes)
    {
      var node := scope.Tables[i];
      FlattenListStep(scope.Tables, i, scope.Depth, nodes);
      if node.Kind == TableNode {
        Text.AppendAssociates(r, [node], FlattenList(scope.Tables[i + 1..], scope.Depth, nodes));
        r := r + [node];
      } else if IsTableScopeProvider(node.Kind) {
        Text.AppendAssociates(r, FlattenTables(node, nodes), FlattenList(scope.Tables[i + 1..], scope.Depth, nodes));
        r := CollectTables(r, node, nodes);
      }
      i := i + 1;
    }
  }

  /** FlattenList unfolded at position `i` of the list. */
  lemma FlattenListStep(list: seq<SyntaxNode>, i: nat, depth: nat, nodes: set<SyntaxNode>)
    requires Linked(nodes) && depth < |nodes| && i < |list|
    requires forall k | 0 <= k < |list| :: list[k] in nodes && depth < list[k].Depth
    ensures list[i] in nodes && Placed(list[i], nodes)
    ensures FlattenList(list[i..], depth, nodes)
      == (if list[i].Kind == TableNode then [list[i]]
          else if IsTableScopeProvider(list[i].Kind) then FlattenTables(list[i], nodes)
          else [])
         + FlattenList(list[i + 1..], depth, nodes)
  {
    assert list[i..][0] == list[i];
    assert list[i..][1..] == list[i + 1..];
    assert Placed(list[i], nodes);
  }

  /** Every flattened table is a TableNode lying below the scope. */
  lemma {:induction false} FlattenedAreTables(scope: SyntaxNode, nodes: set<SyntaxNode>)
    requires scope in nodes && Linked(nodes)
    ensures forall x | x in FlattenTables(scope, nodes) :: x.Kind == TableNode && x in nodes && scope.Depth < x.Depth
    decreases |nodes| - scope.Depth, 1
  {
    assert Placed(scope, nodes);
    FlattenedListAreTables(scope.Tables, scope.Depth, nodes);
  }

  lemma {:induction false} FlattenedListAreTables(list: seq<SyntaxNode>, depth: nat, nodes: set<SyntaxNode>)
    requires Linked(nodes) && depth < |nodes|
    requires forall k | 0 <= k < |list| :: list[k] in nodes && depth < list[k].Depth
    ensures forall x | x in FlattenList(list, depth, nodes) :: x.Kind == TableNode && x in nodes && depth < x.Depth
    decreases |nodes| - depth, 0, |list|
  {
    if list != [] {
      assert Placed(list[0], nodes);
      if IsTableScopeProvider(list[0].Kind) {
        FlattenedAreTables(list[0], nodes);
      }
      FlattenedListAreTables(list[1..], depth, nodes);
    }
  }

  /** The TableNodes of a list, in order. */
  function TablesOnly(list: seq<SyntaxNode>): (r: seq<SyntaxNode>)
    ensures forall x | x in r :: x in list && x.Kind == TableNode
    ensures forall x | x in list && x.Kind == TableNode :: x in r
  {
    if list == [] then []
    else (if list[0].Kind == TableNode then [list[0]] else []) + TablesOnly(list[1..])
  }

  /**
   * A scope with no nested provider sees exactly its own TableNodes in list
   * order; a nested provider's tables appear at its position.
   */
  lemma {:induction false} FlattenShallow(list: seq<SyntaxNode>, depth: nat, nodes: set<SyntaxNode>)
    requires Linked(nodes) && depth < |nodes|
    requires forall k | 0 <= k < |list| :: list[k] in nodes && depth < list[k].Depth
    requires forall k | 0 <= k < |list| :: !IsTableScopeProvider(list[k].Kind)
    ensures FlattenList(list, depth, nodes) == TablesOnly(list)
    decreases |list|
  {
    if list != [] {
      FlattenShallow(list[1..], depth, nodes);
    }
  }

  /** Every TableNode directly in a scope's Tables is among the tables it sees. */
  lemma {:induction false} DirectTablesIncluded(list: seq<SyntaxNode>, depth: nat, nodes: set<SyntaxNode>)
    requires Linked(nodes) && depth < |nodes|
    requires forall k | 0 <= k < |list| :: list[k] in nodes && depth < list[k].Depth
    ensures forall x | x in list && x.Kind == TableNode :: x in FlattenList(list, depth, nodes)
    decreases |list|
  {
    if list != [] {
      DirectTablesIncluded(list[1..], depth, nodes);
      assert forall x | x in list :: x == list[0] || x in list[1..];
    }
  }
}
