/**
 * SyntaxTreeBuilder: a recursive pre-order walk over a parsed script that
 * builds the scope-tree overlay (a ScriptNode root, a SelectNode per SELECT
 * statement, QueryNode / JoinNode / TableNode entries in the nearest scope's
 * Tables, ColumnNodes for select-list expressions and column references) and
 * remembers the fragment under the editor's cursor together with the
 * overlay node current at that fragment.
 */
module SyntaxTreeBuilding {
  import opened Wrappers
  import opened Text
  import opened ParseTree
  import opened SyntaxTree

  /** IsEditingFragment: the cursor is inside the fragment or just after its last character. */
  predicate IsEditingFragment(cursor: int, f: Fragment)
    // Only a non-empty fragment is ever being edited
    ensures IsEditingFragment(cursor, f) ==> f.FragmentLength >= 1
    // the cursor just before the first character is outside, the one just after the last is inside.
    ensures cursor == f.StartOffset ==> !IsEditingFragment(cursor, f)
    ensures f.FragmentLength >= 1 && cursor == f.StartOffset + f.FragmentLength ==> IsEditingFragment(cursor, f)
  {
    cursor > f.StartOffset && f.StartOffset + f.FragmentLength >= cursor
  }

  // ------------------------------------------------------ Identifier text

  /** GetIdentifierValue(Identifier): "" for null, brackets trimmed when square-quoted. */
  function IdentifierValue(identifier: Option<Fragment>): (r: string)
    ensures identifier.None? || !identifier.value.Kind.Identifier? ==> r == ""
    // The text read is the identifier's own text, from which at most the brackets are trimmed.
    ensures identifier.Some? && identifier.value.Kind.Identifier? ==>
      var v := identifier.value.Kind.Value;
      (identifier.value.Kind.Quote != SquareBracket ==> r == v)
      && exists i, j | 0 <= i <= j <= |v| :: r == v[i..j]
  {
    match identifier
    case None => ""
    case Some(f) =>
      if f.Kind.Identifier? then
        if f.Kind.Quote == SquareBracket then
          var v := f.Kind.Value;
          var t := TrimStart(v, '[');
          var u := TrimEnd(t, ']');
          assert u == v[|v| - |t|..][..|u|] == v[|v| - |t|..|v| - |t| + |u|];
          u
        else
          assert f.Kind.Value == f.Kind.Value[0..|f.Kind.Value|];
          f.Kind.Value
      else ""
  }

  /** A square-quoted identifier loses exactly its enclosing brackets. */
  lemma BracketsTrimmed(f: Fragment, v: string)
    requires f.Kind == Identifier("[" + v + "]", SquareBracket)
    requires v != "" ==> v[0] != '[' && v[|v| - 1] != ']'
    ensures IdentifierValue(Some(f)) == v
  {
    TrimBrackets(v);
  }

  /** GetIdentifierValue(IdentifierOrValueExpression): "" for null, else its Identifier's text. */
  function IdentifierOrValueValue(e: Option<Fragment>): string
  {
    if e.None? then "" else IdentifierValue(FieldValue(e.value, "Identifier"))
  }

  /** The text of each part of a multi-part name. */
  function PartValues(ids: seq<Fragment>): (r: seq<string>)
    ensures |r| == |ids| && forall k | 0 <= k < |ids| :: r[k] == IdentifierValue(Some(ids[k]))
  {
    seq(|ids|, k requires 0 <= k < |ids| => IdentifierValue(Some(ids[k])))
  }

  /**
   * What the multi-part loop accumulates from `acc`: each part is appended,
   * preceded by '.' unless the text so far is still empty.
   */
  function Dotted(acc: string, parts: seq<string>): string
    decreases |parts|
  {
    if parts == [] then acc
    else Dotted((if acc != "" then acc + "." else acc) + parts[0], parts[1..])
  }

  /** With non-empty parts the accumulated text is the parts joined with '.'. */
  lemma {:induction false} DottedJoin(acc: string, parts: seq<string>)
    requires forall k | 0 <= k < |parts| :: parts[k] != ""
    ensures acc == "" ==> Dotted(acc, parts) == Text.Join(parts, '.')
    ensures acc != "" && parts != [] ==> Dotted(acc, parts) == acc + "." + Text.Join(parts, '.')
    decreases |parts|
  {
    if parts != [] {
      var next := (if acc != "" then acc + "." else acc) + parts[0];
      DottedJoin(next, parts[1..]);
      if |parts| > 1 {
        assert Text.Join(parts, '.') == parts[0] + ['.'] + Text.Join(parts[1..], '.');
      }
    }
  }

  /** Leading empty parts add no dot: only once some text is accumulated does a '.' appear. */
  lemma {:induction false} DottedLeadingEmpty(blanks: seq<string>, parts: seq<string>)
    requires forall k | 0 <= k < |blanks| :: blanks[k] == ""
    ensures Dotted("", blanks + parts) == Dotted("", parts)
    decreases |blanks|
  {
    if blanks != [] {
      var x := blanks + parts;
      assert x[0] == "" && x[1..] == blanks[1..] + parts;
      assert (if "" != "" then "" + "." else "") + x[0] == "";
      assert Dotted("", x) == Dotted("", x[1..]);
      DottedLeadingEmpty(blanks[1..], parts);
    } else {
      assert blanks + parts == parts;
    }
  }

  /** GetIdentifierValue(MultiPartIdentifier); a null name throws. */
  method MultiPartValue(identifiers: Option<Fragment>) returns (r: Result<string>)
    ensures identifiers.None? ==> r == Throws(NullReference)
    ensures identifiers.Some? ==>
      r == Ok(Dotted("", PartValues(ListValue(identifiers.value, IdentifiersProperty))))
  {
    if identifiers.None? {
      return Throws(NullReference);
    }
    var ids := ListValue(identifiers.value, IdentifiersProperty);
    var value := "";
    var i := 0;
    while i < |ids|
      invariant 0 <= i <= |ids|
      invariant Dotted(value, PartValues(ids[i..])) == Dotted("", PartValues(ids))
    {
      assert PartValues(ids[i..]) == [IdentifierValue(Some(ids[i]))] + PartValues(ids[i + 1..]);
      if value != "" {
        value := value + ".";
      }
      value := value + IdentifierValue(Some(ids[i]));
      i := i + 1;
    }
    assert PartValues(ids[i..]) == [];
    return Ok(value);
  }

  // ------------------------------------------------------- Cursor tracking

  /** FragmentOffset, FragmentLength, Fragment and SyntaxNode of the builder. */
  datatype Cursor = Cursor(FragmentOffset: int, FragmentLength: int, Fragment: Option<Fragment>, Node: SyntaxNode?)

  /** One call of BuildSyntaxNode: the fragment and the overlay node it was given. */
  datatype Visit = Visit(Fragment: Fragment, Node: SyntaxNode)

  function Visited(visits: seq<Visit>): (r: seq<Fragment>)
    ensures |r| == |visits| && forall k | 0 <= k < |visits| :: r[k] == visits[k].Fragment
  {
    seq(|visits|, k requires 0 <= k < |visits| => visits[k].Fragment)
  }

  lemma VisitedAppend(a: seq<Visit>, b: seq<Visit>)
    ensures Visited(a + b) == Visited(a) + Visited(b)
  {
  }

  lemma SlotsOrderStep(slots: seq<Slot>, i: nat)
    requires i < |slots|
    ensures SlotsOrder(slots[i..]) == SlotOrder(slots[i]) + SlotsOrder(slots[i + 1..])
  {
    assert slots[i..][1..] == slots[i + 1..];
  }

  lemma ListOrderStep(elements: seq<Fragment>, j: nat)
    requires j < |elements|
    ensures ListOrder(elements[j..]) == PreOrder(elements[j]) + ListOrder(elements[j + 1..])
  {
    assert elements[j..][1..] == elements[j + 1..];
  }

  /** One property walked: the visits so far plus the rest of the walk still give the whole walk. */
  lemma WalkStep(before: seq<Visit>, more: seq<Visit>, slots: seq<Slot>, i: nat, whole: seq<Fragment>)
    requires i < |slots| && Visited(before) + SlotsOrder(slots[i..]) == whole
    requires Visited(more) == SlotOrder(slots[i])
    ensures Visited(before + more) + SlotsOrder(slots[i + 1..]) == whole
  {
    SlotsOrderStep(slots, i);
    VisitedAppend(before, more);
  }

  /** One list element walked, as WalkStep. */
  lemma ListStep(before: seq<Visit>, more: seq<Visit>, elements: seq<Fragment>, j: nat, whole: seq<Fragment>)
    requires j < |elements| && Visited(before) + ListOrder(elements[j..]) == whole
    requires Visited(more) == PreOrder(elements[j])
    ensures Visited(before + more) + ListOrder(elements[j + 1..]) == whole
  {
    ListOrderStep(elements, j);
    VisitedAppend(before, more);
  }

  function Record(v: Visit): Cursor
  {
    Cursor(v.Fragment.StartOffset, v.Fragment.FragmentLength, Some(v.Fragment), v.Node)
  }

  /** The cursor state after a run of visits: each visit of an editing fragment overwrites it. */
  function Track(cursor: int, c: Cursor, visits: seq<Visit>): Cursor
    decreases |visits|
  {
    if visits == [] then c
    else Track(cursor, if IsEditingFragment(cursor, visits[0].Fragment) then Record(visits[0]) else c, visits[1..])
  }

  lemma {:induction false} TrackAppend(cursor: int, c: Cursor, a: seq<Visit>, b: seq<Visit>)
    ensures Track(cursor, c, a + b) == Track(cursor, Track(cursor, c, a), b)
    decreases |a|
  {
    if a != [] {
      assert a + b != [] && (a + b)[0] == a[0] && (a + b)[1..] == a[1..] + b;
      var next := if IsEditingFragment(cursor, a[0].Fragment) then Record(a[0]) else c;
      assert Track(cursor, c, a + b) == Track(cursor, next, a[1..] + b);
      assert Track(cursor, c, a) == Track(cursor, next, a[1..]);
      TrackAppend(cursor, next, a[1..], b);
    } else {
      assert a + b == b;
    }
  }

  /** A run of visits none of which is under the cursor leaves the cursor state unchanged. */
  lemma {:induction false} TrackUntouched(cursor: int, c: Cursor, visits: seq<Visit>)
    requires forall k | 0 <= k < |visits| :: !IsEditingFragment(cursor, visits[k].Fragment)
    ensures Track(cursor, c, visits) == c
    decreases |visits|
  {
    if visits != [] {
      assert !IsEditingFragment(cursor, visits[0].Fragment);
      forall k | 0 <= k < |visits[1..]| ensures !IsEditingFragment(cursor, visits[1..][k].Fragment) {
        assert visits[1..][k] == visits[k + 1];
      }
      TrackUntouched(cursor, c, visits[1..]);
    }
  }

  /**
   * The walk leaves the cursor state of the last visited fragment under the
   * cursor: FragmentOffset, FragmentLength, Fragment and SyntaxNode all
   * come from that one visit.
   */
  lemma {:induction false} TrackSelectsLast(cursor: int, c: Cursor, visits: seq<Visit>, i: nat)
    requires i < |visits| && IsEditingFragment(cursor, visits[i].Fragment)
    requires forall j | i < j < |visits| :: !IsEditingFragment(cursor, visits[j].Fragment)
    ensures Track(cursor, c, visits) == Record(visits[i])
    decreases i
  {
    var next := if IsEditingFragment(cursor, visits[0].Fragment) then Record(visits[0]) else c;
    if i == 0 {
      forall k | 0 <= k < |visits[1..]| ensures !IsEditingFragment(cursor, visits[1..][k].Fragment) {
        assert visits[1..][k] == visits[k + 1];
      }
      TrackUntouched(cursor, next, visits[1..]);
    } else {
      forall j | i - 1 < j < |visits[1..]| ensures !IsEditingFragment(cursor, visits[1..][j].Fragment) {
        assert visits[1..][j] == visits[j + 1];
      }
      TrackSelectsLast(cursor, next, visits[1..], i - 1);
    }
  }

  // ------------------------------------------------------------ Walk tree

  /** The walk as a tree: the fragment, the overlay node it was walked under, and the walks of its children. */
  datatype Walk = Walk(Fragment: Fragment, Node: SyntaxNode, Children: seq<Walk>)

  /** The visits of a walk, in the order BuildSyntaxNode makes them. */
  function Flat(w: Walk): seq<Visit>
    decreases w, 1
  {
    [Visit(w.Fragment, w.Node)] + FlatList(w.Children)
  }

  function FlatList(ws: seq<Walk>): seq<Visit>
    decreases ws, 0
  {
    if ws == [] then [] else Flat(ws[0]) + FlatList(ws[1..])
  }

  lemma {:induction false} FlatListAppend(a: seq<Walk>, b: seq<Walk>)
    ensures FlatList(a + b) == FlatList(a) + FlatList(b)
    decreases |a|
  {
    if a == [] {
      assert a + b == b;
    } else {
      assert (a + b)[0] == a[0] && (a + b)[1..] == a[1..] + b;
      FlatListAppend(a[1..], b);
    }
  }

  lemma FlatListSnoc(ws: seq<Walk>, w: Walk)
    ensures FlatList(ws + [w]) == FlatList(ws) + Flat(w)
  {
    FlatListAppend(ws, [w]);
    assert FlatList([w]) == Flat(w) + FlatList([]);
  }

  /** The children of one property: none for null, the child, or the list. */
  function SlotChildren(slot: Slot): (r: seq<Fragment>)
    ensures forall k | 0 <= k < |r| :: r[k] < slot
  {
    match slot
    case Field(_, None) => []
    case Field(_, Some(child)) => [child]
    case Items(_, elements) => elements
  }

  /** The children of a run of properties, in the order the walk reaches them. */
  function ChildrenOf(slots: seq<Slot>): seq<Fragment>
    decreases |slots|
  {
    if slots == [] then [] else ChildrenOf(slots[..|slots| - 1]) + SlotChildren(slots[|slots| - 1])
  }

  /**
   * The class test of CreateSyntaxNode seen from the finished overlay: a
   * child is walked under its parent's node, or under a node of the class
   * its fragment calls for (a SelectNode placed under a ScriptNode; a
   * QueryNode, JoinNode, TableNode or select-list ColumnNode placed under
   * the parent's node; a ColumnNode placed under a WhereNode; a WhereNode).
   */
  predicate Beneath(child: Fragment, parent: SyntaxNode, under: SyntaxNode)
  {
    match child.Kind
    case SelectStatement => under == parent || (under.Kind == SelectNode && under.Parent != null && under.Parent.Kind == ScriptNode)
    case QueryDerivedTable => under == parent || (under.Kind == QueryNode && under.Parent == parent)
    case QualifiedJoin(_) => under == parent || (under.Kind == JoinNode && under.Parent == parent)
    case NamedTableReference => under == parent || (under.Kind == TableNode && under.Parent == parent)
    case SelectScalarExpression => under == parent || (under.Kind == ColumnNode && under.Parent == parent)
    case ColumnReferenceExpression(_) =>
      under == parent || (under.Kind == ColumnNode && under.Parent != null && under.Parent.Kind == WhereNode)
    case WhereClause => under == parent || under.Kind == WhereNode
    case _ => under == parent
  }

  /** A completed walk: each child of the fragment, in order, is walked Beneath the fragment's node, and so on down. */
  predicate Walked(w: Walk)
    decreases w, 1
  {
    Below(w.Children, ChildrenOf(w.Fragment.Slots), w.Node)
  }

  predicate Below(ws: seq<Walk>, children: seq<Fragment>, parent: SyntaxNode)
    decreases ws, 0
  {
    |ws| == |children|
    && forall k | 0 <= k < |ws| :: ws[k].Fragment == children[k] && Beneath(children[k], parent, ws[k].Node) && Walked(ws[k])
  }

  lemma BelowAppend(a: seq<Walk>, ca: seq<Fragment>, b: seq<Walk>, cb: seq<Fragment>, parent: SyntaxNode)
    requires Below(a, ca, parent) && Below(b, cb, parent)
    ensures Below(a + b, ca + cb, parent)
  {
    forall k | 0 <= k < |a + b|
      ensures (a + b)[k].Fragment == (ca + cb)[k] && Beneath((ca + cb)[k], parent, (a + b)[k].Node) && Walked((a + b)[k])
    {
      if k < |a| {
        assert (a + b)[k] == a[k] && (ca + cb)[k] == ca[k];
      } else {
        assert (a + b)[k] == b[k - |a|] && (ca + cb)[k] == cb[k - |a|];
      }
    }
  }

  /** One property walked: its walks extend the visits, and, when it completed, the children walked so far. */
  lemma ChildrenStep(fragment: Fragment, before: seq<Visit>, more: seq<Visit>, prior: seq<Walk>, walks: seq<Walk>,
                     i: nat, parent: SyntaxNode, completed: bool)
    requires i < |fragment.Slots|
    requires Visited(before) + SlotsOrder(fragment.Slots[i..]) == PreOrder(fragment)
    requires Below(prior, ChildrenOf(fragment.Slots[..i]), parent)
    requires completed ==> Below(walks, SlotChildren(fragment.Slots[i]), parent) && Visited(more) == SlotOrder(fragment.Slots[i])
    ensures Flat(Walk(fragment, parent, prior + walks)) == Flat(Walk(fragment, parent, prior)) + FlatList(walks)
    ensures completed ==>
      Visited(before + more) + SlotsOrder(fragment.Slots[i + 1..]) == PreOrder(fragment)
      && Below(prior + walks, ChildrenOf(fragment.Slots[..i + 1]), parent)
  {
    FlatStep(fragment, parent, prior, walks);
    if completed {
      WalkStep(before, more, fragment.Slots, i, PreOrder(fragment));
      ChildrenOfStep(fragment.Slots, i);
      BelowAppend(prior, ChildrenOf(fragment.Slots[..i]), walks, SlotChildren(fragment.Slots[i]), parent);
    }
  }

  lemma FlatStep(fragment: Fragment, parent: SyntaxNode, prior: seq<Walk>, walks: seq<Walk>)
    ensures Flat(Walk(fragment, parent, prior + walks)) == Flat(Walk(fragment, parent, prior)) + FlatList(walks)
  {
    var v := [Visit(fragment, parent)];
    FlatListAppend(prior, walks);
    assert Flat(Walk(fragment, parent, prior + walks)) == v + (FlatList(prior) + FlatList(walks));
    Text.AppendAssociates(v, FlatList(prior), FlatList(walks));
  }

  lemma ChildrenOfStep(slots: seq<Slot>, i: nat)
    requires i < |slots|
    ensures ChildrenOf(slots[..i + 1]) == ChildrenOf(slots[..i]) + SlotChildren(slots[i])
  {
    assert slots[..i + 1][..i] == slots[..i];
  }

  /** One list element walked, as ChildrenStep. */
  lemma ItemStep(before: seq<Visit>, more: seq<Visit>, prior: seq<Walk>, w: Walk, elements: seq<Fragment>, j: nat,
                 parent: SyntaxNode, completed: bool)
    requires j < |elements| && before == FlatList(prior)
    requires Visited(before) + ListOrder(elements[j..]) == ListOrder(elements) && Below(prior, elements[..j], parent)
    requires more != [] ==> more == Flat(w)
    requires completed ==>
      more != [] && w.Fragment == elements[j] && Beneath(elements[j], parent, w.Node) && Walked(w)
      && Visited(more) == PreOrder(elements[j])
    ensures before + more == FlatList(if more == [] then prior else prior + [w])
    ensures completed ==>
      Visited(before + more) + ListOrder(elements[j + 1..]) == ListOrder(elements)
      && Below(prior + [w], elements[..j + 1], parent)
  {
    if more != [] {
      FlatListSnoc(prior, w);
    }
    if completed {
      BelowAppend(prior, elements[..j], [w], [elements[j]], parent);
      assert elements[..j] + [elements[j]] == elements[..j + 1];
      ListStep(before, more, elements, j, ListOrder(elements));
    }
  }

  /**
   * What CreateSyntaxNode leaves a child's walk under, given what the
   * lookups from `parent` found before it ran (the nearest ScriptNode, the
   * nearest table-scope provider and its WhereNode, the nearest
   * SelectNode); `created` says that the node is a new one.
   */
  predicate CreatedUnder(child: Fragment, parent: SyntaxNode, under: SyntaxNode, created: bool,
                         script: SyntaxNode?, scope: SyntaxNode?, scopeWhere: SyntaxNode?, select: SyntaxNode?)
  {
    match child.Kind
    case SelectStatement =>
      if script == null then under == parent else created && under.Kind == SelectNode && under.Parent == script
    case QueryDerivedTable =>
      if scope == null then under == parent else created && under.Kind == QueryNode && under.Parent == parent
    case QualifiedJoin(_) =>
      if scope == null then under == parent else created && under.Kind == JoinNode && under.Parent == parent
    case NamedTableReference =>
      if scope == null then under == parent else created && under.Kind == TableNode && under.Parent == parent
    case SelectScalarExpression =>
      if select == null then under == parent else created && under.Kind == ColumnNode && under.Parent == parent
    case ColumnReferenceExpression(_) =>
      if parent.Kind == ColumnNode || scope == null then under == parent
      else created && under.Kind == ColumnNode && under.Parent == scopeWhere
    case WhereClause => under == (if scope == null then parent else scopeWhere)
    case _ => under == parent
  }

  /** The exact step implies its view from the finished overlay. */
  lemma CreatedBeneath(child: Fragment, parent: SyntaxNode, under: SyntaxNode, created: bool,
                       script: SyntaxNode?, scope: SyntaxNode?, scopeWhere: SyntaxNode?, select: SyntaxNode?)
    requires CreatedUnder(child, parent, under, created, script, scope, scopeWhere, select)
    requires script != null ==> script.Kind == ScriptNode
    requires scope != null ==> scopeWhere != null && scopeWhere.Kind == WhereNode
    ensures Beneath(child, parent, under)
  {
  }

  // ------------------------------------------------------ Scope lookups

  lemma CardinalityTwo(nodes: set<SyntaxNode>, a: SyntaxNode, b: SyntaxNode)
    requires a !in nodes && b !in nodes && a != b
    ensures |nodes + {a, b}| == |nodes| + 2
  {
    assert nodes + {a, b} == (nodes + {a}) + {b};
  }

  /** parent.TableScopeProvider(). */
  ghost function ScopeFor(parent: SyntaxNode, nodes: set<SyntaxNode>): SyntaxNode?
    requires parent in nodes && Linked(nodes)
    reads nodes
  {
    Nearest([parent] + Ancestors(parent, nodes), Provider)
  }

  /** The WhereNode of parent.TableScopeProvider(), null without one. */
  ghost function ScopeWhere(parent: SyntaxNode, nodes: set<SyntaxNode>): SyntaxNode?
    requires parent in nodes && Linked(nodes)
    reads nodes
  {
    ScopeForFacts(parent, nodes);
    var s := ScopeFor(parent, nodes);
    if s == null then null else s.Where
  }

  /** parent.SelfOrAncestor<T>(). */
  ghost function SelfOrAncestorOf(node: SyntaxNode, t: NodeKind, nodes: set<SyntaxNode>): SyntaxNode?
    requires node in nodes && Linked(nodes)
    reads nodes
  {
    if IsA(node.Kind, t) then node else Nearest(Ancestors(node, nodes), Exactly(t))
  }

  lemma ScopeForFacts(parent: SyntaxNode, nodes: set<SyntaxNode>)
    requires parent in nodes && Linked(nodes)
    ensures var s := ScopeFor(parent, nodes);
      s != null ==>
        (s in nodes && IsTableScopeProvider(s.Kind) && s.Depth <= parent.Depth && s.Where != null && s.Where in nodes)
  {
    LookupsStayOnChain(parent, ScriptNode, nodes);
    var s := ScopeFor(parent, nodes);
    if s != null {
      assert Placed(s, nodes);
    }
  }

  lemma SelfOrAncestorFacts(node: SyntaxNode, t: NodeKind, nodes: set<SyntaxNode>)
    requires node in nodes && Linked(nodes)
    ensures var s := SelfOrAncestorOf(node, t, nodes);
      s != null ==> (s in nodes && IsA(s.Kind, t) && s.Depth <= node.Depth)
  {
    LookupsStayOnChain(node, t, nodes);
  }

  /** Adding nodes placed among the enlarged set keeps the overlay well founded. */
  lemma LinkedAdded(nodes: set<SyntaxNode>, added: set<SyntaxNode>)
    requires Linked(nodes)
    requires forall e | e in added :: Placed(e, nodes + added)
    ensures Linked(nodes + added)
  {
    assert nodes + added == nodes + (added - nodes);
    assert |nodes| <= |nodes + added|;
    forall n | n in nodes + added
      ensures Placed(n, nodes + added)
    {
      if n in nodes {
        assert Placed(n, nodes);
      }
    }
  }

  /**
   * One step of the builder keeps the overlay well founded: its nodes keep
   * their depth, parent and WhereNode, only `scope` gains tables (at its end,
   * each deeper than it), and each added node is placed.
   */
  twostate lemma LinkedKept(b: SyntaxTreeBuilder, new scope: SyntaxNode, new tail: seq<SyntaxNode>, new added: set<SyntaxNode>)
    requires b.Nodes == old(b.Nodes) && old(Linked(b.Nodes)) && scope in b.Nodes
    requires forall n | n in b.Nodes :: n.Where == old(n.Where)
    requires forall n | n in b.Nodes && n != scope :: n.Tables == old(n.Tables)
    requires scope.Tables == old(scope.Tables) + tail
    requires forall k | 0 <= k < |tail| :: tail[k] in b.Nodes + added && scope.Depth < tail[k].Depth
    requires forall e | e in added :: e !in b.Nodes && Placed(e, b.Nodes + added)
    ensures Linked(b.Nodes + added)
  {
    var nodes := b.Nodes;
    assert |nodes| <= |nodes + added|;
    forall n | n in nodes + added
      ensures Placed(n, nodes + added)
    {
      if n in nodes {
        assert old(Placed(n, nodes));
        if n == scope {
          forall k | 0 <= k < |n.Tables|
            ensures n.Tables[k] in nodes + added && n.Depth < n.Tables[k].Depth
          {
            if k >= |old(scope.Tables)| {
              assert n.Tables[k] == tail[k - |old(scope.Tables)|];
            } else {
              assert n.Tables[k] == old(scope.Tables[k]);
            }
          }
        }
      }
    }
  }

  // ------------------------------------------------------------ Builder

  class SyntaxTreeBuilder {
    var CursorOffset: int
    var FragmentOffset: int
    var FragmentLength: int
    var Fragment: Option<ParseTree.Fragment>
    var SyntaxNode: SyntaxTree.SyntaxNode?
    /** The overlay nodes of the tree being built. */
    ghost var Nodes: set<SyntaxTree.SyntaxNode>

    /** The overlay is well founded and every scope has its WhereNode. */
    ghost predicate Valid()
      reads this, Nodes
    {
      Linked(Nodes) && forall n | n in Nodes && n.Where != null :: n.Where.Kind == WhereNode
    }

    /** The node recorded for the cursor is one of the overlay's nodes. */
    ghost predicate Tracked()
      reads this
    {
      SyntaxNode != null ==> SyntaxNode in Nodes
    }

    function State(): Cursor
      reads this
    {
      Cursor(FragmentOffset, FragmentLength, Fragment, SyntaxNode)
    }

    /** `new SyntaxTreeBuilder() { CursorOffset = cursorOffset }`. */
    constructor (cursorOffset: int)
      ensures CursorOffset == cursorOffset && State() == Cursor(0, 0, None, null) && Nodes == {}
    {
      CursorOffset := cursorOffset;
      FragmentOffset, FragmentLength, Fragment, SyntaxNode := 0, 0, None, null;
      Nodes := {};
    }

    /**
     * Build: a fresh ScriptNode root, then the walk of the whole script from
     * it. A column reference without a name throws, and the walk stops there.
     */
    method Build(script: ParseTree.Fragment)
      returns (root: SyntaxTree.SyntaxNode, failure: Option<Exception>, ghost visits: seq<Visit>, ghost walk: Walk)
      modifies this
      ensures fresh(root) && root.Kind == ScriptNode && root.Parent == null && root in Nodes && fresh(Nodes)
      ensures Valid() && CursorOffset == old(CursorOffset)
      ensures old(SyntaxNode) == null ==> Tracked()
      ensures walk.Fragment == script && walk.Node == root && visits == Flat(walk)
      ensures State() == Track(CursorOffset, old(State()), visits)
      ensures failure.None? ==> Walked(walk) && Visited(visits) == PreOrder(script)
    {
      root := new SyntaxTree.SyntaxNode(ScriptNode, null, 0);
      Nodes := {root};
      failure, visits, walk := BuildSyntaxNode(script, root);
    }

    /**
     * BuildSyntaxNode: records the fragment when it is under the cursor, then
     * walks each non-null property in order (list elements in index order),
     * creating an overlay node for each child when its kind calls for one and
     * walking the child under that node, or under `parent` otherwise.
     */
    method BuildSyntaxNode(fragment: ParseTree.Fragment, parent: SyntaxTree.SyntaxNode)
      returns (failure: Option<Exception>, ghost visits: seq<Visit>, ghost walk: Walk)
      requires Valid() && parent in Nodes
      modifies this, Nodes
      ensures Valid() && old(Nodes) <= Nodes && fresh(Nodes - old(Nodes))
      ensures old(Tracked()) ==> Tracked()
      ensures CursorOffset == old(CursorOffset)
      ensures walk.Fragment == fragment && walk.Node == parent && visits == Flat(walk)
      ensures State() == Track(CursorOffset, old(State()), visits)
      ensures failure.None? ==> Walked(walk) && Visited(visits) == PreOrder(fragment)
      decreases fragment, 5
    {
      if IsEditingFragment(CursorOffset, fragment) {
        FragmentOffset := fragment.StartOffset;
        FragmentLength := fragment.FragmentLength;
        Fragment := Some(fragment);
        SyntaxNode := parent;
      }
      ghost var children: seq<Walk> := [];
      visits := [Visit(fragment, parent)];
      assert visits == Flat(Walk(fragment, parent, children));
      failure := None;
      var i := 0;
      while i < |fragment.Slots|
        invariant 0 <= i <= |fragment.Slots|
        invariant Valid() && parent in Nodes && old(Nodes) <= Nodes && fresh(Nodes - old(Nodes))
        invariant old(Tracked()) || IsEditingFragment(CursorOffset, fragment) ==> Tracked()
        invariant CursorOffset == old(CursorOffset)
        invariant visits == Flat(Walk(fragment, parent, children))
        invariant State() == Track(CursorOffset, old(State()), visits)
        invariant Visited(visits) + SlotsOrder(fragment.Slots[i..]) == PreOrder(fragment)
        invariant Below(children, ChildrenOf(fragment.Slots[..i]), parent)
      {
        failure, visits, children := BuildProperty(fragment, i, parent, old(State()), visits, children);
        if failure.Some? {
          walk := Walk(fragment, parent, children);
          return;
        }
        i := i + 1;
      }
      assert fragment.Slots[..i] == fragment.Slots;
      walk := Walk(fragment, parent, children);
    }

    /**
     * The walk of property `i` of `fragment`, appended to the visits and the
     * child walks made so far from the cursor state `start`.
     */
    method BuildProperty(fragment: ParseTree.Fragment, i: nat, parent: SyntaxTree.SyntaxNode, ghost start: Cursor,
                         ghost before: seq<Visit>, ghost prior: seq<Walk>)
      returns (failure: Option<Exception>, ghost visits: seq<Visit>, ghost children: seq<Walk>)
      requires Valid() && parent in Nodes && i < |fragment.Slots|
      requires before == Flat(Walk(fragment, parent, prior)) && State() == Track(CursorOffset, start, before)
      requires Visited(before) + SlotsOrder(fragment.Slots[i..]) == PreOrder(fragment)
      requires Below(prior, ChildrenOf(fragment.Slots[..i]), parent)
      modifies this, Nodes
      ensures Valid() && old(Nodes) <= Nodes && fresh(Nodes - old(Nodes))
      ensures old(Tracked()) ==> Tracked()
      ensures CursorOffset == old(CursorOffset)
      ensures visits == Flat(Walk(fragment, parent, children))
      ensures State() == Track(CursorOffset, start, visits)
      ensures failure.None? ==>
        Visited(visits) + SlotsOrder(fragment.Slots[i + 1..]) == PreOrder(fragment)
        && Below(children, ChildrenOf(fragment.Slots[..i + 1]), parent)
      decreases fragment, 4
    {
      ghost var more, walks;
      failure, more, walks := BuildSlot(fragment.Slots[i], parent, fragment);
      visits, children := before + more, prior + walks;
      ChildrenStep(fragment, before, more, prior, walks, i, parent, failure.None?);
      TrackAppend(CursorOffset, start, before, more);
    }

    /** The walk of one property of `owner`: the walks of its children, in order. */
    method BuildSlot(slot: Slot, parent: SyntaxTree.SyntaxNode, ghost owner: ParseTree.Fragment)
      returns (failure: Option<Exception>, ghost visits: seq<Visit>, ghost walks: seq<Walk>)
      requires Valid() && parent in Nodes && slot in owner.Slots
      modifies this, Nodes
      ensures Valid() && old(Nodes) <= Nodes && fresh(Nodes - old(Nodes))
      ensures old(Tracked()) ==> Tracked()
      ensures CursorOffset == old(CursorOffset)
      ensures visits == FlatList(walks)
      ensures State() == Track(CursorOffset, old(State()), visits)
      ensures failure.None? ==> Below(walks, SlotChildren(slot), parent) && Visited(visits) == SlotOrder(slot)
      decreases owner, 3
    {
      visits, walks := [], [];
      failure := None;
      match slot
      case Field(_, None) =>
      case Field(_, Some(child)) =>
        ghost var w;
        failure, visits, w := BuildChild(child, parent, owner);
        if visits != [] {
          walks := [w];
          assert FlatList(walks) == Flat(w) + FlatList([]);
        }
      case Items(_, elements) =>
        failure, visits, walks := BuildItems(elements, parent, owner);
    }

    /** The walk of a list property of `owner`: its elements in index order. */
    method BuildItems(elements: seq<ParseTree.Fragment>, parent: SyntaxTree.SyntaxNode, ghost owner: ParseTree.Fragment)
      returns (failure: Option<Exception>, ghost visits: seq<Visit>, ghost walks: seq<Walk>)
      requires Valid() && parent in Nodes && forall k | 0 <= k < |elements| :: elements[k] < owner
      modifies this, Nodes
      ensures Valid() && old(Nodes) <= Nodes && fresh(Nodes - old(Nodes))
      ensures old(Tracked()) ==> Tracked()
      ensures CursorOffset == old(CursorOffset)
      ensures visits == FlatList(walks)
      ensures State() == Track(CursorOffset, old(State()), visits)
      ensures failure.None? ==> Below(walks, elements, parent) && Visited(visits) == ListOrder(elements)
      decreases owner, 2
    {
      visits, walks := [], [];
      failure := None;
      var j := 0;
      while j < |elements|
        invariant 0 <= j <= |elements|
        invariant Valid() && parent in Nodes && old(Nodes) <= Nodes && fresh(Nodes - old(Nodes))
        invariant old(Tracked()) ==> Tracked()
        invariant CursorOffset == old(CursorOffset)
        invariant visits == FlatList(walks)
        invariant State() == Track(CursorOffset, old(State()), visits)
        invariant Visited(visits) + ListOrder(elements[j..]) == ListOrder(elements)
        invariant Below(walks, elements[..j], parent)
      {
        failure, visits, walks := BuildElement(elements, j, parent, owner, old(State()), visits, walks);
        if failure.Some? {
          return;
        }
        j := j + 1;
      }
      assert elements[..j] == elements;
    }

    /** The walk of element `j` of a list property, appended to the visits and walks made so far from `start`. */
    method BuildElement(elements: seq<ParseTree.Fragment>, j: nat, parent: SyntaxTree.SyntaxNode, ghost owner: ParseTree.Fragment,
                        ghost start: Cursor, ghost before: seq<Visit>, ghost prior: seq<Walk>)
      returns (failure: Option<Exception>, ghost visits: seq<Visit>, ghost walks: seq<Walk>)
      requires Valid() && parent in Nodes && j < |elements| && elements[j] < owner
      requires before == FlatList(prior) && State() == Track(CursorOffset, start, before)
      requires Visited(before) + ListOrder(elements[j..]) == ListOrder(elements) && Below(prior, elements[..j], parent)
      modifies this, Nodes
      ensures Valid() && old(Nodes) <= Nodes && fresh(Nodes - old(Nodes))
      ensures old(Tracked()) ==> Tracked()
      ensures CursorOffset == old(CursorOffset)
      ensures visits == FlatList(walks)
      ensures State() == Track(CursorOffset, start, visits)
      ensures failure.None? ==>
        Visited(visits) + ListOrder(elements[j + 1..]) == ListOrder(elements) && Below(walks, elements[..j + 1], parent)
      decreases owner, 1
    {
      ghost var more, w;
      failure, more, w := BuildChild(elements[j], parent, owner);
      ItemStep(before, more, prior, w, elements, j, parent, failure.None?);
      visits := before + more;
      walks := if more == [] then prior else prior + [w];
      TrackAppend(CursorOffset, start, before, more);
    }

    /**
     * One child: its overlay node if it gets one, then its walk under that
     * node or under `parent`. Only a failed creation leaves no visit.
     */
    method BuildChild(child: ParseTree.Fragment, parent: SyntaxTree.SyntaxNode, ghost owner: ParseTree.Fragment)
      returns (failure: Option<Exception>, ghost visits: seq<Visit>, ghost walk: Walk)
      requires Valid() && parent in Nodes && child < owner
      modifies this, Nodes
      ensures Valid() && old(Nodes) <= Nodes && fresh(Nodes - old(Nodes))
      ensures old(Tracked()) ==> Tracked()
      ensures CursorOffset == old(CursorOffset)
      ensures State() == Track(CursorOffset, old(State()), visits)
      ensures visits == [] ==> failure.Some?
      ensures visits != [] ==>
        visits == Flat(walk) && walk.Fragment == child && Beneath(child, parent, walk.Node)
        && (walk.Node == parent || fresh(walk.Node) || (child.Kind.WhereClause? && walk.Node in old(Nodes)))
      ensures failure.None? ==> Walked(walk) && Visited(visits) == PreOrder(child)
      decreases owner, 0
    {
      ScopeForFacts(parent, Nodes);
      SelfOrAncestorFacts(parent, ScriptNode, Nodes);
      ghost var script, scope, scopeWhere, select :=
        SelfOrAncestorOf(parent, ScriptNode, Nodes), ScopeFor(parent, Nodes), ScopeWhere(parent, Nodes),
        SelfOrAncestorOf(parent, SelectNode, Nodes);
      assert scope != null ==> scopeWhere == scope.Where && scopeWhere in Nodes && scopeWhere.Kind == WhereNode;
      var node;
      node, failure := CreateSyntaxNode(child, parent);
      if failure.Some? {
        return failure, [], Walk(child, parent, []);
      }
      var under := if node == null then parent else node;
      CreatedBeneath(child, parent, under, node != null && fresh(node), script, scope, scopeWhere, select);
      failure, visits, walk := BuildSyntaxNode(child, under);
    }

    /**
     * CreateSyntaxNode: dispatches on the fragment's class to the creator
     * for that class; the other classes get no node. The child's walk then
     * goes on under the node returned, or under `parent` for null.
     */
    method CreateSyntaxNode(fragment: ParseTree.Fragment, parent: SyntaxTree.SyntaxNode)
      returns (node: SyntaxTree.SyntaxNode?, failure: Option<Exception>)
      requires Valid() && parent in Nodes
      modifies this, Nodes
      ensures Valid() && old(Nodes) <= Nodes && fresh(Nodes - old(Nodes))
      ensures State() == old(State()) && CursorOffset == old(CursorOffset)
      ensures node != null ==> node in Nodes
      ensures failure.None? ==>
        CreatedUnder(fragment, parent, if node == null then parent else node, node != null && fresh(node),
          old(SelfOrAncestorOf(parent, ScriptNode, Nodes)), old(ScopeFor(parent, Nodes)),
          old(ScopeWhere(parent, Nodes)), old(SelfOrAncestorOf(parent, SelectNode, Nodes)))
      // A table reference or a column reference without a name throws once it reaches its creator.
      ensures failure.Some? <==>
        (fragment.Kind.NamedTableReference? && old(ScopeFor(parent, Nodes)) != null
         && FieldValue(fragment, "SchemaObject").None?)
        || (fragment.Kind.ColumnReferenceExpression? && (parent.Kind == ColumnNode || old(ScopeFor(parent, Nodes)) != null)
            && FieldValue(fragment, "MultiPartIdentifier").None?)
      ensures failure.Some? ==> failure == Some(NullReference) && node == null && Nodes == old(Nodes)
      // What each creator adds to the overlay.
      ensures var script := old(SelfOrAncestorOf(parent, ScriptNode, Nodes));
        fragment.Kind.SelectStatement? && script != null ==>
          script.Statements == old(script.Statements) + [node] && Nodes == old(Nodes) + {node, node.Where}
      ensures var scope := old(ScopeFor(parent, Nodes));
        (fragment.Kind.QueryDerivedTable? || fragment.Kind.QualifiedJoin?) && scope != null ==>
          scope.Tables == old(scope.Tables) + [node] && Nodes == old(Nodes) + {node, node.Where}
      ensures var scope := old(ScopeFor(parent, Nodes));
        fragment.Kind.QueryDerivedTable? && scope != null ==> node.Alias == Some(IdentifierValue(FieldValue(fragment, "Alias")))
      ensures var scope := old(ScopeFor(parent, Nodes));
        fragment.Kind.QualifiedJoin? && scope != null ==> node.JoinType == JoinTypeOf(fragment.Kind.JoinKind)
      ensures var scope := old(ScopeFor(parent, Nodes));
        var name := FieldValue(fragment, "SchemaObject");
        fragment.Kind.NamedTableReference? && scope != null && name.Some? ==>
          scope.Tables == old(scope.Tables) + [node] && Nodes == old(Nodes) + {node}
          && node.Name == Some(Dotted("", PartValues(ListValue(name.value, IdentifiersProperty))))
          && node.Alias == Some(IdentifierValue(FieldValue(fragment, "Alias")))
      ensures var select := old(SelfOrAncestorOf(parent, SelectNode, Nodes));
        fragment.Kind.SelectScalarExpression? && select != null ==>
          select.Columns == old(select.Columns) + [node] && Nodes == old(Nodes) + {node}
          && node.Alias == Some(IdentifierOrValueValue(FieldValue(fragment, "ColumnName")))
      ensures var mpi := FieldValue(fragment, "MultiPartIdentifier");
        fragment.Kind.ColumnReferenceExpression? && parent.Kind == ColumnNode && mpi.Some? ==>
          parent.Name == Some(Dotted("", PartValues(ListValue(mpi.value, IdentifiersProperty)))) && Nodes == old(Nodes)
      ensures var where := old(ScopeWhere(parent, Nodes));
        var mpi := FieldValue(fragment, "MultiPartIdentifier");
        fragment.Kind.ColumnReferenceExpression? && parent.Kind != ColumnNode && where != null && mpi.Some? ==>
          where.Columns == old(where.Columns) + [node] && Nodes == old(Nodes) + {node}
          && node.Name == Some(Dotted("", PartValues(ListValue(mpi.value, IdentifiersProperty))))
      ensures !(fragment.Kind.SelectStatement? || fragment.Kind.QueryDerivedTable? || fragment.Kind.QualifiedJoin?
                || fragment.Kind.NamedTableReference? || fragment.Kind.SelectScalarExpression?
                || fragment.Kind.ColumnReferenceExpression?)
        ==> Nodes == old(Nodes)
    {
      failure := None;
      ScopeForFacts(parent, Nodes);
      match fragment.Kind
      case SelectStatement => node := CreateSelectNode(parent);
      case QueryDerivedTable => node := CreateQueryNode(fragment, parent);
      case QualifiedJoin(joinType) => node := CreateJoinNode(joinType, parent);
      case NamedTableReference => node, failure := CreateTableNode(fragment, parent);
      case SelectScalarExpression => node := CreateSelectScalarNode(fragment, parent);
      case ColumnReferenceExpression(_) => node, failure := CreateColumnReferenceNode(fragment, parent);
      case WhereClause => node := CreateWhereNode(parent);
      case _ => node := null;
    }

    /** `new T { Parent = parent }` for a node kind that is not a scope. */
    method NewLeaf(kind: NodeKind, parent: SyntaxTree.SyntaxNode, name: Option<string>, alias: Option<string>)
      returns (node: SyntaxTree.SyntaxNode)
      requires Valid() && parent in Nodes && !IsTableScopeProvider(kind)
      modifies this
      ensures Valid() && State() == old(State()) && CursorOffset == old(CursorOffset)
      ensures fresh(node) && node.Kind == kind && node.Parent == parent && node.Depth == parent.Depth + 1
      ensures node.Tables == [] && node.Columns == [] && node.Name == name && node.Alias == alias
      ensures Nodes == old(Nodes) + {node}
    {
      assert Placed(parent, Nodes);
      node := new SyntaxTree.SyntaxNode(kind, parent, parent.Depth + 1);
      node.Name, node.Alias := name, alias;
      LinkedAdded(Nodes, {node});
      Nodes := Nodes + {node};
    }

    /** `new T { Parent = parent }` for a scope kind, which brings its own WhereNode. */
    method NewScope(kind: NodeKind, parent: SyntaxTree.SyntaxNode, alias: Option<string>, joinType: JoinType)
      returns (node: SyntaxTree.SyntaxNode)
      requires Valid() && parent in Nodes && IsTableScopeProvider(kind)
      modifies this
      ensures Valid() && State() == old(State()) && CursorOffset == old(CursorOffset)
      ensures fresh(node) && fresh(node.Where) && node.Kind == kind && node.Parent == parent && node.Depth == parent.Depth + 1
      ensures node.Tables == [] && node.Columns == [] && node.Alias == alias && node.JoinType == joinType
      ensures node.Where.Kind == WhereNode && node.Where.Parent == node && node.Where.Columns == []
      ensures Nodes == old(Nodes) + {node, node.Where}
    {
      assert Placed(parent, Nodes);
      node := new SyntaxTree.SyntaxNode.Scope(kind, parent, parent.Depth + 1);
      node.Alias, node.JoinType := alias, joinType;
      ghost var added := {node, node.Where};
      CardinalityTwo(Nodes, node, node.Where);
      assert Placed(node, Nodes + added);
      assert Placed(node.Where, Nodes + added);
      LinkedAdded(Nodes, added);
      Nodes := Nodes + added;
    }

    /** `scope.Tables.Add(node)` for a node deeper than the scope. */
    method AppendTable(scope: SyntaxTree.SyntaxNode, node: SyntaxTree.SyntaxNode)
      requires Valid() && scope in Nodes && node in Nodes && scope.Depth < node.Depth
      modifies scope
      ensures Valid() && scope.Tables == old(scope.Tables) + [node]
    {
      scope.Tables := scope.Tables + [node];
      LinkedKept(this, scope, [node], {});
      assert Nodes + {} == Nodes;
    }

    /** `owner.Columns.Add(node)`. */
    method AppendColumn(owner: SyntaxTree.SyntaxNode, node: SyntaxTree.SyntaxNode)
      requires Valid() && owner in Nodes
      modifies owner
      ensures Valid() && owner.Columns == old(owner.Columns) + [node] && owner.Where == old(owner.Where)
    {
      owner.Columns := owner.Columns + [node];
      LinkedKept(this, owner, [], {});
      assert Nodes + {} == Nodes;
    }

    /** `node.Name = name`. */
    method SetName(node: SyntaxTree.SyntaxNode, name: string)
      requires Valid() && node in Nodes
      modifies node
      ensures Valid() && node.Name == Some(name)
    {
      node.Name := Some(name);
      LinkedKept(this, node, [], {});
      assert Nodes + {} == Nodes;
    }

    /** `script.Statements.Add(node)`. */
    method AppendStatement(script: SyntaxTree.SyntaxNode, node: SyntaxTree.SyntaxNode)
      requires Valid() && script in Nodes
      modifies script
      ensures Valid() && script.Statements == old(script.Statements) + [node]
    {
      script.Statements := script.Statements + [node];
      LinkedKept(this, script, [], {});
      assert Nodes + {} == Nodes;
    }

    /**
     * CreateSelectNode: a SelectNode under the nearest ScriptNode (the parent
     * itself or an ancestor), appended to its Statements; nothing without one.
     */
    method CreateSelectNode(parent: SyntaxTree.SyntaxNode) returns (node: SyntaxTree.SyntaxNode?)
      requires Valid() && parent in Nodes
      modifies this, SelfOrAncestorOf(parent, ScriptNode, Nodes)
      ensures Valid() && State() == old(State()) && CursorOffset == old(CursorOffset)
      ensures old(SelfOrAncestorOf(parent, ScriptNode, Nodes)) == null ==> node == null && Nodes == old(Nodes)
      ensures var script := old(SelfOrAncestorOf(parent, ScriptNode, Nodes));
        script != null ==>
          fresh(node) && fresh(node.Where) && node.Kind == SelectNode && node.Parent == script
          && node.Tables == [] && node.Columns == [] && node.Where.Parent == node && node.Where.Columns == []
          && script.Statements == old(script.Statements) + [node]
          && Nodes == old(Nodes) + {node, node.Where}
    {
      var script := SelfOrAncestor(parent, ScriptNode, Nodes);
      SelfOrAncestorFacts(parent, ScriptNode, Nodes);
      if script == null {
        return null;
      }
      node := NewScope(SelectNode, script, None, InnerJoin);
      AppendStatement(script, node);
    }

    /** CreateQueryNode: a QueryNode carrying the derived table's alias ("" without one), appended to the scope's Tables. */
    method CreateQueryNode(fragment: ParseTree.Fragment, parent: SyntaxTree.SyntaxNode) returns (node: SyntaxTree.SyntaxNode?)
      requires Valid() && parent in Nodes
      modifies this, ScopeFor(parent, Nodes)
      ensures Valid() && State() == old(State()) && CursorOffset == old(CursorOffset)
      ensures old(ScopeFor(parent, Nodes)) == null ==> node == null && Nodes == old(Nodes)
      ensures var scope := old(ScopeFor(parent, Nodes));
        scope != null ==>
          fresh(node) && fresh(node.Where) && node.Kind == QueryNode && node.Parent == parent
          && node.Alias == Some(IdentifierValue(FieldValue(fragment, "Alias")))
          && node.Tables == [] && node.Columns == [] && node.Where.Parent == node
          && scope.Tables == old(scope.Tables) + [node]
          && Nodes == old(Nodes) + {node, node.Where}
    {
      var scope := TableScopeProvider(parent, Nodes);
      ScopeForFacts(parent, Nodes);
      if scope == null {
        return null;
      }
      node := NewScope(QueryNode, parent, Some(IdentifierValue(FieldValue(fragment, "Alias"))), InnerJoin);
      AppendTable(scope, node);
    }

    /** CreateJoinNode: a JoinNode whose JoinType is the join's type cast, appended to the scope's Tables. */
    method CreateJoinNode(joinType: QualifiedJoinType, parent: SyntaxTree.SyntaxNode) returns (node: SyntaxTree.SyntaxNode?)
      requires Valid() && parent in Nodes
      modifies this, ScopeFor(parent, Nodes)
      ensures Valid() && State() == old(State()) && CursorOffset == old(CursorOffset)
      ensures old(ScopeFor(parent, Nodes)) == null ==> node == null && Nodes == old(Nodes)
      ensures var scope := old(ScopeFor(parent, Nodes));
        scope != null ==>
          fresh(node) && fresh(node.Where) && node.Kind == JoinNode && node.Parent == parent
          && node.JoinType == JoinTypeOf(joinType) && node.Tables == [] && node.Where.Parent == node
          && scope.Tables == old(scope.Tables) + [node]
          && Nodes == old(Nodes) + {node, node.Where}
    {
      var scope := TableScopeProvider(parent, Nodes);
      ScopeForFacts(parent, Nodes);
      if scope == null {
        return null;
      }
      node := NewScope(JoinNode, parent, None, JoinTypeOf(joinType));
      AppendTable(scope, node);
    }

    /** CreateTableNode: a TableNode with the dotted table name and the alias text, appended to the scope's Tables. */
    method CreateTableNode(fragment: ParseTree.Fragment, parent: SyntaxTree.SyntaxNode)
      returns (node: SyntaxTree.SyntaxNode?, failure: Option<Exception>)
      requires Valid() && parent in Nodes
      modifies this, ScopeFor(parent, Nodes)
      ensures Valid() && State() == old(State()) && CursorOffset == old(CursorOffset)
      ensures old(ScopeFor(parent, Nodes)) == null ==> node == null && failure.None? && Nodes == old(Nodes)
      ensures var scope := old(ScopeFor(parent, Nodes));
        var name := FieldValue(fragment, "SchemaObject");
        scope != null ==>
          if name.None? then
            node == null && failure == Some(NullReference) && Nodes == old(Nodes) && scope.Tables == old(scope.Tables)
          else
            (failure.None? && fresh(node) && node.Kind == TableNode && node.Parent == parent
             && node.Name == Some(Dotted("", PartValues(ListValue(name.value, IdentifiersProperty))))
             && node.Alias == Some(IdentifierValue(FieldValue(fragment, "Alias")))
             && scope.Tables == old(scope.Tables) + [node]
             && Nodes == old(Nodes) + {node})
    {
      // The name is only looked at once a scope is found: a missing one throws there.
      var name := MultiPartValue(FieldValue(fragment, "SchemaObject"));
      var alias := IdentifierValue(FieldValue(fragment, "Alias"));
      var scope := TableScopeProvider(parent, Nodes);
      ScopeForFacts(parent, Nodes);
      if scope == null {
        return null, None;
      }
      if name.Throws? {
        return null, Some(name.error);
      }
      node := AddTableNode(scope, parent, name.value, alias);
      failure := None;
    }

    /** The TableNode of CreateTableNode once its scope and texts are known. */
    method AddTableNode(scope: SyntaxTree.SyntaxNode, parent: SyntaxTree.SyntaxNode, name: string, alias: string)
      returns (node: SyntaxTree.SyntaxNode)
      requires Valid() && parent in Nodes && scope in Nodes && scope.Depth <= parent.Depth
      modifies this, scope
      ensures Valid() && State() == old(State()) && CursorOffset == old(CursorOffset)
      ensures fresh(node) && node.Kind == TableNode && node.Parent == parent
      ensures node.Name == Some(name) && node.Alias == Some(alias)
      ensures scope.Tables == old(scope.Tables) + [node] && Nodes == old(Nodes) + {node}
    {
      node := NewLeaf(TableNode, parent, Some(name), Some(alias));
      AppendTable(scope, node);
    }

    /**
     * CreateSelectScalarNode: a ColumnNode carrying the column alias text,
     * appended to the Columns of the nearest SelectNode (a QueryNode counts).
     */
    method CreateSelectScalarNode(fragment: ParseTree.Fragment, parent: SyntaxTree.SyntaxNode) returns (node: SyntaxTree.SyntaxNode?)
      requires Valid() && parent in Nodes
      modifies this, SelfOrAncestorOf(parent, SelectNode, Nodes)
      ensures Valid() && State() == old(State()) && CursorOffset == old(CursorOffset)
      ensures old(SelfOrAncestorOf(parent, SelectNode, Nodes)) == null ==> node == null && Nodes == old(Nodes)
      ensures var select := old(SelfOrAncestorOf(parent, SelectNode, Nodes));
        select != null ==>
          fresh(node) && node.Kind == ColumnNode && node.Parent == parent
          && node.Alias == Some(IdentifierOrValueValue(FieldValue(fragment, "ColumnName")))
          && select.Columns == old(select.Columns) + [node]
          && Nodes == old(Nodes) + {node}
    {
      var select := SelfOrAncestor(parent, SelectNode, Nodes);
      SelfOrAncestorFacts(parent, SelectNode, Nodes);
      if select == null {
        return null;
      }
      node := NewLeaf(ColumnNode, parent, None, Some(IdentifierOrValueValue(FieldValue(fragment, "ColumnName"))));
      AppendColumn(select, node);
    }

    /**
     * CreateColumnReferenceNode: inside a select-list ColumnNode it only sets
     * that node's Name; elsewhere it appends a new ColumnNode to the Columns
     * of the scope's WhereNode, with that WhereNode as Parent.
     */
    method CreateColumnReferenceNode(fragment: ParseTree.Fragment, parent: SyntaxTree.SyntaxNode)
      returns (node: SyntaxTree.SyntaxNode?, failure: Option<Exception>)
      requires Valid() && parent in Nodes
      modifies this, parent, if ScopeFor(parent, Nodes) == null then null else ScopeFor(parent, Nodes).Where
      ensures Valid() && State() == old(State()) && CursorOffset == old(CursorOffset)
      ensures var mpi := FieldValue(fragment, "MultiPartIdentifier");
        parent.Kind == ColumnNode ==>
          node == (if mpi.Some? then parent else null) && Nodes == old(Nodes)
          && (mpi.None? ==> failure == Some(NullReference) && parent.Name == old(parent.Name))
          && (mpi.Some? ==> failure.None? && parent.Name == Some(Dotted("", PartValues(ListValue(mpi.value, IdentifiersProperty)))))
      ensures parent.Kind != ColumnNode && old(ScopeFor(parent, Nodes)) == null ==>
        node == null && failure.None? && Nodes == old(Nodes)
      ensures var scope := old(ScopeFor(parent, Nodes));
        var mpi := FieldValue(fragment, "MultiPartIdentifier");
        parent.Kind != ColumnNode && scope != null ==>
          (mpi.None? ==> node == null && failure == Some(NullReference) && Nodes == old(Nodes))
          && (mpi.Some? ==>
               failure.None? && fresh(node) && node.Kind == ColumnNode && node.Parent == scope.Where
               && node.Name == Some(Dotted("", PartValues(ListValue(mpi.value, IdentifiersProperty))))
               && old(scope.Where) != null && scope.Where == old(scope.Where)
               && scope.Where.Columns == old(scope.Where.Columns) + [node]
               && Nodes == old(Nodes) + {node})
    {
      if parent.Kind == ColumnNode {
        node, failure := NameSelectColumn(fragment, parent);
      } else {
        node, failure := CreateWhereColumn(fragment, parent);
      }
    }

    /** The select-list case of CreateColumnReferenceNode: the ColumnNode's Name is the dotted name. */
    method NameSelectColumn(fragment: ParseTree.Fragment, parent: SyntaxTree.SyntaxNode)
      returns (node: SyntaxTree.SyntaxNode?, failure: Option<Exception>)
      requires Valid() && parent in Nodes && parent.Kind == ColumnNode
      modifies parent
      ensures Valid()
      ensures var mpi := FieldValue(fragment, "MultiPartIdentifier");
        node == (if mpi.Some? then parent else null)
        && (mpi.None? ==> failure == Some(NullReference) && parent.Name == old(parent.Name))
        && (mpi.Some? ==> failure.None? && parent.Name == Some(Dotted("", PartValues(ListValue(mpi.value, IdentifiersProperty)))))
    {
      var name := MultiPartValue(FieldValue(fragment, "MultiPartIdentifier"));
      if name.Throws? {
        return null, Some(name.error);
      }
      SetName(parent, name.value);
      return parent, None;
    }

    /** The other case of CreateColumnReferenceNode: a new ColumnNode in the scope's WhereNode. */
    method CreateWhereColumn(fragment: ParseTree.Fragment, parent: SyntaxTree.SyntaxNode)
      returns (node: SyntaxTree.SyntaxNode?, failure: Option<Exception>)
      requires Valid() && parent in Nodes && parent.Kind != ColumnNode
      modifies this, if ScopeFor(parent, Nodes) == null then null else ScopeFor(parent, Nodes).Where
      ensures Valid() && State() == old(State()) && CursorOffset == old(CursorOffset)
      ensures old(ScopeFor(parent, Nodes)) == null ==> node == null && failure.None? && Nodes == old(Nodes)
      ensures var scope := old(ScopeFor(parent, Nodes));
        var mpi := FieldValue(fragment, "MultiPartIdentifier");
        scope != null ==>
          (mpi.None? ==> node == null && failure == Some(NullReference) && Nodes == old(Nodes))
          && (mpi.Some? ==>
               failure.None? && fresh(node) && node.Kind == ColumnNode && node.Parent == scope.Where
               && node.Name == Some(Dotted("", PartValues(ListValue(mpi.value, IdentifiersProperty))))
               && old(scope.Where) != null && scope.Where == old(scope.Where)
               && scope.Where.Columns == old(scope.Where.Columns) + [node]
               && Nodes == old(Nodes) + {node})
    {
      var scope := TableScopeProvider(parent, Nodes);
      ScopeForFacts(parent, Nodes);
      if scope == null {
        return null, None;
      }
      var name := MultiPartValue(FieldValue(fragment, "MultiPartIdentifier"));
      if name.Throws? {
        return null, Some(name.error);
      }
      node := AddWhereColumn(scope.Where, name.value);
      failure := None;
    }

    /** The ColumnNode of CreateColumnReferenceNode outside a select list, once its WhereNode and name are known. */
    method AddWhereColumn(where: SyntaxTree.SyntaxNode, name: string) returns (node: SyntaxTree.SyntaxNode)
      requires Valid() && where in Nodes
      modifies this, where
      ensures Valid() && State() == old(State()) && CursorOffset == old(CursorOffset)
      ensures fresh(node) && node.Kind == ColumnNode && node.Parent == where && node.Name == Some(name)
      ensures where.Columns == old(where.Columns) + [node] && where.Where == old(where.Where)
      ensures Nodes == old(Nodes) + {node}
    {
      node := NewLeaf(ColumnNode, where, Some(name), None);
      AppendColumn(where, node);
    }

    /** CreateWhereNode: no new node; the scope's own WhereNode becomes the parent of the clause's children. */
    method CreateWhereNode(parent: SyntaxTree.SyntaxNode) returns (node: SyntaxTree.SyntaxNode?)
      requires Valid() && parent in Nodes
      ensures var scope := ScopeFor(parent, Nodes);
        node == (if scope == null then null else scope.Where)
      ensures node != null ==> node in Nodes
    {
      ScopeForFacts(parent, Nodes);
      var scope := TableScopeProvider(parent, Nodes);
      if scope == null {
        return null;
      }
      return scope.Where;
    }
  }
}
