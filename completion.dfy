/**
 * CompletionService: the suggestions offered at a cursor offset. The
 * structural context comes from the overlay the builder records for the
 * cursor: a table node asks the catalog for entities, a column node asks
 * for the properties of the entities its scope sees. A script the parser
 * could not split into batches falls back to the token stream: an
 * identifier after FROM or JOIN asks for entities.
 *
 * The catalog queries MatchApplicationObject(name) and
 * MatchProperties(entity, name) are parameters: the service interface the
 * code calls does not define them.
 */
module Completion {
  import opened Wrappers
  import opened Text
  import opened Metadata
  import opened ParseTree
  import opened SyntaxTree
  import SyntaxTreeBuilding
  import ScriptingService

  /** A suggestion: the text, the span it replaces and the kind shown beside it. */
  datatype CompletionItem = CompletionItem(Value: string, Offset: int, Length: int, ItemType: string)

  /** The context the builder records: the script's root and the cursor state. */
  datatype CompletionContext = CompletionContext(
    Root: SyntaxTree.SyntaxNode,
    CursorOffset: int,
    FragmentOffset: int,
    FragmentLength: int,
    Fragment: Option<ParseTree.Fragment>,
    SyntaxNode: SyntaxTree.SyntaxNode?)

  // ------------------------------------------------------- Item types

  /** The entity kinds offered when nothing matches, in the order they are offered. */
  const EntityTypes: seq<string> := ["Справочник", "Документ", "РегистрСведений", "РегистрНакопления", "ПланОбмена"]

  /** GetCompletionItemType: the marker of the entity's kind, "" for the other kinds. */
  function CompletionItemType(kind: ObjectKind): (r: string)
    ensures r == "" <==> !(kind.Catalog? || kind.Document? || kind.InformationRegister? || kind.AccumulationRegister? || kind.Publication?)
    ensures r != "" ==> r in EntityTypes
  {
    match kind
    case Catalog => "Справочник"
    case Document => "Документ"
    case InformationRegister => "РегистрСведений"
    case AccumulationRegister => "РегистрНакопления"
    case Publication => "ПланОбмена"
    case _ => ""
  }

  /**
   * The five entity types are the item types of the five kinds, in offer
   * order, and each is a kind marker that names the collection holding that
   * kind: choosing one leads back to the entities it stands for.
   */
  lemma EntityTypesNameCollections(infoBase: InfoBase)
    ensures EntityTypes == [CompletionItemType(Catalog), CompletionItemType(Document),
      CompletionItemType(InformationRegister), CompletionItemType(AccumulationRegister), CompletionItemType(Publication)]
    ensures forall k | 0 <= k < |EntityTypes| :: EntityTypes[k] in ScriptingService.KindMarkers
    ensures ScriptingService.GetCollection(infoBase, CompletionItemType(Catalog)) == Some(infoBase.Catalogs)
    ensures ScriptingService.GetCollection(infoBase, CompletionItemType(Document)) == Some(infoBase.Documents)
    ensures ScriptingService.GetCollection(infoBase, CompletionItemType(InformationRegister)) == Some(infoBase.InformationRegisters)
    ensures ScriptingService.GetCollection(infoBase, CompletionItemType(AccumulationRegister)) == Some(infoBase.AccumulationRegisters)
    ensures ScriptingService.GetCollection(infoBase, CompletionItemType(Publication)) == Some(infoBase.Publications)
  {
  }

  // ------------------------------------------------- Table suggestions

  /** GetEntityTypeCompletionItems: one item per entity type, the type as both value and item type. */
  function EntityTypeItems(offset: int, length: int): (r: seq<CompletionItem>)
    ensures |r| == |EntityTypes|
    ensures forall k | 0 <= k < |r| :: r[k] == CompletionItem(EntityTypes[k], offset, length, EntityTypes[k])
  {
    seq(|EntityTypes|, k requires 0 <= k < |EntityTypes| => CompletionItem(EntityTypes[k], offset, length, EntityTypes[k]))
  }

  /** One item per entity, named after it, all tagged with the same item type. */
  function EntityItems(list: seq<ApplicationObject>, offset: int, length: int, itemType: string): seq<CompletionItem>
  {
    seq(|list|, k requires 0 <= k < |list| => CompletionItem(list[k].Name, offset, length, itemType))
  }

  /** The table suggestions for an identifier. */
  function TableItems(service: ScriptingService.Service, offset: int, length: int, identifier: string): (r: seq<CompletionItem>)
    // Every suggestion replaces the context's span, and there is always at least one.
    ensures forall k | 0 <= k < |r| :: r[k].Offset == offset && r[k].Length == length
    ensures |r| >= 1
  {
    var list := ScriptingService.MatchedObjects(service, identifier);
    if list == [] then EntityTypeItems(offset, length)
    else EntityItems(list, offset, length, CompletionItemType(list[0].Kind))
  }

  /** GetTableCompletionItems for a table identifier that may be null. */
  function TableResult(service: ScriptingService.Service, offset: int, length: int, identifier: Option<string>): Result<seq<CompletionItem>>
  {
    if identifier.None? then Throws(NullReference) else Ok(TableItems(service, offset, length, identifier.value))
  }

  /**
   * GetTableCompletionItems: the matched entities, each under its own name
   * and all tagged with the first one's kind; the entity types when nothing
   * matches. A null identifier throws inside the split.
   */
  method GetTableCompletionItems(service: ScriptingService.Service, offset: int, length: int, tableIdentifier: Option<string>)
    returns (r: Result<seq<CompletionItem>>)
    ensures r == TableResult(service, offset, length, tableIdentifier)
  {
    if tableIdentifier.None? {
      return Throws(NullReference);
    }
    var list := ScriptingService.MatchApplicationObjects(service, tableIdentifier.value);
    if |list| == 0 {
      return Ok(EntityTypeItems(offset, length));
    }
    var itemType := CompletionItemType(list[0].Kind);
    var suggestions: seq<CompletionItem> := [];
    for i := 0 to |list|
      invariant suggestions == EntityItems(list[..i], offset, length, itemType)
    {
      suggestions := suggestions + [CompletionItem(list[i].Name, offset, length, itemType)];
    }
    assert list[..|list|] == list;
    return Ok(suggestions);
  }

  /**
   * The table suggestions replace the context's span, and are either exactly
   * the five entity types in order (nothing matched) or one per matched
   * entity, in match order, under its name and tagged with the kind of the
   * first match.
   */
  lemma TableItemsFacts(service: ScriptingService.Service, offset: int, length: int, identifier: string)
    ensures var r := TableItems(service, offset, length, identifier);
      forall k | 0 <= k < |r| :: r[k].Offset == offset && r[k].Length == length
    ensures var r, list := TableItems(service, offset, length, identifier), ScriptingService.MatchedObjects(service, identifier);
      (list == [] ==> |r| == 5 && forall k | 0 <= k < 5 :: r[k].Value == r[k].ItemType == EntityTypes[k])
      && (list != [] ==>
            |r| == |list| && forall k | 0 <= k < |r| :: r[k].Value == list[k].Name && r[k].ItemType == CompletionItemType(list[0].Kind))
  {
  }

  /**
   * "Kind.pattern": once some entity of that kind matches, the suggestions
   * are the names of exactly the entities of the kind's collection whose
   * name contains the pattern, ignoring case; when none does, the entity
   * types are offered instead.
   */
  lemma KindPatternSuggestions(service: ScriptingService.Service, offset: int, length: int, kind: string, pattern: string)
    requires ScriptingService.IsSpecialSchema(Some(kind)) && pattern != "" && '.' !in pattern
    ensures ScriptingService.GetCollection(service.MainInfoBase, kind).Some?
    ensures var collection := ScriptingService.GetCollection(service.MainInfoBase, kind);
      var values := Values(collection.value);
      var matched := ScriptingService.Matching(values, pattern);
      var r := TableItems(service, offset, length, kind + "." + pattern);
      (matched == [] ==> r == EntityTypeItems(offset, length))
      && (matched != [] ==>
            |r| == |matched| && (forall k | 0 <= k < |r| :: r[k].Value == matched[k].Name)
            && (forall o | o in values && ContainsIgnoreCase(o.Name, pattern) :: exists k | 0 <= k < |r| :: r[k].Value == o.Name))
  {
    KindPatternMatches(service, kind, pattern);
    var values := Values(ScriptingService.GetCollection(service.MainInfoBase, kind).value);
    var matched := ScriptingService.Matching(values, pattern);
    ScriptingService.MatchingMembers(values, pattern);
    var r := TableItems(service, offset, length, kind + "." + pattern);
    forall o | o in values && ContainsIgnoreCase(o.Name, pattern)
      ensures exists k | 0 <= k < |r| :: r[k].Value == o.Name
    {
      var k :| 0 <= k < |matched| && matched[k] == o;
      assert r[k].Value == o.Name;
    }
  }

  /** "Kind.pattern" asks the kind's collection for the entities matching the pattern. */
  lemma KindPatternMatches(service: ScriptingService.Service, kind: string, pattern: string)
    requires ScriptingService.IsSpecialSchema(Some(kind)) && pattern != "" && '.' !in pattern
    ensures ScriptingService.GetCollection(service.MainInfoBase, kind).Some?
    ensures ScriptingService.MatchedObjects(service, kind + "." + pattern)
      == ScriptingService.Matching(Values(ScriptingService.GetCollection(service.MainInfoBase, kind).value), pattern)
  {
    ScriptingService.SpecialSchemaCollection(service.MainInfoBase, kind);
    assert '.' !in kind by {
      ScriptingService.MarkersAgree(service.MainInfoBase, kind);
      MarkersHaveNoDot();
    }
    SplitTwo(kind, pattern, '.');
  }

  lemma MarkersHaveNoDot()
    ensures forall k | 0 <= k < |ScriptingService.KindMarkers| :: '.' !in ScriptingService.KindMarkers[k]
  {
  }

  /** Two non-empty pieces without the separator split back apart. */
  lemma SplitTwo(a: string, b: string, sep: char)
    requires a != "" && b != "" && sep !in a && sep !in b
    ensures SplitRemoveEmpty(a + [sep] + b, sep) == [a, b]
  {
    ScriptingService.SplitPrefix(a, b, sep);
    SplitWithoutSeparator(b, sep);
    assert Split(a + [sep] + b, sep) == [a, b];
    assert NonEmpty([b]) == [b] by {
      assert [b][1..] == [];
    }
    assert [a, b][1..] == [b];
  }

  // ------------------------------------------------ Column suggestions

  /** The Name of each table node, in order. */
  function TableNames(tables: seq<SyntaxTree.SyntaxNode>): (r: seq<Option<string>>)
    reads tables
    ensures |r| == |tables| && forall k | 0 <= k < |r| :: r[k] == tables[k].Name
  {
    seq(|tables|, k requires 0 <= k < |tables| reads tables => tables[k].Name)
  }

  /** The entities the tables' names resolve to, in table order; names that resolve to nothing are skipped. */
  function Resolved(matchObject: Option<string> -> Option<ApplicationObject>, names: seq<Option<string>>): seq<ApplicationObject>
  {
    if names == [] then []
    else
      var entity := matchObject(names[|names| - 1]);
      Resolved(matchObject, names[..|names| - 1]) + (if entity.Some? then [entity.value] else [])
  }

  /** One item per property: its bare name, tagged with its purpose. */
  function PropertyItems(properties: seq<MetadataProperty>, offset: int, length: int): (r: seq<CompletionItem>)
    ensures |r| == |properties|
  {
    seq(|properties|, k requires 0 <= k < |properties| =>
      CompletionItem(properties[k].Name, offset, length, PurposeName(properties[k].Purpose)))
  }

  /** The property items of each entity in turn. */
  function EntitiesItems(matchProperties: (ApplicationObject, string) -> seq<MetadataProperty>,
                         entities: seq<ApplicationObject>, name: string, offset: int, length: int): (r: seq<CompletionItem>)
    ensures forall k | 0 <= k < |r| :: r[k].Offset == offset && r[k].Length == length
    ensures entities == [] ==> r == []
  {
    if entities == [] then []
    else
      EntitiesItems(matchProperties, entities[..|entities| - 1], name, offset, length)
      + PropertyItems(matchProperties(entities[|entities| - 1], name), offset, length)
  }

  /**
   * GetColumnCompletionItems over the names of the tables its scope sees:
   * nothing without tables or without a resolved entity; otherwise the
   * identifier's last dot-separated segment is matched against each
   * entity's properties. The null identifier and one made only of dots
   * throw, but only once some entity resolved.
   */
  function ColumnItems(matchObject: Option<string> -> Option<ApplicationObject>,
                       matchProperties: (ApplicationObject, string) -> seq<MetadataProperty>,
                       offset: int, length: int, tableNames: seq<Option<string>>, columnIdentifier: Option<string>)
    : (r: Result<seq<CompletionItem>>)
    // An error needs some table to have resolved, and without tables there is nothing to suggest.
    ensures r.Throws? ==> Resolved(matchObject, tableNames) != []
    ensures tableNames == [] ==> r == Ok([])
  {
    var entities := Resolved(matchObject, tableNames);
    if tableNames == [] || entities == [] then Ok([])
    else if columnIdentifier.None? then Throws(NullReference)
    else
      var names := SplitRemoveEmpty(columnIdentifier.value, '.');
      if names == [] then Throws(IndexOutOfRange)
      else Ok(EntitiesItems(matchProperties, entities, names[|names| - 1], offset, length))
  }

  /** The column suggestions at `node`: its table scope provider's tables; no provider throws. */
  ghost function ColumnResult(matchObject: Option<string> -> Option<ApplicationObject>,
                              matchProperties: (ApplicationObject, string) -> seq<MetadataProperty>,
                              offset: int, length: int, node: SyntaxTree.SyntaxNode, nodes: set<SyntaxTree.SyntaxNode>)
    : Result<seq<CompletionItem>>
    requires node in nodes && Linked(nodes)
    reads nodes
  {
    var scope := Nearest([node] + Ancestors(node, nodes), Provider);
    LookupsStayOnChain(node, ScriptNode, nodes);
    if scope == null then Throws(NullReference)
    else
      var tables := FlattenTables(scope, nodes);
      FlattenedAreTables(scope, nodes);
      ColumnItems(matchObject, matchProperties, offset, length, TableNames(tables), node.Name)
  }

  lemma ResolvedStep(matchObject: Option<string> -> Option<ApplicationObject>, names: seq<Option<string>>, i: nat)
    requires i < |names|
    ensures Resolved(matchObject, names[..i + 1])
      == Resolved(matchObject, names[..i]) + (if matchObject(names[i]).Some? then [matchObject(names[i]).value] else [])
  {
    assert names[..i + 1][..i] == names[..i];
  }

  lemma EntitiesItemsStep(matchProperties: (ApplicationObject, string) -> seq<MetadataProperty>,
                          entities: seq<ApplicationObject>, i: nat, name: string, offset: int, length: int)
    requires i < |entities|
    ensures EntitiesItems(matchProperties, entities[..i + 1], name, offset, length)
      == EntitiesItems(matchProperties, entities[..i], name, offset, length) + PropertyItems(matchProperties(entities[i], name), offset, length)
  {
    assert entities[..i + 1][..i] == entities[..i];
  }

  /**
   * GetColumnCompletionItems: the scope's tables resolved to entities in
   * table order, then each entity's matching properties in turn.
   */
  method GetColumnCompletionItems(matchObject: Option<string> -> Option<ApplicationObject>,
                                  matchProperties: (ApplicationObject, string) -> seq<MetadataProperty>,
                                  offset: int, length: int, node: SyntaxTree.SyntaxNode, ghost nodes: set<SyntaxTree.SyntaxNode>)
    returns (r: Result<seq<CompletionItem>>)
    requires node in nodes && Linked(nodes)
    ensures r == ColumnResult(matchObject, matchProperties, offset, length, node, nodes)
  {
    LookupsStayOnChain(node, ScriptNode, nodes);
    var scope := TableScopeProvider(node, nodes);
    if scope == null {
      return Throws(NullReference);
    }
    var tables := GetTables(scope, nodes);
    FlattenedAreTables(scope, nodes);
    r := ColumnsOfTables(matchObject, matchProperties, offset, length, TableNames(tables), node.Name);
  }

  /** The rest of GetColumnCompletionItems, once the scope's tables are known. */
  method ColumnsOfTables(matchObject: Option<string> -> Option<ApplicationObject>,
                         matchProperties: (ApplicationObject, string) -> seq<MetadataProperty>,
                         offset: int, length: int, names: seq<Option<string>>, columnIdentifier: Option<string>)
    returns (r: Result<seq<CompletionItem>>)
    ensures r == ColumnItems(matchObject, matchProperties, offset, length, names, columnIdentifier)
  {
    if |names| == 0 {
      return Ok([]);
    }
    var entities := ResolveTables(matchObject, names);
    if |entities| == 0 {
      return Ok([]);
    }
    if columnIdentifier.None? {
      return Throws(NullReference);
    }
    var parts := SplitRemoveEmpty(columnIdentifier.value, '.');
    if |parts| == 0 {
      return Throws(IndexOutOfRange);
    }
    var propertyName := parts[|parts| - 1];
    var suggestions := CollectProperties(matchProperties, entities, propertyName, offset, length);
    return Ok(suggestions);
  }

  /** The first loop of GetColumnCompletionItems: MatchApplicationObject for each table, nulls dropped. */
  method ResolveTables(matchObject: Option<string> -> Option<ApplicationObject>, names: seq<Option<string>>)
    returns (entities: seq<ApplicationObject>)
    ensures entities == Resolved(matchObject, names)
  {
    entities := [];
    for i := 0 to |names|
      invariant entities == Resolved(matchObject, names[..i])
    {
      ResolvedStep(matchObject, names, i);
      var entity := matchObject(names[i]);
      if entity.Some? {
        entities := entities + [entity.value];
      }
    }
    assert names[..|names|] == names;
  }

  /** The nested loops of GetColumnCompletionItems: each entity's matching properties, in order. */
  method CollectProperties(matchProperties: (ApplicationObject, string) -> seq<MetadataProperty>,
                           entities: seq<ApplicationObject>, propertyName: string, offset: int, length: int)
    returns (suggestions: seq<CompletionItem>)
    ensures suggestions == EntitiesItems(matchProperties, entities, propertyName, offset, length)
  {
    suggestions := [];
    for i := 0 to |entities|
      invariant suggestions == EntitiesItems(matchProperties, entities[..i], propertyName, offset, length)
    {
      var properties := matchProperties(entities[i], propertyName);
      ghost var before := suggestions;
      for j := 0 to |properties|
        invariant suggestions == before + PropertyItems(properties[..j], offset, length)
      {
        assert PropertyItems(properties[..j + 1], offset, length) == PropertyItems(properties[..j], offset, length)
          + [CompletionItem(properties[j].Name, offset, length, PurposeName(properties[j].Purpose))];
        suggestions := suggestions + [CompletionItem(properties[j].Name, offset, length, PurposeName(properties[j].Purpose))];
      }
      assert properties[..|properties|] == properties;
      EntitiesItemsStep(matchProperties, entities, i, propertyName, offset, length);
    }
    assert entities[..|entities|] == entities;
  }

  /** Each resolved entity is what some table name resolves to. */
  lemma {:induction false} ResolvedMembers(matchObject: Option<string> -> Option<ApplicationObject>, names: seq<Option<string>>)
    ensures forall e | e in Resolved(matchObject, names) :: exists k | 0 <= k < |names| :: matchObject(names[k]) == Some(e)
    ensures Resolved(matchObject, names) == [] <==> forall k | 0 <= k < |names| :: matchObject(names[k]).None?
    decreases |names|
  {
    if names != [] {
      var front := names[..|names| - 1];
      ResolvedMembers(matchObject, front);
      forall k | 0 <= k < |front| ensures front[k] == names[k] {
      }
    }
  }

  /**
   * An item of the column suggestions is, exactly, a property that
   * MatchProperties returns for some resolved entity: its bare name tagged
   * with its purpose, at the context's span.
   */
  lemma {:induction false} EntitiesItemsMembers(matchProperties: (ApplicationObject, string) -> seq<MetadataProperty>,
                                                entities: seq<ApplicationObject>, name: string, offset: int, length: int)
    ensures forall item | item in EntitiesItems(matchProperties, entities, name, offset, length) ::
      item.Offset == offset && item.Length == length
      && exists e, p | e in entities && p in matchProperties(e, name) ::
           item == CompletionItem(p.Name, offset, length, PurposeName(p.Purpose))
    ensures forall e, p | e in entities && p in matchProperties(e, name) ::
      CompletionItem(p.Name, offset, length, PurposeName(p.Purpose)) in EntitiesItems(matchProperties, entities, name, offset, length)
    decreases |entities|
  {
    if entities != [] {
      var front, last := entities[..|entities| - 1], entities[|entities| - 1];
      EntitiesItemsMembers(matchProperties, front, name, offset, length);
      var items := PropertyItems(matchProperties(last, name), offset, length);
      forall item | item in items
        ensures exists p | p in matchProperties(last, name) :: item == CompletionItem(p.Name, offset, length, PurposeName(p.Purpose))
      {
        var k :| 0 <= k < |items| && items[k] == item;
        assert matchProperties(last, name)[k] in matchProperties(last, name);
      }
      forall e, p | e in entities && p in matchProperties(e, name)
        ensures CompletionItem(p.Name, offset, length, PurposeName(p.Purpose)) in EntitiesItems(matchProperties, entities, name, offset, length)
      {
        if e != last {
          assert e in front;
        } else {
          var k :| 0 <= k < |matchProperties(last, name)| && matchProperties(last, name)[k] == p;
          assert items[k] == CompletionItem(p.Name, offset, length, PurposeName(p.Purpose));
        }
      }
    }
  }

  /**
   * The column suggestions: nothing (and no exception) when no table
   * resolves; otherwise the null identifier throws, an identifier made only
   * of dots throws, and any other identifier is matched by its last segment,
   * which holds no dot, against the properties of the resolved entities.
   */
  lemma ColumnItemsFacts(matchObject: Option<string> -> Option<ApplicationObject>,
                         matchProperties: (ApplicationObject, string) -> seq<MetadataProperty>,
                         offset: int, length: int, tableNames: seq<Option<string>>, columnIdentifier: Option<string>)
    ensures var r := ColumnItems(matchObject, matchProperties, offset, length, tableNames, columnIdentifier);
      ((forall k | 0 <= k < |tableNames| :: matchObject(tableNames[k]).None?) ==> r == Ok([]))
      && ((exists k | 0 <= k < |tableNames| :: matchObject(tableNames[k]).Some?) ==>
            (columnIdentifier.None? ==> r == Throws(NullReference))
            && (columnIdentifier.Some? && SplitRemoveEmpty(columnIdentifier.value, '.') == [] ==> r == Throws(IndexOutOfRange))
            && (columnIdentifier.Some? && '.' !in columnIdentifier.value && columnIdentifier.value != "" ==>
                  r == Ok(EntitiesItems(matchProperties, Resolved(matchObject, tableNames), columnIdentifier.value, offset, length))))
  {
    ResolvedMembers(matchObject, tableNames);
    if columnIdentifier.Some? && '.' !in columnIdentifier.value {
      SplitRemoveEmptyNoSeparator(columnIdentifier.value, '.');
    }
  }

  // ------------------------------------------------ Token-stream context

  /** IsFirstTokenToLeft: the cursor is inside the token or just after its last character. */
  predicate IsFirstTokenToLeft(cursorOffset: int, tokenOffset: int, tokenLength: int)
  {
    cursorOffset > tokenOffset && tokenOffset + tokenLength >= cursorOffset
  }

  predicate Under(tokens: seq<ParserToken>, offset: int, k: nat)
    requires k < |tokens|
  {
    IsFirstTokenToLeft(offset, tokens[k].Offset, |tokens[k].Text|)
  }

  /** The first token at or after index `i` that the cursor is on. */
  function CurrentTokenFrom(tokens: seq<ParserToken>, offset: int, i: nat): (r: Option<nat>)
    requires i <= |tokens|
    ensures r.Some? ==>
      (i <= r.value < |tokens| && Under(tokens, offset, r.value) && forall j | i <= j < r.value :: !Under(tokens, offset, j))
    ensures r.None? ==> forall j | i <= j < |tokens| :: !Under(tokens, offset, j)
    decreases |tokens| - i
  {
    if i == |tokens| then None
    else if Under(tokens, offset, i) then Some(i)
    else CurrentTokenFrom(tokens, offset, i + 1)
  }

  /** The index of the current token: the first in stream order that the cursor is on. */
  function CurrentToken(tokens: seq<ParserToken>, offset: int): (r: Option<nat>)
    ensures r.Some? ==>
      (r.value < |tokens| && Under(tokens, offset, r.value) && forall j | 0 <= j < r.value :: !Under(tokens, offset, j))
    ensures r.None? ==> forall j | 0 <= j < |tokens| :: !Under(tokens, offset, j)
  {
    CurrentTokenFrom(tokens, offset, 0)
  }

  /** GetCurrentToken: consumes tokens until one is under the cursor. */
  method GetCurrentToken(tokens: seq<ParserToken>, offset: int) returns (r: Option<nat>)
    ensures r == CurrentToken(tokens, offset)
  {
    var current := 0;
    while current < |tokens|
      invariant 0 <= current <= |tokens|
      invariant CurrentTokenFrom(tokens, offset, current) == CurrentToken(tokens, offset)
    {
      var token := tokens[current];
      current := current + 1;
      if IsFirstTokenToLeft(offset, token.Offset, |token.Text|) {
        return Some(current - 1);
      }
    }
    return None;
  }

  /** TakeLeftOne: the token before the given one, none before the first. */
  function TakeLeftOne(index: nat): Option<nat>
  {
    if index == 0 then None else Some(index - 1)
  }

  /** The nearest keyword among the tokens before index `i`. */
  function KeywordBelow(tokens: seq<ParserToken>, i: nat): (r: Option<nat>)
    requires i <= |tokens|
    ensures r.Some? ==> r.value < i && tokens[r.value].IsKeyword && forall j | r.value < j < i :: !tokens[j].IsKeyword
    ensures r.None? ==> forall j | 0 <= j < i :: !tokens[j].IsKeyword
  {
    if i == 0 then None
    else if tokens[i - 1].IsKeyword then Some(i - 1)
    else KeywordBelow(tokens, i - 1)
  }

  /** TakeFirstKeywordToLeft: walks left from the current token to the nearest keyword. */
  method TakeFirstKeywordToLeft(tokens: seq<ParserToken>, current: nat) returns (r: Option<nat>)
    requires current < |tokens|
    ensures r == KeywordBelow(tokens, current)
  {
    if current == 0 {
      return None;
    }
    var token := TakeLeftOne(current);
    while token.Some?
      invariant token.Some? ==> token.value < current
      invariant KeywordBelow(tokens, if token.Some? then token.value + 1 else 0) == KeywordBelow(tokens, current)
      decreases if token.Some? then token.value + 1 else 0
    {
      if tokens[token.value].IsKeyword {
        return token;
      }
      token := TakeLeftOne(token.value);
    }
    return None;
  }

  /** The tokens a multi-part name is made of. */
  predicate IsNamePart(t: ParserToken)
  {
    t.TokenType == Dot || t.TokenType == IdentifierToken || t.TokenType == QuotedIdentifier
  }

  /** Where the run of name parts that ends just before index `i` starts. */
  function NameStart(tokens: seq<ParserToken>, i: nat): (s: nat)
    requires i <= |tokens|
    ensures s <= i && (forall j | s <= j < i :: IsNamePart(tokens[j])) && (s == 0 || !IsNamePart(tokens[s - 1]))
  {
    if i == 0 || !IsNamePart(tokens[i - 1]) then i else NameStart(tokens, i - 1)
  }

  /** The current token's text prefixed by the name parts right before it. */
  function FullIdentifier(tokens: seq<ParserToken>, current: nat): string
    requires current < |tokens|
  {
    Texts(tokens[NameStart(tokens, current)..current + 1])
  }

  /** TryGetFullIdentifier: prepends the texts of the name parts to the left. */
  method TryGetFullIdentifier(tokens: seq<ParserToken>, current: nat) returns (identifier: string)
    requires current < |tokens|
    ensures identifier == FullIdentifier(tokens, current)
  {
    identifier := tokens[current].Text;
    ghost var i: nat := current;
    TextsPrepend(tokens, current + 1, current);
    var token := TakeLeftOne(current);
    while token.Some? && IsNamePart(tokens[token.value])
      invariant i <= current && token == TakeLeftOne(i)
      invariant NameStart(tokens, i) == NameStart(tokens, current)
      invariant identifier == Texts(tokens[i..current + 1])
      decreases i
    {
      TextsPrepend(tokens, i, current);
      identifier := tokens[token.value].Text + identifier;
      i := i - 1;
      token := TakeLeftOne(token.value);
    }
  }

  /** One more token on the left of a run puts its text in front. */
  lemma TextsPrepend(tokens: seq<ParserToken>, i: nat, current: nat)
    requires 0 < i <= current + 1 <= |tokens|
    ensures Texts(tokens[i - 1..current + 1]) == tokens[i - 1].Text + Texts(tokens[i..current + 1])
  {
    assert tokens[i - 1..current + 1][1..] == tokens[i..current + 1];
  }

  /** The context the token stream gives: the cursor, the span to replace and the identifier typed so far. */
  datatype TokenContext = TokenContext(CursorOffset: int, FragmentOffset: int, FragmentLength: int, Identifier: string)

  /** The context GetCompletionContextFromTokenStream finds from the current token's index. */
  function ContextAt(tokens: seq<ParserToken>, offset: int, c: nat): Option<TokenContext>
    requires c < |tokens|
  {
    var token := tokens[c];
    if !(token.TokenType == Dot || token.TokenType == IdentifierToken || token.TokenType == WhiteSpace) then None
    else match KeywordBelow(tokens, c)
      case None => None
      case Some(k) =>
        if tokens[k].TokenType == From || tokens[k].TokenType == Join then
          var identifier := FullIdentifier(tokens, c);
          if IsBlank(identifier) then Some(TokenContext(offset, token.Offset + 1, 0, identifier))
          else Some(TokenContext(offset, token.Offset, |token.Text|, identifier))
        else None
  }

  /** GetCompletionContextFromTokenStream for a script's token stream, which may be null. */
  function TokenStreamContext(tokens: Option<seq<ParserToken>>, offset: int): Option<TokenContext>
  {
    if tokens.None? || tokens.value == [] then None
    else match CurrentToken(tokens.value, offset)
      case None => None
      case Some(c) => ContextAt(tokens.value, offset, c)
  }

  /** GetCompletionContextFromTokenStream. */
  method GetCompletionContextFromTokenStream(tokens: Option<seq<ParserToken>>, offset: int) returns (r: Option<TokenContext>)
    ensures r == TokenStreamContext(tokens, offset)
  {
    if tokens.None? || |tokens.value| == 0 {
      return None;
    }
    var stream := tokens.value;
    var current := GetCurrentToken(stream, offset);
    if current.None? {
      return None;
    }
    var c := current.value;
    var token := stream[c];
    if !(token.TokenType == Dot || token.TokenType == IdentifierToken || token.TokenType == WhiteSpace) {
      return None;
    }
    var keyword := TakeFirstKeywordToLeft(stream, c);
    if keyword.None? {
      return None;
    }
    if stream[keyword.value].TokenType == From || stream[keyword.value].TokenType == Join {
      var identifier := TryGetFullIdentifier(stream, c);
      var tokenOffset, tokenLength := token.Offset, |token.Text|;
      if IsBlank(identifier) {
        tokenOffset := tokenOffset + 1;
        tokenLength := 0;
      }
      return Some(TokenContext(offset, tokenOffset, tokenLength, identifier));
    }
    return None;
  }

  /** The identifier ends with the current token's text. */
  lemma FullIdentifierEndsWithToken(tokens: seq<ParserToken>, current: nat)
    requires current < |tokens|
    ensures var id, t := FullIdentifier(tokens, current), tokens[current].Text;
      |t| <= |id| && id[|id| - |t|..] == t
  {
    var s := NameStart(tokens, current);
    var run := tokens[s..current + 1];
    assert run == tokens[s..current] + [tokens[current]];
    TextsAppend(tokens[s..current], [tokens[current]]);
    assert Texts([tokens[current]]) == tokens[current].Text + Texts([]);
  }

  /**
   * A token-stream context exists exactly when the cursor is on a Dot,
   * Identifier or WhiteSpace token whose nearest keyword to the left is
   * FROM or JOIN. Its identifier ends with that token's text; its span is
   * the token's own span, except that a blank identifier gives a zero-length
   * span right after the token's first character, which is at or before the
   * cursor.
   */
  lemma TokenContextFacts(tokens: seq<ParserToken>, offset: int)
    requires tokens != []
    ensures var r := TokenStreamContext(Some(tokens), offset);
      r.Some? <==>
        (CurrentToken(tokens, offset).Some?
         && var c := CurrentToken(tokens, offset).value;
         var kind := tokens[c].TokenType;
         (kind == Dot || kind == IdentifierToken || kind == WhiteSpace)
         && KeywordBelow(tokens, c).Some?
         && (tokens[KeywordBelow(tokens, c).value].TokenType == From || tokens[KeywordBelow(tokens, c).value].TokenType == Join))
    ensures var r := TokenStreamContext(Some(tokens), offset);
      r.Some? ==>
        var t := tokens[CurrentToken(tokens, offset).value];
        var id := r.value.Identifier;
        r.value.CursorOffset == offset
        && t.Offset < offset <= t.Offset + |t.Text| && t.Text != ""
        && |t.Text| <= |id| && id[|id| - |t.Text|..] == t.Text
        && (IsBlank(id) ==> r.value.FragmentOffset == t.Offset + 1 <= offset && r.value.FragmentLength == 0)
        && (!IsBlank(id) ==>
              (r.value.FragmentOffset == t.Offset && r.value.FragmentLength == |t.Text|
               && r.value.FragmentOffset < offset <= r.value.FragmentOffset + r.value.FragmentLength))
  {
    var current := CurrentToken(tokens, offset);
    if current.Some? {
      FullIdentifierEndsWithToken(tokens, current.value);
    }
  }

  // ------------------------------------------------------------ Dispatch

  /** The script or its token stream is missing or empty. */
  predicate NoStream(fragment: Option<ParseTree.Fragment>, tokens: Option<seq<ParserToken>>)
  {
    fragment.None? || tokens.None? || tokens.value == []
  }

  /**
   * What GetCompletionContext promises about the builder's context: the walk
   * of the whole script from the root, each child under the node its class
   * calls for, and the cursor state that walk leaves.
   */
  ghost predicate ContextOf(c: CompletionContext, script: ParseTree.Fragment, offset: int,
                            nodes: set<SyntaxTree.SyntaxNode>, walk: SyntaxTreeBuilding.Walk)
  {
    c.Root.Kind == ScriptNode && c.Root in nodes && c.CursorOffset == offset
    && (c.SyntaxNode != null ==> c.SyntaxNode in nodes)
    && walk.Fragment == script && walk.Node == c.Root && SyntaxTreeBuilding.Walked(walk)
    && SyntaxTreeBuilding.Visited(SyntaxTreeBuilding.Flat(walk)) == PreOrder(script)
    && SyntaxTreeBuilding.Cursor(c.FragmentOffset, c.FragmentLength, c.Fragment, c.SyntaxNode)
       == SyntaxTreeBuilding.Track(offset, SyntaxTreeBuilding.Cursor(0, 0, None, null), SyntaxTreeBuilding.Flat(walk))
  }

  /**
   * GetCompletionContext's outcome: no context without a script and a
   * non-empty token stream, an invalid cast for a fragment that is not a
   * script, and otherwise the builder's exception or its cursor state after
   * walking the whole script.
   */
  ghost predicate StructuralContext(r: Result<Option<CompletionContext>>, fragment: Option<ParseTree.Fragment>,
                                    tokens: Option<seq<ParserToken>>, offset: int,
                                    nodes: set<SyntaxTree.SyntaxNode>, walk: Option<SyntaxTreeBuilding.Walk>)
  {
    (NoStream(fragment, tokens) ==> r == Ok(None))
    && (!NoStream(fragment, tokens) && fragment.value.Kind != Script ==> r == Throws(InvalidCast))
    && (!NoStream(fragment, tokens) && fragment.value.Kind == Script ==>
          r != Ok(None) && (r.Ok? ==> walk.Some? && ContextOf(r.value.value, fragment.value, offset, nodes, walk.value)))
  }

  /** GetCompletionContext: builds the overlay for the script and reports the builder's cursor state. */
  method GetCompletionContext(fragment: Option<ParseTree.Fragment>, tokens: Option<seq<ParserToken>>, offset: int)
    returns (r: Result<Option<CompletionContext>>, ghost nodes: set<SyntaxTree.SyntaxNode>, ghost walk: Option<SyntaxTreeBuilding.Walk>)
    ensures Linked(nodes)
    ensures StructuralContext(r, fragment, tokens, offset, nodes, walk)
  {
    nodes, walk := {}, None;
    if fragment.None? || tokens.None? || |tokens.value| == 0 {
      return Ok(None), nodes, walk;
    }
    if fragment.value.Kind != Script {
      return Throws(InvalidCast), nodes, walk;
    }
    var builder := new SyntaxTreeBuilding.SyntaxTreeBuilder(offset);
    var root, failure;
    ghost var visits, built;
    root, failure, visits, built := builder.Build(fragment.value);
    walk := Some(built);
    nodes := builder.Nodes;
    if failure.Some? {
      return Throws(failure.value), nodes, walk;
    }
    var c := CompletionContext(root, builder.CursorOffset, builder.FragmentOffset, builder.FragmentLength, builder.Fragment, builder.SyntaxNode);
    return Ok(Some(c)), nodes, walk;
  }

  /** `script.Batches != null && script.Batches.Count == 0`. */
  predicate HasNoBatches(f: ParseTree.Fragment)
  {
    f.Kind == Script &&
    var k := SlotIndex(f.Slots, "Batches");
    k < |f.Slots| && f.Slots[k] == Items("Batches", [])
  }

  /** The token fallback: table suggestions for the identifier after FROM or JOIN in a script without batches. */
  function Fallback(service: ScriptingService.Service, fragment: Option<ParseTree.Fragment>,
                    tokens: Option<seq<ParserToken>>, offset: int): Result<seq<CompletionItem>>
  {
    if fragment.Some? && HasNoBatches(fragment.value) then
      match TokenStreamContext(tokens, offset)
      case Some(tc) => Ok(TableItems(service, tc.FragmentOffset, tc.FragmentLength, tc.Identifier))
      case None => Ok([])
    else Ok([])
  }

  ghost predicate NodeTracked(context: Result<Option<CompletionContext>>, nodes: set<SyntaxTree.SyntaxNode>)
  {
    context.Ok? && context.value.Some? && context.value.value.SyntaxNode != null ==> context.value.value.SyntaxNode in nodes
  }

  /** GetCompletionItems' choice: table node, column node, else the token fallback. */
  ghost function Dispatched(service: ScriptingService.Service,
                            matchObject: Option<string> -> Option<ApplicationObject>,
                            matchProperties: (ApplicationObject, string) -> seq<MetadataProperty>,
                            fragment: Option<ParseTree.Fragment>, tokens: Option<seq<ParserToken>>, offset: int,
                            context: Result<Option<CompletionContext>>, nodes: set<SyntaxTree.SyntaxNode>): Result<seq<CompletionItem>>
    requires Linked(nodes) && NodeTracked(context, nodes)
    reads nodes
  {
    if context.Throws? then Throws(context.error)
    else if context.value.Some? && context.value.value.SyntaxNode != null && context.value.value.SyntaxNode.Kind == TableNode then
      var c := context.value.value;
      TableResult(service, c.FragmentOffset, c.FragmentLength, c.SyntaxNode.Name)
    else if context.value.Some? && context.value.value.SyntaxNode != null && context.value.value.SyntaxNode.Kind == ColumnNode then
      var c := context.value.value;
      ColumnResult(matchObject, matchProperties, c.FragmentOffset, c.FragmentLength, c.SyntaxNode, nodes)
    else Fallback(service, fragment, tokens, offset)
  }

  /**
   * GetCompletionItems: the suggestions for the node under the cursor, or
   * for the token stream of a script without batches; none otherwise.
   */
  method GetCompletionItems(service: ScriptingService.Service,
                            matchObject: Option<string> -> Option<ApplicationObject>,
                            matchProperties: (ApplicationObject, string) -> seq<MetadataProperty>,
                            fragment: Option<ParseTree.Fragment>, tokens: Option<seq<ParserToken>>, offset: int)
    returns (r: Result<seq<CompletionItem>>, ghost context: Result<Option<CompletionContext>>,
             ghost nodes: set<SyntaxTree.SyntaxNode>, ghost walk: Option<SyntaxTreeBuilding.Walk>)
    ensures Linked(nodes) && NodeTracked(context, nodes)
    ensures StructuralContext(context, fragment, tokens, offset, nodes, walk)
    ensures r == Dispatched(service, matchObject, matchProperties, fragment, tokens, offset, context, nodes)
    ensures NoStream(fragment, tokens) ==> r == Ok([])
  {
    var found;
    found, nodes, walk := GetCompletionContext(fragment, tokens, offset);
    context := found;
    if found.Throws? {
      return Throws(found.error), context, nodes, walk;
    }
    if found.value.Some? && found.value.value.SyntaxNode != null {
      var c := found.value.value;
      var node := c.SyntaxNode;
      if node.Kind == TableNode {
        r := GetTableCompletionItems(service, c.FragmentOffset, c.FragmentLength, node.Name);
        return r, context, nodes, walk;
      } else if node.Kind == ColumnNode {
        r := GetColumnCompletionItems(matchObject, matchProperties, c.FragmentOffset, c.FragmentLength, node, nodes);
        return r, context, nodes, walk;
      }
    }
    r := Ok([]);
    if fragment.Some? && HasNoBatches(fragment.value) {
      var tc := GetCompletionContextFromTokenStream(tokens, offset);
      if tc.Some? {
        var items := GetTableCompletionItems(service, tc.value.FragmentOffset, tc.value.FragmentLength, Some(tc.value.Identifier));
        r := items;
      }
    }
  }
}
