# DaJet data scripting: a verified model of the query-rewriting and completion engine

DaJet data scripting lets a user write T-SQL against a 1C:Enterprise database. The script names
tables and columns by their business names (`Документ.ПоступлениеТоваровУслуг`, `Т.Ссылка.type`).
Before the script runs, a set of parse-tree visitors rewrites those names into the physical
tables and columns of the database. They use a metadata catalog (an *infobase*) to do so.
The same engine offers editor completion and lexing:

- it builds a small scope tree (script, select, query, join, table, column, where) over the parse tree;
- it finds the fragment under the cursor;
- when the parser produced no statement, it falls back to the token stream;
- it suggests tables and columns.

The editor also has a hand-written lexer and a word-edge finder.

This project models that core in Dafny and proves what each piece promises. The modules are:

| module | file | models |
|---|---|---|
| `Wrappers`, `Text` | text.dfy | option/result types; split, join, trim, hex formatting and the case-insensitive "contains" the source borrows from .NET |
| `Metadata` | metadata.dfy | the catalog: entities, properties, database fields, infobases and their uuid-keyed collections |
| `ParseTree` | parse_tree.dfy | the parse tree as a generic fragment with named child slots; slot replacement; pre-order; token text |
| `ScriptingService` | scripting_service.dfy | kind markers, four-slot name resolution (rewriting the caller's array in place), table-name mapping, type-code patching, completion matching |
| `TableReferenceVisitor` | table_reference_visitor.dfy | rewriting `[server].[db].[schema].[table]` into a `[Kind+Owner+Part]` compound and registering the table in the statement scope |
| `ColumnReferenceVisitor` | column_reference_visitor.dfy | resolving `alias.Property[.uuid\|.type\|.TYPE]` to physical columns, hex literals and type-code sums |
| `FunctionCallVisitor` | function_call_visitor.dfy | folding `TYPEOF(x)` to the entity's type code |
| `ScopeVisitors` | scope_visitors.dfy | the QuerySpecification, SelectElement, QualifiedJoin, WhereClause, Update, Delete and Insert step rules |
| `SyntaxTree` | syntax_tree.dfy | the scope-tree node class, the parent-chain searches and the recursive table flattening |
| `SyntaxTreeBuilding` | syntax_tree_builder.dfy | the recursive builder walk, node creation and cursor tracking |
| `Completion` | completion.dfy | completion dispatch, table and column suggestions, the token-stream fallback |
| `CallCode` | call_code.dfy | the EXEC / SELECT call-code generators for stored procedures and functions |
| `Lexer` | tokenizer.dfy | the editor tokenizer (a class over its static fields) and the word-edge finder |

Modelling choices:

**State.** Objects the source mutates are Dafny classes with `modifies` frames:

- the scope-tree nodes;
- the tree builder;
- the tokenizer;
- the call-code visitors;
- a property's type descriptor, whose type code is patched in place.

Catalog entries and parse fragments are values. A visitor that assigns into its parent's slot returns the updated parent.

**Loops.** Source loops are `while` loops. Each is proved against a recursive specification function, and the lemmas are stated about that function.

**Walk.** The builder also returns a ghost `Walk` tree that mirrors its recursion: each fragment visited, the node current at that visit, and the walks of its children. `Flat` lists the visits in order; cursor tracking and pre-order are stated over that list. `Walked` says that each child was visited under its parent, or under a node whose relation to the parent its class fixes (`Beneath`).

**Reference equality.** Where the source uses reference equality (`IList.IndexOf`, `Dictionary` keyed by reference), the model uses value equality and explicit positions.

## Model

| member | source | states |
|---|---|---|
| Text.TrimBrackets | src/dajet-data-scripting/SyntaxTreeBuilder.cs:123-126 | stripping one leading '[' run and one trailing ']' run from "[v]" gives back v whenever v itself neither starts with '[' nor ends with ']' |
| Text.PaddedHex | src/dajet-data-scripting/visitors/Columns/FunctionCallVisitor.cs:52 | the upper-case hex text of a code, left-padded with '0' to width 8, has exactly 8 hex digits whose value is the code |
| Text.HexLiteralShape | src/dajet-data-scripting/visitors/Columns/ColumnReferenceExpressionVisitor.cs:233-248 | the type literal is "0x" followed by 8 upper-case hex digits and denotes the code read as an unsigned 32-bit value |
| Metadata.FirstField | src/dajet-data-scripting/visitors/Columns/ColumnReferenceExpressionVisitor.cs:279-280 | the field found is the first in the list with the wanted purpose (every earlier field has another purpose); there is none iff no field has that purpose |
| Metadata.FirstNamed | src/dajet-data-scripting/ScriptingService.cs:277-283 | the entity found is the first in the list with exactly that name (every earlier entity has another name); there is none iff no entity carries it |
| Metadata.FirstProperty | src/dajet-data-scripting/visitors/Columns/ColumnReferenceExpressionVisitor.cs:123 | the property found is the first of the entity's properties with that name (every earlier property has another name); there is none iff no property carries it |
| ParseTree.ToSourceSqlString | src/dajet-data-scripting/TSqlFragmentExtensions.cs:16-26 | the source text of a fragment is the in-order concatenation of the texts of its tokens from FirstTokenIndex to LastTokenIndex inclusive ("" when the range is empty); an index past the stream is an IndexOutOfRange error |
| ParseTree.TextsLength | src/dajet-data-scripting/TSqlFragmentExtensions.cs:20-23 | the length of the concatenated text is the sum of the token lengths |
| ParseTree.TextsAppend | src/dajet-data-scripting/TSqlFragmentExtensions.cs:20-23 | the text of two adjacent token runs is the text of the first followed by the text of the second |
| ParseTree.SetSlotPlaces | src/dajet-data-scripting/visitors/Columns/FunctionCallVisitor.cs:55-66 | replacing a child in its parent slot succeeds iff the slot exists and is a single field or a list holding the child; on success the slot holds the new expression and every other slot is unchanged |
| ParseTree.ReplaceInPlace | src/dajet-data-scripting/visitors/Columns/FunctionCallVisitor.cs:57-66 | a list slot gets the new expression at the index of the old child and keeps every other element; a field slot gets the new expression |
| ParseTree.ReplaceSelf | src/dajet-data-scripting/visitors/Columns/FunctionCallVisitor.cs:57-66 | replacing a child by itself leaves the parent unchanged |
| ParseTree.PreOrder | src/dajet-data-scripting/SyntaxTreeBuilder.cs:36-76 | the walk order lists a fragment first and then, slot by slot and element by element, the walk orders of its children |
| ScriptingService.IsSpecialSchema | src/dajet-data-scripting/ScriptingService.cs:140-151 | exactly the nine kind markers are special schemas, and null is not |
| ScriptingService.MapSchemaIdentifier | src/dajet-data-scripting/ScriptingService.cs:152-167 | each of the nine kind markers maps to "" and every other schema name (missing ones included) is returned unchanged |
| ScriptingService.MarkersAgree | src/dajet-data-scripting/ScriptingService.cs:140-189 | IsSpecialSchema, GetCollection and MapSchemaIdentifier accept exactly the same nine markers |
| ScriptingService.GetCollection | src/dajet-data-scripting/ScriptingService.cs:177-189 | exactly the nine kind markers name a collection, and it is one of the infobase's nine collections |
| ScriptingService.SpecialSchemaCollection | src/dajet-data-scripting/ScriptingService.cs:177-189 | every kind marker has a collection |
| ScriptingService.CompoundPartsAtLeastTwo | src/dajet-data-scripting/ScriptingService.cs:259-272 | an identifier holding a '+' splits into at least two segments |
| ScriptingService.SelectInfoBase | src/dajet-data-scripting/ScriptingService.cs:261-269 | only a non-empty database name that is not registered selects nothing; otherwise the main infobase or a registered one is selected |
| ScriptingService.GetApplicationObjectByName | src/dajet-data-scripting/ScriptingService.cs:257-287 | a resolved entity comes from an identifier with a '+', from a selectable infobase whose collection the first segment names; it is a member of that collection carrying the second segment as its name, or, when a table part is asked for, a table part (named by the third segment) of a member of that collection |
| ScriptingService.UnresolvableNames | src/dajet-data-scripting/ScriptingService.cs:259-269 | an identifier without '+' never resolves, and neither does one aimed at a non-empty database name that is not a key of Databases |
| ScriptingService.CompoundRoundTrip | src/dajet-data-scripting/ScriptingService.cs:271-272 | bracketing and '+'-joining plain segments and then parsing the result gives back the segments |
| ScriptingService.ResolvesCompound | src/dajet-data-scripting/ScriptingService.cs:271-286 | a bracketed Kind+Owner[+Part] compound resolves to the first entity of that kind named Owner, or to that entity's first table part named Part; it resolves to nothing when no such entity or part exists |
| ScriptingService.MapTableIdentifier | src/dajet-data-scripting/ScriptingService.cs:168-176 | the identifier becomes the resolved entity's physical table name, and stays unchanged when resolution fails |
| ScriptingService.MapTableIdentifierIdempotent | src/dajet-data-scripting/ScriptingService.cs:168-176 | mapping a mapped identifier again changes nothing |
| ScriptingService.PlanSlots | src/dajet-data-scripting/ScriptingService.cs:192-253 | the slot rewrite is a lookup with four slots whose last slot, when rewritten, is a '+' compound; there is no lookup exactly when the server, database and schema slots are all missing |
| ScriptingService.GetApplicationObject | src/dajet-data-scripting/ScriptingService.cs:190-256 | a list that does not have four slots gives null and is left alone; otherwise the caller's array is rewritten in place to the planned slots and the result is the lookup of the compound in the planned database, or a NullReference error when the table slot is missing |
| ScriptingService.PlanKindName | src/dajet-data-scripting/ScriptingService.cs:242-249 | Kind.Name with Kind a marker becomes [null, null, null, "Kind+Name"], looked up with no database name |
| ScriptingService.PlanMainDatabase | src/dajet-data-scripting/ScriptingService.cs:242-253 | with no server and no database slot every lookup searches the main infobase |
| ScriptingService.PlanServerDatabaseKindName | src/dajet-data-scripting/ScriptingService.cs:218-223 | [server].[db].Kind.Name sets the schema slot to "", the table slot to "Kind+Name" and takes the database name from the database slot |
| ScriptingService.PlanKindOwnerPart | src/dajet-data-scripting/ScriptingService.cs:228-234 | Kind.Owner.Part becomes the compound "Kind+Owner+Part" and reads the database name from the slot holding the kind marker; this reading is kept deliberately as the code writes it (see Left out) |
| ScriptingService.KindOwnerPartUnresolved | src/dajet-data-scripting/ScriptingService.cs:228-234 | a consequence of the reading kept as written: Kind.Owner.Part never resolves unless a database happens to be registered under the marker's own name |
| ScriptingService.FixPropertyTypeCode | src/dajet-data-scripting/ScriptingService.cs:289-326 | the property's type code, patched in place, is the code chosen from the three sources in their fixed order |
| ScriptingService.PatchSources | src/dajet-data-scripting/ScriptingService.cs:289-326 | a non-zero code is kept; a system "Ссылка" property with an empty uuid gets the owner's TypeCode; any patched code is the old one, the owner's, or the TypeCode of a reference type, catalog or characteristic registered under the property's uuid |
| ScriptingService.PatchIdempotent | src/dajet-data-scripting/ScriptingService.cs:291-294 | patching an already patched property changes nothing |
| ScriptingService.MatchingMembers | src/dajet-data-scripting/ScriptingService.cs:402-430 | an entity is matched iff it belongs to the collection and its name contains the pattern ignoring case; no more than the collection is returned |
| ScriptingService.MatchingEmptyPattern | src/dajet-data-scripting/ScriptingService.cs:402-430 | the empty pattern matches the whole collection in order |
| ScriptingService.MatchByPattern | src/dajet-data-scripting/ScriptingService.cs:402-430 | the loop returns exactly the matching entities in collection order |
| ScriptingService.GetTableParts | src/dajet-data-scripting/ScriptingService.cs:431-441 | the loop returns the entity's table parts in order |
| ScriptingService.MatchApplicationObjects | src/dajet-data-scripting/ScriptingService.cs:372-401 | fewer than two non-empty dot segments or an unknown kind give an empty list; two segments give the entities of that kind whose name contains the second; more give all table parts of the exactly named entity |
| TableReferenceVisitor.NameOf | src/dajet-data-scripting/visitors/QuerySpecification/NamedTableReferenceVisitor.cs:24-29 | the parts of a schema object name are right-aligned into server, database, schema and base identifier |
| TableReferenceVisitor.RewriteIdentifiers | src/dajet-data-scripting/visitors/QuerySpecification/NamedTableReferenceVisitor.cs:31-78 | the branch-by-branch reassignment of the four name parts yields the compound rewrite, or none when server, database and schema are all missing |
| TableReferenceVisitor.RewriteShape | src/dajet-data-scripting/visitors/QuerySpecification/NamedTableReferenceVisitor.cs:31-74 | a rewritten name stays right-aligned, its base is the bracketed '+'-compound of two or three segments, and its server is either dropped or kept |
| TableReferenceVisitor.BracketTwo | src/dajet-data-scripting/visitors/QuerySpecification/NamedTableReferenceVisitor.cs:70-74 | schema.table becomes "[schema+table]" |
| TableReferenceVisitor.BracketThree | src/dajet-data-scripting/visitors/QuerySpecification/NamedTableReferenceVisitor.cs:57-68 | Kind.Owner.Part becomes "[Kind+Owner+Part]" |
| TableReferenceVisitor.KindOwnerPartSearchesMain | src/dajet-data-scripting/visitors/QuerySpecification/NamedTableReferenceVisitor.cs:57-68 | Kind.Owner.Part drops both the schema and the database, so it is looked up in the main infobase |
| TableReferenceVisitor.RewriteResolves | src/dajet-data-scripting/visitors/QuerySpecification/NamedTableReferenceVisitor.cs:80-104 | the compound written into the rebuilt name resolves to the first entity of the marker's kind with the owner's name, or to its table part |
| TableReferenceVisitor.RebuiltValues | src/dajet-data-scripting/visitors/QuerySpecification/NamedTableReferenceVisitor.cs:86-104 | the rebuilt name has one to four parts and its last part is MapTableIdentifier of the compound under the trimmed database name |
| TableReferenceVisitor.RebuiltReadsBack | src/dajet-data-scripting/visitors/QuerySpecification/NamedTableReferenceVisitor.cs:86-104 | reading the rebuilt SchemaObjectName gives back the rewritten name with only its base replaced by the mapped identifier |
| TableReferenceVisitor.NamePartsReadBack | src/dajet-data-scripting/visitors/QuerySpecification/NamedTableReferenceVisitor.cs:86-104 | a name built from the present parts in server, database, schema, table order reads back as those parts |
| TableReferenceVisitor.SchemaObjectNameReadsBack | src/dajet-data-scripting/visitors/QuerySpecification/NamedTableReferenceVisitor.cs:86-104 | the identifiers of a freshly built SchemaObjectName read back as the given values |
| TableReferenceVisitor.RegisterTable | src/dajet-data-scripting/visitors/QuerySpecification/NamedTableReferenceVisitor.cs:116-127 | the new TableNode is added under the alias when it is non-empty, otherwise under the compound with no alias; a repeated key is a DuplicateKey error that leaves the table map unchanged |
| TableReferenceVisitor.Visit | src/dajet-data-scripting/visitors/QuerySpecification/NamedTableReferenceVisitor.cs:16-129 | the node is left alone when the result is not a StatementNode, when the base identifier is empty or the name needs no rewrite; a missing SchemaObject is a NullReference error; otherwise the schema object is replaced by the rebuilt name and a TableNode carrying the resolved entity (possibly none) is registered |
| ColumnReferenceVisitor.IsSpecialField | src/dajet-data-scripting/visitors/Columns/ColumnReferenceExpressionVisitor.cs:83-86 | exactly the three spellings uuid, type and TYPE are pseudo-fields, compared case-sensitively |
| ColumnReferenceVisitor.ColumnParts | src/dajet-data-scripting/visitors/Columns/ColumnReferenceExpressionVisitor.cs:39-59 | no identifiers is an IndexOutOfRange error; one part is an unaliased property; two parts whose second is exactly uuid, type or TYPE are an unaliased property with a pseudo-field; other two-part names are alias.property; three or more are alias.property.pseudo-field |
| ColumnReferenceVisitor.ReadIdentifiers | src/dajet-data-scripting/visitors/Columns/ColumnReferenceExpressionVisitor.cs:33-37 | the loop reads the identifier values in order |
| ColumnReferenceVisitor.TableProperty | src/dajet-data-scripting/visitors/Columns/ColumnReferenceExpressionVisitor.cs:87-108 | a property is found only on a TableNode with a resolved entity, and it is one of that entity's properties with the asked name |
| ColumnReferenceVisitor.PropertyWithTableAlias | src/dajet-data-scripting/visitors/Columns/ColumnReferenceExpressionVisitor.cs:109-136 | only the table registered under the alias is consulted; an unknown alias or one bound to a derived-table StatementNode gives no property |
| ColumnReferenceVisitor.Horizon | src/dajet-data-scripting/visitors/Columns/ColumnReferenceExpressionVisitor.cs:137-170 | the unaliased scan stops at the first derived-table entry |
| ColumnReferenceVisitor.UnaliasedFirstMatch | src/dajet-data-scripting/visitors/Columns/ColumnReferenceExpressionVisitor.cs:137-170 | without an alias the property found is that of the first unaliased resolved TableNode before the first derived table that supplies the name; none exactly when no such table supplies it |
| ColumnReferenceVisitor.GetPropertyWithoutTableAlias | src/dajet-data-scripting/visitors/Columns/ColumnReferenceExpressionVisitor.cs:137-170 | the loop over the table map returns the first-match property |
| ColumnReferenceVisitor.GetProperty | src/dajet-data-scripting/visitors/Columns/ColumnReferenceExpressionVisitor.cs:87-108 | the lookup goes through the alias when the parts have one and through the unaliased scan otherwise |
| ColumnReferenceVisitor.Renamed | src/dajet-data-scripting/visitors/Columns/ColumnReferenceExpressionVisitor.cs:171-181 | a renamed identifier has the new value |
| ColumnReferenceVisitor.RenameAtReads | src/dajet-data-scripting/visitors/Columns/ColumnReferenceExpressionVisitor.cs:171-181 | renaming identifier i changes that value only and keeps the column reference's shape |
| ColumnReferenceVisitor.ValueColumnRenamed | src/dajet-data-scripting/visitors/Columns/ColumnReferenceExpressionVisitor.cs:171-181 | a value property with a single field has its identifier renamed to that field; a multi-field value property is left unchanged |
| ColumnReferenceVisitor.ValueTypeColumn | src/dajet-data-scripting/visitors/Columns/ColumnReferenceExpressionVisitor.cs:171-181 | a value column never fails and never rewrites its parent, and only a single field changes it |
| ColumnReferenceVisitor.SelectedFieldBelongs | src/dajet-data-scripting/visitors/Columns/ColumnReferenceExpressionVisitor.cs:187-220 | a chosen column is one of the property's fields, with the Object, TypeCode or Discriminator purpose for uuid, type and TYPE on a composite; only type and TYPE on a single field fold to a literal, TYPE giving "0x08"; a name that is not a pseudo-field chooses nothing |
| ColumnReferenceVisitor.PseudoFieldSelection | src/dajet-data-scripting/visitors/Columns/ColumnReferenceExpressionVisitor.cs:184-221 | a selected column is one of the property's own fields, and a literal is chosen only for a single-field property |
| ColumnReferenceVisitor.TypeLiteralEncodesCode | src/dajet-data-scripting/visitors/Columns/ColumnReferenceExpressionVisitor.cs:198-209 | the literal for type on a single field is "0x" and 8 hex digits whose value is the reference type code read unsigned |
| ColumnReferenceVisitor.PseudoFieldRemoved | src/dajet-data-scripting/visitors/Columns/ColumnReferenceExpressionVisitor.cs:182-232 | with a chosen field the property identifier is renamed and the pseudo-field removed; with a literal the column reference is replaced in its parent slot; with no choice it is a NullReference error |
| ColumnReferenceVisitor.PseudoFieldColumn | src/dajet-data-scripting/visitors/Columns/ColumnReferenceExpressionVisitor.cs:182-232 | only a literal rewrites the parent, and a failure leaves the column reference as it was |
| ColumnReferenceVisitor.RenameAndDrop | src/dajet-data-scripting/visitors/Columns/ColumnReferenceExpressionVisitor.cs:223-227 | renaming identifier i and dropping the last identifier reads back as the renamed values without the last one |
| ColumnReferenceVisitor.TypeCodeSumOperands | src/dajet-data-scripting/visitors/Columns/ColumnReferenceExpressionVisitor.cs:255-263 | the sum is a parenthesised addition whose first operand is the type code term and second the object column |
| ColumnReferenceVisitor.SingleReferenceSum | src/dajet-data-scripting/visitors/Columns/ColumnReferenceExpressionVisitor.cs:251-276 | a single-field reference is renamed to its field and replaced in its parent slot by (type literal + column) |
| ColumnReferenceVisitor.CopyIdentifiers | src/dajet-data-scripting/visitors/Columns/ColumnReferenceExpressionVisitor.cs:283-288 | the copy holds fresh identifiers with the same values in the same order |
| ColumnReferenceVisitor.TypeCodeColumnReads | src/dajet-data-scripting/visitors/Columns/ColumnReferenceExpressionVisitor.cs:283-290 | the type-code column is the copy with its last part set to the TypeCode field's name |
| ColumnReferenceVisitor.CompositeReferenceSum | src/dajet-data-scripting/visitors/Columns/ColumnReferenceExpressionVisitor.cs:277-315 | a composite reference without an Object field is a NullReference error; otherwise its last identifier is renamed to the Object field and, when a TypeCode field exists, it is replaced in its slot by (type-code column + renamed column) |
| ColumnReferenceVisitor.BareReferenceColumn | src/dajet-data-scripting/visitors/Columns/ColumnReferenceExpressionVisitor.cs:249-316 | exactly the rewrites that succeed put the sum in the column reference's place in its parent |
| ColumnReferenceVisitor.VisitReferenceTypeColumn | src/dajet-data-scripting/visitors/Columns/ColumnReferenceExpressionVisitor.cs:249-316 | the method builds exactly the replacement described by the bare-reference rules |
| ColumnReferenceVisitor.ExpectedCases | src/dajet-data-scripting/visitors/Columns/ColumnReferenceExpressionVisitor.cs:21-82 | a malformed identifier list is an error, an unresolved property changes nothing, and a resolved one goes to the value, pseudo-field or reference rewrite for the parts found |
| ColumnReferenceVisitor.Resolve | src/dajet-data-scripting/visitors/Columns/ColumnReferenceExpressionVisitor.cs:33-63 | the parts are classified from the identifier values and the property is looked up from them |
| ColumnReferenceVisitor.PatchType | src/dajet-data-scripting/visitors/Columns/ColumnReferenceExpressionVisitor.cs:61-63 | the found property's type code is patched before the rewrite |
| ColumnReferenceVisitor.ResolvedColumn | src/dajet-data-scripting/visitors/Columns/ColumnReferenceExpressionVisitor.cs:65-80 | the dispatch on the column's parts and property kind gives the matching rewrite |
| ColumnReferenceVisitor.Visit | src/dajet-data-scripting/visitors/Columns/ColumnReferenceExpressionVisitor.cs:21-82 | the rewritten node, the rewritten parent and the failure are exactly the expected outcome, and a found property has its type code patched |
| FunctionCallVisitor.Padded | src/dajet-data-scripting/visitors/Columns/FunctionCallVisitor.cs:36-47 | the parts are right-aligned behind (4 - count) missing slots, so more than four parts leave more than four slots |
| FunctionCallVisitor.PadIdentifiers | src/dajet-data-scripting/visitors/Columns/FunctionCallVisitor.cs:38-47 | the two padding loops produce exactly the padded slots |
| FunctionCallVisitor.PaddingRightAligns | src/dajet-data-scripting/visitors/Columns/FunctionCallVisitor.cs:36-49 | up to four parts fill the last slots in order; a single part needs no lookup |
| FunctionCallVisitor.LongNamesNeverResolve | src/dajet-data-scripting/visitors/Columns/FunctionCallVisitor.cs:36-49 | a name with more than four parts fails the four-slot check and resolves to nothing |
| FunctionCallVisitor.KindNameResolves | src/dajet-data-scripting/visitors/Columns/FunctionCallVisitor.cs:36-49 | Kind.Name resolves like the compound "Kind+Name" in the main infobase |
| FunctionCallVisitor.GetApplicationObject | src/dajet-data-scripting/visitors/Columns/FunctionCallVisitor.cs:36-49 | the padded slots are handed to the four-slot resolution |
| FunctionCallVisitor.Transform | src/dajet-data-scripting/visitors/Columns/FunctionCallVisitor.cs:50-67 | the call is replaced in its parent slot by the hex literal of the type code |
| FunctionCallVisitor.FoldedLiteral | src/dajet-data-scripting/visitors/Columns/FunctionCallVisitor.cs:52-66 | the literal is "0x" and 8 upper-case hex digits denoting the code; the fold succeeds iff the parent slot holds the call, and then only that slot changes |
| FunctionCallVisitor.FoldsResolvedTable | src/dajet-data-scripting/visitors/Columns/FunctionCallVisitor.cs:21-33 | TYPEOF of a column naming a resolved entity folds to that entity's type code |
| FunctionCallVisitor.NotFoldedUnchanged | src/dajet-data-scripting/visitors/Columns/FunctionCallVisitor.cs:21-30 | a call with a call target, with another name, or on a name of more than four parts is left in place |
| FunctionCallVisitor.Visit | src/dajet-data-scripting/visitors/Columns/FunctionCallVisitor.cs:19-35 | the method folds exactly as the guard chain allows and otherwise changes nothing |
| ScopeVisitors.AliasKey | src/dajet-data-scripting/visitors/QuerySpecification/QuerySpecificationVisitor.cs:49-59 | the key is "" without an alias and the alias text otherwise |
| ScopeVisitors.NewStatement | src/dajet-data-scripting/visitors/QuerySpecification/QuerySpecificationVisitor.cs:21-27 | the new StatementNode records Parent, Fragment, ParentFragment and TargetProperty and starts empty |
| ScopeVisitors.VisitQuerySpecification | src/dajet-data-scripting/visitors/QuerySpecification/QuerySpecificationVisitor.cs:16-48 | a non-QuerySpecification or another result changes nothing; under a ScriptNode the new statement is returned and appended only for a SelectStatement parent; under a StatementNode with a table-reference parent it is added under the alias, a duplicate being a DuplicateKey error |
| ScopeVisitors.PriorityOf | src/dajet-data-scripting/visitors/Statements/UpdateSpecificationVisitor.cs:15 | the priority properties are Target, FromClause, SetClauses for UPDATE; Target, FromClause for DELETE; Target, Columns, InsertSource for INSERT |
| ScopeVisitors.VisitSpecification | src/dajet-data-scripting/visitors/Statements/UpdateSpecificationVisitor.cs:16-37 | the new statement is registered and returned only under a ScriptNode whose parent is the matching statement; otherwise the result is returned untouched |
| ScopeVisitors.VisitQualifiedJoin | src/dajet-data-scripting/visitors/QuerySpecification/QualifiedJoinVisitor.cs:16-30 | a join under a StatementNode sets VisitContext and nothing else; otherwise nothing changes; the result is returned |
| ScopeVisitors.VisitWhereClause | src/dajet-data-scripting/visitors/QuerySpecification/WhereClauseVisitor.cs:16-27 | a WHERE clause under a StatementNode sets VisitContext and nothing else; otherwise nothing changes; the result is returned |
| ScopeVisitors.ColumnNameValue | src/dajet-data-scripting/visitors/QuerySpecification/SelectElementVisitor.cs:26-45 | the column name is "" without an alias and the alias value otherwise |
| ScopeVisitors.VisitSelectElement | src/dajet-data-scripting/visitors/QuerySpecification/SelectElementVisitor.cs:16-48 | a select element under a StatementNode sets VisitContext, and only a scalar expression appends a linked ColumnNode named after its alias; the result is returned |
| SyntaxTree.JoinTypeOf | src/dajet-data-scripting/SyntaxTree/JoinNode.cs:6-12 | the join type keeps the parser's numeric value: Inner 0, Left 1, Right 2, Full 3 |
| SyntaxTree.SyntaxNode.constructor | src/dajet-data-scripting/SyntaxTree/SyntaxNode.cs:71-109 | a new non-scope node has no parent, no links and empty lists |
| SyntaxTree.SyntaxNode.Scope | src/dajet-data-scripting/syntax-tree/SelectNode.cs:6-16 | a new scope node (select, query or join) has a fresh WhereNode whose Parent is the node itself, empty Tables and Columns, join type Inner and no alias |
| SyntaxTree.SyntaxNode.AddTable | src/dajet-data-scripting/SyntaxTree/SyntaxNode.cs:76-84 | adding a key already present is a DuplicateKey error that keeps the map; otherwise the entry is appended |
| SyntaxTree.LookupTable | src/dajet-data-scripting/SyntaxTree/SyntaxNode.cs:78 | a key is found iff it is present, and the entry found is in the map |
| SyntaxTree.AddTableKeepsDictionary | src/dajet-data-scripting/SyntaxTree/SyntaxNode.cs:78 | adding a new key keeps keys distinct, finds the new node under it and changes no other lookup |
| SyntaxTree.Ancestors | src/dajet-data-scripting/SyntaxTree/SyntaxNode.cs:21-69 | the parent chain lists nodes of the tree that are strictly higher |
| SyntaxTree.Nearest | src/dajet-data-scripting/SyntaxTree/SyntaxNode.cs:21-69 | the node picked from a chain is the first one that passes the test, or null when none does |
| SyntaxTree.FindUp | src/dajet-data-scripting/SyntaxTree/SyntaxNode.cs:27-37 | the while loop over Parent links returns the nearest passing node of the chain |
| SyntaxTree.NearestSuffix | src/dajet-data-scripting/SyntaxTree/SyntaxNode.cs:27-37 | skipping leading nodes that fail the test does not change the nearest one |
| SyntaxTree.Ancestor | src/dajet-data-scripting/SyntaxTree/SyntaxNode.cs:21-40 | the search starts at Parent, never at the node itself, and matches the exact kind |
| SyntaxTree.SelfOrAncestor | src/dajet-data-scripting/SyntaxTree/SyntaxNode.cs:41-48 | the node itself when it is of the kind (subkinds accepted), its nearest exact-kind ancestor otherwise |
| SyntaxTree.TableScopeProvider | src/dajet-data-scripting/SyntaxTree/SyntaxNode.cs:49-69 | the node itself when it is a scope provider, otherwise its nearest provider ancestor, or null |
| SyntaxTree.LookupsStayOnChain | src/dajet-data-scripting/SyntaxTree/SyntaxNode.cs:21-69 | every lookup result lies on the node's own parent chain and is of the kind asked for |
| SyntaxTree.GetTables | src/dajet-data-scripting/SyntaxTree/ITableScopeProvider.cs:9-16 | the result is the depth-first flattening of the scope's tables |
| SyntaxTree.CollectTables | src/dajet-data-scripting/SyntaxTree/ITableScopeProvider.cs:17-30 | the accumulator gains the flattening of the scope, appended after what it held |
| SyntaxTree.FlattenedAreTables | src/dajet-data-scripting/SyntaxTree/ITableScopeProvider.cs:17-30 | everything collected is a TableNode strictly below the scope |
| SyntaxTree.DirectTablesIncluded | src/dajet-data-scripting/SyntaxTree/ITableScopeProvider.cs:19-24 | every TableNode listed directly in a scope is collected |
| SyntaxTree.FlattenShallow | src/dajet-data-scripting/SyntaxTree/ITableScopeProvider.cs:19-29 | without nested providers the result is the list's TableNodes in order, other nodes skipped |
| SyntaxTree.TablesOnly | src/dajet-data-scripting/SyntaxTree/ITableScopeProvider.cs:19-29 | the TableNodes of a list are exactly those kept |
| SyntaxTreeBuilding.IsEditingFragment | src/dajet-data-scripting/SyntaxTreeBuilder.cs:21-25 | only a non-empty fragment is being edited; a cursor just before its first character is outside it, one just after its last character inside |
| SyntaxTreeBuilding.IdentifierValue | src/dajet-data-scripting/SyntaxTreeBuilder.cs:116-131 | a null identifier reads as ""; an identifier not in square brackets reads as its own text, and a bracketed one as a slice of it |
| SyntaxTreeBuilding.BracketsTrimmed | src/dajet-data-scripting/SyntaxTreeBuilder.cs:116-131 | a square-bracketed identifier reads as its text without the brackets |
| SyntaxTreeBuilding.DottedJoin | src/dajet-data-scripting/SyntaxTreeBuilder.cs:132-147 | the multi-part value joins the non-empty parts with '.' |
| SyntaxTreeBuilding.DottedLeadingEmpty | src/dajet-data-scripting/SyntaxTreeBuilder.cs:138-144 | empty leading parts add no dot |
| SyntaxTreeBuilding.MultiPartValue | src/dajet-data-scripting/SyntaxTreeBuilder.cs:132-147 | the loop accumulates exactly the dotted value; a missing list is a NullReference error |
| SyntaxTreeBuilding.TrackSelectsLast | src/dajet-data-scripting/SyntaxTreeBuilder.cs:21-34 | after the walk the recorded fragment is the last visited one under the cursor, with the node current at that visit |
| SyntaxTreeBuilding.TrackUntouched | src/dajet-data-scripting/SyntaxTreeBuilder.cs:21-34 | a walk that meets no fragment under the cursor leaves the recorded state unchanged |
| SyntaxTreeBuilding.TrackAppend | src/dajet-data-scripting/SyntaxTreeBuilder.cs:26-34 | tracking two walks in sequence is tracking their concatenation |
| SyntaxTreeBuilding.SyntaxTreeBuilder.constructor | src/dajet-data-scripting/SyntaxTreeBuilder.cs:9-15 | a new builder keeps the cursor offset and records nothing |
| SyntaxTreeBuilding.SyntaxTreeBuilder.Build | src/dajet-data-scripting/SyntaxTreeBuilder.cs:16-20 | the root is a fresh parentless ScriptNode; the walk starts with the script under the root; without failure every fragment is visited in pre-order under the node its class places it under (Walked), and the recorded state is the cursor tracking of that walk |
| SyntaxTreeBuilding.SyntaxTreeBuilder.BuildSyntaxNode | src/dajet-data-scripting/SyntaxTreeBuilder.cs:26-77 | the fragment is visited under its parent, then each non-null property in order; without failure the walk visits the fragment's subtree in pre-order, each child under its parent or under the node its class places it under (Walked); the overlay stays linked and the recorded fragment is the cursor tracking of the visits |
| SyntaxTreeBuilding.SyntaxTreeBuilder.BuildProperty | src/dajet-data-scripting/SyntaxTreeBuilder.cs:39-76 | one property walked extends the visits and child walks, and without failure the walks so far cover that property's children in order |
| SyntaxTreeBuilding.SyntaxTreeBuilder.BuildSlot | src/dajet-data-scripting/SyntaxTreeBuilder.cs:56-75 | a null property adds nothing; a single child or a list gives the walks of its children in order, each placed as Walked requires |
| SyntaxTreeBuilding.SyntaxTreeBuilder.BuildItems | src/dajet-data-scripting/SyntaxTreeBuilder.cs:61-70 | the list's elements are walked in index order and the walk stops at the first failure |
| SyntaxTreeBuilding.SyntaxTreeBuilder.BuildElement | src/dajet-data-scripting/SyntaxTreeBuilder.cs:64-69 | one element walked extends the visits and walks, and without failure the walks so far cover elements 0..j in order |
| SyntaxTreeBuilding.SyntaxTreeBuilder.BuildChild | src/dajet-data-scripting/SyntaxTreeBuilder.cs:66-74 | only a failed creation leaves no visit; otherwise the child is walked under its parent, a fresh node, or (a WHERE clause) an existing WhereNode, and that node has the relation to the parent its class requires (Beneath) |
| SyntaxTreeBuilding.CreatedBeneath | src/dajet-data-scripting/SyntaxTreeBuilder.cs:78-114 | the exact node CreateSyntaxNode leaves a child under, given the ScriptNode, scope and SelectNode found above the parent, has the per-class relation to the parent the walk records |
| SyntaxTreeBuilding.SyntaxTreeBuilder.CreateSyntaxNode | src/dajet-data-scripting/SyntaxTreeBuilder.cs:78-114 | class by class, the node the child is walked under: a new SelectNode appended to the nearest ScriptNode; a new QueryNode, JoinNode or TableNode appended to the nearest scope's Tables; a new ColumnNode appended to the nearest SelectNode's Columns or to the scope's WhereNode; the ColumnNode parent renamed; the scope's WhereNode; the parent itself when the lookup finds nothing and for every other class (QuerySpecification included), which change nothing; a missing name is a NullReference failure exactly when the creator reaches it |
| SyntaxTreeBuilding.SyntaxTreeBuilder.CreateSelectNode | src/dajet-data-scripting/SyntaxTreeBuilder.cs:158-178 | a SelectNode is appended to the nearest ScriptNode's Statements with that script as Parent; nothing without a script |
| SyntaxTreeBuilding.SyntaxTreeBuilder.CreateQueryNode | src/dajet-data-scripting/SyntaxTreeBuilder.cs:179-200 | a QueryNode with the alias text is appended to the nearest scope's Tables; nothing without a scope |
| SyntaxTreeBuilding.SyntaxTreeBuilder.CreateJoinNode | src/dajet-data-scripting/SyntaxTreeBuilder.cs:201-222 | a JoinNode with the cast join type is appended to the nearest scope's Tables; nothing without a scope |
| SyntaxTreeBuilding.SyntaxTreeBuilder.CreateTableNode | src/dajet-data-scripting/SyntaxTreeBuilder.cs:223-245 | a TableNode with the dotted name and the alias is appended to the nearest scope's Tables; a missing SchemaObject is a NullReference error; nothing without a scope |
| SyntaxTreeBuilding.SyntaxTreeBuilder.CreateSelectScalarNode | src/dajet-data-scripting/SyntaxTreeBuilder.cs:258-279 | a ColumnNode holding the alias is appended to the nearest SelectNode's Columns; nothing without one |
| SyntaxTreeBuilding.SyntaxTreeBuilder.CreateColumnReferenceNode | src/dajet-data-scripting/SyntaxTreeBuilder.cs:280-307 | under a ColumnNode only its Name is set; otherwise a ColumnNode whose Parent is the scope's WhereNode is appended to its columns; a missing identifier list is a NullReference error |
| SyntaxTreeBuilding.SyntaxTreeBuilder.NameSelectColumn | src/dajet-data-scripting/SyntaxTreeBuilder.cs:287-291 | inside a select-list ColumnNode the column name becomes that node's Name and the node is returned; a missing identifier list is a NullReference error that leaves the name alone |
| SyntaxTreeBuilding.SyntaxTreeBuilder.CreateWhereColumn | src/dajet-data-scripting/SyntaxTreeBuilder.cs:293-306 | elsewhere a new ColumnNode with the dotted name and the scope's WhereNode as Parent is appended to that WhereNode's Columns; nothing without a scope |
| SyntaxTreeBuilding.SyntaxTreeBuilder.CreateWhereNode | src/dajet-data-scripting/SyntaxTreeBuilder.cs:308-322 | a WHERE clause creates nothing and its children go to the nearest scope's WhereNode |
| Completion.CompletionItemType | src/dajet-data-scripting/CompletionService.cs:41-49 | the five entity kinds get their marker as item type and every other kind gets "" |
| Completion.EntityTypesNameCollections | src/dajet-data-scripting/CompletionService.cs:91-102 | the five fixed markers are kind markers naming the catalogs, documents, information registers, accumulation registers and publications |
| Completion.EntityTypeItems | src/dajet-data-scripting/CompletionService.cs:91-102 | the fallback list is the five markers, in order, each tagged with itself |
| Completion.GetTableCompletionItems | src/dajet-data-scripting/CompletionService.cs:71-90 | the loop returns the table suggestions for the identifier; a missing identifier is a NullReference error |
| Completion.TableItems | src/dajet-data-scripting/CompletionService.cs:71-102 | every table suggestion replaces the context's span, and there is always at least one |
| Completion.TableItemsFacts | src/dajet-data-scripting/CompletionService.cs:71-102 | all items share the context's span; no match gives exactly the five markers, otherwise one item per entity tagged with the kind of the first |
| Completion.KindPatternSuggestions | src/dajet-data-scripting/CompletionService.cs:71-90 | for Kind.pattern the items are the kind's entities whose name contains the pattern, each of them offered, or the five markers when none match |
| Completion.GetColumnCompletionItems | src/dajet-data-scripting/CompletionService.cs:104-148 | the column suggestions are computed from the names of the scope's tables |
| Completion.ColumnItems | src/dajet-data-scripting/CompletionService.cs:104-148 | an error needs some table to have resolved, and a scope without tables gives no suggestions and no error |
| Completion.ColumnItemsFacts | src/dajet-data-scripting/CompletionService.cs:104-148 | no resolved table gives nothing; otherwise a missing identifier is a NullReference error, an empty one an IndexOutOfRange error, and a plain name gives the properties matching it across the resolved tables |
| Completion.ResolvedMembers | src/dajet-data-scripting/CompletionService.cs:114-128 | the resolved entities are exactly those the table names resolve to; none iff no name resolves |
| Completion.EntitiesItems | src/dajet-data-scripting/CompletionService.cs:130-147 | every property suggestion replaces the context's span, and no entity gives none |
| Completion.EntitiesItemsMembers | src/dajet-data-scripting/CompletionService.cs:130-147 | every item is a matching property of a resolved entity named bare and tagged with its purpose, and every such property is offered |
| Completion.CurrentToken | src/dajet-data-scripting/CompletionService.cs:192-228 | the current token is the first in stream order whose span holds the cursor, none when no token does |
| Completion.GetCurrentToken | src/dajet-data-scripting/CompletionService.cs:212-228 | the loop finds that first token |
| Completion.KeywordBelow | src/dajet-data-scripting/CompletionService.cs:229-255 | the keyword found is the nearest keyword to the left of the current token, none when there is none |
| Completion.TakeFirstKeywordToLeft | src/dajet-data-scripting/CompletionService.cs:229-255 | the loop finds that nearest keyword |
| Completion.NameStart | src/dajet-data-scripting/CompletionService.cs:256-273 | the identifier starts after the last token to the left that is not a dot or an identifier |
| Completion.TryGetFullIdentifier | src/dajet-data-scripting/CompletionService.cs:256-273 | the loop prefixes the current token's text with the contiguous dot and identifier tokens to its left |
| Completion.FullIdentifierEndsWithToken | src/dajet-data-scripting/CompletionService.cs:256-273 | the full identifier ends with the current token's text |
| Completion.GetCompletionContextFromTokenStream | src/dajet-data-scripting/CompletionService.cs:152-191 | the fallback context is computed from the token stream |
| Completion.TokenContextFacts | src/dajet-data-scripting/CompletionService.cs:152-191 | a context exists iff the current token is a dot, identifier or white space and the nearest keyword to its left is FROM or JOIN; its span is the current token's, or a zero-length span at the token offset + 1 for a blank identifier |
| Completion.GetCompletionContext | src/dajet-data-scripting/CompletionService.cs:50-69 | the structural context is absent when the fragment or its token stream is missing or empty, and otherwise comes from the overlay built for the cursor |
| Completion.GetCompletionItems | src/dajet-data-scripting/CompletionService.cs:16-40 | a TableNode context gives table suggestions, a ColumnNode context column suggestions, the token fallback runs only for a script with no batches, everything else gives nothing |
| CallCode.Terminated | src/dajet-data-scripting/visitors/Statements/CreateStoredProcedureStatementVisitor.cs:29-40 | a declaration always ends with ';', gains at most that one character and is unchanged when it already ends with ';' |
| CallCode.CallCodeVisitor.constructor | src/dajet-data-scripting/visitors/Statements/CreateStoredProcedureStatementVisitor.cs:9-11 | the routine name starts as "" and both lists empty |
| CallCode.CallCodeVisitor.Visit | src/dajet-data-scripting/visitors/Statements/CreateStoredProcedureStatementVisitor.cs:12-23 | the name is the statement's base identifier and the lists hold the statement's parameters |
| CallCode.CallCodeVisitor.ParseParameters | src/dajet-data-scripting/visitors/Statements/CreateStoredProcedureStatementVisitor.cs:24-41 | both lists are replaced by one name and one terminated declaration per parameter, in order, so only the last statement's survive |
| CallCode.CallCodeVisitor.Generate | src/dajet-data-scripting/visitors/Statements/CreateStoredProcedureStatementVisitor.cs:53-67 | the accumulated script is exactly the generated code of the routine, name, declarations and parameters, whose shape GeneratedCall and NoParameters pin down |
| CallCode.WriteDeclarations | src/dajet-data-scripting/visitors/Statements/CreateStoredProcedureStatementVisitor.cs:55-59 | the loop writes each declaration followed by a newline |
| CallCode.WriteArguments | src/dajet-data-scripting/visitors/Statements/CreateStoredProcedureStatementVisitor.cs:61-64 | the loop writes each argument followed by a comma |
| CallCode.TrailingCommasJoin | src/dajet-data-scripting/visitors/Statements/CreateStoredProcedureStatementVisitor.cs:61-65 | the comma-terminated arguments are their comma join plus one final comma |
| CallCode.GeneratedCall | src/dajet-data-scripting/visitors/Statements/CreateFunctionStatementVisitor.cs:53-67 | after trimming the trailing comma the code is the declarations, the header, the comma-separated arguments and the closer |
| CallCode.NoParameters | src/dajet-data-scripting/visitors/Statements/CreateStoredProcedureStatementVisitor.cs:60-66 | without parameters the code is exactly "EXEC [dbo].[name];" for a procedure and "SELECT [dbo].[name]();" for a function |
| Lexer.Tokenizer.constructor | src/dajet-data-scripting-wpf/Tokenizer.cs:210-216 | a new tokenizer holds the zero defaults of its static fields: empty source, offsets 0, line 0, no tokens |
| Lexer.Tokenizer.LookNext | src/dajet-data-scripting-wpf/Tokenizer.cs:74-81 | the next character is the one at the offset, or the minimum character past the end |
| Lexer.Tokenizer.LookSecond | src/dajet-data-scripting-wpf/Tokenizer.cs:82-89 | the character after it, or the minimum character past the end |
| Lexer.Tokenizer.MoveNext | src/dajet-data-scripting-wpf/Tokenizer.cs:90-98 | the character returned is the one at the old offset (the minimum character at the end) and the offset advances by one unless it is at the end |
| Lexer.Tokenizer.MoveIfMatch | src/dajet-data-scripting-wpf/Tokenizer.cs:99-113 | the offset advances only when the next character is the expected one, and the answer says whether it did |
| Lexer.Tokenizer.AddToken | src/dajet-data-scripting-wpf/Tokenizer.cs:65-68 | the token is appended and nothing else changes |
| Lexer.Tokenizer.GetString | src/dajet-data-scripting-wpf/Tokenizer.cs:127-150 | the offset ends just past the closing quote (or at the end of an unterminated string) and exactly the string token defined for that start is appended (none when unterminated); the line count follows the newlines inside |
| Lexer.Tokenizer.GetNumber | src/dajet-data-scripting-wpf/Tokenizer.cs:151-170 | the offset ends just past the maximal digits[.digits] run and exactly its Number token is appended |
| Lexer.Tokenizer.GetIdentifier | src/dajet-data-scripting-wpf/Tokenizer.cs:171-186 | the offset ends just past the maximal name run and exactly one token is appended, Keyword iff the text is a dictionary key, Identifier otherwise |
| Lexer.Tokenizer.GetComparison | src/dajet-data-scripting-wpf/Tokenizer.cs:248-273 | the offset ends after the one- or two-character operator and exactly its comparison token is appended |
| Lexer.Tokenizer.ScanNext | src/dajet-data-scripting-wpf/Tokenizer.cs:229-282 | one pass of the scan loop appends exactly the tokens that the lexing function defines for the character at the offset and moves to where it resumes, keeping the line count exact |
| Lexer.Tokenizer.Scan | src/dajet-data-scripting-wpf/Tokenizer.cs:218-286 | the scan resets the state, consumes the whole source and returns exactly the tokens of the lexing function, ending on the line count of the source |
| Lexer.LexOrder | src/dajet-data-scripting-wpf/Tokenizer.cs:227-285 | every token lies inside the source with Start <= End, and tokens are strictly increasing and never overlap |
| Lexer.LexWellFormed | src/dajet-data-scripting-wpf/Tokenizer.cs:227-285 | every token carries its line and its shape: punctuation has Start == End, ">=", "<=" and "<>" span two characters, numbers and names are maximal runs, strings run from quote to quote, and a name is a Keyword iff its text is a dictionary key |
| Lexer.KeywordsAreOneWord | src/dajet-data-scripting-wpf/Tokenizer.cs:188-208 | every keyword token's text is one of the one-word keys, so the two-word keys never match |
| Lexer.SkippedOnly | src/dajet-data-scripting-wpf/Tokenizer.cs:114-121 | blanks and newlines produce no token |
| Lexer.UnterminatedString | src/dajet-data-scripting-wpf/Tokenizer.cs:127-150 | a string with no closing quote emits no token and consumes the rest of the source |
| Lexer.NumberShape | src/dajet-data-scripting-wpf/Tokenizer.cs:151-170 | a number token is a digit run, optionally followed by '.' and at least one more digit, ending on its last digit |
| Lexer.NameShape | src/dajet-data-scripting-wpf/Tokenizer.cs:171-186 | a name token is a maximal run of letters, digits, '_', '[' and ']' that starts with a non-digit |
| Lexer.StringShape | src/dajet-data-scripting-wpf/Tokenizer.cs:127-150 | a string token has quotes at both ends and none between |
| Lexer.ComparisonShape | src/dajet-data-scripting-wpf/Tokenizer.cs:248-273 | a '>' or '<' emits exactly one well-formed token that starts at it and ends before where scanning resumes: ">=", "<=" or "<>" when the next character completes one, otherwise a lone ">" or "<" that no completing character follows |
| Lexer.SearchEdge | src/dajet-data-scripting-wpf/Tokenizer.cs:16-63 | the left edge is just after the nearest separator before the caret (0 when none) and the right edge is the nearest separator at or after the caret (the length when none); tab is no separator (corrected, see the Findings table: the source returns 0 for a separator at index 0) |
| Lexer.GetCurrent | src/dajet-data-scripting-wpf/Tokenizer.cs:10-15 | the current word is the text between the two edges (corrected edges, see the Findings table) |
| Lexer.CurrentWord | src/dajet-data-scripting-wpf/Tokenizer.cs:10-63 | 0 <= left <= offset <= right <= length, no separator lies inside the word, and separators or the text ends delimit it |
| Lexer.NoSeparatorOneWord | src/dajet-data-scripting-wpf/Tokenizer.cs:10-63 | a text without separators is one word |
| Lexer.SearchLeftAsWritten | src/dajet-data-scripting-wpf/Tokenizer.cs:22-37 | the left search as written returns 0, not 1, when the only separator before the caret is at index 0 |
| Lexer.LeftEdgeAsWrittenKeepsBlank | src/dajet-data-scripting-wpf/Tokenizer.cs:37 | on " a" at offset 2 the as-written left edge is 0, so the word keeps the leading blank |

## Left out

- The T-SQL parser and script generator (ScriptDom) are not modelled. A parsed script is given as a `Fragment` value, and the text `ToSqlString` would produce for a parameter declaration is given as an input (`ProcedureParameter.DeclareSql`).
- `PrepareScript`, `ParseScript`, `ExecuteJson`, `ExecuteScript`, `ExecuteBatch`, `RequestCompletion` and `BuildSyntaxTree` are not modelled. They only wrap the parser, the generator and the executor. Both `RequestCompletion` and `BuildSyntaxTree` start the builder that `SyntaxTreeBuilding.SyntaxTreeBuilder.Build` models. The empty token stream that `RequestCompletion` rejects is covered by `Completion.GetCompletionItems`, which returns nothing for a missing stream.
- ScriptExecutor.cs, the WPF and AvalonEdit editor, the completion window and the unit tests are not part of this model. They are I/O, SQL Server connections and UI plumbing.
- The SyntaxTreeVisitor that drives the rewrite visitors and consumes their `PriorityProperties` is not part of this model. Each visitor is modelled as one `Visit` step on the node it is given, and the priority lists are constants (`ScopeVisitors.PriorityOf`).
- Reflection is not modelled. Child slots are addressed by property name in a `Slot` list instead of `PropertyInfo`/`IList`, and indexer properties do not arise.
- `IList.IndexOf` finds the first element equal by value, where the source compares references. The two differ only when a list holds two equal copies of the node being replaced.
- A mutated fragment is not updated in place. The visitors return the rewritten fragment and the rewritten parent instead of mutating the shared object graph, so aliasing between fragments is not modelled.
- `Dictionary` iteration order is taken to be insertion order. `StatementNode.Tables` is a list of key/node pairs with distinct keys, and the infobase collections are lists of uuid/entity entries.
- An exception thrown part-way through a visitor is modelled as a `Throws` result. State already changed before the throw, such as a renamed identifier or a patched type code, is kept as in the source.
- `char.IsLetter` and `char.IsDigit` are approximated. Letters are ASCII and Cyrillic (U+0400–U+0481, U+048A–U+04FF); digits are '0'–'9'.
- The ru-RU culture's case-insensitive `IndexOf` is approximated by a case fold over ASCII and Cyrillic letters (`Text.Fold`).
- `Environment.NewLine` is fixed to "\r\n".
- `MatchApplicationObject` and `MatchProperties`, which the completion service calls but the service interface does not declare, are function parameters of the completion model. The token `IsKeyword()` extension is a flag on each parser token.
- The completion item carries `Value`, `Offset`, `Length` and `ItemType`, the shape the completion service uses (CompletionItem.cs declares only `Value`).
- The token-stream context keeps the dotted identifier as a string, where the source wraps it in a TableNode.
- The tokenizer's static fields are the fields of one `Lexer.Tokenizer` object.
- `Lexer.Tokenizer.Scan`: int offsets and line numbers are unbounded, so a source longer than 2^31 characters is not modelled.
- `Lexer.SearchEdge` and `Lexer.GetCurrent` require `offset <= |text|`. The source reads the document out of range for a larger offset, and that exception is not modelled.
- `SyntaxTree.SyntaxNode.Scope`: a single node class with a `Kind` tag stands for the node subclasses. `IsA` covers the one subclass relation (QueryNode is a SelectNode) that `SelfOrAncestor` tests. The exact-type test of `Ancestor` is kept.
- `SyntaxTree.SyntaxNode`: `Parent` and the ghost `Depth` are constants fixed by the constructor. Every creator in the builder and the visitors sets `Parent` in the object initializer, and nothing assigns it afterwards.
- `SyntaxTreeBuilding.SyntaxTreeBuilder.BuildChild`: the walk it returns records, for each child, the class-dependent relation between the node the child is walked under and its parent (`Beneath`), and whether that node is new. Which ScriptNode, scope or SelectNode the lookups found, and what was appended to it, is stated by `CreateSyntaxNode` for that one call and is not carried up the recursion.
- `SyntaxTreeBuilding.SyntaxTreeBuilder.BuildSyntaxNode` and `SyntaxTreeBuilding.SyntaxTreeBuilder.Build` inherit that limit: `Walked` says where each visit's node sits relative to its parent, not which node the lookups chose.
- `ScriptingService.PlanKindOwnerPart` keeps the source's reading of Kind.Owner.Part as written. The database name comes from the slot that holds the kind marker; the model does not substitute the main infobase there, and its consequence is proved as `ScriptingService.KindOwnerPartUnresolved`.
- `Lexer.Tokenizer.Scan` counts offsets in Unicode scalar values (a Dafny `char`), where .NET strings count UTF-16 code units. Every offset after a character outside the Basic Multilingual Plane is one less per such character than in the source.
- `Lexer.GetCurrent` counts the caret offset the same way, in scalar values rather than UTF-16 code units.
- `Completion.GetCompletionItems` takes the cursor offset and compares fragment and token offsets in scalar values too, so it matches the source only for text inside the Basic Multilingual Plane.
- Ghost depth and linkage predicates (`Linked`) stand in for the absence of cycles in the Parent links. The source assumes this and never checks it.

## Findings

| source | as written | input that shows it | evidently intended | confidence | as-written member | corrected member |
|---|---|---|---|---|---|---|
| src/dajet-data-scripting-wpf/Tokenizer.cs:28-37 | the left search stops at index 0 and returns 0 without checking whether the character at index 0 is a separator | text " a", caret offset 2: the left edge is 0, so GetCurrent returns " a" with the leading blank | the left edge is 1, just after the blank, so GetCurrent returns "a" | not executed | Lexer.SearchLeftAsWritten, Lexer.LeftEdgeAsWrittenKeepsBlank | Lexer.SearchEdge, Lexer.GetCurrent, Lexer.CurrentWord |
