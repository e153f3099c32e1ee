/**
 * Table-identifier resolution over the metadata catalog: the nine entity-kind
 * markers, the mapping of a four-slot [server, database, schema, table] name
 * onto a "Kind+Owner[+Part]" compound, its lookup in the main or a named
 * infobase, the patching of missing reference type codes and the name
 * matching used by completion.
 */
module ScriptingService {
  import opened Wrappers
  import opened Text
  import opened Metadata

  /** The service state the resolution reads: the default infobase and the named ones. */
  datatype Service = Service(MainInfoBase: InfoBase, Databases: map<string, InfoBase>)

  /** The entity-kind markers, in the order the source tests them. */
  const KindMarkers: seq<string> := [
    "Перечисление", "Справочник", "Документ", "ПланВидовХарактеристик", "ПланСчетов",
    "ПланОбмена", "РегистрСведений", "РегистрНакопления", "РегистрБухгалтерии"]

  /** A C# string that may be null; `IsSpecialSchema(null)` is false. */
  predicate IsSpecialSchema(schemaName: Option<string>)
    ensures IsSpecialSchema(schemaName) <==> schemaName.Some? && schemaName.value in KindMarkers
  {
    schemaName.Some? &&
    var s := schemaName.value;
    s == "Перечисление" || s == "Справочник" || s == "Документ"
    || s == "ПланВидовХарактеристик" || s == "ПланСчетов" || s == "ПланОбмена"
    || s == "РегистрСведений" || s == "РегистрНакопления" || s == "РегистрБухгалтерии"
  }

  /** A kind marker maps to the default schema (""), anything else is kept. */
  function MapSchemaIdentifier(schemaName: Option<string>): (r: Option<string>)
    ensures IsSpecialSchema(schemaName) ==> r == Some("")
    ensures !IsSpecialSchema(schemaName) ==> r == schemaName
  {
    if IsSpecialSchema(schemaName) then Some("") else schemaName
  }

  /** The collection a kind marker names, or null for any other identifier. */
  function GetCollection(infoBase: InfoBase, identifier: string): (r: Option<Dictionary>)
    ensures r.Some? <==> identifier in KindMarkers
    // The marker picks one of the infobase's nine collections.
    ensures r.Some? ==> r.value in [infoBase.Enumerations, infoBase.Catalogs, infoBase.Documents, infoBase.Characteristics,
                                    infoBase.Accounts, infoBase.Publications, infoBase.InformationRegisters,
                                    infoBase.AccumulationRegisters, infoBase.AccountingRegisters]
  {
    if identifier == "Перечисление" then Some(infoBase.Enumerations)
    else if identifier == "Справочник" then Some(infoBase.Catalogs)
    else if identifier == "Документ" then Some(infoBase.Documents)
    else if identifier == "ПланВидовХарактеристик" then Some(infoBase.Characteristics)
    else if identifier == "ПланСчетов" then Some(infoBase.Accounts)
    else if identifier == "ПланОбмена" then Some(infoBase.Publications)
    else if identifier == "РегистрСведений" then Some(infoBase.InformationRegisters)
    else if identifier == "РегистрНакопления" then Some(infoBase.AccumulationRegisters)
    else if identifier == "РегистрБухгалтерии" then Some(infoBase.AccountingRegisters)
    else None
  }

  /**
   * IsSpecialSchema, MapSchemaIdentifier and GetCollection agree on the same
   * nine markers: exactly the markers have a collection and map to "".
   */
  lemma MarkersAgree(infoBase: InfoBase, s: string)
    ensures IsSpecialSchema(Some(s)) <==> s in KindMarkers
    ensures GetCollection(infoBase, s).Some? <==> s in KindMarkers
    ensures MapSchemaIdentifier(Some(s)) == (if s in KindMarkers then Some("") else Some(s))
  {
  }

  /** C# string interpolation of a possibly-null value. */
  function Str(s: Option<string>): string
  {
    if s.Some? then s.value else ""
  }

  // ------------------------------------------- Lookup of a compound name

  /** The '+'-separated parts of an identifier once its brackets are trimmed. */
  function CompoundParts(tableIdentifier: string): seq<string>
  {
    Split(TrimEnd(TrimStart(tableIdentifier, '['), ']'), '+')
  }

  lemma CompoundPartsAtLeastTwo(tableIdentifier: string)
    requires '+' in tableIdentifier
    ensures |CompoundParts(tableIdentifier)| >= 2
  {
    var trimmed := TrimEnd(TrimStart(tableIdentifier, '['), ']');
    TrimKeeps(tableIdentifier, '[', ']', '+');
    assert CountOf(trimmed, '+') >= 1 by { CountPositive(trimmed, '+'); }
  }

  lemma {:induction false} CountPositive(s: string, c: char)
    requires c in s
    ensures CountOf(s, c) >= 1
  {
    if s[0] != c {
      assert c in s[1..];
      CountPositive(s[1..], c);
    }
  }

  /** The infobase a database name selects: the main one for null or "". */
  function SelectInfoBase(service: Service, databaseName: Option<string>): (r: Option<InfoBase>)
    // Only a non-empty name that is not registered selects nothing.
    ensures r.None? <==> databaseName.Some? && databaseName.value != "" && databaseName.value !in service.Databases
    ensures r.Some? ==> r.value == service.MainInfoBase || r.value in service.Databases.Values
  {
    if databaseName.None? || databaseName.value == "" then Some(service.MainInfoBase)
    else if databaseName.value in service.Databases then Some(service.Databases[databaseName.value])
    else None
  }

  /**
   * GetApplicationObject(databaseName, tableIdentifier): resolves
   * "[Kind+Owner]" or "[Kind+Owner+Part]".
   */
  function GetApplicationObjectByName(service: Service, databaseName: Option<string>, tableIdentifier: string)
    : (r: Option<ApplicationObject>)
    ensures r.Some? ==> '+' in tableIdentifier && SelectInfoBase(service, databaseName).Some?
    ensures r.Some? ==>
      var parts := CompoundParts(tableIdentifier);
      |parts| >= 2 && GetCollection(SelectInfoBase(service, databaseName).value, parts[0]).Some?
      && r.value.Name == (if |parts| == 3 then parts[2] else parts[1])
    // The entity is a member of the marker's collection, or a table part of one.
    ensures r.Some? ==>
      var parts := CompoundParts(tableIdentifier);
      var members := Values(GetCollection(SelectInfoBase(service, databaseName).value, parts[0]).value);
      if |parts| == 3 then exists owner | owner in members :: r.value in owner.TableParts
      else r.value in members
  {
    if '+' !in tableIdentifier then None
    else
      match SelectInfoBase(service, databaseName)
      case None => None
      case Some(database) =>
        var identifiers := CompoundParts(tableIdentifier);
        CompoundPartsAtLeastTwo(tableIdentifier);
        match GetCollection(database, identifiers[0])
        case None => None
        case Some(bo) =>
          match FirstNamed(Values(bo), identifiers[1])
          case None => None
          case Some(owner) =>
            if |identifiers| == 3 then FirstNamed(owner.TableParts, identifiers[2])
            else Some(owner)
  }

  /** No part holds the separator; the text neither starts with '[' nor ends with ']'. */
  predicate PlainParts(parts: seq<string>)
  {
    |parts| >= 2 && (forall k | 0 <= k < |parts| :: '+' !in parts[k])
    && parts[0] != "" && parts[0][0] != '['
    && parts[|parts| - 1] != "" && parts[|parts| - 1][|parts[|parts| - 1]| - 1] != ']'
  }

  /**
   * The bracketed compound "[P1+P2(+P3)]" the table rewrite builds splits back
   * into exactly its parts.
   */
  lemma CompoundRoundTrip(parts: seq<string>)
    requires PlainParts(parts)
    ensures CompoundParts("[" + Join(parts, '+') + "]") == parts
  {
    var j := Join(parts, '+');
    JoinFirst(parts, '+');
    JoinLast(parts, '+');
    assert TrimStart("[" + j + "]", '[') == j + "]" by {
      assert ("[" + j + "]")[1..] == j + "]";
    }
    assert TrimEnd(j + "]", ']') == j by {
      assert (j + "]")[..|j|] == j;
    }
    SplitJoin(parts, '+');
  }

  lemma JoinFirst(parts: seq<string>, sep: char)
    requires |parts| >= 1 && parts[0] != ""
    ensures |Join(parts, sep)| > 0 && Join(parts, sep)[0] == parts[0][0]
  {
  }

  /** Joining parts that do not hold the separator and splitting again gives the parts back. */
  lemma {:induction false} SplitJoin(parts: seq<string>, sep: char)
    requires |parts| >= 1 && forall k | 0 <= k < |parts| :: sep !in parts[k]
    ensures Split(Join(parts, sep), sep) == parts
    decreases |parts|
  {
    if |parts| == 1 {
      SplitWithoutSeparator(parts[0], sep);
    } else {
      SplitJoin(parts[1..], sep);
      SplitPrefix(parts[0], Join(parts[1..], sep), sep);
    }
  }

  /** Splitting `p + [sep] + rest` when `p` holds no separator. */
  lemma {:induction false} SplitPrefix(p: string, rest: string, sep: char)
    requires sep !in p
    ensures Split(p + [sep] + rest, sep) == [p] + Split(rest, sep)
    decreases |p|
  {
    if p == [] {
      assert p + [sep] + rest == [sep] + rest;
      assert ([sep] + rest)[1..] == rest;
    } else {
      SplitPrefix(p[1..], rest, sep);
      assert (p + [sep] + rest)[1..] == p[1..] + [sep] + rest;
      assert [p[0]] + p[1..] == p;
    }
  }

  /**
   * "[Kind+Owner]" resolves to the first entity of that kind named Owner, and
   * "[Kind+Owner+Part]" to that entity's first table part named Part.
   */
  lemma ResolvesCompound(service: Service, databaseName: Option<string>, parts: seq<string>)
    requires PlainParts(parts) && |parts| <= 3
    requires SelectInfoBase(service, databaseName).Some?
    requires IsSpecialSchema(Some(parts[0]))
    ensures var collection := GetCollection(SelectInfoBase(service, databaseName).value, parts[0]);
      var owner := FirstNamed(Values(collection.value), parts[1]);
      collection.Some? &&
      GetApplicationObjectByName(service, databaseName, "[" + Join(parts, '+') + "]") ==
        if owner.None? then None
        else if |parts| == 3 then FirstNamed(owner.value.TableParts, parts[2])
        else owner
  {
    var id := "[" + Join(parts, '+') + "]";
    CompoundRoundTrip(parts);
    JoinHasSeparator(parts, '+');
    assert CompoundParts(id) == parts;
    SpecialSchemaCollection(SelectInfoBase(service, databaseName).value, parts[0]);
  }

  /** Every kind marker names one of the information base's collections. */
  lemma SpecialSchemaCollection(infoBase: InfoBase, identifier: string)
    requires IsSpecialSchema(Some(identifier))
    ensures GetCollection(infoBase, identifier).Some?
  {
  }

  lemma JoinHasSeparator(parts: seq<string>, sep: char)
    requires |parts| >= 2
    ensures sep in "[" + Join(parts, sep) + "]"
  {
    assert Join(parts, sep) == parts[0] + [sep] + Join(parts[1..], sep);
    assert ("[" + Join(parts, sep) + "]")[1 + |parts[0]|] == sep;
  }

  /** A name without '+' and a database name that is not registered both give null. */
  lemma UnresolvableNames(service: Service, databaseName: Option<string>, tableIdentifier: string)
    ensures '+' !in tableIdentifier ==> GetApplicationObjectByName(service, databaseName, tableIdentifier).None?
    ensures databaseName.Some? && databaseName.value != "" && databaseName.value !in service.Databases
      ==> GetApplicationObjectByName(service, databaseName, tableIdentifier).None?
  {
  }

  /** The table name of the resolved entity, or the identifier itself. */
  function MapTableIdentifier(service: Service, databaseName: Option<string>, tableIdentifier: string): (r: string)
    ensures GetApplicationObjectByName(service, databaseName, tableIdentifier).None? ==> r == tableIdentifier
    ensures GetApplicationObjectByName(service, databaseName, tableIdentifier).Some? ==>
      r == GetApplicationObjectByName(service, databaseName, tableIdentifier).value.TableName
  {
    match GetApplicationObjectByName(service, databaseName, tableIdentifier)
    case None => tableIdentifier
    case Some(o) => o.TableName
  }

  /**
   * Mapping is idempotent when physical table names contain no '+': a mapped
   * identifier never resolves again.
   */
  lemma MapTableIdentifierIdempotent(service: Service, databaseName: Option<string>, tableIdentifier: string)
    requires GetApplicationObjectByName(service, databaseName, tableIdentifier).Some? ==>
      '+' !in GetApplicationObjectByName(service, databaseName, tableIdentifier).value.TableName
    ensures MapTableIdentifier(service, databaseName, MapTableIdentifier(service, databaseName, tableIdentifier))
      == MapTableIdentifier(service, databaseName, tableIdentifier)
  {
  }

  // --------------------------------------------- The four-slot rewrite

  /** What GetApplicationObject(List) does with four slots. */
  datatype SlotPlan =
    | NoLookup
    | Lookup(databaseName: Option<string>, slots: seq<Option<string>>)

  /**
   * The slot rewrite of GetApplicationObject(List): which slots become what,
   * and which slot the database name is read from.
   */
  function PlanSlots(s: seq<Option<string>>): (p: SlotPlan)
    requires |s| == 4
    ensures p.Lookup? ==> |p.slots| == 4
    ensures p.Lookup? && p.slots[3] != s[3] ==> p.slots[3].Some? && '+' in p.slots[3].value
    ensures p.NoLookup? <==> s[0].None? && s[1].None? && s[2].None?
  {
    var server, database, schema, table := s[0], s[1], s[2], s[3];
    if server.Some? then
      if table.None? then Lookup(None, s)
      else if '+' in table.value then
        Lookup(database, s[3 := Some(Str(schema) + "+" + table.value)][2 := Some("")])
      else if IsSpecialSchema(database) then
        Lookup(server, [None, server, Some(""), Some(Str(database) + "+" + Str(schema) + "+" + table.value)])
      else if IsSpecialSchema(schema) then
        Lookup(database, s[3 := Some(Str(schema) + "+" + table.value)][2 := Some("")])
      else Lookup(None, s)
    else if database.Some? then
      if IsSpecialSchema(database) then
        Lookup(database, [server, None, None, Some(Str(database) + "+" + Str(schema) + "+" + Str(table))])
      else if IsSpecialSchema(schema) then
        Lookup(database, s[3 := Some(Str(schema) + "+" + Str(table))][2 := Some("")])
      else Lookup(None, s)
    else if schema.Some? then
      if IsSpecialSchema(schema) then
        Lookup(None, s[3 := Some(Str(schema) + "+" + Str(table))][2 := None])
      else Lookup(None, s)
    else NoLookup
  }

  /**
   * GetApplicationObject(List): rewrites the caller's list in place and
   * resolves its last slot. A list whose last slot is still null when it is
   * read throws, as the C# code does.
   */
  method GetApplicationObject(service: Service, tableIdentifiers: array<Option<string>>)
    returns (r: Result<Option<ApplicationObject>>)
    modifies tableIdentifiers
    ensures tableIdentifiers.Length != 4 ==> r == Ok(None) && tableIdentifiers[..] == old(tableIdentifiers[..])
    ensures tableIdentifiers.Length == 4 ==>
      match PlanSlots(old(tableIdentifiers[..]))
      case NoLookup => r == Ok(None) && tableIdentifiers[..] == old(tableIdentifiers[..])
      case Lookup(db, slots) =>
        tableIdentifiers[..] == slots &&
        r == if slots[3].None? then Throws(NullReference)
             else Ok(GetApplicationObjectByName(service, db, slots[3].value))
  {
    if tableIdentifiers.Length != 4 {
      return Ok(None);
    }
    var databaseName: Option<string> := None;
    var serverIdentifier := tableIdentifiers[0];
    var databaseIdentifier := tableIdentifiers[1];
    var schemaIdentifier := tableIdentifiers[2];
    var tableIdentifier := tableIdentifiers[3];

    if serverIdentifier.Some? {
      if tableIdentifier.None? {
        return Throws(NullReference);
      }
      if '+' in tableIdentifier.value {
        databaseName := tableIdentifiers[1];
        tableIdentifiers[3] := Some(Str(schemaIdentifier) + "+" + tableIdentifier.value);
        tableIdentifiers[2] := Some("");
      } else if IsSpecialSchema(databaseIdentifier) {
        databaseName := tableIdentifiers[0];
        tableIdentifiers[3] := Some(Str(databaseIdentifier) + "+" + Str(schemaIdentifier) + "+" + tableIdentifier.value);
        tableIdentifiers[2] := Some("");
        tableIdentifiers[1] := serverIdentifier;
        tableIdentifiers[0] := None;
      } else if IsSpecialSchema(schemaIdentifier) {
        databaseName := tableIdentifiers[1];
        tableIdentifiers[3] := Some(Str(schemaIdentifier) + "+" + tableIdentifier.value);
        tableIdentifiers[2] := Some("");
      }
    } else if databaseIdentifier.Some? {
      if IsSpecialSchema(databaseIdentifier) {
        databaseName := tableIdentifiers[1];
        tableIdentifiers[3] := Some(Str(databaseIdentifier) + "+" + Str(schemaIdentifier) + "+" + Str(tableIdentifier));
        tableIdentifiers[2] := None;
        tableIdentifiers[1] := None;
      } else if IsSpecialSchema(schemaIdentifier) {
        databaseName := tableIdentifiers[1];
        tableIdentifiers[3] := Some(Str(schemaIdentifier) + "+" + Str(tableIdentifier));
        tableIdentifiers[2] := Some("");
      }
    } else if schemaIdentifier.Some? {
      if IsSpecialSchema(schemaIdentifier) {
        tableIdentifiers[3] := Some(Str(schemaIdentifier) + "+" + Str(tableIdentifier));
        tableIdentifiers[2] := None;
      }
    } else {
      return Ok(None);
    }

    if tableIdentifiers[3].None? {
      return Throws(NullReference);
    }
    r := Ok(GetApplicationObjectByName(service, databaseName, tableIdentifiers[3].value));
  }

  /**
   * `Kind.Name` with no server and no database resolves "Kind+Name" in the
   * main infobase: the schema slot is nulled and no database name is chosen.
   */
  lemma PlanKindName(kind: string, name: string)
    requires IsSpecialSchema(Some(kind))
    ensures PlanSlots([None, None, Some(kind), Some(name)])
      == Lookup(None, [None, None, None, Some(kind + "+" + name)])
  {
  }

  /** Resolution is positional: with the first two slots null it always uses the main infobase. */
  lemma PlanMainDatabase(s: seq<Option<string>>, service: Service)
    requires |s| == 4 && s[0].None? && s[1].None?
    ensures PlanSlots(s).Lookup? ==> PlanSlots(s).databaseName.None?
    ensures PlanSlots(s).Lookup? ==> SelectInfoBase(service, PlanSlots(s).databaseName) == Some(service.MainInfoBase)
  {
  }

  /** `[server].[db].Kind.Name`: slot 3 becomes "Kind+Name", slot 2 "", the database comes from slot 1. */
  lemma PlanServerDatabaseKindName(server: string, db: string, kind: string, name: string)
    requires IsSpecialSchema(Some(kind)) && !IsSpecialSchema(Some(db)) && '+' !in name
    ensures PlanSlots([Some(server), Some(db), Some(kind), Some(name)])
      == Lookup(Some(db), [Some(server), Some(db), Some(""), Some(kind + "+" + name)])
  {
  }

  /**
   * `Kind.Owner.Part`: the database name is read from slot 1, which holds the
   * kind marker itself, before that slot is nulled.
   */
  lemma PlanKindOwnerPart(kind: string, owner: string, part: string)
    requires IsSpecialSchema(Some(kind))
    ensures PlanSlots([None, Some(kind), Some(owner), Some(part)])
      == Lookup(Some(kind), [None, None, None, Some(kind + "+" + owner + "+" + part)])
  {
  }

  /**
   * Consequence of reading the database name from the marker slot: unless an
   * infobase is registered under the marker's own name, `Kind.Owner.Part`
   * never resolves through GetApplicationObject(List).
   */
  lemma KindOwnerPartUnresolved(service: Service, kind: string, owner: string, part: string)
    requires IsSpecialSchema(Some(kind)) && kind !in service.Databases
    ensures match PlanSlots([None, Some(kind), Some(owner), Some(part)])
      case NoLookup => false
      case Lookup(db, slots) => slots[3].Some? && GetApplicationObjectByName(service, db, slots[3].value).None?
  {
    PlanKindOwnerPart(kind, owner, part);
  }

  // ------------------------------------------- Reference type code patch

  /**
   * The reference type code FixPropertyTypeCode leaves in a property's type,
   * given the code it had.
   */
  function PatchedTypeCode(service: Service, metaObject: ApplicationObject, name: string,
                           purpose: PropertyPurpose, uuid: Uuid, code: int32): int32
  {
    if code != 0 then code
    else if uuid == EmptyUuid && purpose == System && name == "Ссылка" then metaObject.TypeCode
    else match TryGetValue(service.MainInfoBase.ReferenceTypeUuids, uuid)
      case Some(propertyType) => propertyType.TypeCode
      case None =>
        if name == "Владелец" && (metaObject.Kind == Catalog || metaObject.Kind == Characteristic) then
          match TryGetValue(service.MainInfoBase.Catalogs, uuid)
          case Some(catalog) => catalog.TypeCode
          case None =>
            match TryGetValue(service.MainInfoBase.Characteristics, uuid)
            case Some(characteristic) => characteristic.TypeCode
            case None => code
        else code
  }

  /**
   * A set code is never changed, a patch is taken from the first source that
   * knows the type, in the fixed order: the owner itself for the system
   * "Ссылка" property, the reference type table, then (for "Владелец" of a
   * catalog or characteristic) the catalogs and the characteristics.
   */
  lemma PatchSources(service: Service, metaObject: ApplicationObject, name: string,
                     purpose: PropertyPurpose, uuid: Uuid, code: int32)
    ensures code != 0 ==> PatchedTypeCode(service, metaObject, name, purpose, uuid, code) == code
    ensures code == 0 && uuid == EmptyUuid && purpose == System && name == "Ссылка" ==>
      PatchedTypeCode(service, metaObject, name, purpose, uuid, code) == metaObject.TypeCode
    ensures var c := PatchedTypeCode(service, metaObject, name, purpose, uuid, code);
      c == code || c == metaObject.TypeCode
      || (exists e | e in service.MainInfoBase.ReferenceTypeUuids :: e.Key == uuid && c == e.Value.TypeCode)
      || (exists e | e in service.MainInfoBase.Catalogs :: e.Key == uuid && c == e.Value.TypeCode)
      || (exists e | e in service.MainInfoBase.Characteristics :: e.Key == uuid && c == e.Value.TypeCode)
  {
    var c := PatchedTypeCode(service, metaObject, name, purpose, uuid, code);
    if code == 0 && !(uuid == EmptyUuid && purpose == System && name == "Ссылка") {
      var t := TryGetValue(service.MainInfoBase.ReferenceTypeUuids, uuid);
      if t.Some? {
        assert Entry(uuid, t.value) in service.MainInfoBase.ReferenceTypeUuids;
      } else if name == "Владелец" && (metaObject.Kind == Catalog || metaObject.Kind == Characteristic) {
        var a := TryGetValue(service.MainInfoBase.Catalogs, uuid);
        var b := TryGetValue(service.MainInfoBase.Characteristics, uuid);
        if a.Some? {
          assert Entry(uuid, a.value) in service.MainInfoBase.Catalogs;
        } else if b.Some? {
          assert Entry(uuid, b.value) in service.MainInfoBase.Characteristics;
        }
      }
    }
  }

  /** Patching twice is the same as patching once. */
  lemma PatchIdempotent(service: Service, metaObject: ApplicationObject, name: string,
                        purpose: PropertyPurpose, uuid: Uuid, code: int32)
    ensures var once := PatchedTypeCode(service, metaObject, name, purpose, uuid, code);
      PatchedTypeCode(service, metaObject, name, purpose, uuid, once) == once
  {
  }

  /** FixPropertyTypeCode: patches ReferenceTypeCode in place when it is 0. */
  method FixPropertyTypeCode(service: Service, metaObject: ApplicationObject, property: MetadataProperty)
    modifies property.PropertyType
    ensures property.PropertyType.ReferenceTypeCode ==
      PatchedTypeCode(service, metaObject, property.Name, property.Purpose,
                      property.PropertyType.ReferenceTypeUuid, old(property.PropertyType.ReferenceTypeCode))
  {
    var t := property.PropertyType;
    if t.ReferenceTypeCode != 0 {
      return;
    }
    if t.ReferenceTypeUuid == EmptyUuid && property.Purpose == System && property.Name == "Ссылка" {
      t.ReferenceTypeCode := metaObject.TypeCode;
      return;
    }
    var propertyType := TryGetValue(service.MainInfoBase.ReferenceTypeUuids, t.ReferenceTypeUuid);
    if propertyType.Some? {
      t.ReferenceTypeCode := propertyType.value.TypeCode;
    } else if property.Name == "Владелец" {
      if metaObject.Kind == Catalog || metaObject.Kind == Characteristic {
        var catalog := TryGetValue(service.MainInfoBase.Catalogs, t.ReferenceTypeUuid);
        if catalog.Some? {
          t.ReferenceTypeCode := catalog.value.TypeCode;
        } else {
          var characteristic := TryGetValue(service.MainInfoBase.Characteristics, t.ReferenceTypeUuid);
          if characteristic.Some? {
            t.ReferenceTypeCode := characteristic.value.TypeCode;
          }
        }
      }
    }
  }

  // ------------------------------------------------ Matching for completion

  /** The entities whose name contains the pattern, ignoring case, in collection order. */
  function Matching(objects: seq<ApplicationObject>, pattern: string): seq<ApplicationObject>
  {
    if objects == [] then []
    else if ContainsIgnoreCase(objects[0].Name, pattern) then [objects[0]] + Matching(objects[1..], pattern)
    else Matching(objects[1..], pattern)
  }

  /** Matching keeps exactly the entities whose name contains the pattern. */
  lemma {:induction false} MatchingMembers(objects: seq<ApplicationObject>, pattern: string)
    ensures forall o :: o in Matching(objects, pattern) <==> o in objects && ContainsIgnoreCase(o.Name, pattern)
    ensures |Matching(objects, pattern)| <= |objects|
  {
    if objects != [] {
      MatchingMembers(objects[1..], pattern);
      assert objects == [objects[0]] + objects[1..];
    }
  }

  /** The empty pattern keeps the whole collection. */
  lemma {:induction false} MatchingEmptyPattern(objects: seq<ApplicationObject>)
    ensures Matching(objects, "") == objects
  {
    if objects != [] {
      ContainsIgnoreCaseBasics(objects[0].Name);
      MatchingEmptyPattern(objects[1..]);
      assert objects == [objects[0]] + objects[1..];
    }
  }

  /** The private MatchApplicationObjects(collection, pattern) loop. */
  method MatchByPattern(collection: Dictionary, pattern: string) returns (list: seq<ApplicationObject>)
    ensures list == Matching(Values(collection), pattern)
  {
    var values := Values(collection);
    list := [];
    var i := 0;
    while i < |values|
      invariant 0 <= i <= |values|
      invariant list + Matching(values[i..], pattern) == Matching(values, pattern)
    {
      assert values[i..] == [values[i]] + values[i + 1..];
      if ContainsIgnoreCase(values[i].Name, pattern) {
        list := list + [values[i]];
      }
      i := i + 1;
    }
  }

  /** GetTableParts: a copy of the entity's table parts. */
  method GetTableParts(entity: ApplicationObject) returns (list: seq<ApplicationObject>)
    ensures list == entity.TableParts
  {
    list := [];
    var i := 0;
    while i < |entity.TableParts|
      invariant 0 <= i <= |entity.TableParts|
      invariant list == entity.TableParts[..i]
    {
      list := list + [entity.TableParts[i]];
      i := i + 1;
    }
  }

  /** What MatchApplicationObjects(identifier) returns. */
  function MatchedObjects(service: Service, identifier: string): seq<ApplicationObject>
  {
    var names := SplitRemoveEmpty(identifier, '.');
    if |names| < 2 then []
    else match GetCollection(service.MainInfoBase, names[0])
      case None => []
      case Some(collection) =>
        if |names| == 2 then Matching(Values(collection), names[1])
        else match FirstNamed(Values(collection), names[1])
          case None => []
          case Some(entity) => entity.TableParts
  }

  /**
   * MatchApplicationObjects(identifier): by the number of non-empty dot
   * segments, nothing, the entities of one kind whose name contains the
   * second segment, or all table parts of the exactly named entity.
   */
  method MatchApplicationObjects(service: Service, identifier: string) returns (list: seq<ApplicationObject>)
    ensures list == MatchedObjects(service, identifier)
    ensures var names := SplitRemoveEmpty(identifier, '.');
      (|names| < 2 ==> list == []) &&
      (|names| >= 2 && GetCollection(service.MainInfoBase, names[0]).None? ==> list == []) &&
      (|names| == 2 && GetCollection(service.MainInfoBase, names[0]).Some? ==>
        list == Matching(Values(GetCollection(service.MainInfoBase, names[0]).value), names[1])) &&
      (|names| > 2 && GetCollection(service.MainInfoBase, names[0]).Some? ==>
        var entity := FirstNamed(Values(GetCollection(service.MainInfoBase, names[0]).value), names[1]);
        list == if entity.None? then [] else entity.value.TableParts)
  {
    var names := SplitRemoveEmpty(identifier, '.');
    if |names| < 2 {
      return [];
    }
    var collection := GetCollection(service.MainInfoBase, names[0]);
    if collection.None? {
      return [];
    }
    if |names| == 2 {
      list := MatchByPattern(collection.value, names[1]);
      return;
    }
    var entity := FirstNamed(Values(collection.value), names[1]);
    if entity.None? {
      return [];
    }
    list := GetTableParts(entity.value);
  }
}
