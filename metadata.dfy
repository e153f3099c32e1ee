/**
 * The metadata catalog the rewriter reads: infobases holding collections of
 * application objects (catalogs, documents, registers, ...), their properties
 * and the physical database fields behind each property.
 */
module Metadata {
  import opened Wrappers
  import opened Text

  /** A Guid; 0 stands for Guid.Empty. */
  type Uuid = nat
  const EmptyUuid: Uuid := 0

  /** The runtime class of an application object. */
  datatype ObjectKind =
    | Catalog | Document | Enumeration | Characteristic | Account | Publication
    | InformationRegister | AccumulationRegister | AccountingRegister | TablePart

  datatype PropertyPurpose = System | Property | Dimension | Measure | Hierarchy

  /** Enum.GetName(typeof(PropertyPurpose), purpose). */
  function PurposeName(p: PropertyPurpose): string
  {
    match p
    case System => "System"
    case Property => "Property"
    case Dimension => "Dimension"
    case Measure => "Measure"
    case Hierarchy => "Hierarchy"
  }

  /** The role of one physical column of a property. */
  datatype FieldPurpose = Value | Object | TypeCode | Discriminator | OtherPurpose

  datatype DatabaseField = DatabaseField(Name: string, Purpose: FieldPurpose)

  /**
   * The declared type of a property. Its reference type code is loaded as 0
   * for some properties and patched in place later (FixPropertyTypeCode).
   */
  class DataTypeInfo {
    var ReferenceTypeCode: int32
    const ReferenceTypeUuid: Uuid
    const CanBeReference: bool

    constructor (code: int32, uuid: Uuid, canBeReference: bool)
      ensures ReferenceTypeCode == code && ReferenceTypeUuid == uuid
      ensures CanBeReference == canBeReference
    {
      ReferenceTypeCode := code;
      ReferenceTypeUuid := uuid;
      CanBeReference := canBeReference;
    }
  }

  datatype MetadataProperty = MetadataProperty(
    Name: string,
    Purpose: PropertyPurpose,
    PropertyType: DataTypeInfo,
    Fields: seq<DatabaseField>)

  datatype ApplicationObject = ApplicationObject(
    Kind: ObjectKind,
    Uuid: Uuid,
    Name: string,
    TypeCode: int32,
    TableName: string,
    Properties: seq<MetadataProperty>,
    TableParts: seq<ApplicationObject>)

  /** One entry of a Dictionary<Guid, ApplicationObject>, kept in enumeration order. */
  datatype Entry = Entry(Key: Uuid, Value: ApplicationObject)

  type Dictionary = seq<Entry>

  /** Dictionary.Values, in enumeration order. */
  function Values(d: Dictionary): (r: seq<ApplicationObject>)
    ensures |r| == |d| && forall k | 0 <= k < |d| :: r[k] == d[k].Value
  {
    seq(|d|, k requires 0 <= k < |d| => d[k].Value)
  }

  /** Dictionary.TryGetValue. */
  function TryGetValue(d: Dictionary, key: Uuid): (r: Option<ApplicationObject>)
    ensures r.Some? <==> exists k | 0 <= k < |d| :: d[k].Key == key
    ensures r.Some? ==> Entry(key, r.value) in d
  {
    if d == [] then None
    else if d[0].Key == key then Some(d[0].Value)
    else TryGetValue(d[1..], key)
  }

  datatype InfoBase = InfoBase(
    Enumerations: Dictionary,
    Catalogs: Dictionary,
    Documents: Dictionary,
    Characteristics: Dictionary,
    Accounts: Dictionary,
    Publications: Dictionary,
    InformationRegisters: Dictionary,
    AccumulationRegisters: Dictionary,
    AccountingRegisters: Dictionary,
    /** Reference type uuid -> the object that type refers to. */
    ReferenceTypeUuids: Dictionary)

  /** Position of the first object called `name`, or |objects| when there is none. */
  function IndexOfNamed(objects: seq<ApplicationObject>, name: string): (k: nat)
    ensures k <= |objects|
    ensures forall j | 0 <= j < k :: objects[j].Name != name
    ensures k < |objects| ==> objects[k].Name == name
  {
    if objects == [] || objects[0].Name == name then 0
    else 1 + IndexOfNamed(objects[1..], name)
  }

  /** `Where(o => o.Name == name).FirstOrDefault()`: the first object with that name. */
  function FirstNamed(objects: seq<ApplicationObject>, name: string): (r: Option<ApplicationObject>)
    ensures r.Some? ==> r.value in objects && r.value.Name == name
    ensures r.None? <==> forall k | 0 <= k < |objects| :: objects[k].Name != name
    ensures r.Some? ==> exists k | 0 <= k < |objects| :: objects[k] == r.value && forall j | 0 <= j < k :: objects[j].Name != name
  {
    var k := IndexOfNamed(objects, name);
    if k < |objects| then Some(objects[k]) else None
  }

  /** Position of the first property called `name`, or |properties| when there is none. */
  function IndexOfProperty(properties: seq<MetadataProperty>, name: string): (k: nat)
    ensures k <= |properties|
    ensures forall j | 0 <= j < k :: properties[j].Name != name
    ensures k < |properties| ==> properties[k].Name == name
  {
    if properties == [] || properties[0].Name == name then 0
    else 1 + IndexOfProperty(properties[1..], name)
  }

  /** `Where(p => p.Name == name).FirstOrDefault()` over properties: the first one with that name. */
  function FirstProperty(properties: seq<MetadataProperty>, name: string): (r: Option<MetadataProperty>)
    ensures r.Some? ==> r.value in properties && r.value.Name == name
    ensures r.None? <==> forall k | 0 <= k < |properties| :: properties[k].Name != name
    // It sits at the first position with that name.
    ensures r.Some? ==> IndexOfProperty(properties, name) < |properties| && r.value == properties[IndexOfProperty(properties, name)]
  {
    if properties == [] then None
    else if properties[0].Name == name then Some(properties[0])
    else
      FirstProperty(properties[1..], name)
  }

  /** Position of the first field with that purpose, or |fields| when there is none. */
  function IndexOfPurpose(fields: seq<DatabaseField>, purpose: FieldPurpose): (k: nat)
    ensures k <= |fields|
    ensures forall j | 0 <= j < k :: fields[j].Purpose != purpose
    ensures k < |fields| ==> fields[k].Purpose == purpose
  {
    if fields == [] || fields[0].Purpose == purpose then 0
    else 1 + IndexOfPurpose(fields[1..], purpose)
  }

  /** `Fields.Where(f => f.Purpose == purpose).FirstOrDefault()`: the first field with that purpose. */
  function FirstField(fields: seq<DatabaseField>, purpose: FieldPurpose): (r: Option<DatabaseField>)
    ensures r.Some? ==> r.value in fields && r.value.Purpose == purpose
    ensures r.None? <==> forall k | 0 <= k < |fields| :: fields[k].Purpose != purpose
    // It sits at the first position with that purpose.
    ensures r.Some? ==> IndexOfPurpose(fields, purpose) < |fields| && r.value == fields[IndexOfPurpose(fields, purpose)]
  {
    if fields == [] then None
    else if fields[0].Purpose == purpose then Some(fields[0])
    else
      FirstField(fields[1..], purpose)
  }
}
