/** `ConfigParser`: a JSON schema with `$ref`s becomes one tree of fields in which every reference has
    been replaced by what it refers to, and the enums met on the way are collected by name. */
module DataprocConfigs {
  import Strings = Text
  import opened Wrappers

  /** A schema object: `{"$ref": target}`, or a JSON object with the keys that the parser looks at. */
  datatype Obj =
    | Ref(target: string)
    | Node(typeName: Option<string>, description: Option<string>,
           enumNames: Option<seq<string>>, enumDescriptions: Option<seq<string>>,
           additionalProperties: bool, properties: Properties, items: Items)

  datatype Properties = NoProperties | Properties(list: seq<Property>)
  datatype Property = Property(key: string, obj: Obj)
  datatype Items = NoItems | Items(obj: Obj)

  type Schemas = map<string, Obj>

  datatype EnumType = EnumType(name: string, names: seq<string>, descriptions: Option<seq<string>>)

  datatype Field = Field(kind: Kind, required: bool, description: Option<string>)
  datatype Kind =
    | Scalar(text: string)
    | Permissive
    | EnumKind(enum: EnumType)
    | List(inner: Field)
    | Shape(fields: seq<Named>)
  datatype Named = Named(key: string, field: Field)

  /** What a call did: the enums it recorded, in order, and its field, or `None` for an exception. */
  datatype Outcome = Outcome(enums: seq<EnumType>, field: Option<Field>)
  datatype Outcomes = Outcomes(enums: seq<EnumType>, fields: Option<seq<Named>>)

  const SCALAR_TYPES := map[
    "string" := "String", "boolean" := "Bool", "number" := "Int", "enumeration" := "String", "integer" := "Int"]

  // ----- acyclic references -----

  /** Every reference in the object itself is to a schema of smaller rank than `r`. */
  ghost predicate Below(obj: Obj, rank: string -> nat, r: nat)
    decreases obj
  {
    match obj
    case Ref(target) => rank(target) < r
    case Node(_, _, _, _, _, properties, items) =>
      && (properties.Properties? ==> AllBelow(properties.list, rank, r))
      && (items.Items? ==> Below(items.obj, rank, r))
  }

  ghost predicate AllBelow(properties: seq<Property>, rank: string -> nat, r: nat)
    decreases properties
  {
    properties != [] ==> Below(properties[0].obj, rank, r) && AllBelow(properties[1..], rank, r)
  }

  ghost predicate Acyclic(schemas: Schemas, rank: string -> nat) {
    forall name | name in schemas :: Below(schemas[name], rank, rank(name))
  }

  // ----- the parser -----

  function Capitalize(name: string): string
    requires name != ""
  {
    [Strings.UpperChar(name[0])] + name[1..]
  }

  predicate StartsWith(s: string, prefix: string) {
    |prefix| <= |s| && s[..|prefix|] == prefix
  }

  function FieldFor(node: Obj, kind: Kind): Field
    requires node.Node?
  {
    Field(kind, node.description.Some? && StartsWith(node.description.value, "Required."), node.description)
  }

  function EnumFor(node: Obj, name: Option<string>, enumDescriptions: Option<seq<string>>): EnumType
    requires node.Node? && node.enumNames.Some? && name != Some("")
  {
    EnumType(if name == None then "Component" else Capitalize(name.value), node.enumNames.value,
             if Given(enumDescriptions) then enumDescriptions else node.enumDescriptions)
  }

  predicate IsShape(node: Obj) {
    && node.Node? && node.enumNames == None && node.typeName == Some("object")
    && !node.additionalProperties && node.properties.Properties?
  }

  predicate IsArray(node: Obj) {
    node.Node? && node.enumNames == None && node.typeName == Some("array") && node.items.Items?
  }

  function Parse(schemas: Schemas, obj: Obj, name: Option<string>, enumDescriptions: Option<seq<string>>,
                 ghost rank: string -> nat, ghost r: nat): Outcome
    requires Acyclic(schemas, rank) && Below(obj, rank, r)
    decreases r, obj
  {
    if obj.Ref? then
      if obj.target !in schemas then Outcome([], None)
      else Parse(schemas, schemas[obj.target], Some(obj.target), None, rank, rank(obj.target))
    else if !Given(name) && obj.typeName == None then Outcome([], None)
    else if obj.enumNames.Some? then
      if name == Some("") then Outcome([], None)
      else
        var enum := EnumFor(obj, name, enumDescriptions);
        Outcome([enum], Some(FieldFor(obj, EnumKind(enum))))
    else if obj.typeName == Some("object") then
      if obj.additionalProperties then Outcome([], Some(FieldFor(obj, Permissive)))
      else if obj.properties.NoProperties? then Outcome([], None)
      else
        var parts := ParseAll(schemas, obj.properties.list, rank, r);
        Outcome(parts.enums, if parts.fields == None then None else Some(FieldFor(obj, Shape(parts.fields.value))))
    else if obj.typeName == Some("array") then
      if obj.items.NoItems? then Outcome([], None)
      else
        var inner := Parse(schemas, obj.items.obj, None, obj.enumDescriptions, rank, r);
        Outcome(inner.enums, if inner.field == None then None else Some(FieldFor(obj, List(inner.field.value))))
    else if obj.typeName.Some? && obj.typeName.value in SCALAR_TYPES then
      Outcome([], Some(FieldFor(obj, Scalar(SCALAR_TYPES[obj.typeName.value]))))
    else Outcome([], None)
  }

  /** The properties in order, up to the first one that raises. */
  function ParseAll(schemas: Schemas, properties: seq<Property>, ghost rank: string -> nat, ghost r: nat): Outcomes
    requires Acyclic(schemas, rank) && AllBelow(properties, rank, r)
    decreases r, properties
  {
    if properties == [] then Outcomes([], Some([]))
    else
      var p := properties[0];
      var first := Parse(schemas, p.obj, Some(p.key), None, rank, r);
      if first.field == None then Outcomes(first.enums, None)
      else
        Prepend(first.enums, [Named(p.key, first.field.value)], ParseAll(schemas, properties[1..], rank, r))
  }

  function Prepend(enums: seq<EnumType>, fields: seq<Named>, rest: Outcomes): (r: Outcomes)
    ensures enums == [] && fields == [] ==> r == rest
  {
    assert [] + rest.enums == rest.enums && (rest.fields.Some? ==> [] + rest.fields.value == rest.fields.value);
    Outcomes(enums + rest.enums, if rest.fields == None then None else Some(fields + rest.fields.value))
  }

  lemma PrependTwice(e1: seq<EnumType>, f1: seq<Named>, e2: seq<EnumType>, f2: seq<Named>, rest: Outcomes)
    ensures Prepend(e1, f1, Prepend(e2, f2, rest)) == Prepend(e1 + e2, f1 + f2, rest)
  {
    assert e1 + (e2 + rest.enums) == e1 + e2 + rest.enums;
    if rest.fields.Some? {
      assert f1 + (f2 + rest.fields.value) == f1 + f2 + rest.fields.value;
    }
  }

  /** The rank is only there for termination: any two ranks give the same outcome. */
  lemma {:induction false} RankIrrelevant(
      schemas: Schemas, obj: Obj, name: Option<string>, descriptions: Option<seq<string>>,
      rank: string -> nat, r: nat, rank': string -> nat, r': nat)
    requires Acyclic(schemas, rank) && Below(obj, rank, r)
    requires Acyclic(schemas, rank') && Below(obj, rank', r')
    ensures Parse(schemas, obj, name, descriptions, rank, r) == Parse(schemas, obj, name, descriptions, rank', r')
    decreases r, obj
  {
    if obj.Ref? {
      if obj.target in schemas {
        RankIrrelevant(schemas, schemas[obj.target], Some(obj.target), None,
                       rank, rank(obj.target), rank', rank'(obj.target));
      }
    } else if IsShape(obj) {
      RankIrrelevantAll(schemas, obj.properties.list, rank, r, rank', r');
    } else if IsArray(obj) {
      RankIrrelevant(schemas, obj.items.obj, None, obj.enumDescriptions, rank, r, rank', r');
    }
  }

  lemma {:induction false} RankIrrelevantAll(
      schemas: Schemas, properties: seq<Property>, rank: string -> nat, r: nat, rank': string -> nat, r': nat)
    requires Acyclic(schemas, rank) && AllBelow(properties, rank, r)
    requires Acyclic(schemas, rank') && AllBelow(properties, rank', r')
    ensures ParseAll(schemas, properties, rank, r) == ParseAll(schemas, properties, rank', r')
    decreases r, properties
  {
    if properties != [] {
      RankIrrelevant(schemas, properties[0].obj, Some(properties[0].key), None, rank, r, rank', r');
      RankIrrelevantAll(schemas, properties[1..], rank, r, rank', r');
    }
  }

  // ----- the schema read path by path, following references -----

  datatype Step = Key(key: string) | Item

  /** A place in the schema: the object there, and the name and descriptions it inherits. */
  datatype Site = Site(node: Obj, name: Option<string>, enumDescriptions: Option<seq<string>>)
  datatype Spot = Nowhere | Dangling | At(site: Site)

  function Walk(schemas: Schemas, obj: Obj, name: Option<string>, enumDescriptions: Option<seq<string>>,
                path: seq<Step>, ghost rank: string -> nat, ghost r: nat): Spot
    requires Acyclic(schemas, rank) && Below(obj, rank, r)
    decreases r, obj
  {
    if obj.Ref? then
      if obj.target !in schemas then Dangling
      else Walk(schemas, schemas[obj.target], Some(obj.target), None, path, rank, rank(obj.target))
    else if path == [] then At(Site(obj, name, enumDescriptions))
    else if path[0].Key? then
      if IsShape(obj) then WalkInto(schemas, obj.properties.list, path[0].key, path[1..], rank, r) else Nowhere
    else
      if IsArray(obj) then Walk(schemas, obj.items.obj, None, obj.enumDescriptions, path[1..], rank, r) else Nowhere
  }

  function WalkInto(schemas: Schemas, properties: seq<Property>, key: string, path: seq<Step>,
                    ghost rank: string -> nat, ghost r: nat): Spot
    requires Acyclic(schemas, rank) && AllBelow(properties, rank, r)
    decreases r, properties
  {
    if properties == [] then Nowhere
    else if properties[0].key == key then Walk(schemas, properties[0].obj, Some(key), None, path, rank, r)
    else WalkInto(schemas, properties[1..], key, path, rank, r)
  }

  function FieldAt(field: Field, path: seq<Step>): Option<Field>
    decreases field
  {
    if path == [] then Some(field)
    else if path[0].Key? then
      if field.kind.Shape? then FieldIn(field.kind.fields, path[0].key, path[1..]) else None
    else
      if field.kind.List? then FieldAt(field.kind.inner, path[1..]) else None
  }

  function FieldIn(fields: seq<Named>, key: string, path: seq<Step>): Option<Field>
    decreases fields
  {
    if fields == [] then None
    else if fields[0].key == key then FieldAt(fields[0].field, path)
    else FieldIn(fields[1..], key, path)
  }

  /** The conditions under which the parser can deal with one object, whatever is nested in it. */
  predicate Parsable(site: Site) {
    && site.node.Node?
    && (Given(site.name) || site.node.typeName.Some?)
    && if site.node.enumNames.Some? then site.name != Some("")
       else match site.node.typeName
            case None => false
            case Some("object") => site.node.additionalProperties || site.node.properties.Properties?
            case Some("array") => site.node.items.Items?
            case Some(typeName) => typeName in {"string", "enumeration", "boolean", "number", "integer"}
  }

  predicate SameKeys(fields: seq<Named>, properties: seq<Property>) {
    |fields| == |properties| && forall i | 0 <= i < |fields| :: fields[i].key == properties[i].key
  }

  lemma {:induction false} ParsedKeys(schemas: Schemas, properties: seq<Property>, rank: string -> nat, r: nat)
    requires Acyclic(schemas, rank) && AllBelow(properties, rank, r)
    requires ParseAll(schemas, properties, rank, r).fields.Some?
    ensures SameKeys(ParseAll(schemas, properties, rank, r).fields.value, properties)
    decreases |properties|
  {
    if properties != [] {
      ParsedKeys(schemas, properties[1..], rank, r);
    }
  }

  /** The enum of an object that lists values: named after the key or schema that leads to it, with a
      capital, and with the descriptions that an array around it gives, or else its own. */
  predicate EnumShown(enum: EnumType, site: Site)
    requires site.node.Node? && site.name != Some("")
  {
    && Some(enum.names) == site.node.enumNames
    && (site.name == None ==> enum.name == "Component")
    && (site.name.Some? ==>
          && enum.name != "" && enum.name[0] == Strings.UpperChar(site.name.value[0])
          && enum.name[1..] == site.name.value[1..])
    && (site.enumDescriptions.Some? && site.enumDescriptions.value != [] ==> enum.descriptions == site.enumDescriptions)
    && (site.enumDescriptions in {None, Some([])} ==> enum.descriptions == site.node.enumDescriptions)
  }

  /** `field` is what one object calls for; its nested fields are reached by longer paths. It is required
      exactly when the description of the object begins with "Required.". */
  predicate Renders(field: Field, site: Site)
    requires Parsable(site)
  {
    && field.description == site.node.description
    && (field.required <==> site.node.description.Some? && "Required." <= site.node.description.value)
    && if site.node.enumNames.Some? then field.kind.EnumKind? && EnumShown(field.kind.enum, site)
       else match site.node.typeName.value
            case "object" =>
              if site.node.additionalProperties then field.kind.Permissive?
              else field.kind.Shape? && SameKeys(field.kind.fields, site.node.properties.list)
            case "array" => field.kind.List?
            case "boolean" => field.kind == Scalar("Bool")
            case "number" => field.kind == Scalar("Int")
            case "integer" => field.kind == Scalar("Int")
            case _ => field.kind == Scalar("String")
  }

  predicate Agrees(field: Option<Field>, spot: Spot) {
    match spot
    case Nowhere => field == None
    case Dangling => false
    case At(site) => Parsable(site) && field.Some? && Renders(field.value, site)
  }

  /** These demands leave no choice. */
  lemma EnumShownIs(enum: EnumType, site: Site)
    requires site.node.Node? && site.node.enumNames.Some? && site.name != Some("")
    ensures EnumShown(enum, site) <==> enum == EnumFor(site.node, site.name, site.enumDescriptions)
  {
    var made := EnumFor(site.node, site.name, site.enumDescriptions);
    if site.name.Some? {
      assert made.name[1..] == site.name.value[1..];
      if EnumShown(enum, site) {
        assert enum.name == [enum.name[0]] + enum.name[1..] == made.name;
      }
    }
  }

  lemma RequiredMeans(node: Obj, kind: Kind)
    requires node.Node?
    ensures FieldFor(node, kind).required <==> node.description.Some? && "Required." <= node.description.value
  {
  }

  /** What an object calls for, apart from the fields nested in it. */
  lemma {:induction false} ObjectRenders(
      schemas: Schemas, obj: Obj, name: Option<string>, descriptions: Option<seq<string>>,
      rank: string -> nat, r: nat)
    requires Acyclic(schemas, rank) && Below(obj, rank, r) && obj.Node?
    requires Parse(schemas, obj, name, descriptions, rank, r).field.Some?
    ensures var site := Site(obj, name, descriptions);
      Parsable(site) && Renders(Parse(schemas, obj, name, descriptions, rank, r).field.value, site)
  {
    if obj.enumNames.Some? {
      EnumShownIs(EnumFor(obj, name, descriptions), Site(obj, name, descriptions));
    } else if IsShape(obj) {
      ParsedKeys(schemas, obj.properties.list, rank, r);
    }
    hide EnumShown, EnumFor, Acyclic, Below, SameKeys, StartsWith;
    RequiredMeans(obj, Parse(schemas, obj, name, descriptions, rank, r).field.value.kind);
  }

  /** The parsed field is the whole schema inlined: at every path it has a field exactly where the
      schema, read with its references followed, has an object, and it is the field for that object. */
  lemma {:induction false} ParseInlines(
      schemas: Schemas, obj: Obj, name: Option<string>, descriptions: Option<seq<string>>, path: seq<Step>,
      rank: string -> nat, r: nat)
    requires Acyclic(schemas, rank) && Below(obj, rank, r)
    requires Parse(schemas, obj, name, descriptions, rank, r).field.Some?
    ensures Agrees(FieldAt(Parse(schemas, obj, name, descriptions, rank, r).field.value, path),
                   Walk(schemas, obj, name, descriptions, path, rank, r))
    decreases r, obj
  {
    hide Renders, Parsable;
    if obj.Ref? {
      ParseInlines(schemas, schemas[obj.target], Some(obj.target), None, path, rank, rank(obj.target));
    } else if path == [] {
      ObjectRenders(schemas, obj, name, descriptions, rank, r);
    } else if path[0].Key? && IsShape(obj) {
      ParseAllInlines(schemas, obj.properties.list, path[0].key, path[1..], rank, r);
    } else if path[0].Item? && IsArray(obj) {
      ParseInlines(schemas, obj.items.obj, None, obj.enumDescriptions, path[1..], rank, r);
    }
  }

  lemma {:induction false} ParseAllInlines(
      schemas: Schemas, properties: seq<Property>, key: string, path: seq<Step>, rank: string -> nat, r: nat)
    requires Acyclic(schemas, rank) && AllBelow(properties, rank, r)
    requires ParseAll(schemas, properties, rank, r).fields.Some?
    ensures Agrees(FieldIn(ParseAll(schemas, properties, rank, r).fields.value, key, path),
                   WalkInto(schemas, properties, key, path, rank, r))
    decreases r, properties
  {
    if properties != [] {
      var fields := ParseAll(schemas, properties, rank, r).fields.value;
      var rest := ParseAll(schemas, properties[1..], rank, r).fields.value;
      assert fields[1..] == rest;
      if properties[0].key == key {
        ParseInlines(schemas, properties[0].obj, Some(key), None, path, rank, r);
      } else {
        ParseAllInlines(schemas, properties[1..], key, path, rank, r);
      }
    }
  }

  predicate Bad(spot: Spot) {
    spot.Dangling? || (spot.At? && !Parsable(spot.site))
  }

  ghost predicate DistinctKeys(properties: seq<Property>) {
    forall i, j | 0 <= i < j < |properties| :: properties[i].key != properties[j].key
  }

  /** Keys of a JSON object are distinct, at every depth. */
  ghost predicate Json(obj: Obj)
    decreases obj, 0
  {
    obj.Node? ==>
      && (obj.properties.Properties? ==> DistinctKeys(obj.properties.list) && AllJson(obj.properties.list))
      && (obj.items.Items? ==> Json(obj.items.obj))
  }

  ghost predicate AllJson(properties: seq<Property>)
    decreases properties
  {
    properties != [] ==> Json(properties[0].obj) && AllJson(properties[1..])
  }

  ghost predicate JsonSchemas(schemas: Schemas) {
    forall name | name in schemas :: Json(schemas[name])
  }

  /** When the parser raises, some path leads to a missing schema or to an object it cannot deal with. */
  lemma {:induction false} FailureHasCause(
      schemas: Schemas, obj: Obj, name: Option<string>, descriptions: Option<seq<string>>,
      rank: string -> nat, r: nat) returns (path: seq<Step>)
    requires Acyclic(schemas, rank) && Below(obj, rank, r)
    requires JsonSchemas(schemas) && Json(obj)
    requires Parse(schemas, obj, name, descriptions, rank, r).field == None
    ensures Bad(Walk(schemas, obj, name, descriptions, path, rank, r))
    decreases r, obj
  {
    path := [];
    if obj.Ref? {
      if obj.target in schemas {
        path := FailureHasCause(schemas, schemas[obj.target], Some(obj.target), None, rank, rank(obj.target));
      }
    } else if Parsable(Site(obj, name, descriptions)) && IsShape(obj) {
      var rest;
      var key;
      key, rest := FailureInside(schemas, obj.properties.list, rank, r);
      path := [Key(key)] + rest;
      assert path[1..] == rest;
    } else if Parsable(Site(obj, name, descriptions)) && IsArray(obj) {
      var rest := FailureHasCause(schemas, obj.items.obj, None, obj.enumDescriptions, rank, r);
      path := [Item] + rest;
      assert path[1..] == rest;
    }
  }

  lemma {:induction false} FailureInside(schemas: Schemas, properties: seq<Property>, rank: string -> nat, r: nat)
      returns (key: string, path: seq<Step>)
    requires Acyclic(schemas, rank) && AllBelow(properties, rank, r)
    requires JsonSchemas(schemas) && DistinctKeys(properties) && AllJson(properties)
    requires ParseAll(schemas, properties, rank, r).fields == None
    ensures Bad(WalkInto(schemas, properties, key, path, rank, r))
    ensures exists p :: p in properties && p.key == key
    decreases r, properties
  {
    var p := properties[0];
    if Parse(schemas, p.obj, Some(p.key), None, rank, r).field == None {
      key := p.key;
      path := FailureHasCause(schemas, p.obj, Some(p.key), None, rank, r);
    } else {
      key, path := FailureInside(schemas, properties[1..], rank, r);
      assert key != p.key by {
        var q :| q in properties[1..] && q.key == key;
        var i :| 1 <= i < |properties| && properties[i] == q;
      }
    }
  }

  /** The parser succeeds if and only if no path through the schema ends at a missing schema or at an
      object of unknown type, or one without the properties, items or name that its type needs. */
  lemma {:induction false} ParseSucceeds(
      schemas: Schemas, obj: Obj, name: Option<string>, descriptions: Option<seq<string>>,
      rank: string -> nat, r: nat)
    requires Acyclic(schemas, rank) && Below(obj, rank, r)
    requires JsonSchemas(schemas) && Json(obj)
    ensures Parse(schemas, obj, name, descriptions, rank, r).field.Some?
       <==> forall path :: !Bad(Walk(schemas, obj, name, descriptions, path, rank, r))
  {
    if Parse(schemas, obj, name, descriptions, rank, r).field.Some? {
      forall path ensures !Bad(Walk(schemas, obj, name, descriptions, path, rank, r)) {
        ParseInlines(schemas, obj, name, descriptions, path, rank, r);
      }
    } else {
      var cause := FailureHasCause(schemas, obj, name, descriptions, rank, r);
      assert exists path :: path == cause && Bad(Walk(schemas, obj, name, descriptions, path, rank, r));
    }
  }

  // ----- enums -----

  /** The enums in a field, in the order in which they were met. */
  function EnumsOf(field: Field): seq<EnumType>
    decreases field
  {
    match field.kind
    case EnumKind(enum) => [enum]
    case List(inner) => EnumsOf(inner)
    case Shape(fields) => EnumsIn(fields)
    case _ => []
  }

  function EnumsIn(fields: seq<Named>): seq<EnumType>
    decreases fields
  {
    if fields == [] then [] else EnumsOf(fields[0].field) + EnumsIn(fields[1..])
  }

  /** The enums recorded are those in the field, no more and no fewer. */
  lemma {:induction false} RecordedEnums(
      schemas: Schemas, obj: Obj, name: Option<string>, descriptions: Option<seq<string>>,
      rank: string -> nat, r: nat)
    requires Acyclic(schemas, rank) && Below(obj, rank, r)
    requires Parse(schemas, obj, name, descriptions, rank, r).field.Some?
    ensures Parse(schemas, obj, name, descriptions, rank, r).enums
         == EnumsOf(Parse(schemas, obj, name, descriptions, rank, r).field.value)
    decreases r, obj
  {
    if obj.Ref? {
      RecordedEnums(schemas, schemas[obj.target], Some(obj.target), None, rank, rank(obj.target));
    } else if IsShape(obj) {
      RecordedEnumsAll(schemas, obj.properties.list, rank, r);
    } else if IsArray(obj) {
      RecordedEnums(schemas, obj.items.obj, None, obj.enumDescriptions, rank, r);
    }
  }

  lemma {:induction false} RecordedEnumsAll(
      schemas: Schemas, properties: seq<Property>, rank: string -> nat, r: nat)
    requires Acyclic(schemas, rank) && AllBelow(properties, rank, r)
    requires ParseAll(schemas, properties, rank, r).fields.Some?
    ensures ParseAll(schemas, properties, rank, r).enums
         == EnumsIn(ParseAll(schemas, properties, rank, r).fields.value)
    decreases r, properties
  {
    if properties != [] {
      var fields := ParseAll(schemas, properties, rank, r).fields.value;
      assert fields[1..] == ParseAll(schemas, properties[1..], rank, r).fields.value;
      RecordedEnums(schemas, properties[0].obj, Some(properties[0].key), None, rank, r);
      RecordedEnumsAll(schemas, properties[1..], rank, r);
    }
  }

  /** `all_enums[name] = enum`, once for each enum. */
  function Recorded(all: map<string, EnumType>, enums: seq<EnumType>): map<string, EnumType>
    decreases |enums|
  {
    if enums == [] then all else Recorded(all[enums[0].name := enums[0]], enums[1..])
  }

  lemma {:induction false} RecordedTwice(all: map<string, EnumType>, a: seq<EnumType>, b: seq<EnumType>)
    ensures Recorded(Recorded(all, a), b) == Recorded(all, a + b)
    decreases |a|
  {
    if a == [] {
      assert a + b == b;
    } else {
      assert (a + b)[1..] == a[1..] + b && (a + b)[0] == a[0];
      RecordedTwice(all[a[0].name := a[0]], a[1..], b);
    }
  }

  function Names(enums: seq<EnumType>): set<string> {
    set enum | enum in enums :: enum.name
  }

  /** Exactly the names of the enums become known, and each name stands for its last enum. */
  lemma {:induction false} RecordedMeans(all: map<string, EnumType>, enums: seq<EnumType>)
    ensures Recorded(all, enums).Keys == all.Keys + Names(enums)
    ensures forall name | name in Recorded(all, enums) && name !in Names(enums) ::
              Recorded(all, enums)[name] == all[name]
    ensures forall name | name in Names(enums) :: Recorded(all, enums)[name] in enums
    decreases |enums|
  {
    if enums != [] {
      RecordedMeans(all[enums[0].name := enums[0]], enums[1..]);
      assert Names(enums) == {enums[0].name} + Names(enums[1..]) by {
        forall enum | enum in enums ensures enum == enums[0] || enum in enums[1..] {}
      }
    }
  }

  ghost predicate EachKnownByName(enums: seq<EnumType>) {
    forall enum | enum in enums ::
      enum.name in Recorded(map[], enums) && Recorded(map[], enums)[enum.name] == enum
  }

  /** In a list of enums each is the one recorded under its name if and only if no two differ and share one. */
  lemma EnumsFaithful(enums: seq<EnumType>)
    ensures EachKnownByName(enums)
       <==> (forall a, b | a in enums && b in enums && a.name == b.name :: a == b)
  {
    var all := Recorded(map[], enums);
    RecordedMeans(map[], enums);
    forall enum | enum in enums ensures enum.name in all && all[enum.name] in enums {
      assert enum.name in Names(enums);
    }
    if forall a, b | a in enums && b in enums && a.name == b.name :: a == b {
      forall enum | enum in enums ensures all[enum.name] == enum {
        RecordedUnderName(map[], enums, enum.name);
      }
    }
  }

  /** A message whose one field `state` lists the given values. */
  function Message(values: seq<string>): Obj {
    var state := Node(Some("string"), None, Some(values), None, false, NoProperties, NoItems);
    Node(Some("object"), None, None, None, false, Properties([Property("state", state)]), NoItems)
  }

  function TwoMessages(first: seq<string>, second: seq<string>): Obj {
    var properties := [Property("a", Message(first)), Property("b", Message(second))];
    Node(Some("object"), None, None, None, false, Properties(properties), NoItems)
  }

  lemma {:induction false} MessageEnum(key: string, values: seq<string>, rank: string -> nat, r: nat)
    requires key != ""
    ensures Below(Message(values), rank, r)
    ensures Parse(map[], Message(values), Some(key), None, rank, r).field.Some?
    ensures Parse(map[], Message(values), Some(key), None, rank, r).enums == [EnumType("State", values, None)]
  {
    var list := Message(values).properties.list;
    assert list[1..] == [];
    assert AllBelow(list[1..], rank, r);
    assert ['S'] + "state"[1..] == "State";
    var state := list[0].obj;
    assert Below(state, rank, r);
    assert Parse(map[], state, Some("state"), None, rank, r).enums == [EnumType("State", values, None)];
    assert ParseAll(map[], list[1..], rank, r) == Outcomes([], Some([]));
  }

  /** What names an enum: the schema that a reference leads to, whatever property holds the reference; else the
      property itself; and inside an array nothing, so that it is called "Component" and takes the
      descriptions that the array has for it. */
  lemma {:induction false} EnumNamedAfter(schemas: Schemas, node: Obj, target: string, key: string, around: Obj,
                       rank: string -> nat, r: nat)
    requires Acyclic(schemas, rank) && node.Node? && node.enumNames.Some? && Below(node, rank, r)
    requires target in schemas && schemas[target] == node && target != "" && rank(target) < r && key != ""
    requires IsArray(around) && around.items.obj == node && Below(around, rank, r)
    ensures forall name, descriptions :: Parse(schemas, Ref(target), name, descriptions, rank, r).enums
                    == [EnumType(Capitalize(target), node.enumNames.value, node.enumDescriptions)]
    ensures Parse(schemas, around, Some(key), None, rank, r).enums
         == (if node.typeName == None then []
             else [EnumType("Component", node.enumNames.value,
                            if Given(around.enumDescriptions) then around.enumDescriptions else node.enumDescriptions)])
    ensures ParseAll(schemas, [Property(key, node)], rank, r).enums
         == [EnumType(Capitalize(key), node.enumNames.value, node.enumDescriptions)]
  {
    assert [Property(key, node)][1..] == [] && AllBelow([], rank, r);
    assert AllBelow([Property(key, node)], rank, r);
    assert ParseAll(schemas, [Property(key, node)][1..], rank, r) == Outcomes([], Some([]));
  }

  /** Two messages may each have a field `state` with its own values: the second enum then takes the
      name, and the first field refers to the wrong values. */
  lemma {:induction false} SameFieldNameClashes(first: seq<string>, second: seq<string>, rank: string -> nat, r: nat)
    requires first != second
    ensures Acyclic(map[], rank) && Below(TwoMessages(first, second), rank, r)
    ensures var outcome := Parse(map[], TwoMessages(first, second), Some("S"), None, rank, r);
      && outcome.field.Some?
      && outcome.enums == [EnumType("State", first, None), EnumType("State", second, None)]
      && Recorded(map[], outcome.enums) == map["State" := EnumType("State", second, None)]
  {
    var list := TwoMessages(first, second).properties.list;
    var rest := list[1..];
    assert rest[1..] == [] && rest[0] == Property("b", Message(second));
    assert AllBelow(rest[1..], rank, r);
    MessageEnum("a", first, rank, r);
    MessageEnum("b", second, rank, r);
    assert AllBelow(rest, rank, r);
    assert ParseAll(map[], rest[1..], rank, r) == Outcomes([], Some([]));
    assert ParseAll(map[], rest, rank, r).enums == [EnumType("State", second, None)];
    var enums := [EnumType("State", first, None), EnumType("State", second, None)];
    var none: map<string, EnumType> := map[];
    assert enums[1..] == [enums[1]] && enums[1..][1..] == [];
    assert Recorded(none["State" := enums[0]], enums[1..]) == none["State" := enums[0]]["State" := enums[1]];
  }

  lemma {:induction false} RecordedUnderName(all: map<string, EnumType>, enums: seq<EnumType>, name: string)
    requires name in Recorded(all, enums)
    requires forall key | key in all :: all[key].name == key
    ensures Recorded(all, enums)[name].name == name
    decreases |enums|
  {
    if enums != [] {
      RecordedUnderName(all[enums[0].name := enums[0]], enums[1..], name);
    }
  }

  /** The enum that the parser makes of the object at a place, if it lists values. */
  function EnumAt(spot: Spot): Option<EnumType> {
    if spot.At? && spot.site.node.Node? && spot.site.node.enumNames.Some? && spot.site.name != Some("")
    then Some(EnumFor(spot.site.node, spot.site.name, spot.site.enumDescriptions))
    else None
  }

  lemma {:induction false} FieldEnumListed(field: Field, path: seq<Step>, enum: EnumType)
    requires FieldAt(field, path).Some? && FieldAt(field, path).value.kind == EnumKind(enum)
    ensures enum in EnumsOf(field)
    decreases field
  {
    if path != [] {
      if path[0].Key? {
        FieldEnumListedIn(field.kind.fields, path[0].key, path[1..], enum);
      } else {
        FieldEnumListed(field.kind.inner, path[1..], enum);
      }
    }
  }

  lemma {:induction false} FieldEnumListedIn(fields: seq<Named>, key: string, path: seq<Step>, enum: EnumType)
    requires FieldIn(fields, key, path).Some? && FieldIn(fields, key, path).value.kind == EnumKind(enum)
    ensures enum in EnumsIn(fields)
    decreases fields
  {
    if fields[0].key == key {
      FieldEnumListed(fields[0].field, path, enum);
    } else {
      FieldEnumListedIn(fields[1..], key, path, enum);
    }
  }

  /** Each recorded enum is that of an object which some path of the schema leads to. */
  lemma {:induction false} EnumHasPath(
      schemas: Schemas, obj: Obj, name: Option<string>, descriptions: Option<seq<string>>,
      rank: string -> nat, r: nat, enum: EnumType) returns (path: seq<Step>)
    requires Acyclic(schemas, rank) && Below(obj, rank, r) && JsonSchemas(schemas) && Json(obj)
    requires Parse(schemas, obj, name, descriptions, rank, r).field.Some?
    requires enum in EnumsOf(Parse(schemas, obj, name, descriptions, rank, r).field.value)
    ensures EnumAt(Walk(schemas, obj, name, descriptions, path, rank, r)) == Some(enum)
    decreases r, obj
  {
    path := [];
    if obj.Ref? {
      path := EnumHasPath(schemas, schemas[obj.target], Some(obj.target), None, rank, rank(obj.target), enum);
    } else if IsShape(obj) {
      var key, rest := EnumInside(schemas, obj.properties.list, rank, r, enum);
      path := [Key(key)] + rest;
      assert path[1..] == rest;
    } else if IsArray(obj) {
      var rest := EnumHasPath(schemas, obj.items.obj, None, obj.enumDescriptions, rank, r, enum);
      path := [Item] + rest;
      assert path[1..] == rest;
    }
  }

  lemma {:induction false} EnumInside(
      schemas: Schemas, properties: seq<Property>, rank: string -> nat, r: nat, enum: EnumType)
    returns (key: string, path: seq<Step>)
    requires Acyclic(schemas, rank) && AllBelow(properties, rank, r)
    requires JsonSchemas(schemas) && DistinctKeys(properties) && AllJson(properties)
    requires ParseAll(schemas, properties, rank, r).fields.Some?
    requires enum in EnumsIn(ParseAll(schemas, properties, rank, r).fields.value)
    ensures EnumAt(WalkInto(schemas, properties, key, path, rank, r)) == Some(enum)
    ensures exists p :: p in properties && p.key == key
    decreases r, properties
  {
    var p := properties[0];
    var fields := ParseAll(schemas, properties, rank, r).fields.value;
    assert fields[1..] == ParseAll(schemas, properties[1..], rank, r).fields.value;
    if enum in EnumsOf(fields[0].field) {
      key := p.key;
      path := EnumHasPath(schemas, p.obj, Some(p.key), None, rank, r, enum);
    } else {
      key, path := EnumInside(schemas, properties[1..], rank, r, enum);
      assert key != p.key by {
        var q :| q in properties[1..] && q.key == key;
        var i :| 1 <= i < |properties| && properties[i] == q;
      }
    }
  }

  /** No two paths of the schema lead to enums that take the same name and differ. */
  ghost predicate EnumsAgree(schemas: Schemas, obj: Obj, name: Option<string>, descriptions: Option<seq<string>>,
                             rank: string -> nat, r: nat)
    requires Acyclic(schemas, rank) && Below(obj, rank, r)
  {
    forall p, q ::
      var a := EnumAt(Walk(schemas, obj, name, descriptions, p, rank, r));
      var b := EnumAt(Walk(schemas, obj, name, descriptions, q, rank, r));
      a.Some? && b.Some? && a.value.name == b.value.name ==> a == b
  }

  lemma {:induction false} EnumOnPath(
      schemas: Schemas, obj: Obj, name: Option<string>, descriptions: Option<seq<string>>,
      rank: string -> nat, r: nat, path: seq<Step>)
    requires Acyclic(schemas, rank) && Below(obj, rank, r)
    requires Parse(schemas, obj, name, descriptions, rank, r).field.Some?
    requires EnumAt(Walk(schemas, obj, name, descriptions, path, rank, r)).Some?
    ensures EnumAt(Walk(schemas, obj, name, descriptions, path, rank, r)).value
         in Parse(schemas, obj, name, descriptions, rank, r).enums
  {
    var field := Parse(schemas, obj, name, descriptions, rank, r).field.value;
    var enum := EnumAt(Walk(schemas, obj, name, descriptions, path, rank, r)).value;
    var site := Walk(schemas, obj, name, descriptions, path, rank, r).site;
    ParseInlines(schemas, obj, name, descriptions, path, rank, r);
    EnumShownIs(FieldAt(field, path).value.kind.enum, site);
    FieldEnumListed(field, path, enum);
    RecordedEnums(schemas, obj, name, descriptions, rank, r);
  }

  /** After parsing, every enum of the field is the one known by its name, so that imports and definitions
      fit the fields, if and only if no two paths of the schema lead to different enums of one name. */
  lemma {:induction false} EnumsKeptIffNoClash(
      schemas: Schemas, obj: Obj, name: Option<string>, descriptions: Option<seq<string>>,
      rank: string -> nat, r: nat)
    requires Acyclic(schemas, rank) && Below(obj, rank, r) && JsonSchemas(schemas) && Json(obj)
    requires Parse(schemas, obj, name, descriptions, rank, r).field.Some?
    ensures EachKnownByName(Parse(schemas, obj, name, descriptions, rank, r).enums)
       <==> EnumsAgree(schemas, obj, name, descriptions, rank, r)
  {
    var enums := Parse(schemas, obj, name, descriptions, rank, r).enums;
    EnumsFaithful(enums);
    RecordedEnums(schemas, obj, name, descriptions, rank, r);
    if EachKnownByName(enums) {
      forall p, q | EnumAt(Walk(schemas, obj, name, descriptions, p, rank, r)).Some?
                    && EnumAt(Walk(schemas, obj, name, descriptions, q, rank, r)).Some?
        ensures EnumAt(Walk(schemas, obj, name, descriptions, p, rank, r)).value in enums
        ensures EnumAt(Walk(schemas, obj, name, descriptions, q, rank, r)).value in enums
      {
        EnumOnPath(schemas, obj, name, descriptions, rank, r, p);
        EnumOnPath(schemas, obj, name, descriptions, rank, r, q);
      }
    }
    if EnumsAgree(schemas, obj, name, descriptions, rank, r) {
      forall a, b | a in enums && b in enums && a.name == b.name ensures a == b {
        var p := EnumHasPath(schemas, obj, name, descriptions, rank, r, a);
        var q := EnumHasPath(schemas, obj, name, descriptions, rank, r, b);
      }
    }
  }

  // ----- printing -----

  datatype Token =
    | FieldOpen | FieldClose(required: bool, description: Option<string>)
    | Text(text: string) | EnumName(name: string)
    | ListOpen | ListClose | ShapeOpen | ShapeClose | KeyOf(key: string)

  const OUTPUT_ONLY := "Output only"

  predicate Contains(s: string, part: string) {
    StartsWith(s, part) || (s != "" && Contains(s[1..], part))
  }

  /** Fields that only occur in responses. */
  predicate Hidden(field: Field) {
    field.description.Some? && Contains(field.description.value, OUTPUT_ONLY)
  }

  /** The end of a field; an empty description is not printed. */
  function Closing(field: Field): Token {
    FieldClose(field.required, if Given(field.description) then field.description else None)
  }

  /** A list prints its item without the `Field(...)` around it. */
  function Write(field: Field, wrapped: bool): Option<seq<Token>>
    decreases field, 1
  {
    match WriteKind(field.kind)
    case None => None
    case Some(tokens) => Some(if wrapped then [FieldOpen] + tokens + [Closing(field)] else tokens)
  }

  function WriteKind(kind: Kind): Option<seq<Token>>
    decreases kind, 0
  {
    match kind
    case Scalar(text) => Some([Text(text)])
    case Permissive => Some([Text("Permissive()")])
    case EnumKind(enum) => Some([EnumName(enum.name)])
    case List(inner) =>
      (match Write(inner, false)
       case None => None
       case Some(tokens) => Some([ListOpen] + tokens + [ListClose]))
    case Shape(fields) =>
      match WriteFields(fields)
      case None => None
      case Some(tokens) => Some([ShapeOpen] + tokens + [ShapeClose])
  }

  /** Hidden fields are skipped. A field without a description makes the test for them raise. */
  function WriteFields(fields: seq<Named>): Option<seq<Token>>
    decreases fields, 0
  {
    if fields == [] then Some([])
    else if fields[0].field.description == None then None
    else if Hidden(fields[0].field) then WriteFields(fields[1..])
    else
      match Write(fields[0].field, true)
      case None => None
      case Some(tokens) => Extend([KeyOf(fields[0].key)] + tokens, WriteFields(fields[1..]))
  }

  // ----- reading the printed configuration -----

  /** What a printed configuration says. */
  datatype Shown =
    | ShownText(text: string) | ShownEnum(name: string) | ShownList(inner: Shown) | ShownShape(entries: seq<ShownEntry>)
  datatype ShownEntry = ShownEntry(key: string, required: bool, description: Option<string>, shown: Shown)

  function Show(kind: Kind): Shown
    decreases kind
  {
    match kind
    case Scalar(text) => ShownText(text)
    case Permissive => ShownText("Permissive()")
    case EnumKind(enum) => ShownEnum(enum.name)
    case List(inner) => ShownList(Show(inner.kind))
    case Shape(fields) => ShownShape(ShowFields(fields))
  }

  /** All fields but the hidden ones, in order. */
  function ShowFields(fields: seq<Named>): seq<ShownEntry>
    decreases fields
  {
    if fields == [] then []
    else if Hidden(fields[0].field) then ShowFields(fields[1..])
    else
      var (key, field) := (fields[0].key, fields[0].field);
      [Entry(key, field)] + ShowFields(fields[1..])
  }

  /** A printed field: its key, whether it is required, its description unless that is empty, and its kind. */
  function Entry(key: string, field: Field): ShownEntry
    decreases field, 0
  {
    ShownEntry(key, field.required, if field.description == Some("") then None else field.description, Show(field.kind))
  }

  /** A description that says so, anywhere in it, hides its field. */
  lemma {:induction false} ContainsMeans(s: string, part: string)
    ensures Contains(s, part) <==> exists i {:trigger s[i..]} :: 0 <= i <= |s| && part <= s[i..]
  {
    if s != "" {
      ContainsMeans(s[1..], part);
      if i :| 0 <= i <= |s[1..]| && part <= s[1..][i..] {
        assert s[i + 1..] == s[1..][i..];
      }
      if i :| 0 < i <= |s| && part <= s[i..] {
        assert s[1..][i - 1..] == s[i..];
      }
    }
    assert s[0..] == s;
  }

  lemma HiddenMeans(field: Field)
    ensures Hidden(field) <==>
      (field.description.Some?
       && exists i {:trigger field.description.value[i..]} ::
            0 <= i <= |field.description.value| && "Output only" <= field.description.value[i..])
  {
    if field.description.Some? {
      ContainsMeans(field.description.value, OUTPUT_ONLY);
    }
  }

  /** The entries are those of the fields that are not hidden, each as often as its field comes. */
  lemma {:induction false} ShowFieldsMeans(fields: seq<Named>, e: ShownEntry)
    ensures e in ShowFields(fields) <==> exists n :: n in fields && !Hidden(n.field) && e == Entry(n.key, n.field)
  {
    if fields != [] {
      hide Hidden, Entry;
      ShowFieldsMeans(fields[1..], e);
      assert fields == [fields[0]] + fields[1..];
    }
  }

  lemma ShowNone()
    ensures ShowFields([]) == []
  {
  }

  lemma {:induction false} ShowFirst(first: Named, rest: seq<Named>)
    ensures ShowFields([first] + rest)
         == (if Hidden(first.field) then [] else [Entry(first.key, first.field)]) + ShowFields(rest)
  {
    assert ([first] + rest)[1..] == rest;
  }

  lemma {:induction false} ShowFieldsInOrder(a: seq<Named>, b: seq<Named>)
    ensures ShowFields(a + b) == ShowFields(a) + ShowFields(b)
    decreases |a|
  {
    hide Hidden, Entry, ShowFields;
    ShowNone();
    if a == [] {
      assert a + b == b;
    } else {
      ShowFieldsInOrder(a[1..], b);
      ShowFirst(a[0], a[1..]);
      ShowFirst(a[0], a[1..] + b);
      assert a == [a[0]] + a[1..] && a + b == [a[0]] + (a[1..] + b);
    }
  }

  function ReadKind(ts: seq<Token>): (r: Option<(Shown, seq<Token>)>)
    ensures r.Some? ==> |r.value.1| < |ts|
    decreases |ts|
  {
    if ts == [] then None
    else match ts[0]
         case Text(text) => Some((ShownText(text), ts[1..]))
         case EnumName(name) => Some((ShownEnum(name), ts[1..]))
         case ListOpen =>
           (match ReadKind(ts[1..])
            case None => None
            case Some((inner, rest)) =>
              if rest != [] && rest[0] == ListClose then Some((ShownList(inner), rest[1..])) else None)
         case ShapeOpen =>
           (match ReadEntries(ts[1..])
            case None => None
            case Some((entries, rest)) => Some((ShownShape(entries), rest)))
         case _ => None
  }

  /** Entries up to the end of the shape. */
  function ReadEntries(ts: seq<Token>): (r: Option<(seq<ShownEntry>, seq<Token>)>)
    ensures r.Some? ==> |r.value.1| < |ts|
    decreases |ts|
  {
    if ts == [] then None
    else if ts[0] == ShapeClose then Some(([], ts[1..]))
    else if ts[0].KeyOf? then
      match ReadField(ts[1..])
      case None => None
      case Some((shown, closing, rest)) =>
        match ReadEntries(rest)
        case None => None
        case Some((entries, end)) =>
          Some(([ShownEntry(ts[0].key, closing.required, closing.description, shown)] + entries, end))
    else None
  }

  function ReadField(ts: seq<Token>): (r: Option<(Shown, Token, seq<Token>)>)
    ensures r.Some? ==> r.value.1.FieldClose? && |r.value.2| < |ts|
    decreases |ts|
  {
    if ts == [] || ts[0] != FieldOpen then None
    else
      match ReadKind(ts[1..])
      case None => None
      case Some((shown, rest)) =>
        if rest != [] && rest[0].FieldClose? then Some((shown, rest[0], rest[1..])) else None
  }

  /** The printed configuration reads back as the field without its hidden parts, with nothing left over. */
  lemma {:induction false} KindReadsBack(kind: Kind, rest: seq<Token>)
    requires WriteKind(kind).Some?
    ensures ReadKind(WriteKind(kind).value + rest) == Some((Show(kind), rest))
    decreases kind, 0
  {
    match kind
    case List(inner) =>
      var tokens := Write(inner, false).value;
      KindReadsBack(inner.kind, [ListClose] + rest);
      assert ([ListOpen] + tokens + [ListClose] + rest)[1..] == tokens + ([ListClose] + rest);
      assert ([ListClose] + rest)[1..] == rest;
    case Shape(fields) =>
      var tokens := WriteFields(fields).value;
      FieldsReadBack(fields, rest);
      assert ([ShapeOpen] + tokens + [ShapeClose] + rest)[1..] == tokens + ([ShapeClose] + rest);
    case _ =>
      assert (WriteKind(kind).value + rest)[1..] == rest;
  }

  lemma {:induction false} FieldReadsBack(field: Field, rest: seq<Token>)
    requires Write(field, true).Some?
    ensures ReadField(Write(field, true).value + rest)
         == Some((Show(field.kind),
                  FieldClose(field.required, if field.description == Some("") then None else field.description), rest))
    decreases field, 1
  {
    var tokens := WriteKind(field.kind).value;
    var after := [Closing(field)] + rest;
    KindReadsBack(field.kind, after);
    assert ([FieldOpen] + tokens + [Closing(field)] + rest)[1..] == tokens + after;
    assert after[1..] == rest;
  }

  lemma {:induction false} FieldsReadBack(fields: seq<Named>, rest: seq<Token>)
    requires WriteFields(fields).Some?
    ensures ReadEntries(WriteFields(fields).value + ([ShapeClose] + rest)) == Some((ShowFields(fields), rest))
    decreases fields, 0
  {
    var end := [ShapeClose] + rest;
    if fields == [] {
      assert WriteFields(fields).value + end == end;
      assert end[1..] == rest;
    } else if Hidden(fields[0].field) {
      FieldsReadBack(fields[1..], rest);
    } else {
      var more := WriteFields(fields[1..]).value;
      var tokens := Write(fields[0].field, true).value;
      FieldsReadBack(fields[1..], rest);
      FieldReadsBack(fields[0].field, more + end);
      ReadOneEntry(fields[0], tokens, more, end, ShowFields(fields[1..]), rest);
    }
  }

  lemma {:induction false} ReadOneEntry(named: Named, tokens: seq<Token>, more: seq<Token>, end: seq<Token>,
                     entries: seq<ShownEntry>, rest: seq<Token>)
    requires ReadField(tokens + (more + end)) == Some((Show(named.field.kind), Closing(named.field), more + end))
    requires ReadEntries(more + end) == Some((entries, rest))
    ensures
      ReadEntries([KeyOf(named.key)] + tokens + more + end) == Some(([Entry(named.key, named.field)] + entries, rest))
  {
    var all := [KeyOf(named.key)] + tokens + more + end;
    assert all == [KeyOf(named.key)] + (tokens + (more + end));
    assert all[1..] == tokens + (more + end);
  }

  /** Every field of a mapping that is not hidden inside another one has a description. */
  predicate AllDescribed(kind: Kind)
    decreases kind
  {
    match kind
    case List(inner) => AllDescribed(inner.kind)
    case Shape(fields) => FieldsDescribed(fields)
    case _ => true
  }

  predicate FieldsDescribed(fields: seq<Named>)
    decreases fields
  {
    fields != [] ==>
      && fields[0].field.description.Some?
      && (Hidden(fields[0].field) || AllDescribed(fields[0].field.kind))
      && FieldsDescribed(fields[1..])
  }

  /** Printing raises if and only if some field that it looks at has no description. */
  lemma {:induction false} PrintedIffDescribed(kind: Kind)
    ensures WriteKind(kind).Some? <==> AllDescribed(kind)
    decreases kind
  {
    match kind
    case List(inner) => PrintedIffDescribed(inner.kind);
    case Shape(fields) => FieldsPrintedIffDescribed(fields);
    case _ =>
  }

  lemma {:induction false} FieldsPrintedIffDescribed(fields: seq<Named>)
    ensures WriteFields(fields).Some? <==> FieldsDescribed(fields)
    decreases fields
  {
    if fields != [] {
      FieldsPrintedIffDescribed(fields[1..]);
      PrintedIffDescribed(fields[0].field.kind);
    }
  }

  ghost predicate NamesWithin(tokens: seq<Token>, names: set<string>) {
    forall token | token in tokens && token.EnumName? :: token.name in names
  }

  /** Every enum name printed belongs to an enum of the field. */
  lemma {:induction false} PrintedEnums(field: Field, wrapped: bool)
    requires Write(field, wrapped).Some?
    ensures NamesWithin(Write(field, wrapped).value, Names(EnumsOf(field)))
    decreases field, 1
  {
    match field.kind
    case List(inner) => PrintedEnums(inner, false);
    case Shape(fields) => PrintedEnumsIn(fields);
    case _ =>
  }

  lemma {:induction false} PrintedEnumsIn(fields: seq<Named>)
    requires WriteFields(fields).Some?
    ensures NamesWithin(WriteFields(fields).value, Names(EnumsIn(fields)))
    decreases fields, 0
  {
    if fields != [] {
      PrintedEnumsIn(fields[1..]);
      if !Hidden(fields[0].field) {
        PrintedEnums(fields[0].field, true);
      }
    }
  }

  // ----- the same as code -----

  /** `Field.write`, which appends to a printer. */
  method PrintField(field: Field, wrapped: bool) returns (printed: Option<seq<Token>>)
    ensures printed == Write(field, wrapped)
    decreases field, 1
  {
    var tokens := PrintKind(field.kind);
    if tokens == None || !wrapped {
      return tokens;
    }
    var description := if Given(field.description) then field.description else None;
    return Some([FieldOpen] + tokens.value + [FieldClose(field.required, description)]);
  }

  method PrintKind(kind: Kind) returns (printed: Option<seq<Token>>)
    ensures printed == WriteKind(kind)
    decreases kind, 0
  {
    match kind {
      case Scalar(text) => return Some([Text(text)]);
      case Permissive => return Some([Text("Permissive()")]);
      case EnumKind(enum) => return Some([EnumName(enum.name)]);
      case List(inner) =>
        printed := PrintField(inner, false);
        return if printed == None then None else Some([ListOpen] + printed.value + [ListClose]);
      case Shape(fields) =>
        var tokens: seq<Token> := [];
        assert fields[0..] == fields;
        for i := 0 to |fields|
          invariant WriteFields(fields) == Extend(tokens, WriteFields(fields[i..]))
        {
          assert fields[i..][1..] == fields[i + 1..];
          if fields[i].field.description == None {
            return None;
          }
          if Contains(fields[i].field.description.value, OUTPUT_ONLY) {
            continue;
          }
          var one := PrintField(fields[i].field, true);
          if one == None {
            return None;
          }
          ExtendTwice(tokens, [KeyOf(fields[i].key)] + one.value, WriteFields(fields[i + 1..]));
          tokens := tokens + ([KeyOf(fields[i].key)] + one.value);
        }
        return Some([ShapeOpen] + tokens + [ShapeClose]);
    }
  }

  class ConfigParser {
    const schemas: Schemas
    var allEnums: map<string, EnumType>

    constructor (schemas: Schemas)
      ensures this.schemas == schemas && allEnums == map[]
    {
      this.schemas := schemas;
      allEnums := map[];
    }

    method ParseObject(obj: Obj, name: Option<string>, enumDescriptions: Option<seq<string>>,
                       ghost rank: string -> nat, ghost r: nat) returns (field: Option<Field>)
      requires Acyclic(schemas, rank) && Below(obj, rank, r)
      modifies this`allEnums
      ensures field == Parse(schemas, obj, name, enumDescriptions, rank, r).field
      ensures allEnums == Recorded(old(allEnums), Parse(schemas, obj, name, enumDescriptions, rank, r).enums)
      decreases r, obj
    {
      if obj.Ref? {
        if obj.target !in schemas {
          return None;
        }
        field := ParseObject(schemas[obj.target], Some(obj.target), None, rank, rank(obj.target));
        return;
      }
      if !Given(name) && obj.typeName == None {
        return None;
      }
      if obj.enumNames.Some? {
        if name == Some("") {
          return None;
        }
        var enum := EnumFor(obj, name, enumDescriptions);
        allEnums := allEnums[enum.name := enum];
        return Some(FieldFor(obj, EnumKind(enum)));
      }
      if obj.typeName == Some("object") {
        if obj.additionalProperties {
          return Some(FieldFor(obj, Permissive));
        }
        if obj.properties.NoProperties? {
          return None;
        }
        var fields := ParseProperties(obj.properties.list, rank, r);
        return if fields == None then None else Some(FieldFor(obj, Shape(fields.value)));
      }
      if obj.typeName == Some("array") {
        if obj.items.NoItems? {
          return None;
        }
        var inner := ParseObject(obj.items.obj, None, obj.enumDescriptions, rank, r);
        return if inner == None then None else Some(FieldFor(obj, List(inner.value)));
      }
      if obj.typeName.Some? && obj.typeName.value in SCALAR_TYPES {
        return Some(FieldFor(obj, Scalar(SCALAR_TYPES[obj.typeName.value])));
      }
      return None;
    }

    method ParseProperties(properties: seq<Property>, ghost rank: string -> nat, ghost r: nat)
      returns (fields: Option<seq<Named>>)
      requires Acyclic(schemas, rank) && AllBelow(properties, rank, r)
      modifies this`allEnums
      ensures fields == ParseAll(schemas, properties, rank, r).fields
      ensures allEnums == Recorded(old(allEnums), ParseAll(schemas, properties, rank, r).enums)
      decreases r, properties
    {
      var parsed: seq<Named> := [];
      ghost var enums: seq<EnumType> := [];
      assert properties[0..] == properties;
      for i := 0 to |properties|
        invariant AllBelow(properties[i..], rank, r)
        invariant ParseAll(schemas, properties, rank, r)
               == Prepend(enums, parsed, ParseAll(schemas, properties[i..], rank, r))
        invariant allEnums == Recorded(old(allEnums), enums)
      {
        assert properties[i..][1..] == properties[i + 1..];
        var p := properties[i];
        ghost var outcome := Parse(schemas, p.obj, Some(p.key), None, rank, r);
        var field := ParseObject(p.obj, Some(p.key), None, rank, r);
        RecordedTwice(old(allEnums), enums, outcome.enums);
        if field == None {
          return None;
        }
        PrependTwice(enums, parsed, outcome.enums, [Named(p.key, field.value)],
                     ParseAll(schemas, properties[i + 1..], rank, r));
        enums := enums + outcome.enums;
        parsed := parsed + [Named(p.key, field.value)];
      }
      assert enums + [] == enums && parsed + [] == parsed;
      return Some(parsed);
    }

    /** The printed configuration of one schema, with the enum names it imports; the enum definitions
        are left in `allEnums`. */
    method ExtractSchemaForObject(objectName: string, ghost rank: string -> nat)
      returns (printed: Option<seq<Token>>, imported: set<string>)
      requires Acyclic(schemas, rank)
      modifies this`allEnums
      ensures objectName !in schemas ==> printed == None && allEnums == map[]
      ensures objectName in schemas ==>
        var outcome := Parse(schemas, schemas[objectName], Some(objectName), None, rank, rank(objectName));
        && allEnums == Recorded(map[], outcome.enums)
        && printed == (if outcome.field == None then None else Write(outcome.field.value, true))
      ensures imported == allEnums.Keys
      ensures printed.Some? ==> NamesWithin(printed.value, imported)
      ensures printed.Some? ==>
        var field := Parse(schemas, schemas[objectName], Some(objectName), None, rank, rank(objectName)).field;
        field.Some? && ReadField(printed.value) == Some((Show(field.value.kind), Closing(field.value), []))
    {
      allEnums := map[];
      printed, imported := None, {};
      if objectName in schemas {
        var field := ParseObject(schemas[objectName], Some(objectName), None, rank, rank(objectName));
        imported := allEnums.Keys;
        if field.Some? {
          printed := PrintField(field.value, true);
          if printed.Some? {
            FieldReadsBack(field.value, []);
            assert printed.value + [] == printed.value;
            PrintedEnums(field.value, true);
            RecordedEnums(schemas, schemas[objectName], Some(objectName), None, rank, rank(objectName));
            RecordedMeans(map[], EnumsOf(field.value));
          }
        }
      }
    }
  }
}
