/** `get_class_definitions`: a connector schema becomes a map from class names to the fields of the
    classes, and the fields refer to further classes by name. */
module AirbyteClasses {
  import opened Text
  import opened Wrappers

  /** A JSON schema of an object; `optionTitle` is the constant of its `option_title` property. */
  datatype Schema = Schema(
    title: Option<string>, description: Option<string>, optionTitle: Option<string>,
    required: set<string>, properties: Properties)

  /** The code raises `KeyError` when an object schema has no properties entry. */
  datatype Properties = Missing | Listed(list: seq<Property>)
  datatype Property = Property(name: string, field: Field)

  datatype Field =
    | OneOf(subs: seq<Schema>)
    | Object(schema: Schema)
    | TypeList(types: seq<string>)
    | ArrayOf(itemType: string)
    | ArrayOfObjects(items: Schema, fieldTitle: Option<string>)
    | Plain(typeName: string, constant: Option<string>)

  datatype SchemaType =
    | Raw(typeName: string, constant: Option<string>)
    | ListType(inner: SchemaType)
    | OptType(inner: SchemaType)
    | UnionType(members: seq<SchemaType>)

  type Fields = map<string, SchemaType>
  type Classes = map<string, Fields>

  /** What one step contributes: classes, and the fields or type members that go with them. */
  datatype Body = Body(classes: Classes, fields: Fields)
  datatype Typed = Typed(classes: Classes, schemaType: SchemaType)
  datatype Members = Members(classes: Classes, types: seq<SchemaType>)

  const SCALARS := {"str", "int", "float", "bool"}

  function MapType(typeName: string): string {
    match typeName
    case "string" => "str"
    case "integer" => "int"
    case "number" => "float"
    case "boolean" => "bool"
    case _ => typeName
  }

  // ----- names, for ASCII text -----

  predicate IsLower(c: char) {
    'a' <= c <= 'z'
  }

  predicate IsAlnum(c: char) {
    IsLower(c) || 'A' <= c <= 'Z' || '0' <= c <= '9'
  }

  /** A property name with `_` for every character that is not a letter or a digit. */
  function FieldName(name: string): string {
    if name == "" then "" else [if IsAlnum(name[0]) then name[0] else '_'] + FieldName(name[1..])
  }

  /** The runs of word characters, each capitalized, one after the other. */
  function Capitalized(title: string, atStart: bool): (r: string)
    ensures atStart && r != "" ==> !IsLower(r[0])
  {
    if title == "" then ""
    else if !IsAlnum(title[0]) && title[0] != '_' then Capitalized(title[1..], true)
    else [if atStart then UpperChar(title[0]) else title[0]] + Capitalized(title[1..], false)
  }

  const KEYWORDS := {"None", "Any", "Union", "List", "Dict", "Optional", "T"}

  /** A class name is never one of the words that a raw type maps to a scalar, nor a scalar. */
  function ClassName(title: string): (r: string)
    ensures MapType(r) == r && r !in SCALARS
  {
    var name := Capitalized(title, true);
    var r := if name in KEYWORDS then name + "_" else name;
    NotATypeWord(r);
    r
  }

  lemma NotATypeWord(r: string)
    requires r != "" ==> !IsLower(r[0])
    ensures MapType(r) == r && r !in SCALARS
  {
    assert "str"[0] == 's' && "int"[0] == 'i' && "float"[0] == 'f' && "bool"[0] == 'b';
    assert "string"[0] == 's' && "integer"[0] == 'i' && "number"[0] == 'n' && "boolean"[0] == 'b';
  }

  // ----- types -----

  function RawType(typeName: string, constant: Option<string>): SchemaType {
    Raw(MapType(typeName), constant)
  }

  function UnionOrSingular(members: seq<SchemaType>): SchemaType {
    if |members| == 1 then members[0] else UnionType(members)
  }

  function OptUnless(required: bool, t: SchemaType): SchemaType {
    if required then t else OptType(t)
  }

  /** Python's `a or b` on strings that may be missing. */
  function Or(a: Option<string>, b: Option<string>): Option<string> {
    if a == None || a == Some("") then b else a
  }

  function ObjectTitle(schema: Schema): Option<string> {
    Or(schema.title, schema.description)
  }

  function OptionTitle(schema: Schema): Option<string> {
    Or(schema.optionTitle, schema.title)
  }

  function ItemTitle(items: Schema, fieldTitle: Option<string>): Option<string> {
    Or(ObjectTitle(items), Some((if fieldTitle == None then "None" else fieldTitle.value) + "Entry"))
  }

  // ----- the class map; None stands for an exception -----

  function Define(name: string, schema: Schema): Option<Classes>
    decreases schema, 1
  {
    match schema.properties
    case Missing => None
    case Listed(list) =>
      match Collect(schema.required, list)
      case None => None
      case Some(body) => Some(body.classes[name := body.fields])
  }

  /** `body` and then the rest, which overrides it. */
  function Then(body: Body, rest: Option<Body>): (r: Option<Body>)
    ensures body == Body(map[], map[]) ==> r == rest
  {
    match rest
    case None => None
    case Some(more) =>
      assert map[] + more.classes == more.classes && map[] + more.fields == more.fields;
      Some(Body(body.classes + more.classes, body.fields + more.fields))
  }

  function Collect(required: set<string>, properties: seq<Property>): Option<Body>
    decreases properties, 0
  {
    if properties == [] then Some(Body(map[], map[]))
    else if properties[0].name == "option_title" then Collect(required, properties[1..])
    else
      var fieldName := FieldName(properties[0].name);
      match FieldType(fieldName in required, properties[0].field)
      case None => None
      case Some(typed) =>
        Then(Body(typed.classes, map[fieldName := typed.schemaType]), Collect(required, properties[1..]))
  }

  function FieldType(required: bool, field: Field): Option<Typed>
    decreases field, 1
  {
    match field
    case OneOf(subs) =>
      (match Options(subs)
       case None => None
       case Some(m) => Some(Typed(m.classes, UnionOrSingular(m.types))))
    case Object(schema) => Nested(ObjectTitle(schema), schema)
    case TypeList(types) =>
      var union := UnionOrSingular(ListedTypes(types));
      Some(Typed(map[], if "null" in types then OptType(union) else union))
    case ArrayOf(itemType) => Some(Typed(map[], OptUnless(required, ListType(RawType(itemType, None)))))
    case ArrayOfObjects(items, fieldTitle) =>
      (match Nested(ItemTitle(items, fieldTitle), items)
       case None => None
       case Some(typed) => Some(typed.(schemaType := OptUnless(required, ListType(typed.schemaType)))))
    case Plain(typeName, constant) => Some(Typed(map[], OptUnless(required, RawType(typeName, constant))))
  }

  function ListedTypes(types: seq<string>): seq<SchemaType> {
    if types == [] then []
    else if types[0] == "null" then ListedTypes(types[1..])
    else [RawType(types[0], None)] + ListedTypes(types[1..])
  }

  function Nested(title: Option<string>, schema: Schema): Option<Typed>
    decreases schema, 2
  {
    match title
    case None => None
    case Some(text) =>
      match Define(ClassName(text), schema)
      case None => None
      case Some(classes) => Some(Typed(classes, RawType(ClassName(text), None)))
  }

  function ThenMembers(first: Members, rest: Option<Members>): (r: Option<Members>)
    ensures first == Members(map[], []) ==> r == rest
  {
    match rest
    case None => None
    case Some(more) =>
      assert map[] + more.classes == more.classes && [] + more.types == more.types;
      Some(Members(first.classes + more.classes, first.types + more.types))
  }

  function Options(subs: seq<Schema>): Option<Members>
    decreases subs, 0
  {
    if subs == [] then Some(Members(map[], []))
    else
      match Nested(OptionTitle(subs[0]), subs[0])
      case None => None
      case Some(typed) => ThenMembers(Members(typed.classes, [typed.schemaType]), Options(subs[1..]))
  }

  // ----- the same as code -----

  lemma ThenTwice(a: Body, b: Body, rest: Option<Body>)
    ensures Then(a, Then(b, rest)) == Then(Body(a.classes + b.classes, a.fields + b.fields), rest)
  {
    if rest.Some? {
      assert a.classes + (b.classes + rest.value.classes) == a.classes + b.classes + rest.value.classes;
      assert a.fields + (b.fields + rest.value.fields) == a.fields + b.fields + rest.value.fields;
    }
  }

  lemma ThenMembersTwice(a: Members, b: Members, rest: Option<Members>)
    ensures ThenMembers(a, ThenMembers(b, rest))
         == ThenMembers(Members(a.classes + b.classes, a.types + b.types), rest)
  {
    if rest.Some? {
      assert a.classes + (b.classes + rest.value.classes) == a.classes + b.classes + rest.value.classes;
      assert a.types + (b.types + rest.value.types) == a.types + b.types + rest.value.types;
    }
  }

  method GetClassDefinitions(name: string, schema: Schema) returns (r: Option<Classes>)
    ensures r == Define(name, schema)
    decreases schema, 1
  {
    if schema.properties.Missing? {
      return None;
    }
    var properties := schema.properties.list;
    var classes: Classes := map[];
    var fields: Fields := map[];
    for i := 0 to |properties|
      invariant Collect(schema.required, properties)
             == Then(Body(classes, fields), Collect(schema.required, properties[i..]))
    {
      assert properties[i..][1..] == properties[i + 1..];
      if properties[i].name != "option_title" {
        var fieldName := FieldName(properties[i].name);
        var typed := GetFieldType(fieldName in schema.required, properties[i].field);
        if typed == None {
          return None;
        }
        ThenTwice(Body(classes, fields), Body(typed.value.classes, map[fieldName := typed.value.schemaType]),
                  Collect(schema.required, properties[i + 1..]));
        assert fields + map[fieldName := typed.value.schemaType] == fields[fieldName := typed.value.schemaType];
        classes := classes + typed.value.classes;
        fields := fields[fieldName := typed.value.schemaType];
      }
    }
    assert classes + map[] == classes && fields + map[] == fields;
    return Some(classes[name := fields]);
  }

  method GetFieldType(required: bool, field: Field) returns (r: Option<Typed>)
    ensures r == FieldType(required, field)
    decreases field, 1
  {
    var classes: Classes := map[];
    var t: SchemaType;
    match field {
      case OneOf(subs) =>
        var members := GetOptions(subs);
        if members == None {
          return None;
        }
        return Some(Typed(members.value.classes, UnionOrSingular(members.value.types)));
      case Object(schema) =>
        r := GetNested(ObjectTitle(schema), schema);
        return;
      case TypeList(types) =>
        t := GetListed(types);
        if "null" in types {
          t := OptType(t);
        }
        return Some(Typed(classes, t));
      case ArrayOfObjects(items, fieldTitle) =>
        var typed := GetNested(ItemTitle(items, fieldTitle), items);
        if typed == None {
          return None;
        }
        classes, t := typed.value.classes, ListType(typed.value.schemaType);
      case ArrayOf(itemType) => t := ListType(RawType(itemType, None));
      case Plain(typeName, constant) => t := RawType(typeName, constant);
    }
    if !required {
      t := OptType(t);
    }
    return Some(Typed(classes, t));
  }

  /** The union of the listed types, without `null`. */
  method GetListed(types: seq<string>) returns (t: SchemaType)
    ensures t == UnionOrSingular(ListedTypes(types))
  {
    var listed: seq<SchemaType> := [];
    assert types[0..] == types;
    for i := 0 to |types|
      invariant ListedTypes(types) == listed + ListedTypes(types[i..])
    {
      assert types[i..][1..] == types[i + 1..];
      if types[i] != "null" {
        listed := listed + [RawType(types[i], None)];
      }
    }
    return if |listed| == 1 then listed[0] else UnionType(listed);
  }

  method GetOptions(subs: seq<Schema>) returns (r: Option<Members>)
    ensures r == Options(subs)
    decreases subs, 0
  {
    var classes: Classes := map[];
    var types: seq<SchemaType> := [];
    for i := 0 to |subs|
      invariant Options(subs) == ThenMembers(Members(classes, types), Options(subs[i..]))
    {
      assert subs[i..][1..] == subs[i + 1..];
      var typed := GetNested(OptionTitle(subs[i]), subs[i]);
      if typed == None {
        return None;
      }
      ThenMembersTwice(Members(classes, types), Members(typed.value.classes, [typed.value.schemaType]),
                       Options(subs[i + 1..]));
      classes := classes + typed.value.classes;
      types := types + [typed.value.schemaType];
    }
    assert classes + map[] == classes && types + [] == types;
    return Some(Members(classes, types));
  }

  method GetNested(title: Option<string>, schema: Schema) returns (r: Option<Typed>)
    ensures r == Nested(title, schema)
    decreases schema, 2
  {
    if title == None {
      return None;
    }
    var classes := GetClassDefinitions(ClassName(title.value), schema);
    return if classes == None then None else Some(Typed(classes.value, RawType(ClassName(title.value), None)));
  }

  // ----- what a schema needs, names and mentions -----

  /** Every nested object schema has a title to name its class by, and properties. */
  predicate Described(schema: Schema)
    decreases schema, 1
  {
    schema.properties.Listed? && DescribedAll(schema.properties.list)
  }

  predicate DescribedAll(properties: seq<Property>)
    decreases properties, 0
  {
    properties != [] ==>
      && (properties[0].name != "option_title" ==> DescribedField(properties[0].field))
      && DescribedAll(properties[1..])
  }

  predicate DescribedField(field: Field)
    decreases field, 1
  {
    match field
    case OneOf(subs) => DescribedOptions(subs)
    case Object(schema) => ObjectTitle(schema).Some? && Described(schema)
    case ArrayOfObjects(items, _) => Described(items)
    case _ => true
  }

  predicate DescribedOptions(subs: seq<Schema>)
    decreases subs, 0
  {
    subs != [] ==> OptionTitle(subs[0]).Some? && Described(subs[0]) && DescribedOptions(subs[1..])
  }

  function NameOf(title: Option<string>): set<string> {
    if title.Some? then {ClassName(title.value)} else {}
  }

  /** The class names of all object schemas nested in the properties, at any depth. */
  function NestedNames(schema: Schema): set<string>
    decreases schema, 1
  {
    if schema.properties.Listed? then NestedNamesAll(schema.properties.list) else {}
  }

  function NestedNamesAll(properties: seq<Property>): set<string>
    decreases properties, 0
  {
    if properties == [] then {}
    else if properties[0].name == "option_title" then NestedNamesAll(properties[1..])
    else NamesInField(properties[0].field) + NestedNamesAll(properties[1..])
  }

  function NamesInField(field: Field): set<string>
    decreases field, 1
  {
    match field
    case OneOf(subs) => NamesInOptions(subs)
    case Object(schema) => NameOf(ObjectTitle(schema)) + NestedNames(schema)
    case ArrayOfObjects(items, fieldTitle) => NameOf(ItemTitle(items, fieldTitle)) + NestedNames(items)
    case _ => {}
  }

  function NamesInOptions(subs: seq<Schema>): set<string>
    decreases subs, 0
  {
    if subs == [] then {}
    else NameOf(OptionTitle(subs[0])) + NestedNames(subs[0]) + NamesInOptions(subs[1..])
  }

  /** The type words written in the schema, at any depth: in type lists, as array items, or alone. */
  function Words(schema: Schema): set<string>
    decreases schema, 1
  {
    if schema.properties.Listed? then WordsIn(schema.properties.list) else {}
  }

  function WordsIn(properties: seq<Property>): set<string>
    decreases properties, 0
  {
    if properties == [] then {}
    else if properties[0].name == "option_title" then WordsIn(properties[1..])
    else WordsInField(properties[0].field) + WordsIn(properties[1..])
  }

  /** The type words of one field's own type; nested objects are referred to by their classes. */
  function DirectWords(field: Field): set<string> {
    match field
    case TypeList(types) => set word | word in types && word != "null" :: MapType(word)
    case ArrayOf(itemType) => {MapType(itemType)}
    case Plain(typeName, _) => {MapType(typeName)}
    case _ => {}
  }

  function WordsInField(field: Field): set<string>
    decreases field, 1
  {
    match field
    case OneOf(subs) => WordsInOptions(subs)
    case Object(schema) => Words(schema)
    case ArrayOfObjects(items, _) => Words(items)
    case _ => DirectWords(field)
  }

  function WordsInOptions(subs: seq<Schema>): set<string>
    decreases subs, 0
  {
    if subs == [] then {} else Words(subs[0]) + WordsInOptions(subs[1..])
  }

  function FieldNames(properties: seq<Property>): set<string> {
    if properties == [] then {}
    else if properties[0].name == "option_title" then FieldNames(properties[1..])
    else {FieldName(properties[0].name)} + FieldNames(properties[1..])
  }

  // ----- what a class map refers to -----

  /** Every name in the type, at any nesting of union, list or optional, is one of `names`. */
  predicate Mentions(t: SchemaType, names: set<string>)
    decreases t
  {
    match t
    case Raw(typeName, _) => typeName in names
    case ListType(inner) => Mentions(inner, names)
    case OptType(inner) => Mentions(inner, names)
    case UnionType(members) => MentionAll(members, names)
  }

  predicate MentionAll(types: seq<SchemaType>, names: set<string>)
    decreases types
  {
    types != [] ==> Mentions(types[0], names) && MentionAll(types[1..], names)
  }

  predicate AllRaw(types: seq<SchemaType>) {
    forall i | 0 <= i < |types| :: types[i].Raw?
  }

  /** A name, a list of one, or a union of some: what an annotation can spell without a default. */
  predicate Simple(t: SchemaType) {
    match t
    case Raw(_, _) => true
    case ListType(inner) => inner.Raw?
    case UnionType(members) => |members| != 1 && AllRaw(members)
    case OptType(_) => false
  }

  /** Only the whole type of a field can be optional, so its ` = None` never ends up inside brackets. */
  predicate FieldShape(t: SchemaType) {
    if t.OptType? then Simple(t.inner) else Simple(t)
  }

  ghost predicate FieldsMention(fields: Fields, names: set<string>) {
    forall f | f in fields :: FieldShape(fields[f]) && Mentions(fields[f], names)
  }

  ghost predicate ClassesMention(classes: Classes, names: set<string>) {
    forall c | c in classes :: FieldsMention(classes[c], names)
  }

  /** `names` grows with the classes, so what was closed stays closed. */
  lemma {:induction false} MentionsMore(t: SchemaType, few: set<string>, many: set<string>)
    requires Mentions(t, few) && few <= many
    ensures Mentions(t, many)
    decreases t
  {
    match t
    case Raw(_, _) =>
    case ListType(inner) => MentionsMore(inner, few, many);
    case OptType(inner) => MentionsMore(inner, few, many);
    case UnionType(members) => MentionAllMore(members, few, many);
  }

  lemma {:induction false} MentionAllMore(types: seq<SchemaType>, few: set<string>, many: set<string>)
    requires MentionAll(types, few) && few <= many
    ensures MentionAll(types, many)
    decreases types
  {
    if types != [] {
      MentionsMore(types[0], few, many);
      MentionAllMore(types[1..], few, many);
    }
  }

  lemma FieldsMentionMore(fields: Fields, few: set<string>, many: set<string>)
    requires FieldsMention(fields, few) && few <= many
    ensures FieldsMention(fields, many)
  {
    forall f | f in fields ensures FieldShape(fields[f]) && Mentions(fields[f], many) {
      MentionsMore(fields[f], few, many);
    }
  }

  lemma ClassesMentionMore(classes: Classes, few: set<string>, many: set<string>)
    requires ClassesMention(classes, few) && few <= many
    ensures ClassesMention(classes, many)
  {
    forall c | c in classes ensures FieldsMention(classes[c], many) {
      FieldsMentionMore(classes[c], few, many);
    }
  }

  lemma ClassesMerge(a: Classes, b: Classes, few: set<string>, more: set<string>)
    requires ClassesMention(a, few) && ClassesMention(b, more)
    ensures ClassesMention(a + b, few + more)
  {
    ClassesMentionMore(a, few, few + more);
    ClassesMentionMore(b, more, few + more);
  }

  // ----- closure -----

  ghost predicate ClosedClasses(classes: Classes, names: set<string>, words: set<string>) {
    classes.Keys == names && ClassesMention(classes, names + words)
  }

  lemma {:induction false} DefineIsClosed(name: string, schema: Schema)
    ensures Define(name, schema).Some? <==> Described(schema)
    ensures Described(schema) ==>
      ClosedClasses(Define(name, schema).value, {name} + NestedNames(schema), Words(schema))
    decreases schema, 1
  {
    if schema.properties.Listed? {
      CollectIsClosed(schema.required, schema.properties.list);
      if Described(schema) {
        var body := Collect(schema.required, schema.properties.list).value;
        var few := NestedNames(schema) + Words(schema);
        var many := {name} + NestedNames(schema) + Words(schema);
        ClassesMentionMore(body.classes, few, many);
        FieldsMentionMore(body.fields, few, many);
      }
    }
  }

  lemma {:induction false} CollectIsClosed(required: set<string>, properties: seq<Property>)
    ensures Collect(required, properties).Some? <==> DescribedAll(properties)
    ensures DescribedAll(properties) ==>
      var body := Collect(required, properties).value;
      && ClosedClasses(body.classes, NestedNamesAll(properties), WordsIn(properties))
      && FieldsMention(body.fields, NestedNamesAll(properties) + WordsIn(properties))
      && body.fields.Keys == FieldNames(properties)
    decreases properties, 0
  {
    if properties != [] {
      var rest := properties[1..];
      CollectIsClosed(required, rest);
      var p := properties[0];
      if p.name != "option_title" {
        var fieldName := FieldName(p.name);
        FieldTypeIsClosed(fieldName in required, p.field);
        if DescribedAll(properties) {
          var typed := FieldType(fieldName in required, p.field).value;
          var body := Collect(required, rest).value;
          var few := NamesInField(p.field) + WordsInField(p.field);
          var more := NestedNamesAll(rest) + WordsIn(rest);
          var names := NestedNamesAll(properties) + WordsIn(properties);
          assert few + more == names;
          ClassesMerge(typed.classes, body.classes, few, more);
          MentionsMore(typed.schemaType, few, names);
          FieldsMentionMore(body.fields, more, names);
        }
      }
    }
  }

  lemma {:induction false} FieldTypeIsClosed(required: bool, field: Field)
    ensures FieldType(required, field).Some? <==> DescribedField(field)
    ensures DescribedField(field) ==>
      var typed := FieldType(required, field).value;
      && ClosedClasses(typed.classes, NamesInField(field), WordsInField(field))
      && FieldShape(typed.schemaType) && Mentions(typed.schemaType, NamesInField(field) + WordsInField(field))
    decreases field, 1
  {
    match field
    case OneOf(subs) =>
      OptionsAreClosed(subs);
    case Object(schema) =>
      NestedIsClosed(ObjectTitle(schema), schema);
    case ArrayOfObjects(items, fieldTitle) =>
      NestedIsClosed(ItemTitle(items, fieldTitle), items);
    case TypeList(types) =>
      ListedTypesMention(types, {} + WordsInField(field));
    case _ =>
  }

  lemma {:induction false} ListedTypesMention(types: seq<string>, names: set<string>)
    requires forall word | word in types && word != "null" :: MapType(word) in names
    ensures MentionAll(ListedTypes(types), names) && AllRaw(ListedTypes(types))
  {
    if types != [] {
      ListedTypesMention(types[1..], names);
      if types[0] != "null" {
        var listed := ListedTypes(types);
        assert types[0] in types;
        assert listed[1..] == ListedTypes(types[1..]);
        assert Mentions(listed[0], names);
      }
    }
  }

  lemma {:induction false} NestedIsClosed(title: Option<string>, schema: Schema)
    ensures Nested(title, schema).Some? <==> title.Some? && Described(schema)
    ensures title.Some? && Described(schema) ==>
      var typed := Nested(title, schema).value;
      && ClosedClasses(typed.classes, NameOf(title) + NestedNames(schema), Words(schema))
      && typed.schemaType.Raw? && Mentions(typed.schemaType, NameOf(title) + NestedNames(schema) + Words(schema))
    decreases schema, 2
  {
    if title.Some? {
      DefineIsClosed(ClassName(title.value), schema);
    }
  }

  lemma {:induction false} OneMoreOption(typed: Typed, m: Members,
                      names: set<string>, words: set<string>, restNames: set<string>, restWords: set<string>)
    requires ClosedClasses(typed.classes, names, words) && Mentions(typed.schemaType, names + words)
    requires ClosedClasses(m.classes, restNames, restWords) && MentionAll(m.types, restNames + restWords)
    ensures ClosedClasses(typed.classes + m.classes, names + restNames, words + restWords)
    ensures MentionAll([typed.schemaType] + m.types, names + restNames + (words + restWords))
  {
    var all := names + restNames + (words + restWords);
    assert names + words + (restNames + restWords) == all;
    ClassesMerge(typed.classes, m.classes, names + words, restNames + restWords);
    MentionsMore(typed.schemaType, names + words, all);
    MentionAllMore(m.types, restNames + restWords, all);
    assert ([typed.schemaType] + m.types)[1..] == m.types;
  }

  lemma {:induction false} OptionsAreClosed(subs: seq<Schema>)
    ensures Options(subs).Some? <==> DescribedOptions(subs)
    ensures DescribedOptions(subs) ==>
      var m := Options(subs).value;
      && ClosedClasses(m.classes, NamesInOptions(subs), WordsInOptions(subs))
      && AllRaw(m.types) && MentionAll(m.types, NamesInOptions(subs) + WordsInOptions(subs))
    decreases subs, 0
  {
    if subs != [] {
      var rest := subs[1..];
      NestedIsClosed(OptionTitle(subs[0]), subs[0]);
      OptionsAreClosed(rest);
      if DescribedOptions(subs) {
        OneMoreOption(
          Nested(OptionTitle(subs[0]), subs[0]).value, Options(rest).value,
          NameOf(OptionTitle(subs[0])) + NestedNames(subs[0]), Words(subs[0]),
          NamesInOptions(rest), WordsInOptions(rest));
      }
    }
  }

  /** The headline: a class map has exactly the classes named in the schema, and when all type words
      are scalars, every class that a field refers to is one of them. */
  lemma {:induction false} ClassMapIsClosed(name: string, schema: Schema)
    requires Described(schema) && Words(schema) <= SCALARS
    ensures Define(name, schema).Some?
    ensures var classes := Define(name, schema).value;
      && classes.Keys == {name} + NestedNames(schema)
      && ClassesMention(classes, classes.Keys + SCALARS)
  {
    DefineIsClosed(name, schema);
    var classes := Define(name, schema).value;
    ClassesMentionMore(classes, classes.Keys + Words(schema), classes.Keys + SCALARS);
  }

  // ----- exactly when the map is closed -----

  /** The words of the properties' own types, apart from fields that a later property replaces. */
  function OwnWords(properties: seq<Property>): set<string> {
    if properties == [] then {}
    else if properties[0].name == "option_title" then OwnWords(properties[1..])
    else
      (if FieldName(properties[0].name) in FieldNames(properties[1..]) then {} else DirectWords(properties[0].field))
      + OwnWords(properties[1..])
  }

  /** The type words of those classes of the schema that survive: a class does not count when one of the same
      name comes later, that is, when its name is among `later`, or is the name of a class around it. */
  function LiveWords(name: string, schema: Schema, later: set<string>): set<string>
    decreases schema, 1
  {
    if schema.properties.Missing? then {}
    else
      (if name in later then {} else OwnWords(schema.properties.list))
      + LiveWordsIn(schema.properties.list, later + {name})
  }

  function LiveWordsIn(properties: seq<Property>, later: set<string>): set<string>
    decreases properties, 0
  {
    if properties == [] then {}
    else if properties[0].name == "option_title" then LiveWordsIn(properties[1..], later)
    else LiveWordsOf(properties[0].field, later + NestedNamesAll(properties[1..])) + LiveWordsIn(properties[1..], later)
  }

  function LiveWordsOf(field: Field, later: set<string>): set<string>
    decreases field, 1
  {
    match field
    case OneOf(subs) => LiveWordsOfOptions(subs, later)
    case Object(schema) => LiveWordsNested(ObjectTitle(schema), schema, later)
    case ArrayOfObjects(items, fieldTitle) => LiveWordsNested(ItemTitle(items, fieldTitle), items, later)
    case _ => {}
  }

  function LiveWordsNested(title: Option<string>, schema: Schema, later: set<string>): set<string>
    decreases schema, 2
  {
    if title == None then {} else LiveWords(ClassName(title.value), schema, later)
  }

  function LiveWordsOfOptions(subs: seq<Schema>, later: set<string>): set<string>
    decreases subs, 0
  {
    if subs == [] then {}
    else LiveWordsNested(OptionTitle(subs[0]), subs[0], later + NamesInOptions(subs[1..]))
         + LiveWordsOfOptions(subs[1..], later)
  }

  /** What the classes that are not redefined later refer to. */
  ghost predicate LiveMention(classes: Classes, later: set<string>, names: set<string>) {
    forall c | c in classes && c !in later :: FieldsMention(classes[c], names)
  }

  lemma LiveMerge(a: Classes, b: Classes, later: set<string>, names: set<string>)
    ensures LiveMention(a + b, later, names) <==> LiveMention(a, later + b.Keys, names) && LiveMention(b, later, names)
  {
    hide FieldsMention;
    if LiveMention(a + b, later, names) {
      forall c | c in a && c !in later + b.Keys ensures FieldsMention(a[c], names) {
        assert (a + b)[c] == a[c];
      }
      forall c | c in b && c !in later ensures FieldsMention(b[c], names) {
        assert (a + b)[c] == b[c];
      }
    }
  }

  lemma LiveUpdate(classes: Classes, name: string, fields: Fields, later: set<string>, names: set<string>)
    ensures LiveMention(classes[name := fields], later, names)
       <==> (name in later || FieldsMention(fields, names)) && LiveMention(classes, later + {name}, names)
  {
    hide FieldsMention;
    var all := classes[name := fields];
    if LiveMention(all, later, names) {
      assert name !in later ==> FieldsMention(all[name], names);
      forall c | c in classes && c !in later + {name} ensures FieldsMention(classes[c], names) {
        assert all[c] == classes[c];
      }
    }
  }

  lemma {:induction false} FieldsSplit(fieldName: string, t: SchemaType, rest: Fields, names: set<string>)
    requires FieldShape(t)
    ensures FieldsMention(map[fieldName := t] + rest, names)
       <==> (fieldName in rest || Mentions(t, names)) && FieldsMention(rest, names)
  {
    hide Mentions, FieldShape;
    var all := map[fieldName := t] + rest;
    if FieldsMention(all, names) {
      assert fieldName !in rest ==> all[fieldName] == t;
      forall f | f in rest ensures FieldShape(rest[f]) && Mentions(rest[f], names) {
        assert all[f] == rest[f];
      }
    }
  }

  lemma {:induction false} ListedTypesMentioned(types: seq<string>, names: set<string>)
    requires MentionAll(ListedTypes(types), names)
    ensures forall word | word in types && word != "null" :: MapType(word) in names
  {
    if types != [] {
      if types[0] != "null" {
        var listed := ListedTypes(types);
        assert listed[1..] == ListedTypes(types[1..]);
        assert Mentions(listed[0], names);
      }
      ListedTypesMentioned(types[1..], names);
    }
  }

  lemma {:induction false} UnionMentions(listed: seq<SchemaType>, names: set<string>)
    ensures Mentions(UnionOrSingular(listed), names) <==> MentionAll(listed, names)
  {
    assert |listed| == 1 ==> listed[1..] == [];
  }

  /** With the names of its nested classes known, a field mentions just its own type words. */
  lemma {:induction false} FieldMentionsWords(required: bool, field: Field, names: set<string>)
    requires DescribedField(field) && NamesInField(field) <= names && FieldType(required, field).Some?
    ensures Mentions(FieldType(required, field).value.schemaType, names) <==> DirectWords(field) <= names
  {
    match field
    case OneOf(subs) =>
      OptionsAreClosed(subs);
      OptionsMention(subs, names);
      UnionMentions(Options(subs).value.types, names);
    case TypeList(types) =>
      var listed := ListedTypes(types);
      var union := UnionOrSingular(listed);
      UnionMentions(listed, names);
      assert Mentions(OptType(union), names) == Mentions(union, names);
      if MentionAll(listed, names) {
        ListedTypesMentioned(types, names);
      }
      if DirectWords(field) <= names {
        forall word | word in types && word != "null" ensures MapType(word) in names {
          assert MapType(word) in DirectWords(field);
        }
        ListedTypesMention(types, names);
      }
    case ArrayOf(itemType) =>
      var list := ListType(RawType(itemType, None));
      assert Mentions(list, names) == Mentions(list.inner, names);
      assert Mentions(OptType(list), names) == Mentions(list, names);
    case ArrayOfObjects(items, fieldTitle) =>
      var raw := RawType(ClassName(ItemTitle(items, fieldTitle).value), None);
      assert Mentions(raw, names) && Mentions(ListType(raw), names) && Mentions(OptType(ListType(raw)), names);
    case Object(_) =>
    case Plain(typeName, constant) =>
      assert Mentions(OptType(RawType(typeName, constant)), names) == Mentions(RawType(typeName, constant), names);
  }

  lemma {:induction false} OptionsMention(subs: seq<Schema>, names: set<string>)
    requires DescribedOptions(subs) && NamesInOptions(subs) <= names && Options(subs).Some?
    ensures MentionAll(Options(subs).value.types, names)
    decreases |subs|
  {
    if subs != [] {
      OptionsAreClosed(subs[1..]);
      OptionsMention(subs[1..], names);
      var types := Options(subs).value.types;
      assert types[1..] == Options(subs[1..]).value.types;
    }
  }

  lemma {:induction false} OwnWordsMentioned(required: set<string>, properties: seq<Property>, names: set<string>)
    requires DescribedAll(properties) && NestedNamesAll(properties) <= names && Collect(required, properties).Some?
    ensures FieldsMention(Collect(required, properties).value.fields, names) <==> OwnWords(properties) <= names
    decreases |properties|
  {
    if properties != [] {
      var rest := properties[1..];
      CollectIsClosed(required, rest);
      OwnWordsMentioned(required, rest, names);
      var p := properties[0];
      if p.name != "option_title" {
        var fieldName := FieldName(p.name);
        FieldTypeIsClosed(fieldName in required, p.field);
        FieldMentionsWords(fieldName in required, p.field, names);
        FieldsSplit(fieldName, FieldType(fieldName in required, p.field).value.schemaType,
                    Collect(required, rest).value.fields, names);
      }
    }
  }

  lemma {:induction false} LiveWordsMentioned(name: string, schema: Schema, later: set<string>, names: set<string>)
    requires Described(schema) && Define(name, schema).Some? && {name} + NestedNames(schema) <= names
    ensures LiveMention(Define(name, schema).value, later, names) <==> LiveWords(name, schema, later) <= names
    decreases schema, 1
  {
    hide LiveMention, FieldsMention;
    var list := schema.properties.list;
    CollectIsClosed(schema.required, list);
    var body := Collect(schema.required, list).value;
    OwnWordsMentioned(schema.required, list, names);
    LiveWordsMentionedIn(schema.required, list, later + {name}, names);
    LiveUpdate(body.classes, name, body.fields, later, names);
  }

  lemma {:induction false} LiveWordsMentionedIn(
      required: set<string>, properties: seq<Property>, later: set<string>, names: set<string>)
    requires DescribedAll(properties) && Collect(required, properties).Some? && NestedNamesAll(properties) <= names
    ensures LiveMention(Collect(required, properties).value.classes, later, names)
       <==> LiveWordsIn(properties, later) <= names
    decreases properties, 0
  {
    if properties != [] {
      hide FieldsMention;
      var rest := properties[1..];
      CollectIsClosed(required, rest);
      LiveWordsMentionedIn(required, rest, later, names);
      var p := properties[0];
      if p.name != "option_title" {
        hide LiveMention;
        var isRequired := FieldName(p.name) in required;
        FieldTypeIsClosed(isRequired, p.field);
        LiveWordsMentionedOf(isRequired, p.field, later + NestedNamesAll(rest), names);
        LiveMerge(FieldType(isRequired, p.field).value.classes, Collect(required, rest).value.classes, later, names);
      }
    }
  }

  lemma {:induction false} LiveWordsMentionedOf(required: bool, field: Field, later: set<string>, names: set<string>)
    requires DescribedField(field) && FieldType(required, field).Some? && NamesInField(field) <= names
    ensures LiveMention(FieldType(required, field).value.classes, later, names) <==> LiveWordsOf(field, later) <= names
    decreases field, 1
  {
    match field
    case OneOf(subs) =>
      OptionsAreClosed(subs);
      LiveWordsMentionedOptions(subs, later, names);
    case Object(schema) =>
      DefineIsClosed(ClassName(ObjectTitle(schema).value), schema);
      LiveWordsMentioned(ClassName(ObjectTitle(schema).value), schema, later, names);
    case ArrayOfObjects(items, fieldTitle) =>
      DefineIsClosed(ClassName(ItemTitle(items, fieldTitle).value), items);
      LiveWordsMentioned(ClassName(ItemTitle(items, fieldTitle).value), items, later, names);
    case _ =>
  }

  lemma {:induction false} LiveWordsMentionedOptions(subs: seq<Schema>, later: set<string>, names: set<string>)
    requires DescribedOptions(subs) && Options(subs).Some? && NamesInOptions(subs) <= names
    ensures LiveMention(Options(subs).value.classes, later, names) <==> LiveWordsOfOptions(subs, later) <= names
    decreases subs, 0
  {
    if subs != [] {
      hide FieldsMention;
      var rest := subs[1..];
      var name := ClassName(OptionTitle(subs[0]).value);
      DefineIsClosed(name, subs[0]);
      OptionsAreClosed(rest);
      LiveWordsMentioned(name, subs[0], later + NamesInOptions(rest), names);
      LiveWordsMentionedOptions(rest, later, names);
      LiveMerge(Define(name, subs[0]).value, Options(rest).value.classes, later, names);
    }
  }

  /** For every schema that does not raise, the map is closed if and only if every type word of a surviving
      class is a scalar or happens to be the name of one of the schema's classes. */
  lemma {:induction false} ClosedIffWordsKnown(name: string, schema: Schema)
    requires Described(schema)
    ensures Define(name, schema).Some?
    ensures var classes := Define(name, schema).value;
      ClassesMention(classes, classes.Keys + SCALARS)
      <==> LiveWords(name, schema, {}) <= {name} + NestedNames(schema) + SCALARS
  {
    DefineIsClosed(name, schema);
    var classes := Define(name, schema).value;
    LiveWordsMentioned(name, schema, {}, classes.Keys + SCALARS);
    assert LiveMention(classes, {}, classes.Keys + SCALARS) <==> ClassesMention(classes, classes.Keys + SCALARS);
  }

  /** A nullable object written as a type list refers to a class `object`, which does not exist. */
  lemma {:induction false} NullableObjectIsNotClosed(name: string, property: string)
    requires name != "object" && property != "option_title"
    ensures
      var field := Property(property, TypeList(["null", "object"]));
      var classes := Define(name, Schema(None, None, None, {}, Listed([field])));
      classes.Some? && !ClassesMention(classes.value, classes.value.Keys + SCALARS)
  {
    var properties := [Property(property, TypeList(["null", "object"]))];
    var schema := Schema(None, None, None, {}, Listed(properties));
    var rest := properties[1..];
    assert rest == [] && DescribedAll(rest) && FieldNames(rest) == {} && OwnWords(rest) == {};
    assert DescribedField(properties[0].field) && DescribedAll(properties);
    assert "object" in ["null", "object"] && MapType("object") == "object";
    assert "object" in DirectWords(properties[0].field) && "object" in OwnWords(properties);
    assert NestedNamesAll(rest) == {} && NestedNamesAll(properties) == {};
    ClosedIffWordsKnown(name, schema);
    DefineIsClosed(name, schema);
  }

  // ----- which fields end up optional -----

  /** A field takes the type of the last property whose sanitized name it is. */
  lemma {:induction false} LastPropertyWins(required: set<string>, properties: seq<Property>, i: nat)
    requires Collect(required, properties).Some?
    requires i < |properties| && properties[i].name != "option_title"
    requires FieldName(properties[i].name) !in FieldNames(properties[i + 1..])
    ensures
      var fieldName := FieldName(properties[i].name);
      var fields := Collect(required, properties).value.fields;
      var typed := FieldType(fieldName in required, properties[i].field);
      fieldName in fields && typed.Some? && fields[fieldName] == typed.value.schemaType
  {
    var rest := properties[1..];
    assert Collect(required, rest).Some?;
    CollectIsClosed(required, rest);
    if i == 0 {
      assert properties[i + 1..] == rest;
    } else {
      assert rest[i - 1] == properties[i] && rest[i..] == properties[i + 1..];
      LastPropertyWins(required, rest, i - 1);
    }
  }

  /** The kinds of property for which the list of required names matters. */
  predicate OptionalUnlessRequired(field: Field) {
    field.Plain? || field.ArrayOf? || field.ArrayOfObjects?
  }

  /** Which fields are optional at all: a type list with `null`, whatever is required, and else just the plain
      fields and arrays that are not required; objects and unions never are. */
  lemma {:induction false} OptionalFields(required: bool, field: Field)
    requires FieldType(required, field).Some?
    ensures FieldType(required, field).value.schemaType.OptType? <==>
      if field.TypeList? then "null" in field.types else OptionalUnlessRequired(field) && !required
  {
    FieldTypeIsClosed(required, field);
    match field
    case OneOf(subs) => OptionsAreClosed(subs);
    case TypeList(types) => ListedTypesMention(types, WordsInField(field));
    case Object(schema) => NestedIsClosed(ObjectTitle(schema), schema);
    case _ =>
  }

  /** Whether such a field is optional depends on the sanitized name being listed as required, so a
      property that the schema requires comes out optional exactly when sanitizing changes it to a
      name that the schema does not require. */
  lemma {:induction false} RequiredFieldTurnsOptional(name: string, schema: Schema, i: nat)
    requires Described(schema)
    requires i < |schema.properties.list|
    requires var p := schema.properties.list[i];
      p.name != "option_title" && OptionalUnlessRequired(p.field) && p.name in schema.required
    requires FieldName(schema.properties.list[i].name) !in FieldNames(schema.properties.list[i + 1..])
    ensures
      var fieldName := FieldName(schema.properties.list[i].name);
      var classes := Define(name, schema);
      && classes.Some? && name in classes.value && fieldName in classes.value[name]
      && (classes.value[name][fieldName].OptType? <==>
            fieldName != schema.properties.list[i].name && fieldName !in schema.required)
  {
    DefineIsClosed(name, schema);
    LastPropertyWins(schema.required, schema.properties.list, i);
  }

  /** For example, a required string `a-b` comes out as an optional field `a_b`. */
  lemma RequiredNameIsSanitized()
    ensures var schema := Schema(None, None, None, {"a-b"}, Listed([Property("a-b", Plain("string", None))]));
      && Described(schema)
      && Define("Source", schema) == Some(map["Source" := map["a_b" := OptType(Raw("str", None))]])
  {
    var property := Property("a-b", Plain("string", None));
    var list := [property];
    var rest := list[1..];
    assert rest == [] && DescribedAll(rest) && Collect({"a-b"}, rest) == Some(Body(map[], map[]));
    assert "a-b"[1..] == "-b" && "-b"[1..] == "b" && "b"[1..] == "";
    assert FieldName("b") == "b" && FieldName("-b") == "_b";
    assert FieldName("a-b") == "a_b" && "a_b"[1] != "a-b"[1];
    assert "a_b" !in {"a-b"};
    assert FieldType(false, property.field) == Some(Typed(map[], OptType(Raw("str", None))));
    var typed := Typed(map[], OptType(Raw("str", None)));
    assert list[0] == property && property.name != "option_title" && FieldName(property.name) == "a_b";
    assert Collect({"a-b"}, list) == Then(Body(map[], map["a_b" := typed.schemaType]), Some(Body(map[], map[])));
    var empty: Fields := map[];
    assert map["a_b" := typed.schemaType] + empty == map["a_b" := typed.schemaType];
    var schema := Schema(None, None, None, {"a-b"}, Listed(list));
    assert DescribedField(property.field) && DescribedAll(list) && Described(schema);
    var none: Classes := map[];
    assert (none + none)["Source" := map["a_b" := typed.schemaType]] == map["Source" := map["a_b" := typed.schemaType]];
  }
}
