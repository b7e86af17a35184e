/** What the generated types mean: a schema type stands for a set of JSON values, and the type of a field
    stands for the values that its schema allows, said here without the members that build types. */
module AirbyteTypes {
  import opened Text
  import opened Wrappers
  import opened AirbyteClasses

  /** Values as far as types tell them apart. An instance is known by the name of its class. */
  datatype Json = Text | Int | Float | Bool | Null | Items(values: seq<Json>) | Instance(className: string)

  ghost predicate TypeHas(t: SchemaType, v: Json)
    decreases t
  {
    match t
    case Raw("str", _) => v == Text
    case Raw("int", _) => v == Int
    case Raw("float", _) => v == Float
    case Raw("bool", _) => v == Bool
    case Raw(name, _) => v == Instance(name)
    case ListType(inner) => v.Items? && forall i :: 0 <= i < |v.values| ==> TypeHas(inner, v.values[i])
    case OptType(inner) => v == Null || TypeHas(inner, v)
    case UnionType(members) => exists i :: 0 <= i < |members| && TypeHas(members[i], v)
  }

  /** A type word of a schema is a scalar, by its JSON or its Python name, or else the name of a class. */
  predicate WordHas(word: string, v: Json) {
    if word in {"string", "str"} then v == Text
    else if word in {"integer", "int"} then v == Int
    else if word in {"number", "float"} then v == Float
    else if word in {"boolean", "bool"} then v == Bool
    else v == Instance(word)
  }

  /** An instance of the class that is named after the first of two titles that is given. */
  predicate ObjectHas(first: Option<string>, second: Option<string>, v: Json) {
    if Given(first) then v == Instance(ClassName(first.value))
    else second.Some? && v == Instance(ClassName(second.value))
  }

  predicate ItemHas(items: Schema, fieldTitle: Option<string>, v: Json) {
    var entry := (if fieldTitle.Some? then fieldTitle.value else "None") + "Entry";
    ObjectHas(items.title, if Given(items.description) then items.description else Some(entry), v)
  }

  /** The values that a field may have. Only plain fields and arrays look at the list of required names. */
  ghost predicate FieldHas(required: bool, field: Field, v: Json) {
    match field
    case OneOf(subs) => exists i :: 0 <= i < |subs| && ObjectHas(subs[i].optionTitle, subs[i].title, v)
    case Object(schema) => ObjectHas(schema.title, schema.description, v)
    case TypeList(words) =>
      exists i :: 0 <= i < |words| && if words[i] == "null" then v == Null else WordHas(words[i], v)
    case ArrayOf(word) =>
      || (!required && v == Null)
      || (v.Items? && forall i :: 0 <= i < |v.values| ==> WordHas(word, v.values[i]))
    case ArrayOfObjects(items, fieldTitle) =>
      || (!required && v == Null)
      || (v.Items? && forall i :: 0 <= i < |v.values| ==> ItemHas(items, fieldTitle, v.values[i]))
    case Plain(word, _) => (!required && v == Null) || WordHas(word, v)
  }

  lemma {:induction false} WordMeans(word: string, constant: Option<string>, v: Json)
    ensures TypeHas(RawType(word, constant), v) <==> WordHas(word, v)
  {
  }

  lemma {:induction false} ObjectMeans(first: Option<string>, second: Option<string>, v: Json)
    requires Or(first, second).Some?
    ensures TypeHas(RawType(ClassName(Or(first, second).value), None), v) <==> ObjectHas(first, second, v)
  {
    var r := ClassName(Or(first, second).value);
    hide ClassName;
    assert r !in SCALARS && MapType(r) == r;
  }

  ghost predicate SomeHas(types: seq<SchemaType>, v: Json) {
    exists i :: 0 <= i < |types| && TypeHas(types[i], v)
  }

  lemma {:induction false} UnionMeans(members: seq<SchemaType>, v: Json)
    ensures TypeHas(UnionOrSingular(members), v) <==> SomeHas(members, v)
  {
  }

  /** One of the listed words, other than `null`, allows the value. */
  ghost predicate SomeWord(words: seq<string>, v: Json) {
    exists i :: 0 <= i < |words| && words[i] != "null" && WordHas(words[i], v)
  }

  lemma {:induction false} ListedMeans(words: seq<string>, v: Json)
    ensures SomeHas(ListedTypes(words), v) <==> SomeWord(words, v)
  {
    if words != [] {
      hide WordHas, TypeHas;
      var rest := words[1..];
      ListedMeans(rest, v);
      WordMeans(words[0], None, v);
      assert words == [words[0]] + rest;
      SomeWordCons(words[0], rest, v);
      SomeHasCons(RawType(words[0], None), ListedTypes(rest), v);
    }
  }

  lemma SomeWordCons(word: string, rest: seq<string>, v: Json)
    ensures SomeWord([word] + rest, v) <==> (word != "null" && WordHas(word, v)) || SomeWord(rest, v)
  {
    hide WordHas;
    var words := [word] + rest;
    if SomeWord(rest, v) {
      var i :| 0 <= i < |rest| && rest[i] != "null" && WordHas(rest[i], v);
      assert words[i + 1] == rest[i];
    }
    if SomeWord(words, v) {
      var i :| 0 <= i < |words| && words[i] != "null" && WordHas(words[i], v);
      assert i > 0 ==> words[i] == rest[i - 1];
    }
    assert words[0] == word;
  }

  lemma {:induction false} SomeHasCons(t: SchemaType, rest: seq<SchemaType>, v: Json)
    ensures SomeHas([t] + rest, v) <==> TypeHas(t, v) || SomeHas(rest, v)
  {
    hide TypeHas;
    var types := [t] + rest;
    if SomeHas(rest, v) {
      var i :| 0 <= i < |rest| && TypeHas(rest[i], v);
      assert types[i + 1] == rest[i];
    }
    if SomeHas(types, v) {
      var i :| 0 <= i < |types| && TypeHas(types[i], v);
      assert i > 0 ==> types[i] == rest[i - 1];
    }
    assert types[0] == t;
  }

  lemma {:induction false} OptionTypes(subs: seq<Schema>)
    requires DescribedOptions(subs) && Options(subs).Some?
    ensures var types := Options(subs).value.types;
      && |types| == |subs|
      && forall i :: 0 <= i < |subs| ==>
           OptionTitle(subs[i]).Some? && types[i] == RawType(ClassName(OptionTitle(subs[i]).value), None)
  {
    if subs != [] {
      hide ClassName, OptionTitle, Define;
      OptionTypes(subs[1..]);
      assert subs == [subs[0]] + subs[1..];
    }
  }

  lemma {:induction false} OptionsMean(subs: seq<Schema>, v: Json)
    requires DescribedOptions(subs) && Options(subs).Some?
    ensures SomeHas(Options(subs).value.types, v)
       <==> exists i :: 0 <= i < |subs| && ObjectHas(subs[i].optionTitle, subs[i].title, v)
  {
    OptionTypes(subs);
    hide ClassName, ObjectHas, TypeHas, Options, DescribedOptions, RawType, Or;
    var types := Options(subs).value.types;
    forall i | 0 <= i < |subs| ensures TypeHas(types[i], v) <==> ObjectHas(subs[i].optionTitle, subs[i].title, v) {
      ObjectMeans(subs[i].optionTitle, subs[i].title, v);
    }
  }

  lemma {:induction false} ItemMeans(items: Schema, fieldTitle: Option<string>, v: Json)
    ensures ItemTitle(items, fieldTitle).Some?
    ensures TypeHas(RawType(ClassName(ItemTitle(items, fieldTitle).value), None), v)
       <==> ItemHas(items, fieldTitle, v)
  {
    hide ClassName, TypeHas;
    var entry := (if fieldTitle.Some? then fieldTitle.value else "None") + "Entry";
    ObjectMeans(items.title, if Given(items.description) then items.description else Some(entry), v);
  }

  /** The type of every described field has exactly the values that the field may have: the scalar of its
      word, lists of the item's values, instances of the classes of its objects and options, and `null`. A
      plain field keeps its constant. */
  lemma {:induction false} FieldTypeMeans(required: bool, field: Field, v: Json)
    requires DescribedField(field)
    ensures FieldType(required, field).Some?
    ensures TypeHas(FieldType(required, field).value.schemaType, v) <==> FieldHas(required, field, v)
    ensures field.Plain? ==>
      var t := FieldType(required, field).value.schemaType;
      var bare := if t.OptType? then t.inner else t;
      bare.Raw? && bare.constant == field.constant
  {
    FieldTypeIsClosed(required, field);
    hide ClassName, WordHas, Define, MapType, ListedTypes, Options;
    match field
    case OneOf(subs) =>
      OptionsAreClosed(subs);
      OptionsMean(subs, v);
      UnionMeans(Options(subs).value.types, v);
    case Object(schema) => ObjectMeans(schema.title, schema.description, v);
    case TypeList(words) =>
      ListedMeans(words, v);
      UnionMeans(ListedTypes(words), v);
      WordsWithNull(words, v);
    case ArrayOf(word) =>
      if v.Items? {
        forall i | 0 <= i < |v.values|
          ensures TypeHas(RawType(word, None), v.values[i]) <==> WordHas(word, v.values[i])
        {
          WordMeans(word, None, v.values[i]);
        }
      }
    case ArrayOfObjects(items, fieldTitle) =>
      if v.Items? {
        forall i | 0 <= i < |v.values|
          ensures TypeHas(FieldType(true, field).value.schemaType.inner, v.values[i])
             <==> ItemHas(items, fieldTitle, v.values[i])
        {
          ItemMeans(items, fieldTitle, v.values[i]);
        }
      }
    case Plain(word, constant) => WordMeans(word, constant, v);
  }

  lemma WordsWithNull(words: seq<string>, v: Json)
    ensures FieldHas(true, TypeList(words), v) <==> SomeWord(words, v) || ("null" in words && v == Null)
  {
    hide WordHas;
  }

  /** Property `i` makes a field, which no later property of the same sanitized name takes over. */
  predicate MakesField(properties: seq<Property>, i: nat)
    requires i < |properties|
  {
    properties[i].name != "option_title" && FieldName(properties[i].name) !in FieldNames(properties[i + 1..])
  }

  /** The field that the property makes has `v` if and only if the property may have it. */
  ghost predicate FieldMeans(fields: Fields, required: set<string>, p: Property, v: Json) {
    var fieldName := FieldName(p.name);
    fieldName in fields && (TypeHas(fields[fieldName], v) <==> FieldHas(fieldName in required, p.field, v))
  }

  /** The fields of a class are those of its properties, each with the values that its property may have. */
  ghost predicate FieldsMean(fields: Fields, required: set<string>, properties: seq<Property>) {
    && fields.Keys == FieldNames(properties)
    && forall i: nat, v: Json :: i < |properties| && MakesField(properties, i) ==>
         FieldMeans(fields, required, properties[i], v)
  }

  lemma {:induction false} CollectMeans(required: set<string>, properties: seq<Property>)
    requires Collect(required, properties).Some?
    ensures FieldsMean(Collect(required, properties).value.fields, required, properties)
  {
    CollectIsClosed(required, properties);
    hide TypeHas, FieldHas, Collect, FieldName, FieldNames, FieldType, DescribedAll;
    forall i: nat, v: Json | i < |properties| && MakesField(properties, i)
      ensures FieldMeans(Collect(required, properties).value.fields, required, properties[i], v)
    {
      LastPropertyWins(required, properties, i);
      DescribedAt(properties, i);
      FieldTypeMeans(FieldName(properties[i].name) in required, properties[i].field, v);
    }
  }

  lemma {:induction false} DescribedAt(properties: seq<Property>, i: nat)
    requires DescribedAll(properties) && i < |properties| && properties[i].name != "option_title"
    ensures DescribedField(properties[i].field)
  {
    if i > 0 {
      DescribedAt(properties[1..], i - 1);
    }
  }

  // ----- the classes of nested objects -----

  /** The object schemas nested in a schema, each with the name of its class. */
  function NestedSchemas(schema: Schema): set<(string, Schema)>
    decreases schema, 1
  {
    if schema.properties.Listed? then SchemasIn(schema.properties.list) else {}
  }

  function SchemasIn(properties: seq<Property>): set<(string, Schema)>
    decreases properties, 0
  {
    if properties == [] then {}
    else if properties[0].name == "option_title" then SchemasIn(properties[1..])
    else SchemasInField(properties[0].field) + SchemasIn(properties[1..])
  }

  function SchemasInField(field: Field): set<(string, Schema)>
    decreases field, 1
  {
    match field
    case OneOf(subs) => SchemasInOptions(subs)
    case Object(schema) => Named(schema.title, schema.description, schema) + NestedSchemas(schema)
    case ArrayOfObjects(items, fieldTitle) =>
      {(ClassName(ItemTitle(items, fieldTitle).value), items)} + NestedSchemas(items)
    case _ => {}
  }

  function SchemasInOptions(subs: seq<Schema>): set<(string, Schema)>
    decreases subs, 0
  {
    if subs == [] then {}
    else Named(subs[0].optionTitle, subs[0].title, subs[0]) + NestedSchemas(subs[0]) + SchemasInOptions(subs[1..])
  }

  function Named(first: Option<string>, second: Option<string>, schema: Schema): set<(string, Schema)> {
    if Given(first) then {(ClassName(first.value), schema)}
    else if second.Some? then {(ClassName(second.value), schema)} else {}
  }

  ghost predicate ComeFrom(classes: Classes, schemas: set<(string, Schema)>) {
    forall name :: name in classes ==> exists schema ::
      (name, schema) in schemas && schema.properties.Listed? && OwnFields(schema) == Some(classes[name])
  }

  /** The fields of the class of one schema. */
  function OwnFields(schema: Schema): Option<Fields>
    requires schema.properties.Listed?
  {
    match Collect(schema.required, schema.properties.list)
    case Some(body) => Some(body.fields)
    case None => None
  }

  lemma {:induction false} DefineComesFrom(name: string, schema: Schema)
    requires Define(name, schema).Some?
    ensures ComeFrom(Define(name, schema).value, {(name, schema)} + NestedSchemas(schema))
    decreases schema, 1
  {
    CollectComesFrom(schema.required, schema.properties.list);
  }

  lemma {:induction false} CollectComesFrom(required: set<string>, properties: seq<Property>)
    requires Collect(required, properties).Some?
    ensures ComeFrom(Collect(required, properties).value.classes, SchemasIn(properties))
    decreases properties, 0
  {
    if properties != [] {
      CollectComesFrom(required, properties[1..]);
      if properties[0].name != "option_title" {
        hide Collect, OwnFields, FieldType;
        FieldComesFrom(FieldName(properties[0].name) in required, properties[0].field);
      }
    }
  }

  lemma {:induction false} FieldComesFrom(required: bool, field: Field)
    requires FieldType(required, field).Some?
    ensures ComeFrom(FieldType(required, field).value.classes, SchemasInField(field))
    decreases field, 1
  {
    match field
    case OneOf(subs) => OptionsComeFrom(subs);
    case Object(schema) => DefineComesFrom(ClassName(ObjectTitle(schema).value), schema);
    case ArrayOfObjects(items, fieldTitle) => DefineComesFrom(ClassName(ItemTitle(items, fieldTitle).value), items);
    case _ =>
  }

  lemma {:induction false} OptionsComeFrom(subs: seq<Schema>)
    requires Options(subs).Some?
    ensures ComeFrom(Options(subs).value.classes, SchemasInOptions(subs))
    decreases subs, 0
  {
    if subs != [] {
      DefineComesFrom(ClassName(OptionTitle(subs[0]).value), subs[0]);
      OptionsComeFrom(subs[1..]);
    }
  }

  /** Every class in the map of a described schema is the class of an object in it that has its name, and its
      fields are those of that object's properties, each with the values that the property may have. */
  lemma {:induction false} ClassesMean(name: string, schema: Schema, className: string)
    requires Described(schema) && className in NestedNames(schema) + {name}
    ensures Define(name, schema).Some? && className in Define(name, schema).value
    ensures exists origin: Schema ::
      && (className, origin) in {(name, schema)} + NestedSchemas(schema) && origin.properties.Listed?
      && FieldsMean(Define(name, schema).value[className], origin.required, origin.properties.list)
  {
    DefineIsClosed(name, schema);
    DefineComesFrom(name, schema);
    hide Define, Collect, FieldsMean, NestedSchemas, Described;
    var classes := Define(name, schema).value;
    var origin: Schema :| (className, origin) in {(name, schema)} + NestedSchemas(schema)
                          && origin.properties.Listed? && OwnFields(origin) == Some(classes[className]);
    CollectMeans(origin.required, origin.properties.list);
  }

  /** For example, a required array of strings holds lists of strings and no string. */
  lemma {:induction false} ArrayOfStrings(v: Json)
    ensures var t := FieldType(true, ArrayOf("string")).value.schemaType;
      && (TypeHas(t, v) <==> v.Items? && forall i :: 0 <= i < |v.values| ==> v.values[i] == Text)
      && !TypeHas(t, Text)
  {
    FieldTypeMeans(true, ArrayOf("string"), v);
    FieldTypeMeans(true, ArrayOf("string"), Text);
  }

  // ----- names -----

  predicate IsWord(c: char) {
    IsAlnum(c) || c == '_'
  }

  function WordCount(title: string): nat {
    if title == "" then 0 else WordCount(title[..|title| - 1]) + if IsWord(title[|title| - 1]) then 1 else 0
  }

  /** A class name holds the word characters of the title in order, and the first of each run of them is a
      capital. */
  lemma {:induction false} CapitalizedAt(title: string, atStart: bool, i: nat)
    requires i < |title| && IsWord(title[i])
    ensures var (r, k) := (Capitalized(title, atStart), WordCount(title[..i]));
      && k < |r|
      && r[k] == if (if i == 0 then atStart else !IsWord(title[i - 1])) then UpperChar(title[i]) else title[i]
  {
    if i > 0 {
      CapitalizedAt(title[1..], !IsWord(title[0]), i - 1);
      WordCountFront(title[..i]);
      assert title[..i][1..] == title[1..][..i - 1];
    }
  }

  lemma {:induction false} WordCountFront(title: string)
    requires title != ""
    ensures WordCount(title) == WordCount(title[1..]) + if IsWord(title[0]) then 1 else 0
  {
    if |title| > 1 {
      WordCountFront(title[..|title| - 1]);
      assert title[..|title| - 1][1..] == title[1..][..|title| - 2];
    } else {
      assert title[..0] == "" && title[1..] == "";
    }
  }

  lemma {:induction false} CapitalizedLength(title: string, atStart: bool)
    ensures |Capitalized(title, atStart)| == WordCount(title)
  {
    if title != "" {
      WordCountFront(title);
      CapitalizedLength(title[1..], !IsWord(title[0]));
    }
  }

  /** A class name never equals one of the names that the generated module imports. */
  lemma {:induction false} ClassNameMeans(title: string)
    ensures ClassName(title) !in KEYWORDS
    ensures ClassName(title) == Capitalized(title, true) || ClassName(title) == Capitalized(title, true) + "_"
    ensures ClassName(title) == Capitalized(title, true) <==> Capitalized(title, true) !in KEYWORDS
  {
    var name := Capitalized(title, true);
    if name in KEYWORDS {
      assert (name + "_")[|name|] == '_';
      assert forall k :: k in KEYWORDS ==> k != "" && k[|k| - 1] != '_';
    }
  }

  /** A field name is the property's name with `_` for whatever is neither a letter nor a digit. */
  lemma {:induction false} FieldNameAt(name: string)
    ensures |FieldName(name)| == |name|
    ensures forall i :: 0 <= i < |name| ==> FieldName(name)[i] == if IsAlnum(name[i]) then name[i] else '_'
  {
    if name != "" {
      FieldNameAt(name[1..]);
    }
  }
}
