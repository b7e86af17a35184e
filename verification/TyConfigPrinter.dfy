/** `_serialize_ty_config`: a nested configuration is flattened into the lines of a TOML document whose
    meaning depends on the table that is current at each line. */
module TyConfigPrinter {
  import opened Wrappers

  /** A Python value: a scalar (its text is opaque), a list, or a dict in insertion order. */
  datatype Value = Scalar(text: string) | List(items: seq<Value>) | Dict(entries: seq<Entry>)
  datatype Entry = Entry(key: string, value: Value)

  /** What can stand on the right of `key = ...`. */
  datatype TomlValue = Atom(text: string) | Array(items: seq<TomlValue>)

  datatype Line = Header(name: string) | ArrayHeader(name: string) | KeyValue(key: string, value: TomlValue) | Blank

  // ----- the printer; None stands for the exception that the code raises -----

  function TomlOf(v: Value): Option<TomlValue>
    decreases v
  {
    match v
    case Scalar(text) => Some(Atom(text))
    case List(items) =>
      (match TomlAll(items)
       case Some(values) => Some(Array(values))
       case None => None)
    case Dict(_) => None
  }

  function TomlAll(vs: seq<Value>): Option<seq<TomlValue>>
    decreases vs
  {
    if vs == [] then Some([])
    else
      match TomlOf(vs[0])
      case Some(v) => Extend([v], TomlAll(vs[1..]))
      case None => None
  }

  /** The Python value that a TOML value denotes. */
  function FromToml(v: TomlValue): Value {
    match v
    case Atom(text) => Scalar(text)
    case Array(items) => List(seq(|items|, i requires 0 <= i < |items| => FromToml(items[i])))
  }

  /** No dict stands in `v`, at any depth of its lists. */
  predicate NoDict(v: Value) {
    match v
    case Scalar(_) => true
    case List(items) => forall i :: 0 <= i < |items| ==> NoDict(items[i])
    case Dict(_) => false
  }

  /** Values without dicts, and no others, get a TOML value, and it denotes them. */
  lemma {:induction false} TomlFaithful(v: Value)
    ensures TomlOf(v).Some? <==> NoDict(v)
    ensures TomlOf(v).Some? ==> FromToml(TomlOf(v).value) == v
    decreases v
  {
    if v.List? {
      TomlAllFaithful(v.items);
      if TomlAll(v.items).Some? {
        assert FromToml(TomlOf(v).value).items == v.items;
      }
    }
  }

  lemma {:induction false} TomlAllFaithful(vs: seq<Value>)
    ensures TomlAll(vs).Some? <==> forall i :: 0 <= i < |vs| ==> NoDict(vs[i])
    ensures TomlAll(vs).Some? ==> |TomlAll(vs).value| == |vs|
    ensures TomlAll(vs).Some? ==> forall i :: 0 <= i < |vs| ==> FromToml(TomlAll(vs).value[i]) == vs[i]
    decreases vs
  {
    if vs != [] {
      TomlFaithful(vs[0]);
      TomlAllFaithful(vs[1..]);
      assert vs == [vs[0]] + vs[1..];
    }
  }

  /** The `key = value` lines of a body: every entry that is not a dict, in order. */
  function ScalarLines(body: seq<Entry>): Option<seq<Line>>
    decreases body, 0
  {
    if body == [] then Some([])
    else if body[0].value.Dict? then ScalarLines(body[1..])
    else
      match TomlOf(body[0].value)
      case Some(v) => Extend([KeyValue(body[0].key, v)], ScalarLines(body[1..]))
      case None => None
  }

  /** The nested tables of a body, in order, each after an empty line. */
  function NestedLines(name: string, body: seq<Entry>): Option<seq<Line>>
    decreases body, 0
  {
    if body == [] then Some([])
    else if !body[0].value.Dict? then NestedLines(name, body[1..])
    else
      match SectionLines(Header(name + "." + body[0].key), name + "." + body[0].key, body[0].value.entries)
      case Some(section) => Extend([Blank] + section, NestedLines(name, body[1..]))
      case None => None
  }

  function SectionLines(header: Line, name: string, body: seq<Entry>): Option<seq<Line>>
    decreases body, 1
  {
    match ScalarLines(body)
    case Some(scalars) => Extend([header] + scalars, NestedLines(name, body))
    case None => None
  }

  function ItemSections(name: string, items: seq<Value>): Option<seq<seq<Line>>> {
    if items == [] then Some([])
    else if !items[0].Dict? then None
    else
      match SectionLines(ArrayHeader(name), name, items[0].entries)
      case Some(section) => Extend([section], ItemSections(name, items[1..]))
      case None => None
  }

  function TopSections(name: string, body: Value): Option<seq<seq<Line>>> {
    match body
    case Scalar(_) => None
    case List(items) => ItemSections(name, items)
    case Dict(entries) =>
      match SectionLines(Header(name), name, entries)
      case Some(section) => Some([section])
      case None => None
  }

  function ConfigSections(config: seq<Entry>): Option<seq<seq<Line>>> {
    if config == [] then Some([])
    else
      match TopSections(config[0].key, config[0].value)
      case Some(sections) => Extend(sections, ConfigSections(config[1..]))
      case None => None
  }

  /** `"\n\n".join(sections)`, line by line. */
  function JoinSections(sections: seq<seq<Line>>): seq<Line> {
    if sections == [] then []
    else if |sections| == 1 then sections[0]
    else sections[0] + [Blank] + JoinSections(sections[1..])
  }

  function Serialize(config: seq<Entry>): Option<seq<Line>> {
    match ConfigSections(config)
    case Some(sections) => Some(JoinSections(sections))
    case None => None
  }

  // ----- the same as code -----

  method TomlValueOf(v: Value) returns (r: Option<TomlValue>)
    ensures r == TomlOf(v)
    decreases v
  {
    match v
    case Scalar(text) => return Some(Atom(text));
    case Dict(_) => return None;
    case List(items) =>
      var values: seq<TomlValue> := [];
      for i := 0 to |items|
        invariant TomlAll(items) == Extend(values, TomlAll(items[i..]))
      {
        assert items[i..][1..] == items[i + 1..];
        var value := TomlValueOf(items[i]);
        if value == None {
          return None;
        }
        ExtendTwice(values, [value.value], TomlAll(items[i + 1..]));
        values := values + [value.value];
      }
      return Some(Array(values));
  }

  method SerializeSection(name: string, body: seq<Entry>, arrayOfTables: bool) returns (r: Option<seq<Line>>)
    ensures r == SectionLines(if arrayOfTables then ArrayHeader(name) else Header(name), name, body)
    decreases body
  {
    var header := if arrayOfTables then ArrayHeader(name) else Header(name);
    var scalars: seq<Line> := [];
    for i := 0 to |body|
      invariant ScalarLines(body) == Extend(scalars, ScalarLines(body[i..]))
    {
      assert body[i..][1..] == body[i + 1..];
      if !body[i].value.Dict? {
        var value := TomlValueOf(body[i].value);
        if value == None {
          return None;
        }
        ExtendTwice(scalars, [KeyValue(body[i].key, value.value)], ScalarLines(body[i + 1..]));
        scalars := scalars + [KeyValue(body[i].key, value.value)];
      }
    }
    assert ScalarLines(body) == Some(scalars);
    var nested: seq<Line> := [];
    for i := 0 to |body|
      invariant NestedLines(name, body) == Extend(nested, NestedLines(name, body[i..]))
    {
      assert body[i..][1..] == body[i + 1..];
      if body[i].value.Dict? {
        var section := SerializeSection(name + "." + body[i].key, body[i].value.entries, false);
        if section == None {
          return None;
        }
        ExtendTwice(nested, [Blank] + section.value, NestedLines(name, body[i + 1..]));
        nested := nested + ([Blank] + section.value);
      }
    }
    return Some([header] + scalars + nested);
  }

  method SerializeTyConfig(config: seq<Entry>) returns (r: Option<seq<Line>>)
    ensures r == Serialize(config)
  {
    var sections: seq<seq<Line>> := [];
    for i := 0 to |config|
      invariant ConfigSections(config) == Extend(sections, ConfigSections(config[i..]))
    {
      assert config[i..][1..] == config[i + 1..];
      match config[i].value
      case Scalar(_) => return None;
      case List(items) =>
        var these: seq<seq<Line>> := [];
        for j := 0 to |items|
          invariant ItemSections(config[i].key, items)
                 == Extend(these, ItemSections(config[i].key, items[j..]))
        {
          assert items[j..][1..] == items[j + 1..];
          if !items[j].Dict? {
            return None;
          }
          var section := SerializeSection(config[i].key, items[j].entries, true);
          if section == None {
            return None;
          }
          ExtendTwice(these, [section.value], ItemSections(config[i].key, items[j + 1..]));
          these := these + [section.value];
        }
        assert ItemSections(config[i].key, items) == Some(these);
        ExtendTwice(sections, these, ConfigSections(config[i + 1..]));
        sections := sections + these;
      case Dict(entries) =>
        var section := SerializeSection(config[i].key, entries, false);
        if section == None {
          return None;
        }
        ExtendTwice(sections, [section.value], ConfigSections(config[i + 1..]));
        sections := sections + [section.value];
    }
    return Some(JoinSections(sections));
  }
}
