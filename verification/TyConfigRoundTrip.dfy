/** Printing a configuration and reading the lines back as TOML gives the configuration, exactly when its
    keys are bare and its arrays of tables are not empty. */
module TyConfigRoundTrip {
  import opened Wrappers
  import opened Text
  import opened TyConfigPrinter
  import opened TomlTables

  // ----- which configurations the printer accepts, and what they mean -----

  /** No list holds a dict, below the top level. */
  predicate SupportedBody(body: seq<Entry>)
    decreases body
  {
    body == [] ||
    ((if body[0].value.Dict? then SupportedBody(body[0].value.entries) else NoDict(body[0].value)) &&
     SupportedBody(body[1..]))
  }

  predicate SupportedItems(items: seq<Value>) {
    forall i :: 0 <= i < |items| ==> items[i].Dict? && SupportedBody(items[i].entries)
  }

  /** At the top level there are dicts and lists of dicts. */
  predicate SupportedConfig(config: seq<Entry>) {
    config == [] ||
    ((match config[0].value
      case Scalar(_) => false
      case List(items) => SupportedItems(items)
      case Dict(entries) => SupportedBody(entries)) &&
     SupportedConfig(config[1..]))
  }

  function BodyNode(v: Value): Node
    requires if v.Dict? then SupportedBody(v.entries) else NoDict(v)
    decreases v
  {
    if v.Dict? then Sub(BodyTable(v.entries), true) else Leaf(v)
  }

  /** The mapping that a body stands for. */
  function BodyTable(body: seq<Entry>): Table
    requires SupportedBody(body)
    decreases body
  {
    if body == [] then map[] else BodyTable(body[1..])[body[0].key := BodyNode(body[0].value)]
  }

  function ItemTables(items: seq<Value>): seq<Table>
    requires SupportedItems(items)
  {
    if items == [] then [] else [BodyTable(items[0].entries)] + ItemTables(items[1..])
  }

  function TopNode(v: Value): Node
    requires SupportedConfig([Entry("", v)])
  {
    match v
    case List(items) => Tables(ItemTables(items))
    case Dict(entries) => Sub(BodyTable(entries), true)
  }

  /** The mapping that a whole configuration stands for. */
  function ConfigTable(config: seq<Entry>): Table
    requires SupportedConfig(config)
  {
    if config == [] then map[] else ConfigTable(config[1..])[config[0].key := TopNode(config[0].value)]
  }

  predicate HasKey(body: seq<Entry>, k: string) {
    exists i :: 0 <= i < |body| && body[i].key == k
  }

  /** The keys of every dict are distinct, as they are in Python. */
  predicate DistinctBody(body: seq<Entry>)
    decreases body
  {
    body == [] ||
    (!HasKey(body[1..], body[0].key) &&
     (body[0].value.Dict? ==> DistinctBody(body[0].value.entries)) &&
     DistinctBody(body[1..]))
  }

  predicate DistinctConfig(config: seq<Entry>) {
    config == [] ||
    (!HasKey(config[1..], config[0].key) &&
     (match config[0].value
      case Scalar(_) => true
      case List(items) => forall i :: 0 <= i < |items| && items[i].Dict? ==> DistinctBody(items[i].entries)
      case Dict(entries) => DistinctBody(entries)) &&
     DistinctConfig(config[1..]))
  }

  /** Every key is bare. */
  predicate BareBody(body: seq<Entry>)
    decreases body
  {
    body == [] ||
    (Bare(body[0].key) && (body[0].value.Dict? ==> BareBody(body[0].value.entries)) && BareBody(body[1..]))
  }

  /** Every key is bare, and no array of tables is empty. */
  predicate ReadableConfig(config: seq<Entry>) {
    config == [] ||
    (Bare(config[0].key) &&
     (match config[0].value
      case Scalar(_) => true
      case List(items) => items != [] && forall i :: 0 <= i < |items| && items[i].Dict? ==> BareBody(items[i].entries)
      case Dict(entries) => BareBody(entries)) &&
     ReadableConfig(config[1..]))
  }

  // ----- when the printer raises -----

  lemma {:induction false} SectionDefined(header: Line, name: string, body: seq<Entry>)
    ensures SectionLines(header, name, body).Some? <==> SupportedBody(body)
    decreases body, 1
  {
    PartsDefined(name, body);
  }

  lemma {:induction false} PartsDefined(name: string, body: seq<Entry>)
    ensures ScalarLines(body).Some? && NestedLines(name, body).Some? <==> SupportedBody(body)
    decreases body, 0
  {
    if body != [] {
      PartsDefined(name, body[1..]);
      TomlFaithful(body[0].value);
      if body[0].value.Dict? {
        var child := name + "." + body[0].key;
        SectionDefined(Header(child), child, body[0].value.entries);
      }
    }
  }

  lemma {:induction false} ItemsDefined(name: string, items: seq<Value>)
    ensures ItemSections(name, items).Some? <==> SupportedItems(items)
  {
    if items != [] {
      ItemsDefined(name, items[1..]);
      assert forall i :: 0 <= i < |items| - 1 ==> items[1..][i] == items[i + 1];
      assert SupportedItems(items)
        <==> items[0].Dict? && SupportedBody(items[0].entries) && SupportedItems(items[1..]) by {
        if items[0].Dict? && SupportedBody(items[0].entries) && SupportedItems(items[1..]) {
          forall i | 0 <= i < |items| ensures items[i].Dict? && SupportedBody(items[i].entries) {
            assert i > 0 ==> items[i] == items[1..][i - 1];
          }
        }
      }
      if items[0].Dict? {
        SectionDefined(ArrayHeader(name), name, items[0].entries);
      }
    }
  }

  /** The printer raises exactly when a list below the top level holds a dict, or something at the top
      level is neither a dict nor a list of dicts. */
  lemma {:induction false} PrinterDefined(config: seq<Entry>)
    ensures ConfigSections(config).Some? <==> SupportedConfig(config)
    ensures Serialize(config).Some? <==> SupportedConfig(config)
  {
    if config != [] {
      PrinterDefined(config[1..]);
      match config[0].value
      case Scalar(_) =>
      case List(items) => ItemsDefined(config[0].key, items);
      case Dict(entries) => SectionDefined(Header(config[0].key), config[0].key, entries);
    }
  }

  // ----- names -----

  lemma {:induction false} JoinSnoc(path: seq<string>, k: string)
    requires path != []
    ensures Join(path + [k], ".") == Join(path, ".") + "." + k
  {
    if |path| == 1 {
      assert (path + [k])[1..] == [k];
    } else {
      JoinSnoc(path[1..], k);
      assert (path + [k])[1..] == path[1..] + [k];
      assert path[0] + "." + (Join(path[1..], ".") + "." + k) == path[0] + "." + Join(path[1..], ".") + "." + k;
    }
  }

  ghost predicate AllBare(path: seq<string>) {
    forall i :: 0 <= i < |path| ==> Bare(path[i])
  }

  lemma {:induction false} KeysOfJoin(path: seq<string>)
    requires path != [] && AllBare(path)
    ensures Keys(Join(path, ".")) == Some(path)
  {
    forall i | 0 <= i < |path| ensures '.' !in path[i] {
      assert Bare(path[i]);
    }
    SplitJoin(path, '.');
  }

  // ----- reading what was printed -----

  /** Reading the lines turns document `root` into `result`, whatever the current table is. */
  ghost predicate Reads(root: Table, lines: seq<Line>, result: Table) {
    forall current :: ReadLines(root, current, lines).Some? && ReadLines(root, current, lines).value.0 == result
  }

  lemma ReadsConcat(root: Table, a: seq<Line>, middle: Table, b: seq<Line>, result: Table)
    requires Reads(root, a, middle) && Reads(middle, b, result)
    ensures Reads(root, a + b, result)
  {
    forall current
      ensures ReadLines(root, current, a + b).Some? && ReadLines(root, current, a + b).value.0 == result
    {
      ReadConcat(root, current, a, b);
    }
  }

  lemma ReadsBlank(root: Table, lines: seq<Line>, result: Table)
    requires Reads(root, lines, result)
    ensures Reads(root, [Blank] + lines, result)
  {
    assert ([Blank] + lines)[1..] == lines;
  }

  function Scalars(body: seq<Entry>): Table
    requires SupportedBody(body)
  {
    if body == [] then map[]
    else if body[0].value.Dict? then Scalars(body[1..])
    else Scalars(body[1..])[body[0].key := BodyNode(body[0].value)]
  }

  function Nested(body: seq<Entry>): Table
    requires SupportedBody(body)
  {
    if body == [] then map[]
    else if !body[0].value.Dict? then Nested(body[1..])
    else Nested(body[1..])[body[0].key := BodyNode(body[0].value)]
  }

  lemma HasKeyCons(body: seq<Entry>, k: string)
    requires body != []
    ensures HasKey(body, k) <==> body[0].key == k || HasKey(body[1..], k)
  {
    if HasKey(body[1..], k) {
      var i :| 0 <= i < |body[1..]| && body[1..][i].key == k;
      assert body[i + 1].key == k;
    }
    if HasKey(body, k) && body[0].key != k {
      var i :| 0 <= i < |body| && body[i].key == k;
      assert body[1..][i - 1].key == k;
    }
  }

  lemma {:induction false} BodySplits(body: seq<Entry>)
    requires SupportedBody(body) && DistinctBody(body)
    ensures BodyTable(body) == Scalars(body) + Nested(body)
    ensures Scalars(body).Keys !! Nested(body).Keys
    ensures forall k :: k in BodyTable(body) <==> HasKey(body, k)
  {
    if body != [] {
      var rest := body[1..];
      BodySplits(rest);
      assert body[0].key !in BodyTable(rest);
      AddDisjoint(Scalars(rest), Nested(rest), body[0].key, BodyNode(body[0].value));
      forall k ensures HasKey(body, k) <==> body[0].key == k || HasKey(rest, k) {
        HasKeyCons(body, k);
      }
    }
  }

  lemma AddDisjoint(a: Table, b: Table, k: string, node: Node)
    requires a.Keys !! b.Keys && k !in a + b
    ensures (a + b)[k := node] == a[k := node] + b == a + b[k := node]
    ensures a[k := node].Keys !! b.Keys && a.Keys !! b[k := node].Keys
  {
  }

  ghost predicate Fresh(t: Table, body: seq<Entry>) {
    forall i :: 0 <= i < |body| ==> body[i].key !in t
  }

  ghost predicate FreshDicts(t: Table, body: seq<Entry>) {
    forall i :: 0 <= i < |body| && body[i].value.Dict? ==> body[i].key !in t
  }

  lemma {:induction false} KeyValueRead(root: Table, path: seq<string>, k: string, v: TomlValue)
    requires Has(root, path) && Bare(k) && k !in At(root, path)
    ensures ReadLine(root, path, KeyValue(k, v))
         == Some((Graft(root, path, At(root, path)[k := Leaf(FromToml(v))]), path))
  {
    KeysOfJoin([k]);
    assert path + Front([k]) == path;
    ApplyAt(root, path, SetKey(k, FromToml(v)));
  }

  lemma {:induction false} ScalarsRead(root: Table, path: seq<string>, body: seq<Entry>)
    requires Has(root, path) && SupportedBody(body) && DistinctBody(body) && BareBody(body)
    requires Fresh(At(root, path), body)
    ensures ScalarLines(body).Some?
    ensures ReadLines(root, path, ScalarLines(body).value)
         == Some((Graft(root, path, At(root, path) + Scalars(body)), path))
    decreases |body|
  {
    PartsDefined("", body);
    var here := At(root, path);
    if body == [] {
      GraftFacts(root, path, here, here);
      assert here + map[] == here;
    } else {
      var rest := body[1..];
      PartsDefined("", rest);
      assert forall i :: 0 <= i < |rest| ==> rest[i] == body[i + 1];
      if body[0].value.Dict? {
        ScalarsRead(root, path, rest);
      } else {
        var k := body[0].key;
        var node := BodyNode(body[0].value);
        var next := Graft(root, path, here[k := node]);
        TomlFaithful(body[0].value);
        KeyValueRead(root, path, k, TomlOf(body[0].value).value);
        GraftFacts(root, path, here[k := node], here[k := node] + Scalars(rest));
        FreshAfter(here, body, node);
        ScalarsRead(next, path, rest);
        ScalarsExtend(here, body);
        assert ScalarLines(body).value[1..] == ScalarLines(rest).value;
      }
    }
  }

  lemma {:induction false} FreshAfter(t: Table, body: seq<Entry>, node: Node)
    requires body != [] && DistinctBody(body)
    ensures Fresh(t, body) ==> Fresh(t[body[0].key := node], body[1..])
    ensures FreshDicts(t, body) ==> FreshDicts(t[body[0].key := node], body[1..])
  {
    forall i | 0 <= i < |body| - 1 ensures body[1..][i] == body[i + 1] && body[i + 1].key != body[0].key {
      assert body[1..][i] == body[i + 1];
      assert !HasKey(body[1..], body[0].key);
    }
  }

  lemma {:induction false} ScalarsExtend(t: Table, body: seq<Entry>)
    requires body != [] && SupportedBody(body) && DistinctBody(body) && !body[0].value.Dict?
    ensures t[body[0].key := BodyNode(body[0].value)] + Scalars(body[1..]) == t + Scalars(body)
  {
    BodySplits(body[1..]);
  }

  lemma {:induction false} NestedExtend(t: Table, body: seq<Entry>)
    requires body != [] && SupportedBody(body) && DistinctBody(body) && body[0].value.Dict?
    ensures t[body[0].key := BodyNode(body[0].value)] + Nested(body[1..]) == t + Nested(body)
  {
    BodySplits(body[1..]);
  }

  /** The nested tables of a body, read into the table at `path`. */
  lemma {:induction false} NestedRead(root: Table, path: seq<string>, body: seq<Entry>)
    requires path != [] && AllBare(path) && Has(root, path)
    requires SupportedBody(body) && DistinctBody(body) && BareBody(body)
    requires FreshDicts(At(root, path), body)
    ensures NestedLines(Join(path, "."), body).Some?
    ensures Reads(root, NestedLines(Join(path, "."), body).value, Graft(root, path, At(root, path) + Nested(body)))
    decreases body, 0
  {
    var name := Join(path, ".");
    var here := At(root, path);
    PartsDefined(name, body);
    if body == [] {
      GraftFacts(root, path, here, here);
      assert here + map[] == here;
    } else {
      var rest := body[1..];
      PartsDefined(name, rest);
      assert forall i :: 0 <= i < |rest| ==> rest[i] == body[i + 1];
      if body[0].value.Dict? {
        var node := BodyNode(body[0].value);
        var next := Graft(root, path, here[body[0].key := node]);
        FirstNestedRead(root, path, body);
        GraftFacts(root, path, here[body[0].key := node], here[body[0].key := node] + Nested(rest));
        FreshAfter(here, body, node);
        NestedRead(next, path, rest);
        NestedExtend(here, body);
        ReadsConcat(root, FirstNested(name, body), next, NestedLines(name, rest).value,
                    Graft(root, path, here + Nested(body)));
      } else {
        NestedRead(root, path, rest);
      }
    }
  }

  /** The lines of the first entry of a body, a dict. */
  function FirstNested(name: string, body: seq<Entry>): seq<Line>
    requires body != [] && body[0].value.Dict? && NestedLines(name, body).Some?
  {
    var child := name + "." + body[0].key;
    [Blank] + SectionLines(Header(child), child, body[0].value.entries).value
  }

  lemma {:induction false} FirstNestedRead(root: Table, path: seq<string>, body: seq<Entry>)
    requires path != [] && AllBare(path) && Has(root, path)
    requires SupportedBody(body) && DistinctBody(body) && BareBody(body)
    requires body != [] && body[0].value.Dict? && body[0].key !in At(root, path)
    requires NestedLines(Join(path, "."), body).Some?
    ensures Reads(root, FirstNested(Join(path, "."), body),
                  Graft(root, path, At(root, path)[body[0].key := BodyNode(body[0].value)]))
    decreases body[0].value.entries, 3
  {
    var k := body[0].key;
    var child := Join(path, ".") + "." + k;
    JoinSnoc(path, k);
    SectionRead(root, path, k, body[0].value.entries);
    ReadsBlank(root, SectionLines(Header(child), child, body[0].value.entries).value,
               Graft(root, path, At(root, path)[k := BodyNode(body[0].value)]));
  }

  /** A header defines an empty table `k` below `path` and makes it the current one. */
  lemma HeaderRead(root: Table, path: seq<string>, k: string, table: Table)
    requires AllBare(path) && Bare(k) && Has(root, path) && k !in At(root, path)
    ensures var next := Graft(root, path, At(root, path)[k := Sub(map[], true)]);
      && (forall current :: ReadLine(root, current, Header(Join(path + [k], "."))) == Some((next, path + [k])))
      && Has(next, path + [k]) && At(next, path + [k]) == map[]
      && Graft(next, path + [k], table) == Graft(root, path, At(root, path)[k := Sub(table, true)])
  {
    var full := path + [k];
    var here := At(root, path);
    var empty := here[k := Sub(map[], true)];
    var next := Graft(root, path, empty);
    KeysOfJoin(full);
    assert Front(full) == path;
    ApplyAt(root, path, DefineTable(k));
    GraftFacts(root, path, empty, here[k := Sub(table, true)]);
    GraftChild(next, path, k, table);
    assert [k][1..] == [];
    assert Graft(empty, [k], table) == here[k := Sub(table, true)];
  }

  /** A whole section: its header defines the table `k` below `path`, and the rest fills it. */
  lemma {:induction false} SectionRead(root: Table, path: seq<string>, k: string, body: seq<Entry>)
    requires AllBare(path) && Bare(k) && Has(root, path) && k !in At(root, path)
    requires SupportedBody(body) && DistinctBody(body) && BareBody(body)
    ensures var name := Join(path + [k], ".");
      && SectionLines(Header(name), name, body).Some?
      && Reads(root, SectionLines(Header(name), name, body).value,
               Graft(root, path, At(root, path)[k := Sub(BodyTable(body), true)]))
    decreases body, 2
  {
    var full := path + [k];
    var name := Join(full, ".");
    var here := At(root, path);
    var next := Graft(root, path, here[k := Sub(map[], true)]);
    HeaderRead(root, path, k, BodyTable(body));
    SectionBodyRead(next, full, Header(name), body);
    var lines := SectionLines(Header(name), name, body).value;
    forall current
      ensures ReadLines(root, current, lines).Some?
      ensures ReadLines(root, current, lines).value.0 == Graft(root, path, here[k := Sub(BodyTable(body), true)])
    {
      assert ReadLine(root, current, lines[0]) == Some((next, full));
    }
  }

  /** After the scalar lines: the table at `path` holds the scalars, and the nested tables complete it. */
  lemma {:induction false} AfterScalars(root: Table, path: seq<string>, body: seq<Entry>)
    requires Has(root, path) && At(root, path) == map[]
    requires SupportedBody(body) && DistinctBody(body) && BareBody(body)
    ensures var middle := Graft(root, path, Scalars(body));
      && ScalarLines(body).Some? && ReadLines(root, path, ScalarLines(body).value) == Some((middle, path))
      && Has(middle, path) && At(middle, path) == Scalars(body) && FreshDicts(Scalars(body), body)
      && Graft(middle, path, Scalars(body) + Nested(body)) == Graft(root, path, BodyTable(body))
  {
    ScalarsRead(root, path, body);
    assert map[] + Scalars(body) == Scalars(body);
    GraftFacts(root, path, Scalars(body), Scalars(body) + Nested(body));
    BodySplits(body);
    ScalarsAreScalars(body);
  }

  /** The lines after a header, read with the table at `path` as the current one. */
  lemma {:induction false} SectionBodyRead(root: Table, path: seq<string>, header: Line, body: seq<Entry>)
    requires path != [] && AllBare(path) && Has(root, path) && At(root, path) == map[]
    requires SupportedBody(body) && DistinctBody(body) && BareBody(body)
    ensures var section := SectionLines(header, Join(path, "."), body);
      && section.Some? && section.value != [] && section.value[0] == header
      && ReadLines(root, path, section.value[1..]).Some?
      && ReadLines(root, path, section.value[1..]).value.0 == Graft(root, path, BodyTable(body))
    decreases body, 1
  {
    AfterScalars(root, path, body);
    NestedRead(Graft(root, path, Scalars(body)), path, body);
    var (scalars, nested) := (ScalarLines(body).value, NestedLines(Join(path, "."), body).value);
    ReadConcat(root, path, scalars, nested);
    assert ([header] + scalars + nested)[1..] == scalars + nested;
  }

  lemma {:induction false} ScalarsAreScalars(body: seq<Entry>)
    requires SupportedBody(body) && DistinctBody(body)
    ensures FreshDicts(Scalars(body), body)
  {
    if body != [] {
      ScalarsAreScalars(body[1..]);
      BodySplits(body[1..]);
      forall i | 0 <= i < |body| && body[i].value.Dict? ensures body[i].key !in Scalars(body) {
        if i > 0 {
          assert body[i] == body[1..][i - 1];
          assert HasKey(body[1..], body[i].key);
        } else {
          assert !HasKey(body[1..], body[0].key);
        }
      }
    }
  }

  // ----- the top level -----

  function Flat(sections: seq<seq<Line>>): seq<Line> {
    if sections == [] then [] else sections[0] + Flat(sections[1..])
  }

  lemma {:induction false} FlatConcat(a: seq<seq<Line>>, b: seq<seq<Line>>)
    ensures Flat(a + b) == Flat(a) + Flat(b)
  {
    if a == [] {
      assert a + b == b;
    } else {
      FlatConcat(a[1..], b);
      assert (a + b)[1..] == a[1..] + b;
      assert a[0] + (Flat(a[1..]) + Flat(b)) == a[0] + Flat(a[1..]) + Flat(b);
    }
  }

  /** The empty lines between sections mean nothing. */
  lemma {:induction false} ReadJoined(root: Table, current: seq<string>, sections: seq<seq<Line>>)
    ensures ReadLines(root, current, JoinSections(sections)) == ReadLines(root, current, Flat(sections))
    decreases |sections|
  {
    if |sections| == 1 {
      assert Flat(sections[1..]) == [];
      assert sections[0] + [] == sections[0];
    } else if |sections| > 1 {
      var first, rest := sections[0], sections[1..];
      ReadConcat(root, current, first, Flat(rest));
      assert first + [Blank] + JoinSections(rest) == first + ([Blank] + JoinSections(rest));
      ReadConcat(root, current, first, [Blank] + JoinSections(rest));
      match ReadLines(root, current, first)
      case None =>
      case Some((root', current')) =>
        assert ([Blank] + JoinSections(rest))[1..] == JoinSections(rest);
        ReadJoined(root', current', rest);
    }
  }

  /** One `[[k]]` block appends its table to the array. */
  lemma {:induction false} ItemRead(root: Table, k: string, earlier: seq<Table>, body: seq<Entry>)
    requires Bare(k) && (if earlier == [] then k !in root else k in root && root[k] == Tables(earlier))
    requires SupportedBody(body) && DistinctBody(body) && BareBody(body)
    ensures SectionLines(ArrayHeader(k), k, body).Some?
    ensures Reads(root, SectionLines(ArrayHeader(k), k, body).value, root[k := Tables(earlier + [BodyTable(body)])])
  {
    var table := BodyTable(body);
    var empty: Table := map[];
    var started := earlier + [empty];
    var next := root[k := Tables(started)];
    var result := root[k := Tables(earlier + [table])];
    KeysOfJoin([k]);
    assert Front([k]) == [];
    assert earlier == [] ==> started == [empty];
    assert started[|started| - 1] == empty;
    assert [k][1..] == [] && Has(next, [k]);
    assert At(next, [k]) == At(empty, []) == empty;
    assert started[|started| - 1 := table] == earlier + [table];
    assert Graft(next, [k], table) == result;
    SectionBodyRead(next, [k], ArrayHeader(k), body);
    var lines := SectionLines(ArrayHeader(k), k, body).value;
    forall current
      ensures ReadLines(root, current, lines).Some? && ReadLines(root, current, lines).value.0 == result
    {
      assert ReadLine(root, current, lines[0]) == Some((next, [k]));
    }
  }

  lemma {:induction false} ItemsRead(root: Table, k: string, earlier: seq<Table>, items: seq<Value>)
    requires Bare(k) && (if earlier == [] then k !in root else k in root && root[k] == Tables(earlier))
    requires SupportedItems(items) && items != []
    requires forall i :: 0 <= i < |items| ==> DistinctBody(items[i].entries) && BareBody(items[i].entries)
    ensures ItemSections(k, items).Some?
    ensures Reads(root, Flat(ItemSections(k, items).value), root[k := Tables(earlier + ItemTables(items))])
    decreases |items|
  {
    var table := BodyTable(items[0].entries);
    var section := SectionLines(ArrayHeader(k), k, items[0].entries);
    var now := earlier + [table];
    var next := root[k := Tables(now)];
    ItemsDefined(k, items);
    ItemRead(root, k, earlier, items[0].entries);
    if |items| == 1 {
      assert items[1..] == [] && ItemTables(items) == [table];
      assert Flat([section.value]) == section.value;
    } else {
      ItemsRead(next, k, now, items[1..]);
      OneMoreItem(root, k, earlier, table, ItemTables(items[1..]), section.value, ItemSections(k, items[1..]).value);
    }
  }

  lemma {:induction false} OneMoreItem(root: Table, k: string, earlier: seq<Table>, table: Table, more: seq<Table>,
                    section: seq<Line>, sections: seq<seq<Line>>)
    requires Reads(root, section, root[k := Tables(earlier + [table])])
    requires var next := root[k := Tables(earlier + [table])];
      Reads(next, Flat(sections), next[k := Tables(earlier + [table] + more)])
    ensures Reads(root, Flat([section] + sections), root[k := Tables(earlier + ([table] + more))])
  {
    var next := root[k := Tables(earlier + [table])];
    var last := root[k := Tables(earlier + ([table] + more))];
    assert earlier + [table] + more == earlier + ([table] + more);
    assert next[k := Tables(earlier + [table] + more)] == last;
    assert ([section] + sections)[1..] == sections;
    ReadsConcat(root, section, next, Flat(sections), last);
  }

  lemma TopRead(root: Table, k: string, v: Value)
    requires Bare(k) && k !in root
    requires SupportedConfig([Entry(k, v)]) && DistinctConfig([Entry(k, v)]) && ReadableConfig([Entry(k, v)])
    ensures TopSections(k, v).Some?
    ensures Reads(root, Flat(TopSections(k, v).value), root[k := TopNode(v)])
  {
    match v
    case List(items) =>
      ItemsRead(root, k, [], items);
      assert [] + ItemTables(items) == ItemTables(items);
    case Dict(entries) =>
      SectionRead(root, [], k, entries);
      assert [] + [k] == [k];
      var section := SectionLines(Header(k), k, entries).value;
      assert Flat([section]) == section;
  }

  lemma {:induction false} ConfigStep(root: Table, config: seq<Entry>)
    requires config != [] && SupportedConfig(config) && DistinctConfig(config) && Fresh(root, config)
    ensures var next := root[config[0].key := TopNode(config[0].value)];
      Fresh(next, config[1..]) && next + ConfigTable(config[1..]) == root + ConfigTable(config)
  {
    var rest := config[1..];
    assert !HasKey(rest, config[0].key);
    forall i | 0 <= i < |rest| ensures rest[i] == config[i + 1] && rest[i].key != config[0].key {
      assert rest[i] == config[i + 1];
    }
    ConfigTableKeys(rest);
    AddEarlier(root, ConfigTable(rest), config[0].key, TopNode(config[0].value));
  }

  lemma AddEarlier(a: Table, b: Table, k: string, node: Node)
    requires k !in b
    ensures a[k := node] + b == a + b[k := node]
  {
  }

  lemma {:induction false} ConfigRead(root: Table, config: seq<Entry>)
    requires SupportedConfig(config) && DistinctConfig(config) && ReadableConfig(config)
    requires Fresh(root, config)
    ensures ConfigSections(config).Some?
    ensures Reads(root, Flat(ConfigSections(config).value), root + ConfigTable(config))
    decreases |config|
  {
    PrinterDefined(config);
    if config == [] {
      assert root + map[] == root;
    } else {
      var k, v, rest := config[0].key, config[0].value, config[1..];
      PrinterDefined(rest);
      TopRead(root, k, v);
      ConfigStep(root, config);
      ConfigRead(root[k := TopNode(v)], rest);
      var (first, others) := (TopSections(k, v).value, ConfigSections(rest).value);
      FlatConcat(first, others);
      ReadsConcat(root, Flat(first), root[k := TopNode(v)], Flat(others), root + ConfigTable(config));
    }
  }

  lemma {:induction false} ConfigTableKeys(config: seq<Entry>)
    requires SupportedConfig(config)
    ensures forall k :: k in ConfigTable(config) ==> HasKey(config, k)
  {
    if config != [] {
      ConfigTableKeys(config[1..]);
      forall k | k in ConfigTable(config) ensures HasKey(config, k) {
        if k == config[0].key {
        } else {
          assert HasKey(config[1..], k);
          var i :| 0 <= i < |config[1..]| && config[1..][i].key == k;
          assert config[i + 1].key == k;
        }
      }
    }
  }

  /** For a readable configuration the printed lines mean the configuration. */
  lemma {:induction false} PrintedMeaning(config: seq<Entry>)
    requires SupportedConfig(config) && DistinctConfig(config) && ReadableConfig(config)
    ensures Serialize(config).Some? && ReadDocument(Serialize(config).value) == Some(ConfigTable(config))
  {
    PrinterDefined(config);
    ConfigRead(map[], config);
    var sections := ConfigSections(config).value;
    ReadJoined(map[], [], sections);
    assert ReadLines(map[], [], Flat(sections)).Some?;
    assert map[] + ConfigTable(config) == ConfigTable(config);
  }

  // ----- only readable configurations come back -----

  /** Down to depth `n`, every key is bare and no array of tables is empty. */
  ghost predicate WellRead(t: Table, n: nat)
    decreases n, 0
  {
    n == 0 || forall k :: k in t ==> Bare(k) && WellReadNode(t[k], n - 1)
  }

  ghost predicate WellReadNode(node: Node, n: nat)
    decreases n, 1
  {
    match node
    case Leaf(_) => true
    case Sub(t, _) => WellRead(t, n)
    case Tables(items) => items != [] && forall i :: 0 <= i < |items| ==> WellRead(items[i], n)
  }

  lemma {:induction false} ApplyWellRead(root: Table, path: seq<string>, op: Op, n: nat)
    requires WellRead(root, n) && AllBare(path) && Bare(op.key)
    ensures Apply(root, path, op).Some? ==> WellRead(Apply(root, path, op).value, n)
    decreases |path|
  {
    if path != [] && n > 0 {
      var k := path[0];
      assert AllBare(path[1..]) by {
        assert forall i :: 0 <= i < |path| - 1 ==> path[1..][i] == path[i + 1];
      }
      if k !in root {
        ApplyWellRead(map[], path[1..], op, n - 1);
      } else {
        match root[k]
        case Leaf(_) =>
        case Sub(t, _) => ApplyWellRead(t, path[1..], op, n - 1);
        case Tables(items) => ApplyWellRead(items[|items| - 1], path[1..], op, n - 1);
      }
    }
  }

  lemma {:induction false} LineWellRead(root: Table, current: seq<string>, line: Line, n: nat)
    requires WellRead(root, n) && AllBare(current)
    ensures ReadLine(root, current, line).Some? ==>
      WellRead(ReadLine(root, current, line).value.0, n) && AllBare(ReadLine(root, current, line).value.1)
  {
    match line
    case Blank =>
    case Header(name) => HeaderWellRead(root, name, k => DefineTable(k), n);
    case ArrayHeader(name) => HeaderWellRead(root, name, k => AppendTable(k), n);
    case KeyValue(name, v) =>
      var keys := Keys(name);
      if keys.Some? {
        ApplyWellRead(root, current + Front(keys.value), SetKey(Last(keys.value), FromToml(v)), n);
      }
  }

  lemma {:induction false} HeaderWellRead(root: Table, name: string, op: string -> Op, n: nat)
    requires WellRead(root, n) && forall k :: op(k).key == k
    ensures ReadHeader(root, name, op).Some? ==>
      WellRead(ReadHeader(root, name, op).value.0, n) && AllBare(ReadHeader(root, name, op).value.1)
  {
    var keys := Keys(name);
    if keys.Some? {
      ApplyWellRead(root, Front(keys.value), op(Last(keys.value)), n);
    }
  }

  lemma {:induction false} LinesWellRead(root: Table, current: seq<string>, lines: seq<Line>, n: nat)
    requires WellRead(root, n) && AllBare(current)
    ensures ReadLines(root, current, lines).Some? ==> WellRead(ReadLines(root, current, lines).value.0, n)
    decreases |lines|
  {
    if lines != [] {
      LineWellRead(root, current, lines[0], n);
      var next := ReadLine(root, current, lines[0]);
      if next.Some? {
        LinesWellRead(next.value.0, next.value.1, lines[1..], n);
      }
    }
  }

  /** In a table that is well read to every depth, so is each part. */
  lemma {:induction false} PartWellRead(t: Table, k: string)
    requires (forall n: nat :: WellRead(t, n)) && k in t
    ensures Bare(k) && forall n: nat :: WellReadNode(t[k], n)
  {
    assert WellRead(t, 1);
    forall n: nat ensures WellReadNode(t[k], n) {
      assert WellRead(t, n + 1);
    }
  }

  lemma {:induction false} RestWellRead(t: Table, k: string, node: Node, all: Table)
    requires all == t[k := node] && k !in t
    requires forall n: nat :: WellRead(all, n)
    ensures forall n: nat :: WellRead(t, n)
  {
    forall n: nat ensures WellRead(t, n) {
      assert WellRead(all, n);
      if n > 0 {
        forall k' | k' in t ensures Bare(k') && WellReadNode(t[k'], n - 1) {
          assert all[k'] == t[k'];
        }
      }
    }
  }

  lemma {:induction false} WellReadBody(body: seq<Entry>)
    requires SupportedBody(body) && DistinctBody(body)
    requires forall n: nat :: WellRead(BodyTable(body), n)
    ensures BareBody(body)
    decreases body
  {
    if body != [] {
      var k, v, rest := body[0].key, body[0].value, body[1..];
      PartWellRead(BodyTable(body), k);
      BodySplits(rest);
      RestWellRead(BodyTable(rest), k, BodyNode(v), BodyTable(body));
      WellReadBody(rest);
      if v.Dict? {
        forall n: nat ensures WellRead(BodyTable(v.entries), n) {
          assert WellReadNode(BodyNode(v), n);
        }
        WellReadBody(v.entries);
      }
    }
  }

  lemma {:induction false} ItemTablesAt(items: seq<Value>)
    requires SupportedItems(items)
    ensures |ItemTables(items)| == |items|
    ensures forall i :: 0 <= i < |items| ==> ItemTables(items)[i] == BodyTable(items[i].entries)
  {
    if items != [] {
      ItemTablesAt(items[1..]);
      forall i | 0 <= i < |items| ensures ItemTables(items)[i] == BodyTable(items[i].entries) {
        assert i > 0 ==> items[i] == items[1..][i - 1];
      }
    }
  }

  lemma WellReadTop(v: Value)
    requires SupportedConfig([Entry("", v)]) && DistinctConfig([Entry("", v)])
    requires forall n: nat :: WellReadNode(TopNode(v), n)
    ensures match v
      case Scalar(_) => true
      case List(items) => items != [] && forall i :: 0 <= i < |items| && items[i].Dict? ==> BareBody(items[i].entries)
      case Dict(entries) => BareBody(entries)
  {
    match v
    case List(items) =>
      ItemTablesAt(items);
      assert WellReadNode(TopNode(v), 0);
      forall i | 0 <= i < |items| ensures BareBody(items[i].entries) {
        forall n: nat ensures WellRead(BodyTable(items[i].entries), n) {
          assert WellReadNode(TopNode(v), n);
          assert WellRead(ItemTables(items)[i], n);
        }
        WellReadBody(items[i].entries);
      }
    case Dict(entries) =>
      forall n: nat ensures WellRead(BodyTable(entries), n) {
        assert WellReadNode(TopNode(v), n);
      }
      WellReadBody(entries);
  }

  lemma {:induction false} WellReadConfig(config: seq<Entry>)
    requires SupportedConfig(config) && DistinctConfig(config)
    requires forall n: nat :: WellRead(ConfigTable(config), n)
    ensures ReadableConfig(config)
  {
    if config != [] {
      var k, v, rest := config[0].key, config[0].value, config[1..];
      PartWellRead(ConfigTable(config), k);
      ConfigTableKeys(rest);
      RestWellRead(ConfigTable(rest), k, TopNode(v), ConfigTable(config));
      WellReadConfig(rest);
      WellReadTop(v);
    }
  }

  /** Whenever the printer succeeds, reading its lines gives back the same nested mapping if and only if
      every key is bare and no array of tables is empty. */
  lemma {:induction false} RoundTrip(config: seq<Entry>)
    requires DistinctConfig(config) && SupportedConfig(config)
    ensures Serialize(config).Some?
    ensures ReadDocument(Serialize(config).value) == Some(ConfigTable(config)) <==> ReadableConfig(config)
  {
    PrinterDefined(config);
    if ReadableConfig(config) {
      PrintedMeaning(config);
    }
    if ReadDocument(Serialize(config).value) == Some(ConfigTable(config)) {
      forall n: nat ensures WellRead(ConfigTable(config), n) {
        assert WellRead(map[], n);
        LinesWellRead(map[], [], Serialize(config).value, n);
      }
      WellReadConfig(config);
    }
  }

  /** For example, an empty array of tables prints nothing and is read back as no key at all. */
  lemma EmptyArrayIsLost()
    ensures var config := [Entry("overrides", List([]))];
      && DistinctConfig(config) && SupportedConfig(config) && "overrides" in ConfigTable(config)
      && Serialize(config) == Some([]) && ReadDocument([]) == Some(map[])
  {
    var config := [Entry("overrides", List([]))];
    var rest := config[1..];
    assert rest == [] && SupportedConfig(rest) && DistinctConfig(rest) && ConfigSections(rest) == Some([]);
    assert TopSections("overrides", List([])) == Some([]);
  }
}
