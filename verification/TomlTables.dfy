/** How TOML v1.0.0 (sections "Keys", "Table" and "Array of Tables") gives meaning to a document, line by
    line: a header selects the current table, a key/value line fills it, and a key on the way that names
    an array of tables stands for its last element. Quoted keys are not read. The reader
    is more lenient than the standard with dotted keys in key/value lines: such a key may reach into a table
    with a header of its own or into an array of tables, and a table that it created may still get a header.
    Lines with bare keys only, which is all that is printed, do none of this. */
module TomlTables {
  import opened Wrappers
  import opened Text
  import opened TyConfigPrinter

  type Table = map<string, Node>

  /** A key stands for a value, a table or an array of tables. `defined` says that the table had its own header;
      only a table without one may still get it. */
  datatype Node = Leaf(value: Value) | Sub(table: Table, defined: bool) | Tables(items: seq<Table>)

  datatype Op = SetKey(key: string, value: Value) | DefineTable(key: string) | AppendTable(key: string)

  function ApplyHere(t: Table, op: Op): Option<Table> {
    match op
    case SetKey(k, v) => if k in t then None else Some(t[k := Leaf(v)])
    case DefineTable(k) =>
      if k !in t then Some(t[k := Sub(map[], true)])
      else if t[k].Sub? && !t[k].defined then Some(t[k := Sub(t[k].table, true)])
      else None
    case AppendTable(k) =>
      if k !in t then Some(t[k := Tables([map[]])])
      else if t[k].Tables? then Some(t[k := Tables(t[k].items + [map[]])])
      else None
  }

  /** Applies `op` to the table at `path`; tables missing on the way are created. */
  function Apply(root: Table, path: seq<string>, op: Op): Option<Table>
    decreases |path|
  {
    if path == [] then ApplyHere(root, op)
    else
      var k := path[0];
      if k !in root then
        match Apply(map[], path[1..], op)
        case Some(t) => Some(root[k := Sub(t, false)])
        case None => None
      else
        match root[k]
        case Leaf(_) => None
        case Sub(t, defined) =>
          (match Apply(t, path[1..], op)
           case Some(t') => Some(root[k := Sub(t', defined)])
           case None => None)
        case Tables(items) =>
          if items == [] then None
          else
            match Apply(items[|items| - 1], path[1..], op)
            case Some(t') => Some(root[k := Tables(items[|items| - 1 := t'])])
            case None => None
  }

  predicate BareChar(c: char) {
    'a' <= c <= 'z' || 'A' <= c <= 'Z' || '0' <= c <= '9' || c == '_' || c == '-'
  }

  predicate Bare(k: string) {
    k != "" && forall i :: 0 <= i < |k| ==> BareChar(k[i])
  }

  /** The keys of a dotted name, if all of them are bare. */
  function Keys(name: string): (r: Option<seq<string>>)
    ensures r.Some? ==> r.value != [] && forall i :: 0 <= i < |r.value| ==> Bare(r.value[i])
  {
    var keys := Split(name, '.');
    if forall i :: 0 <= i < |keys| ==> Bare(keys[i]) then Some(keys) else None
  }

  function Front(keys: seq<string>): seq<string>
    requires keys != []
  {
    keys[..|keys| - 1]
  }

  function Last(keys: seq<string>): string
    requires keys != []
  {
    keys[|keys| - 1]
  }

  /** One line: the new document and the new current table. */
  function ReadLine(root: Table, current: seq<string>, line: Line): Option<(Table, seq<string>)> {
    match line
    case Blank => Some((root, current))
    case Header(name) => ReadHeader(root, name, k => DefineTable(k))
    case ArrayHeader(name) => ReadHeader(root, name, k => AppendTable(k))
    case KeyValue(name, v) =>
      match Keys(name)
      case None => None
      case Some(keys) =>
        match Apply(root, current + Front(keys), SetKey(Last(keys), FromToml(v)))
        case None => None
        case Some(t) => Some((t, current))
  }

  function ReadHeader(root: Table, name: string, op: string -> Op): Option<(Table, seq<string>)> {
    match Keys(name)
    case None => None
    case Some(keys) =>
      match Apply(root, Front(keys), op(Last(keys)))
      case None => None
      case Some(t) => Some((t, keys))
  }

  function ReadLines(root: Table, current: seq<string>, lines: seq<Line>): Option<(Table, seq<string>)>
    decreases |lines|
  {
    if lines == [] then Some((root, current))
    else
      match ReadLine(root, current, lines[0])
      case None => None
      case Some((root', current')) => ReadLines(root', current', lines[1..])
  }

  function ReadDocument(lines: seq<Line>): Option<Table> {
    match ReadLines(map[], [], lines)
    case None => None
    case Some((root, _)) => Some(root)
  }

  lemma {:induction false} ReadConcat(root: Table, current: seq<string>, a: seq<Line>, b: seq<Line>)
    ensures ReadLines(root, current, a + b) ==
      match ReadLines(root, current, a)
      case None => None
      case Some((root', current')) => ReadLines(root', current', b)
    decreases |a|
  {
    if a == [] {
      assert a + b == b;
    } else {
      assert (a + b)[0] == a[0] && (a + b)[1..] == a[1..] + b;
      match ReadLine(root, current, a[0])
      case None =>
      case Some((root', current')) => ReadConcat(root', current', a[1..], b);
    }
  }

  // ----- replacing the table at a path -----

  predicate Has(root: Table, path: seq<string>)
    decreases |path|
  {
    path == [] ||
    (path[0] in root &&
     match root[path[0]]
     case Leaf(_) => false
     case Sub(t, _) => Has(t, path[1..])
     case Tables(items) => items != [] && Has(items[|items| - 1], path[1..]))
  }

  function At(root: Table, path: seq<string>): Table
    requires Has(root, path)
    decreases |path|
  {
    if path == [] then root
    else
      match root[path[0]]
      case Sub(t, _) => At(t, path[1..])
      case Tables(items) => At(items[|items| - 1], path[1..])
  }

  function Graft(root: Table, path: seq<string>, t: Table): Table
    requires Has(root, path)
    decreases |path|
  {
    if path == [] then t
    else
      match root[path[0]]
      case Sub(u, defined) => root[path[0] := Sub(Graft(u, path[1..], t), defined)]
      case Tables(items) => root[path[0] := Tables(items[|items| - 1 := Graft(items[|items| - 1], path[1..], t)])]
  }

  /** The table that the first key of the path leads to. */
  function Inner(root: Table, k: string): Table
    requires Has(root, [k])
  {
    match root[k]
    case Sub(t, _) => t
    case Tables(items) => items[|items| - 1]
  }

  lemma {:induction false} GraftFacts(root: Table, path: seq<string>, t: Table, u: Table)
    requires Has(root, path)
    ensures Has(Graft(root, path, t), path)
    ensures At(Graft(root, path, t), path) == t
    ensures Graft(Graft(root, path, t), path, u) == Graft(root, path, u)
    ensures Graft(root, path, At(root, path)) == root
    decreases |path|
  {
    if path != [] {
      var k := path[0];
      assert Has(root, [k]);
      GraftFacts(Inner(root, k), path[1..], t, u);
      match root[k]
      case Sub(v, d) =>
        assert root[k := Sub(v, d)] == root;
        assert Graft(root, path, t)[k := Sub(Graft(v, path[1..], u), d)] == Graft(root, path, u);
      case Tables(items) =>
        var n := |items| - 1;
        var g := Graft(root, path, t);
        assert items[n := items[n]] == items && root[k := Tables(items)] == root;
        assert g[k].items[n := Graft(items[n], path[1..], u)] == items[n := Graft(items[n], path[1..], u)];
        assert g[k := Tables(items[n := Graft(items[n], path[1..], u)])] == Graft(root, path, u);
    }
  }

  lemma {:induction false} ApplyAt(root: Table, path: seq<string>, op: Op)
    requires Has(root, path)
    ensures Apply(root, path, op) ==
      match ApplyHere(At(root, path), op)
      case None => None
      case Some(t) => Some(Graft(root, path, t))
    decreases |path|
  {
    if path != [] {
      assert Has(root, [path[0]]);
      ApplyAt(Inner(root, path[0]), path[1..], op);
    }
  }

  /** One key further down: the table there, and replacing it, in terms of its parent. */
  lemma {:induction false} GraftChild(root: Table, path: seq<string>, k: string, u: Table)
    requires Has(root, path) && Has(At(root, path), [k])
    ensures Has(root, path + [k])
    ensures At(root, path + [k]) == Inner(At(root, path), k)
    ensures Graft(root, path + [k], u) == Graft(root, path, Graft(At(root, path), [k], u))
    decreases |path|
  {
    if path == [] {
      assert path + [k] == [k];
      assert [k][1..] == [];
    } else {
      assert Has(root, [path[0]]);
      GraftChild(Inner(root, path[0]), path[1..], k, u);
      assert (path + [k])[1..] == path[1..] + [k] && (path + [k])[0] == path[0];
    }
  }
}
