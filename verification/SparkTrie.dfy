/** `extract`: the Spark configuration parameters are put into a trie of heap nodes, keyed by the parts
    of their dotted paths. */
module SparkTrie {
  import opened Wrappers
  import opened Text

  datatype Config = Config(path: string, meaning: string)

  /** A path from the root of the trie, written from its last step. */
  datatype Path = Root | Down(parent: Path, key: string)

  function Append(p: Path, keys: seq<string>): Path
    decreases |keys|
  {
    if keys == [] then p else Append(Down(p, keys[0]), keys[1..])
  }

  const SKIPPED := "spark.executorEnv.[EnvironmentVariableName]"

  function SplitPath(c: Config): (keys: seq<string>)
    ensures keys != []
  {
    Split(c.path, '.')
  }

  function PathOf(c: Config): Path {
    Append(Root, SplitPath(c))
  }

  predicate Skipped(c: Config) {
    c.path == SKIPPED
  }

  function Kept(configs: seq<Config>): seq<Config> {
    if configs == [] then []
    else
      var last := configs[|configs| - 1];
      Kept(configs[..|configs| - 1]) + if Skipped(last) then [] else [last]
  }

  /** The last of the configs that has this path. */
  function LastWith(configs: seq<Config>, p: Path): Option<Config> {
    if configs == [] then None
    else
      var last := configs[|configs| - 1];
      if PathOf(last) == p then Some(last) else LastWith(configs[..|configs| - 1], p)
  }

  // ----- the trie as a value -----

  /** A node: its value, its child keys, and their order, oldest first. */
  datatype View = View(value: Option<Config>, kids: set<string>, order: seq<string>)

  /** The nodes of a trie by their paths. */
  type Trie = map<Path, View>

  const LEAF := View(None, {}, [])

  /** Paths and child keys agree. */
  ghost predicate WellFormed(t: Trie) {
    && Root in t
    && (forall p, k {:trigger Down(p, k) in t} :: Down(p, k) in t <==> p in t && k in t[p].kids)
  }

  function Grow(t: Trie, at: Path, key: string): Trie
    requires at in t
  {
    t[at := t[at].(kids := t[at].kids + {key}, order := t[at].order + [key])][Down(at, key) := LEAF]
  }

  /** One step down; a missing node is created. */
  function Touch(t: Trie, at: Path, key: string): (r: Trie)
    requires WellFormed(t) && at in t
    ensures WellFormed(r) && Down(at, key) in r
  {
    if Down(at, key) in t then t else Grow(t, at, key)
  }

  function TouchAll(t: Trie, at: Path, keys: seq<string>): (r: Trie)
    requires WellFormed(t) && at in t
    ensures WellFormed(r) && Append(at, keys) in r
    decreases |keys|
  {
    if keys == [] then t else TouchAll(Touch(t, at, keys[0]), Down(at, keys[0]), keys[1..])
  }

  function SetValue(t: Trie, at: Path, config: Config): Trie
    requires at in t
  {
    t[at := t[at].(value := Some(config))]
  }

  function Inserted(t: Trie, config: Config): (r: Trie)
    requires WellFormed(t)
    ensures WellFormed(r)
  {
    SetValue(TouchAll(t, Root, SplitPath(config)), PathOf(config), config)
  }

  function Built(configs: seq<Config>): (r: Trie)
    ensures WellFormed(r)
  {
    if configs == [] then map[Root := LEAF] else Inserted(Built(configs[..|configs| - 1]), configs[|configs| - 1])
  }

  // ----- the trie in the heap -----

  class SparkConfigNode {
    var value: Option<Config>
    var children: map<string, SparkConfigNode>
    var order: seq<string>  // the keys of `children`, oldest first
    ghost const path: Path

    constructor (ghost path: Path)
      ensures value == None && children == map[] && order == [] && this.path == path
    {
      value, children, order := None, map[], [];
      this.path := path;
    }
  }

  type Index = map<Path, SparkConfigNode>

  ghost predicate ShowsAt(nodes: Index, p: Path, v: View)
    requires p in nodes
    reads nodes[p]
  {
    && nodes[p].path == p && nodes[p].value == v.value && nodes[p].order == v.order
    && nodes[p].children.Keys == v.kids
    && (forall k :: k in nodes[p].children ==> Down(p, k) in nodes && nodes[p].children[k] == nodes[Down(p, k)])
  }

  /** The heap nodes show the trie: each path has its own node, with the node's value, and with the nodes
      one step further down as its children. */
  ghost predicate Shows(nodes: Index, t: Trie)
    reads nodes.Values
  {
    && nodes.Keys == t.Keys
    && (forall p :: p in nodes ==> ShowsAt(nodes, p, t[p]))
  }

  method AddChild(d: SparkConfigNode, key: string, ghost nodes: Index, ghost t: Trie, ghost at: Path)
    returns (n: SparkConfigNode, ghost after: Index)
    requires Shows(nodes, t) && at in nodes && nodes[at] == d && Down(at, key) !in t
    modifies d`children, d`order
    ensures Shows(after, Grow(t, at, key))
    ensures fresh(n) && after == nodes[Down(at, key) := n]
  {
    assert ShowsAt(nodes, at, t[at]);
    n := new SparkConfigNode(Down(at, key));
    d.children := d.children[key := n];
    d.order := d.order + [key];
    after := nodes[Down(at, key) := n];
    ghost var t' := Grow(t, at, key);
    assert ShowsAt(after, Down(at, key), LEAF);
    assert ShowsAt(after, at, t'[at]);
    forall p | p in nodes && p != at ensures ShowsAt(after, p, t[p]) {
      assert old(ShowsAt(nodes, p, t[p])) && nodes[p].path == p && nodes[p] != d;
      ShowsMore(nodes, p, t[p], Down(at, key), n);
    }
  }

  /** One more node elsewhere does not change what a path shows. */
  lemma ShowsMore(nodes: Index, p: Path, v: View, q: Path, n: SparkConfigNode)
    requires p in nodes && q !in nodes && ShowsAt(nodes, p, v)
    ensures ShowsAt(nodes[q := n], p, v)
  {
  }

  /** One step down; a missing child is created. */
  method Descend(d: SparkConfigNode, key: string, ghost nodes: Index, ghost t: Trie, ghost at: Path)
    returns (child: SparkConfigNode, ghost after: Index)
    requires WellFormed(t) && Shows(nodes, t)
    requires at in nodes && nodes[at] == d
    modifies d`children, d`order
    ensures Shows(after, Touch(t, at, key))
    ensures Down(at, key) in after && after[Down(at, key)] == child
    ensures fresh(after.Values - nodes.Values)
    ensures forall p :: p in nodes ==> p in after && after[p] == nodes[p]
  {
    assert ShowsAt(nodes, at, t[at]);
    after := nodes;
    if key in d.children {
      child := d.children[key];
    } else {
      child, after := AddChild(d, key, nodes, t, at);
    }
  }

  method StoreValue(d: SparkConfigNode, config: Config, ghost nodes: Index, ghost t: Trie, ghost at: Path)
    requires Shows(nodes, t)
    requires at in nodes && nodes[at] == d
    modifies d`value
    ensures Shows(nodes, SetValue(t, at, config))
  {
    assert ShowsAt(nodes, at, t[at]);
    d.value := Some(config);
    forall p | p in nodes && p != at ensures ShowsAt(nodes, p, t[p]) {
      assert old(ShowsAt(nodes, p, t[p]));
    }
  }

  /** Walks down the path of the config, creating what is missing, and sets the value at its end. Every
      node that was there stays at its path. */
  method Insert(root: SparkConfigNode, config: Config, ghost nodes: Index, ghost t: Trie) returns (ghost after: Index)
    requires WellFormed(t) && Shows(nodes, t) && Root in nodes && nodes[Root] == root
    modifies nodes.Values
    ensures Shows(after, Inserted(t, config))
    ensures fresh(after.Values - nodes.Values)
    ensures forall p :: p in nodes ==> p in after && after[p] == nodes[p]
  {
    ghost var at, now := Root, t;
    var keyPath := SplitPath(config);
    var d := root;
    after := nodes;
    while keyPath != []
      invariant WellFormed(now) && Shows(after, now)
      invariant at in after && after[at] == d
      invariant Append(at, keyPath) == PathOf(config)
      invariant TouchAll(now, at, keyPath) == TouchAll(t, Root, SplitPath(config))
      invariant fresh(after.Values - nodes.Values)
      invariant forall p :: p in nodes ==> p in after && after[p] == nodes[p]
      decreases |keyPath|
    {
      var key := keyPath[0];
      keyPath := keyPath[1..];
      d, after := Descend(d, key, after, now, at);
      now := Touch(now, at, key);
      at := Down(at, key);
    }
    StoreValue(d, config, after, now, at);
  }

  method Extract(configs: seq<Config>) returns (root: SparkConfigNode, ghost nodes: Index)
    ensures Root in nodes && nodes[Root] == root && fresh(nodes.Values)
    ensures Shows(nodes, Built(Kept(configs)))
  {
    root := new SparkConfigNode(Root);
    nodes := map[Root := root];
    assert ShowsAt(nodes, Root, LEAF);
    ghost var t := Built([]);
    assert Kept(configs[..0]) == [];
    for i := 0 to |configs|
      invariant Root in nodes && nodes[Root] == root && fresh(nodes.Values)
      invariant t == Built(Kept(configs[..i])) && Shows(nodes, t)
    {
      hide Skipped, Kept, Built, Inserted, Shows;
      KeptStep(configs, i);
      if !Skipped(configs[i]) {
        ghost var before := nodes;
        nodes := Insert(root, configs[i], nodes, t);
        t := Inserted(t, configs[i]);
        assert nodes.Values <= before.Values + (nodes.Values - before.Values);
      }
    }
    assert configs[..|configs|] == configs;
  }

  lemma KeptStep(configs: seq<Config>, i: nat)
    requires i < |configs|
    ensures Skipped(configs[i]) ==> Kept(configs[..i + 1]) == Kept(configs[..i])
    ensures !Skipped(configs[i]) ==>
      Built(Kept(configs[..i + 1])) == Inserted(Built(Kept(configs[..i])), configs[i])
  {
    assert configs[..i + 1][..i] == configs[..i];
    if !Skipped(configs[i]) {
      var all := Kept(configs[..i]) + [configs[i]];
      assert all[..|all| - 1] == Kept(configs[..i]);
    }
  }

  // ----- what the trie holds -----

  predicate IsPrefix(p: Path, q: Path) {
    p == q || (q.Down? && IsPrefix(p, q.parent))
  }

  predicate OnSomePath(p: Path, configs: seq<Config>) {
    exists i :: 0 <= i < |configs| && IsPrefix(p, PathOf(configs[i]))
  }

  lemma {:induction false} AppendBelow(p: Path, keys: seq<string>)
    ensures keys != [] ==> Append(p, keys).Down?
    ensures IsPrefix(p, Append(p, keys))
    decreases |keys|
  {
    if keys != [] {
      AppendBelow(Down(p, keys[0]), keys[1..]);
      PrefixUp(Down(p, keys[0]), Append(p, keys));
    }
  }

  lemma {:induction false} PrefixUp(p: Path, q: Path)
    requires IsPrefix(p, q) && p.Down?
    ensures IsPrefix(p.parent, q)
  {
    if p == q {
      assert IsPrefix(p.parent, q.parent);
    } else {
      PrefixUp(p, q.parent);
    }
  }

  lemma {:induction false} PrefixSplits(p: Path, q: Path, r: Path)
    requires IsPrefix(p, r) && IsPrefix(q, r)
    ensures IsPrefix(p, q) || IsPrefix(q, p)
  {
    if p != r && q != r {
      PrefixSplits(p, q, r.parent);
    }
  }

  /** Touching the keys below `at` adds nodes just for the prefixes of the path, and changes no value. */
  lemma {:induction false} TouchAllContents(t: Trie, at: Path, keys: seq<string>)
    requires WellFormed(t) && at in t
    ensures var r := TouchAll(t, at, keys);
      && (forall p :: p in r <==> p in t || (IsPrefix(p, Append(at, keys)) && IsPrefix(at, p)))
      && (forall p :: p in r ==> r[p].value == if p in t then t[p].value else None)
    decreases |keys|
  {
    if keys == [] {
      forall p ensures IsPrefix(p, at) && IsPrefix(at, p) ==> p == at {
        if IsPrefix(p, at) && IsPrefix(at, p) {
          PrefixAntisymmetric(p, at);
        }
      }
    } else {
      var next := Down(at, keys[0]);
      var r := TouchAll(t, at, keys);
      var end := Append(at, keys);
      TouchAllContents(Touch(t, at, keys[0]), next, keys[1..]);
      AppendBelow(next, keys[1..]);
      forall p
        ensures p in r <==> p in t || (IsPrefix(p, end) && IsPrefix(at, p))
      {
        if IsPrefix(p, end) && IsPrefix(at, p) && p != at {
          PrefixSplits(p, next, end);
          if IsPrefix(p, next) && p != next {
            PrefixAntisymmetric(p, at);
          }
        }
        if IsPrefix(next, p) {
          PrefixUp(next, p);
        }
      }
    }
  }

  lemma {:induction false} PrefixAntisymmetric(p: Path, q: Path)
    requires IsPrefix(p, q) && IsPrefix(q, p)
    ensures p == q
  {
    PrefixLength(p, q);
    PrefixLength(q, p);
  }

  function Length(p: Path): nat {
    if p.Root? then 0 else 1 + Length(p.parent)
  }

  lemma {:induction false} PrefixLength(p: Path, q: Path)
    requires IsPrefix(p, q)
    ensures Length(p) < Length(q) || p == q
  {
    if p != q {
      PrefixLength(p, q.parent);
    }
  }

  lemma {:induction false} RootIsPrefix(p: Path)
    ensures IsPrefix(Root, p)
  {
    if p.Down? {
      RootIsPrefix(p.parent);
    }
  }

  /** Inserting a config adds exactly the missing prefixes of its path, gives its node the config, and
      leaves the value at every other path unchanged. */
  lemma InsertedContents(t: Trie, config: Config)
    requires WellFormed(t)
    ensures var r := Inserted(t, config);
      && (forall p :: p in r <==> p in t || IsPrefix(p, PathOf(config)))
      && (forall p :: p in r ==>
            r[p].value == if p == PathOf(config) then Some(config) else if p in t then t[p].value else None)
  {
    TouchAllContents(t, Root, SplitPath(config));
    forall p ensures IsPrefix(Root, p) {
      RootIsPrefix(p);
    }
  }

  lemma {:induction false} OnSomePathStep(configs: seq<Config>, p: Path)
    requires configs != []
    ensures OnSomePath(p, configs) <==>
      OnSomePath(p, configs[..|configs| - 1]) || IsPrefix(p, PathOf(configs[|configs| - 1]))
  {
    var n := |configs| - 1;
    var before := configs[..n];
    if OnSomePath(p, before) {
      var i :| 0 <= i < n && IsPrefix(p, PathOf(before[i]));
      assert IsPrefix(p, PathOf(configs[i]));
    }
    if OnSomePath(p, configs) {
      var i :| 0 <= i <= n && IsPrefix(p, PathOf(configs[i]));
      assert i < n ==> IsPrefix(p, PathOf(before[i]));
    }
  }

  /** Nodes exist exactly for the prefixes of inserted paths; each holds the last config with exactly its
      path; and the root holds none. */
  lemma {:induction false} TrieContents(configs: seq<Config>)
    ensures forall p :: p in Built(configs) <==> p == Root || OnSomePath(p, configs)
    ensures forall p :: p in Built(configs) ==> Built(configs)[p].value == LastWith(configs, p)
    ensures LastWith(configs, Root) == None
  {
    if configs != [] {
      var before, last := configs[..|configs| - 1], configs[|configs| - 1];
      TrieContents(before);
      InsertedContents(Built(before), last);
      AppendBelow(Root, SplitPath(last));
      forall p
        ensures p in Built(configs) <==> p == Root || OnSomePath(p, configs)
        ensures p in Built(configs) ==> Built(configs)[p].value == LastWith(configs, p)
      {
        OnSomePathStep(configs, p);
        if p !in Built(before) {
          NoneWith(before, p);
        }
      }
    }
  }

  lemma {:induction false} NoneWith(configs: seq<Config>, p: Path)
    requires !OnSomePath(p, configs)
    ensures LastWith(configs, p) == None
  {
    if configs != [] {
      var n := |configs| - 1;
      assert IsPrefix(PathOf(configs[n]), PathOf(configs[n]));
      assert forall i :: 0 <= i < n ==> configs[..n][i] == configs[i];
      NoneWith(configs[..n], p);
    }
  }

  /** No node is shared between two paths. */
  lemma NoSharing(nodes: Index, t: Trie)
    requires Shows(nodes, t)
    ensures forall p, q :: p in nodes && q in nodes && p != q ==> nodes[p] != nodes[q]
  {
    forall p | p in nodes ensures nodes[p].path == p {
      assert ShowsAt(nodes, p, t[p]);
    }
  }

  // ----- the order of the children -----

  /** `order` lists each of the keys once. */
  predicate Lists(order: seq<string>, keys: set<string>) {
    if order == [] then keys == {}
    else
      var last := order[|order| - 1];
      last in keys && Lists(order[..|order| - 1], keys - {last})
  }

  ghost predicate Ordered(t: Trie) {
    forall p :: p in t ==> Lists(t[p].order, t[p].kids)
  }

  lemma {:induction false} TouchAllOrdered(t: Trie, at: Path, keys: seq<string>)
    requires WellFormed(t) && at in t && Ordered(t)
    ensures Ordered(TouchAll(t, at, keys))
    decreases |keys|
  {
    if keys != [] {
      var key := keys[0];
      if Down(at, key) !in t {
        var (order, kids) := (t[at].order, t[at].kids);
        assert (order + [key])[..|order|] == order;
        assert kids + {key} - {key} == kids;
      }
      TouchAllOrdered(Touch(t, at, key), Down(at, key), keys[1..]);
    }
  }

  /** In every trie built, each node lists each of its children once. */
  lemma {:induction false} BuiltOrdered(configs: seq<Config>)
    ensures Ordered(Built(configs))
  {
    if configs != [] {
      BuiltOrdered(configs[..|configs| - 1]);
      TouchAllOrdered(Built(configs[..|configs| - 1]), Root, SplitPath(configs[|configs| - 1]));
    }
  }
}
