/** Which Spark configs the printed schema still holds, and where: every config of the trie exactly once,
    except those of nodes whose own value and a child compete for the key "root". */
module SparkSurvivors {
  import opened Text
  import opened Wrappers
  import opened SparkTrie
  import opened SparkPrinter

  // ----- paths -----

  function KeysOf(p: Path): seq<string> {
    if p.Root? then [] else KeysOf(p.parent) + [p.key]
  }

  lemma {:induction false} AppendSnoc(p: Path, keys: seq<string>, k: string)
    ensures Append(p, keys + [k]) == Down(Append(p, keys), k)
    decreases |keys|
  {
    if keys == [] {
      assert [] + [k] == [k];
      assert [k][1..] == [];
    } else {
      AppendSnoc(Down(p, keys[0]), keys[1..], k);
      assert (keys + [k])[1..] == keys[1..] + [k];
    }
  }

  lemma {:induction false} KeysOfAppend(p: Path, keys: seq<string>)
    ensures KeysOf(Append(p, keys)) == KeysOf(p) + keys
    decreases |keys|
  {
    if keys == [] {
      assert KeysOf(p) + [] == KeysOf(p);
    } else {
      KeysOfAppend(Down(p, keys[0]), keys[1..]);
      assert KeysOf(p) + [keys[0]] + keys[1..] == KeysOf(p) + keys;
    }
  }

  lemma {:induction false} AppendKeysOf(p: Path)
    ensures Append(Root, KeysOf(p)) == p
  {
    if p.Down? {
      AppendKeysOf(p.parent);
      AppendSnoc(Root, KeysOf(p.parent), p.key);
    }
  }

  lemma {:induction false} PrefixIn(t: Trie, p: Path, q: Path)
    requires WellFormed(t) && q in t && IsPrefix(p, q)
    ensures p in t
  {
    if p != q {
      assert Down(q.parent, q.key) in t;
      PrefixIn(t, p, q.parent);
    }
  }

  lemma {:induction false} BelowIn(t: Trie, p: Path, keys: seq<string>)
    requires WellFormed(t) && Append(p, keys) in t
    ensures p in t
  {
    AppendBelow(p, keys);
    PrefixIn(t, p, Append(p, keys));
  }

  lemma {:induction false} NextStep(p: Path, q: Path) returns (k: string)
    requires IsPrefix(p, q) && p != q
    ensures IsPrefix(Down(p, k), q)
  {
    if p == q.parent {
      k := q.key;
    } else {
      k := NextStep(p, q.parent);
    }
  }

  // ----- the tries that `extract` builds -----

  function MaxLength(configs: seq<Config>): nat {
    if configs == [] then 0
    else
      var (m, l) := (MaxLength(configs[..|configs| - 1]), Length(PathOf(configs[|configs| - 1])));
      if m < l then l else m
  }

  lemma {:induction false} WithinMax(configs: seq<Config>, i: nat)
    requires i < |configs|
    ensures Length(PathOf(configs[i])) <= MaxLength(configs)
  {
    if i < |configs| - 1 {
      WithinMax(configs[..|configs| - 1], i);
    }
  }

  lemma {:induction false} BuiltSound(configs: seq<Config>)
    ensures Sound(Built(configs), MaxLength(configs))
  {
    TrieContents(configs);
    BuiltOrdered(configs);
    forall p | p in Built(configs) ensures Length(p) <= MaxLength(configs) {
      if p != Root {
        var i :| 0 <= i < |configs| && IsPrefix(p, PathOf(configs[i]));
        PrefixLength(p, PathOf(configs[i]));
        WithinMax(configs, i);
      }
    }
  }

  lemma {:induction false} LastWithPath(configs: seq<Config>, i: nat)
    requires i < |configs|
    ensures LastWith(configs, PathOf(configs[i])).Some?
  {
    if i < |configs| - 1 {
      LastWithPath(configs[..|configs| - 1], i);
    }
  }

  lemma {:induction false} LastWithMeans(configs: seq<Config>, p: Path)
    ensures LastWith(configs, p).Some? ==> PathOf(LastWith(configs, p).value) == p
  {
    if configs != [] {
      LastWithMeans(configs[..|configs| - 1], p);
    }
  }

  lemma {:induction false} HasChild(configs: seq<Config>, p: Path, i: nat)
    requires i < |configs| && p in Built(configs)
    requires IsPrefix(p, PathOf(configs[i])) && p != PathOf(configs[i])
    ensures Built(configs)[p].order != []
  {
    var k := NextStep(p, PathOf(configs[i]));
    TrieContents(configs);
    BuiltOrdered(configs);
    assert OnSomePath(Down(p, k), configs);
    assert Down(p, k) in Built(configs);
  }

  lemma {:induction false} LeavesOfBuilt(configs: seq<Config>)
    requires configs != []
    ensures LeavesHaveValues(Built(configs))
  {
    var t := Built(configs);
    TrieContents(configs);
    forall p | p in t && t[p].order == [] ensures t[p].value.Some? {
      if p == Root {
        RootIsPrefix(PathOf(configs[0]));
        AppendBelow(Root, SplitPath(configs[0]));
        HasChild(configs, Root, 0);
        assert false;
      } else {
        var i :| 0 <= i < |configs| && IsPrefix(p, PathOf(configs[i]));
        if p != PathOf(configs[i]) {
          HasChild(configs, p, i);
          assert false;
        }
        LastWithPath(configs, i);
      }
    }
  }

  /** `write` fails its assertion exactly when no config was kept; otherwise its tokens read back as the
      document of the trie. */
  lemma {:induction false} WriteSucceeds(configs: seq<Config>)
    ensures Sound(Built(configs), MaxLength(configs))
    ensures Tokens(Built(configs), Root, MaxLength(configs)).Some? <==> configs != []
    ensures configs != [] ==>
      LeavesHaveValues(Built(configs)) &&
      ReadDoc(Tokens(Built(configs), Root, MaxLength(configs)).value)
      == Some((DocOf(Built(configs), Root, MaxLength(configs)), []))
  {
    BuiltSound(configs);
    if configs != [] {
      LeavesOfBuilt(configs);
      ReadBack(Built(configs), Root, MaxLength(configs), []);
      var tokens := Tokens(Built(configs), Root, MaxLength(configs)).value;
      assert tokens + [] == tokens;
    }
  }

  // ----- where a config is printed -----

  /** The config that a reader of the printed schema finds under these keys. */
  function Lookup(doc: Doc, keys: seq<string>): Option<Config>
    decreases |keys|
  {
    match doc
    case Leaf(c) => if keys == [] then Some(c) else None
    case Shape(fields) => if keys != [] && keys[0] in fields then Lookup(fields[keys[0]], keys[1..]) else None
  }

  /** The same in terms of the trie: a childless node is found under its own keys, the value of a node with
      children under one more key "root", unless that key is taken by a child. */
  function Placed(t: Trie, p: Path, keys: seq<string>): Option<Config> {
    var q := Append(p, keys);
    if q in t then (if t[q].order == [] then t[q].value else None)
    else if keys != [] && keys[|keys| - 1] == ROOT_KEY then
      var parent := Append(p, keys[..|keys| - 1]);
      if parent in t && t[parent].order != [] then t[parent].value else None
    else None
  }

  lemma PlacedBelow(t: Trie, p: Path, keys: seq<string>)
    requires keys != [] && Down(p, keys[0]) in t
    ensures Placed(t, p, keys) == Placed(t, Down(p, keys[0]), keys[1..])
  {
    var rest := keys[1..];
    if rest != [] {
      assert keys[..|keys| - 1][0] == keys[0] && keys[..|keys| - 1][1..] == rest[..|rest| - 1];
      assert rest[|rest| - 1] == keys[|keys| - 1];
    }
  }

  lemma PlacedNowhere(t: Trie, p: Path, keys: seq<string>)
    requires WellFormed(t) && p in t && keys != [] && Down(p, keys[0]) !in t
    ensures Placed(t, p, keys) ==
      if keys == [ROOT_KEY] && t[p].order != [] then t[p].value else None
  {
    if Append(p, keys) in t {
      BelowIn(t, Down(p, keys[0]), keys[1..]);
      assert false;
    }
    if |keys| > 1 {
      var front := keys[..|keys| - 1];
      assert front[0] == keys[0];
      if Append(p, front) in t {
        BelowIn(t, Down(p, front[0]), front[1..]);
        assert false;
      }
    } else {
      assert keys == [keys[0]];
      assert keys[..|keys| - 1] == [];
    }
  }

  lemma {:induction false} LookupMeans(t: Trie, p: Path, n: nat, keys: seq<string>)
    requires Sound(t, n) && LeavesHaveValues(t) && p in t
    ensures Lookup(DocOf(t, p, n), keys) == Placed(t, p, keys)
    decreases |keys|
  {
    KidsAreNodes(t, p, n);
    EntryKeysFacts(t, p, n);
    if keys != [] {
      var k := keys[0];
      if k in t[p].kids {
        PlacedBelow(t, p, keys);
        LookupMeans(t, Down(p, k), n, keys[1..]);
      } else {
        PlacedNowhere(t, p, keys);
        assert keys[1..] == [] <==> keys == [k];
      }
    }
  }

  /** The last config with a path is printed if and only if no config's path goes on with "root" from
      there; and then it is printed at one place only. */
  lemma {:induction false} EachConfigOnce(configs: seq<Config>, q: Path, c: Config)
    requires LastWith(configs, q) == Some(c)
    ensures Sound(Built(configs), MaxLength(configs)) && LeavesHaveValues(Built(configs))
    ensures var doc := DocOf(Built(configs), Root, MaxLength(configs));
      && ((exists keys :: Lookup(doc, keys) == Some(c)) <==> !OnSomePath(Down(q, ROOT_KEY), configs))
      && (forall a, b :: Lookup(doc, a) == Some(c) && Lookup(doc, b) == Some(c) ==> a == b)
  {
    WriteSucceeds(configs);
    TrieContents(configs);
    LastWithOnPath(configs, q);
    assert Down(q, ROOT_KEY) in Built(configs) <==> ROOT_KEY in Built(configs)[q].kids;
    var (t, n) := (Built(configs), MaxLength(configs));
    var doc := DocOf(t, Root, n);
    KidsAreNodes(t, q, n);
    forall keys | Lookup(doc, keys) == Some(c)
      ensures keys == KeysOf(q) + (if t[q].order == [] then [] else [ROOT_KEY])
      ensures ROOT_KEY !in t[q].kids
    {
      LookupMeans(t, Root, n, keys);
      FoundAt(configs, q, c, keys);
    }
    if ROOT_KEY !in t[q].kids {
      PlacedAt(t, q);
      LookupMeans(t, Root, n, KeysOf(q) + (if t[q].order == [] then [] else [ROOT_KEY]));
    }
  }

  lemma {:induction false} LastWithOnPath(configs: seq<Config>, q: Path)
    requires LastWith(configs, q).Some?
    ensures OnSomePath(q, configs)
  {
    if !OnSomePath(q, configs) {
      NoneWith(configs, q);
    }
  }

  // ----- which rows these are -----

  /** The rows that are kept: all but the one parameter that the script leaves out, as often as they come. */
  lemma {:induction false} KeptMeans(configs: seq<Config>, c: Config)
    ensures multiset(Kept(configs))[c]
         == if c.path == "spark.executorEnv.[EnvironmentVariableName]" then 0 else multiset(configs)[c]
  {
    if configs != [] {
      KeptMeans(configs[..|configs| - 1], c);
      assert configs == configs[..|configs| - 1] + [configs[|configs| - 1]];
    }
  }

  /** And in their order. */
  lemma {:induction false} KeptInOrder(a: seq<Config>, b: seq<Config>)
    ensures Kept(a + b) == Kept(a) + Kept(b)
    decreases |b|
  {
    if b == [] {
      assert a + b == a;
    } else {
      var front := b[..|b| - 1];
      KeptInOrder(a, front);
      assert (a + b)[..|a + b| - 1] == a + front && (a + b)[|a + b| - 1] == b[|b| - 1];
    }
  }

  /** Different dotted paths are different places of the trie. */
  lemma SamePath(a: Config, b: Config)
    ensures PathOf(a) == PathOf(b) <==> a.path == b.path
  {
    KeysOfAppend(Root, SplitPath(a));
    KeysOfAppend(Root, SplitPath(b));
    assert KeysOf(PathOf(a)) == SplitPath(a) && KeysOf(PathOf(b)) == SplitPath(b);
    JoinSplit(a.path, '.');
    JoinSplit(b.path, '.');
  }

  /** A row is the one that counts for its path when no later row has the same dotted path. */
  lemma {:induction false} LastRowCounts(configs: seq<Config>, i: nat)
    requires i < |configs|
    requires forall j :: i < j < |configs| ==> configs[j].path != configs[i].path
    ensures LastWith(configs, PathOf(configs[i])) == Some(configs[i])
    decreases |configs|
  {
    if i < |configs| - 1 {
      SamePath(configs[|configs| - 1], configs[i]);
      LastRowCounts(configs[..|configs| - 1], i);
    }
  }

  lemma {:induction false} PrefixMeans(p: Path, q: Path)
    ensures IsPrefix(p, q) <==> KeysOf(p) <= KeysOf(q)
  {
    if IsPrefix(p, q) && p != q {
      PrefixMeans(p, q.parent);
    }
    if KeysOf(p) <= KeysOf(q) {
      if KeysOf(p) == KeysOf(q) {
        AppendKeysOf(p);
        AppendKeysOf(q);
      } else {
        assert KeysOf(p) == KeysOf(q.parent)[..|KeysOf(p)|];
        PrefixMeans(p, q.parent);
      }
    }
  }

  lemma KeysOfPath(c: Config)
    ensures KeysOf(PathOf(c)) == SplitPath(c)
  {
    KeysOfAppend(Root, SplitPath(c));
    assert [] + SplitPath(c) == SplitPath(c);
  }

  lemma {:induction false} KeptAround(before: seq<Config>, c: Config, after: seq<Config>)
    requires !Skipped(c)
    ensures Kept(before + [c] + after) == Kept(before) + [c] + Kept(after)
  {
    hide Kept, Skipped;
    KeptOne(c);
    KeptInOrder(before, [c]);
    KeptInOrder(before + [c], after);
  }

  lemma KeptOne(c: Config)
    requires !Skipped(c)
    ensures Kept([c]) == [c]
  {
    hide Skipped;
    assert [c][..0] == [];
    assert Kept([c][..0]) == [];
  }

  lemma {:induction false} KeptWithin(configs: seq<Config>, j: nat)
    requires j < |Kept(configs)|
    ensures Kept(configs)[j] in configs
  {
    var c := Kept(configs)[j];
    KeptMeans(configs, c);
    assert c in multiset(Kept(configs)) && c in multiset(configs);
  }

  /** The last row of a path is the last one kept. */
  lemma {:induction false} LastRowKept(configs: seq<Config>, i: nat)
    requires i < |configs| && !Skipped(configs[i])
    requires forall j :: i < j < |configs| ==> configs[j].path != configs[i].path
    ensures LastWith(Kept(configs), PathOf(configs[i])) == Some(configs[i])
  {
    hide Kept, Skipped, LastWith, PathOf;
    var (kept, after) := (Kept(configs), configs[i + 1..]);
    KeptAround(configs[..i], configs[i], after);
    assert configs == configs[..i] + [configs[i]] + after;
    var n := |Kept(configs[..i])|;
    forall j | n < j < |kept| ensures kept[j].path != configs[i].path {
      KeptWithin(after, j - n - 1);
      var k :| 0 <= k < |after| && after[k] == kept[j];
      assert configs[i + 1 + k] == kept[j];
    }
    LastRowCounts(kept, n);
  }

  /** The headline in terms of the rows: the last row of a dotted path is printed, at that path or under one
      more key "root", if and only if no row is kept whose path goes on with "root" from there. */
  lemma {:induction false} RowIsPrinted(configs: seq<Config>, i: nat)
    requires i < |configs| && !Skipped(configs[i])
    requires forall j :: i < j < |configs| ==> configs[j].path != configs[i].path
    ensures Sound(Built(Kept(configs)), MaxLength(Kept(configs))) && LeavesHaveValues(Built(Kept(configs)))
    ensures
      var c := configs[i];
      var doc := DocOf(Built(Kept(configs)), Root, MaxLength(Kept(configs)));
      && ((exists keys :: Lookup(doc, keys) == Some(c)) <==>
            forall d :: d in Kept(configs) ==> !(SplitPath(c) + ["root"] <= SplitPath(d)))
      && (forall keys :: Lookup(doc, keys) == Some(c) ==> keys == SplitPath(c) || keys == SplitPath(c) + ["root"])
  {
    var (c, kept) := (configs[i], Kept(configs));
    var q := PathOf(c);
    LastRowKept(configs, i);
    EachConfigOnce(kept, q, c);
    WhereFound(kept, q, c);
    KeysOfPath(c);
    hide Built, DocOf, Lookup, PathOf, KeysOf, LastWith, Kept, Sound, LeavesHaveValues;
    RootRows(kept, c);
  }

  lemma RootRows(kept: seq<Config>, c: Config)
    ensures OnSomePath(Down(PathOf(c), ROOT_KEY), kept)
       <==> exists d :: d in kept && SplitPath(c) + ["root"] <= SplitPath(d)
  {
    var p := Down(PathOf(c), ROOT_KEY);
    KeysOfPath(c);
    assert KeysOf(p) == SplitPath(c) + ["root"];
    forall d ensures IsPrefix(p, PathOf(d)) <==> SplitPath(c) + ["root"] <= SplitPath(d) {
      PrefixMeans(p, PathOf(d));
      KeysOfPath(d);
    }
    hide PathOf, SplitPath, IsPrefix;
    if OnSomePath(p, kept) {
      var j :| 0 <= j < |kept| && IsPrefix(p, PathOf(kept[j]));
      assert kept[j] in kept;
    }
    if d :| d in kept && SplitPath(c) + ["root"] <= SplitPath(d) {
      var j :| 0 <= j < |kept| && kept[j] == d;
      assert IsPrefix(p, PathOf(kept[j]));
    }
  }

  lemma {:induction false} WhereFound(configs: seq<Config>, q: Path, c: Config)
    requires LastWith(configs, q) == Some(c)
    requires Sound(Built(configs), MaxLength(configs)) && LeavesHaveValues(Built(configs))
    ensures forall keys :: Lookup(DocOf(Built(configs), Root, MaxLength(configs)), keys) == Some(c) ==>
      keys == KeysOf(q) || keys == KeysOf(q) + [ROOT_KEY]
  {
    TrieContents(configs);
    LastWithOnPath(configs, q);
    var (t, n) := (Built(configs), MaxLength(configs));
    forall keys | Lookup(DocOf(t, Root, n), keys) == Some(c)
      ensures keys == KeysOf(q) || keys == KeysOf(q) + [ROOT_KEY]
    {
      LookupMeans(t, Root, n, keys);
      FoundAt(configs, q, c, keys);
      assert KeysOf(q) + [] == KeysOf(q);
    }
  }

  /** For example, the parameter `a` is lost when there is also a parameter `a.root`. */
  lemma RootHidesParent(meaning: string, other: string)
    ensures var configs := [Config("a", meaning), Config("a.root", other)];
      && Kept(configs) == configs && Sound(Built(configs), MaxLength(configs)) && LeavesHaveValues(Built(configs))
      && forall keys :: Lookup(DocOf(Built(configs), Root, MaxLength(configs)), keys) != Some(configs[0])
  {
    var configs := [Config("a", meaning), Config("a.root", other)];
    var q := Down(Root, "a");
    SplitExamples();
    assert Append(q, []) == q && Append(q, ["root"]) == Down(q, "root");
    assert ["a"][1..] == [] && ["a", "root"][1..] == ["root"] && ["root"][1..] == [];
    assert PathOf(configs[0]) == q && PathOf(configs[1]) == Down(q, ROOT_KEY);
    assert |SKIPPED| > 6;
    assert configs[..1] == [configs[0]] && configs[..1][..0] == [];
    assert Kept(configs[..1][..0]) == [] && Kept(configs[..1]) == [configs[0]];
    assert LastWith(configs[..1], q) == Some(configs[0]);
    assert IsPrefix(Down(q, ROOT_KEY), PathOf(configs[1]));
    EachConfigOnce(configs, q, configs[0]);
  }

  lemma SplitExamples()
    ensures Split("a", '.') == ["a"] && Split("a.root", '.') == ["a", "root"]
  {
    SplitPrefix("a", "", '.');
    SplitPrefix("root", "", '.');
    SplitPrefix("a", ".root", '.');
    assert "a" + "" == "a" && "root" + "" == "root" && "a" + ".root" == "a.root" && ".root"[1..] == "root";
  }

  lemma {:induction false} PlacedAt(t: Trie, q: Path)
    requires WellFormed(t) && q in t && ROOT_KEY !in t[q].kids
    ensures Placed(t, Root, KeysOf(q) + (if t[q].order == [] then [] else [ROOT_KEY])) == t[q].value
  {
    var keys := KeysOf(q) + (if t[q].order == [] then [] else [ROOT_KEY]);
    AppendKeysOf(q);
    AppendSnoc(Root, KeysOf(q), ROOT_KEY);
    assert KeysOf(q) + [] == KeysOf(q);
    assert t[q].order != [] ==> keys[..|keys| - 1] == KeysOf(q);
  }

  lemma {:induction false} FoundAt(configs: seq<Config>, q: Path, c: Config, keys: seq<string>)
    requires q in Built(configs) && Built(configs)[q].value == Some(c)
    requires Placed(Built(configs), Root, keys) == Some(c)
    ensures keys == KeysOf(q) + (if Built(configs)[q].order == [] then [] else [ROOT_KEY])
    ensures Built(configs)[q].order == [] || Down(q, ROOT_KEY) !in Built(configs)
  {
    var t := Built(configs);
    TrieContents(configs);
    LastWithMeans(configs, q);
    var at := Append(Root, keys);
    KeysOfAppend(Root, keys);
    assert [] + keys == keys;
    if at in t {
      LastWithMeans(configs, at);
      assert at == q;
      assert KeysOf(q) + [] == KeysOf(q);
    } else {
      var front := keys[..|keys| - 1];
      var parent := Append(Root, front);
      LastWithMeans(configs, parent);
      assert parent == q;
      KeysOfAppend(Root, front);
      assert [] + front == front && keys == front + [ROOT_KEY];
      AppendSnoc(Root, front, ROOT_KEY);
    }
  }

  /** From the table rows to the printed schema and back. */
  method SerializeConfigs(configs: seq<Config>) returns (tokens: Option<seq<Token>>)
    ensures tokens.Some? <==> Kept(configs) != []
    ensures tokens.Some? ==>
      Sound(Built(Kept(configs)), MaxLength(Kept(configs))) && LeavesHaveValues(Built(Kept(configs))) &&
      ReadDoc(tokens.value) == Some((DocOf(Built(Kept(configs)), Root, MaxLength(Kept(configs))), []))
  {
    ghost var kept := Kept(configs);
    WriteSucceeds(kept);
    var root, nodes := Extract(configs);
    tokens := Write(root, nodes, Built(kept), Root, MaxLength(kept));
  }
}
