/** `SparkConfigNode.write`: the trie is printed as nested field declarations. The token stream is read
    back here, to see which configs it still holds, and where. */
module SparkPrinter {
  import opened Wrappers
  import opened SparkTrie

  datatype Token =
    | ConfigField(config: Config)
    | FieldOpen | PermissiveOpen | FieldsOpen
    | Key(key: string) | Comma
    | FieldsClose | PermissiveClose | FieldClose

  const OPENING := [FieldOpen, PermissiveOpen, FieldsOpen]
  const CLOSING := [FieldsClose, PermissiveClose, FieldClose]
  const ROOT_KEY := "root"

  function Without(keys: seq<string>, k: string): (r: seq<string>)
    ensures forall x :: x in r <==> x in keys && x != k
  {
    if keys == [] then []
    else
      assert keys == [keys[0]] + keys[1..];
      (if keys[0] == k then [] else [keys[0]]) + Without(keys[1..], k)
  }

  /** The keys of `retdict`: a node's own value goes first, under "root", and the children update that. */
  function EntryKeys(v: View): seq<string> {
    if v.value.Some? then [ROOT_KEY] + Without(v.order, ROOT_KEY) else v.order
  }

  /** No path is longer than `n`. */
  ghost predicate Within(t: Trie, n: nat) {
    forall p :: p in t ==> Length(p) <= n
  }

  ghost predicate Sound(t: Trie, n: nat) {
    WellFormed(t) && Ordered(t) && Within(t, n)
  }

  lemma {:induction false} ListsMembers(order: seq<string>, keys: set<string>)
    requires Lists(order, keys)
    ensures forall k :: k in order <==> k in keys
  {
    if order != [] {
      ListsMembers(order[..|order| - 1], keys - {order[|order| - 1]});
      assert order == order[..|order| - 1] + [order[|order| - 1]];
    }
  }

  lemma {:induction false} KidsAreNodes(t: Trie, p: Path, n: nat)
    requires Sound(t, n) && p in t
    ensures forall k :: k in t[p].order <==> k in t[p].kids
    ensures forall k :: k in t[p].kids <==> Down(p, k) in t
    ensures forall k :: k in t[p].kids ==> Length(p) < n
  {
    ListsMembers(t[p].order, t[p].kids);
    forall k | k in t[p].kids ensures Length(p) < n {
      assert Down(p, k) in t;
    }
  }

  /** The tokens for the node at `p`; None stands for the failed assertion on a node without value and
      children. */
  ghost function Tokens(t: Trie, p: Path, n: nat): Option<seq<Token>>
    requires Sound(t, n) && p in t
    decreases n - Length(p), 1, 0
  {
    if t[p].order == [] then
      match t[p].value
      case None => None
      case Some(c) => Some([ConfigField(c)])
    else
      KidsAreNodes(t, p, n);
      Extend(OPENING, EntryTokens(t, p, n, EntryKeys(t[p])))
  }

  ghost function EntryTokens(t: Trie, p: Path, n: nat, keys: seq<string>): Option<seq<Token>>
    requires Sound(t, n) && p in t
    requires forall k :: k in keys ==> k in t[p].kids || (k == ROOT_KEY && t[p].value.Some?)
    decreases n - Length(p), 0, |keys|
  {
    if keys == [] then Some(CLOSING)
    else
      KidsAreNodes(t, p, n);
      var here :=
        if keys[0] in t[p].kids then Tokens(t, Down(p, keys[0]), n) else Some([ConfigField(t[p].value.value)]);
      match here
      case None => None
      case Some(tokens) => Extend([Key(keys[0])] + tokens + [Comma], EntryTokens(t, p, n, keys[1..]))
  }

  // ----- the code -----

  method Write(node: SparkConfigNode, ghost nodes: Index, ghost t: Trie, ghost p: Path, ghost n: nat)
    returns (r: Option<seq<Token>>)
    requires Sound(t, n) && Shows(nodes, t) && p in nodes && nodes[p] == node
    ensures r == Tokens(t, p, n)
    decreases n - Length(p)
  {
    hide Sound, Within;
    assert ShowsAt(nodes, p, t[p]);
    hide Shows;
    KidsAreNodes(t, p, n);
    if node.order == [] {
      if node.value == None {
        return None;
      }
      return Some([ConfigField(node.value.value)]);
    }
    var keys := if node.value.Some? then [ROOT_KEY] + Without(node.order, ROOT_KEY) else node.order;
    var printed := OPENING;
    for i := 0 to |keys|
      invariant Tokens(t, p, n) == Extend(printed, EntryTokens(t, p, n, keys[i..]))
    {
      assert keys[i..][1..] == keys[i + 1..];
      var tokens: Option<seq<Token>>;
      if keys[i] in node.children {
        tokens := Write(node.children[keys[i]], nodes, t, Down(p, keys[i]), n);
      } else {
        tokens := Some([ConfigField(node.value.value)]);
      }
      if tokens == None {
        return None;
      }
      ghost var rest := EntryTokens(t, p, n, keys[i + 1..]);
      ExtendTwice(printed, [Key(keys[i])] + tokens.value + [Comma], rest);
      printed := printed + ([Key(keys[i])] + tokens.value + [Comma]);
    }
    return Some(printed + CLOSING);
  }

  // ----- reading the tokens back -----

  datatype Doc = Leaf(config: Config) | Shape(fields: map<string, Doc>)

  function ReadDoc(ts: seq<Token>): (r: Option<(Doc, seq<Token>)>)
    ensures r.Some? ==> |r.value.1| < |ts|
    decreases |ts|
  {
    if ts == [] then None
    else if ts[0].ConfigField? then Some((Leaf(ts[0].config), ts[1..]))
    else if OPENING <= ts then
      match ReadFields(ts[3..], map[])
      case None => None
      case Some((fields, rest)) => Some((Shape(fields), rest))
    else None
  }

  /** Entries up to the closing brackets; a key may not come twice. */
  function ReadFields(ts: seq<Token>, fields: map<string, Doc>): (r: Option<(map<string, Doc>, seq<Token>)>)
    ensures r.Some? ==> |r.value.1| < |ts|
    decreases |ts|
  {
    if ts == [] then None
    else if CLOSING <= ts then Some((fields, ts[3..]))
    else if ts[0].Key? && ts[0].key !in fields then
      match ReadDoc(ts[1..])
      case None => None
      case Some((doc, rest)) =>
        if rest != [] && rest[0] == Comma then ReadFields(rest[1..], fields[ts[0].key := doc]) else None
    else None
  }

  // ----- what the printed document means -----

  /** Every node without children has a value, so the assertion never fails. */
  ghost predicate LeavesHaveValues(t: Trie) {
    forall p :: p in t ==> t[p].order == [] ==> t[p].value.Some?
  }

  ghost function DocOf(t: Trie, p: Path, n: nat): Doc
    requires Sound(t, n) && LeavesHaveValues(t) && p in t
    decreases n - Length(p), 1, 0
  {
    if t[p].order == [] then Leaf(t[p].value.value)
    else
      KidsAreNodes(t, p, n);
      Shape(FieldsOf(t, p, n, EntryKeys(t[p])))
  }

  ghost predicate EntriesOf(t: Trie, p: Path, keys: seq<string>)
    requires p in t
  {
    forall k :: k in keys ==> k in t[p].kids || (k == ROOT_KEY && t[p].value.Some?)
  }

  ghost function EntryDoc(t: Trie, p: Path, n: nat, k: string): Doc
    requires Sound(t, n) && LeavesHaveValues(t) && p in t
    requires k in t[p].kids || (k == ROOT_KEY && t[p].value.Some?)
    decreases n - Length(p), 0, 0
  {
    KidsAreNodes(t, p, n);
    if k in t[p].kids then DocOf(t, Down(p, k), n) else Leaf(t[p].value.value)
  }

  ghost function FieldsOf(t: Trie, p: Path, n: nat, keys: seq<string>): (r: map<string, Doc>)
    requires Sound(t, n) && LeavesHaveValues(t) && p in t && EntriesOf(t, p, keys)
    ensures forall k :: k in r <==> k in keys
    ensures forall k :: k in r ==> r[k] == EntryDoc(t, p, n, k)
    decreases n - Length(p), 0, |keys| + 1
  {
    map k | k in keys :: EntryDoc(t, p, n, k)
  }

  lemma {:induction false} ListsAreDistinct(order: seq<string>, keys: set<string>)
    requires Lists(order, keys)
    ensures Distinct(order)
  {
    if order != [] {
      var init, last := order[..|order| - 1], order[|order| - 1];
      ListsAreDistinct(init, keys - {last});
      ListsMembers(init, keys - {last});
      forall i, j | 0 <= i < j < |order| ensures order[i] != order[j] {
        assert order[i] == init[i] && init[i] in init;
        assert j < |order| - 1 ==> order[j] == init[j];
      }
    }
  }

  lemma {:induction false} WithoutStaysDistinct(keys: seq<string>, k: string)
    requires Distinct(keys)
    ensures Distinct(Without(keys, k))
  {
    if keys != [] {
      assert forall i :: 0 <= i < |keys| - 1 ==> keys[1..][i] == keys[i + 1];
      WithoutStaysDistinct(keys[1..], k);
      assert keys[0] !in keys[1..];
      assert keys[0] !in Without(keys[1..], k);
    }
  }

  lemma EntryKeysFacts(t: Trie, p: Path, n: nat)
    requires Sound(t, n) && p in t
    ensures Distinct(EntryKeys(t[p])) && EntriesOf(t, p, EntryKeys(t[p]))
    ensures forall k :: k in EntryKeys(t[p]) <==> k in t[p].kids || (k == ROOT_KEY && t[p].value.Some?)
  {
    KidsAreNodes(t, p, n);
    ListsAreDistinct(t[p].order, t[p].kids);
    WithoutStaysDistinct(t[p].order, ROOT_KEY);
    var others := Without(t[p].order, ROOT_KEY);
    forall i | 0 <= i < |others| ensures others[i] != ROOT_KEY {
      assert others[i] in others;
    }
  }

  lemma {:induction false} ReadOneField(k: string, tokens: seq<Token>, doc: Doc, later: seq<Token>, rest: seq<Token>,
                     fields: map<string, Doc>)
    requires k !in fields && ReadDoc(tokens + ([Comma] + (later + rest))) == Some((doc, [Comma] + (later + rest)))
    ensures ReadFields([Key(k)] + tokens + [Comma] + later + rest, fields) == ReadFields(later + rest, fields[k := doc])
  {
    var all := [Key(k)] + tokens + [Comma] + later + rest;
    var after := [Comma] + (later + rest);
    assert all == [Key(k)] + (tokens + after);
    assert all[1..] == tokens + after && after[1..] == later + rest;
  }

  /** The printed tokens of a node read back as its document, with nothing left over. */
  lemma {:induction false} ReadBack(t: Trie, p: Path, n: nat, rest: seq<Token>)
    requires Sound(t, n) && LeavesHaveValues(t) && p in t
    ensures Tokens(t, p, n).Some?
    ensures ReadDoc(Tokens(t, p, n).value + rest) == Some((DocOf(t, p, n), rest))
    decreases n - Length(p), 1, 0
  {
    if t[p].order == [] {
      var c := t[p].value.value;
      assert ([ConfigField(c)] + rest)[1..] == rest;
    } else {
      var keys := EntryKeys(t[p]);
      EntryKeysFacts(t, p, n);
      ReadBackEntries(t, p, n, keys, 0, rest);
      assert keys[0..] == keys && keys[..0] == [];
      assert FieldsOf(t, p, n, []) == map[];
      ReadOpened(EntryTokens(t, p, n, keys).value, FieldsOf(t, p, n, keys), rest);
    }
  }

  lemma {:induction false} ReadOpened(entries: seq<Token>, fields: map<string, Doc>, rest: seq<Token>)
    requires ReadFields(entries + rest, map[]) == Some((fields, rest))
    ensures ReadDoc(OPENING + entries + rest) == Some((Shape(fields), rest))
  {
    var all := OPENING + entries + rest;
    assert all == OPENING + (entries + rest);
    assert all[3..] == entries + rest;
  }

  lemma {:induction false} ReadClosed(fields: map<string, Doc>, rest: seq<Token>)
    ensures ReadFields(CLOSING + rest, fields) == Some((fields, rest))
  {
    assert (CLOSING + rest)[3..] == rest;
  }

  lemma {:induction false} ReadBackEntries(t: Trie, p: Path, n: nat, keys: seq<string>, i: nat, rest: seq<Token>)
    requires Sound(t, n) && LeavesHaveValues(t) && p in t && EntriesOf(t, p, keys) && Distinct(keys) && i <= |keys|
    requires t[p].order != []
    ensures EntryTokens(t, p, n, keys[i..]).Some?
    ensures ReadFields(EntryTokens(t, p, n, keys[i..]).value + rest, FieldsOf(t, p, n, keys[..i]))
         == Some((FieldsOf(t, p, n, keys), rest))
    decreases n - Length(p), 0, |keys| - i
  {
    var fields := FieldsOf(t, p, n, keys[..i]);
    if i == |keys| {
      assert keys[i..] == [] && keys[..i] == keys;
      ReadClosed(fields, rest);
    } else {
      var k := keys[i];
      assert keys[i..][1..] == keys[i + 1..] && k in keys;
      KidsAreNodes(t, p, n);
      ReadBackEntries(t, p, n, keys, i + 1, rest);
      var later := EntryTokens(t, p, n, keys[i + 1..]).value;
      var tokens := EntryRead(t, p, n, k, [Comma] + (later + rest));
      assert k !in fields;
      ReadOneField(k, tokens, EntryDoc(t, p, n, k), later, rest, fields);
      FieldsGrow(t, p, n, keys, i);
      assert EntryTokens(t, p, n, keys[i..]) == Some([Key(k)] + tokens + [Comma] + later);
    }
  }

  lemma {:induction false} FieldsGrow(t: Trie, p: Path, n: nat, keys: seq<string>, i: nat)
    requires Sound(t, n) && LeavesHaveValues(t) && p in t && EntriesOf(t, p, keys) && i < |keys|
    ensures FieldsOf(t, p, n, keys[..i + 1]) == FieldsOf(t, p, n, keys[..i])[keys[i] := EntryDoc(t, p, n, keys[i])]
  {
    assert keys[..i + 1] == keys[..i] + [keys[i]];
  }

  lemma {:induction false} EntryRead(t: Trie, p: Path, n: nat, k: string, rest: seq<Token>) returns (tokens: seq<Token>)
    requires Sound(t, n) && LeavesHaveValues(t) && p in t
    requires k in t[p].kids || (k == ROOT_KEY && t[p].value.Some?)
    ensures Some(tokens) ==
      if k in t[p].kids then (KidsAreNodes(t, p, n); Tokens(t, Down(p, k), n))
      else Some([ConfigField(t[p].value.value)])
    ensures ReadDoc(tokens + rest) == Some((EntryDoc(t, p, n, k), rest))
    decreases n - Length(p), 0, 0
  {
    KidsAreNodes(t, p, n);
    if k in t[p].kids {
      ReadBack(t, Down(p, k), n, rest);
      tokens := Tokens(t, Down(p, k), n).value;
    } else {
      tokens := [ConfigField(t[p].value.value)];
      assert (tokens + rest)[1..] == rest;
    }
  }
}
