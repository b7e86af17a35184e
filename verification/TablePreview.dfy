/** `fetch_table_preview`: a validated table name, a bounded row count, and a cache that answers for the
    query it saves. */
module TablePreview {
  import opened Text
  import opened Wrappers

  // ----- validation -----

  datatype PreviewError = BadTable | QueryFailed(status: nat)

  predicate WordChar(c: char) {
    'A' <= c <= 'Z' || 'a' <= c <= 'z' || '0' <= c <= '9' || c == '_'
  }

  predicate Word(s: string) {
    s != "" && forall i | 0 <= i < |s| :: WordChar(s[i])
  }

  /** The pattern for a part is anchored with `$`, which also matches before a final newline. */
  predicate Ident(part: string) {
    Word(part) || (part != "" && part[|part| - 1] == '\n' && Word(part[..|part| - 1]))
  }

  datatype Table = Table(catalog: string, schema: string, name: string)

  function ParseTable(table: Option<string>): Result<Table, PreviewError> {
    var parts := Split(if table == None then "" else table.value, '.');
    if |parts| == 3 && Ident(parts[0]) && Ident(parts[1]) && Ident(parts[2])
    then Ok(Table(parts[0], parts[1], parts[2]))
    else Err(BadTable)
  }

  function Qualified(t: Table): string {
    t.catalog + "." + t.schema + "." + t.name
  }

  ghost predicate ValidTable(t: Table) {
    Ident(t.catalog) && Ident(t.schema) && Ident(t.name)
  }

  lemma IdentHasNoDot(part: string)
    requires Ident(part)
    ensures '.' !in part
  {
    forall i | 0 <= i < |part| ensures part[i] != '.' {
      if !Word(part) && i < |part| - 1 {
        assert part[i] == part[..|part| - 1][i];
      }
    }
  }

  lemma QualifiedIsJoin(t: Table)
    ensures Qualified(t) == Join([t.catalog, t.schema, t.name], ".")
  {
    var parts := [t.catalog, t.schema, t.name];
    var rest := parts[1..];
    assert rest == [t.schema, t.name] && rest[1..] == [t.name];
    assert Join(rest[1..], ".") == t.name;
    assert Join(rest, ".") == t.schema + "." + t.name;
    assert t.catalog + "." + (t.schema + "." + t.name) == Qualified(t);
  }

  /** Parsing accepts exactly the qualified names of valid tables, and takes each apart again. */
  lemma ParseTableMeans(table: string, t: Table)
    ensures ParseTable(Some(table)) == Ok(t) <==> ValidTable(t) && table == Qualified(t)
  {
    QualifiedIsJoin(t);
    if ValidTable(t) {
      IdentHasNoDot(t.catalog);
      IdentHasNoDot(t.schema);
      IdentHasNoDot(t.name);
      SplitJoin([t.catalog, t.schema, t.name], '.');
    }
    if ParseTable(Some(table)) == Ok(t) {
      JoinSplit(table, '.');
      assert Split(table, '.') == [t.catalog, t.schema, t.name];
    }
  }

  /** The parts of an accepted name hold word characters only, as the comment on the pattern promises, if and
      only if there is no newline in the name. */
  lemma WordsIffNoNewline(table: string, t: Table)
    requires ParseTable(Some(table)) == Ok(t)
    ensures Word(t.catalog) && Word(t.schema) && Word(t.name) <==> '\n' !in table
  {
    ParseTableMeans(table, t);
    WordHasNoNewline(t.catalog);
    WordHasNoNewline(t.schema);
    WordHasNoNewline(t.name);
  }

  lemma WordHasNoNewline(part: string)
    requires Ident(part)
    ensures Word(part) <==> '\n' !in part
  {
    if '\n' in part {
      var i :| 0 <= i < |part| && part[i] == '\n';
      assert !WordChar(part[i]);
    }
  }

  /** For example, a name that ends in a newline is accepted. */
  lemma NewlineIsAccepted()
    ensures ParseTable(Some("a.b.c\n")) == Ok(Table("a", "b", "c\n"))
  {
    ParseTableMeans("a.b.c\n", Table("a", "b", "c\n"));
  }

  /** What the caller passed for the number of rows: nothing, something `int` rejects, or a number. */
  datatype Rows = Omitted | NotANumber | Number(n: int)

  const DEFAULT_ROWS := 100
  const MAX_ROWS := 1000

  function Distance(a: int, b: int): int {
    if a < b then b - a else a - b
  }

  function ClampRows(rows: Rows): (n: int)
    ensures 1 <= n <= 1000
    ensures rows.Number? ==> forall m | 1 <= m <= 1000 :: Distance(n, rows.n) <= Distance(m, rows.n)
    ensures !rows.Number? ==> n == 100
  {
    match rows
    case Number(n) => if n < 1 then 1 else if n > MAX_ROWS then MAX_ROWS else n
    case _ => DEFAULT_ROWS
  }

  // ----- the cache -----

  const TTL_SECONDS := 60.0

  datatype CacheKey = CacheKey(qualified: string, rows: int, version: Option<string>)
  datatype Entry<P> = Entry(at: real, payload: P)
  type Cache<P> = map<CacheKey, Entry<P>>

  /** A call at a time, together with what the query would answer at that time. */
  datatype Request<P> = Request(
    table: Option<string>, rows: Rows, version: Option<string>, now: real, answer: Result<P, PreviewError>)

  datatype Preview<P> = Preview(payload: P, cached: bool)
  datatype Fetched<P> = Fetched(cache: Cache<P>, reply: Result<Preview<P>, PreviewError>)

  predicate Accepted<P>(q: Request<P>) {
    ParseTable(q.table).Ok?
  }

  function KeyOf<P>(q: Request<P>): CacheKey
    requires Accepted(q)
  {
    CacheKey(Qualified(ParseTable(q.table).value), ClampRows(q.rows), q.version)
  }

  predicate Hit<P>(cache: Cache<P>, q: Request<P>)
    requires Accepted(q)
  {
    KeyOf(q) in cache && (q.version.Some? || q.now - cache[KeyOf(q)].at < TTL_SECONDS)
  }

  function Fetch<P>(cache: Cache<P>, q: Request<P>): Fetched<P> {
    if !Accepted(q) then Fetched(cache, Err(BadTable))
    else if Hit(cache, q) then Fetched(cache, Ok(Preview(cache[KeyOf(q)].payload, true)))
    else match q.answer
         case Err(e) => Fetched(cache, Err(e))
         case Ok(payload) => Fetched(cache[KeyOf(q) := Entry(q.now, payload)], Ok(Preview(payload, false)))
  }

  function After<P>(requests: seq<Request<P>>): Cache<P> {
    if requests == [] then map[]
    else Fetch(After(requests[..|requests| - 1]), requests[|requests| - 1]).cache
  }

  function ReplyTo<P>(requests: seq<Request<P>>, i: nat): Result<Preview<P>, PreviewError>
    requires i < |requests|
  {
    Fetch(After(requests[..i]), requests[i]).reply
  }

  /** Equal keys mean the same table, row count and version: no part of a table name holds a dot. */
  lemma KeysAreDistinct<P>(a: Request<P>, b: Request<P>)
    requires Accepted(a) && Accepted(b)
    ensures KeyOf(a) == KeyOf(b)
       <==> ParseTable(a.table) == ParseTable(b.table) && ClampRows(a.rows) == ClampRows(b.rows)
            && a.version == b.version
  {
    var ta, tb := ParseTable(a.table).value, ParseTable(b.table).value;
    assert a.table.Some? && b.table.Some? by {
      assert Split("", '.') == [""];
    }
    ParseTableMeans(a.table.value, ta);
    ParseTableMeans(b.table.value, tb);
  }

  /** The request that put an entry into the cache. */
  ghost predicate Stored<P>(requests: seq<Request<P>>, i: nat, key: CacheKey, entry: Entry<P>) {
    && i < |requests| && Accepted(requests[i]) && KeyOf(requests[i]) == key
    && requests[i].now == entry.at && requests[i].answer == Ok(entry.payload)
  }

  lemma {:induction false} EntriesHaveOrigin<P>(requests: seq<Request<P>>, key: CacheKey) returns (i: nat)
    requires key in After(requests)
    ensures Stored(requests, i, key, After(requests)[key])
  {
    var n := |requests| - 1;
    var q := requests[n];
    if Accepted(q) && KeyOf(q) == key && !Hit(After(requests[..n]), q) && q.answer.Ok? {
      i := n;
    } else {
      i := EntriesHaveOrigin(requests[..n], key);
    }
  }

  /** The `i`-th call was for the key, and it was answered. */
  ghost predicate Answered<P>(requests: seq<Request<P>>, i: int, key: CacheKey) {
    0 <= i < |requests| && Accepted(requests[i]) && KeyOf(requests[i]) == key && ReplyTo(requests, i).Ok?
  }

  lemma AnsweredBefore<P>(requests: seq<Request<P>>, i: int, key: CacheKey)
    requires requests != [] && i < |requests| - 1
    ensures Answered(requests, i, key) <==> Answered(requests[..|requests| - 1], i, key)
  {
    if 0 <= i {
      assert requests[..|requests| - 1][..i] == requests[..i];
    }
  }

  /** A key is in the cache if and only if an earlier call with it was answered. */
  lemma {:induction false} CachedIffAnswered<P>(requests: seq<Request<P>>, key: CacheKey)
    ensures key in After(requests) <==> exists i :: Answered(requests, i, key)
  {
    if requests != [] {
      var n := |requests| - 1;
      var before := requests[..n];
      CachedIffAnswered(before, key);
      assert key in After(requests) <==> key in After(before) || Answered(requests, n, key);
      forall i | i < n ensures Answered(requests, i, key) <==> Answered(before, i, key) {
        AnsweredBefore(requests, i, key);
      }
      if i :| Answered(before, i, key) {
        assert Answered(requests, i, key);
      }
    }
  }

  /** With a known version, a call is a hit if and only if the same preview was answered before. */
  lemma {:induction false} VersionedHit<P>(requests: seq<Request<P>>, q: Request<P>)
    requires Accepted(q) && q.version.Some?
    ensures Hit(After(requests), q) <==> exists i :: Answered(requests, i, KeyOf(q))
  {
    CachedIffAnswered(requests, KeyOf(q));
  }

  /** The contents of a table change only with its version: equal previews at a version are equal. */
  ghost predicate ChangesOnlyWithVersion<P(!new)>(requests: seq<Request<P>>, q: Request<P>) {
    forall i | 0 <= i < |requests| && Accepted(requests[i]) && Accepted(q) ::
      ParseTable(requests[i].table) == ParseTable(q.table) && ClampRows(requests[i].rows) == ClampRows(q.rows)
      && requests[i].version == q.version && q.version.Some? && requests[i].answer.Ok? && q.answer.Ok?
      ==> requests[i].answer == q.answer
  }

  /** A hit with a known version shows what the query would answer now, as long as the contents change
      only with the version. */
  lemma {:induction false} VersionedHitIsFresh<P(!new)>(requests: seq<Request<P>>, q: Request<P>)
    requires q.version.Some? && q.answer.Ok? && ChangesOnlyWithVersion(requests, q)
    ensures var reply := Fetch(After(requests), q).reply;
      reply.Ok? <==> Accepted(q)
    ensures var reply := Fetch(After(requests), q).reply;
      reply.Ok? ==> reply.value.payload == q.answer.value
  {
    if Accepted(q) && Hit(After(requests), q) {
      var i := EntriesHaveOrigin(requests, KeyOf(q));
      KeysAreDistinct(requests[i], q);
    }
  }

  /** A hit without a version shows what the query answered for the same table and row count, also
      without a version, less than 60 seconds earlier; earlier indeed, because the clock is monotonic. */
  lemma UnversionedHitIsRecent<P>(requests: seq<Request<P>>, q: Request<P>) returns (i: nat)
    requires Accepted(q) && q.version == None && Hit(After(requests), q)
    ensures i < |requests| && Accepted(requests[i])
    ensures ParseTable(requests[i].table) == ParseTable(q.table)
    ensures ClampRows(requests[i].rows) == ClampRows(q.rows) && requests[i].version == None
    ensures q.now - requests[i].now < TTL_SECONDS
    ensures (forall k :: 0 <= k < |requests| ==> requests[k].now <= q.now) ==> 0.0 <= q.now - requests[i].now
    ensures requests[i].answer.Ok?
    ensures Fetch(After(requests), q).reply == Ok(Preview(requests[i].answer.value, true))
  {
    i := EntriesHaveOrigin(requests, KeyOf(q));
    KeysAreDistinct(requests[i], q);
  }

  // ----- exactly when a call is a hit -----

  /** The `i`-th call was for the key, and the query answered it. */
  ghost predicate Queried<P>(requests: seq<Request<P>>, i: int, key: CacheKey) {
    Answered(requests, i, key) && !ReplyTo(requests, i).value.cached
  }

  ghost predicate LastQueried<P>(requests: seq<Request<P>>, i: int, key: CacheKey) {
    Queried(requests, i, key) && forall j :: i < j < |requests| ==> !Queried(requests, j, key)
  }

  lemma QueriedBefore<P>(requests: seq<Request<P>>, i: int, key: CacheKey)
    requires requests != [] && i < |requests| - 1
    ensures Queried(requests, i, key) <==> Queried(requests[..|requests| - 1], i, key)
  {
    AnsweredBefore(requests, i, key);
    if 0 <= i {
      assert requests[..|requests| - 1][..i] == requests[..i];
    }
  }

  /** A call that the query does not answer leaves what is cached under the key. */
  lemma {:induction false} OnlyQueriesStore<P>(requests: seq<Request<P>>, key: CacheKey)
    requires requests != [] && !Queried(requests, |requests| - 1, key)
    ensures var before := After(requests[..|requests| - 1]);
      && (key in After(requests) <==> key in before)
      && (key in before ==> After(requests)[key] == before[key])
  {
    var n := |requests| - 1;
    var cache := After(requests[..n]);
    assert After(requests) == Fetch(cache, requests[n]).cache;
    if Accepted(requests[n]) && KeyOf(requests[n]) == key {
      assert ReplyTo(requests, n) == Fetch(cache, requests[n]).reply;
      hide After, KeyOf, Hit;
      assert requests[n].answer.Err? || Hit(cache, requests[n]);
    } else {
      OtherKeyStays(cache, requests[n], key);
    }
  }

  lemma OtherKeyStays<P>(cache: Cache<P>, q: Request<P>, key: CacheKey)
    requires !Accepted(q) || KeyOf(q) != key
    ensures key in Fetch(cache, q).cache <==> key in cache
    ensures key in cache ==> Fetch(cache, q).cache[key] == cache[key]
  {
  }

  /** What is cached under a key is the answer to the last call for it that was not itself a hit. */
  lemma {:induction false} EntryIsLastQueried<P>(requests: seq<Request<P>>, key: CacheKey, i: int)
    requires LastQueried(requests, i, key)
    ensures key in After(requests) && requests[i].answer.Ok?
    ensures After(requests)[key] == Entry(requests[i].now, requests[i].answer.value)
    decreases |requests|
  {
    var n := |requests| - 1;
    var before := requests[..n];
    if i < n {
      OnlyQueriesStore(requests, key);
      forall j | j < n ensures Queried(requests, j, key) <==> Queried(before, j, key) {
        QueriedBefore(requests, j, key);
      }
      hide Queried, After;
      EntryIsLastQueried(before, key, i);
    }
  }

  lemma {:induction false} SomeLastQueried<P>(requests: seq<Request<P>>, key: CacheKey) returns (i: int)
    requires key in After(requests)
    ensures LastQueried(requests, i, key)
    decreases |requests|
  {
    var n := |requests| - 1;
    var before := requests[..n];
    if Queried(requests, n, key) {
      i := n;
    } else {
      OnlyQueriesStore(requests, key);
      hide Queried, After;
      i := SomeLastQueried(before, key);
      forall j | j < n ensures Queried(requests, j, key) <==> Queried(before, j, key) {
        QueriedBefore(requests, j, key);
      }
    }
  }

  /** A call is a hit if and only if the query answered a call for the same preview before, and with no known
      version the last such answer is less than 60 seconds old; the hit repeats that answer. */
  lemma {:induction false} HitIffRecentlyQueried<P>(requests: seq<Request<P>>, q: Request<P>)
    requires Accepted(q)
    ensures Hit(After(requests), q)
       <==> exists i :: LastQueried(requests, i, KeyOf(q)) && (q.version == None ==> q.now - requests[i].now < 60.0)
    ensures forall i :: LastQueried(requests, i, KeyOf(q)) && Hit(After(requests), q) ==>
      requests[i].answer.Ok? && Fetch(After(requests), q).reply == Ok(Preview(requests[i].answer.value, true))
    ensures !Hit(After(requests), q) && q.answer.Ok? ==>
      Fetch(After(requests), q).reply == Ok(Preview(q.answer.value, false))
    ensures !Hit(After(requests), q) && q.answer.Err? ==>
      Fetch(After(requests), q).reply == Err(q.answer.error)
  {
    var key := KeyOf(q);
    if key in After(requests) {
      var i := SomeLastQueried(requests, key);
      EntryIsLastQueried(requests, key, i);
    }
    forall i | LastQueried(requests, i, key)
      ensures key in After(requests) && requests[i].answer.Ok?
      ensures After(requests)[key] == Entry(requests[i].now, requests[i].answer.value)
    {
      EntryIsLastQueried(requests, key, i);
    }
  }

  // ----- the same as code -----

  class Previews<P> {
    var cache: Cache<P>

    constructor ()
      ensures cache == map[]
    {
      cache := map[];
    }

    /** `answer` is what the query returns or raises if it is made. */
    method FetchTablePreview(table: Option<string>, n: Rows, version: Option<string>, now: real,
                             answer: Result<P, PreviewError>) returns (reply: Result<Preview<P>, PreviewError>)
      modifies this
      ensures cache == Fetch(old(cache), Request(table, n, version, now, answer)).cache
      ensures reply == Fetch(old(cache), Request(table, n, version, now, answer)).reply
    {
      var parsed := ParseTable(table);
      if parsed.Err? {
        return Err(parsed.error);
      }
      var key := CacheKey(Qualified(parsed.value), ClampRows(n), version);
      if key in cache && (version.Some? || now - cache[key].at < TTL_SECONDS) {
        return Ok(Preview(cache[key].payload, true));
      }
      if answer.Err? {
        return Err(answer.error);
      }
      cache := cache[key := Entry(now, answer.value)];
      return Ok(Preview(answer.value, false));
    }
  }
}
