/** The rendered changelog: accepted commits are grouped by category, sorted by prefix and printed
    under one heading per category; the whole is written in front of the old changelog. */
module ChangelogSections {
  import opened ChangelogReview
  import opened Wrappers

  // ----- the order of prefixes -----

  /** Python's `<=` on strings. */
  predicate StringLe(a: string, b: string) {
    a == "" || (b != "" && (a[0] < b[0] || (a[0] == b[0] && StringLe(a[1..], b[1..]))))
  }

  lemma {:induction false} StringLeTotal(a: string, b: string)
    ensures StringLe(a, b) || StringLe(b, a)
    ensures StringLe(a, b) && StringLe(b, a) ==> a == b
  {
    if a != "" && b != "" {
      StringLeTotal(a[1..], b[1..]);
      assert a == [a[0]] + a[1..] && b == [b[0]] + b[1..];
    }
  }

  lemma {:induction false} StringLeTransitive(a: string, b: string, c: string)
    requires StringLe(a, b) && StringLe(b, c)
    ensures StringLe(a, c)
  {
    if a != "" && b != "" && c != "" && a[0] == b[0] == c[0] {
      StringLeTransitive(a[1..], b[1..], c[1..]);
    }
  }

  /** The sort key: no prefix, then `ui`, then longer prefixes before shorter ones, then by alphabet. */
  datatype SortKey = SortKey(group: int, negatedLength: int, prefix: string)

  function PrefixSortKey(c: Commit): SortKey {
    if !Given(c.prefix) then SortKey(0, 0, "")
    else if c.prefix.value == "ui" then SortKey(1, 0, "ui")
    else SortKey(2, -|c.prefix.value|, c.prefix.value)
  }

  predicate KeyLe(a: SortKey, b: SortKey) {
    || a.group < b.group
    || (a.group == b.group &&
        (a.negatedLength < b.negatedLength || (a.negatedLength == b.negatedLength && StringLe(a.prefix, b.prefix))))
  }

  predicate Le(a: Commit, b: Commit) {
    KeyLe(PrefixSortKey(a), PrefixSortKey(b))
  }

  lemma LeTotal(a: Commit, b: Commit)
    ensures Le(a, b) || Le(b, a)
    ensures Le(a, b) && Le(b, a) <==> PrefixSortKey(a) == PrefixSortKey(b)
  {
    StringLeTotal(PrefixSortKey(a).prefix, PrefixSortKey(b).prefix);
  }

  lemma LeTransitive(a: Commit, b: Commit, c: Commit)
    requires Le(a, b) && Le(b, c)
    ensures Le(a, c)
  {
    if StringLe(PrefixSortKey(a).prefix, PrefixSortKey(b).prefix)
       && StringLe(PrefixSortKey(b).prefix, PrefixSortKey(c).prefix) {
      StringLeTransitive(PrefixSortKey(a).prefix, PrefixSortKey(b).prefix, PrefixSortKey(c).prefix);
    }
  }

  // ----- stable sorting -----

  predicate Sorted(cs: seq<Commit>) {
    forall i, j | 0 <= i < j < |cs| :: Le(cs[i], cs[j])
  }

  /** The commits with one sort key, in order. */
  function WithKey(cs: seq<Commit>, key: SortKey): seq<Commit> {
    if cs == [] then []
    else (if PrefixSortKey(cs[0]) == key then [cs[0]] else []) + WithKey(cs[1..], key)
  }

  ghost predicate SameByKey(a: seq<Commit>, b: seq<Commit>) {
    forall key :: WithKey(a, key) == WithKey(b, key)
  }

  /** Python's `sort` puts a list into this order: sorted, and equal keys stay as they were. */
  function StableSort(cs: seq<Commit>): seq<Commit> {
    if cs == [] then [] else Insert(cs[0], StableSort(cs[1..]))
  }

  /** Before the first element that is not smaller. */
  function Insert(c: Commit, sorted: seq<Commit>): seq<Commit> {
    if sorted == [] || Le(c, sorted[0]) then [c] + sorted else [sorted[0]] + Insert(c, sorted[1..])
  }

  lemma {:induction false} InsertMeans(c: Commit, sorted: seq<Commit>)
    requires Sorted(sorted)
    ensures Sorted(Insert(c, sorted))
    ensures SameByKey(Insert(c, sorted), [c] + sorted)
    ensures multiset(Insert(c, sorted)) == multiset{c} + multiset(sorted)
    decreases |sorted|
  {
    if sorted != [] {
      LeTotal(c, sorted[0]);
      assert sorted == [sorted[0]] + sorted[1..];
      if Le(c, sorted[0]) {
        forall k | 0 <= k < |sorted| ensures Le(c, sorted[k]) {
          if k > 0 {
            LeTransitive(c, sorted[0], sorted[k]);
          }
        }
      } else {
        InsertMeans(c, sorted[1..]);
        InsertLater(c, sorted);
      }
    }
  }

  lemma {:induction false} InsertLater(c: Commit, sorted: seq<Commit>)
    requires Sorted(sorted) && sorted != [] && !Le(c, sorted[0]) && Le(sorted[0], c)
    requires Sorted(Insert(c, sorted[1..])) && SameByKey(Insert(c, sorted[1..]), [c] + sorted[1..])
    requires multiset(Insert(c, sorted[1..])) == multiset{c} + multiset(sorted[1..])
    ensures Sorted(Insert(c, sorted)) && SameByKey(Insert(c, sorted), [c] + sorted)
  {
    var first := sorted[0];
    var rest := Insert(c, sorted[1..]);
    forall k | 0 <= k < |rest| ensures Le(first, rest[k]) {
      assert rest[k] in multiset(rest);
      assert rest[k] == c || rest[k] in sorted[1..];
    }
    SortedCons(first, rest);
    LeTotal(c, first);
    assert sorted == [first] + sorted[1..];
    forall key ensures WithKey([first] + rest, key) == WithKey([c] + ([first] + sorted[1..]), key) {
      CommuteKeys(first, c, sorted[1..], rest, key);
    }
  }

  lemma {:induction false} CommuteKeys(first: Commit, c: Commit, tail: seq<Commit>, rest: seq<Commit>, key: SortKey)
    requires PrefixSortKey(c) != PrefixSortKey(first) && WithKey(rest, key) == WithKey([c] + tail, key)
    ensures WithKey([first] + rest, key) == WithKey([c] + ([first] + tail), key)
  {
    WithKeyCons(first, rest, key);
    WithKeyCons(c, tail, key);
    WithKeyCons(c, [first] + tail, key);
    WithKeyCons(first, tail, key);
  }

  lemma SortedCons(c: Commit, rest: seq<Commit>)
    requires Sorted(rest) && forall k | 0 <= k < |rest| :: Le(c, rest[k])
    ensures Sorted([c] + rest)
  {
  }

  lemma {:induction false} WithKeyCons(c: Commit, rest: seq<Commit>, key: SortKey)
    ensures WithKey([c] + rest, key) == (if PrefixSortKey(c) == key then [c] else []) + WithKey(rest, key)
  {
    assert ([c] + rest)[1..] == rest;
  }

  lemma {:induction false} SortMeans(cs: seq<Commit>)
    ensures Sorted(StableSort(cs)) && SameByKey(StableSort(cs), cs)
    ensures multiset(StableSort(cs)) == multiset(cs)
  {
    if cs != [] {
      SortMeans(cs[1..]);
      InsertMeans(cs[0], StableSort(cs[1..]));
      assert cs == [cs[0]] + cs[1..];
      forall key ensures WithKey(StableSort(cs), key) == WithKey(cs, key) {
        assert ([cs[0]] + StableSort(cs[1..]))[1..] == StableSort(cs[1..]);
        assert WithKey(StableSort(cs[1..]), key) == WithKey(cs[1..], key);
      }
    }
  }

  lemma {:induction false} WithKeyMembers(cs: seq<Commit>, key: SortKey)
    ensures forall c :: c in WithKey(cs, key) <==> c in cs && PrefixSortKey(c) == key
  {
    if cs != [] {
      WithKeyMembers(cs[1..], key);
      assert cs == [cs[0]] + cs[1..];
    }
  }

  /** Any sorted arrangement that keeps equal keys in order is this one, whatever algorithm found it. */
  lemma {:induction false} StableSortIsUnique(a: seq<Commit>, b: seq<Commit>)
    requires Sorted(a) && Sorted(b) && SameByKey(a, b)
    ensures a == b
    decreases |a|
  {
    EmptyTogether(a, b);
    if a != [] {
      FirstAgrees(a, b);
      forall key ensures WithKey(a[1..], key) == WithKey(b[1..], key) {
        assert WithKey(a, key) == WithKey(b, key);
        var head := if PrefixSortKey(a[0]) == key then [a[0]] else [];
        assert head + WithKey(a[1..], key) == head + WithKey(b[1..], key);
        assert (head + WithKey(a[1..], key))[|head|..] == WithKey(a[1..], key);
        assert (head + WithKey(b[1..], key))[|head|..] == WithKey(b[1..], key);
      }
      StableSortIsUnique(a[1..], b[1..]);
      assert a == [a[0]] + a[1..] && b == [b[0]] + b[1..];
    }
  }

  lemma EmptyTogether(a: seq<Commit>, b: seq<Commit>)
    requires SameByKey(a, b)
    ensures a == [] <==> b == []
  {
    if a != [] {
      assert |WithKey(b, PrefixSortKey(a[0]))| == |WithKey(a, PrefixSortKey(a[0]))| > 0;
    }
    if b != [] {
      assert |WithKey(a, PrefixSortKey(b[0]))| == |WithKey(b, PrefixSortKey(b[0]))| > 0;
    }
  }

  lemma FirstAgrees(a: seq<Commit>, b: seq<Commit>)
    requires a != [] && b != [] && Sorted(a) && Sorted(b) && SameByKey(a, b)
    ensures a[0] == b[0]
  {
    var ka, kb := PrefixSortKey(a[0]), PrefixSortKey(b[0]);
    WithKeyMembers(b, ka);
    WithKeyMembers(a, kb);
    assert WithKey(a, ka) == WithKey(b, ka) && WithKey(a, kb) == WithKey(b, kb);
    assert a[0] in WithKey(a, ka) && b[0] in WithKey(b, kb);
    FirstIsLeast(a, b[0]);
    FirstIsLeast(b, a[0]);
    LeTotal(a[0], b[0]);
    assert WithKey(a, ka)[0] == a[0] && WithKey(b, ka)[0] == b[0];
  }

  lemma FirstIsLeast(cs: seq<Commit>, c: Commit)
    requires Sorted(cs) && c in cs
    ensures Le(cs[0], c)
  {
    var k :| 0 <= k < |cs| && cs[k] == c;
    if k == 0 {
      LeTotal(c, c);
    }
  }

  // ----- grouping and printing -----

  datatype Line = Heading(category: string) | Item(commit: Commit)

  function InCategory(cs: seq<Commit>, category: string): seq<Commit> {
    if cs == [] then []
    else (if cs[0].category == category then [cs[0]] else []) + InCategory(cs[1..], category)
  }

  function ItemsOf(cs: seq<Commit>): seq<Line> {
    seq(|cs|, i requires 0 <= i < |cs| => Item(cs[i]))
  }

  function CategoryLines(cs: seq<Commit>, category: string): seq<Line> {
    var group := InCategory(cs, category);
    if group == [] then [] else [Heading(category)] + ItemsOf(StableSort(group))
  }

  function SectionLines(cs: seq<Commit>, categories: seq<string>): seq<Line> {
    if categories == [] then []
    else CategoryLines(cs, categories[0]) + SectionLines(cs, categories[1..])
  }

  function Section(cs: seq<Commit>): seq<Line> {
    SectionLines(cs, CATEGORY_ORDER)
  }

  // ----- reading it back -----

  /** The commits printed below the headings of one category; `current` is the heading above. */
  function Under(lines: seq<Line>, current: Option<string>, category: string): seq<Commit> {
    if lines == [] then []
    else match lines[0]
         case Heading(next) => Under(lines[1..], Some(next), category)
         case Item(c) => (if current == Some(category) then [c] else []) + Under(lines[1..], current, category)
  }

  function Headings(lines: seq<Line>): seq<string> {
    if lines == [] then []
    else (if lines[0].Heading? then [lines[0].category] else []) + Headings(lines[1..])
  }

  predicate StartsWithHeading(lines: seq<Line>) {
    lines != [] ==> lines[0].Heading?
  }

  lemma {:induction false} UnderItems(cs: seq<Commit>, rest: seq<Line>, current: string, category: string)
    requires StartsWithHeading(rest)
    ensures Under(ItemsOf(cs) + rest, Some(current), category)
         == (if current == category then cs else []) + Under(rest, None, category)
    ensures Headings(ItemsOf(cs) + rest) == Headings(rest)
  {
    var lines := ItemsOf(cs) + rest;
    if cs == [] {
      assert lines == rest;
    } else {
      assert lines[1..] == ItemsOf(cs[1..]) + rest;
      UnderItems(cs[1..], rest, current, category);
      assert cs == [cs[0]] + cs[1..];
    }
  }

  lemma {:induction false} HeadingRead(printed: string, tail: seq<Line>, category: string)
    ensures Under([Heading(printed)] + tail, None, category) == Under(tail, Some(printed), category)
    ensures Headings([Heading(printed)] + tail) == [printed] + Headings(tail)
  {
    assert ([Heading(printed)] + tail)[1..] == tail;
  }

  lemma {:induction false} CategoryRead(cs: seq<Commit>, printed: string, rest: seq<Line>, category: string)
    requires StartsWithHeading(rest)
    ensures StartsWithHeading(CategoryLines(cs, printed) + rest)
    ensures Under(CategoryLines(cs, printed) + rest, None, category)
         == (if printed == category then StableSort(InCategory(cs, category)) else []) + Under(rest, None, category)
    ensures Headings(CategoryLines(cs, printed) + rest)
         == (if InCategory(cs, printed) != [] then [printed] else []) + Headings(rest)
  {
    var group := InCategory(cs, printed);
    if group == [] {
      assert CategoryLines(cs, printed) + rest == rest;
    } else {
      var tail := ItemsOf(StableSort(group)) + rest;
      assert CategoryLines(cs, printed) + rest == [Heading(printed)] + tail;
      HeadingRead(printed, tail, category);
      UnderItems(StableSort(group), rest, printed, category);
    }
  }

  lemma {:induction false} SectionRead(cs: seq<Commit>, categories: seq<string>, category: string)
    requires Distinct(categories)
    ensures StartsWithHeading(SectionLines(cs, categories))
    ensures Under(SectionLines(cs, categories), None, category)
         == if category in categories then StableSort(InCategory(cs, category)) else []
    ensures Headings(SectionLines(cs, categories)) == NonEmpty(cs, categories)
  {
    if categories != [] {
      SectionRead(cs, categories[1..], category);
      assert categories == [categories[0]] + categories[1..];
      CategoryRead(cs, categories[0], SectionLines(cs, categories[1..]), category);
    }
  }

  /** The categories that some commit is in. */
  function NonEmpty(cs: seq<Commit>, categories: seq<string>): seq<string> {
    if categories == [] then []
    else (if InCategory(cs, categories[0]) != [] then [categories[0]] else []) + NonEmpty(cs, categories[1..])
  }

  lemma {:induction false} InCategoryCounts(cs: seq<Commit>, category: string)
    ensures forall c :: multiset(InCategory(cs, category))[c] == if c.category == category then multiset(cs)[c] else 0
  {
    if cs != [] {
      InCategoryCounts(cs[1..], category);
      assert cs == [cs[0]] + cs[1..];
      var head := if cs[0].category == category then [cs[0]] else [];
      assert multiset(InCategory(cs, category)) == multiset(head) + multiset(InCategory(cs[1..], category));
    }
  }

  /** The headline: each commit of a listed category is printed under the heading of its own category
      and as often as it was accepted, sorted by prefix and otherwise in review order; a commit of any
      other category is not printed. There is one heading for each category in use, in order. */
  lemma {:induction false} SectionMeans(cs: seq<Commit>, category: string)
    ensures var printed := Under(Section(cs), None, category);
      && (category in CATEGORY_ORDER ==> Sorted(printed) && SameByKey(printed, InCategory(cs, category)))
      && (category !in CATEGORY_ORDER ==> printed == [])
      && forall c :: multiset(printed)[c]
           == if c.category == category && category in CATEGORY_ORDER then multiset(cs)[c] else 0
    ensures Headings(Section(cs)) == NonEmpty(cs, CATEGORY_ORDER)
  {
    CategoriesDiffer();
    SectionRead(cs, CATEGORY_ORDER, category);
    SortMeans(InCategory(cs, category));
    InCategoryCounts(cs, category);
  }

  /** The order below a heading, in words: entries without a prefix, then those of `ui`, then longer
      prefixes before shorter ones and equally long ones by alphabet. */
  lemma {:induction false} PrintedOrder(cs: seq<Commit>, category: string, i: nat, j: nat)
    requires i < j < |Under(Section(cs), None, category)|
    ensures var (a, b) := (Under(Section(cs), None, category)[i].prefix, Under(Section(cs), None, category)[j].prefix);
      && (!Given(b) ==> !Given(a))
      && (b == Some("ui") ==> !Given(a) || a == b)
      && (Given(a) && a != Some("ui") ==>
            |a.value| > |b.value| || (|a.value| == |b.value| && StringLe(a.value, b.value)))
  {
    SectionMeans(cs, category);
    var printed := Under(Section(cs), None, category);
    assert Le(printed[i], printed[j]);
  }

  // ----- the text -----

  /** The bullet of a commit, with its prefix and, where wanted, thanks to its author. */
  function Bullet(c: Commit, withThanks: bool): string {
    var entry := if Given(c.entry) then c.entry.value else c.title;
    (if Given(c.prefix) then "[" + c.prefix.value + "] " else "") + entry
    + if withThanks && !c.ignore && Given(c.username)
      then " (Thanks, [@" + c.username.value + "](https://github.com/" + c.username.value + ")!)" else ""
  }

  function TextOf(lines: seq<Line>, withThanks: bool): string {
    if lines == [] then ""
    else (match lines[0]
          case Heading(category) => "\n\n### " + category + "\n"
          case Item(c) => "\n- " + Bullet(c, withThanks))
         + TextOf(lines[1..], withThanks)
  }

  const NO_COMMITS := "No commits to process."
  const NOT_GENERATED := "No changelog generated"
  const CANCELLED := NOT_GENERATED + " - operation cancelled."
  const INTERNAL_HEADING := "\n\n## Internal Repository Changes\n"

  /** The text of the script: `None` is an exception. `header` begins the new release. */
  function NewText(all: seq<Commit>, keys: seq<Key>, header: string): Option<string> {
    var commits := ForReview(all);
    if commits == [] then Some(NO_COMMITS)
    else
      var s := Outcome(commits, keys);
      if s.mode.Crashed? then None
      else if s.mode.Cancelled? then Some(CANCELLED)
      else Some(header + Sections(s.accepted, Internal(all)))
  }

  function Sections(accepted: seq<Commit>, internal: seq<Commit>): string {
    (if accepted != [] then TextOf(Section(accepted), true) else "")
    + if internal != [] then INTERNAL_HEADING + TextOf(Section(internal), false) else ""
  }

  /** The changelog file after the script, if it writes it: the new text goes in front of the old file
      without its first character. */
  function FileAfter(text: Option<string>, current: string): Option<string> {
    if text.Some? && text.value != "" && !(NOT_GENERATED <= text.value)
    then Some(text.value + (if current == "" then "" else current[1..]))
    else None
  }

  /** The file is left alone exactly when there are commits to review and their review was broken off. */
  lemma {:induction false} FileUntouched(all: seq<Commit>, keys: seq<Key>, header: string, current: string)
    requires TITLE <= header
    ensures FileAfter(NewText(all, keys, header), current) == None
       <==> ForReview(all) != [] && !Outcome(ForReview(all), keys).mode.Finished?
  {
    assert NOT_GENERATED <= CANCELLED;
    assert NO_COMMITS[4] != NOT_GENERATED[4];
    assert NOT_GENERATED[0] == 'N' && TITLE[0] == '#';
    if ForReview(all) != [] {
      OutcomeKeepsInv(ForReview(all), keys);
    }
  }

  const TITLE := "# Changelog"

  /** Only the `#` of the old title is cut off: the rest of it stays between the new and the old releases. */
  lemma OldTitleStays(text: Option<string>, current: string)
    requires TITLE <= current && FileAfter(text, current).Some?
    ensures FileAfter(text, current).value == text.value + (" Changelog" + current[|TITLE|..])
  {
    assert current == TITLE + current[|TITLE|..];
    assert TITLE[1..] == " Changelog";
    assert current[1..] == TITLE[1..] + current[|TITLE|..];
  }

  /** The notice instead of a changelog is the answer exactly when there is nothing to review. */
  lemma {:induction false} NoticeIffNothingToReview(all: seq<Commit>, keys: seq<Key>, header: string)
    requires TITLE <= header
    ensures NewText(all, keys, header) == Some(NO_COMMITS) <==> ForReview(all) == []
  {
    assert NO_COMMITS[0] == 'N' && TITLE[0] == '#' && |CANCELLED| > |NO_COMMITS|;
  }

  /** With nothing to review the script still writes: the notice goes in front of the old changelog. */
  lemma {:induction false} NoticeIsWritten(all: seq<Commit>, keys: seq<Key>, header: string, current: string)
    requires ForReview(all) == []
    ensures FileAfter(NewText(all, keys, header), current)
         == Some(NO_COMMITS + if current == "" then "" else current[1..])
  {
    assert NO_COMMITS[4] != NOT_GENERATED[4];
  }

  predicate EndsWith(s: string, tail: string) {
    |tail| <= |s| && s[|s| - |tail|..] == tail
  }

  function InternalText(all: seq<Commit>): string {
    INTERNAL_HEADING + TextOf(Section(Internal(all)), false)
  }

  /** The internal commits, which the script announces as included on their own, reach the text if and only
      if there is something else to review and its review ends normally. */
  lemma {:induction false} InternalReachesText(all: seq<Commit>, keys: seq<Key>, header: string)
    requires Internal(all) != []
    ensures NewText(all, keys, header).Some? && EndsWith(NewText(all, keys, header).value, InternalText(all))
       <==> ForReview(all) != [] && Outcome(ForReview(all), keys).mode.Finished?
  {
    hide TextOf, Section, ForReview, Internal, Outcome;
    var tail := InternalText(all);
    NoTailOfMessages(tail);
    if ForReview(all) != [] {
      OutcomeKeepsInv(ForReview(all), keys);
      var accepted := Outcome(ForReview(all), keys).accepted;
      var before := header + if accepted != [] then TextOf(Section(accepted), true) else "";
      assert header + Sections(accepted, Internal(all)) == before + tail;
      assert (before + tail)[|before|..] == tail;
    }
  }

  lemma NoTailOfMessages(tail: string)
    requires INTERNAL_HEADING <= tail
    ensures !EndsWith(NO_COMMITS, tail) && !EndsWith(CANCELLED, tail)
  {
    assert |INTERNAL_HEADING| == 33 && INTERNAL_HEADING[0] == '\n' && |CANCELLED| == 45 && |NO_COMMITS| == 22;
    assert CANCELLED[..13] == "No changelog ";
    assert tail[0] == '\n';
    if |tail| <= 45 {
      assert CANCELLED[45 - |tail|..][0] == CANCELLED[..13][45 - |tail|];
      NoNewline("No changelog ", 45 - |tail|);
    }
  }

  lemma NoNewline(s: string, i: nat)
    requires s == "No changelog " && i < |s|
    ensures s[i] != '\n'
  {
  }

  /** Alone, a documented internal commit is dropped. */
  lemma InternalAloneIsDropped(c: Commit, keys: seq<Key>, header: string)
    requires AutoIncluded(c)
    ensures Internal([c]) == [c] && NewText([c], keys, header) == Some(NO_COMMITS)
  {
    assert [c][1..] == [];
    assert ForReview([c][1..]) == [] && Internal([c][1..]) == [];
  }

  // ----- the same as code -----

  /** The commits by category, in order. */
  method GroupByCategory(documented: seq<Commit>) returns (grouped: map<string, seq<Commit>>)
    ensures forall category :: Group(grouped, category) == InCategory(documented, category)
  {
    grouped := map[];
    for i := 0 to |documented|
      invariant forall category :: Group(grouped, category) == InCategory(documented[..i], category)
    {
      assert documented[..i + 1] == documented[..i] + [documented[i]];
      GroupStep(grouped, documented[..i], documented[i]);
      grouped := AddToGroup(grouped, documented[i]);
    }
    assert documented[..|documented|] == documented;
  }

  function AddToGroup(grouped: map<string, seq<Commit>>, c: Commit): map<string, seq<Commit>> {
    grouped[c.category := Group(grouped, c.category) + [c]]
  }

  lemma {:induction false} GroupStep(grouped: map<string, seq<Commit>>, cs: seq<Commit>, c: Commit)
    requires forall category :: Group(grouped, category) == InCategory(cs, category)
    ensures forall category :: Group(AddToGroup(grouped, c), category) == InCategory(cs + [c], category)
  {
    forall category ensures Group(AddToGroup(grouped, c), category) == InCategory(cs + [c], category) {
      InCategoryAppend(cs, c, category);
      assert Group(grouped, category) == InCategory(cs, category);
    }
  }

  method DocumentedSection(documented: seq<Commit>, withThanks: bool) returns (text: string)
    ensures text == TextOf(Section(documented), withThanks)
  {
    var grouped := GroupByCategory(documented);
    text := CategoriesText(CATEGORY_ORDER, grouped, withThanks, documented);
  }

  method CategoriesText(categories: seq<string>, grouped: map<string, seq<Commit>>, withThanks: bool,
                        ghost documented: seq<Commit>) returns (text: string)
    requires forall category :: Group(grouped, category) == InCategory(documented, category)
    ensures text == TextOf(SectionLines(documented, categories), withThanks)
  {
    text := "";
    assert categories[0..] == categories;
    for i := 0 to |categories|
      invariant TextOf(SectionLines(documented, categories), withThanks)
             == text + TextOf(SectionLines(documented, categories[i..]), withThanks)
    {
      var block := CategoryText(categories[i], Group(grouped, categories[i]), withThanks, documented);
      TextBeforeNext(text, block, documented, categories[i..], withThanks);
      assert categories[i..][1..] == categories[i + 1..];
      text := text + block;
    }
  }

  lemma {:induction false} TextBeforeNext(
      text: string, block: string, cs: seq<Commit>, categories: seq<string>, withThanks: bool)
    requires categories != [] && block == TextOf(CategoryLines(cs, categories[0]), withThanks)
    ensures text + TextOf(SectionLines(cs, categories), withThanks)
         == text + block + TextOf(SectionLines(cs, categories[1..]), withThanks)
  {
    var rest := SectionLines(cs, categories[1..]);
    TextAppend(CategoryLines(cs, categories[0]), rest, withThanks);
    assert text + (block + TextOf(rest, withThanks)) == text + block + TextOf(rest, withThanks);
  }

  /** One category, sorted and printed; the sort of the library is `StableSort`. */
  method CategoryText(category: string, group: seq<Commit>, withThanks: bool, ghost documented: seq<Commit>)
    returns (text: string)
    requires group == InCategory(documented, category)
    ensures text == TextOf(CategoryLines(documented, category), withThanks)
  {
    if group == [] {
      return "";
    }
    var sorted := StableSort(group);
    var items := ItemsText(sorted, withThanks);
    assert ([Heading(category)] + ItemsOf(sorted))[1..] == ItemsOf(sorted);
    return "\n\n### " + category + "\n" + items;
  }

  method ItemsText(commits: seq<Commit>, withThanks: bool) returns (text: string)
    ensures text == TextOf(ItemsOf(commits), withThanks)
  {
    text := "";
    for i := 0 to |commits|
      invariant TextOf(ItemsOf(commits), withThanks) == text + TextOf(ItemsOf(commits[i..]), withThanks)
    {
      TextOfItems(text, commits[i..], withThanks);
      assert commits[i..][1..] == commits[i + 1..];
      text := text + ("\n- " + Bullet(commits[i], withThanks));
    }
  }

  lemma {:induction false} TextOfItems(text: string, commits: seq<Commit>, withThanks: bool)
    requires commits != []
    ensures text + TextOf(ItemsOf(commits), withThanks)
         == text + ("\n- " + Bullet(commits[0], withThanks)) + TextOf(ItemsOf(commits[1..]), withThanks)
  {
    assert ItemsOf(commits)[1..] == ItemsOf(commits[1..]);
  }

  function Group(grouped: map<string, seq<Commit>>, category: string): seq<Commit> {
    if category in grouped then grouped[category] else []
  }

  lemma {:induction false} InCategoryAppend(cs: seq<Commit>, c: Commit, category: string)
    ensures InCategory(cs + [c], category) == InCategory(cs, category) + if c.category == category then [c] else []
  {
    if cs != [] {
      assert (cs + [c])[1..] == cs[1..] + [c];
      InCategoryAppend(cs[1..], c, category);
    }
  }

  lemma {:induction false} TextAppend(a: seq<Line>, b: seq<Line>, withThanks: bool)
    ensures TextOf(a + b, withThanks) == TextOf(a, withThanks) + TextOf(b, withThanks)
  {
    if a == [] {
      assert a + b == b;
    } else {
      assert (a + b)[1..] == a[1..] + b;
      TextAppend(a[1..], b, withThanks);
    }
  }

  method Gather(all: seq<Commit>) returns (toReview: seq<Commit>, internal: seq<Commit>)
    ensures toReview == ForReview(all) && internal == Internal(all)
  {
    toReview, internal := [], [];
    assert all[0..] == all;
    for i := 0 to |all|
      invariant ForReview(all) == toReview + ForReview(all[i..])
      invariant Internal(all) == internal + Internal(all[i..])
    {
      var c := all[i];
      assert all[i..][1..] == all[i + 1..];
      GatherNext(toReview, internal, all[i..]);
      toReview := toReview + Reviewed(c);
      if AutoIncluded(c) {
        internal := internal + [c];
      }
    }
  }

  lemma {:induction false} GatherNext(toReview: seq<Commit>, internal: seq<Commit>, all: seq<Commit>)
    requires all != []
    ensures toReview + ForReview(all) == toReview + Reviewed(all[0]) + ForReview(all[1..])
    ensures internal + Internal(all) == internal + (if AutoIncluded(all[0]) then [all[0]] else []) + Internal(all[1..])
  {
  }

  method InteractiveChangelogGeneration(all: seq<Commit>, keys: seq<Key>, header: string)
    returns (text: Option<string>)
    ensures text == NewText(all, keys, header)
  {
    var toReview, internal := Gather(all);
    if toReview == [] {
      return Some(NO_COMMITS);
    }
    OutcomeKeepsInv(toReview, keys);
    var mode, finalCommits, _ := InteractiveReview(toReview, keys);
    if mode.Crashed? {
      return None;
    } else if mode.Cancelled? {
      return Some(CANCELLED);
    }
    var sections := "";
    if finalCommits != [] {
      sections := DocumentedSection(finalCommits, true);
    }
    if internal != [] {
      var section := DocumentedSection(internal, false);
      sections := sections + (INTERNAL_HEADING + section);
    }
    assert sections + "" == sections;
    return Some(header + sections);
  }
}
