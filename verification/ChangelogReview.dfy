/** The review loop of the changelog script: single keys edit, accept, skip or cancel one commit after
    another. Prompts and the AI answer arbitrarily. */
module ChangelogReview {
  import opened Text
  import opened Wrappers

  datatype Commit = Commit(
    hash: string, title: string, repo: string, username: Option<string>, community: bool,
    category: string, entry: Option<string>, prefix: Option<string>, ignore: bool)

  const UNDOCUMENTED := "<UNDOCUMENTED>"
  const ESC := 27 as char

  // ----- gathering the commits -----

  /** The commits to review: documented ones of the public repository, and undocumented ones of it
      under a placeholder entry. */
  function ForReview(all: seq<Commit>): seq<Commit> {
    if all == [] then []
    else Reviewed(all[0]) + ForReview(all[1..])
  }

  function Reviewed(c: Commit): seq<Commit> {
    if c.ignore || AutoIncluded(c) then []
    else if Given(c.entry) then [c]
    else if c.repo == "dagster" then [c.(category := "Invalid", entry := Some(UNDOCUMENTED), ignore := false)]
    else []
  }

  predicate AutoIncluded(c: Commit) {
    !c.ignore && c.repo == "internal" && Given(c.entry)
  }

  function Internal(all: seq<Commit>): seq<Commit> {
    if all == [] then []
    else (if AutoIncluded(all[0]) then [all[0]] else []) + Internal(all[1..])
  }

  /** The gathering passes on every documented commit, for review or as internal; what is reviewed is a
      commit as it came, or an undocumented one of the public repository with the placeholder entry. */
  lemma {:induction false} ReviewedCommits(all: seq<Commit>)
    ensures forall c | c in all && !c.ignore && Given(c.entry) :: c in Internal(all) || c in ForReview(all)
    ensures forall c | c in Internal(all) :: c in all && c.repo == "internal" && Given(c.entry) && !c.ignore
    ensures forall r | r in ForReview(all) :: !r.ignore && Given(r.entry) && exists c ::
              c in all && !AutoIncluded(c)
              && (r == c || (r.entry == Some(UNDOCUMENTED) && SameCommit(c, r) && !Given(c.entry)))
  {
    if all != [] {
      ReviewedCommits(all[1..]);
      assert all == [all[0]] + all[1..];
      forall r | r in Reviewed(all[0])
        ensures !r.ignore && Given(r.entry) && !AutoIncluded(all[0])
        ensures r == all[0] || (r.entry == Some(UNDOCUMENTED) && SameCommit(all[0], r) && !Given(all[0].entry))
      {
      }
    }
  }

  predicate ComesUpAs(c: Commit, r: Commit) {
    !c.ignore &&
    if c.entry.Some? && c.entry.value != "" then c.repo != "internal" && r == c
    else c.repo == "dagster" && r == c.(category := "Invalid", entry := Some("<UNDOCUMENTED>"))
  }

  /** The commits to review are exactly the documented ones, but for those of the internal repository, and the
      undocumented ones of the public repository, under the placeholder entry. */
  lemma {:induction false} ReviewedIff(all: seq<Commit>, r: Commit)
    ensures r in ForReview(all) <==> exists c :: c in all && ComesUpAs(c, r)
    ensures r in Internal(all) <==>
      r in all && !r.ignore && r.repo == "internal" && r.entry.Some? && r.entry.value != ""
  {
    if all != [] {
      ReviewedIff(all[1..], r);
      assert all == [all[0]] + all[1..];
      assert r in Reviewed(all[0]) <==> ComesUpAs(all[0], r);
    }
  }

  /** They come in the order of the commits. */
  lemma {:induction false} GatheredInOrder(a: seq<Commit>, b: seq<Commit>)
    ensures ForReview(a + b) == ForReview(a) + ForReview(b)
    ensures Internal(a + b) == Internal(a) + Internal(b)
    decreases |a|
  {
    hide ForReview, Internal;
    GatherNone();
    if a == [] {
      assert a + b == b;
    } else {
      GatheredInOrder(a[1..], b);
      GatherFirst(a[0], a[1..]);
      GatherFirst(a[0], a[1..] + b);
      assert a == [a[0]] + a[1..] && a + b == [a[0]] + (a[1..] + b);
    }
  }

  lemma GatherNone()
    ensures ForReview([]) == [] && Internal([]) == []
  {
  }

  lemma {:induction false} GatherFirst(c: Commit, rest: seq<Commit>)
    ensures ForReview([c] + rest) == ForReview([c]) + ForReview(rest)
    ensures Internal([c] + rest) == Internal([c]) + Internal(rest)
  {
    hide Reviewed, AutoIncluded;
    assert ([c] + rest)[1..] == rest && [c][1..] == [];
    assert ForReview([]) == [] && Internal([]) == [];
    assert ForReview([c]) == Reviewed(c) + [] && Internal([c]) == (if AutoIncluded(c) then [c] else []) + [];
  }

  // ----- keys -----

  datatype Suggestion = Suggestion(
    description: string, category: string, prefix: Option<string>, shouldThank: bool, shouldSkip: bool)

  /** What the prompts and the AI would answer, should the key ask them: the prefix typed, the entry
      typed with its cleaned text and the prefix found in it, and the suggestion. */
  datatype Answers = Answers(
    prefix: Option<string>, typed: Option<string>, cleaned: string, detected: Option<string>,
    suggestion: Option<Suggestion>)

  /** A key, in lower case, or Ctrl-C while the program waits, or a read after the input has ended. */
  datatype Key = Key(c: char, answers: Answers) | Interrupt | Eof

  predicate IsAccept(c: char) {
    c == 'a' || c == '\r' || c == '\n'
  }

  const CATEGORY_ORDER := ["New", "Bugfixes", "Documentation", "Dagster Plus"]

  function CycleCategory(category: string, internal: bool): string {
    var categories := if internal then CATEGORY_ORDER else CATEGORY_ORDER[..3];
    if category in categories then categories[(IndexOf(categories, category) + 1) % |categories|]
    else categories[0]
  }

  function IndexOf(list: seq<string>, x: string): (i: nat)
    requires x in list
    ensures i < |list| && list[i] == x
    ensures forall j | 0 <= j < i :: list[j] != x
  {
    if list[0] == x then 0 else IndexOf(list[1..], x) + 1
  }

  lemma CategoriesDiffer()
    ensures Distinct(CATEGORY_ORDER)
  {
    assert |"New"| == 3 && |"Bugfixes"| == 8 && |"Documentation"| == 13 && |"Dagster Plus"| == 12;
  }

  /** The categories of the repository follow each other in a circle; any other category leads into it. */
  lemma CategoriesCycle(category: string, internal: bool, i: nat)
    requires var n := if internal then 4 else 3;
      (i < n && category == CATEGORY_ORDER[i]) || (i == n - 1 && category !in CATEGORY_ORDER[..n])
    ensures CycleCategory(category, internal) == CATEGORY_ORDER[(i + 1) % (if internal then 4 else 3)]
  {
    var categories := if internal then CATEGORY_ORDER else CATEGORY_ORDER[..3];
    if category in categories {
      var k := IndexOf(categories, category);
      assert CATEGORY_ORDER[k] == category;
      if i < |categories| && CATEGORY_ORDER[i] == category {
        CategoriesDiffer();
        SameIndex(CATEGORY_ORDER, i, k);
      }
    }
  }

  predicate ValidPrefix(prefix: Option<string>) {
    prefix == None || prefix.value == "ui" || "dagster-" <= prefix.value
  }

  predicate NeedsPeriod(entry: string) {
    entry != UNDOCUMENTED && StripRight(entry) != ""
    && StripRight(entry)[|StripRight(entry)| - 1] !in ".!?)]"
  }

  function WithPeriod(entry: string): string {
    StripRight(entry) + "."
  }

  lemma PeriodFixed(entry: string)
    ensures WithPeriod(entry) != "" && !NeedsPeriod(WithPeriod(entry)) && WithPeriod(entry) != UNDOCUMENTED
  {
    var fixed := WithPeriod(entry);
    assert fixed[|fixed| - 1] == '.' && UNDOCUMENTED[|UNDOCUMENTED| - 1] == '>';
    assert ".!?)]"[0] == '.' && !IsSpace('.');
    assert StripRight(fixed) == fixed;
  }

  // ----- the review as a state machine -----

  datatype Mode = Choosing | Swallowing(left: nat) | Confirming | Finished | Cancelled | Crashed

  /** What became of a commit; `declined` says that the offer of a period was turned down. */
  datatype Decision = Skipped | Taken(thank: bool, declined: bool)

  datatype State = State(
    commits: seq<Commit>, thank: bool, discarded: bool, mode: Mode,
    decisions: seq<Decision>, accepted: seq<Commit>)

  predicate Documented(c: Commit) {
    Given(c.entry) && c.entry != Some(UNDOCUMENTED)
  }

  predicate Active(s: State) {
    (s.mode.Choosing? || s.mode.Swallowing? || s.mode.Confirming?) && |s.decisions| < |s.commits|
  }

  function Current(s: State): Commit
    requires Active(s)
  {
    s.commits[|s.decisions|]
  }

  /** Turns to the next commit, if there is one. */
  function Enter(s: State): State {
    if |s.decisions| < |s.commits| then
      var c := s.commits[|s.decisions|];
      s.(thank := c.community, discarded := !Given(c.entry), mode := Choosing)
    else s.(thank := false, discarded := false, mode := Finished)
  }

  function Start(commits: seq<Commit>): State {
    Enter(State(commits, false, false, Choosing, [], []))
  }

  function Edit(s: State, c: Commit): State
    requires Active(s)
  {
    s.(commits := s.commits[|s.decisions| := c])
  }

  function Take(s: State, declined: bool): State
    requires Active(s)
  {
    Enter(s.(accepted := s.accepted + [Current(s).(ignore := !s.thank)],
             decisions := s.decisions + [Taken(s.thank, declined)]))
  }

  function Skip(s: State): State {
    Enter(s.(decisions := s.decisions + [Skipped]))
  }

  function Accept(s: State): State
    requires Active(s)
  {
    if s.discarded then Skip(s)
    else if !Documented(Current(s)) then s
    else if NeedsPeriod(Current(s).entry.value) then s.(mode := Confirming)
    else Take(s, false)
  }

  /** The entry on display; a period is only offered for a commit that has one. */
  function EntryText(c: Commit): string {
    if c.entry.Some? then c.entry.value else ""
  }

  function Confirm(s: State, yes: bool): State
    requires Active(s)
  {
    if yes then Take(Edit(s, Current(s).(entry := Some(WithPeriod(EntryText(Current(s)))))), false)
    else Take(s, true)
  }

  function Cycle(s: State): State
    requires Active(s)
  {
    Edit(s, Current(s).(category := CycleCategory(Current(s).category, Current(s).repo == "internal"), ignore := false))
  }

  function EditPrefix(s: State, a: Answers): State
    requires Active(s)
  {
    if a.prefix != Current(s).prefix then Edit(s, Current(s).(prefix := a.prefix, ignore := false)) else s
  }

  function EditText(s: State, a: Answers): State
    requires Active(s)
  {
    var c := Current(s);
    if Given(a.typed) && a.typed.value != (if Given(c.entry) then c.entry.value else c.title) then
      var prefix := if ValidPrefix(a.detected) then a.detected else c.prefix;
      Edit(s, c.(entry := Some(a.cleaned), prefix := prefix, ignore := false))
    else s
  }

  function Suggest(s: State, a: Answers): State
    requires Active(s)
  {
    match a.suggestion
    case None => s
    case Some(g) =>
      Edit(s, Current(s).(entry := Some(g.description), category := g.category, prefix := g.prefix, ignore := false))
        .(thank := g.shouldThank, discarded := g.shouldSkip)
  }

  function Choose(s: State, key: Key): State
    requires Active(s) && key.Key?
  {
    if key.c == ESC then s.(mode := Swallowing(2))
    else if IsAccept(key.c) then Accept(s)
    else if key.c == 'c' then Cycle(s)
    else if key.c == 'p' then EditPrefix(s, key.answers)
    else if key.c == 'e' then EditText(s, key.answers)
    else if key.c == 'g' then Suggest(s, key.answers)
    else if key.c == 't' then s.(thank := !s.thank)
    else if key.c == 'd' then s.(discarded := !s.discarded)
    else if key.c == 'q' then s.(mode := Cancelled)
    else s
  }

  function Press(s: State, key: Key): State {
    if !Active(s) then s
    else if key.Interrupt? then s.(mode := Cancelled)
    else if s.mode.Confirming? then Confirm(s, key.Key? && key.c == 'y')
    else if key.Eof? then s.(mode := Crashed)
    else if s.mode.Choosing? then Choose(s, key)
    else s.(mode := if s.mode.left <= 1 then Choosing else Swallowing(s.mode.left - 1))
  }

  function Run(s: State, keys: seq<Key>): State
    decreases |keys|
  {
    if keys == [] then s else Run(Press(s, keys[0]), keys[1..])
  }

  /** The input and then, as often as the loop still reads, its end. */
  function Input(keys: seq<Key>): seq<Key> {
    keys + [Eof, Eof]
  }

  function Outcome(commits: seq<Commit>, keys: seq<Key>): State {
    Run(Start(commits), Input(keys))
  }

  // ----- what every run keeps -----

  /** Reviewing may change the category, entry, prefix and thanks of a commit, nothing else. */
  predicate SameCommit(a: Commit, b: Commit) {
    b == a.(category := b.category, entry := b.entry, prefix := b.prefix, ignore := b.ignore)
  }

  /** The commits taken, in review order, each with its final edits and the choice about thanks. */
  function Chosen(commits: seq<Commit>, decisions: seq<Decision>): seq<Commit>
    requires |decisions| <= |commits|
  {
    if decisions == [] then []
    else
      var n := |decisions| - 1;
      Chosen(commits, decisions[..n])
      + match decisions[n]
        case Skipped => []
        case Taken(thank, _) => [commits[n].(ignore := !thank)]
  }

  ghost predicate DecidedWell(c: Commit, d: Decision) {
    d.Taken? ==> Documented(c) && (d.declined <==> NeedsPeriod(c.entry.value))
  }

  ghost predicate Inv(original: seq<Commit>, s: State) {
    && |s.commits| == |original| && |s.decisions| <= |s.commits|
    && (s.mode.Confirming? ==> Active(s) && Documented(Current(s)) && NeedsPeriod(Current(s).entry.value))
    && (s.mode.Finished? ==> |s.decisions| == |s.commits|)
    && (forall j | 0 <= j < |original| :: SameCommit(original[j], s.commits[j]))
    && (forall j | |s.decisions| < j < |original| :: s.commits[j] == original[j])
    && (forall j | 0 <= j < |s.decisions| :: DecidedWell(s.commits[j], s.decisions[j]))
    && s.accepted == Chosen(s.commits, s.decisions)
  }

  lemma {:induction false} ChosenUnaffected(a: seq<Commit>, b: seq<Commit>, decisions: seq<Decision>)
    requires |decisions| <= |a| && |decisions| <= |b| && a[..|decisions|] == b[..|decisions|]
    ensures Chosen(a, decisions) == Chosen(b, decisions)
    decreases |decisions|
  {
    if decisions != [] {
      var n := |decisions| - 1;
      assert a[..n] == a[..n + 1][..n] == b[..n + 1][..n] == b[..n];
      assert a[n] == a[..n + 1][n] == b[n];
      ChosenUnaffected(a, b, decisions[..n]);
    }
  }

  lemma EditKeepsInv(original: seq<Commit>, s: State, c: Commit)
    requires Inv(original, s) && s.mode.Choosing? && Active(s) && SameCommit(Current(s), c)
    ensures Inv(original, Edit(s, c))
  {
    ChosenUnaffected(s.commits, Edit(s, c).commits, s.decisions);
  }

  lemma DecideKeepsInv(original: seq<Commit>, s: State, d: Decision)
    requires Inv(original, s) && Active(s) && DecidedWell(Current(s), d)
    ensures Inv(original, Enter(s.(decisions := s.decisions + [d],
                                   accepted := Chosen(s.commits, s.decisions + [d]), mode := Choosing)))
  {
    assert (s.decisions + [d])[..|s.decisions|] == s.decisions;
  }

  lemma TakeKeepsInv(original: seq<Commit>, s: State, declined: bool)
    requires Inv(original, s) && Active(s) && DecidedWell(Current(s), Taken(s.thank, declined))
    ensures Inv(original, Take(s, declined))
  {
    var d := Taken(s.thank, declined);
    DecideKeepsInv(original, s, d);
    assert (s.decisions + [d])[..|s.decisions|] == s.decisions;
  }

  lemma SkipKeepsInv(original: seq<Commit>, s: State)
    requires Inv(original, s) && Active(s)
    ensures Inv(original, Skip(s))
  {
    hide SameCommit, Documented;
    DecideKeepsInv(original, s, Skipped);
    assert (s.decisions + [Skipped])[..|s.decisions|] == s.decisions;
  }

  lemma ConfirmKeepsInv(original: seq<Commit>, s: State, yes: bool)
    requires Inv(original, s) && s.mode.Confirming?
    ensures Inv(original, Confirm(s, yes))
  {
    if yes {
      var c := Current(s).(entry := Some(WithPeriod(Current(s).entry.value)));
      PeriodFixed(Current(s).entry.value);
      var choosing := s.(mode := Choosing);
      EditKeepsInv(original, choosing, c);
      TakeKeepsInv(original, Edit(choosing, c), false);
      assert Take(Edit(choosing, c), false) == Take(Edit(s, c), false);
    } else {
      TakeKeepsInv(original, s, true);
    }
  }

  lemma AcceptKeepsInv(original: seq<Commit>, s: State)
    requires Inv(original, s) && Active(s) && s.mode.Choosing?
    ensures Inv(original, Accept(s))
  {
    if s.discarded {
      SkipKeepsInv(original, s);
    } else if Documented(Current(s)) && !NeedsPeriod(Current(s).entry.value) {
      TakeKeepsInv(original, s, false);
    }
  }

  lemma EditsKeepInv(original: seq<Commit>, s: State, a: Answers)
    requires Inv(original, s) && Active(s) && s.mode.Choosing?
    ensures Inv(original, Cycle(s)) && Inv(original, EditPrefix(s, a)) && Inv(original, EditText(s, a))
  {
    var c := Current(s);
    EditKeepsInv(original, s, c.(category := CycleCategory(c.category, c.repo == "internal"), ignore := false));
    EditKeepsInv(original, s, c.(prefix := a.prefix, ignore := false));
    var prefix := if ValidPrefix(a.detected) then a.detected else c.prefix;
    EditKeepsInv(original, s, c.(entry := Some(a.cleaned), prefix := prefix, ignore := false));
  }

  lemma SuggestKeepsInv(original: seq<Commit>, s: State, a: Answers)
    requires Inv(original, s) && Active(s) && s.mode.Choosing?
    ensures Inv(original, Suggest(s, a))
  {
    if a.suggestion.Some? {
      var g := a.suggestion.value;
      var c := Current(s).(entry := Some(g.description), category := g.category, prefix := g.prefix, ignore := false);
      EditKeepsInv(original, s, c);
      SettingsKeepInv(original, Edit(s, c), Suggest(s, a));
    }
  }

  lemma SettingsKeepInv(original: seq<Commit>, s: State, t: State)
    requires Inv(original, s) && Active(s)
    requires t == s.(thank := t.thank, discarded := t.discarded, mode := t.mode)
    requires !t.mode.Confirming? && !t.mode.Finished?
    ensures Inv(original, t)
  {
  }

  lemma ChooseKeepsInv(original: seq<Commit>, s: State, key: Key)
    requires Inv(original, s) && Active(s) && s.mode.Choosing? && key.Key?
    ensures Inv(original, Choose(s, key))
  {
    var t := Choose(s, key);
    if IsAccept(key.c) {
      AcceptKeepsInv(original, s);
      assert t == Accept(s);
    } else if key.c == 'c' || key.c == 'p' || key.c == 'e' {
      EditsKeepInv(original, s, key.answers);
      assert t == Cycle(s) || t == EditPrefix(s, key.answers) || t == EditText(s, key.answers);
    } else if key.c == 'g' {
      SuggestKeepsInv(original, s, key.answers);
      assert t == Suggest(s, key.answers);
    } else {
      SettingsKeepInv(original, s, t);
    }
  }

  lemma PressKeepsInv(original: seq<Commit>, s: State, key: Key)
    requires Inv(original, s)
    ensures Inv(original, Press(s, key))
  {
    if Active(s) && !key.Interrupt? {
      if s.mode.Confirming? {
        ConfirmKeepsInv(original, s, key.Key? && key.c == 'y');
      } else if key.Key? && s.mode.Choosing? {
        ChooseKeepsInv(original, s, key);
      } else {
        SettingsKeepInv(original, s, Press(s, key));
      }
    }
  }

  lemma {:induction false} RunKeepsInv(original: seq<Commit>, s: State, keys: seq<Key>)
    requires Inv(original, s)
    ensures Inv(original, Run(s, keys))
    decreases |keys|
  {
    if keys != [] {
      PressKeepsInv(original, s, keys[0]);
      RunKeepsInv(original, Press(s, keys[0]), keys[1..]);
    }
  }

  lemma OutcomeKeepsInv(original: seq<Commit>, keys: seq<Key>)
    ensures Inv(original, Outcome(original, keys))
    ensures var s := Outcome(original, keys); s.mode.Finished? || s.mode.Cancelled? || s.mode.Crashed?
  {
    RunKeepsInv(original, Start(original), Input(keys));
    RunEnds(Start(original), keys);
  }

  ghost predicate Live(s: State) {
    Active(s) || s.mode.Finished? || s.mode.Cancelled? || s.mode.Crashed?
  }

  /** However the input goes, the loop ends with it. */
  lemma {:induction false} RunEnds(s: State, keys: seq<Key>)
    requires Live(s)
    ensures var t := Run(s, Input(keys)); t.mode.Finished? || t.mode.Cancelled? || t.mode.Crashed?
    decreases |keys|
  {
    var input := Input(keys);
    PressStaysLive(s, input[0]);
    if keys == [] {
      var t := Press(s, Eof);
      var u := Press(t, Eof);
      PressStaysLive(t, Eof);
      assert input[1..] == [Eof] && input[1..][1..] == [];
      assert Run(t, input[1..]) == Run(u, input[1..][1..]) == u;
    } else {
      assert input[1..] == Input(keys[1..]);
      RunEnds(Press(s, keys[0]), keys[1..]);
    }
  }

  lemma PressStaysLive(s: State, key: Key)
    requires Live(s)
    ensures Live(Press(s, key))
    ensures key.Eof? && Active(Press(s, key)) ==> s.mode.Confirming? && Press(s, key).mode.Choosing?
  {
  }

  // ----- at most once, in review order -----

  /** The position of the `k`-th commit taken. */
  function Origin(decisions: seq<Decision>, k: nat): (i: nat)
    requires k < Count(decisions)
    ensures i < |decisions| && decisions[i].Taken?
    decreases |decisions|
  {
    var n := |decisions| - 1;
    if decisions[n].Taken? && k == Count(decisions[..n]) then n else Origin(decisions[..n], k)
  }

  function Count(decisions: seq<Decision>): nat {
    if decisions == [] then 0
    else Count(decisions[..|decisions| - 1]) + if decisions[|decisions| - 1].Taken? then 1 else 0
  }

  lemma {:induction false} ChosenAt(commits: seq<Commit>, decisions: seq<Decision>, k: nat)
    requires |decisions| <= |commits| && k < Count(decisions)
    ensures |Chosen(commits, decisions)| == Count(decisions)
    ensures var i := Origin(decisions, k);
      Chosen(commits, decisions)[k] == commits[i].(ignore := !decisions[i].thank)
    decreases |decisions|
  {
    var n := |decisions| - 1;
    ChosenLength(commits, decisions);
    ChosenLength(commits, decisions[..n]);
    if !(decisions[n].Taken? && k == Count(decisions[..n])) {
      ChosenAt(commits, decisions[..n], k);
    }
  }

  lemma {:induction false} ChosenLength(commits: seq<Commit>, decisions: seq<Decision>)
    requires |decisions| <= |commits|
    ensures |Chosen(commits, decisions)| == Count(decisions)
    decreases |decisions|
  {
    if decisions != [] {
      ChosenLength(commits, decisions[..|decisions| - 1]);
    }
  }

  lemma {:induction false} OriginIncreases(decisions: seq<Decision>, j: nat, k: nat)
    requires j < k < Count(decisions)
    ensures Origin(decisions, j) < Origin(decisions, k)
    decreases |decisions|
  {
    var n := |decisions| - 1;
    if !(decisions[n].Taken? && k == Count(decisions[..n])) {
      OriginIncreases(decisions[..n], j, k);
    }
  }

  /** The headline: a review that ends normally has decided about every commit. The accepted commits
      are distinct reviewed commits in review order, each with its own title, author and hash, none
      of them undocumented, and one lacks a period only where the offer of one was declined. */
  lemma ReviewAccepts(original: seq<Commit>, keys: seq<Key>, k: nat)
    requires Outcome(original, keys).mode.Finished?
    requires k < |Outcome(original, keys).accepted|
    ensures
      var s := Outcome(original, keys);
      && |s.decisions| == |original| && |s.accepted| == Count(s.decisions)
      && var i := Origin(s.decisions, k);
         && SameCommit(original[i], s.accepted[k])
         && s.accepted[k].ignore == !s.decisions[i].thank
         && Documented(s.accepted[k])
         && (NeedsPeriod(s.accepted[k].entry.value) <==> s.decisions[i].declined)
         && (k + 1 < |s.accepted| ==> i < Origin(s.decisions, k + 1))
  {
    OutcomeKeepsInv(original, keys);
    var s := Outcome(original, keys);
    ChosenLength(s.commits, s.decisions);
    ChosenAt(s.commits, s.decisions, k);
    if k + 1 < |s.accepted| {
      OriginIncreases(s.decisions, k, k + 1);
    }
  }

  /** What was decided stays decided: no later key edits an earlier commit or takes it back. */
  lemma {:induction false} DecisionsStay(s: State, keys: seq<Key>)
    requires |s.decisions| <= |s.commits|
    ensures Extends(s, Run(s, keys))
    decreases |keys|
  {
    if keys != [] {
      var t := Press(s, keys[0]);
      PressKeepsDecisions(s, keys[0]);
      DecisionsStay(t, keys[1..]);
      var u := Run(s, keys);
      assert u.commits[..|s.decisions|] == u.commits[..|t.decisions|][..|s.decisions|];
    }
  }

  ghost predicate Extends(s: State, t: State) {
    && |t.commits| == |s.commits| && |t.decisions| <= |t.commits|
    && s.decisions <= t.decisions && s.accepted <= t.accepted
    && t.commits[..|s.decisions|] == s.commits[..|s.decisions|]
  }

  lemma PressKeepsDecisions(s: State, key: Key)
    requires |s.decisions| <= |s.commits|
    ensures Extends(s, Press(s, key))
  {
    if Active(s) && key.Key? && s.mode.Choosing? {
      ChooseKeepsDecisions(s, key);
    } else if Active(s) && s.mode.Confirming? {
      ConfirmKeepsDecisions(s, key.Key? && key.c == 'y');
    }
  }

  lemma ChooseKeepsDecisions(s: State, key: Key)
    requires Active(s) && key.Key?
    ensures Extends(s, Choose(s, key))
  {
  }

  lemma ConfirmKeepsDecisions(s: State, yes: bool)
    requires Active(s)
    ensures Extends(s, Confirm(s, yes))
  {
  }

  /** Pressing accept once per commit takes them all, when each is documented and needs no period. */
  lemma {:induction false} AcceptAll(s: State, keys: seq<Key>)
    requires Active(s) && s.mode.Choosing? && s == Enter(s) && |keys| == |s.commits| - |s.decisions|
    requires forall k | 0 <= k < |keys| :: keys[k].Key? && IsAccept(keys[k].c)
    requires forall j | |s.decisions| <= j < |s.commits| ::
               Documented(s.commits[j]) && !NeedsPeriod(s.commits[j].entry.value)
    ensures var t := Run(s, keys);
      && t.mode.Finished? && t.commits == s.commits && |t.decisions| == |s.commits|
      && forall j | |s.decisions| <= j < |s.commits| :: t.decisions[j] == Taken(s.commits[j].community, false)
    decreases |keys|
  {
    var t := Press(s, keys[0]);
    assert t == Take(s, false);
    assert t.decisions[|s.decisions|] == Taken(Current(s).community, false);
    if |keys| > 1 {
      AcceptAll(t, keys[1..]);
      DecisionsStay(t, keys[1..]);
    } else {
      assert keys[1..] == [];
    }
  }

  lemma {:induction false} EndedStays(s: State, keys: seq<Key>)
    requires !Active(s)
    ensures Run(s, keys) == s
    decreases |keys|
  {
    if keys != [] {
      EndedStays(s, keys[1..]);
    }
  }


  // ----- the loop -----

  /** Two characters of an escape sequence are read and dropped. */
  method Swallow(input: seq<Key>, start: nat, ghost s: State) returns (pos: nat, ended: Option<Mode>)
    requires start < |input| && input[|input| - 1].Eof? && Active(s) && s.mode == Swallowing(2)
    ensures start <= pos <= |input|
    ensures ended == None ==> pos < |input| && Run(s, input[start..]) == Run(s.(mode := Choosing), input[pos..])
    ensures ended.Some? ==> ended.value in {Cancelled, Crashed} && Run(s, input[start..]) == s.(mode := ended.value)
  {
    pos, ended := start, None;
    ghost var t := s;
    for n := 0 to 2
      invariant start <= pos < |input| && Run(s, input[start..]) == Run(t, input[pos..])
      invariant t == s.(mode := if n == 2 then Choosing else Swallowing(2 - n))
    {
      assert input[pos..][1..] == input[pos + 1..];
      t := Press(t, input[pos]);
      pos := pos + 1;
      if !input[pos - 1].Key? {
        EndedStays(t, input[pos..]);
        return pos, Some(if input[pos - 1].Eof? then Crashed else Cancelled);
      }
    }
  }

  lemma EscapeAndQuit(s: State, key: Key)
    requires Active(s) && key.Key?
    ensures key.c == ESC ==> Choose(s, key) == s.(mode := Swallowing(2))
    ensures key.c == 'q' ==> Choose(s, key) == s.(mode := Cancelled)
  {
  }

  /** Waits for a key that means something: an escape sequence is read and ignored, and the end of the
      input, Ctrl-C and `q` end the review. */
  method ReadKey(input: seq<Key>, start: nat, ghost s: State) returns (key: Key, pos: nat, ended: Option<Mode>)
    requires start < |input| && input[|input| - 1].Eof? && Active(s) && s.mode.Choosing?
    ensures start < pos <= |input|
    ensures ended.Some? ==> ended.value in {Cancelled, Crashed} && Run(s, input[start..]) == s.(mode := ended.value)
    ensures ended == None ==> pos < |input| && key == input[pos - 1] && key.Key? && key.c != ESC && key.c != 'q'
    ensures ended == None ==> Run(s, input[start..]) == Run(Choose(s, key), input[pos..])
  {
    hide Choose;
    pos := start;
    while true
      invariant start <= pos < |input| && Run(s, input[start..]) == Run(s, input[pos..])
      decreases |input| - pos
    {
      key := input[pos];
      if key.Key? {
        EscapeAndQuit(s, key);
      }
      assert input[pos..][1..] == input[pos + 1..];
      pos := pos + 1;
      ghost var t := Press(s, key);
      if !key.Key? || key.c == 'q' {
        EndedStays(t, input[pos..]);
        return key, pos, Some(if key.Eof? then Crashed else Cancelled);
      }
      if key.c != ESC {
        return key, pos, None;
      }
      pos, ended := Swallow(input, pos, t);
      if ended.Some? {
        return;
      }
      assert t.(mode := Choosing) == s;
    }
  }

  /** The keys that change the commit on display or how it will be treated. */
  method EditCommit(commit: Commit, thank: bool, discarded: bool, key: Key, ghost s: State)
    returns (c: Commit, nowThank: bool, nowDiscarded: bool)
    requires key.Key? && key.c != ESC && !IsAccept(key.c) && key.c != 'q'
    requires Active(s) && Current(s) == commit && s.thank == thank && s.discarded == discarded
    ensures Choose(s, key) == Edit(s, c).(thank := nowThank, discarded := nowDiscarded)
  {
    c, nowThank, nowDiscarded := commit, thank, discarded;
    match key.c
    case 'c' =>
      c := c.(category := CycleCategory(c.category, c.repo == "internal"), ignore := false);
    case 'p' =>
      if key.answers.prefix != c.prefix {
        c := c.(prefix := key.answers.prefix, ignore := false);
      }
    case 'e' =>
      var a := key.answers;
      var shown := if Given(c.entry) then c.entry.value else c.title;
      if Given(a.typed) && a.typed.value != shown {
        c := c.(entry := Some(a.cleaned), prefix := if ValidPrefix(a.detected) then a.detected else c.prefix,
                ignore := false);
      }
    case 'g' =>
      if key.answers.suggestion.Some? {
        var g := key.answers.suggestion.value;
        c := c.(entry := Some(g.description), category := g.category, prefix := g.prefix, ignore := false);
        nowThank, nowDiscarded := g.shouldThank, g.shouldSkip;
      }
    case 't' => nowThank := !thank;
    case 'd' => nowDiscarded := !discarded;
    case _ =>
    assert Edit(s, commit) == s;
  }

  /** Accepting a documented commit. Where its entry lacks a period one is offered, and anything but
      `y` declines the offer, even the end of the input. */
  method AcceptCommit(commit: Commit, input: seq<Key>, start: nat, ghost s: State)
    returns (c: Commit, pos: nat, interrupted: bool, ghost t: State)
    requires start < |input| && Active(s) && s.mode.Choosing? && !s.discarded
    requires commit == Current(s) && Documented(commit)
    ensures start <= pos <= start + 1 && (pos == |input| && !interrupted ==> start + 1 == |input|)
    ensures Run(Accept(s), input[start..]) == Run(t, input[pos..])
    ensures interrupted ==> c == commit && t == s.(mode := Cancelled)
    ensures !interrupted ==>
      && t == Enter(t) && |t.decisions| == |s.decisions| + 1 <= |t.commits|
      && t.commits == s.commits[|s.decisions| := c] && t.accepted == s.accepted + [c.(ignore := !s.thank)]
  {
    c, pos, interrupted, t := commit, start, false, Accept(s);
    assert s.commits[|s.decisions| := commit] == s.commits;
    if NeedsPeriod(commit.entry.value) {
      assert input[pos..][1..] == input[pos + 1..];
      var answer := input[pos];
      pos := pos + 1;
      t := Press(t, answer);
      if answer.Interrupt? {
        return c, pos, true, t;
      }
      if answer.Key? && answer.c == 'y' {
        c := c.(entry := Some(WithPeriod(c.entry.value)));
      }
    }
  }

  /** What became of the commit on display: still there, decided, or the review has ended. */
  datatype Turn = Stay(thank: bool, discarded: bool) | Move(taken: seq<Commit>) | End(mode: Mode)

  /** The state with the commit on display edited. */
  function Displayed(s: State, c: Commit, thank: bool, discarded: bool): State
    requires Active(s)
  {
    Edit(s, c).(thank := thank, discarded := discarded)
  }

  ghost predicate TurnLeads(s: State, c: Commit, turn: Turn, t: State)
    requires Active(s)
  {
    && t.commits == s.commits[|s.decisions| := c]
    && match turn
       case Stay(thank, discarded) => t == Displayed(s, c, thank, discarded)
       case Move(taken) =>
         t == Enter(t) && |t.decisions| == |s.decisions| + 1 <= |t.commits| && t.accepted == s.accepted + taken
       case End(mode) => t.mode == mode && !Active(t) && t.accepted == s.accepted
  }

  lemma DisplayedAgain(s: State, c: Commit, thank: bool, discarded: bool, again: Commit, turn: Turn, t: State)
    requires Active(s) && TurnLeads(Displayed(s, c, thank, discarded), again, turn, t)
    ensures TurnLeads(s, again, turn, t)
  {
  }

  /** One key. */
  method Respond(shown: Commit, thank: bool, discarded: bool, key: Key, input: seq<Key>, start: nat, ghost s: State)
    returns (turn: Turn, commit: Commit, pos: nat, ghost t: State)
    requires 0 < start < |input| && Active(s) && s.mode.Choosing?
    requires shown == Current(s) && s.thank == thank && s.discarded == discarded
    requires key.Key? && key.c != ESC && key.c != 'q'
    ensures start <= pos <= start + 1 && (turn.Stay? ==> pos == start)
    ensures Run(Choose(s, key), input[start..]) == Run(t, input[pos..])
    ensures TurnLeads(s, commit, turn, t)
  {
    commit, pos := shown, start;
    assert s.commits[|s.decisions| := shown] == s.commits;
    if !IsAccept(key.c) {
      var nowThank, nowDiscarded;
      commit, nowThank, nowDiscarded := EditCommit(shown, thank, discarded, key, s);
      t := Choose(s, key);
      return Stay(nowThank, nowDiscarded), commit, pos, t;
    } else if discarded {
      return Move([]), commit, pos, Skip(s);
    } else if !Documented(shown) {
      return Stay(thank, discarded), commit, pos, s;
    }
    var interrupted;
    commit, pos, interrupted, t := AcceptCommit(shown, input, start, s);
    turn := if interrupted then End(Cancelled) else Move([commit.(ignore := !thank)]);
  }

  /** One commit, from its display until it is accepted or skipped, or the review ends. */
  method ReviewCommit(shown: Commit, input: seq<Key>, start: nat, ghost s: State)
    returns (turn: Turn, commit: Commit, pos: nat, ghost t: State)
    requires start < |input| && input[|input| - 1].Eof? && (start + 1 < |input| ==> input[|input| - 2].Eof?)
    requires Active(s) && s == Enter(s) && shown == Current(s)
    ensures start <= pos <= |input| && (turn.Move? ==> pos < |input|)
    ensures Run(s, input[start..]) == Run(t, input[pos..])
    ensures !turn.Stay? && TurnLeads(s, commit, turn, t)
  {
    hide Press;
    commit, pos, t := shown, start, s;
    turn := Stay(commit.community, !Given(commit.entry));
    assert s.commits[|s.decisions| := shown] == s.commits;
    while turn.Stay?
      invariant start <= pos <= |input| && (!turn.End? ==> pos < |input|)
      invariant Run(s, input[start..]) == Run(t, input[pos..])
      invariant TurnLeads(s, commit, turn, t)
      decreases |input| - pos, turn.Stay?
    {
      ghost var was, before := t, commit;
      var thank, discarded := turn.thank, turn.discarded;
      var key, ended;
      key, pos, ended := ReadKey(input, pos, t);
      if ended.Some? {
        t := t.(mode := ended.value);
        EndedStays(t, input[pos..]);
        turn := End(ended.value);
      } else {
        turn, commit, pos, t := Respond(commit, thank, discarded, key, input, pos, t);
        DisplayedAgain(s, before, thank, discarded, commit, turn, t);
      }
    }
  }

  method InteractiveReview(original: seq<Commit>, keys: seq<Key>)
    returns (mode: Mode, finalCommits: seq<Commit>, processed: seq<Commit>)
    ensures mode == Outcome(original, keys).mode
    ensures finalCommits == Outcome(original, keys).accepted
    ensures processed == Outcome(original, keys).commits
  {
    processed, finalCommits := original, [];
    var i, pos := 0, 0;
    var input := Input(keys);
    ghost var s := Start(original);
    assert input[0..] == input;
    while i < |processed|
      invariant pos < |input| && i == |s.decisions| <= |processed| == |original|
      invariant s == Enter(s) && s.commits == processed && s.accepted == finalCommits
      invariant Outcome(original, keys) == Run(s, input[pos..])
      decreases |processed| - i
    {
      var turn, commit;
      turn, commit, pos, s := ReviewCommit(processed[i], input, pos, s);
      processed := processed[i := commit];
      if turn.End? {
        EndedStays(s, input[pos..]);
        return turn.mode, finalCommits, processed;
      }
      finalCommits := finalCommits + turn.taken;
      i := i + 1;
    }
    EndedStays(s, input[pos..]);
    return Finished, finalCommits, processed;
  }
}
