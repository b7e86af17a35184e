/** Which keys lead to which decision about the commit on display, told from the keys alone: how often they
    were pressed since the AI last made a suggestion, and which edit came last. */
module ChangelogKeys {
  import opened Text
  import opened Wrappers
  import opened ChangelogReview

  /** A key that neither decides about the commit nor starts an escape sequence nor quits. */
  predicate Stays(k: Key) {
    k.Key? && k.c !in {ESC, 'q', 'a', '\r', '\n'}
  }

  ghost predicate AllStay(keys: seq<Key>) {
    forall i :: 0 <= i < |keys| ==> Stays(keys[i])
  }

  /** A commit is on display and the program waits for a key. */
  predicate Displays(s: State) {
    s.mode.Choosing? && |s.decisions| < |s.commits|
  }

  predicate Presses(k: Key, c: char) {
    k.Key? && k.c == c
  }

  function Count(keys: seq<Key>, c: char): nat {
    if keys == [] then 0
    else Count(keys[..|keys| - 1], c) + if Presses(keys[|keys| - 1], c) then 1 else 0
  }

  predicate Odd(n: nat) {
    n % 2 == 1
  }

  predicate Suggests(k: Key) {
    Presses(k, 'g') && k.answers.suggestion.Some?
  }

  /** The last suggestion of the AI, and the keys that followed it. */
  function LastSuggestion(keys: seq<Key>): Option<Suggestion> {
    if keys == [] then None
    else if Suggests(keys[|keys| - 1]) then keys[|keys| - 1].answers.suggestion
    else LastSuggestion(keys[..|keys| - 1])
  }

  function Since(keys: seq<Key>): seq<Key> {
    if keys == [] || Suggests(keys[|keys| - 1]) then []
    else Since(keys[..|keys| - 1]) + [keys[|keys| - 1]]
  }

  // ----- runs from their last key -----

  lemma {:induction false} RunConcat(s: State, a: seq<Key>, b: seq<Key>)
    ensures Run(s, a + b) == Run(Run(s, a), b)
    decreases |a|
  {
    if a == [] {
      assert a + b == b;
    } else {
      assert (a + b)[1..] == a[1..] + b;
      RunConcat(Press(s, a[0]), a[1..], b);
    }
  }

  lemma {:induction false} RunOne(s: State, k: Key)
    ensures Run(s, [k]) == Press(s, k)
  {
    assert [k][1..] == [];
    assert Run(Press(s, k), [k][1..]) == Press(s, k);
  }

  lemma {:induction false} RunThen(s: State, keys: seq<Key>)
    requires keys != []
    ensures Run(s, keys) == Press(Run(s, keys[..|keys| - 1]), keys[|keys| - 1])
  {
    hide Press;
    var (front, k) := (keys[..|keys| - 1], keys[|keys| - 1]);
    assert keys == front + [k];
    RunConcat(s, front, [k]);
    RunOne(Run(s, front), k);
  }

  /** The commit stays on display, and nothing but its category, entry, prefix and thanks can change. */
  ghost predicate StillDisplays(s: State, t: State)
    requires Displays(s)
  {
    && Displays(t) && t.decisions == s.decisions && t.accepted == s.accepted
    && t.commits == s.commits[|s.decisions| := Current(t)] && SameCommit(Current(s), Current(t))
  }

  lemma EditStays(s: State, c: Commit)
    requires Displays(s) && SameCommit(Current(s), c)
    ensures StillDisplays(s, Edit(s, c))
  {
  }

  lemma StepStays(s: State, k: Key)
    requires Displays(s) && Stays(k)
    ensures StillDisplays(s, Press(s, k))
  {
    hide CycleCategory, ValidPrefix, Given, StillDisplays, Edit;
    var c := Current(s);
    EditStays(s, c);
    EditStays(s, c.(category := CycleCategory(c.category, c.repo == "internal"), ignore := false));
    EditStays(s, c.(prefix := k.answers.prefix, ignore := false));
    var a := k.answers;
    EditStays(s, c.(entry := Some(a.cleaned), ignore := false,
                    prefix := if ValidPrefix(a.detected) then a.detected else c.prefix));
    SuggestStays(s, a);
    SameFlags(s);
  }

  lemma SuggestStays(s: State, a: Answers)
    requires Displays(s)
    ensures StillDisplays(s, Suggest(s, a))
  {
    assert s.commits[|s.decisions| := Current(s)] == s.commits;
  }

  lemma SameFlags(s: State)
    requires Displays(s)
    ensures StillDisplays(s, s) && forall thank, discarded ::
      StillDisplays(s, s.(thank := thank)) && StillDisplays(s, s.(discarded := discarded))
  {
    assert s.commits[|s.decisions| := Current(s)] == s.commits;
  }

  lemma {:induction false} KeysStay(s: State, keys: seq<Key>)
    requires Displays(s) && AllStay(keys)
    ensures Displays(Run(s, keys)) && StillDisplays(s, Run(s, keys))
    decreases |keys|
  {
    if keys != [] {
      hide Press, Run;
      RunThen(s, keys);
      KeysStay(s, keys[..|keys| - 1]);
      StepStays(Run(s, keys[..|keys| - 1]), keys[|keys| - 1]);
    } else {
      assert s.commits == s.commits[|s.decisions| := Current(s)];
    }
  }

  lemma {:induction false} NoKeys(s: State)
    ensures Run(s, []) == s && LastSuggestion([]) == None && Since([]) == []
    ensures forall c :: Count([], c) == 0
  {
  }

  /** What one more key means for the keys alone. */
  lemma {:induction false} OneMoreKey(keys: seq<Key>)
    requires keys != []
    ensures var (front, k) := (keys[..|keys| - 1], keys[|keys| - 1]);
      if Suggests(k)
      then LastSuggestion(keys) == k.answers.suggestion && k.answers.suggestion.Some? && Since(keys) == []
      else
        && LastSuggestion(keys) == LastSuggestion(front)
        && forall c :: Count(Since(keys), c) == Count(Since(front), c) + if Presses(k, c) then 1 else 0
  {
    var (front, k) := (keys[..|keys| - 1], keys[|keys| - 1]);
    if !Suggests(k) {
      assert Since(keys)[..|Since(keys)| - 1] == Since(front);
    }
  }

  // ----- thanks, discarding and the category -----

  lemma StepToggles(s: State, k: Key)
    requires Displays(s) && Stays(k)
    ensures !Suggests(k) ==>
      && Press(s, k).discarded == (s.discarded != Presses(k, 'd'))
      && Press(s, k).thank == (s.thank != Presses(k, 't'))
    ensures Suggests(k) ==> var g := k.answers.suggestion.value;
      Press(s, k).discarded == g.shouldSkip && Press(s, k).thank == g.shouldThank
  {
    hide CycleCategory, ValidPrefix;
  }

  /** Each `d` flips whether the commit is discarded and each `t` whether its author is thanked, from what the
      last suggestion said, or from how the commit was displayed if there was none. */
  lemma {:induction false} KeysToggle(s: State, keys: seq<Key>)
    requires Displays(s) && AllStay(keys)
    ensures var (g, since) := (LastSuggestion(keys), Since(keys));
      && Run(s, keys).discarded == ((if g.Some? then g.value.shouldSkip else s.discarded) != Odd(Count(since, 'd')))
      && Run(s, keys).thank == ((if g.Some? then g.value.shouldThank else s.thank) != Odd(Count(since, 't')))
    decreases |keys|
  {
    hide Press, Run, Since, Count, LastSuggestion, Presses, Suggests, StillDisplays, Displays;
    NoKeys(s);
    if keys != [] {
      var (front, k) := (keys[..|keys| - 1], keys[|keys| - 1]);
      RunThen(s, keys);
      KeysStay(s, front);
      KeysToggle(s, front);
      StepToggles(Run(s, front), k);
      OneMoreKey(keys);
    }
  }

  lemma StepCycles(s: State, k: Key)
    requires Displays(s) && Stays(k)
    ensures Displays(Press(s, k)) && |Press(s, k).decisions| == |s.decisions|
    ensures var (before, after) := (Current(s), Current(Press(s, k)));
      && (Presses(k, 'c') ==> after.category == CycleCategory(before.category, before.repo == "internal"))
      && (!Presses(k, 'c') && !Suggests(k) ==> after.category == before.category)
      && (Suggests(k) ==> after.category == k.answers.suggestion.value.category)
  {
    hide CycleCategory, ValidPrefix;
  }

  /** The category before `c` was pressed: the last suggestion's, or the one displayed. */
  function BaseCategory(s: State, keys: seq<Key>): string
    requires Displays(s)
  {
    match LastSuggestion(keys)
    case Some(g) => g.category
    case None => Current(s).category
  }

  /** The circle is entered at index `i` from the base: at the base itself, or at the first category if the
      base is not in the circle. */
  ghost predicate EntersAt(base: string, internal: bool, i: nat) {
    var n := if internal then 4 else 3;
    (i < n && base == CATEGORY_ORDER[i]) || (i == n - 1 && base !in CATEGORY_ORDER[..n])
  }

  /** So many places on in the circle of New, Bugfixes, Documentation and, internally, Dagster Plus. */
  function Further(base: string, internal: bool, i: nat, presses: nat): string {
    if presses == 0 then base
    else if internal then CATEGORY_ORDER[(i + presses) % 4] else CATEGORY_ORDER[(i + presses) % 3]
  }

  lemma OneFurther(base: string, internal: bool, i: nat, presses: nat)
    requires EntersAt(base, internal, i)
    ensures CycleCategory(Further(base, internal, i, presses), internal) == Further(base, internal, i, presses + 1)
  {
    hide CycleCategory, CATEGORY_ORDER;
    NextInCircle(i + presses);
    var at := if internal then (i + presses) % 4 else (i + presses) % 3;
    CategoriesCycle(Further(base, internal, i, presses), internal, if presses == 0 then i else at);
  }

  lemma NextInCircle(n: nat)
    ensures (n % 4 + 1) % 4 == (n + 1) % 4 && (n % 3 + 1) % 3 == (n + 1) % 3
  {
  }

  /** Each `c` moves one category on in the circle of the repository. */
  lemma {:induction false} KeysCycle(s: State, keys: seq<Key>, i: nat)
    requires Displays(s) && AllStay(keys)
    requires EntersAt(BaseCategory(s, keys), Current(s).repo == "internal", i)
    ensures Displays(Run(s, keys))
    ensures Current(Run(s, keys)).category
         == Further(BaseCategory(s, keys), Current(s).repo == "internal", i, Count(Since(keys), 'c'))
    decreases |keys|
  {
    hide Press, Run, CycleCategory, Further, EntersAt, Presses, Suggests, SameCommit, Since, Count, LastSuggestion;
    var internal := Current(s).repo == "internal";
    var base := BaseCategory(s, keys);
    NoKeys(s);
    FurtherNone(base, internal, i);
    if keys != [] {
      var (front, k) := (keys[..|keys| - 1], keys[|keys| - 1]);
      RunThen(s, keys);
      KeysStay(s, front);
      StepCycles(Run(s, front), k);
      OneMoreKey(keys);
      if !Suggests(k) {
        KeysCycle(s, front, i);
        SameRepo(s, Run(s, front));
        OneFurther(base, internal, i, Count(Since(front), 'c'));
      }
    }
  }

  lemma SameRepo(s: State, t: State)
    requires Displays(s) && StillDisplays(s, t)
    ensures Current(t).repo == Current(s).repo
  {
  }

  lemma FurtherNone(base: string, internal: bool, i: nat)
    ensures Further(base, internal, i, 0) == base
  {
  }

  // ----- the entry and the prefix -----

  /** What `e` offers for editing. */
  function TextToEdit(c: Commit): string {
    if Given(c.entry) then c.entry.value else c.title
  }

  /** A prefix found in a typed entry is used if it is `ui` or names a library, and so is the lack of one. */
  predicate Usable(prefix: Option<string>) {
    prefix in {None, Some("ui")} || (prefix.Some? && |prefix.value| >= 8 && prefix.value[..8] == "dagster-")
  }

  /** The prompt of `e` was answered with another text. */
  predicate Rewrites(c: Commit, k: Key) {
    Presses(k, 'e') && Given(k.answers.typed) && k.answers.typed.value != TextToEdit(c)
  }

  lemma StepEdits(s: State, k: Key)
    requires Displays(s) && Stays(k)
    ensures Displays(Press(s, k)) && |Press(s, k).decisions| == |s.decisions|
    ensures var (before, after, a) := (Current(s), Current(Press(s, k)), k.answers);
      && after.entry == (if Suggests(k) then Some(a.suggestion.value.description)
                         else if Rewrites(before, k) then Some(a.cleaned) else before.entry)
      && after.prefix == (if Suggests(k) then a.suggestion.value.prefix
                          else if Presses(k, 'p') then a.prefix
                          else if Rewrites(before, k) && Usable(a.detected) then a.detected else before.prefix)
  {
    hide CycleCategory;
  }

  /** Keys that may change the entry, and keys that may change the prefix. */
  predicate TouchesEntry(k: Key) {
    Presses(k, 'e') || Suggests(k)
  }

  predicate TouchesPrefix(k: Key) {
    TouchesEntry(k) || Presses(k, 'p')
  }

  lemma {:induction false} TextStands(s: State, keys: seq<Key>)
    requires Displays(s) && AllStay(keys)
    ensures Displays(Run(s, keys)) && |Run(s, keys).decisions| == |s.decisions|
    ensures (forall i :: 0 <= i < |keys| ==> !TouchesEntry(keys[i])) ==>
      Current(Run(s, keys)).entry == Current(s).entry
    ensures (forall i :: 0 <= i < |keys| ==> !TouchesPrefix(keys[i])) ==>
      Current(Run(s, keys)).prefix == Current(s).prefix
    decreases |keys|
  {
    if keys != [] {
      hide Press;
      StepEdits(s, keys[0]);
      assert forall i :: 0 <= i < |keys| - 1 ==> keys[1..][i] == keys[i + 1];
      TextStands(Press(s, keys[0]), keys[1..]);
    }
  }

  /** The last key that changes the entry, or the prefix, says what it is when the commit is accepted; without
      such a key it is the one displayed (`TextStands`). */
  lemma {:induction false} LastEditStands(s: State, before: seq<Key>, k: Key, after: seq<Key>)
    requires Displays(s) && AllStay(before) && Stays(k) && AllStay(after)
    ensures Displays(Run(s, before)) && Displays(Run(s, before + [k] + after))
    ensures var (was, now, a) := (Current(Run(s, before)), Current(Run(s, before + [k] + after)), k.answers);
      && ((forall i :: 0 <= i < |after| ==> !TouchesEntry(after[i])) ==>
            now.entry == if Suggests(k) then Some(a.suggestion.value.description)
                         else if Rewrites(was, k) then Some(a.cleaned) else was.entry)
      && ((forall i :: 0 <= i < |after| ==> !TouchesPrefix(after[i])) ==>
            now.prefix == if Suggests(k) then a.suggestion.value.prefix
                          else if Presses(k, 'p') then a.prefix
                          else if Rewrites(was, k) && Usable(a.detected) then a.detected else was.prefix)
    ensures Current(Run(s, before)).title == Current(s).title
  {
    hide Press, Run, Usable, Rewrites, TouchesEntry, TouchesPrefix;
    var t := Run(s, before);
    KeysStay(s, before);
    StepEdits(t, k);
    RunConcat(s, before, [k]);
    RunOne(t, k);
    RunConcat(s, before + [k], after);
    TextStands(Press(t, k), after);
  }

  // ----- where a period is missing -----

  lemma {:induction false} StripRightMeans(s: string)
    ensures forall i :: |StripRight(s)| <= i < |s| ==> IsSpace(s[i])
  {
    if s != "" && IsSpace(s[|s| - 1]) {
      StripRightMeans(s[..|s| - 1]);
    }
  }

  /** The last character of the entry that is no white space. */
  predicate EndsIn(entry: string, i: nat) {
    i < |entry| && !IsSpace(entry[i]) && forall j :: i < j < |entry| ==> IsSpace(entry[j])
  }

  /** A period is offered if and only if the entry, which is not the placeholder, ends in something other than
      white space and a closing mark. */
  lemma NeedsPeriodMeans(entry: string)
    ensures NeedsPeriod(entry)
       <==> entry != "<UNDOCUMENTED>"
            && exists i: nat :: EndsIn(entry, i) && entry[i] !in {'.', '!', '?', ')', ']'}
  {
    StripRightMeans(entry);
    var text := StripRight(entry);
    hide IsSpace;
    if text != "" {
      assert EndsIn(entry, |text| - 1);
      assert text[|text| - 1] == entry[|text| - 1];
      forall i: nat | EndsIn(entry, i) ensures i == |text| - 1 {}
    }
    assert forall c :: c in ".!?)]" <==> c in {'.', '!', '?', ')', ']'} by {
      assert ".!?)]" == ['.', '!', '?', ')', ']'];
    }
  }

  // ----- the decision -----

  predicate AcceptKey(k: Key) {
    k.Key? && k.c in {'a', '\r', '\n'}
  }

  /** The decision about the commit on display has been made, and the next one, if any, is on display as it
      came: thanked if it is a community contribution, discarded if it has no entry. */
  ghost predicate Decides(s: State, d: Decision, c: Commit, t: State)
    requires Displays(s)
  {
    && t.decisions == s.decisions + [d] && t.commits == s.commits[|s.decisions| := c]
    && t.accepted == s.accepted + (match d case Skipped => [] case Taken(thank, _) => [c.(ignore := !thank)])
    && (|t.decisions| == |t.commits| ==> t.mode == Finished)
    && (|t.decisions| < |t.commits| ==>
          Displays(t) && t.thank == Current(t).community && t.discarded == !Given(Current(t).entry))
  }

  /** An accept key skips a discarded commit, refuses an undocumented one, and takes any other with the
      thanks on display; where a period is missing, the next key says whether one is added. */
  lemma {:induction false} AcceptDecides(s: State, accept: Key, answer: Key)
    requires Displays(s) && AcceptKey(accept)
    ensures var (c, t) := (Current(s), Run(s, [accept]));
      if s.discarded then Decides(s, Skipped, c, t)
      else if !Given(c.entry) || c.entry.value == UNDOCUMENTED then t == s
      else if !NeedsPeriod(c.entry.value) then Decides(s, Taken(s.thank, false), c, t)
      else
        var u := Run(s, [accept, answer]);
        if answer.Interrupt? then u == s.(mode := Cancelled)
        else if Presses(answer, 'y')
        then Decides(s, Taken(s.thank, false), c.(entry := Some(StripRight(c.entry.value) + ".")), u)
        else Decides(s, Taken(s.thank, true), c, u)
  {
    hide NeedsPeriod, Decides, Press, Run, Documented, StripRight;
    var c := Current(s);
    var t := Press(s, accept);
    RunOne(s, accept);
    RunConcat(s, [accept], [answer]);
    RunOne(t, answer);
    assert [accept] + [answer] == [accept, answer];
    AcceptCases(s, accept);
    if t.mode.Confirming? {
      AnswerCases(s, answer);
    }
  }

  lemma AcceptCases(s: State, accept: Key)
    requires Displays(s) && AcceptKey(accept)
    ensures var (c, t) := (Current(s), Press(s, accept));
      if s.discarded then Decides(s, Skipped, c, t) && !t.mode.Confirming?
      else if !Given(c.entry) || c.entry.value == UNDOCUMENTED then t == s
      else if !NeedsPeriod(c.entry.value) then Decides(s, Taken(s.thank, false), c, t) && !t.mode.Confirming?
      else t == s.(mode := Confirming)
  {
    hide NeedsPeriod;
    assert s.commits[|s.decisions| := Current(s)] == s.commits;
  }

  lemma AnswerCases(s: State, answer: Key)
    requires Displays(s) && Given(Current(s).entry)
    ensures var (c, u) := (Current(s), Press(s.(mode := Confirming), answer));
      if answer.Interrupt? then u == s.(mode := Cancelled)
      else if Presses(answer, 'y')
      then Decides(s, Taken(s.thank, false), c.(entry := Some(StripRight(c.entry.value) + ".")), u)
      else Decides(s, Taken(s.thank, true), c, u)
  {
    hide StripRight;
    assert s.commits[|s.decisions| := Current(s)] == s.commits;
  }

  /** The keys pressed while a commit is on display decide about it: the next accept key skips it if and only
      if `d` was pressed an odd number of times since the AI last suggested to keep it, or an even number of
      times since it last suggested to skip it; with no suggestion, what counts is how the commit came. A
      documented commit that is not skipped is taken, and its author is thanked by the same rule for `t`. */
  lemma {:induction false} KeysDecide(s: State, keys: seq<Key>, accept: Key)
    requires Displays(s) && AllStay(keys) && AcceptKey(accept)
    ensures Displays(Run(s, keys))
    ensures
      var c := Current(Run(s, keys));
      var (g, since) := (LastSuggestion(keys), Since(keys));
      var skip := (if g.Some? then g.value.shouldSkip else s.discarded) != Odd(Count(since, 'd'));
      var thank := (if g.Some? then g.value.shouldThank else s.thank) != Odd(Count(since, 't'));
      var t := Run(s, keys + [accept]);
      && (skip <==> t.decisions == s.decisions + [Skipped])
      && (skip ==> Decides(s, Skipped, c, t))
      && (!skip && Documented(c) && !NeedsPeriod(c.entry.value) ==> Decides(s, Taken(thank, false), c, t))
      && (!skip && !Documented(c) ==> t == Run(s, keys))
  {
    hide Press, Run, NeedsPeriod, Decides, Documented, Since, Count, LastSuggestion;
    var u := Run(s, keys);
    KeysStay(s, keys);
    KeysToggle(s, keys);
    RunConcat(s, keys, [accept]);
    AcceptOutcome(s, u, accept);
  }

  lemma {:induction false} AcceptOutcome(s: State, u: State, accept: Key)
    requires Displays(s) && StillDisplays(s, u) && AcceptKey(accept)
    ensures var (c, t) := (Current(u), Run(u, [accept]));
      && (u.discarded <==> t.decisions == s.decisions + [Skipped])
      && (u.discarded ==> Decides(s, Skipped, c, t))
      && (!u.discarded && Documented(c) && !NeedsPeriod(c.entry.value) ==> Decides(s, Taken(u.thank, false), c, t))
      && (!u.discarded && !Documented(c) ==> t == u)
  {
    hide Press, NeedsPeriod, SameCommit;
    RunOne(u, accept);
    AcceptCases(u, accept);
    assert forall d: Decision :: s.decisions + [d] != s.decisions && (s.decisions + [d])[|s.decisions|] == d;
    assert u.commits[|u.decisions| := Current(u)] == s.commits[|s.decisions| := Current(u)];
  }

  /** The offer of a period: `y` adds it to the entry and any other key, or the end of the input, declines. */
  lemma {:induction false} KeysAnswerPeriod(s: State, keys: seq<Key>, accept: Key, answer: Key)
    requires Displays(s) && AllStay(keys) && AcceptKey(accept) && !answer.Interrupt?
    requires Displays(Run(s, keys)) && Documented(Current(Run(s, keys)))
    requires NeedsPeriod(Current(Run(s, keys)).entry.value) && !Run(s, keys).discarded
    ensures
      var u := Run(s, keys);
      var (c, t, yes) := (Current(u), Run(s, keys + [accept, answer]), Presses(answer, 'y'));
      Decides(s, Taken(u.thank, !yes), if yes then c.(entry := Some(StripRight(c.entry.value) + ".")) else c, t)
  {
    hide Press, Run, NeedsPeriod;
    var u := Run(s, keys);
    KeysStay(s, keys);
    AcceptDecides(u, accept, answer);
    RunConcat(s, keys, [accept, answer]);
    var c := if Presses(answer, 'y') then Current(u).(entry := Some(StripRight(Current(u).entry.value) + "."))
             else Current(u);
    assert u.commits[|u.decisions| := c] == s.commits[|s.decisions| := c];
  }

  /** For example, `d` and Enter skip a documented commit, and `t` and Enter take it with its thanks flipped. */
  lemma {:induction false} DiscardThenAccept(s: State, d: Key, t: Key, enter: Key)
    requires Displays(s) && !s.discarded && Documented(Current(s)) && !NeedsPeriod(Current(s).entry.value)
    requires Presses(d, 'd') && Presses(t, 't') && Presses(enter, '\n')
    ensures Decides(s, Skipped, Current(s), Run(s, [d, enter]))
    ensures Decides(s, Taken(!s.thank, false), Current(s), Run(s, [t, enter]))
  {
    hide Press, Run, NeedsPeriod, Decides, Documented, Since, Count, LastSuggestion;
    OneKeyThenAccept(s, d, enter);
    OneKeyThenAccept(s, t, enter);
  }

  lemma {:induction false} OneKeyThenAccept(s: State, k: Key, accept: Key)
    requires Displays(s) && !s.discarded && Documented(Current(s)) && !NeedsPeriod(Current(s).entry.value)
    requires AcceptKey(accept) && (Presses(k, 'd') || Presses(k, 't'))
    ensures Presses(k, 'd') ==> Decides(s, Skipped, Current(s), Run(s, [k, accept]))
    ensures Presses(k, 't') ==> Decides(s, Taken(!s.thank, false), Current(s), Run(s, [k, accept]))
  {
    hide Press, Run, NeedsPeriod, Decides, Documented, Since, Count, LastSuggestion;
    CountOne(k);
    TogglesOnly(s, k);
    RunOne(s, k);
    KeysDecide(s, [k], accept);
    assert [k] + [accept] == [k, accept];
  }

  lemma CountOne(k: Key)
    requires !Suggests(k)
    ensures LastSuggestion([k]) == None && Since([k]) == [k]
    ensures forall c :: Count([k], c) == if Presses(k, c) then 1 else 0
  {
    assert [k][..0] == [];
  }

  lemma TogglesOnly(s: State, k: Key)
    requires Displays(s) && (Presses(k, 'd') || Presses(k, 't'))
    ensures Displays(Press(s, k)) && Current(Press(s, k)) == Current(s)
  {
  }

  // ----- keys that end the review, and escape sequences -----

  /** An escape sequence of three characters changes nothing; `q` and Ctrl-C cancel the review, which stays
      cancelled whatever follows; and so does the end of the input, but as a crash. */
  lemma {:induction false} EndingKeys(s: State, k: Key, more: seq<Key>)
    requires Displays(s)
    ensures Presses(k, 'q') || k.Interrupt? ==> Run(s, [k] + more) == s.(mode := Cancelled)
    ensures k.Eof? ==> Run(s, [k] + more) == s.(mode := Crashed)
    ensures Presses(k, ESC) && |more| >= 2 && more[0].Key? && more[1].Key? ==> Run(s, [k] + more) == Run(s, more[2..])
  {
    hide Press, Run;
    RunConcat(s, [k], more);
    RunOne(s, k);
    var t := Press(s, k);
    PressEnds(s, k);
    if !Active(t) {
      EndedStays(t, more);
    } else if Presses(k, ESC) && |more| >= 2 && more[0].Key? && more[1].Key? {
      assert more == [more[0], more[1]] + more[2..];
      RunConcat(t, [more[0], more[1]], more[2..]);
      Swallowed(s, more[0], more[1]);
    }
  }

  lemma PressEnds(s: State, k: Key)
    requires Displays(s)
    ensures Presses(k, 'q') || k.Interrupt? ==> Press(s, k) == s.(mode := Cancelled) && !Active(Press(s, k))
    ensures k.Eof? ==> Press(s, k) == s.(mode := Crashed) && !Active(Press(s, k))
    ensures Presses(k, ESC) ==> Press(s, k) == s.(mode := Swallowing(2)) && Active(Press(s, k))
  {
  }

  lemma Swallowed(s: State, x: Key, y: Key)
    requires Displays(s) && x.Key? && y.Key?
    ensures Run(s.(mode := Swallowing(2)), [x, y]) == s
  {
    hide Press, Run;
    var t := s.(mode := Swallowing(2));
    assert [x, y] == [x] + [y];
    RunConcat(t, [x], [y]);
    RunOne(t, x);
    RunOne(Press(t, x), y);
    SwallowOne(t, x);
    SwallowOne(t.(mode := Swallowing(1)), y);
  }

  lemma SwallowOne(s: State, x: Key)
    requires s.mode.Swallowing? && |s.decisions| < |s.commits| && x.Key?
    ensures Press(s, x) == s.(mode := if s.mode.left <= 1 then Choosing else Swallowing(s.mode.left - 1))
  {
  }
}
