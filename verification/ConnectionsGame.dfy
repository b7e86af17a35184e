/** The Connections game: what a validated puzzle is, and the state machine of `process_guess`. */
module ConnectionsGame {
  import opened ConnectionsPuzzle
  import opened Text
  import opened Wrappers

  const MAX_MISTAKES := 4
  const MAX_INVALID := 3

  function SetOf<T(==)>(s: seq<T>): set<T> {
    set x | x in s
  }

  function UpperAll(words: seq<string>): (r: seq<string>)
    ensures |r| == |words|
  {
    seq(|words|, i requires 0 <= i < |words| => Upper(words[i]))
  }

  /** The words of all groups, upper-cased, group after group. */
  function UpperGroupWords(groups: seq<Group>): seq<string> {
    if groups == [] then [] else UpperAll(groups[0].words) + UpperGroupWords(groups[1..])
  }

  function ColorList(groups: seq<Group>): (r: seq<string>)
    ensures |r| == |groups|
  {
    seq(|groups|, i requires 0 <= i < |groups| => Lower(groups[i].color))
  }

  function WrongSize(groups: seq<Group>, i: nat): Option<nat>
    requires i <= |groups|
    decreases |groups| - i
  {
    if i == |groups| then None
    else if |groups[i].words| != 4 then Some(i)
    else WrongSize(groups, i + 1)
  }

  /** `validate_puzzle`: the first check that fails. */
  function Validate(p: Puzzle): Option<PuzzleError> {
    if |p.words| != 16 then Some(WordCount)
    else if |p.groups| != 4 then Some(GroupCount)
    else if SetOf(ColorList(p.groups)) != ALLOWED_COLORS then Some(Colors)
    else if WrongSize(p.groups, 0).Some? then Some(GroupSize(WrongSize(p.groups, 0).value))
    else
      var all := UpperGroupWords(p.groups);
      if |all| != |SetOf(all)| then Some(DuplicateWords)
      else if SetOf(UpperAll(p.words)) != SetOf(all) then Some(WordsDiffer)
      else None
  }

  // ----- counting -----

  lemma {:induction false} SetOfAtMost<T>(s: seq<T>)
    ensures |SetOf(s)| <= |s|
  {
    if s != [] {
      SetOfAtMost(s[1..]);
      assert SetOf(s) == {s[0]} + SetOf(s[1..]);
    }
  }

  /** A list as long as its set has no duplicates, and the other way round. */
  lemma {:induction false} CountDistinct<T>(s: seq<T>)
    ensures |SetOf(s)| == |s| <==> Distinct(s)
  {
    if s != [] {
      CountDistinct(s[1..]);
      SetOfAtMost(s[1..]);
      assert SetOf(s) == {s[0]} + SetOf(s[1..]);
      if s[0] in s[1..] {
        assert SetOf(s) == SetOf(s[1..]);
        var j :| 0 <= j < |s[1..]| && s[1..][j] == s[0];
        assert s[j + 1] == s[0];
      } else {
        assert |SetOf(s)| == 1 + |SetOf(s[1..])|;
        assert Distinct(s[1..]) ==> Distinct(s) by {
          if Distinct(s[1..]) {
            forall i, j | 0 <= i < j < |s| ensures s[i] != s[j] {
              assert s[j] == s[1..][j - 1];
              assert i > 0 ==> s[i] == s[1..][i - 1];
            }
          }
        }
        assert Distinct(s) ==> Distinct(s[1..]);
      }
    }
  }

  lemma SubsetOfSameSize<T>(a: set<T>, b: set<T>)
    requires a <= b && |a| >= |b|
    ensures a == b
  {
    assert b == a + (b - a);
    assert |b| == |a| + |b - a|;
  }

  // ----- what a validated puzzle is -----

  ghost predicate Partition(groups: seq<Group>) {
    && (forall i :: 0 <= i < |groups| ==> |groups[i].words| == 4 && Distinct(groups[i].words))
    && (forall i, j :: 0 <= i < j < |groups| ==>
          SetOf(groups[i].words) !! SetOf(groups[j].words) && groups[i].color != groups[j].color)
  }

  lemma {:induction false} WrongSizeNone(groups: seq<Group>, i: nat)
    requires i <= |groups| && WrongSize(groups, i) == None
    ensures forall j :: i <= j < |groups| ==> |groups[j].words| == 4
    decreases |groups| - i
  {
    if i < |groups| {
      WrongSizeNone(groups, i + 1);
    }
  }

  lemma {:induction false} UpperGroupWordsAt(groups: seq<Group>)
    requires forall j :: 0 <= j < |groups| ==> |groups[j].words| == 4
    ensures |UpperGroupWords(groups)| == 4 * |groups|
    ensures forall i, k :: 0 <= i < |groups| && 0 <= k < 4 ==>
      UpperGroupWords(groups)[4 * i + k] == Upper(groups[i].words[k])
  {
    if groups != [] {
      UpperGroupWordsAt(groups[1..]);
      forall i, k | 0 <= i < |groups| && 0 <= k < 4
        ensures UpperGroupWords(groups)[4 * i + k] == Upper(groups[i].words[k])
      {
        if i > 0 {
          assert groups[i] == groups[1..][i - 1];
          assert UpperGroupWords(groups)[4 * i + k] == UpperGroupWords(groups[1..])[4 * (i - 1) + k];
        }
      }
    }
  }

  /** A puzzle that `validate_puzzle` accepts has four groups of four distinct words, disjoint from each
      other, with distinct colours. */
  lemma ValidIsPartition(p: Puzzle)
    requires Validate(p) == None
    ensures |p.words| == 16 && |p.groups| == 4 && Partition(p.groups)
  {
    var groups := p.groups;
    WrongSizeNone(groups, 0);
    UpperGroupWordsAt(groups);
    var all := UpperGroupWords(groups);
    CountDistinct(all);
    CountDistinct(ColorList(groups));
    assert |ALLOWED_COLORS| == 4;
    forall i, k, j, l | 0 <= i < 4 && 0 <= k < 4 && 0 <= j < 4 && 0 <= l < 4 && 4 * i + k != 4 * j + l
      ensures groups[i].words[k] != groups[j].words[l]
    {
      assert all[4 * i + k] == Upper(groups[i].words[k]) && all[4 * j + l] == Upper(groups[j].words[l]);
      if 4 * i + k < 4 * j + l {
        assert all[4 * i + k] != all[4 * j + l];
      } else {
        assert all[4 * j + l] != all[4 * i + k];
      }
    }
    forall i, j | 0 <= i < j < 4
      ensures groups[i].color != groups[j].color
    {
      assert ColorList(groups)[i] != ColorList(groups)[j];
    }
  }

  /** Every word of the puzzle and of its groups can be named by a player. */
  ghost predicate AllClean(p: Puzzle) {
    && (forall w :: w in p.words ==> Clean(w))
    && (forall g, w :: g in p.groups && w in g.words ==> Clean(w))
  }

  function GroupWords(groups: seq<Group>): set<string> {
    if groups == [] then {} else SetOf(groups[0].words) + GroupWords(groups[1..])
  }

  lemma {:induction false} UpperGroupWordsSame(groups: seq<Group>)
    requires forall g, w :: g in groups && w in g.words ==> Upper(w) == w
    ensures SetOf(UpperGroupWords(groups)) == GroupWords(groups)
  {
    if groups != [] {
      UpperGroupWordsSame(groups[1..]);
      var ws := groups[0].words;
      forall i | 0 <= i < |ws| ensures UpperAll(ws)[i] == ws[i] {
        assert groups[0] in groups && ws[i] in ws;
      }
      assert UpperAll(ws) == ws;
      assert SetOf(UpperGroupWords(groups)) == SetOf(ws) + SetOf(UpperGroupWords(groups[1..]));
    }
  }

  /** All words are in upper case, as the loader of puzzles leaves them. */
  ghost predicate AllUpper(p: Puzzle) {
    && (forall w :: w in p.words ==> Upper(w) == w)
    && (forall g, w :: g in p.groups && w in g.words ==> Upper(w) == w)
  }

  lemma CleanIsUpper(p: Puzzle)
    requires AllClean(p)
    ensures AllUpper(p)
  {
    forall w | w in p.words ensures Upper(w) == w {
      assert Clean(w);
    }
    forall g, w | g in p.groups && w in g.words ensures Upper(w) == w {
      assert Clean(w);
    }
  }

  /** With upper-case words the puzzle's words are exactly the words of its groups. */
  lemma UpperWordsMatch(p: Puzzle)
    requires Validate(p) == None && AllUpper(p)
    ensures SetOf(p.words) == GroupWords(p.groups)
  {
    UpperGroupWordsSame(p.groups);
    forall i | 0 <= i < |p.words| ensures UpperAll(p.words)[i] == p.words[i] {
      assert p.words[i] in p.words;
    }
    assert UpperAll(p.words) == p.words;
  }

  /** In any case a validated puzzle has sixteen different words. */
  lemma SixteenWords(p: Puzzle)
    requires Validate(p) == None
    ensures |SetOf(p.words)| == 16
  {
    var upper := UpperAll(p.words);
    SixteenGroupWords(p);
    CountDistinct(upper);
    forall i, j | 0 <= i < j < |p.words| ensures p.words[i] != p.words[j] {
      assert upper[i] != upper[j];
    }
    CountDistinct(p.words);
  }

  lemma SixteenGroupWords(p: Puzzle)
    requires Validate(p) == None
    ensures |p.words| == 16 && |SetOf(UpperAll(p.words))| == 16
  {
    WrongSizeNone(p.groups, 0);
    UpperGroupWordsAt(p.groups);
  }

  // ----- the game -----

  datatype State = State(
    puzzle: Puzzle, solved: set<string>, guesses: nat, mistakes: nat, invalid: nat, finished: bool, won: bool)

  datatype Rejection = WrongCount(n: nat) | Duplicates | NotInPuzzle(word: string) | FromSolvedGroup(word: string)

  datatype Reply =
    | AlreadyFinished
    | Invalid(why: Rejection, available: set<string>, provided: seq<string>)
    | Correct
    | CorrectNextGuess
    | Incorrect(remaining: int)

  function Create(p: Puzzle): State {
    State(p, {}, 0, 0, 0, false, false)
  }

  function SolvedWords(groups: seq<Group>, solved: set<string>): set<string> {
    if groups == [] then {}
    else (if groups[0].color in solved then SetOf(groups[0].words) else {}) + SolvedWords(groups[1..], solved)
  }

  function Remaining(s: State): set<string> {
    SetOf(s.puzzle.words) - SolvedWords(s.puzzle.groups, s.solved)
  }

  function FirstIn(words: seq<string>, s: set<string>): Option<string> {
    if words == [] then None
    else if words[0] in s then Some(words[0])
    else FirstIn(words[1..], s)
  }

  function FirstNotIn(words: seq<string>, s: set<string>): Option<string> {
    if words == [] then None
    else if words[0] !in s then Some(words[0])
    else FirstNotIn(words[1..], s)
  }

  function CheckGuess(s: State, words: seq<string>): Option<Rejection> {
    if |words| != 4 then Some(WrongCount(|words|))
    else if |SetOf(words)| != 4 then Some(Duplicates)
    else
      var unknown := FirstNotIn(words, SetOf(s.puzzle.words));
      if unknown.Some? then Some(NotInPuzzle(unknown.value))
      else
        var used := FirstIn(words, SolvedWords(s.puzzle.groups, s.solved));
        if used.Some? then Some(FromSolvedGroup(used.value)) else None
  }

  /** The first group made of exactly these words. */
  function Matching(groups: seq<Group>, words: seq<string>): Option<Group> {
    if groups == [] then None
    else if SetOf(words) == SetOf(groups[0].words) then Some(groups[0])
    else Matching(groups[1..], words)
  }

  function Reject(s: State, words: seq<string>, why: Rejection): (State, Reply) {
    (s.(invalid := s.invalid + 1, finished := s.invalid + 1 >= MAX_INVALID), Invalid(why, Remaining(s), words))
  }

  function Score(s: State, words: seq<string>): (State, Reply) {
    var group := Matching(s.puzzle.groups, words);
    if group.Some? then
      var solved := s.solved + {group.value.color};
      if |solved| >= 4
      then (s.(guesses := s.guesses + 1, solved := solved, finished := true, won := true), Correct)
      else (s.(guesses := s.guesses + 1, solved := solved), CorrectNextGuess)
    else
      (s.(guesses := s.guesses + 1, mistakes := s.mistakes + 1, finished := s.mistakes + 1 >= MAX_MISTAKES),
       Incorrect(MAX_MISTAKES - (s.mistakes + 1)))
  }

  function Process(s: State, response: string): (State, Reply) {
    if s.finished then (s, AlreadyFinished)
    else
      var words := ParseResponse(response);
      match CheckGuess(s, words)
      case Some(why) => Reject(s, words, why)
      case None => Score(s, words)
  }

  function Play(s: State, responses: seq<string>): State
    decreases |responses|
  {
    if responses == [] then s else Play(Process(s, responses[0]).0, responses[1..])
  }

  // ----- which guesses are accepted -----

  lemma {:induction false} FirstInNone(words: seq<string>, s: set<string>)
    ensures FirstIn(words, s) == None <==> forall w :: w in words ==> w !in s
    ensures FirstNotIn(words, s) == None <==> forall w :: w in words ==> w in s
  {
    if words != [] {
      FirstInNone(words[1..], s);
      assert words == [words[0]] + words[1..];
    }
  }

  /** `validate_guess` accepts exactly four distinct words of `get_remaining_words`. */
  lemma AcceptedGuesses(s: State, words: seq<string>)
    ensures CheckGuess(s, words) == None <==> |words| == 4 && Distinct(words) && SetOf(words) <= Remaining(s)
  {
    var all, used := SetOf(s.puzzle.words), SolvedWords(s.puzzle.groups, s.solved);
    CountDistinct(words);
    FirstInNone(words, all);
    FirstInNone(words, used);
    assert SetOf(words) <= all - used <==> forall w :: w in words ==> w in all && w !in used by {
      if forall w :: w in words ==> w in all && w !in used {
        assert forall w :: w in SetOf(words) ==> w in words;
      }
      if SetOf(words) <= all - used {
        assert forall w :: w in words ==> w in SetOf(words);
      }
    }
  }

  // ----- what every response keeps -----

  function GroupColors(groups: seq<Group>): set<string> {
    set g | g in groups :: g.color
  }

  ghost predicate Inv(s: State) {
    Validate(s.puzzle) == None && s.solved <= GroupColors(s.puzzle.groups) && Counters(s)
  }

  ghost predicate Counters(s: State) {
    && |s.solved| <= 4
    && s.guesses == |s.solved| + s.mistakes
    && s.mistakes <= MAX_MISTAKES && s.invalid <= MAX_INVALID
    && (s.won <==> |s.solved| == 4)
    // finished exactly when one of the three limits is reached, and never two of them
    && (s.finished <==> |s.solved| == 4 || s.mistakes == MAX_MISTAKES || s.invalid == MAX_INVALID)
    && !(|s.solved| == 4 && s.mistakes == MAX_MISTAKES)
    && !(|s.solved| == 4 && s.invalid == MAX_INVALID)
    && !(s.mistakes == MAX_MISTAKES && s.invalid == MAX_INVALID)
  }

  /** Responses that can still be given before the game must be over. */
  function Budget(s: State): int {
    4 - |s.solved| + MAX_MISTAKES - s.mistakes + MAX_INVALID - s.invalid
  }

  lemma {:induction false} MatchingGroup(groups: seq<Group>, words: seq<string>)
    ensures Matching(groups, words).Some? ==>
      Matching(groups, words).value in groups && SetOf(words) == SetOf(Matching(groups, words).value.words)
    ensures Matching(groups, words) == None ==> forall g :: g in groups ==> SetOf(words) != SetOf(g.words)
  {
    if groups != [] {
      MatchingGroup(groups[1..], words);
      assert groups == [groups[0]] + groups[1..];
    }
  }

  lemma {:induction false} SolvedWordsContain(groups: seq<Group>, solved: set<string>, g: Group)
    requires g in groups && g.color in solved
    ensures SetOf(g.words) <= SolvedWords(groups, solved)
  {
    if groups[0] != g {
      assert groups == [groups[0]] + groups[1..];
      SolvedWordsContain(groups[1..], solved, g);
    }
  }

  lemma ColorsCount(groups: seq<Group>)
    requires Partition(groups)
    ensures |GroupColors(groups)| == |groups|
  {
    var cs := seq(|groups|, i requires 0 <= i < |groups| => groups[i].color);
    CountDistinct(cs);
    assert Distinct(cs);
    forall c | c in GroupColors(groups) ensures c in SetOf(cs) {
      var g :| g in groups && g.color == c;
      var i :| 0 <= i < |groups| && groups[i] == g;
      assert cs[i] == c;
    }
    assert SetOf(cs) == GroupColors(groups);
  }

  lemma {:induction false} NewColor(s: State, words: seq<string>)
    requires Inv(s) && CheckGuess(s, words) == None && Matching(s.puzzle.groups, words).Some?
    ensures var color := Matching(s.puzzle.groups, words).value.color;
      color !in s.solved && color in GroupColors(s.puzzle.groups)
  {
    var g := Matching(s.puzzle.groups, words).value;
    MatchingGroup(s.puzzle.groups, words);
    AcceptedGuesses(s, words);
    assert words[0] in SetOf(words);
    if g.color in s.solved {
      SolvedWordsContain(s.puzzle.groups, s.solved, g);
    }
  }

  lemma RejectKeepsCounters(s: State, words: seq<string>, why: Rejection)
    requires Counters(s) && !s.finished
    ensures Counters(Reject(s, words, why).0) && Budget(Reject(s, words, why).0) == Budget(s) - 1
  {
  }

  lemma {:induction false} ScoreKeepsCounters(s: State, words: seq<string>)
    requires Counters(s) && !s.finished
    requires var group := Matching(s.puzzle.groups, words); group.Some? ==> group.value.color !in s.solved
    ensures Counters(Score(s, words).0) && Budget(Score(s, words).0) == Budget(s) - 1
  {
  }

  lemma ProcessKeepsInv(s: State, response: string)
    requires Inv(s)
    ensures Inv(Process(s, response).0) && Process(s, response).0.puzzle == s.puzzle
    ensures if s.finished then Process(s, response).0 == s else Budget(Process(s, response).0) == Budget(s) - 1
  {
    if !s.finished {
      var words := ParseResponse(response);
      match CheckGuess(s, words)
      case Some(why) =>
        RejectKeepsCounters(s, words, why);
      case None =>
        if Matching(s.puzzle.groups, words).Some? {
          NewColor(s, words);
        }
        ScoreKeepsCounters(s, words);
    }
  }

  /** Every run keeps the invariant, and a game that is not over after n responses has spent n. */
  lemma {:induction false} PlayKeepsInv(s: State, responses: seq<string>)
    requires Inv(s)
    ensures Inv(Play(s, responses)) && Play(s, responses).puzzle == s.puzzle
    ensures s.finished ==> Play(s, responses) == s
    ensures !Play(s, responses).finished ==> Budget(Play(s, responses)) == Budget(s) - |responses|
    decreases |responses|
  {
    if responses != [] {
      ProcessKeepsInv(s, responses[0]);
      PlayKeepsInv(Process(s, responses[0]).0, responses[1..]);
    }
  }

  /** From the start of a validated puzzle: the counters agree, exactly one limit ends the game, and the
      ninth response at the latest does so. */
  lemma {:induction false} GameEndsByNinthResponse(p: Puzzle, responses: seq<string>)
    requires Validate(p) == None
    ensures Inv(Play(Create(p), responses))
    ensures |responses| >= 9 ==> Play(Create(p), responses).finished
  {
    PlayKeepsInv(Create(p), responses);
  }

  // ----- remaining words -----

  lemma FirstColorIsNew(groups: seq<Group>)
    requires Partition(groups) && groups != []
    ensures Partition(groups[1..])
    ensures groups[0].color !in GroupColors(groups[1..])
    ensures GroupColors(groups) == {groups[0].color} + GroupColors(groups[1..])
    ensures SetOf(groups[0].words) !! GroupWords(groups[1..])
  {
    var first, rest := groups[0], groups[1..];
    assert groups == [first] + rest;
    assert forall i :: 0 <= i < |rest| ==> rest[i] == groups[i + 1];
    GroupWordsDisjoint(first, rest);
    forall g | g in rest
      ensures g.color != first.color
    {
      var i :| 0 <= i < |rest| && rest[i] == g;
      assert groups[0].color != groups[i + 1].color;
    }
  }

  lemma MeetCount(solved: set<string>, c: string, others: set<string>)
    requires c !in others
    ensures |solved * ({c} + others)| == (if c in solved then 1 else 0) + |solved * others|
  {
    if c in solved {
      assert solved * ({c} + others) == {c} + solved * others;
    } else {
      assert solved * ({c} + others) == solved * others;
    }
  }

  lemma {:induction false} SolvedWordsCount(groups: seq<Group>, solved: set<string>)
    requires Partition(groups)
    ensures |SolvedWords(groups, solved)| == 4 * |solved * GroupColors(groups)|
  {
    if groups == [] {
      assert solved * GroupColors(groups) == {};
    } else {
      FirstColorIsNew(groups);
      SolvedWordsCount(groups[1..], solved);
      SolvedWordsWithin(groups[1..], solved);
      CountDistinct(groups[0].words);
      MeetCount(solved, groups[0].color, GroupColors(groups[1..]));
    }
  }

  lemma {:induction false} GroupWordsDisjoint(first: Group, rest: seq<Group>)
    requires forall i :: 0 <= i < |rest| ==> SetOf(first.words) !! SetOf(rest[i].words)
    ensures SetOf(first.words) !! GroupWords(rest)
  {
    if rest != [] {
      assert forall i :: 0 <= i < |rest[1..]| ==> rest[1..][i] == rest[i + 1];
      GroupWordsDisjoint(first, rest[1..]);
    }
  }

  /** A puzzle whose words are those of its four groups. */
  ghost predicate Sound(p: Puzzle) {
    |p.groups| == 4 && Partition(p.groups) && SetOf(p.words) == GroupWords(p.groups)
  }

  lemma ValidIsSound(p: Puzzle)
    requires Validate(p) == None && AllClean(p)
    ensures Sound(p)
  {
    CleanIsUpper(p);
    UpperIsSound(p);
  }

  lemma UpperIsSound(p: Puzzle)
    requires Validate(p) == None && AllUpper(p)
    ensures Sound(p)
  {
    ValidIsPartition(p);
    UpperWordsMatch(p);
  }

  lemma DifferenceSize(all: set<string>, used: set<string>)
    requires used <= all
    ensures |all - used| == |all| - |used|
  {
    assert all == used + (all - used);
  }

  lemma {:induction false} AllWordsCount(groups: seq<Group>)
    requires Partition(groups)
    ensures |GroupWords(groups)| == 4 * |groups|
  {
    var colors := GroupColors(groups);
    SolvedWordsCount(groups, colors);
    ColorsCount(groups);
    AllSolvedWords(groups, colors);
    assert colors * colors == colors;
  }

  /** The words of the solved groups are words of the puzzle as it is written. */
  ghost predicate SolvedKnown(s: State) {
    SolvedWords(s.puzzle.groups, s.solved) <= SetOf(s.puzzle.words)
  }

  lemma KnownRemainingCount(s: State)
    requires Inv(s) && SolvedKnown(s)
    ensures |Remaining(s)| == 16 - 4 * |s.solved|
  {
    hide Validate;
    var groups := s.puzzle.groups;
    ValidIsPartition(s.puzzle);
    SixteenWords(s.puzzle);
    SolvedWordsCount(groups, s.solved);
    assert s.solved * GroupColors(groups) == s.solved;
    DifferenceSize(SetOf(s.puzzle.words), SolvedWords(groups, s.solved));
  }

  lemma {:induction false} AllSolvedWords(groups: seq<Group>, solved: set<string>)
    requires GroupColors(groups) <= solved
    ensures SolvedWords(groups, solved) == GroupWords(groups)
  {
    if groups != [] {
      assert groups == [groups[0]] + groups[1..];
      assert groups[0].color in GroupColors(groups);
      assert GroupColors(groups[1..]) <= GroupColors(groups);
      AllSolvedWords(groups[1..], solved);
    }
  }

  lemma {:induction false} UnsolvedWordsRemain(groups: seq<Group>, solved: set<string>, g: Group)
    requires Partition(groups) && g in groups && g.color !in solved
    ensures SetOf(g.words) !! SolvedWords(groups, solved)
    ensures SetOf(g.words) <= GroupWords(groups)
  {
    var first, rest := groups[0], groups[1..];
    assert groups == [first] + rest;
    FirstColorIsNew(groups);
    SolvedWordsWithin(rest, solved);
    if g != first {
      UnsolvedWordsRemain(rest, solved, g);
      assert SetOf(g.words) !! SetOf(first.words);
    }
  }

  lemma {:induction false} SolvedWordsWithin(groups: seq<Group>, solved: set<string>)
    ensures SolvedWords(groups, solved) <= GroupWords(groups)
  {
    if groups != [] {
      SolvedWordsWithin(groups[1..], solved);
    }
  }

  lemma OnlyUnsolvedGroup(s: State, g: Group, m: Group)
    requires Inv(s) && |s.solved| == 3
    requires g in s.puzzle.groups && g.color !in s.solved && m in s.puzzle.groups && m.color !in s.solved
    ensures m == g
  {
    hide Validate;
    var groups := s.puzzle.groups;
    ValidIsPartition(s.puzzle);
    ColorsCount(groups);
    SubsetOfSameSize(s.solved + {g.color}, GroupColors(groups));
    ColorIdentifies(groups, m, g);
  }

  /** With three groups solved, an accepted guess names just the four words that remain. */
  lemma LastGuess(s: State, words: seq<string>)
    requires Inv(s) && SolvedKnown(s) && |s.solved| == 3 && CheckGuess(s, words) == None
    ensures |Remaining(s)| == 4 && SetOf(words) == Remaining(s)
  {
    hide Validate;
    AcceptedGuesses(s, words);
    KnownRemainingCount(s);
    CountDistinct(words);
    SubsetOfSameSize(SetOf(words), Remaining(s));
  }

  lemma {:induction false} LastGroupMatches(s: State, words: seq<string>, g: Group)
    requires Inv(s) && SolvedKnown(s) && |s.solved| == 3 && CheckGuess(s, words) == None
    requires g in s.puzzle.groups && g.color !in s.solved
    ensures Matching(s.puzzle.groups, words).Some? <==> SetOf(g.words) <= SetOf(s.puzzle.words)
  {
    hide Validate, CheckGuess;
    var groups := s.puzzle.groups;
    ValidIsPartition(s.puzzle);
    LastGuess(s, words);
    UnsolvedWordsRemain(groups, s.solved, g);
    FourWords(groups, g);
    if SetOf(g.words) <= SetOf(s.puzzle.words) {
      assert SetOf(g.words) <= Remaining(s);
      SubsetOfSameSize(SetOf(g.words), Remaining(s));
      MatchingUnique(groups, words, g);
    }
    if Matching(groups, words).Some? {
      MatchingGroup(groups, words);
      NewColor(s, words);
      OnlyUnsolvedGroup(s, g, Matching(groups, words).value);
    }
  }

  /** It wins if and only if the puzzle lists the words of the last group as the group writes them. */
  lemma KnownLastGroup(s: State, response: string, g: Group)
    requires Inv(s) && SolvedKnown(s) && |s.solved| == 3 && !s.finished
    requires g in s.puzzle.groups && g.color !in s.solved
    requires CheckGuess(s, ParseResponse(response)) == None
    ensures Process(s, response).0.won <==> SetOf(g.words) <= SetOf(s.puzzle.words)
    ensures Process(s, response).1 == if SetOf(g.words) <= SetOf(s.puzzle.words) then Correct
                                      else Incorrect(MAX_MISTAKES - (s.mistakes + 1))
  {
    hide Validate, ParseResponse, CheckGuess, SolvedKnown;
    var words := ParseResponse(response);
    assert Process(s, response) == Score(s, words);
    LastGroupMatches(s, words, g);
    if Matching(s.puzzle.groups, words).Some? {
      NewColor(s, words);
    }
  }

  lemma FourWords(groups: seq<Group>, g: Group)
    requires Partition(groups) && g in groups
    ensures |SetOf(g.words)| == 4
  {
    CountDistinct(g.words);
  }

  /** With three groups solved no accepted guess can be a mistake, if all words are in upper case. */
  lemma LastGroupCannotBeMissed(s: State, response: string)
    requires Inv(s) && AllUpper(s.puzzle) && |s.solved| == 3 && !s.finished
    requires CheckGuess(s, ParseResponse(response)) == None
    ensures Process(s, response).1 == Correct && Process(s, response).0.won
  {
    hide Validate, AllUpper, ParseResponse, CheckGuess, Process;
    var g := UnsolvedGroup(s);
    UpperIsSound(s.puzzle);
    SolvedWordsWithin(s.puzzle.groups, s.solved);
    UnsolvedWordsRemain(s.puzzle.groups, s.solved, g);
    KnownLastGroup(s, response, g);
  }

  lemma UnsolvedGroup(s: State) returns (g: Group)
    requires Inv(s) && |s.solved| < 4
    ensures g in s.puzzle.groups && g.color !in s.solved
  {
    hide Validate;
    ValidIsPartition(s.puzzle);
    ColorsCount(s.puzzle.groups);
    var open := GroupColors(s.puzzle.groups) - s.solved;
    assert GroupColors(s.puzzle.groups) == s.solved + open;
    assert |open| == 4 - |s.solved|;
    var c :| c in open;
    g :| g in s.puzzle.groups && g.color == c;
  }

  // ----- how to win -----

  /** The response spells the group's words, in any order. */
  ghost predicate Spells(response: string, g: Group) {
    && |ParseResponse(response)| == 4
    && SetOf(ParseResponse(response)) == SetOf(g.words)
  }

  lemma {:induction false} MatchingUnique(groups: seq<Group>, words: seq<string>, g: Group)
    requires Partition(groups) && g in groups && words != [] && SetOf(words) == SetOf(g.words)
    ensures Matching(groups, words) == Some(g)
  {
    MatchingGroup(groups, words);
    var m := Matching(groups, words).value;
    var i :| 0 <= i < |groups| && groups[i] == g;
    var j :| 0 <= j < |groups| && groups[j] == m;
    assert words[0] in SetOf(words);
    SharedWord(groups, i, j, words[0]);
  }

  lemma SharedWord(groups: seq<Group>, i: int, j: int, w: string)
    requires Partition(groups) && 0 <= i < |groups| && 0 <= j < |groups|
    requires w in SetOf(groups[i].words) && w in SetOf(groups[j].words)
    ensures i == j
  {
  }

  /** The puzzle lists the group's words as the group writes them. */
  ghost predicate Listed(p: Puzzle, g: Group) {
    SetOf(g.words) <= SetOf(p.words)
  }

  ghost predicate AllWordsClean(g: Group) {
    forall w :: w in g.words ==> Clean(w)
  }

  lemma CleanGroups(p: Puzzle, g: Group)
    requires Validate(p) == None && AllClean(p) && g in p.groups
    ensures |p.groups| == 4 && Partition(p.groups) && Listed(p, g) && AllWordsClean(g)
  {
    hide Validate, Clean;
    ValidIsSound(p);
    UnsolvedWordsRemain(p.groups, {}, g);
  }

  lemma {:induction false} SpellingAccepted(s: State, g: Group, words: seq<string>)
    requires Partition(s.puzzle.groups) && g in s.puzzle.groups && Listed(s.puzzle, g) && g.color !in s.solved
    requires |words| == 4 && SetOf(words) == SetOf(g.words)
    ensures CheckGuess(s, words) == None && Matching(s.puzzle.groups, words) == Some(g)
  {
    UnsolvedWordsRemain(s.puzzle.groups, s.solved, g);
    CountDistinct(g.words);
    CountDistinct(words);
    AcceptedGuesses(s, words);
    MatchingUnique(s.puzzle.groups, words, g);
  }

  lemma SpellingSolves(s: State, g: Group, response: string)
    requires Inv(s) && !s.finished && g in s.puzzle.groups && Listed(s.puzzle, g)
    requires g.color !in s.solved && Spells(response, g)
    ensures var t := Process(s, response).0;
      && t.solved == s.solved + {g.color} && t.guesses == s.guesses + 1
      && t.mistakes == s.mistakes && t.invalid == s.invalid
      && t.won == (|s.solved| == 3)
  {
    hide ParseResponse, Validate, Listed;
    var words := ParseResponse(response);
    ValidIsPartition(s.puzzle);
    SpellingAccepted(s, g, words);
    assert Process(s, response) == Score(s, words);
  }

  /** `order` lists every unsolved group once, and the responses spell them in that order. */
  ghost predicate WinningAnswers(s: State, order: seq<Group>, responses: seq<string>) {
    && |order| == |responses| == 4 - |s.solved|
    && (forall i :: 0 <= i < |order| ==> order[i] in s.puzzle.groups && order[i].color !in s.solved)
    && (forall i, j :: 0 <= i < j < |order| ==> order[i].color != order[j].color)
    && (forall i :: 0 <= i < |order| ==> Spells(responses[i], order[i]))
  }

  lemma WinningTail(s: State, order: seq<Group>, responses: seq<string>, t: State)
    requires WinningAnswers(s, order, responses) && order != []
    requires t.puzzle == s.puzzle && t.solved == s.solved + {order[0].color}
    ensures WinningAnswers(t, order[1..], responses[1..])
  {
    hide Spells;
    assert forall i :: 0 <= i < |order| - 1 ==> order[1..][i] == order[i + 1] && responses[1..][i] == responses[i + 1];
  }

  /** From every unfinished state, spelling the unsolved groups in any order wins with one guess each. */
  lemma {:induction false} SpellingWins(s: State, order: seq<Group>, responses: seq<string>)
    requires Inv(s) && AllClean(s.puzzle) && !s.finished && WinningAnswers(s, order, responses)
    ensures var t := Play(s, responses);
      && t.won && t.finished && t.guesses == s.guesses + (4 - |s.solved|)
      && t.mistakes == s.mistakes && t.invalid == s.invalid
    decreases |responses|
  {
    hide Validate, AllClean;
    var t := Process(s, responses[0]).0;
    CleanGroups(s.puzzle, order[0]);
    SpellingSolves(s, order[0], responses[0]);
    ProcessKeepsInv(s, responses[0]);
    if |s.solved| == 3 {
      assert responses[1..] == [];
      assert Play(s, responses) == t;
    } else {
      assert |t.solved| == |s.solved| + 1;
      WinningTail(s, order, responses, t);
      SpellingWins(t, order[1..], responses[1..]);
      assert Play(s, responses) == Play(t, responses[1..]);
    }
  }

  /** The comma-joined words of a group spell it. */
  lemma JoinedWordsSpell(g: Group)
    requires |g.words| == 4 && AllWordsClean(g)
    ensures Spells(Join(g.words, ", "), g)
  {
    ParseAnswer(g.words);
  }

  // ----- the ninth response may be needed -----

  lemma {:induction false} PlayConcat(s: State, a: seq<string>, b: seq<string>)
    ensures Play(s, a + b) == Play(Play(s, a), b)
    decreases |a|
  {
    if a == [] {
      assert a + b == b;
    } else {
      assert (a + b)[1..] == a[1..] + b;
      PlayConcat(Process(s, a[0]).0, a[1..], b);
    }
  }

  /** Three words of one group and one of another. */
  function MixedWords(p: Puzzle): seq<string>
    requires |p.groups| == 4 && forall i | 0 <= i < 4 :: |p.groups[i].words| == 4
  {
    p.groups[0].words[..3] + [p.groups[1].words[0]]
  }

  lemma MixedIsNoGroup(p: Puzzle)
    requires |p.groups| == 4 && Partition(p.groups)
    ensures Distinct(MixedWords(p)) && SetOf(MixedWords(p)) <= GroupWords(p.groups)
    ensures Matching(p.groups, MixedWords(p)) == None
  {
    var words := MixedWords(p);
    var (a, b) := (p.groups[0], p.groups[1]);
    assert b.words[0] in SetOf(b.words) && SetOf(a.words) !! SetOf(b.words);
    forall i | 0 <= i < 3 ensures words[i] == a.words[i] && words[i] in SetOf(a.words) {}
    GroupWordsHold(p.groups, 0);
    GroupWordsHold(p.groups, 1);
    forall m | 0 <= m < 4 ensures SetOf(words) != SetOf(p.groups[m].words) {
      assert words[0] in SetOf(words) && words[3] in SetOf(words);
      if m != 0 {
        NotShared(p.groups, 0, m, words[0]);
      } else {
        NotShared(p.groups, 1, 0, words[3]);
      }
    }
    MatchingGroup(p.groups, words);
  }

  lemma NotShared(groups: seq<Group>, i: int, j: int, w: string)
    requires Partition(groups) && 0 <= i < |groups| && 0 <= j < |groups| && i != j
    requires w in SetOf(groups[i].words)
    ensures w !in SetOf(groups[j].words)
  {
    assert i < j ==> SetOf(groups[i].words) !! SetOf(groups[j].words);
    assert j < i ==> SetOf(groups[j].words) !! SetOf(groups[i].words);
  }

  lemma {:induction false} GroupWordsHold(groups: seq<Group>, i: nat)
    requires i < |groups|
    ensures SetOf(groups[i].words) <= GroupWords(groups)
    decreases |groups|
  {
    if i > 0 {
      GroupWordsHold(groups[1..], i - 1);
    }
  }

  /** An unfinished game without a solved group. */
  ghost predicate Unsolved(s: State) {
    Inv(s) && AllClean(s.puzzle) && s.solved == {} && !s.finished
  }

  lemma OneMistake(s: State) returns (t: State)
    requires Unsolved(s) && s.mistakes + 1 < MAX_MISTAKES
    ensures |s.puzzle.groups| == 4 && Partition(s.puzzle.groups)
    ensures t == Process(s, Join(MixedWords(s.puzzle), ", ")).0 && Unsolved(t)
    ensures t.puzzle == s.puzzle && t.mistakes == s.mistakes + 1 && t.invalid == s.invalid
  {
    ValidIsSound(s.puzzle);
    var words := MixedWords(s.puzzle);
    MixedIsNoGroup(s.puzzle);
    NothingSolved(s.puzzle.groups);
    AcceptedGuesses(s, words);
    forall w | w in words ensures Clean(w) {
      assert w in s.puzzle.groups[0].words || w in s.puzzle.groups[1].words;
    }
    ParseAnswer(words);
    t := Process(s, Join(words, ", ")).0;
    ProcessKeepsInv(s, Join(words, ", "));
  }

  lemma {:induction false} NothingSolved(groups: seq<Group>)
    ensures SolvedWords(groups, {}) == {}
  {
    if groups != [] {
      NothingSolved(groups[1..]);
    }
  }

  lemma OneInvalid(s: State) returns (t: State)
    requires Unsolved(s) && s.invalid + 1 < MAX_INVALID
    ensures t == Process(s, "").0 && Unsolved(t)
    ensures t.puzzle == s.puzzle && t.mistakes == s.mistakes && t.invalid == s.invalid + 1
  {
    assert Split("", ',') == [""];
    assert NormalizeAll([""])[0] == "" && |NormalizeAll([""])| == 1;
    assert ParseResponse("") == [];
    t := Process(s, "").0;
    ProcessKeepsInv(s, "");
  }

  /** Three mistakes, two invalid responses and three solved groups leave a game unfinished. */
  lemma EightResponsesMayNotDo(p: Puzzle) returns (responses: seq<string>)
    requires Validate(p) == None && AllClean(p)
    ensures |responses| == 8 && !Play(Create(p), responses).finished
  {
    hide Validate, AllClean, Process, Play;
    var s1 := OneMistake(Create(p));
    var s2 := OneMistake(s1);
    var s3 := OneMistake(s2);
    var s4 := OneInvalid(s3);
    var s5 := OneInvalid(s4);
    var mixed := Join(MixedWords(p), ", ");
    responses := [mixed, mixed, mixed, "", ""];
    PlayFive(Create(p), responses, s1, s2, s3, s4, s5);
    var more, _ := ThreeGroups(s5);
    PlayConcat(Create(p), responses, more);
    responses := responses + more;
  }

  lemma {:induction false} PlayFive(s: State, r: seq<string>, s1: State, s2: State, s3: State, s4: State, s5: State)
    requires |r| == 5 && s1 == Process(s, r[0]).0 && s2 == Process(s1, r[1]).0 && s3 == Process(s2, r[2]).0
    requires s4 == Process(s3, r[3]).0 && s5 == Process(s4, r[4]).0
    ensures Play(s, r) == s5
  {
    assert Play(s5, r[1..][1..][1..][1..][1..]) == s5;
    assert Play(s4, r[1..][1..][1..][1..]) == s5;
    assert Play(s3, r[1..][1..][1..]) == s5;
    assert Play(s2, r[1..][1..]) == s5;
    assert Play(s1, r[1..]) == s5;
  }

  lemma ThreeGroups(s: State) returns (more: seq<string>, t: State)
    requires Unsolved(s)
    ensures |more| == 3 && t == Play(s, more)
    ensures Inv(t) && t.puzzle == s.puzzle && |t.solved| == 3 && !t.finished
    ensures |s.puzzle.groups| == 4 && s.puzzle.groups[3].color !in t.solved
  {
    hide Validate, AllClean, Process, Play;
    ValidIsPartition(s.puzzle);
    var groups := s.puzzle.groups;
    CleanGroups(s.puzzle, groups[0]);
    CleanGroups(s.puzzle, groups[1]);
    CleanGroups(s.puzzle, groups[2]);
    var a := SolveNext(s, groups[0]);
    var b := SolveNext(a, groups[1]);
    t := SolveNext(b, groups[2]);
    more := seq(3, i requires 0 <= i < 3 => Join(groups[i].words, ", "));
    PlayThree(s, more, a, b, t);
  }

  lemma {:induction false} PlayThree(s: State, r: seq<string>, s1: State, s2: State, s3: State)
    requires |r| == 3 && s1 == Process(s, r[0]).0 && s2 == Process(s1, r[1]).0 && s3 == Process(s2, r[2]).0
    ensures Play(s, r) == s3
  {
    assert Play(s3, r[1..][1..][1..]) == s3;
    assert Play(s2, r[1..][1..]) == s3;
    assert Play(s1, r[1..]) == s3;
  }

  lemma SolveNext(s: State, g: Group) returns (t: State)
    requires Inv(s) && !s.finished && |s.solved| < 3
    requires g in s.puzzle.groups && g.color !in s.solved && Listed(s.puzzle, g) && AllWordsClean(g)
    ensures t == Process(s, Join(g.words, ", ")).0 && Inv(t) && !t.finished
    ensures t.puzzle == s.puzzle && t.solved == s.solved + {g.color}
  {
    t := Process(s, Join(g.words, ", ")).0;
    ValidIsPartition(s.puzzle);
    JoinedWordsSpell(g);
    SpellingSolves(s, g, Join(g.words, ", "));
    ProcessKeepsInv(s, Join(g.words, ", "));
  }

  /** Every clean puzzle gets to a state with one group left, and spelling it is an accepted guess. */
  lemma LastGroupReached(p: Puzzle) returns (s: State, response: string)
    requires Validate(p) == None && AllClean(p)
    ensures Inv(s) && s.puzzle == p && |s.solved| == 3 && !s.finished
    ensures exists responses :: Play(Create(p), responses) == s
    ensures CheckGuess(s, ParseResponse(response)) == None
  {
    hide Validate, AllClean, ParseResponse, Process, CheckGuess;
    var more;
    more, s := ThreeGroups(Create(p));
    var g := p.groups[3];
    CleanGroups(p, g);
    response := Join(g.words, ", ");
    JoinedWordsSpell(g);
    SpellingAccepted(s, g, ParseResponse(response));
  }

  // ----- which puzzles can be won at all -----

  /** The words that a response can name in this puzzle. */
  ghost function Nameable(p: Puzzle): iset<string> {
    iset w: string | w in p.words && Clean(w)
  }

  ghost predicate SolvedWithin(groups: seq<Group>, solved: set<string>, named: iset<string>) {
    forall g, w :: g in groups && g.color in solved && w in g.words ==> w in named
  }

  lemma ColorIdentifies(groups: seq<Group>, a: Group, b: Group)
    requires Partition(groups) && a in groups && b in groups && a.color == b.color
    ensures a == b
  {
    var i :| 0 <= i < |groups| && groups[i] == a;
    var j :| 0 <= j < |groups| && groups[j] == b;
  }

  lemma AcceptedGroupIsNamed(s: State, response: string, g: Group)
    requires CheckGuess(s, ParseResponse(response)) == None
    requires SetOf(ParseResponse(response)) == SetOf(g.words)
    ensures forall w :: w in g.words ==> w in Nameable(s.puzzle)
  {
    ParsedWordsAreClean(response);
    AcceptedGuesses(s, ParseResponse(response));
    forall w | w in g.words ensures w in Nameable(s.puzzle) {
      assert w in SetOf(g.words);
      assert w in Remaining(s);
    }
  }

  lemma NewGroupIsNamed(groups: seq<Group>, solved: set<string>, named: iset<string>, m: Group)
    requires Partition(groups) && SolvedWithin(groups, solved, named)
    requires m in groups && forall w :: w in m.words ==> w in named
    ensures SolvedWithin(groups, solved + {m.color}, named)
  {
    forall g, w | g in groups && g.color in solved + {m.color} && w in g.words
      ensures w in named
    {
      if g.color !in solved {
        ColorIdentifies(groups, g, m);
      }
    }
  }

  lemma ProcessKeepsNamed(s: State, response: string)
    requires Partition(s.puzzle.groups) && SolvedWithin(s.puzzle.groups, s.solved, Nameable(s.puzzle))
    ensures Process(s, response).0.puzzle == s.puzzle
    ensures SolvedWithin(s.puzzle.groups, Process(s, response).0.solved, Nameable(s.puzzle))
  {
    var words := ParseResponse(response);
    if !s.finished && CheckGuess(s, words) == None && Matching(s.puzzle.groups, words).Some? {
      var m := Matching(s.puzzle.groups, words).value;
      MatchingGroup(s.puzzle.groups, words);
      AcceptedGroupIsNamed(s, response, m);
      NewGroupIsNamed(s.puzzle.groups, s.solved, Nameable(s.puzzle), m);
    }
  }

  lemma {:induction false} PlayKeepsNamed(s: State, responses: seq<string>)
    requires Partition(s.puzzle.groups) && SolvedWithin(s.puzzle.groups, s.solved, Nameable(s.puzzle))
    ensures SolvedWithin(s.puzzle.groups, Play(s, responses).solved, Nameable(s.puzzle))
    decreases |responses|
  {
    if responses != [] {
      ProcessKeepsNamed(s, responses[0]);
      PlayKeepsNamed(Process(s, responses[0]).0, responses[1..]);
    }
  }

  lemma {:induction false} SolvedWordsNamed(groups: seq<Group>, solved: set<string>, named: iset<string>)
    requires SolvedWithin(groups, solved, named)
    ensures forall w :: w in SolvedWords(groups, solved) ==> w in named
  {
    if groups != [] {
      assert groups == [groups[0]] + groups[1..];
      SolvedWordsNamed(groups[1..], solved, named);
    }
  }

  lemma {:induction false} ReachedIsKnown(p: Puzzle, responses: seq<string>)
    requires Validate(p) == None
    ensures var s := Play(Create(p), responses); Inv(s) && s.puzzle == p && SolvedKnown(s)
  {
    hide Validate, Clean;
    ValidIsPartition(p);
    PlayKeepsInv(Create(p), responses);
    PlayKeepsNamed(Create(p), responses);
    SolvedWordsNamed(p.groups, Play(Create(p), responses).solved, Nameable(p));
  }

  /** In every reachable state of every validated puzzle, 16 - 4 * |solved| words remain. */
  lemma {:induction false} RemainingCount(p: Puzzle, responses: seq<string>)
    requires Validate(p) == None
    ensures |Remaining(Play(Create(p), responses))| == 16 - 4 * |Play(Create(p), responses).solved|
  {
    hide Validate, Play, Remaining;
    ReachedIsKnown(p, responses);
    KnownRemainingCount(Play(Create(p), responses));
  }

  /** In every reachable state of every validated puzzle with just one group unsolved, an accepted guess
      wins if and only if the puzzle lists the words of that group as the group writes them. */
  lemma {:induction false} LastGuessWins(p: Puzzle, responses: seq<string>, response: string, g: Group)
    requires Validate(p) == None
    requires var s := Play(Create(p), responses);
      |s.solved| == 3 && !s.finished && g.color !in s.solved && CheckGuess(s, ParseResponse(response)) == None
    requires g in p.groups
    ensures Process(Play(Create(p), responses), response).0.won <==> SetOf(g.words) <= SetOf(p.words)
  {
    hide Validate, Play, CheckGuess, ParseResponse, Process;
    ReachedIsKnown(p, responses);
    KnownLastGroup(Play(Create(p), responses), response, g);
  }

  lemma {:induction false} InSomeGroup(groups: seq<Group>, w: string)
    ensures w in GroupWords(groups) <==> exists g :: g in groups && w in g.words
  {
    if groups != [] {
      InSomeGroup(groups[1..], w);
      assert groups == [groups[0]] + groups[1..];
    }
  }

  lemma NamedGroupsMakeAllClean(p: Puzzle)
    requires Partition(p.groups) && |p.groups| == 4 && |p.words| == 16
    requires forall g, w :: g in p.groups && w in g.words ==> w in Nameable(p)
    ensures AllClean(p)
  {
    AllWordsCount(p.groups);
    SetOfAtMost(p.words);
    forall g, w | g in p.groups && w in g.words ensures Clean(w) {
      assert w in Nameable(p);
    }
    forall w | w in GroupWords(p.groups) ensures w in SetOf(p.words) {
      InSomeGroup(p.groups, w);
      var g :| g in p.groups && w in g.words;
      assert w in Nameable(p);
    }
    SubsetOfSameSize(GroupWords(p.groups), SetOf(p.words));
    forall w | w in p.words ensures Clean(w) {
      assert w in SetOf(p.words);
      InSomeGroup(p.groups, w);
      var g :| g in p.groups && w in g.words;
      assert w in Nameable(p);
    }
  }

  lemma {:induction false} WonMeansAllClean(p: Puzzle, responses: seq<string>)
    requires Validate(p) == None && Play(Create(p), responses).won
    ensures AllClean(p)
  {
    var t := Play(Create(p), responses);
    ValidIsPartition(p);
    PlayKeepsInv(Create(p), responses);
    PlayKeepsNamed(Create(p), responses);
    ColorsCount(p.groups);
    SubsetOfSameSize(t.solved, GroupColors(p.groups));
    forall g, w | g in p.groups && w in g.words ensures w in Nameable(p) {
      assert g.color in t.solved;
    }
    NamedGroupsMakeAllClean(p);
  }

  /** `validate_puzzle` compares words in upper case but `validate_guess` does not. A validated puzzle can be
      won if and only if each of its words is already trimmed, upper-case and free of commas. */
  lemma Winnable(p: Puzzle)
    requires Validate(p) == None
    ensures (exists responses :: Play(Create(p), responses).won) <==> AllClean(p)
  {
    hide Validate, AllClean, ParseResponse, Process;
    if AllClean(p) {
      ValidIsPartition(p);
      var responses := seq(4, i requires 0 <= i < 4 => Join(p.groups[i].words, ", "));
      forall i | 0 <= i < 4 ensures Spells(responses[i], p.groups[i]) {
        CleanGroups(p, p.groups[i]);
        JoinedWordsSpell(p.groups[i]);
      }
      SpellingWins(Create(p), p.groups, responses);
    }
    if exists responses :: Play(Create(p), responses).won {
      var responses :| Play(Create(p), responses).won;
      WonMeansAllClean(p, responses);
    }
  }

  // ----- the code -----

  lemma {:induction false} SolvedWordsSplit(groups: seq<Group>, i: nat, solved: set<string>)
    requires i < |groups|
    ensures SolvedWords(groups[i..], solved)
         == (if groups[i].color in solved then SetOf(groups[i].words) else {}) + SolvedWords(groups[i + 1..], solved)
  {
    assert groups[i..][1..] == groups[i + 1..];
  }

  class Game {
    const puzzle: Puzzle
    var solved: set<string>
    var guesses: nat
    var mistakes: nat
    var invalid: nat
    var finished: bool
    var won: bool

    ghost function Value(): State
      reads this
    {
      State(puzzle, solved, guesses, mistakes, invalid, finished, won)
    }

    constructor (puzzle: Puzzle)
      ensures Value() == Create(puzzle)
    {
      this.puzzle := puzzle;
      solved, guesses, mistakes, invalid, finished, won := {}, 0, 0, 0, false, false;
    }

    method CollectSolvedWords() returns (used: set<string>)
      ensures used == SolvedWords(puzzle.groups, solved)
    {
      used := {};
      for i := 0 to |puzzle.groups|
        invariant used + SolvedWords(puzzle.groups[i..], solved) == SolvedWords(puzzle.groups, solved)
      {
        SolvedWordsSplit(puzzle.groups, i, solved);
        if puzzle.groups[i].color in solved {
          used := used + SetOf(puzzle.groups[i].words);
        }
      }
    }

    method GetRemainingWords() returns (remaining: set<string>)
      ensures remaining == Remaining(Value())
    {
      var used := CollectSolvedWords();
      remaining := SetOf(puzzle.words) - used;
    }

    method ValidateGuess(words: seq<string>) returns (why: Option<Rejection>)
      ensures why == CheckGuess(Value(), words)
    {
      if |words| != 4 {
        return Some(WrongCount(|words|));
      }
      if |SetOf(words)| != 4 {
        return Some(Duplicates);
      }
      var all := SetOf(puzzle.words);
      for i := 0 to |words|
        invariant FirstNotIn(words[i..], all) == FirstNotIn(words, all)
      {
        assert words[i..][1..] == words[i + 1..];
        if words[i] !in all {
          return Some(NotInPuzzle(words[i]));
        }
      }
      var used := CollectSolvedWords();
      for i := 0 to |words|
        invariant FirstIn(words[i..], used) == FirstIn(words, used)
      {
        assert words[i..][1..] == words[i + 1..];
        if words[i] in used {
          return Some(FromSolvedGroup(words[i]));
        }
      }
      return None;
    }

    method FindGroup(words: seq<string>) returns (group: Option<Group>)
      ensures group == Matching(puzzle.groups, words)
    {
      for i := 0 to |puzzle.groups|
        invariant Matching(puzzle.groups[i..], words) == Matching(puzzle.groups, words)
      {
        assert puzzle.groups[i..][1..] == puzzle.groups[i + 1..];
        if SetOf(words) == SetOf(puzzle.groups[i].words) {
          return Some(puzzle.groups[i]);
        }
      }
      return None;
    }

    method RejectGuess(words: seq<string>, why: Rejection) returns (reply: Reply)
      modifies this
      ensures (Value(), reply) == Reject(old(Value()), words, why)
    {
      invalid := invalid + 1;
      var remaining := GetRemainingWords();
      finished := invalid >= MAX_INVALID;
      return Invalid(why, remaining, words);
    }

    method ScoreGuess(words: seq<string>) returns (reply: Reply)
      requires !finished
      modifies this
      ensures (Value(), reply) == Score(old(Value()), words)
    {
      guesses := guesses + 1;
      var group := FindGroup(words);
      if group.Some? {
        solved := solved + {group.value.color};
        if |solved| >= 4 {
          finished := true;
          won := true;
          return Correct;
        }
        return CorrectNextGuess;
      }
      mistakes := mistakes + 1;
      if mistakes >= MAX_MISTAKES {
        finished := true;
      }
      return Incorrect(MAX_MISTAKES - mistakes);
    }

    method ProcessGuess(response: string) returns (reply: Reply)
      modifies this
      ensures (Value(), reply) == Process(old(Value()), response)
    {
      if finished {
        return AlreadyFinished;
      }
      var words := ParseResponse(response);
      var rejection := ValidateGuess(words);
      if rejection.Some? {
        reply := RejectGuess(words, rejection.value);
      } else {
        reply := ScoreGuess(words);
      }
    }
  }
}
