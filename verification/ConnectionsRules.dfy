/** The rules of the Connections game, said without the functions that check and score: which puzzles pass
    validation, and what each response does to the game and gets as its reply. */
module ConnectionsRules {
  import opened Text
  import opened Wrappers
  import opened ConnectionsPuzzle
  import opened ConnectionsGame

  // ----- which puzzles are accepted -----

  /** Some group has this colour, in small or capital letters. */
  ghost predicate HasColor(p: Puzzle, color: string) {
    exists i :: 0 <= i < |p.groups| && Lower(p.groups[i].color) == color
  }

  ghost predicate ColorsAllowed(p: Puzzle) {
    forall color :: HasColor(p, color) <==> color in {"blue", "yellow", "green", "purple"}
  }

  /** The puzzle lists this word, in small or capital letters. */
  ghost predicate Lists(p: Puzzle, w: string) {
    exists i :: 0 <= i < |p.words| && Upper(p.words[i]) == w
  }

  /** Word `k` of group `i` is this one, in small or capital letters. */
  ghost predicate Holds(p: Puzzle, i: nat, k: nat, w: string) {
    i < |p.groups| && k < |p.groups[i].words| && Upper(p.groups[i].words[k]) == w
  }

  ghost predicate NoWordTwice(p: Puzzle) {
    forall w, i: nat, k: nat, j: nat, l: nat :: Holds(p, i, k, w) && Holds(p, j, l, w) ==> i == j && k == l
  }

  ghost predicate SameWords(p: Puzzle) {
    forall w :: Lists(p, w) <==> exists i: nat, k: nat :: Holds(p, i, k, w)
  }

  ghost predicate FourEach(p: Puzzle, n: nat) {
    n <= |p.groups| && forall i :: 0 <= i < n ==> |p.groups[i].words| == 4
  }

  lemma ColorsMean(p: Puzzle)
    ensures SetOf(ColorList(p.groups)) == ALLOWED_COLORS <==> ColorsAllowed(p)
  {
    var colors := SetOf(ColorList(p.groups));
    forall color ensures color in colors <==> HasColor(p, color) {
      if HasColor(p, color) {
        var i :| 0 <= i < |p.groups| && Lower(p.groups[i].color) == color;
        assert ColorList(p.groups)[i] == color;
      }
      if color in colors {
        var i :| 0 <= i < |p.groups| && ColorList(p.groups)[i] == color;
      }
    }
  }

  lemma {:induction false} WrongSizeMeans(groups: seq<Group>, i: nat)
    requires i <= |groups|
    ensures var wrong := WrongSize(groups, i);
      && (wrong == None ==> forall j :: i <= j < |groups| ==> |groups[j].words| == 4)
      && (wrong.Some? ==> i <= wrong.value < |groups| && |groups[wrong.value].words| != 4
                          && forall j :: i <= j < wrong.value ==> |groups[j].words| == 4)
    decreases |groups| - i
  {
    if i < |groups| && |groups[i].words| == 4 {
      WrongSizeMeans(groups, i + 1);
    }
  }

  /** The words of the groups, one after the other. */
  lemma AllWordsAt(p: Puzzle, n: nat, w: string)
    requires |p.groups| == 4 && FourEach(p, 4) && n < 16
    ensures |UpperGroupWords(p.groups)| == 16
    ensures UpperGroupWords(p.groups)[n] == w <==> Holds(p, n / 4, n % 4, w)
  {
    UpperGroupWordsAt(p.groups);
    assert UpperGroupWords(p.groups)[4 * (n / 4) + n % 4] == Upper(p.groups[n / 4].words[n % 4]);
  }

  lemma WordsMean(p: Puzzle)
    requires |p.groups| == 4 && FourEach(p, 4)
    ensures var all := UpperGroupWords(p.groups);
      && (|all| == |SetOf(all)| <==> NoWordTwice(p))
      && (SetOf(UpperAll(p.words)) == SetOf(all) <==> SameWords(p))
  {
    hide UpperGroupWords, Upper;
    var all := UpperGroupWords(p.groups);
    CountDistinct(all);
    forall n: nat, w | n < 16 ensures |all| == 16 && (all[n] == w <==> Holds(p, n / 4, n % 4, w)) {
      AllWordsAt(p, n, w);
    }
    assert |all| == 16 by { AllWordsAt(p, 0, ""); }
    OnceIffDistinct(p, all);
    ListsMeans(p);
    forall w ensures w in SetOf(all) <==> exists i: nat, k: nat :: Holds(p, i, k, w) {
      HoldsAt(p, all, w);
    }
  }

  ghost predicate Arranged(p: Puzzle, all: seq<string>) {
    && |p.groups| == 4 && FourEach(p, 4) && |all| == 16
    && forall n: nat, w :: n < 16 ==> (all[n] == w <==> Holds(p, n / 4, n % 4, w))
  }

  lemma HoldsAt(p: Puzzle, all: seq<string>, w: string)
    requires Arranged(p, all)
    ensures w in all <==> exists i: nat, k: nat :: Holds(p, i, k, w)
  {
    if w in all {
      var n :| 0 <= n < 16 && all[n] == w;
      assert Holds(p, n / 4, n % 4, w);
    }
    if i: nat, k: nat :| Holds(p, i, k, w) {
      assert (4 * i + k) / 4 == i && (4 * i + k) % 4 == k;
      assert all[4 * i + k] == w;
    }
  }

  lemma OnceIffDistinct(p: Puzzle, all: seq<string>)
    requires Arranged(p, all)
    ensures Distinct(all) <==> NoWordTwice(p)
  {
    if Distinct(all) {
      forall w, i: nat, k: nat, j: nat, l: nat | Holds(p, i, k, w) && Holds(p, j, l, w) ensures i == j && k == l {
        assert (4 * i + k) / 4 == i && (4 * i + k) % 4 == k && (4 * j + l) / 4 == j && (4 * j + l) % 4 == l;
        assert all[4 * i + k] == w && all[4 * j + l] == w;
        SameIndex(all, 4 * i + k, 4 * j + l);
      }
    }
    if NoWordTwice(p) {
      forall m, n | 0 <= m < n < 16 ensures all[m] != all[n] {
        assert Holds(p, m / 4, m % 4, all[m]) && Holds(p, n / 4, n % 4, all[n]);
      }
    }
  }

  lemma ListsMeans(p: Puzzle)
    ensures forall w :: w in SetOf(UpperAll(p.words)) <==> Lists(p, w)
  {
    forall w ensures w in UpperAll(p.words) <==> Lists(p, w) {
      if w in UpperAll(p.words) {
        var i :| 0 <= i < |p.words| && UpperAll(p.words)[i] == w;
      }
      if Lists(p, w) {
        var i :| 0 <= i < |p.words| && Upper(p.words[i]) == w;
        assert UpperAll(p.words)[i] == w;
      }
    }
  }

  /** What a puzzle must be to pass: sixteen words, four groups with the four colours, four words in each, no
      word twice, and the same words in the list as in the groups. Otherwise the error names the first of
      these demands that it fails. */
  lemma ValidateMeans(p: Puzzle)
    ensures Validate(p) == None <==>
      |p.words| == 16 && |p.groups| == 4 && ColorsAllowed(p) && FourEach(p, 4) && NoWordTwice(p) && SameWords(p)
    ensures match Validate(p)
      case None => true
      case Some(WordCount) => |p.words| != 16
      case Some(GroupCount) => |p.words| == 16 && |p.groups| != 4
      case Some(Colors) => |p.words| == 16 && |p.groups| == 4 && !ColorsAllowed(p)
      case Some(GroupSize(i)) =>
        |p.words| == 16 && |p.groups| == 4 && ColorsAllowed(p) && FourEach(p, i) && i < 4 && |p.groups[i].words| != 4
      case Some(DuplicateWords) =>
        |p.words| == 16 && |p.groups| == 4 && ColorsAllowed(p) && FourEach(p, 4) && !NoWordTwice(p)
      case Some(WordsDiffer) =>
        |p.words| == 16 && |p.groups| == 4 && ColorsAllowed(p) && FourEach(p, 4) && NoWordTwice(p) && !SameWords(p)
  {
    hide UpperGroupWords, ColorList, UpperAll, ColorsAllowed, NoWordTwice, SameWords;
    ColorsMean(p);
    WrongSizeMeans(p.groups, 0);
    if |p.groups| == 4 && FourEach(p, 4) {
      WordsMean(p);
    }
  }

  // ----- what a response does -----

  /** A word that the puzzle lists and no solved group holds. */
  ghost predicate StillOpen(s: State, w: string) {
    w in s.puzzle.words && forall g :: g in s.puzzle.groups && g.color in s.solved ==> w !in g.words
  }

  lemma {:induction false} SolvedWordsMean(groups: seq<Group>, solved: set<string>, w: string)
    ensures w in SolvedWords(groups, solved) <==> exists g :: g in groups && g.color in solved && w in g.words
  {
    if groups != [] {
      SolvedWordsMean(groups[1..], solved, w);
      assert groups == [groups[0]] + groups[1..];
    }
  }

  lemma RemainingMeans(s: State, w: string)
    ensures w in Remaining(s) <==> StillOpen(s, w)
  {
    SolvedWordsMean(s.puzzle.groups, s.solved, w);
  }

  /** A guess is four different words that are still open. */
  ghost predicate Guess(s: State, words: seq<string>) {
    |words| == 4 && Distinct(words) && forall w :: w in words ==> StillOpen(s, w)
  }

  lemma GuessMeans(s: State, words: seq<string>)
    ensures CheckGuess(s, words) == None <==> Guess(s, words)
  {
    hide CheckGuess, Remaining, StillOpen;
    AcceptedGuesses(s, words);
    forall w ensures w in Remaining(s) <==> StillOpen(s, w) {
      RemainingMeans(s, w);
    }
    assert SetOf(words) <= Remaining(s) <==> forall w :: w in words ==> w in Remaining(s) by {
      assert forall w :: w in words <==> w in SetOf(words);
    }
  }

  ghost predicate FirstAt(words: seq<string>, i: nat, w: string, rest: set<string>, wanted: bool) {
    i < |words| && words[i] == w && (w in rest) == wanted && forall j :: 0 <= j < i ==> (words[j] in rest) != wanted
  }

  lemma {:induction false} FirstMeans(words: seq<string>, s: set<string>)
    ensures FirstIn(words, s).Some? ==> exists i: nat :: FirstAt(words, i, FirstIn(words, s).value, s, true)
    ensures FirstNotIn(words, s).Some? ==> exists i: nat :: FirstAt(words, i, FirstNotIn(words, s).value, s, false)
  {
    if words != [] {
      FirstMeans(words[1..], s);
      if words[0] in s {
        assert FirstAt(words, 0, words[0], s, true);
        if FirstNotIn(words[1..], s).Some? {
          var i: nat :| FirstAt(words[1..], i, FirstNotIn(words, s).value, s, false);
          assert FirstAt(words, i + 1, FirstNotIn(words, s).value, s, false);
        }
      } else {
        assert FirstAt(words, 0, words[0], s, false);
        if FirstIn(words[1..], s).Some? {
          var i: nat :| FirstAt(words[1..], i, FirstIn(words, s).value, s, true);
          assert FirstAt(words, i + 1, FirstIn(words, s).value, s, true);
        }
      }
    }
  }

  /** Why a response is no guess: not four words, or a word twice, or else the first word that the puzzle does
      not list, or else the first that a solved group holds. */
  ghost predicate Reason(s: State, words: seq<string>, why: Rejection) {
    var (listed, used) := (SetOf(s.puzzle.words), SolvedWords(s.puzzle.groups, s.solved));
    match why
    case WrongCount(n) => n == |words| != 4
    case Duplicates => |words| == 4 && !Distinct(words)
    case NotInPuzzle(w) => |words| == 4 && Distinct(words) && exists i: nat :: FirstAt(words, i, w, listed, false)
    case FromSolvedGroup(w) =>
      && |words| == 4 && Distinct(words) && (forall v :: v in words ==> v in s.puzzle.words)
      && exists i: nat :: FirstAt(words, i, w, used, true)
  }

  lemma ReasonMeans(s: State, words: seq<string>)
    requires CheckGuess(s, words).Some?
    ensures Reason(s, words, CheckGuess(s, words).value)
  {
    hide SolvedWords, FirstAt;
    var (listed, used) := (SetOf(s.puzzle.words), SolvedWords(s.puzzle.groups, s.solved));
    CountDistinct(words);
    FirstMeans(words, listed);
    FirstMeans(words, used);
    FirstInNone(words, listed);
  }

  /** The words name exactly the words of the group. */
  ghost predicate Names(words: seq<string>, g: Group) {
    forall w :: w in words <==> w in g.words
  }

  lemma NamesMean(words: seq<string>, g: Group)
    ensures Names(words, g) <==> SetOf(words) == SetOf(g.words)
  {
    assert forall w :: (w in words <==> w in SetOf(words)) && (w in g.words <==> w in SetOf(g.words));
  }

  lemma {:induction false} MatchingMeans(groups: seq<Group>, words: seq<string>)
    ensures Matching(groups, words).Some? <==> exists g :: g in groups && Names(words, g)
  {
    hide Names;
    MatchingGroup(groups, words);
    forall g ensures Names(words, g) <==> SetOf(words) == SetOf(g.words) {
      NamesMean(words, g);
    }
  }

  /** A finished game takes no response. Otherwise a response that is no guess costs one of three allowances
      and is told the open words; a guess that names no group costs one of four mistakes. */
  lemma ResponseMeans(s: State, response: string)
    ensures var words := ParseResponse(response);
      var (t, reply) := Process(s, response);
      if s.finished then t == s && reply == AlreadyFinished
      else if !Guess(s, words) then
        && t == s.(invalid := s.invalid + 1, finished := s.invalid + 1 >= 3)
        && reply.Invalid? && Reason(s, words, reply.why)
        && reply.provided == words && forall w :: w in reply.available <==> StillOpen(s, w)
      else if !exists g :: g in s.puzzle.groups && Names(words, g) then
        && t == s.(guesses := s.guesses + 1, mistakes := s.mistakes + 1, finished := s.mistakes + 1 >= 4)
        && reply == Incorrect(3 - s.mistakes)
      else reply in {Correct, CorrectNextGuess}
  {
    hide CheckGuess, Remaining, StillOpen, ParseResponse, Matching, Names, Reason, Distinct;
    var words := ParseResponse(response);
    GuessMeans(s, words);
    if CheckGuess(s, words).Some? {
      ReasonMeans(s, words);
    }
    MatchingMeans(s.puzzle.groups, words);
    forall w ensures w in Remaining(s) <==> StillOpen(s, w) {
      RemainingMeans(s, w);
    }
  }

  /** In a validated game a guess that names a group solves that group, which was open before; the fourth
      solved group wins the game and gets the last reply, the others ask for the next guess. */
  lemma CorrectGuessMeans(s: State, response: string, g: Group)
    requires Inv(s) && !s.finished && Guess(s, ParseResponse(response))
    requires g in s.puzzle.groups && Names(ParseResponse(response), g)
    ensures var (t, reply) := Process(s, response);
      && g.color !in s.solved && t.solved == s.solved + {g.color} && t.guesses == s.guesses + 1
      && (t.puzzle, t.mistakes, t.invalid) == (s.puzzle, s.mistakes, s.invalid)
      && t.won == (|s.solved| == 3) && t.finished == (|s.solved| == 3)
      && reply == if |s.solved| == 3 then Correct else CorrectNextGuess
  {
    hide CheckGuess, Validate, ParseResponse, Remaining, StillOpen;
    var words := ParseResponse(response);
    GuessMeans(s, words);
    ValidIsPartition(s.puzzle);
    NamesMean(words, g);
    MatchingUnique(s.puzzle.groups, words, g);
    NewColor(s, words);
  }
}
