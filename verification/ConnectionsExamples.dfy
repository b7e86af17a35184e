/** Example puzzles: sixteen words of one letter, in four groups. */
module ConnectionsExamples {
  import opened ConnectionsGame
  import opened ConnectionsPuzzle
  import opened Text
  import opened Wrappers

  function Letter(i: nat): string
    requires i < 26
  {
    ['A' + i as char]
  }

  function Letters(first: string): (words: seq<string>)
    ensures |words| == 16
  {
    [first] + seq(15, i requires 0 <= i < 15 => Letter(i + 1))
  }

  /** The puzzle with the words A to P, but with `first` in the place of A, and `member` in its group. */
  function Example(first: string, member: string): Puzzle {
    var words := Letters(member);
    Puzzle(Letters(first), [Group("I", "blue", words[0..4]), Group("II", "yellow", words[4..8]),
                   Group("III", "green", words[8..12]), Group("IV", "purple", words[12..16])])
  }

  lemma LowerWord(s: string)
    requires forall i :: 0 <= i < |s| ==> 'a' <= s[i] <= 'z'
    ensures Lower(s) == s
  {
  }

  lemma ExampleColors(first: string, member: string)
    ensures SetOf(ColorList(Example(first, member).groups)) == ALLOWED_COLORS
  {
    LowerWord("blue");
    LowerWord("yellow");
    LowerWord("green");
    LowerWord("purple");
    assert ColorList(Example(first, member).groups) == ["blue", "yellow", "green", "purple"];
    SetOfFour("blue", "yellow", "green", "purple");
  }

  lemma SetOfFour(a: string, b: string, c: string, d: string)
    ensures SetOf([a, b, c, d]) == {a, b, c, d}
  {
  }

  lemma UpperLetters(first: string)
    requires first == "A" || first == "a"
    ensures UpperAll(Letters(first)) == Letters("A") && Distinct(Letters("A"))
  {
    forall i | 0 <= i < 16 ensures UpperAll(Letters(first))[i] == Letters("A")[i] == Letter(i) {
      assert Upper(Letters(first)[i]) == [UpperChar(Letters(first)[i][0])];
    }
  }

  lemma ExampleGroupWords(first: string, member: string)
    ensures UpperGroupWords(Example(first, member).groups) == UpperAll(Letters(member))
  {
    var words := Letters(member);
    var groups := Example(first, member).groups;
    assert UpperGroupWords(groups[1..][1..][1..][1..]) == [];
    assert UpperGroupWords(groups[1..][1..][1..]) == UpperAll(words[12..16]);
    assert UpperGroupWords(groups[1..][1..]) == UpperAll(words[8..12]) + UpperAll(words[12..16]);
    assert UpperGroupWords(groups[1..]) == UpperAll(words[4..8]) + (UpperAll(words[8..12]) + UpperAll(words[12..16]));
  }

  /** Validation accepts the puzzle in capitals, and also with a small first letter in the list of words,
      in the group, or in both. */
  lemma ExamplesAreValid(first: string, member: string)
    requires first == "A" || first == "a"
    requires member == "A" || member == "a"
    ensures Validate(Example(first, member)) == None
  {
    ExampleColors(first, member);
    ExampleGroupWords(first, member);
    UpperLetters(first);
    UpperLetters(member);
    CountDistinct(Letters("A"));
    WrongSizes(Example(first, member).groups);
  }

  lemma {:induction false} WrongSizes(groups: seq<Group>)
    requires |groups| == 4 && forall i :: 0 <= i < 4 ==> |groups[i].words| == 4
    ensures WrongSize(groups, 0) == None
  {
    assert WrongSize(groups, 4) == None;
    assert WrongSize(groups, 3) == None;
    assert WrongSize(groups, 2) == None;
    assert WrongSize(groups, 1) == None;
  }

  lemma LettersAreClean(i: nat)
    requires i < 16
    ensures Letters("A")[i] == Letter(i) && Clean(Letter(i))
  {
    UpperLetters("A");
    assert UpperAll(Letters("A"))[i] == Upper(Letter(i));
    assert 'A' <= Letter(i)[0] <= 'P' && !IsSpace(Letter(i)[0]) && Letter(i)[0] != ',';
  }

  lemma CapitalsAreClean()
    ensures AllClean(Example("A", "A"))
  {
    forall w | w in Letters("A") ensures Clean(w) {
      var i :| 0 <= i < 16 && Letters("A")[i] == w;
      LettersAreClean(i);
    }
  }

  /** The puzzle in capitals can be won, and reaches a state with one group left. */
  lemma CapitalsCanBeWon() returns (responses: seq<string>, s: State)
    ensures Play(Create(Example("A", "A")), responses).won
    ensures Inv(s) && s.puzzle == Example("A", "A") && |s.solved| == 3 && !s.finished
  {
    ExamplesAreValid("A", "A");
    CapitalsAreClean();
    Winnable(Example("A", "A"));
    responses :| Play(Create(Example("A", "A")), responses).won;
    var response;
    s, response := LastGroupReached(Example("A", "A"));
  }

  /** With one small letter the puzzle is accepted all the same, and no responses win it. */
  lemma {:induction false} SmallLetterCannotBeWon(responses: seq<string>)
    ensures Validate(Example("a", "a")) == None && !Play(Create(Example("a", "a")), responses).won
  {
    ExamplesAreValid("a", "a");
    assert Letters("a")[0] == "a" && Upper("a")[0] == 'A';
    assert !Clean("a");
    Winnable(Example("a", "a"));
  }

  // ----- a correct guess that does not win -----

  lemma OtherWords(k: nat, m: nat)
    requires 1 <= k < 4 && m < 4
    ensures var p := Example("A", "a");
      |p.groups[k].words| == 4 && p.groups[k].words[m] == Letter(4 * k + m) == p.words[4 * k + m]
  {
    var words := Letters("a");
    assert words[4 * k + m] == Letter(4 * k + m);
    assert Example("A", "a").groups[k].words == words[4 * k..4 * k + 4];
  }

  lemma OtherGroupsAreClean(k: nat)
    requires 1 <= k < 4
    ensures var p := Example("A", "a"); Listed(p, p.groups[k]) && AllWordsClean(p.groups[k])
  {
    var p := Example("A", "a");
    var g := p.groups[k];
    forall w | w in g.words ensures w in p.words && Clean(w) {
      var i :| 0 <= i < 4 && g.words[i] == w;
      OtherWords(k, i);
      LettersAreClean(4 * k + i);
    }
  }

  lemma {:induction false} InSolvedGroup(groups: seq<Group>, solved: set<string>, w: string)
    ensures w in SolvedWords(groups, solved) ==>
      exists k :: 0 <= k < |groups| && groups[k].color in solved && w in groups[k].words
  {
    if groups != [] {
      InSolvedGroup(groups[1..], solved, w);
      if w in SolvedWords(groups[1..], solved) {
        var k :| 0 <= k < |groups[1..]| && groups[1..][k].color in solved && w in groups[1..][k].words;
        assert groups[k + 1] == groups[1..][k];
      }
    }
  }

  /** The first four capitals, named when only their group is left, are an accepted guess. */
  lemma FirstFourAccepted(s: State)
    requires s.puzzle == Example("A", "a") && "blue" !in s.solved
    ensures CheckGuess(s, Letters("A")[0..4]) == None
  {
    var words := Letters("A")[0..4];
    var groups := s.puzzle.groups;
    UpperLetters("A");
    forall i | 0 <= i < 4 ensures words[i] in Remaining(s) {
      LettersAreClean(i);
      InSolvedGroup(groups, s.solved, words[i]);
      forall k, m | 1 <= k < 4 && 0 <= m < 4 ensures groups[k].words[m] != words[i] {
        OtherWords(k, m);
      }
    }
    AcceptedGuesses(s, words);
  }

  /** With a small letter in the last group only, the last guess is accepted and names the four words that
      remain, and yet it is a mistake. */
  lemma CorrectGuessLoses() returns (s: State, response: string)
    ensures Validate(Example("A", "a")) == None && s.puzzle == Example("A", "a")
    ensures Inv(s) && |s.solved| == 3 && !s.finished
    ensures CheckGuess(s, ParseResponse(response)) == None && SetOf(ParseResponse(response)) == Remaining(s)
    ensures Process(s, response).1.Incorrect? && !Process(s, response).0.won
  {
    hide Validate, Clean, ParseResponse, CheckGuess, Process;
    var p := Example("A", "a");
    ExamplesAreValid("A", "a");
    var words := Letters("A")[0..4];
    s := OthersSolved();
    response := Join(words, ", ");
    forall w | w in words ensures Clean(w) {
      var i :| 0 <= i < 4 && words[i] == w;
      LettersAreClean(i);
    }
    ParseAnswer(words);
    FirstFourAccepted(s);
    assert p.groups[0].words[0] == "a";
    SmallAIsNotListed(p.groups[0]);
    LastGuess(s, words);
    KnownLastGroup(s, response, p.groups[0]);
  }

  lemma SmallAIsNotListed(g: Group)
    requires g.words != [] && g.words[0] == "a"
    ensures !(SetOf(g.words) <= SetOf(Letters("A")))
  {
    assert "a" in SetOf(g.words);
    forall w | w in Letters("A") ensures w != "a" {
      var i :| 0 <= i < 16 && Letters("A")[i] == w;
      LettersAreClean(i);
      assert w[0] <= 'P';
    }
  }

  lemma OthersSolved() returns (s: State)
    ensures s.puzzle == Example("A", "a") && Inv(s) && SolvedKnown(s) && !s.finished
    ensures |s.solved| == 3 && "blue" !in s.solved
  {
    hide Validate, Clean, Process, Play, Listed, AllWordsClean, SolvedKnown, Letters;
    var p := Example("A", "a");
    ExamplesAreValid("A", "a");
    OtherGroupsAreClean(1);
    OtherGroupsAreClean(2);
    OtherGroupsAreClean(3);
    var a := SolveNext(Create(p), p.groups[1]);
    var b := SolveNext(a, p.groups[2]);
    s := SolveNext(b, p.groups[3]);
    var responses := [Join(p.groups[1].words, ", "), Join(p.groups[2].words, ", "), Join(p.groups[3].words, ", ")];
    PlayThree(Create(p), responses, a, b, s);
    ReachedIsKnown(p, responses);
  }
}
