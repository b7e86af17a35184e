/** Connections puzzles: what `validate_puzzle` accepts, and how a response is parsed. */
module ConnectionsPuzzle {
  import opened Text

  datatype Group = Group(name: string, color: string, words: seq<string>)
  datatype Puzzle = Puzzle(words: seq<string>, groups: seq<Group>)

  datatype PuzzleError = WordCount | GroupCount | Colors | GroupSize(index: nat) | DuplicateWords | WordsDiffer

  const ALLOWED_COLORS := {"blue", "yellow", "green", "purple"}

  // ----- parsing a response -----

  function NonEmpty(words: seq<string>): seq<string> {
    if words == [] then []
    else (if words[0] == "" then [] else [words[0]]) + NonEmpty(words[1..])
  }

  function Normalize(piece: string): string {
    Upper(Strip(piece))
  }

  function NormalizeAll(pieces: seq<string>): (words: seq<string>)
    ensures |words| == |pieces|
  {
    seq(|pieces|, i requires 0 <= i < |pieces| => Normalize(pieces[i]))
  }

  function ParseResponse(response: string): seq<string> {
    NonEmpty(NormalizeAll(Split(response, ',')))
  }

  /** A word that a player can name: trimmed, upper-case, not empty, and without a comma. */
  predicate Clean(w: string) {
    w != "" && ',' !in w && Trimmed(w) && Upper(w) == w
  }

  lemma {:induction false} NonEmptyMembers(words: seq<string>)
    ensures forall w :: w in NonEmpty(words) <==> w in words && w != ""
  {
    if words != [] {
      NonEmptyMembers(words[1..]);
      assert words == [words[0]] + words[1..];
    }
  }

  lemma {:induction false} NonEmptyAll(words: seq<string>)
    requires "" !in words
    ensures NonEmpty(words) == words
  {
    if words != [] {
      NonEmptyAll(words[1..]);
      assert words == [words[0]] + words[1..];
    }
  }

  predicate Trimmed(s: string) {
    s == "" || (!IsSpace(s[0]) && !IsSpace(s[|s| - 1]))
  }

  lemma StripTrims(s: string)
    ensures Trimmed(Strip(s))
    ensures forall c :: c in Strip(s) ==> c in s
  {
  }

  lemma UpperCharFacts(c: char)
    ensures IsSpace(UpperChar(c)) == IsSpace(c)
    ensures UpperChar(UpperChar(c)) == UpperChar(c)
    ensures UpperChar(c) == ',' ==> c == ','
  {
  }

  lemma UpperKeepsClean(s: string)
    requires s != "" && Trimmed(s) && ',' !in s
    ensures Clean(Upper(s))
  {
    UpperCharFacts(s[0]);
    UpperCharFacts(s[|s| - 1]);
    forall i | 0 <= i < |s|
      ensures Upper(s)[i] != ',' && Upper(Upper(s))[i] == Upper(s)[i]
    {
      UpperCharFacts(s[i]);
    }
    assert Upper(Upper(s)) == Upper(s);
  }

  lemma NormalizedIsClean(piece: string)
    requires ',' !in piece && Normalize(piece) != ""
    ensures Clean(Normalize(piece))
  {
    StripTrims(piece);
    UpperKeepsClean(Strip(piece));
  }

  lemma NormalizedAreClean(pieces: seq<string>, w: string)
    requires FreeOf(pieces, ',') && w in NormalizeAll(pieces) && w != ""
    ensures Clean(w)
  {
    var i :| 0 <= i < |pieces| && w == NormalizeAll(pieces)[i];
    NormalizedIsClean(pieces[i]);
  }

  /** Whatever the response, only clean words come out of it. */
  lemma ParsedWordsAreClean(response: string)
    ensures forall w :: w in ParseResponse(response) ==> Clean(w)
  {
    var pieces := Split(response, ',');
    JoinSplit(response, ',');
    NonEmptyMembers(NormalizeAll(pieces));
    forall w | w in ParseResponse(response)
      ensures Clean(w)
    {
      NormalizedAreClean(pieces, w);
    }
  }

  lemma NormalizePadded(w: string)
    requires Clean(w)
    ensures Normalize(w) == w && Normalize(" " + w) == w
  {
    assert StripRight(w) == w;
    assert (" " + w)[1..] == w;
    assert StripLeft(" " + w) == StripLeft(w) == w;
  }

  /** Any comma-free pieces that normalize to the words spell the words. */
  lemma {:induction false} ParsePieces(pieces: seq<string>, words: seq<string>)
    requires pieces != [] && FreeOf(pieces, ',')
    requires NormalizeAll(pieces) == words && "" !in words
    ensures ParseResponse(Join(pieces, ",")) == words
  {
    SplitJoin(pieces, ',');
    NonEmptyAll(words);
  }

  function Spaced(words: seq<string>): (pieces: seq<string>)
    ensures |pieces| == |words|
  {
    seq(|words|, i requires 0 <= i < |words| => " " + words[i])
  }

  lemma {:induction false} SpacedJoin(words: seq<string>)
    requires words != []
    ensures Join(Spaced(words), ",") == " " + Join(words, ", ")
  {
    if |words| > 1 {
      SpacedJoin(words[1..]);
      assert Spaced(words)[1..] == Spaced(words[1..]);
      assert " " + words[0] + "," + (" " + Join(words[1..], ", ")) == " " + (words[0] + ", " + Join(words[1..], ", "));
    }
  }

  lemma {:induction false} SpacedAnswer(words: seq<string>)
    requires words != []
    ensures Join(words, ", ") == Join([words[0]] + Spaced(words[1..]), ",")
  {
    var tail := words[1..];
    var pieces := [words[0]] + Spaced(tail);
    if tail != [] {
      SpacedJoin(tail);
      assert pieces[1..] == Spaced(tail);
      assert words[0] + "," + (" " + Join(tail, ", ")) == words[0] + ", " + Join(tail, ", ");
    }
  }

  lemma PieceNormalizes(w: string, piece: string)
    requires Clean(w) && (piece == w || piece == " " + w)
    ensures Normalize(piece) == w && ',' !in piece && w != ""
  {
    NormalizePadded(w);
  }

  lemma PiecesNormalize(words: seq<string>, pieces: seq<string>)
    requires words != [] && forall w :: w in words ==> Clean(w)
    requires |pieces| == |words|
    requires forall i :: 0 <= i < |words| ==> pieces[i] == words[i] || pieces[i] == " " + words[i]
    ensures NormalizeAll(pieces) == words && FreeOf(pieces, ',') && "" !in words
  {
    forall i | 0 <= i < |words|
      ensures Normalize(pieces[i]) == words[i] && ',' !in pieces[i] && words[i] != ""
    {
      PieceNormalizes(words[i], pieces[i]);
    }
  }

  /** Parsing undoes `", ".join(words)` for clean words. */
  lemma {:induction false} ParseAnswer(words: seq<string>)
    requires words != [] && forall w :: w in words ==> Clean(w)
    ensures ParseResponse(Join(words, ", ")) == words
  {
    var pieces := [words[0]] + Spaced(words[1..]);
    PiecesNormalize(words, pieces);
    SpacedAnswer(words);
    ParsePieces(pieces, words);
  }
}
