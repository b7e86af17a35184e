/** `to_asset_key_path`: an escape-aware split of a user string into the parts of an asset key. */
module AssetKeyPath {

  const ESCAPE := '\\'
  const SEPARATOR := '/'

  /** Puts `c` in front of the first piece. */
  function Prepend(p: string, pieces: seq<string>): (r: seq<string>)
    requires |pieces| >= 1
    ensures |r| == |pieces|
    ensures p == "" ==> r == pieces
  {
    assert p == "" ==> p + pieces[0] == pieces[0];
    [p + pieces[0]] + pieces[1..]
  }

  /** All pieces between unescaped separators; `pending` says that the character before `s` was an
      unescaped backslash. A backslash with nothing after it stands for nothing. */
  function Pieces(s: string, pending: bool): (pieces: seq<string>)
    ensures |pieces| >= 1
  {
    if s == "" then [""]
    else if pending then Prepend([s[0]], Pieces(s[1..], false))
    else if s[0] == ESCAPE then Pieces(s[1..], true)
    else if s[0] == SEPARATOR then [""] + Pieces(s[1..], false)
    else Prepend([s[0]], Pieces(s[1..], false))
  }

  /** The last piece counts only when it is not empty. */
  function DropEmptyLast(pieces: seq<string>): seq<string> {
    if |pieces| > 0 && pieces[|pieces| - 1] == "" then pieces[..|pieces| - 1] else pieces
  }

  function Parse(s: string): seq<string> {
    DropEmptyLast(Pieces(s, false))
  }

  method ToAssetKeyPath(assetKey: string) returns (parts: seq<string>)
    ensures parts == Parse(assetKey)
  {
    parts := [];
    var currentPart := "";
    var escapeNext := false;
    for i := 0 to |assetKey|
      invariant parts + Prepend(currentPart, Pieces(assetKey[i..], escapeNext)) == Pieces(assetKey, false)
    {
      var c := assetKey[i];
      ghost var rest := assetKey[i + 1..];
      assert assetKey[i..] == [c] + rest;
      if escapeNext {
        assert currentPart + [c] + Pieces(rest, false)[0] == currentPart + ([c] + Pieces(rest, false)[0]);
        currentPart := currentPart + [c];
        escapeNext := false;
      } else if c == ESCAPE {
        escapeNext := true;
      } else if c == SEPARATOR {
        assert currentPart + "" == currentPart;
        parts := parts + [currentPart];
        currentPart := "";
      } else {
        assert currentPart + [c] + Pieces(rest, false)[0] == currentPart + ([c] + Pieces(rest, false)[0]);
        currentPart := currentPart + [c];
      }
    }
    assert assetKey[|assetKey|..] == "";
    assert currentPart + "" == currentPart;
    assert parts + [currentPart] == Pieces(assetKey, false);
    if currentPart != "" {
      parts := parts + [currentPart];
    }
  }

  function EscapeChar(c: char): string {
    if c == ESCAPE || c == SEPARATOR then [ESCAPE, c] else [c]
  }

  function Escape(part: string): string {
    if part == "" then "" else EscapeChar(part[0]) + Escape(part[1..])
  }

  function EscapeJoin(parts: seq<string>): string {
    if |parts| == 0 then ""
    else if |parts| == 1 then Escape(parts[0])
    else Escape(parts[0]) + [SEPARATOR] + EscapeJoin(parts[1..])
  }

  lemma {:induction false} PiecesOfChar(c: char, tail: string)
    ensures Pieces(EscapeChar(c) + tail, false) == Prepend([c], Pieces(tail, false))
  {
    assert ([c] + tail)[1..] == tail;
    if c == ESCAPE || c == SEPARATOR {
      assert EscapeChar(c) + tail == [ESCAPE] + ([c] + tail);
      assert ([ESCAPE] + ([c] + tail))[1..] == [c] + tail;
    }
  }

  lemma PrependTwice(p: string, q: string, pieces: seq<string>)
    requires |pieces| >= 1
    ensures Prepend(p, Prepend(q, pieces)) == Prepend(p + q, pieces)
  {
    assert p + (q + pieces[0]) == p + q + pieces[0];
  }

  lemma {:induction false} PiecesOfEscaped(part: string, s: string)
    ensures Pieces(Escape(part) + s, false) == Prepend(part, Pieces(s, false))
  {
    if part == "" {
      assert Escape(part) + s == s;
    } else {
      PiecesOfEscaped(part[1..], s);
      PiecesOfChar(part[0], Escape(part[1..]) + s);
      PrependTwice([part[0]], part[1..], Pieces(s, false));
      assert EscapeChar(part[0]) + Escape(part[1..]) + s == EscapeChar(part[0]) + (Escape(part[1..]) + s);
      assert [part[0]] + part[1..] == part;
    }
  }

  lemma {:induction false} PiecesOfJoined(parts: seq<string>)
    requires |parts| >= 1
    ensures Pieces(EscapeJoin(parts), false) == parts
  {
    var first := parts[0];
    if |parts| == 1 {
      PiecesOfEscaped(first, "");
      assert Escape(first) + "" == Escape(first);
      assert first + "" == first;
    } else {
      var tail := EscapeJoin(parts[1..]);
      PiecesOfJoined(parts[1..]);
      PiecesOfEscaped(first, [SEPARATOR] + tail);
      assert Escape(first) + [SEPARATOR] + tail == Escape(first) + ([SEPARATOR] + tail);
      assert ([SEPARATOR] + tail)[1..] == tail;
      assert first + "" == first;
    }
  }

  /** Parsing the escaped form of a list of parts gives back the list, except that one empty last
      part is lost. So the round trip holds exactly for the lists whose last part is not empty. */
  lemma {:induction false} RoundTrip(parts: seq<string>)
    ensures Parse(EscapeJoin(parts)) == DropEmptyLast(parts)
    ensures Parse(EscapeJoin(parts)) == parts <==> (parts == [] || parts[|parts| - 1] != "")
  {
    if parts == [] {
      assert Parse("") == [];
    } else {
      PiecesOfJoined(parts);
      assert |parts[..|parts| - 1]| != |parts|;
    }
  }

  /** Escaping therefore never identifies two lists that could be parsed back. */
  lemma {:induction false} EscapeJoinInjective(a: seq<string>, b: seq<string>)
    requires a != [] && b != []
    ensures EscapeJoin(a) == EscapeJoin(b) <==> a == b
  {
    PiecesOfJoined(a);
    PiecesOfJoined(b);
  }
}
