/** What a reader of the printed changelog finds: the lines of the text, the parts of each bullet, and the
    commits that were accepted. */
module ChangelogText {
  import opened Text
  import opened Wrappers
  import opened ChangelogReview
  import opened ChangelogSections

  // ----- one bullet -----

  /** The entry of a commit, or its title if it has none. */
  function Entry(c: Commit): string {
    if Given(c.entry) then c.entry.value else c.title
  }

  function ThanksTo(user: string): string {
    " (Thanks, [@" + user + "](https://github.com/" + user + ")!)"
  }

  predicate Thanked(c: Commit, withThanks: bool) {
    withThanks && !c.ignore && c.username.Some? && c.username.value != ""
  }

  /** Where the first `]` is, or the end. */
  function Closing(text: string): (i: nat)
    ensures i <= |text| && ']' !in text[..i] && (i < |text| ==> text[i] == ']')
  {
    if text == "" || text[0] == ']' then 0 else 1 + Closing(text[1..])
  }

  /** Reads a bullet: the prefix in brackets, if there is one, and what follows it. */
  function ReadBullet(text: string): (Option<string>, string) {
    if text == "" || text[0] != '[' || Closing(text[1..]) + 3 > |text| then (None, text)
    else (Some(text[1..][..Closing(text[1..])]), text[Closing(text[1..]) + 3..])
  }

  lemma {:induction false} ClosingAt(before: string, after: string)
    requires ']' !in before
    ensures Closing(before + "]" + after) == |before|
  {
    if before == "" {
      assert (before + "]" + after)[0] == ']';
    } else {
      assert (before + "]" + after)[1..] == before[1..] + "]" + after;
      ClosingAt(before[1..], after);
    }
  }

  /** A bullet gives back the prefix and the entry of its commit, unless the prefix holds a bracket or a
      missing prefix could be mistaken for one; and the entry is followed by thanks to the author if and only
      if they are wanted, the commit was taken with thanks and its author has a name. */
  lemma BulletMeans(c: Commit, withThanks: bool)
    requires if Given(c.prefix) then ']' !in c.prefix.value else Entry(c) != "" && Entry(c)[0] != '['
    ensures ReadBullet(Bullet(c, withThanks))
         == (if Given(c.prefix) then c.prefix else None,
             Entry(c) + if Thanked(c, withThanks) then ThanksTo(c.username.value) else "")
  {
    hide ReadBullet;
    var rest := Entry(c) + if Thanked(c, withThanks) then ThanksTo(c.username.value) else "";
    BulletParts(c, withThanks);
    if Given(c.prefix) {
      ReadPrefixed(c.prefix.value, rest);
    } else {
      assert rest[0] == Entry(c)[0];
      ReadUnprefixed(rest);
    }
  }

  lemma BulletParts(c: Commit, withThanks: bool)
    ensures var rest := Entry(c) + if Thanked(c, withThanks) then ThanksTo(c.username.value) else "";
      Bullet(c, withThanks) == if Given(c.prefix) then "[" + c.prefix.value + "] " + rest else rest
  {
    var thanks := if Thanked(c, withThanks) then ThanksTo(c.username.value) else "";
    var front := if Given(c.prefix) then "[" + c.prefix.value + "] " else "";
    assert front + Entry(c) + thanks == front + (Entry(c) + thanks);
    assert front == "" ==> front + (Entry(c) + thanks) == Entry(c) + thanks;
  }

  lemma ReadPrefixed(p: string, rest: string)
    requires ']' !in p
    ensures ReadBullet("[" + p + "] " + rest) == (Some(p), rest)
  {
    hide Closing;
    var text := "[" + p + "] " + rest;
    assert text[1..] == p + "]" + (" " + rest);
    ClosingAt(p, " " + rest);
    assert text[1..][..|p|] == p && text[|p| + 3..] == rest;
  }

  lemma ReadUnprefixed(text: string)
    requires text != "" && text[0] != '['
    ensures ReadBullet(text) == (None, text)
  {
  }

  /** In particular the thanks are there exactly when they are due: without the author's name the bullet would
      be shorter. */
  lemma ThanksIffDue(c: Commit, withThanks: bool)
    ensures Bullet(c, withThanks) != Bullet(c.(username := None), withThanks) <==> Thanked(c, withThanks)
  {
    BulletParts(c, withThanks);
    BulletParts(c.(username := None), withThanks);
    hide Bullet;
    var thanks := if Thanked(c, withThanks) then |ThanksTo(c.username.value)| else 0;
    assert |Bullet(c, withThanks)| == |Bullet(c.(username := None), withThanks)| + thanks;
    if !Thanked(c, withThanks) {
      assert Entry(c) == Entry(c.(username := None));
    }
  }

  // ----- the lines of the text -----

  /** A line as it is printed: a heading between empty lines, or a bullet. */
  function Printed(line: Line, withThanks: bool): seq<string> {
    match line
    case Heading(category) => ["", "### " + category, ""]
    case Item(c) => ["- " + Bullet(c, withThanks)]
  }

  function PrintedAll(lines: seq<Line>, withThanks: bool): seq<string> {
    if lines == [] then [] else Printed(lines[0], withThanks) + PrintedAll(lines[1..], withThanks)
  }

  predicate OneLine(line: Line, withThanks: bool) {
    match line
    case Heading(category) => '\n' !in category
    case Item(c) => '\n' !in Bullet(c, withThanks)
  }

  lemma {:induction false} NewlineSplit(text: string)
    ensures Split("\n" + text, '\n') == [""] + Split(text, '\n')
  {
    assert ("\n" + text)[1..] == text;
  }

  /** A line, and then text that is empty or begins a line of its own. */
  lemma {:induction false} LineSplit(line: string, rest: string)
    requires '\n' !in line && Split(rest, '\n')[0] == ""
    ensures Split("\n" + (line + rest), '\n') == ["", line] + Split(rest, '\n')[1..]
  {
    SplitPrefix(line, rest, '\n');
    NewlineSplit(line + rest);
    hide Split;
    assert line + "" == line;
  }

  lemma {:induction false} HeadingSplit(category: string, rest: string)
    requires '\n' !in category && Split(rest, '\n')[0] == ""
    ensures Split("\n\n### " + category + "\n" + rest, '\n')
         == ["", "", "### " + category, ""] + Split(rest, '\n')[1..]
  {
    var name := "### " + category;
    NewlineSplit(rest);
    NewlineSplit("\n" + (name + ("\n" + rest)));
    hide Split;
    LineSplit(name, "\n" + rest);
    assert ([""] + Split(rest, '\n'))[1..] == Split(rest, '\n') == [""] + Split(rest, '\n')[1..];
    assert "\n\n### " + category + "\n" + rest == "\n" + ("\n" + (name + ("\n" + rest)));
  }

  lemma {:induction false} ItemSplit(bullet: string, rest: string)
    requires '\n' !in bullet && Split(rest, '\n')[0] == ""
    ensures Split("\n- " + bullet + rest, '\n') == ["", "- " + bullet] + Split(rest, '\n')[1..]
  {
    hide Split;
    LineSplit("- " + bullet, rest);
    assert "\n- " + bullet + rest == "\n" + ("- " + bullet + rest);
  }

  /** The text, split at its line ends, is one line for each bullet and three for each heading. */
  lemma {:induction false} TextLines(lines: seq<Line>, withThanks: bool)
    requires forall line :: line in lines ==> OneLine(line, withThanks)
    ensures Split(TextOf(lines, withThanks), '\n') == [""] + PrintedAll(lines, withThanks)
  {
    if lines == [] {
      assert Split("", '\n') == [""];
    } else {
      TextLines(lines[1..], withThanks);
      var rest := TextOf(lines[1..], withThanks);
      assert OneLine(lines[0], withThanks);
      hide Bullet, Split;
      assert Split(rest, '\n')[1..] == PrintedAll(lines[1..], withThanks);
      match lines[0]
      case Heading(category) => HeadingSplit(category, rest);
      case Item(c) => ItemSplit(Bullet(c, withThanks), rest);
    }
  }

  lemma {:induction false} TextAround(lines: seq<Line>, i: nat, withThanks: bool)
    returns (before: string, after: string)
    requires i < |lines| && lines[i].Item?
    ensures TextOf(lines, withThanks) == before + "\n- " + Bullet(lines[i].commit, withThanks) + after
  {
    hide Bullet;
    if i == 0 {
      before, after := "", TextOf(lines[1..], withThanks);
    } else {
      before, after := TextAround(lines[1..], i - 1, withThanks);
      var first := match lines[0]
                   case Heading(category) => "\n\n### " + category + "\n"
                   case Item(c) => "\n- " + Bullet(c, withThanks);
      var bullet := Bullet(lines[i].commit, withThanks);
      assert TextOf(lines, withThanks) == first + (before + "\n- " + bullet + after);
      assert first + (before + "\n- " + bullet + after) == first + before + "\n- " + bullet + after;
      before := first + before;
    }
  }

  lemma {:induction false} UnderIsPrinted(lines: seq<Line>, current: Option<string>, category: string, c: Commit)
    returns (i: nat)
    requires c in Under(lines, current, category)
    ensures i < |lines| && lines[i] == Item(c)
  {
    if lines[0] == Item(c) {
      i := 0;
    } else {
      i := UnderIsPrinted(lines[1..], if lines[0].Heading? then Some(lines[0].category) else current, category, c);
      i := i + 1;
    }
  }

  // ----- the whole text -----

  /** A finished review prints the accepted commits with thanks below the header, and then the internal ones
      without; nothing else. */
  lemma {:induction false} FinishedText(all: seq<Commit>, keys: seq<Key>, header: string)
    requires ForReview(all) != [] && Outcome(ForReview(all), keys).mode.Finished?
    ensures NewText(all, keys, header)
         == Some(header + TextOf(Section(Outcome(ForReview(all), keys).accepted), true)
                 + if Internal(all) == [] then "" else InternalText(all))
  {
    hide Outcome, ForReview, Internal, TextOf, Section, InternalText;
    NothingToPrint(Outcome(ForReview(all), keys).accepted);
    SectionsText(all, Outcome(ForReview(all), keys).accepted, header);
    OutcomeKeepsInv(ForReview(all), keys);
  }

  lemma {:induction false} SectionsText(all: seq<Commit>, accepted: seq<Commit>, header: string)
    ensures header + Sections(accepted, Internal(all))
         == header + TextOf(Section(accepted), true) + if Internal(all) == [] then "" else InternalText(all)
  {
    NothingToPrint(accepted);
    hide TextOf, Section, Internal;
    var (first, last) := (TextOf(Section(accepted), true), if Internal(all) == [] then "" else InternalText(all));
    assert Sections(accepted, Internal(all)) == first + last;
    assert header + (first + last) == header + first + last;
  }

  lemma NothingToPrint(cs: seq<Commit>)
    ensures cs == [] ==> TextOf(Section(cs), true) == ""
  {
    if cs == [] {
      NoCategories(cs, CATEGORY_ORDER);
    }
  }

  lemma {:induction false} NoCategories(cs: seq<Commit>, categories: seq<string>)
    requires cs == []
    ensures SectionLines(cs, categories) == []
  {
    if categories != [] {
      NoCategories(cs, categories[1..]);
    }
  }

  /** So each commit that was accepted in a category of the changelog has its bullet in the text. */
  lemma AcceptedIsPrinted(all: seq<Commit>, keys: seq<Key>, header: string, c: Commit)
    returns (before: string, after: string)
    requires ForReview(all) != [] && Outcome(ForReview(all), keys).mode.Finished?
    requires c in Outcome(ForReview(all), keys).accepted && c.category in CATEGORY_ORDER
    ensures NewText(all, keys, header) == Some(before + "\n- " + Bullet(c, true) + after)
  {
    hide Outcome, ForReview, Internal, TextOf, Bullet, Section, NewText, InternalText, Under;
    var accepted := Outcome(ForReview(all), keys).accepted;
    SectionMeans(accepted, c.category);
    FinishedText(all, keys, header);
    var lines := Section(accepted);
    assert multiset(Under(lines, None, c.category))[c] > 0;
    var i := UnderIsPrinted(lines, None, c.category, c);
    var b, a := TextAround(lines, i, true);
    var last := if Internal(all) == [] then "" else InternalText(all);
    before, after := header + b, a + last;
    Regroup(header, b, "\n- ", Bullet(c, true), a, last);
  }

  lemma Regroup(header: string, b: string, dash: string, bullet: string, a: string, last: string)
    ensures header + (b + dash + bullet + a) + last == header + b + dash + bullet + (a + last)
  {
    assert header + (b + dash + bullet + a) + last == header + (b + dash + bullet) + (a + last);
  }
}
