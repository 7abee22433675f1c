/**
 * The technical manual page: the search over chapters and sections, the
 * expanded chapters, the classification of each line of a section's text
 * for display, the highlighting of the search term, and the lookup of the
 * selected section and its chapter.
 *
 * The manual's text is a parameter here (`manual`) rather than the page's
 * constant; every operation is stated for any structure. Case-insensitive
 * matching is modelled by comparing lower-cased characters.
 */
module ManualPage {
  import opened Common
  import opened Strings

  datatype Section = Section(id: string, title: string, content: string)
  datatype Chapter = Chapter(id: string, title: string, sections: seq<Section>)

  // ------------------------------------------------------------------ search

  /** The title or the text holds the query, ignoring case. */
  predicate SectionMatches(s: Section, query: string)
  {
    Contains(Lower(s.title), Lower(query)) || Contains(Lower(s.content), Lower(query))
  }

  /** A chapter cut down to its matching sections. */
  function Narrow(ch: Chapter, query: string): (r: Chapter)
    ensures r.id == ch.id && r.title == ch.title
    ensures forall i :: 0 <= i < |r.sections| ==> r.sections[i] in ch.sections && SectionMatches(r.sections[i], query)
    ensures forall i :: 0 <= i < |ch.sections| && SectionMatches(ch.sections[i], query) ==> ch.sections[i] in r.sections
  {
    ch.(sections := Filter(ch.sections, (s: Section) => SectionMatches(s, query)))
  }

  /** A narrowed chapter is shown when it kept a section or its own title matches. */
  predicate Shown(ch: Chapter, query: string)
  {
    |ch.sections| > 0 || Contains(Lower(ch.title), Lower(query))
  }

  /** The narrowed chapters of the manual. */
  function NarrowAll(manual: seq<Chapter>, query: string): (r: seq<Chapter>)
    ensures |r| == |manual|
    ensures forall i :: 0 <= i < |manual| ==> r[i] == Narrow(manual[i], query)
  {
    seq(|manual|, i requires 0 <= i < |manual| => Narrow(manual[i], query))
  }

  /** `filteredStructure`: each chapter narrowed to its matching sections, and only the shown ones kept, in order. */
  function FilteredStructure(manual: seq<Chapter>, query: string): seq<Chapter>
  {
    Filter(NarrowAll(manual, query), (ch: Chapter) => Shown(ch, query))
  }

  /**
   * A chapter of the manual appears, narrowed, exactly when one of its
   * sections or its title matches; every section that appears matches.
   */
  lemma FilteredStructureMeaning(manual: seq<Chapter>, query: string, i: nat)
    requires i < |manual|
    ensures Narrow(manual[i], query) in FilteredStructure(manual, query) <==>
      (exists k :: 0 <= k < |manual[i].sections| && SectionMatches(manual[i].sections[k], query))
      || Contains(Lower(manual[i].title), Lower(query))
  {
    var n := Narrow(manual[i], query);
    var p := (ch: Chapter) => Shown(ch, query);
    var all := NarrowAll(manual, query);
    assert all[i] == n;
    if n in FilteredStructure(manual, query) {
      assert Shown(n, query);
      if |n.sections| > 0 {
        assert n.sections[0] in manual[i].sections;
      }
    } else {
      assert !p(all[i]);
    }
  }

  /** Every shown section matches the query and belongs to its chapter. */
  lemma FilteredSectionsMatch(manual: seq<Chapter>, query: string, c: Chapter, s: Section)
    requires c in FilteredStructure(manual, query) && s in c.sections
    ensures SectionMatches(s, query)
    ensures exists i :: 0 <= i < |manual| && c == Narrow(manual[i], query) && s in manual[i].sections
  {
    var i :| 0 <= i < |NarrowAll(manual, query)| && NarrowAll(manual, query)[i] == c;
  }

  /** Every text holds the empty text. */
  lemma ContainsEmpty(s: string)
    ensures Contains(s, "")
  {
    assert StartsWith(s, "");
  }

  /** Lower-casing the empty query gives the empty query. */
  lemma LowerEmpty()
    ensures Lower("") == ""
  {
  }

  /** An empty query narrows no chapter. */
  lemma NarrowEmptyQuery(ch: Chapter)
    ensures Narrow(ch, "") == ch
  {
    LowerEmpty();
    forall i | 0 <= i < |ch.sections| ensures SectionMatches(ch.sections[i], "") {
      ContainsEmpty(Lower(ch.sections[i].title));
    }
    FilterKeepsAll(ch.sections, (s: Section) => SectionMatches(s, ""));
  }

  /** An empty query shows the whole manual. */
  lemma EmptyQueryShowsAll(manual: seq<Chapter>)
    ensures FilteredStructure(manual, "") == manual
  {
    var all := NarrowAll(manual, "");
    forall i | 0 <= i < |manual| ensures all[i] == manual[i] {
      NarrowEmptyQuery(manual[i]);
    }
    assert all == manual;
    LowerEmpty();
    forall i | 0 <= i < |all| ensures Shown(all[i], "") {
      ContainsEmpty(Lower(all[i].title));
    }
    FilterKeepsAll(all, (ch: Chapter) => Shown(ch, ""));
  }

  // ------------------------------------------------------- expanded chapters

  /** `toggleChapter`: an expanded chapter is collapsed, any other is appended to the expanded list. */
  function ToggleChapter(expanded: seq<string>, id: string): (r: seq<string>)
    ensures id in r <==> id !in expanded
    ensures forall x :: x != id ==> (x in r <==> x in expanded)
  {
    if id in expanded then Filter(expanded, (x: string) => x != id) else expanded + [id]
  }

  /** None of the list's elements is dropped by a filter they all pass. */
  lemma {:induction false} FilterAllPass(s: seq<string>, id: string)
    requires id !in s
    ensures Filter(s, (x: string) => x != id) == s
    decreases |s|
  {
    if s != [] {
      FilterAllPass(s[1..], id);
      assert s == [s[0]] + s[1..];
    } else {
      assert Filter(s, (x: string) => x != id) == [];
    }
  }

  /** Expanding and collapsing a chapter gives back the same list. */
  lemma ToggleChapterTwice(expanded: seq<string>, id: string)
    requires id !in expanded
    ensures ToggleChapter(ToggleChapter(expanded, id), id) == expanded
  {
    FilterSnoc(expanded, id, (x: string) => x != id);
    FilterAllPass(expanded, id);
  }

  // -------------------------------------------------------- line rendering

  const BulletDot: char := '\U{2022}'
  const CheckMark: char := '\U{2713}'
  /** The warning sign followed by the emoji variation selector. */
  const WarningSign: string := "\U{26A0}\U{FE0F}"

  /** How a line of section text is displayed. */
  datatype LineKind =
    | Spacer
    | Bullet(mark: char, text: string)
    | Numbered(number: string, text: string)
    | KeyValue(key: string, value: string)
    | Warning(text: string)
    | Header(text: string)
    | Paragraph(text: string)

  predicate IsBulletMark(c: char)
  {
    c == BulletDot || c == '-' || c == CheckMark
  }

  /** The number of leading ASCII digits (`\d` in a regular expression). */
  function Digits(s: string): (n: nat)
    ensures n <= |s|
    ensures forall i :: 0 <= i < n ==> '0' <= s[i] <= '9'
    ensures n < |s| ==> !('0' <= s[n] <= '9')
    decreases |s|
  {
    if s != [] && '0' <= s[0] <= '9' then 1 + Digits(s[1..]) else 0
  }

  /** `/^\d+\./`: digits then a full stop. */
  predicate NumberedAt(t: string)
  {
    0 < Digits(t) < |t| && t[Digits(t)] == '.'
  }

  /** `renderContent`'s choice for one line: the trimmed line's class. */
  function Classify(line: string): LineKind
  {
    ClassifyTrimmed(Trim(line))
  }

  /** The classes tried in the page's order on a trimmed line. */
  function ClassifyTrimmed(t: string): LineKind
  {
    if t == "" then Spacer
    else if IsBulletMark(t[0]) then Bullet(t[0], Trim(t[1..]))
    else if NumberedAt(t) then
      var n := Digits(t) + 1;
      Numbered(t[..n], TrimStart(t[n..]))
    else ClassifyText(t)
  }

  /** `trimmed.split(':')`: the key before the first colon and the rest rejoined and trimmed, when shown as such. */
  function KeyValueOf(t: string): Option<(string, string)>
  {
    var parts := Split(t, ':');
    var value := Trim(Join(parts[1..], ":"));
    if Contains(t, ":") && IndexOf(t, ':') < 30 && value != "" then Some((parts[0], value)) else None
  }

  /** The classes after bullets and numbered items: key-value, warning, header, paragraph. */
  function ClassifyText(t: string): (k: LineKind)
    ensures !k.Spacer? && !k.Bullet? && !k.Numbered?
  {
    var kv := KeyValueOf(t);
    if kv.Some? then KeyValue(kv.value.0, kv.value.1)
    else if StartsWith(t, "POZOR") || Contains(t, WarningSign) then Warning(t)
    else if t == Upper(t) && |t| > 3 && !Contains(t, ":") then Header(t)
    else Paragraph(t)
  }

  /** The key-value split is at the first colon: the key before it, the value the trimmed rest of the line. */
  lemma KeyValueCut(t: string)
    requires IndexOf(t, ':') >= 0
    ensures var k := IndexOf(t, ':');
      Split(t, ':')[0] == t[..k] && Join(Split(t, ':')[1..], ":") == t[k + 1..]
  {
    var k := IndexOf(t, ':');
    var rest := Split(t[k + 1..], ':');
    SplitAt(t, ':');
    assert Split(t, ':')[1..] == rest;
    JoinSplit(t[k + 1..], ':');
  }

  /** A line cut at its first colon, before position 30, with something after it. */
  predicate KeyValueAt(t: string)
  {
    0 <= IndexOf(t, ':') < 30 && Trim(t[IndexOf(t, ':') + 1..]) != ""
  }

  /** A key and value exactly when the first colon comes before position 30 with text after it. */
  lemma KeyValueOfMeaning(t: string)
    ensures KeyValueOf(t).Some? <==> KeyValueAt(t)
    ensures KeyValueOf(t).Some? ==> KeyValueOf(t).value == (t[..IndexOf(t, ':')], Trim(t[IndexOf(t, ':') + 1..]))
  {
    ContainsChar(t, ':');
    if ':' in t {
      IndexOfAbsent(t, ':');
      KeyValueCut(t);
    }
  }

  /** The first three classes: blank, bullet, numbered, with the parts each takes from the line. */
  lemma ClassifyLeading(t: string)
    ensures ClassifyTrimmed(t).Spacer? <==> t == ""
    ensures ClassifyTrimmed(t).Bullet? <==> t != "" && IsBulletMark(t[0])
    ensures ClassifyTrimmed(t).Bullet? ==> ClassifyTrimmed(t) == Bullet(t[0], Trim(t[1..]))
    ensures ClassifyTrimmed(t).Numbered? <==> t != "" && !IsBulletMark(t[0]) && NumberedAt(t)
    ensures ClassifyTrimmed(t).Numbered? ==> ClassifyTrimmed(t) == Numbered(t[..Digits(t) + 1], TrimStart(t[Digits(t) + 1..]))
    ensures t != "" && !IsBulletMark(t[0]) && !NumberedAt(t) ==> ClassifyTrimmed(t) == ClassifyText(t)
  {
  }

  /** Then a key and value, when the line has one. */
  lemma ClassifyKeyValue(t: string)
    ensures ClassifyText(t).KeyValue? <==> KeyValueAt(t)
    ensures ClassifyText(t).KeyValue? ==> ClassifyText(t) == KeyValue(t[..IndexOf(t, ':')], Trim(t[IndexOf(t, ':') + 1..]))
  {
    var kv := KeyValueOf(t);
    KeyValueOfMeaning(t);
    if kv.Some? {
      assert ClassifyText(t) == KeyValue(kv.value.0, kv.value.1);
    } else {
      assert !ClassifyText(t).KeyValue?;
    }
  }

  /** Otherwise a warning, then a header, else a paragraph, each showing the trimmed line. */
  lemma ClassifyRest(t: string)
    requires !KeyValueAt(t)
    ensures ClassifyText(t).Warning? <==> StartsWith(t, "POZOR") || Contains(t, WarningSign)
    ensures ClassifyText(t).Header? <==> !ClassifyText(t).Warning? && t == Upper(t) && |t| > 3 && ':' !in t
    ensures ClassifyText(t) == Warning(t) || ClassifyText(t) == Header(t) || ClassifyText(t) == Paragraph(t)
  {
    KeyValueOfMeaning(t);
    assert KeyValueOf(t).None?;
    ContainsChar(t, ':');
    if StartsWith(t, "POZOR") || Contains(t, WarningSign) {
      assert ClassifyText(t) == Warning(t);
    } else if t == Upper(t) && |t| > 3 && !Contains(t, ":") {
      assert ClassifyText(t) == Header(t);
    } else {
      assert ClassifyText(t) == Paragraph(t);
    }
  }

  /**
   * A "POZOR" line with a colon early in it and text after the colon is
   * shown as a key and value, not as a warning: the key-value class is tried
   * first.
   */
  lemma ColonWarningIsKeyValue(t: string)
    requires StartsWith(t, "POZOR") && KeyValueAt(t)
    ensures ClassifyTrimmed(t).KeyValue?
  {
    assert t[..5] == "POZOR";
    assert t[0] == t[..5][0] == 'P';
    assert !IsBulletMark(t[0]) && Digits(t) == 0;
    assert ClassifyTrimmed(t) == ClassifyText(t);
    ClassifyKeyValue(t);
  }

  /** The lines of a section's text, each classified, in order. */
  function RenderContent(content: string): (r: seq<LineKind>)
    ensures |r| == |Split(content, '\n')|
  {
    var lines := Split(content, '\n');
    seq(|lines|, i requires 0 <= i < |lines| => Classify(lines[i]))
  }

  /** A text made of lines joined by line breaks shows exactly those lines. */
  lemma RenderJoinedLines(lines: seq<string>)
    requires |lines| >= 1
    requires forall i :: 0 <= i < |lines| ==> '\n' !in lines[i]
    ensures var r := RenderContent(Join(lines, "\n"));
      |r| == |lines| && forall i :: 0 <= i < |lines| ==> r[i] == Classify(lines[i])
  {
    SplitJoin(lines, '\n');
  }

  // ------------------------------------------------------------ highlighting

  /** A piece of highlighted text: matched pieces are marked. */
  datatype Piece = Piece(text: string, marked: bool)

  /**
   * The query occurs at `i`, characters compared after `fold` (lower-casing
   * for the page's case-insensitive search).
   */
  predicate MatchAt(t: string, q: string, i: nat, fold: char -> char)
  {
    i + |q| <= |t| && forall j {:trigger CharMatch(t, q, i, j, fold)} :: 0 <= j < |q| ==> CharMatch(t, q, i, j, fold)
  }

  /** The query's character `j` against the text's character `i + j`. */
  predicate CharMatch(t: string, q: string, i: nat, j: nat, fold: char -> char)
    requires i + j < |t| && j < |q|
  {
    fold(t[i + j]) == fold(q[j])
  }

  /** The first match at or after `from`, or -1. */
  function FirstMatch(t: string, q: string, from: nat, fold: char -> char): (r: int)
    ensures r == -1 || (from <= r && MatchAt(t, q, r, fold))
    decreases |t| - from
  {
    if from + |q| > |t| then -1
    else if MatchAt(t, q, from, fold) then from
    else FirstMatch(t, q, from + 1, fold)
  }

  /** No match starts between `from` and the first match. */
  lemma {:induction false} FirstMatchIsFirst(t: string, q: string, from: nat, fold: char -> char, k: nat)
    requires from <= k && (FirstMatch(t, q, from, fold) == -1 || k < FirstMatch(t, q, from, fold))
    ensures !MatchAt(t, q, k, fold)
    decreases |t| - from
  {
    if from + |q| <= |t| && !MatchAt(t, q, from, fold) && from < k {
      FirstMatchIsFirst(t, q, from + 1, fold, k);
    }
  }

  /** `text.split(/(query)/gi)`: the text between matches and the matches, alternately. */
  function Pieces(t: string, q: string, fold: char -> char): (r: seq<Piece>)
    requires q != ""
    decreases |t|
  {
    var i := FirstMatch(t, q, 0, fold);
    if i < 0 then [Piece(t, false)]
    else [Piece(t[..i], false), Piece(t[i..i + |q|], true)] + Pieces(t[i + |q|..], q, fold)
  }

  /** `highlightText`: the text unchanged for an empty query, else split into marked and unmarked pieces. */
  function Highlight(text: string, query: string): seq<Piece>
  {
    if query == "" then [Piece(text, false)] else Pieces(text, query, LowerChar)
  }

  /** The pieces' texts, concatenated. */
  function Texts(ps: seq<Piece>): string
  {
    if ps == [] then "" else ps[0].text + Texts(ps[1..])
  }

  /** With a match, the text before it, the match, then the pieces of the rest. */
  lemma PiecesMatch(t: string, q: string, fold: char -> char)
    requires q != "" && FirstMatch(t, q, 0, fold) >= 0
    ensures var i := FirstMatch(t, q, 0, fold);
      Pieces(t, q, fold) == [Piece(t[..i], false), Piece(t[i..i + |q|], true)] + Pieces(t[i + |q|..], q, fold)
  {
  }

  lemma TextsTwo(a: Piece, b: Piece, rest: seq<Piece>)
    ensures Texts([a, b] + rest) == a.text + b.text + Texts(rest)
  {
    assert ([a, b] + rest)[1..] == [b] + rest;
    assert ([b] + rest)[1..] == rest;
  }

  /** The pieces spell the text. */
  lemma {:induction false} PiecesKeepText(t: string, q: string, fold: char -> char)
    requires q != ""
    ensures Texts(Pieces(t, q, fold)) == t
    decreases |t|
  {
    var i := FirstMatch(t, q, 0, fold);
    if i >= 0 {
      var rest := t[i + |q|..];
      PiecesMatch(t, q, fold);
      TextsTwo(Piece(t[..i], false), Piece(t[i..i + |q|], true), Pieces(rest, q, fold));
      PiecesKeepText(rest, q, fold);
      SliceThree(t, i, i + |q|);
    } else {
      assert Texts(Pieces(t, q, fold)) == t + Texts([]);
    }
  }

  lemma SliceThree(t: string, i: nat, k: nat)
    requires i <= k <= |t|
    ensures t == t[..i] + t[i..k] + t[k..]
  {
  }

  /** Highlighting changes no character: the pieces spell the text. */
  lemma HighlightKeepsText(text: string, query: string)
    ensures Texts(Highlight(text, query)) == text
  {
    if query != "" {
      PiecesKeepText(text, query, LowerChar);
    } else {
      assert Texts(Highlight(text, query)) == text + Texts([]);
    }
  }

  /** Without a match, the whole text as one unmarked piece. */
  lemma PiecesNoMatch(t: string, q: string, fold: char -> char)
    requires q != "" && FirstMatch(t, q, 0, fold) < 0
    ensures Pieces(t, q, fold) == [Piece(t, false)]
  {
  }

  /** After the first text and match, the pieces of the rest follow. */
  lemma PiecesAfter(t: string, q: string, fold: char -> char, j: nat)
    requires q != "" && FirstMatch(t, q, 0, fold) >= 0 && 2 <= j < |Pieces(t, q, fold)|
    ensures var rest := Pieces(t[FirstMatch(t, q, 0, fold) + |q|..], q, fold);
      j - 2 < |rest| && Pieces(t, q, fold)[j] == rest[j - 2]
  {
    PiecesMatch(t, q, fold);
  }

  /** Pieces alternate: the odd ones are the matches. */
  lemma {:induction false} PiecesParity(t: string, q: string, fold: char -> char, j: nat)
    requires q != "" && j < |Pieces(t, q, fold)|
    ensures Pieces(t, q, fold)[j].marked <==> j % 2 == 1
    decreases |t|
  {
    var i := FirstMatch(t, q, 0, fold);
    if i < 0 {
      PiecesNoMatch(t, q, fold);
      assert j == 0;
    } else if j == 0 {
      PiecesMatch(t, q, fold);
    } else if j == 1 {
      PiecesMatch(t, q, fold);
    } else {
      PiecesAfter(t, q, fold, j);
      PiecesParity(t[i + |q|..], q, fold, j - 2);
      ParityStep(j);
    }
  }

  lemma ParityStep(j: nat)
    requires j >= 2
    ensures (j - 2) % 2 == j % 2
  {
  }

  /** A marked piece is the query, up to `fold`. */
  lemma {:induction false} PiecesMarkedMatch(t: string, q: string, fold: char -> char, j: nat)
    requires q != "" && j < |Pieces(t, q, fold)| && Pieces(t, q, fold)[j].marked
    ensures var p := Pieces(t, q, fold)[j].text;
      |p| == |q| && forall x :: 0 <= x < |q| ==> fold(p[x]) == fold(q[x])
    decreases |t|
  {
    var i := FirstMatch(t, q, 0, fold);
    if i < 0 {
      PiecesNoMatch(t, q, fold);
    } else if j < 2 {
      PiecesMatch(t, q, fold);
      MatchedText(t, q, i, fold);
    } else {
      PiecesAfter(t, q, fold, j);
      PiecesMarkedMatch(t[i + |q|..], q, fold, j - 2);
    }
  }

  /** The text of a match is the query, up to `fold`. */
  lemma MatchedText(t: string, q: string, i: nat, fold: char -> char)
    requires MatchAt(t, q, i, fold)
    ensures var m := t[i..i + |q|];
      |m| == |q| && forall x :: 0 <= x < |q| ==> fold(m[x]) == fold(q[x])
  {
    var m := t[i..i + |q|];
    forall x | 0 <= x < |q| ensures fold(m[x]) == fold(q[x]) {
      assert CharMatch(t, q, i, x, fold);
    }
  }

  /** A highlighted piece is the query, ignoring case. */
  lemma HighlightMarksQuery(text: string, query: string, j: nat)
    requires j < |Highlight(text, query)| && Highlight(text, query)[j].marked
    ensures Lower(Highlight(text, query)[j].text) == Lower(query)
  {
    PiecesMarkedMatch(text, query, LowerChar, j);
  }

  /** The text before the first match holds no match. */
  lemma BeforeFirstMatch(t: string, q: string, fold: char -> char, k: nat)
    requires q != "" && FirstMatch(t, q, 0, fold) >= 0
    ensures !MatchAt(t[..FirstMatch(t, q, 0, fold)], q, k, fold)
  {
    var i := FirstMatch(t, q, 0, fold);
    var pre := t[..i];
    if MatchAt(pre, q, k, fold) {
      forall m | 0 <= m < |q| ensures CharMatch(t, q, k, m, fold) {
        assert CharMatch(pre, q, k, m, fold);
      }
      FirstMatchIsFirst(t, q, 0, fold, k);
      assert false;
    }
  }

  /** An unmarked piece holds no match, so only the matches are highlighted. */
  lemma {:induction false} PiecesPlainNoMatch(t: string, q: string, fold: char -> char, j: nat, k: nat)
    requires q != "" && j < |Pieces(t, q, fold)| && !Pieces(t, q, fold)[j].marked
    ensures !MatchAt(Pieces(t, q, fold)[j].text, q, k, fold)
    decreases |t|
  {
    var i := FirstMatch(t, q, 0, fold);
    var p := Pieces(t, q, fold)[j].text;
    if i < 0 {
      PiecesNoMatch(t, q, fold);
      assert p == t;
      FirstMatchIsFirst(t, q, 0, fold, k);
    } else if j < 2 {
      PiecesMatch(t, q, fold);
      assert j == 0;
      assert p == t[..i];
      BeforeFirstMatch(t, q, fold, k);
    } else {
      var rest := t[i + |q|..];
      PiecesAfter(t, q, fold, j);
      assert p == Pieces(rest, q, fold)[j - 2].text;
      PiecesPlainNoMatch(rest, q, fold, j - 2, k);
    }
  }

  // --------------------------------------------------------- section lookup

  /** `manual.flatMap(ch => ch.sections)`. */
  function AllSections(manual: seq<Chapter>): seq<Section>
  {
    if manual == [] then [] else manual[0].sections + AllSections(manual[1..])
  }

  /** `ch.sections.some(s => s.id === id)`. */
  predicate HasSection(ch: Chapter, id: string)
  {
    exists k :: 0 <= k < |ch.sections| && ch.sections[k].id == id
  }

  /** `selectedContent`: the first section of the whole manual with the selected id; none when nothing is selected. */
  function SelectedContent(manual: seq<Chapter>, selected: Option<string>): Option<Section>
  {
    if selected.None? then None else Find(AllSections(manual), (s: Section) => s.id == selected.value)
  }

  /** `selectedChapter`: the first chapter holding the selected id. */
  function SelectedChapter(manual: seq<Chapter>, selected: Option<string>): Option<Chapter>
  {
    if selected.None? then None else Find(manual, (ch: Chapter) => HasSection(ch, selected.value))
  }

  /** `find` over two lists: the first list's element when it has one, else the second list's. */
  lemma {:induction false} FindAppend<T>(a: seq<T>, b: seq<T>, p: T -> bool)
    ensures Find(a + b, p) == if Find(a, p).Some? then Find(a, p) else Find(b, p)
    decreases |a|
  {
    if a != [] {
      FindAppend(a[1..], b, p);
      assert (a + b)[1..] == a[1..] + b;
      assert (a + b)[0] == a[0];
    } else {
      assert a + b == b;
    }
  }

  /** The selected section is found exactly when its chapter is, and the chapter holds it. */
  lemma {:induction false} LookupAgrees(manual: seq<Chapter>, id: string)
    ensures SelectedContent(manual, Some(id)).Some? <==> SelectedChapter(manual, Some(id)).Some?
    ensures SelectedContent(manual, Some(id)).Some? ==>
      SelectedContent(manual, Some(id)).value.id == id
      && SelectedContent(manual, Some(id)).value in SelectedChapter(manual, Some(id)).value.sections
    decreases |manual|
  {
    var p := (s: Section) => s.id == id;
    var q := (ch: Chapter) => HasSection(ch, id);
    if manual != [] {
      var first := manual[0];
      FindAppend(first.sections, AllSections(manual[1..]), p);
      LookupAgrees(manual[1..], id);
      assert manual[1..] == manual[1..];
      if Find(first.sections, p).Some? {
        assert HasSection(first, id) by {
          assert p(first.sections[FindIndex(first.sections, p)]);
        }
        assert Find(manual, q) == Some(first);
      } else {
        assert !HasSection(first, id) by {
          forall k | 0 <= k < |first.sections| ensures first.sections[k].id != id {
            assert !p(first.sections[k]);
          }
        }
        assert FindIndex(manual, q) == if FindIndex(manual[1..], q) == -1 then -1 else FindIndex(manual[1..], q) + 1;
      }
    } else {
      assert AllSections(manual) == [];
    }
  }

  /** `showContent`: a selected id that is not empty and whose section is found. */
  predicate ShowContent(manual: seq<Chapter>, selected: Option<string>)
  {
    TruthyText(selected) && SelectedContent(manual, selected).Some?
  }
}
