// A label fits the box its layout gives it: the rule check holds every node but a
// decision to (ui/src/diagramCheck.ts), from boxWidth, lay and wrap.
module FlowLabels {
  import opened Text
  import opened DiagramTheme
  import opened Flow

  /** A label as it is cleaned: its only white space is spaces and line breaks. */
  predicate Cleaned(text: string) {
    forall i :: 0 <= i < |text| && IsSpace(text[i]) ==> text[i] == ' ' || text[i] == '\n'
  }

  /** The words wrapping breaks some paragraphs between. */
  function AllWords(paras: seq<string>): seq<string> {
    if paras == [] then [] else Split(paras[0], ' ') + AllWords(paras[1..])
  }

  /** They are the runs the box is made wide enough for. */
  lemma {:induction false} WordsAreRuns(text: string)
    requires Cleaned(text)
    ensures AllWords(Split(text, '\n')) == Words(text)
  {
    if text == "" {
      assert [""][1..] == [];
      assert AllWords([""]) == Split("", ' ') + AllWords([]);
    } else {
      var c, rest, paras := text[0], text[1..], Split(text[1..], '\n');
      assert Cleaned(rest) by {
        assert forall i :: 0 <= i < |rest| ==> rest[i] == text[i + 1];
      }
      WordsAreRuns(rest);
      if c == '\n' {
        assert ([""] + paras)[1..] == paras;
        assert AllWords([""] + paras) == [""] + AllWords(paras);
      } else {
        FirstParagraph(c, paras);
      }
    }
  }

  /** A character put before the first paragraph. */
  lemma FirstParagraph(c: char, paras: seq<string>)
    requires paras != []
    ensures var words := AllWords(paras);
            && words != []
            && AllWords([[c] + paras[0]] + paras[1..])
               == if c == ' ' then [""] + words else [[c] + words[0]] + words[1..]
  {
    hide AllWords, Split;
    var first, tail := [c] + paras[0], paras[1..];
    SplitFirst(c, paras[0]);
    AllWordsAre(paras[0], tail);
    AllWordsAre(first, tail);
    assert paras == [paras[0]] + tail;
    var words, rest := Split(paras[0], ' '), AllWords(tail);
    assert AllWords(paras) == words + rest;
    if c == ' ' {
      assert [""] + words + rest == [""] + (words + rest);
    } else {
      assert (words + rest)[0] == words[0] && (words + rest)[1..] == words[1..] + rest;
    }
  }

  lemma SplitFirst(c: char, para: string)
    ensures var words := Split(para, ' ');
            Split([c] + para, ' ') == if c == ' ' then [""] + words else [[c] + words[0]] + words[1..]
  {
    assert ([c] + para)[1..] == para;
  }

  lemma AllWordsAre(para: string, tail: seq<string>)
    ensures AllWords([para] + tail) == Split(para, ' ') + AllWords(tail)
  {
    assert ([para] + tail)[1..] == tail;
  }

  predicate WithinAll(adv: Advance, lines: seq<string>, room: real, size: Size, face: Face) {
    forall i :: 0 <= i < |lines| ==> TextWidth(adv, lines[i], size, face) <= room
  }

  lemma {:induction false} FillWithin(adv: Advance, line: string, words: seq<string>, room: real, size: Size,
                                      face: Face)
    requires TextWidth(adv, line, size, face) <= room && WithinAll(adv, words, room, size, face)
    ensures WithinAll(adv, Fill(adv, line, words, room, size, face), room, size, face)
    decreases |words|
  {
    hide TextWidth;
    if words != [] {
      var next := if line == "" then words[0] else line + " " + words[0];
      if line != "" && TextWidth(adv, next, size, face) > room {
        FillWithin(adv, words[0], words[1..], room, size, face);
      } else {
        FillWithin(adv, next, words[1..], room, size, face);
      }
    }
  }

  /** With room for every word, no line is wider than the room. */
  lemma {:induction false} WrapWithin(adv: Advance, paras: seq<string>, room: real, size: Size, face: Face)
    requires room >= 0.0 && WithinAll(adv, AllWords(paras), room, size, face)
    ensures WithinAll(adv, WrapAll(adv, paras, room, size, face), room, size, face)
  {
    if paras != [] {
      var words, rest := Split(paras[0], ' '), AllWords(paras[1..]);
      assert forall i :: 0 <= i < |words| ==> words[i] == (words + rest)[i];
      assert forall i :: 0 <= i < |rest| ==> rest[i] == (words + rest)[|words| + i];
      NothingWide(adv, size, face);
      hide TextWidth;
      FillWithin(adv, "", words, room, size, face);
      WrapWithin(adv, paras[1..], room, size, face);
    }
  }

  lemma NothingWide(adv: Advance, size: Size, face: Face)
    ensures TextWidth(adv, "", size, face) == 0.0
  {
  }

  lemma {:induction false} LongestOfAll(fonts: Fonts, nodes: seq<FlowNode>, i: nat)
    requires i < |nodes|
    ensures var s := StyleOf(fonts, nodes[i]);
            WidestRun(fonts.adv, Words(nodes[i].text), s.size, s.face) <= LongestWord(fonts, nodes)
  {
    hide WidestRun, Words, StyleOf;
    if i > 0 {
      LongestOfAll(fonts, nodes[1..], i - 1);
    }
  }

  lemma RoundedUp(v: real)
    ensures v <= UpTo(v, 8) as real
  {
  }

  /** Whatever the bounds asked for, every line of a label fits the width its boxes
      share, less the padding on both sides. */
  lemma LabelFits(fonts: Fonts, nodes: seq<FlowNode>, i: nat, min: int, max: int)
    requires min <= max && i < |nodes| && Cleaned(nodes[i].text)
    ensures var w, s := BoxWidth(fonts, nodes, min, max), StyleOf(fonts, nodes[i]);
            WithinAll(fonts.adv, NodeLines(fonts, nodes[i], w), w as real - 2.0 * PAD_X, s.size, s.face)
  {
    hide WidestRun, LongestWord, WidestLabel, WithinAll, Words, WrapAll, Split, AllWords, StyleOf;
    var w, s, text := BoxWidth(fonts, nodes, min, max), StyleOf(fonts, nodes[i]), nodes[i].text;
    var room := w as real - 2.0 * PAD_X;
    var longest := LongestWord(fonts, nodes);
    LongestOfAll(fonts, nodes, i);
    RoundedUp(longest + 2.0 * PAD_X);
    assert longest <= room;
    WordsAreRuns(text);
    RunsWithin(fonts.adv, Words(text), room, s.size, s.face);
    WrapWithin(fonts.adv, Split(text, '\n'), room, s.size, s.face);
  }

  lemma RunsWithin(adv: Advance, runs: seq<string>, room: real, size: Size, face: Face)
    requires WidestRun(adv, runs, size, face) <= room
    ensures WithinAll(adv, runs, room, size, face)
  {
    forall i | 0 <= i < |runs| ensures TextWidth(adv, runs[i], size, face) <= room {
      assert runs[i] in runs;
    }
  }

  // ---- a word no wrap shortens ----

  predicate OneWord(text: string) {
    ' ' !in text && '\n' !in text
  }

  /** A word stays on one line, however little room it has. */
  lemma WordStays(adv: Advance, text: string, room: real, size: Size, face: Face)
    requires OneWord(text)
    ensures Wrapped(adv, text, room, size, face) == [text]
  {
    assert Join([text], ['\n']) == text && Join([text], [' ']) == text;
    SplitJoin([text], '\n');
    SplitJoin([text], ' ');
    assert [text][1..] == [];
    assert Fill(adv, "", [text], room, size, face) == [text];
    assert WrapAll(adv, [], room, size, face) == [];
  }
}
