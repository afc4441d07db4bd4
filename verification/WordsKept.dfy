// Wrapping loses nothing: any text's words stand in its lines in order, and no line holds
// words of two paragraphs (wrap, ui/src/diagramTheme.ts).
module WordsKept {
  import opened Text
  import opened DiagramTheme
  import opened FlowLabels

  /** The words that are not empty. */
  function Solid(words: seq<string>): seq<string> {
    if words == [] then [] else (if words[0] == "" then [] else [words[0]]) + Solid(words[1..])
  }

  lemma {:induction false} SolidConcat(a: seq<string>, b: seq<string>)
    ensures Solid(a + b) == Solid(a) + Solid(b)
  {
    if a == [] {
      assert a + b == b;
    } else {
      assert (a + b)[1..] == a[1..] + b;
      SolidConcat(a[1..], b);
    }
  }

  lemma {:induction false} SplitAppended(line: string, word: string)
    requires ' ' !in word
    ensures Split(line + " " + word, ' ') == Split(line, ' ') + [word]
  {
    var all := line + " " + word;
    if line == "" {
      assert all[1..] == word;
      OneWordSplit(word);
    } else {
      assert all[1..] == line[1..] + " " + word;
      SplitAppended(line[1..], word);
    }
  }

  lemma OneWordSplit(word: string)
    requires ' ' !in word
    ensures Split(word, ' ') == [word]
  {
    assert Join([word], [' ']) == word;
    SplitJoin([word], ' ');
  }

  lemma OneLine(line: string)
    ensures AllWords([line]) == Split(line, ' ')
  {
    AllWordsAre(line, []);
    assert [line] + [] == [line];
  }

  predicate Unspaced(words: seq<string>) {
    forall i :: 0 <= i < |words| ==> ' ' !in words[i]
  }

  lemma {:induction false} FillKeeps(adv: Advance, line: string, words: seq<string>, max: real, size: Size, face: Face)
    requires Unspaced(words)
    ensures Solid(AllWords(Fill(adv, line, words, max, size, face))) == Solid(Split(line, ' ')) + Solid(words)
    decreases |words|
  {
    hide TextWidth, AllWords, Split;
    if words == [] {
      OneLine(line);
    } else {
      var w, rest := words[0], words[1..];
      assert words == [w] + rest;
      SolidConcat([w], rest);
      OneWordSplit(w);
      var next := if line == "" then w else line + " " + w;
      if line != "" && TextWidth(adv, next, size, face) > max {
        FillKeeps(adv, w, rest, max, size, face);
        AllWordsAre(line, Fill(adv, w, rest, max, size, face));
        SolidConcat(Split(line, ' '), AllWords(Fill(adv, w, rest, max, size, face)));
      } else {
        FillKeeps(adv, next, rest, max, size, face);
        if line == "" {
          EmptySplit();
        } else {
          SplitAppended(line, w);
          SolidConcat(Split(line, ' '), [w]);
        }
      }
    }
  }

  lemma EmptySplit()
    ensures Split("", ' ') == [""] && Solid([""]) == []
  {
    assert [""][1..] == [];
  }

  function Flat(groups: seq<seq<string>>): seq<string> {
    if groups == [] then [] else groups[0] + Flat(groups[1..])
  }

  /** Some lines hold a paragraph's words, all of them in order. */
  predicate HoldsPara(lines: seq<string>, para: string) {
    lines != [] && Solid(AllWords(lines)) == Solid(Split(para, ' '))
  }

  lemma {:induction false} AllKept(adv: Advance, paras: seq<string>, max: real, size: Size, face: Face)
      returns (groups: seq<seq<string>>)
    ensures |groups| == |paras| && Flat(groups) == WrapAll(adv, paras, max, size, face)
    ensures forall i :: 0 <= i < |paras| ==> HoldsPara(groups[i], paras[i])
  {
    hide Fill, Split, AllWords, Solid;
    if paras == [] {
      groups := [];
    } else {
      var rest := AllKept(adv, paras[1..], max, size, face);
      var first := WrapParagraph(adv, paras[0], max, size, face);
      ParaKept(adv, paras[0], max, size, face);
      groups := [first] + rest;
      assert groups[1..] == rest;
    }
  }

  lemma ParaKept(adv: Advance, para: string, max: real, size: Size, face: Face)
    ensures HoldsPara(WrapParagraph(adv, para, max, size, face), para)
  {
    hide Fill, AllWords, Split;
    JoinSplit(para, ' ');
    assert Unspaced(Split(para, ' ')) by {
      forall i | 0 <= i < |Split(para, ' ')| ensures ' ' !in Split(para, ' ')[i] {
        assert Split(para, ' ')[i] in Split(para, ' ');
      }
    }
    FillKeeps(adv, "", Split(para, ' '), max, size, face);
    EmptySplit();
  }

  /** Whatever the spacing of a text, its lines fall into as many runs as it has paragraphs,
      each run holding that paragraph's words in order and nothing else. */
  lemma WrapKeepsWords(adv: Advance, text: string, max: real, size: Size, face: Face)
      returns (groups: seq<seq<string>>)
    ensures |groups| == |Split(text, '\n')| && Flat(groups) == Wrapped(adv, text, max, size, face)
    ensures forall i :: 0 <= i < |groups| ==> HoldsPara(groups[i], Split(text, '\n')[i])
  {
    groups := AllKept(adv, Split(text, '\n'), max, size, face);
  }

  // ---- a text with room for each paragraph ----

  lemma {:induction false} FillOne(adv: Advance, line: string, words: seq<string>, max: real, size: Size, face: Face)
    requires words != [] ==> TextWidth(adv, line + " " + Join(words, " "), size, face) <= max
    ensures |Fill(adv, line, words, max, size, face)| == 1
    decreases |words|
  {
    hide TextWidth;
    if words != [] {
      var w, rest := words[0], words[1..];
      var next := if line == "" then w else line + " " + w;
      WholeWider(adv, line, words, max, size, face);
      FillOne(adv, next, rest, max, size, face);
    }
  }

  /** The line with one word more is no wider than with them all. */
  lemma WholeWider(adv: Advance, line: string, words: seq<string>, max: real, size: Size, face: Face)
    requires words != [] && TextWidth(adv, line + " " + Join(words, " "), size, face) <= max
    ensures var next := if line == "" then words[0] else line + " " + words[0];
            && TextWidth(adv, next, size, face) <= max
            && (|words| > 1 ==> TextWidth(adv, next + " " + Join(words[1..], " "), size, face) <= max)
  {
    hide TextWidth, Em;
    var w, rest := words[0], words[1..];
    var after := if rest == [] then "" else " " + Join(rest, " ");
    assert Join(words, " ") == w + after;
    hide Join;
    Associates(line, w, after);
    var next := if line == "" then w else line + " " + w;
    if line == "" {
      Spaced(w, after);
      Narrower(adv, " ", w + after, size, face);
    }
    Narrower(adv, next, after, size, face);
    if rest != [] {
      Regrouped(next, Join(rest, " "));
    }
  }

  lemma Spaced(w: string, after: string)
    ensures "" + " " + (w + after) == " " + (w + after)
  {
  }

  lemma Regrouped(next: string, tail: string)
    ensures next + " " + tail == next + (" " + tail)
  {
  }

  lemma Associates(line: string, w: string, after: string)
    ensures line + " " + (w + after) == (line + " " + w) + after
  {
  }

  lemma Narrower(adv: Advance, a: string, b: string, size: Size, face: Face)
    ensures TextWidth(adv, a, size, face) <= TextWidth(adv, a + b, size, face)
    ensures TextWidth(adv, b, size, face) <= TextWidth(adv, a + b, size, face)
  {
    TextWidthConcat(adv, a, b, size, face);
    hide Em;
  }

  /** A paragraph no wider than the room stays on one line. */
  lemma ParaOneLine(adv: Advance, para: string, max: real, size: Size, face: Face)
    requires TextWidth(adv, para, size, face) <= max
    ensures |WrapParagraph(adv, para, max, size, face)| == 1
  {
    hide TextWidth;
    var words := Split(para, ' ');
    JoinSplit(para, ' ');
    assert Join(words, " ") == para;
    var w, rest := words[0], words[1..];
    if rest != [] {
      assert para == w + " " + Join(rest, " ");
      FillOne(adv, w, rest, max, size, face);
    }
    assert Fill(adv, "", words, max, size, face) == Fill(adv, w, rest, max, size, face);
  }

  lemma {:induction false} AllOneLine(adv: Advance, paras: seq<string>, max: real, size: Size, face: Face)
    requires forall i :: 0 <= i < |paras| ==> TextWidth(adv, paras[i], size, face) <= max
    ensures |WrapAll(adv, paras, max, size, face)| == |paras|
  {
    hide TextWidth, WrapParagraph;
    if paras != [] {
      ParaOneLine(adv, paras[0], max, size, face);
      AllOneLine(adv, paras[1..], max, size, face);
    }
  }
}
