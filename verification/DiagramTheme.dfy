// The text measure and the greedy line breaking of ui/src/diagramTheme.ts.
module DiagramTheme {
  import opened Text

  datatype Face = Sans | Mono

  /** The advance of one character in em, at a face: any table of
      non-negative advances. */
  type Advance = f: (char, Face) -> real | forall c: char, face: Face :: 0.0 <= f(c, face)
    ghost witness (c: char, face: Face) => 0.6

  /** Type sizes: a size in px, above zero. */
  type Size = r: real | 0.0 < r witness 1.0

  /** ramp: the sizes a label is set in. */
  const RAMP_TEXT: Size := 13.0
  const RAMP_BOLD: Size := 13.5
  const RAMP_CODE: Size := 12.0
  const RAMP_LABEL: Size := 11.5
  const LINE_HEIGHT := 18.0

  function Em(adv: Advance, s: string, face: Face): (em: real)
    ensures em >= 0.0
  {
    if s == "" then 0.0 else Em(adv, s[..|s| - 1], face) + adv(s[|s| - 1], face)
  }

  function TextWidth(adv: Advance, s: string, size: Size, face: Face): (w: real)
    ensures w >= 0.0
  {
    Em(adv, s, face) * size
  }

  method MeasureText(adv: Advance, s: string, size: Size, face: Face) returns (w: real)
    ensures w == TextWidth(adv, s, size, face)
  {
    var em := 0.0;
    for i := 0 to |s|
      invariant em == Em(adv, s[..i], face)
    {
      assert s[..i + 1][..i] == s[..i];
      em := em + adv(s[i], face);
    }
    assert s[..|s|] == s;
    w := em * size;
  }

  lemma {:induction false} EmConcat(adv: Advance, a: string, b: string, face: Face)
    ensures Em(adv, a + b, face) == Em(adv, a, face) + Em(adv, b, face)
  {
    if b == "" {
      assert a + b == a;
    } else {
      EmConcat(adv, a, b[..|b| - 1], face);
      assert (a + b)[..|a + b| - 1] == a + b[..|b| - 1];
    }
  }

  lemma Distribute(x: real, y: real, z: real)
    ensures (x + y) * z == x * z + y * z
  {
  }

  /** The measure is additive. */
  lemma TextWidthConcat(adv: Advance, a: string, b: string, size: Size, face: Face)
    ensures TextWidth(adv, a + b, size, face) == TextWidth(adv, a, size, face) + TextWidth(adv, b, size, face)
  {
    hide Em;
    EmConcat(adv, a, b, face);
    Distribute(Em(adv, a, face), Em(adv, b, face), size);
  }

  // ---- line breaking ----

  /** The lines still to come of one paragraph: `line` is being filled, `words` are
      left to place. */
  function Fill(adv: Advance, line: string, words: seq<string>, max: real, size: Size, face: Face): (out: seq<string>)
    ensures |out| >= 1
    decreases |words|
  {
    if words == [] then [line]
    else
      var next := if line == "" then words[0] else line + " " + words[0];
      if line != "" && TextWidth(adv, next, size, face) > max
      then [line] + Fill(adv, words[0], words[1..], max, size, face)
      else Fill(adv, next, words[1..], max, size, face)
  }

  function WrapParagraph(adv: Advance, para: string, max: real, size: Size, face: Face): (out: seq<string>)
    ensures |out| >= 1
  {
    Fill(adv, "", Split(para, ' '), max, size, face)
  }

  function WrapAll(adv: Advance, paras: seq<string>, max: real, size: Size, face: Face): (out: seq<string>)
    ensures |out| >= |paras|
  {
    if paras == [] then []
    else WrapParagraph(adv, paras[0], max, size, face) + WrapAll(adv, paras[1..], max, size, face)
  }

  function Wrapped(adv: Advance, s: string, max: real, size: Size, face: Face): (out: seq<string>)
    ensures |out| >= 1
  {
    WrapAll(adv, Split(s, '\n'), max, size, face)
  }

  lemma Regroup(a: seq<string>, b: seq<string>, c: seq<string>)
    ensures a + b + c == a + (b + c)
  {
  }

  method Wrap(adv: Advance, s: string, max: real, size: Size, face: Face) returns (out: seq<string>)
    ensures out == Wrapped(adv, s, max, size, face)
  {
    out := [];
    var paras := Split(s, '\n');
    assert paras[0..] == paras;
    for p := 0 to |paras|
      invariant out + WrapAll(adv, paras[p..], max, size, face) == Wrapped(adv, s, max, size, face)
    {
      ghost var before := out;
      ghost var rest := WrapAll(adv, paras[p + 1..], max, size, face);
      assert paras[p..][1..] == paras[p + 1..];
      Regroup(before, WrapParagraph(adv, paras[p], max, size, face), rest);
      assert Wrapped(adv, s, max, size, face) == before + WrapParagraph(adv, paras[p], max, size, face) + rest;
      var line := "";
      var words := Split(paras[p], ' ');
      assert words[0..] == words;
      for i := 0 to |words|
        invariant out + Fill(adv, line, words[i..], max, size, face)
               == before + WrapParagraph(adv, paras[p], max, size, face)
      {
        assert words[i..][0] == words[i] && words[i..][1..] == words[i + 1..];
        var next := if line == "" then words[i] else line + " " + words[i];
        var w := MeasureText(adv, next, size, face);
        if line != "" && w > max {
          Regroup(out, [line], Fill(adv, words[i], words[i + 1..], max, size, face));
          out := out + [line];
          line := words[i];
        } else {
          line := next;
        }
      }
      out := out + [line];
    }
  }

  // ---- what greedy breaking achieves ----

  /** A paragraph with one space between words and none at its ends; the
      empty paragraph is one. */
  predicate SingleSpaced(para: string) {
    para == "" || forall w <- Split(para, ' ') :: w != ""
  }

  /** words[i..j] may stand on one line: within max, or one word. */
  predicate Fits(adv: Advance, words: seq<string>, i: nat, j: nat, max: real, size: Size, face: Face) {
    i < j <= |words| && (j == i + 1 || TextWidth(adv, Join(words[i..j], " "), size, face) <= max)
  }

  /** ends cuts words[i..] into lines that fit, each named by where it ends. */
  predicate Breaks(adv: Advance, words: seq<string>, i: nat, ends: seq<nat>, max: real, size: Size, face: Face)
    requires i <= |words|
    decreases |ends|
  {
    if ends == [] then i == |words|
    else Fits(adv, words, i, ends[0], max, size, face) && Breaks(adv, words, ends[0], ends[1..], max, size, face)
  }

  /** The text of the lines ends names. */
  function LinesOf(words: seq<string>, i: nat, ends: seq<nat>): seq<string>
    decreases |ends|
  {
    if ends == [] then []
    else if i <= ends[0] <= |words| then [Join(words[i..ends[0]], " ")] + LinesOf(words, ends[0], ends[1..])
    else []
  }

  /** lines is a break of words into lines that fit. */
  ghost predicate IsBreak(adv: Advance, words: seq<string>, lines: seq<string>, max: real, size: Size, face: Face) {
    exists ends :: Breaks(adv, words, 0, ends, max, size, face) && LinesOf(words, 0, ends) == lines
  }

  lemma FitsNarrower(adv: Advance, words: seq<string>, i: nat, j: nat, i': nat, j': nat, max: real, size: Size,
                     face: Face)
    requires i <= i' < j' <= j <= |words|
    requires Fits(adv, words, i, j, max, size, face)
    ensures Fits(adv, words, i', j', max, size, face)
  {
    var whole, part := words[i..j], words[i'..j'];
    if i < i' {
      assert whole == words[i..i'] + words[i'..j];
      JoinConcat(words[i..i'], words[i'..j], " ");
      TextWidthConcat(adv, Join(words[i..i'], " ") + " ", Join(words[i'..j], " "), size, face);
    }
    if j' < j {
      assert words[i'..j] == part + words[j'..j];
      JoinConcat(part, words[j'..j], " ");
      TextWidthConcat(adv, Join(part, " "), " " + Join(words[j'..j], " "), size, face);
      assert Join(words[i'..j], " ") == Join(part, " ") + (" " + Join(words[j'..j], " "));
    }
  }

  lemma JoinNonEmpty(words: seq<string>, i: nat, j: nat)
    requires i < j <= |words| && forall w <- words :: w != ""
    ensures Join(words[i..j], " ") != ""
  {
    var part := words[i..j];
    assert part[0] == words[i] && words[i] in words;
    assert |Join(part, " ")| >= |part[0]|;
  }

  /** One step of filling: the line words[i..j] either takes the next word or is
      given up, exactly as Fits says. */
  lemma FillStep(adv: Advance, words: seq<string>, i: nat, j: nat, max: real, size: Size, face: Face)
    requires i < j < |words| && forall w <- words :: w != ""
    ensures Fill(adv, Join(words[i..j], " "), words[j..], max, size, face)
         == if Fits(adv, words, i, j + 1, max, size, face)
            then Fill(adv, Join(words[i..j + 1], " "), words[j + 1..], max, size, face)
            else [Join(words[i..j], " ")] + Fill(adv, Join(words[j..j + 1], " "), words[j + 1..], max, size, face)
  {
    JoinNonEmpty(words, i, j);
    assert words[i..j + 1] == words[i..j] + [words[j]];
    JoinAppend(words[i..j], words[j], " ");
    assert words[j..][0] == words[j] && words[j..][1..] == words[j + 1..];
    assert words[j..j + 1] == [words[j]];
  }

  /** The lines filling produces are a break into lines that fit. */
  lemma {:induction false} FillBreaks(adv: Advance, words: seq<string>, i: nat, j: nat, max: real, size: Size,
                                      face: Face)
    returns (ends: seq<nat>)
    requires Fits(adv, words, i, j, max, size, face) && forall w <- words :: w != ""
    ensures Breaks(adv, words, i, ends, max, size, face)
    ensures LinesOf(words, i, ends) == Fill(adv, Join(words[i..j], " "), words[j..], max, size, face)
    decreases |words| - j
  {
    if j == |words| {
      ends := [j];
    } else {
      FillStep(adv, words, i, j, max, size, face);
      if Fits(adv, words, i, j + 1, max, size, face) {
        ends := FillBreaks(adv, words, i, j + 1, max, size, face);
      } else {
        ends := FillBreaks(adv, words, j, j + 1, max, size, face);
        ends := [j] + ends;
      }
    }
  }

  /** No break starting no later than the line being filled has fewer lines. */
  lemma {:induction false} FillIsFewest(adv: Advance, words: seq<string>, i: nat, j: nat, i0: nat, ends: seq<nat>,
                                        max: real, size: Size, face: Face)
    requires i0 <= i && Fits(adv, words, i, j, max, size, face) && forall w <- words :: w != ""
    requires Breaks(adv, words, i0, ends, max, size, face)
    ensures |Fill(adv, Join(words[i..j], " "), words[j..], max, size, face)| <= |ends|
    decreases |words| - j
  {
    if j < |words| {
      FillStep(adv, words, i, j, max, size, face);
      if Fits(adv, words, i, j + 1, max, size, face) {
        FillIsFewest(adv, words, i, j + 1, i0, ends, max, size, face);
      } else {
        if j + 1 <= ends[0] {
          FitsNarrower(adv, words, i0, ends[0], i, j + 1, max, size, face);
        }
        FillIsFewest(adv, words, j, j + 1, ends[0], ends[1..], max, size, face);
      }
    }
  }

  lemma GreedyIsBreak(adv: Advance, words: seq<string>, max: real, size: Size, face: Face)
    requires words != [] && forall w <- words :: w != ""
    ensures IsBreak(adv, words, Fill(adv, words[0], words[1..], max, size, face), max, size, face)
  {
    assert words[0..1] == [words[0]];
    var greedy := FillBreaks(adv, words, 0, 1, max, size, face);
  }

  /** Wrapping a single-spaced paragraph gives a break at spaces whose lines are
      within max or one word, and no other such break has fewer lines. */
  lemma WrapIsOptimal(adv: Advance, para: string, max: real, size: Size, face: Face)
    requires SingleSpaced(para)
    ensures IsBreak(adv, Split(para, ' '), WrapParagraph(adv, para, max, size, face), max, size, face)
    ensures forall lines :: IsBreak(adv, Split(para, ' '), lines, max, size, face)
                            ==> |WrapParagraph(adv, para, max, size, face)| <= |lines|
  {
    var words := Split(para, ' ');
    if para == "" {
      assert words[0..1] == [""];
      assert Breaks(adv, words, 0, [1], max, size, face);
      assert LinesOf(words, 0, [1]) == [""];
    } else {
      assert words[0..1] == [words[0]] && words[0] in words;
      GreedyIsBreak(adv, words, max, size, face);
    }
    forall lines | IsBreak(adv, words, lines, max, size, face)
      ensures |WrapParagraph(adv, para, max, size, face)| <= |lines|
    {
      var ends :| Breaks(adv, words, 0, ends, max, size, face) && LinesOf(words, 0, ends) == lines;
      LinesOfLength(adv, words, 0, ends, max, size, face);
      if para != "" {
        FillIsFewest(adv, words, 0, 1, 0, ends, max, size, face);
      }
    }
  }

  lemma {:induction false} JoinLines(adv: Advance, words: seq<string>, i: nat, ends: seq<nat>, max: real, size: Size,
                                     face: Face)
    requires i < |words| && Breaks(adv, words, i, ends, max, size, face)
    ensures Join(LinesOf(words, i, ends), " ") == Join(words[i..], " ")
    decreases |ends|
  {
    var j := ends[0];
    if j == |words| {
      assert Breaks(adv, words, j, ends[1..], max, size, face) && ends[1..] == [];
      assert words[i..j] == words[i..];
    } else {
      JoinLines(adv, words, j, ends[1..], max, size, face);
      var rest := LinesOf(words, j, ends[1..]);
      assert rest != [];
      assert LinesOf(words, i, ends)[1..] == rest;
      assert words[i..] == words[i..j] + words[j..];
      JoinConcat(words[i..j], words[j..], " ");
    }
  }

  /** Rejoining the lines of a single-spaced paragraph restores it. */
  lemma RejoinRestores(adv: Advance, para: string, max: real, size: Size, face: Face)
    requires SingleSpaced(para)
    ensures Join(WrapParagraph(adv, para, max, size, face), " ") == para
  {
    var words := Split(para, ' ');
    WrapIsOptimal(adv, para, max, size, face);
    assert IsBreak(adv, words, WrapParagraph(adv, para, max, size, face), max, size, face);
    var ends :| Breaks(adv, words, 0, ends, max, size, face)
                && LinesOf(words, 0, ends) == WrapParagraph(adv, para, max, size, face);
    JoinLines(adv, words, 0, ends, max, size, face);
    JoinSplit(para, ' ');
    assert words[0..] == words;
  }

  lemma {:induction false} BreaksWider(adv: Advance, words: seq<string>, i: nat, ends: seq<nat>, max: real, wider: real,
                                       size: Size, face: Face)
    requires i <= |words| && max <= wider && Breaks(adv, words, i, ends, max, size, face)
    ensures Breaks(adv, words, i, ends, wider, size, face)
    decreases |ends|
  {
    if ends != [] {
      BreaksWider(adv, words, ends[0], ends[1..], max, wider, size, face);
    }
  }

  lemma {:induction false} WiderAll(adv: Advance, paras: seq<string>, max: real, wider: real, size: Size, face: Face)
    requires max <= wider && forall p <- paras :: SingleSpaced(p)
    ensures |WrapAll(adv, paras, wider, size, face)| <= |WrapAll(adv, paras, max, size, face)|
  {
    if paras != [] {
      var words := Split(paras[0], ' ');
      WrapIsOptimal(adv, paras[0], max, size, face);
      WrapIsOptimal(adv, paras[0], wider, size, face);
      var ends :| Breaks(adv, words, 0, ends, max, size, face)
                  && LinesOf(words, 0, ends) == WrapParagraph(adv, paras[0], max, size, face);
      BreaksWider(adv, words, 0, ends, max, wider, size, face);
      assert IsBreak(adv, words, WrapParagraph(adv, paras[0], max, size, face), wider, size, face);
      WiderAll(adv, paras[1..], max, wider, size, face);
    }
  }

  lemma {:induction false} LinesOfLength(adv: Advance, words: seq<string>, i: nat, ends: seq<nat>, max: real,
                                         size: Size, face: Face)
    requires i <= |words| && Breaks(adv, words, i, ends, max, size, face)
    ensures |LinesOf(words, i, ends)| == |ends|
    decreases |ends|
  {
    if ends != [] {
      LinesOfLength(adv, words, ends[0], ends[1..], max, size, face);
    }
  }

  /** A larger max never gives a label more lines. */
  lemma WiderNeverMoreLines(adv: Advance, s: string, max: real, wider: real, size: Size, face: Face)
    requires max <= wider && forall p <- Split(s, '\n') :: SingleSpaced(p)
    ensures |Wrapped(adv, s, wider, size, face)| <= |Wrapped(adv, s, max, size, face)|
  {
    WiderAll(adv, Split(s, '\n'), max, wider, size, face);
  }
}
