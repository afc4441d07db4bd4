// Pastes folded onto a question and peeled back off it (ui/src/pastes.ts).
module Pastes {
  import opened Text

  datatype Pasted = Pasted(text: string, lines: nat)

  const SEP := "\n\n"
  const CHAR_THRESHOLD := 2000
  const LINE_THRESHOLD := 25

  // ---- staging ----

  function IndexFrom(text: string, at: nat): (i: int)
    requires at <= |text|
    ensures i == -1 ==> forall k :: at <= k < |text| ==> text[k] != '\n'
    ensures i != -1 ==> at <= i < |text| && text[i] == '\n' && forall k :: at <= k < i ==> text[k] != '\n'
    decreases |text| - at
  {
    if at == |text| then -1 else if text[at] == '\n' then at else IndexFrom(text, at + 1)
  }

  lemma {:induction false} PlainIsOneLine(text: string)
    requires forall k :: 0 <= k < |text| ==> text[k] != '\n'
    ensures |Split(text, '\n')| == 1
  {
    if text != "" {
      PlainIsOneLine(text[1..]);
    }
  }

  lemma {:induction false} LinesAfter(text: string, i: nat)
    requires i < |text| && text[i] == '\n' && forall k :: 0 <= k < i ==> text[k] != '\n'
    ensures |Split(text, '\n')| == 1 + |Split(text[i + 1..], '\n')|
  {
    if i > 0 {
      LinesAfter(text[1..], i - 1);
      assert text[1..][i..] == text[i + 1..];
    }
  }

  /** Lines, not newlines: as many as splitting at the newlines gives. */
  method CountLines(text: string) returns (n: nat)
    ensures n == |Split(text, '\n')|
  {
    n := 1;
    var i := IndexFrom(text, 0);
    ghost var at: nat := 0;
    assert text[0..] == text;
    while i != -1
      invariant at <= |text| && i == IndexFrom(text, at)
      invariant n - 1 + |Split(text[at..], '\n')| == |Split(text, '\n')|
      decreases |text| - at
    {
      LinesAfter(text[at..], i - at);
      assert text[at..][i - at + 1..] == text[i + 1..];
      n := n + 1;
      at := i + 1;
      i := IndexFrom(text, i + 1);
    }
    PlainIsOneLine(text[at..]);
  }

  /** A paste as it is staged: trimmed, with its lines counted. */
  method StagePaste(text: string) returns (p: Pasted)
    ensures p.text == Trim(text) && Trimmed(p.text) && p.lines == |Split(p.text, '\n')|
  {
    var t := Trim(text);
    TrimIsTrimmed(text);
    var n := CountLines(t);
    return Pasted(t, n);
  }

  /** A paste past either threshold is a chip. */
  method ShouldCollapse(text: string) returns (chip: bool)
    ensures chip <==> |Trim(text)| > CHAR_THRESHOLD || |Split(Trim(text), '\n')| > LINE_THRESHOLD
  {
    var n := CountLines(Trim(text));
    return |Trim(text)| > CHAR_THRESHOLD || n > LINE_THRESHOLD;
  }

  // ---- fold ----

  function Texts(pastes: seq<Pasted>): (r: seq<string>)
    ensures |r| == |pastes| && forall i :: 0 <= i < |r| ==> r[i] == pastes[i].text
  {
    if pastes == [] then [] else [pastes[0].text] + Texts(pastes[1..])
  }

  function NotEmpty(parts: seq<string>): seq<string> {
    if parts == [] then []
    else (if parts[0] != "" then [parts[0]] else []) + NotEmpty(parts[1..])
  }

  /** The reader's words and then the pastes in order, blank lines parting them. */
  function Folded(typed: string, pastes: seq<Pasted>): string {
    Join(NotEmpty([Trim(typed)] + Texts(pastes)), SEP)
  }

  // ---- strip ----

  datatype Stripped = Stripped(typed: string, matched: seq<bool>)

  /** One paste peeled off the tail, and the blank line before it. */
  function PeelOne(rest: string, block: string): string
    requires EndsWith(rest, block)
  {
    var shorter := rest[..|rest| - |block|];
    if EndsWith(shorter, SEP) then shorter[..|shorter| - 2] else shorter
  }

  /** Whether the n-th paste is where fold put it. */
  predicate AtTail(rest: string, block: string) {
    block != "" && EndsWith(rest, block)
  }

  /** The n first pastes peeled, last first, until one is missing: how many are left,
      and the rest of the question. */
  function Peeled(rest: string, pastes: seq<Pasted>): (r: (nat, string))
    ensures r.0 <= |pastes|
  {
    if pastes == [] then (0, rest)
    else
      var n := |pastes| - 1;
      var block := Trim(pastes[n].text);
      if AtTail(rest, block) then Peeled(PeelOne(rest, block), pastes[..n]) else (n + 1, rest)
  }

  lemma PeelNone(rest: string, pastes: seq<Pasted>)
    ensures Peeled(rest, pastes[..0]) == (0, rest)
  {
  }

  lemma PeelStep(rest: string, pastes: seq<Pasted>, i: nat)
    requires i < |pastes|
    ensures var block := Trim(pastes[i].text);
            Peeled(rest, pastes[..i + 1])
            == if AtTail(rest, block) then Peeled(PeelOne(rest, block), pastes[..i]) else (i + 1, rest)
  {
    hide Trim;
    assert pastes[..i + 1][..i] == pastes[..i];
  }

  method Strip(question: string, pastes: seq<Pasted>) returns (s: Stripped)
    ensures var (k, rest) := Peeled(question, pastes);
            && s.typed == Trim(rest) && |s.matched| == |pastes|
            && forall i :: 0 <= i < |pastes| ==> s.matched[i] == (i >= k)
  {
    hide Trim, Peeled;
    assert pastes[..|pastes|] == pastes;
    var rest := question;
    var matched := seq(|pastes|, _ => false);
    var i: int := |pastes| - 1;
    while i >= 0
      invariant -1 <= i < |pastes| == |matched|
      invariant Peeled(question, pastes) == Peeled(rest, pastes[..i + 1])
      invariant forall j :: 0 <= j < |pastes| ==> matched[j] == (j > i)
    {
      PeelStep(rest, pastes, i);
      var block := Trim(pastes[i].text);
      if block == "" || !EndsWith(rest, block) {
        break;
      }
      rest := rest[..|rest| - |block|];
      if EndsWith(rest, SEP) {
        rest := rest[..|rest| - |SEP|];
      }
      matched := matched[i := true];
      i := i - 1;
    }
    if i < 0 {
      PeelNone(rest, pastes);
    }
    return Stripped(Trim(rest), matched);
  }

  // ---- round trip ----

  /** Pastes as they are staged and sent: trimmed, and something in each. */
  predicate Staged(pastes: seq<Pasted>) {
    forall i :: 0 <= i < |pastes| ==> pastes[i].text != "" && Trimmed(pastes[i].text)
  }

  lemma {:induction false} NotEmptyConcat(a: seq<string>, b: seq<string>)
    ensures NotEmpty(a + b) == NotEmpty(a) + NotEmpty(b)
  {
    if a == [] {
      assert a + b == b;
    } else {
      assert (a + b)[1..] == a[1..] + b;
      NotEmptyConcat(a[1..], b);
    }
  }

  lemma {:induction false} TextsConcat(a: seq<Pasted>, p: Pasted)
    ensures Texts(a + [p]) == Texts(a) + [p.text]
  {
    if a != [] {
      assert (a + [p])[1..] == a[1..] + [p];
      TextsConcat(a[1..], p);
    }
  }

  /** One more paste goes on the end, a blank line before it. */
  lemma FoldedMore(typed: string, pastes: seq<Pasted>, p: Pasted)
    requires p.text != ""
    ensures var before := NotEmpty([Trim(typed)] + Texts(pastes));
            Folded(typed, pastes + [p]) == if before == [] then p.text else Join(before, SEP) + SEP + p.text
  {
    var all := [Trim(typed)] + Texts(pastes);
    TextsConcat(pastes, p);
    assert [Trim(typed)] + Texts(pastes + [p]) == all + [p.text];
    NotEmptyConcat(all, [p.text]);
    assert NotEmpty([p.text]) == [p.text];
    if NotEmpty(all) != [] {
      JoinAppend(NotEmpty(all), p.text, SEP);
    } else {
      assert [] + [p.text] == [p.text];
    }
  }

  lemma OnlyOne(t: string)
    ensures Join(NotEmpty([t]), SEP) == t
  {
    assert [t][1..] == [] && NotEmpty([]) == [];
    assert NotEmpty([t]) == if t == "" then [] else [t];
  }

  lemma FoldedNone(typed: string)
    ensures Folded(typed, []) == Trim(typed)
  {
    var t := Trim(typed);
    hide Trim;
    assert [t] + Texts([]) == [t];
    OnlyOne(t);
  }

  lemma JoinedEnds(before: string, block: string)
    ensures EndsWith(before + SEP + block, block) && EndsWith(block, block)
    ensures PeelOne(before + SEP + block, block) == before && PeelOne(block, block) == ""
  {
    var all := before + SEP + block;
    assert all[..|all| - |block|] == before + SEP;
    assert (before + SEP)[|before + SEP| - 2..] == SEP;
    assert (before + SEP)[..|before + SEP| - 2] == before;
  }

  /** The last paste folded on is the first to peel off. */
  lemma FoldedPeels(typed: string, pastes: seq<Pasted>, p: Pasted)
    requires p.text != ""
    ensures var q := Folded(typed, pastes + [p]); AtTail(q, p.text) && PeelOne(q, p.text) == Folded(typed, pastes)
  {
    hide Trim, PeelOne, EndsWith, NotEmpty;
    FoldedMore(typed, pastes, p);
    JoinedEnds(Folded(typed, pastes), p.text);
  }

  /** Peeling undoes folding: every paste comes off, and the trimmed words are left. */
  lemma {:induction false} StripFold(typed: string, pastes: seq<Pasted>)
    requires Staged(pastes)
    ensures Peeled(Folded(typed, pastes), pastes) == (0, Trim(typed))
    ensures Trim(Trim(typed)) == Trim(typed)
  {
    hide Trim, Folded, PeelOne, EndsWith;
    TrimIsTrimmed(typed);
    TrimOfTrimmed(Trim(typed));
    if pastes == [] {
      FoldedNone(typed);
    } else {
      var n := |pastes| - 1;
      var init, p := pastes[..n], pastes[n];
      assert pastes == init + [p];
      StripFold(typed, init);
      TrimOfTrimmed(p.text);
      FoldedPeels(typed, init, p);
    }
  }

  /** The pieces peeled off, in order. */
  function Taken(rest: string, pastes: seq<Pasted>): seq<string> {
    if pastes == [] then []
    else
      var n := |pastes| - 1;
      var block := Trim(pastes[n].text);
      if AtTail(rest, block) then
        var left := PeelOne(rest, block);
        Taken(left, pastes[..n]) + [rest[|left|..]]
      else []
  }

  function Joined(parts: seq<string>): string {
    if parts == [] then "" else Joined(parts[..|parts| - 1]) + parts[|parts| - 1]
  }

  /** A piece is a paste, a blank line before it or not. */
  predicate PieceOf(piece: string, block: string) {
    piece == block || piece == SEP + block
  }

  lemma PeelOnePiece(rest: string, block: string)
    requires AtTail(rest, block)
    ensures PeelOne(rest, block) <= rest && PieceOf(rest[|PeelOne(rest, block)|..], block)
  {
    var shorter := rest[..|rest| - |block|];
    assert rest == shorter + block;
    if EndsWith(shorter, SEP) {
      assert shorter == shorter[..|shorter| - 2] + SEP;
    }
  }

  /** Whatever the question and the pastes: the matched ones are the last, each taken off
      once, in order, and what is left is the question before them. */
  lemma {:induction false} StripIsSplit(question: string, pastes: seq<Pasted>)
    ensures var (k, rest) := Peeled(question, pastes); var pieces := Taken(question, pastes);
            && question == rest + Joined(pieces) && |pieces| == |pastes| - k
            && forall j :: 0 <= j < |pieces| ==> PieceOf(pieces[j], Trim(pastes[k + j].text))
    decreases |pastes|
  {
    hide Trim, PieceOf, PeelOne, AtTail, Joined;
    if pastes == [] {
      NothingJoined();
    } else {
      var n := |pastes| - 1;
      var init, block := pastes[..n], Trim(pastes[n].text);
      if AtTail(question, block) {
        PeelOnePiece(question, block);
        var left := PeelOne(question, block);
        StripIsSplit(left, init);
        JoinedMore(Peeled(left, init).1, Taken(left, init), left, question);
      } else {
        NothingJoined();
      }
    }
  }

  lemma NothingJoined()
    ensures Joined([]) == ""
  {
  }

  lemma JoinedMore(rest: string, before: seq<string>, left: string, question: string)
    requires left == rest + Joined(before) && left <= question
    ensures question == rest + Joined(before + [question[|left|..]])
  {
    var piece := question[|left|..];
    assert (before + [piece])[..|before|] == before;
    assert question == left + piece;
  }
}
