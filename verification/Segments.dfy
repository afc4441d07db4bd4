// Prose cut into the pieces that fade in one after another (splitIntoSegments and
// faded, ui/src/markdown.tsx).
module Segments {
  import opened Text

  const MAX_SEGMENT := 28

  predicate ClauseEnd(c: char) {
    c in ".!?,;:\U{2014})]"
  }

  /** How many characters from the start are white space, or are not. */
  function RunOf(s: string, space: bool): (n: nat)
    ensures n <= |s| && (forall k :: 0 <= k < n ==> IsSpace(s[k]) == space)
    ensures n < |s| ==> IsSpace(s[n]) != space
  {
    if s != "" && IsSpace(s[0]) == space then 1 + RunOf(s[1..], space) else 0
  }

  /** The first word with the white space after it, or the white space s starts with. */
  function FirstToken(s: string): (n: nat)
    requires s != ""
    ensures 0 < n <= |s|
  {
    var word := RunOf(s, false);
    word + RunOf(s[word..], true)
  }

  predicate Filled(parts: seq<string>) {
    forall i :: 0 <= i < |parts| ==> parts[i] != ""
  }

  function Tokens(s: string): (r: seq<string>)
    ensures Filled(r)
  {
    if s == "" then []
    else
      var n := FirstToken(s);
      [s[..n]] + Tokens(s[n..])
  }

  function Concat(parts: seq<string>): string {
    if parts == [] then "" else Concat(parts[..|parts| - 1]) + parts[|parts| - 1]
  }

  /** The segments closed so far, and the one still open. */
  datatype Cut = Cut(out: seq<string>, current: string)

  predicate Closes(current: string, token: string) {
    var t := TrimEnd(token);
    (t != "" && ClauseEnd(t[|t| - 1])) || |current| >= MAX_SEGMENT
  }

  function Step(c: Cut, token: string): Cut {
    var current := c.current + token;
    if Closes(current, token) then Cut(c.out + [current], "") else Cut(c.out, current)
  }

  function CutAt(tokens: seq<string>): Cut {
    if tokens == [] then Cut([], "") else Step(CutAt(tokens[..|tokens| - 1]), tokens[|tokens| - 1])
  }

  function Finish(c: Cut): seq<string> {
    if c.current != "" then c.out + [c.current] else c.out
  }

  function Segmented(value: string): seq<string> {
    if value == "" then [""] else Finish(CutAt(Tokens(value)))
  }

  method SplitIntoSegments(value: string) returns (out: seq<string>)
    ensures out == Segmented(value)
  {
    var tokens := Tokens(value);
    if tokens == [] {
      return [value];
    }
    out := [];
    var current := "";
    for i := 0 to |tokens|
      invariant Cut(out, current) == CutAt(tokens[..i])
    {
      var token := tokens[i];
      assert tokens[..i + 1][..i] == tokens[..i];
      current := current + token;
      if Closes(current, token) {
        out := out + [current];
        current := "";
      }
    }
    assert tokens[..|tokens|] == tokens;
    if current != "" {
      out := out + [current];
    }
  }

  // ---- nothing lost ----

  lemma {:induction false} ConcatMore(a: seq<string>, b: seq<string>)
    ensures Concat(a + b) == Concat(a) + Concat(b)
  {
    if b == [] {
      assert a + b == a;
    } else {
      assert (a + b)[..|a + b| - 1] == a + b[..|b| - 1];
      ConcatMore(a, b[..|b| - 1]);
    }
  }

  lemma ConcatOne(t: string)
    ensures Concat([t]) == t
  {
    assert [t][..0] == [];
  }

  lemma {:induction false} TokensConcat(s: string)
    ensures Concat(Tokens(s)) == s
  {
    hide FirstToken, Concat, Tokens;
    TokensAre(s);
    if s == "" {
      StartsEmpty(0);
    } else {
      var n := FirstToken(s);
      TokensConcat(s[n..]);
      ConcatOne(s[..n]);
      ConcatMore([s[..n]], Tokens(s[n..]));
    }
  }

  lemma {:induction false} CutConcat(tokens: seq<string>)
    ensures Concat(CutAt(tokens).out) + CutAt(tokens).current == Concat(tokens)
  {
    if tokens != [] {
      var init, token := tokens[..|tokens| - 1], tokens[|tokens| - 1];
      CutConcat(init);
      var c := CutAt(init);
      ConcatOne(c.current + token);
      ConcatMore(c.out, [c.current + token]);
    }
  }

  /** The segments joined are the text. */
  lemma SegmentsConcat(value: string)
    ensures Concat(Segmented(value)) == value
  {
    if value == "" {
      ConcatOne("");
    } else {
      var c := CutAt(Tokens(value));
      TokensConcat(value);
      CutConcat(Tokens(value));
      ConcatOne(c.current);
      ConcatMore(c.out, [c.current]);
    }
  }

  // ---- what has settled stays ----

  lemma {:induction false} RunStays(a: string, b: string, space: bool)
    requires RunOf(a, space) < |a|
    ensures RunOf(a + b, space) == RunOf(a, space)
  {
    if a != "" && IsSpace(a[0]) == space {
      assert (a + b)[1..] == a[1..] + b;
      RunStays(a[1..], b, space);
    }
  }

  /** Text added after a token that something follows leaves it alone. */
  lemma FirstTokenStays(a: string, b: string)
    requires a != "" && FirstToken(a) < |a|
    ensures FirstToken(a + b) == FirstToken(a)
  {
    var word := RunOf(a, false);
    assert word <= FirstToken(a) < |a|;
    RunStays(a, b, false);
    assert (a + b)[word..] == a[word..] + b;
    RunStays(a[word..], b, true);
  }

  /** All tokens but the last stay; the last and what is added are cut anew. */
  lemma {:induction false} TokensStay(a: string, b: string)
    requires a != ""
    ensures var t := Tokens(a); t != [] && Tokens(a + b) == t[..|t| - 1] + Tokens(t[|t| - 1] + b)
    decreases |a|
  {
    hide FirstToken, Tokens;
    var n := FirstToken(a);
    TokensAre(a);
    if n < |a| {
      var rest := Tokens(a[n..]);
      FirstTokenStays(a, b);
      TokensStay(a[n..], b);
      TokensAre(a + b);
      assert (a + b)[..n] == a[..n] && (a + b)[n..] == a[n..] + b;
      assert Tokens(a)[..|rest|] == [a[..n]] + rest[..|rest| - 1];
    } else {
      TokensAre(a[n..]);
      assert a[n..] == "" && a[..n] == a && Tokens(a) == [a];
    }
  }

  lemma TokensAre(s: string)
    ensures s == "" ==> Tokens(s) == []
    ensures s != "" ==> Tokens(s) == [s[..FirstToken(s)]] + Tokens(s[FirstToken(s)..])
  {
    hide FirstToken;
  }

  /** More tokens only add segments. */
  lemma {:induction false} CutGrows(tokens: seq<string>, more: seq<string>)
    ensures CutAt(tokens).out <= CutAt(tokens + more).out
  {
    if more == [] {
      assert tokens + more == tokens;
    } else {
      var init := more[..|more| - 1];
      assert (tokens + more)[..|tokens + more| - 1] == tokens + init;
      CutGrows(tokens, init);
    }
  }

  /** The last token always ends in the last segment. */
  lemma LastHoldsLast(tokens: seq<string>)
    requires tokens != [] && Filled(tokens)
    ensures var init, token := tokens[..|tokens| - 1], tokens[|tokens| - 1];
            Finish(CutAt(tokens)) == CutAt(init).out + [CutAt(init).current + token]
  {
    var init, token := tokens[..|tokens| - 1], tokens[|tokens| - 1];
    assert token in tokens;
  }

  /** Every segment but the last keeps its text and place whatever text is added. */
  lemma SettledStay(a: string, b: string)
    ensures |Segmented(a)| > 0 && |Segmented(a + b)| > 0
    ensures Segmented(a)[..|Segmented(a)| - 1] <= Segmented(a + b)
  {
    if a == "" {
      SomeSegments(b);
      assert a + b == b;
    } else {
      var t, u := Tokens(a), Tokens(a + b);
      TokensStay(a, b);
      var init := t[..|t| - 1];
      LastHoldsLast(t);
      SomeSegments(a + b);
      CutGrows(init, Tokens(t[|t| - 1] + b));
      assert CutAt(init).out <= CutAt(u).out <= Finish(CutAt(u));
    }
  }

  lemma SomeSegments(value: string)
    ensures |Segmented(value)| > 0
    ensures value != "" ==> Filled(Segmented(value))
  {
    if value != "" {
      var n := FirstToken(value);
      assert Tokens(value)[0] == value[..n];
      LastHoldsLast(Tokens(value));
      CutFilled(Tokens(value));
    }
  }

  lemma {:induction false} CutFilled(tokens: seq<string>)
    requires Filled(tokens)
    ensures Filled(CutAt(tokens).out)
  {
    if tokens != [] {
      CutFilled(tokens[..|tokens| - 1]);
    }
  }

  // ---- the fade's keys ----

  /** A span that fades in, keyed by where it starts. */
  datatype Span = Span(at: nat, text: string)

  function Spans(base: nat, segments: seq<string>): (r: seq<Span>)
    ensures |r| == |segments|
    ensures forall k :: 0 <= k < |r| ==> r[k].text == segments[k]
    decreases |segments|
  {
    if segments == [] then [] else [Span(base, segments[0])] + Spans(base + |segments[0]|, segments[1..])
  }

  lemma {:induction false} SpansEnd(base: nat, segments: seq<string>, last: string)
    ensures Spans(base, segments + [last]) == Spans(base, segments) + [Span(base + |Concat(segments)|, last)]
    decreases |segments|
  {
    hide Concat;
    if segments == [] {
      StartsEmpty(base);
      assert segments + [last] == [last];
      assert [last][1..] == [];
    } else {
      var first, rest := segments[0], segments[1..];
      assert (segments + [last])[1..] == rest + [last];
      SpansEnd(base + |first|, rest, last);
      assert |Concat(segments)| == |first| + |Concat(rest)| by {
        ConcatOne(first);
        ConcatMore([first], rest);
        assert segments == [first] + rest;
      }
    }
  }

  lemma StartsEmpty(base: nat)
    ensures Spans(base, []) == [] && Concat([]) == ""
  {
  }

  method Faded(src: string, base: nat) returns (spans: seq<Span>)
    ensures spans == Spans(base, Segmented(src))
  {
    var at := base;
    spans := [];
    var segments := SplitIntoSegments(src);
    hide Segmented, Spans, Concat;
    StartsEmpty(base);
    for i := 0 to |segments|
      invariant spans == Spans(base, segments[..i]) && at == base + |Concat(segments[..i])|
    {
      assert segments[..i + 1] == segments[..i] + [segments[i]];
      SpansEnd(base, segments[..i], segments[i]);
      ConcatOne(segments[i]);
      ConcatMore(segments[..i], [segments[i]]);
      spans := spans + [Span(at, segments[i])];
      at := at + |segments[i]|;
    }
    assert segments[..|segments|] == segments;
  }

  lemma {:induction false} SpansPrefix(base: nat, a: seq<string>, b: seq<string>)
    requires a <= b
    ensures Spans(base, a) <= Spans(base, b)
    decreases |a|
  {
    if a != [] {
      assert a[0] == b[0] && a[1..] <= b[1..];
      SpansPrefix(base + |a[0]|, a[1..], b[1..]);
    }
  }

  lemma {:induction false} SpansAscend(base: nat, segments: seq<string>)
    requires Filled(segments)
    ensures forall j, k :: 0 <= j < k < |segments| ==> Spans(base, segments)[j].at < Spans(base, segments)[k].at
    ensures forall k :: 0 <= k < |segments| ==> base <= Spans(base, segments)[k].at
    decreases |segments|
  {
    if segments != [] {
      SpansAscend(base + |segments[0]|, segments[1..]);
    }
  }

  /** A settled span keeps its key and its text as the answer grows, and no two spans of
      a text share a key: none is remounted. */
  lemma SettledSpansStay(base: nat, a: string, b: string)
    ensures |Spans(base, Segmented(a))| == |Segmented(a)| > 0
    ensures Spans(base, Segmented(a))[..|Segmented(a)| - 1] <= Spans(base, Segmented(a + b))
    ensures forall j, k :: 0 <= j < k < |Segmented(a)| ==>
              Spans(base, Segmented(a))[j].at < Spans(base, Segmented(a))[k].at
  {
    hide Segmented, Spans, Concat;
    SettledStay(a, b);
    SomeSegments(a);
    var all := Segmented(a);
    var init := all[..|all| - 1];
    assert all == init + [all[|all| - 1]];
    SpansEnd(base, init, all[|all| - 1]);
    SpansPrefix(base, init, Segmented(a + b));
    if a != "" {
      SpansAscend(base, all);
    } else {
      assert |Segmented("")| == 1 by { EmptyIsOne(); }
    }
  }

  lemma EmptyIsOne()
    ensures Segmented("") == [""]
  {
  }

  /** What settled did so at a clause end, or because it was long enough. */
  lemma {:induction false} SettledWhy(tokens: seq<string>, k: nat) returns (token: string)
    requires k < |CutAt(tokens).out|
    ensures Closes(CutAt(tokens).out[k], token) && EndsWith(CutAt(tokens).out[k], token)
  {
    var init, last := tokens[..|tokens| - 1], tokens[|tokens| - 1];
    var before := CutAt(init);
    if k < |before.out| {
      token := SettledWhy(init, k);
    } else {
      token := last;
      assert CutAt(tokens).out[k] == before.current + last;
      assert (before.current + last)[|before.current|..] == last;
    }
  }

  // ---- where the text is cut ----

  /** A piece that ends at a clause or is long enough. */
  predicate Settles(p: string) {
    |p| >= MAX_SEGMENT || (TrimEnd(p) != "" && ClauseEnd(TrimEnd(p)[|TrimEnd(p)| - 1]))
  }

  /** White space ends and a word begins at n. */
  predicate WordAt(s: string, n: nat) {
    0 < n < |s| && IsSpace(s[n - 1]) && !IsSpace(s[n])
  }

  /** No word inside it begins where the piece up to there settles. */
  ghost predicate CutInTime(s: string) {
    forall n: nat :: WordAt(s, n) ==> !Settles(s[..n])
  }

  /** One piece ends in white space and the next begins with a word. */
  predicate Meet(a: string, b: string) {
    a != "" && b != "" && IsSpace(a[|a| - 1]) && !IsSpace(b[0])
  }

  predicate AllMeet(parts: seq<string>) {
    forall k :: 0 < k < |parts| ==> Meet(parts[k - 1], parts[k])
  }

  /** A run of white space or a word and the white space after it. */
  ghost predicate IsToken(t: string) {
    t != "" && forall n: nat :: !WordAt(t, n)
  }

  ghost predicate AreTokens(tokens: seq<string>) {
    (forall k :: 0 <= k < |tokens| ==> IsToken(tokens[k])) && AllMeet(tokens)
  }

  lemma {:induction false} TokensAreTokens(s: string)
    ensures AreTokens(Tokens(s))
    ensures s != "" ==> Tokens(s) != [] && Tokens(s)[0][0] == s[0]
  {
    hide FirstToken, IsToken;
    TokensAre(s);
    if s != "" {
      var n, rest := FirstToken(s), Tokens(s[FirstToken(s)..]);
      TokensAreTokens(s[n..]);
      FirstIsToken(s);
      assert Tokens(s)[0] == s[..n] && Tokens(s)[1..] == rest;
      forall k | 0 < k < |Tokens(s)| ensures Meet(Tokens(s)[k - 1], Tokens(s)[k]) {
        assert Tokens(s)[k] == rest[k - 1];
        if k > 1 {
          assert Tokens(s)[k - 1] == rest[k - 2];
          assert Meet(rest[k - 2], rest[k - 1]);
        } else {
          assert s[n..] != "" by { TokensAre(s[n..]); }
        }
      }
    }
  }

  lemma FirstIsToken(s: string)
    requires s != ""
    ensures var n := FirstToken(s); IsToken(s[..n]) && (n < |s| ==> IsSpace(s[n - 1]) && !IsSpace(s[n]))
  {
    var word := RunOf(s, false);
    var n := FirstToken(s);
    assert forall k :: word <= k < n ==> s[k] == s[word..][k - word] && IsSpace(s[word..][k - word]);
    assert n < |s| ==> s[n] == s[word..][n - word];
  }

  /** A token closes a segment exactly when the segment it ends settles. */
  lemma ClosesIffSettles(current: string, token: string)
    requires token != "" && (current == "" || !IsSpace(token[0]))
    ensures Closes(current + token, token) <==> Settles(current + token)
  {
    if current == "" {
      assert current + token == token;
    } else {
      TrimAfter(current, token);
    }
  }

  lemma {:induction false} TrimAfter(a: string, b: string)
    requires b != "" && !IsSpace(b[0])
    ensures TrimEnd(b) != "" && TrimEnd(a + b) == a + TrimEnd(b)
    decreases |b|
  {
    var n := |b| - 1;
    assert (a + b)[|a + b| - 1] == b[n];
    if IsSpace(b[n]) {
      assert (a + b)[..|a + b| - 1] == a + b[..n];
      assert n > 0 && b[..n][0] == b[0];
      TrimAfter(a, b[..n]);
    }
  }

  ghost predicate CutsRight(c: Cut) {
    && (forall k :: 0 <= k < |c.out| ==> Settles(c.out[k]) && CutInTime(c.out[k]))
    && CutInTime(c.current) && (c.current != "" ==> !Settles(c.current)) && AllMeet(Finish(c))
  }

  /** So far the last piece ends as the last token does. */
  predicate EndsAs(c: Cut, tokens: seq<string>) {
    var pieces := Finish(c);
    (tokens == [] <==> pieces == [])
    && (tokens != [] ==>
          && tokens[|tokens| - 1] != "" && pieces[|pieces| - 1] != ""
          && pieces[|pieces| - 1][|pieces[|pieces| - 1]| - 1] == tokens[|tokens| - 1][|tokens[|tokens| - 1]| - 1])
  }

  lemma GrownInTime(current: string, token: string)
    requires CutInTime(current) && (current != "" ==> !Settles(current)) && IsToken(token)
    ensures CutInTime(current + token)
  {
    var all := current + token;
    forall n: nat | WordAt(all, n) ensures !Settles(all[..n]) {
      if n < |current| {
        assert WordAt(current, n) && all[..n] == current[..n];
      } else if n == |current| {
        assert all[..n] == current;
      } else {
        assert WordAt(token, n - |current|);
      }
    }
  }

  lemma PieceGrown(c: Cut, token: string)
    requires AllMeet(Finish(c)) && token != ""
    requires Finish(c) != [] ==> Meet(Finish(c)[|Finish(c)| - 1], token)
    ensures AllMeet(c.out + [c.current + token])
  {
    var all := c.out + [c.current + token];
    forall k | 0 < k < |all| ensures Meet(all[k - 1], all[k]) {
      assert k < |c.out| ==> Finish(c)[k] == c.out[k];
      assert Finish(c)[k - 1] == c.out[k - 1];
      if c.current != "" {
        assert Finish(c)[|c.out|] == c.current;
      }
    }
  }

  lemma StepCutsRight(c: Cut, tokens: seq<string>, token: string)
    requires CutsRight(c) && EndsAs(c, tokens) && AreTokens(tokens + [token])
    ensures CutsRight(Step(c, token)) && EndsAs(Step(c, token), tokens + [token])
  {
    hide Settles, CutInTime, Closes;
    var all := tokens + [token];
    assert all[|tokens|] == token && IsToken(token);
    if tokens != [] {
      assert Meet(all[|tokens| - 1], all[|tokens|]);
    }
    ClosesIffSettles(c.current, token);
    GrownInTime(c.current, token);
    PieceGrown(c, token);
    NothingInTime();
  }

  lemma NothingInTime()
    ensures CutInTime("")
  {
  }

  lemma {:induction false} CutsAreRight(tokens: seq<string>)
    requires AreTokens(tokens)
    ensures CutsRight(CutAt(tokens)) && EndsAs(CutAt(tokens), tokens)
  {
    hide Step, CutsRight, EndsAs, IsToken, Meet;
    if tokens == [] {
      assert CutsRight(Cut([], "")) && EndsAs(Cut([], ""), []) by { StartsRight(); }
    } else {
      var n := |tokens| - 1;
      CutsAreRight(tokens[..n]);
      assert tokens == tokens[..n] + [tokens[n]];
      StepCutsRight(CutAt(tokens[..n]), tokens[..n], tokens[n]);
    }
  }

  lemma StartsRight()
    ensures CutsRight(Cut([], "")) && EndsAs(Cut([], ""), [])
  {
    NothingInTime();
  }

  /** A text is cut only between words, at the first place the piece so far ends a clause or
      is long enough, and at every such place. */
  lemma CutExactly(value: string)
    ensures var parts := Segmented(value);
            && AllMeet(parts)
            && (forall k :: 0 <= k < |parts| ==> CutInTime(parts[k]))
            && (forall k :: 0 <= k < |parts| - 1 ==> Settles(parts[k]))
  {
    hide CutInTime, Settles, Meet, Tokens, CutAt;
    NothingInTime();
    if value != "" {
      TokensAreTokens(value);
      CutsAreRight(Tokens(value));
    }
  }
}
