// A coloured file's tree split into lines: at each newline the elements open there are
// now again on the next line (highlightLines, ui/src/highlight.tsx). Elements being
// built live in a store and are referred to by where they stand in it, as the source
// refers to objects.
module HighlightLines {
  import opened Text

  /** The grammar's tree. */
  datatype Node<T> = Txt(value: string) | Elem(tag: T, children: seq<Node<T>>) | Comment

  /** What an element on a line holds. */
  datatype Kid = Run(value: string) | Ref(at: nat)

  datatype Built<T> = Built(tag: T, kids: seq<Kid>)

  /** A character and the elements around it, outermost first. */
  datatype Mark<T> = Mark(c: char, chain: seq<T>)

  /** The elements built, the lines so far, and the elements open on the last one. */
  datatype Doc<T> = Doc(store: seq<Built<T>>, lines: seq<seq<Kid>>, stack: seq<nat>)

  function Marks<T>(v: string, chain: seq<T>): (r: seq<Mark<T>>)
    ensures |r| == |v| && forall i :: 0 <= i < |v| ==> r[i] == Mark(v[i], chain)
  {
    if v == "" then [] else Marks(v[..|v| - 1], chain) + [Mark(v[|v| - 1], chain)]
  }

  // ---- flattening ----

  function NodeMarks<T>(n: Node<T>, chain: seq<T>): seq<Mark<T>>
    decreases n
  {
    match n
    case Txt(value) => Marks(value, chain)
    case Elem(tag, children) => NodesMarks(children, chain + [tag])
    case Comment => []
  }

  function NodesMarks<T>(nodes: seq<Node<T>>, chain: seq<T>): seq<Mark<T>>
    decreases nodes
  {
    if nodes == [] then []
    else NodesMarks(nodes[..|nodes| - 1], chain) + NodeMarks(nodes[|nodes| - 1], chain)
  }

  /** Marks written on after the lines so far: a newline starts the next. */
  function Absorb<T>(lines: seq<seq<Mark<T>>>, marks: seq<Mark<T>>): (r: seq<seq<Mark<T>>>)
    requires lines != []
    ensures r != []
  {
    if marks == [] then lines
    else
      var before, m := Absorb(lines, marks[..|marks| - 1]), marks[|marks| - 1];
      var n := |before| - 1;
      if m.c == '\n' then before + [[]] else before[n := before[n] + [m]]
  }

  // ---- what a line holds ----

  /** Elements lie after the one they are in, so reading a line ends. */
  function KidMarks<T>(store: seq<Built<T>>, kid: Kid, above: int, chain: seq<T>): seq<Mark<T>>
    decreases |store| - above, 0
  {
    match kid
    case Run(value) => Marks(value, chain)
    case Ref(at) =>
      if above < at < |store| then KidsMarks(store, store[at].kids, at, chain + [store[at].tag]) else []
  }

  function KidsMarks<T>(store: seq<Built<T>>, kids: seq<Kid>, above: int, chain: seq<T>): seq<Mark<T>>
    decreases |store| - above, |kids|
  {
    if kids == [] then []
    else KidsMarks(store, kids[..|kids| - 1], above, chain) + KidMarks(store, kids[|kids| - 1], above, chain)
  }

  function Out<T>(store: seq<Built<T>>, lines: seq<seq<Kid>>): (r: seq<seq<Mark<T>>>)
    ensures |r| == |lines|
    ensures forall i :: 0 <= i < |lines| ==> r[i] == KidsMarks(store, lines[i], -1, [])
  {
    if lines == [] then []
    else Out(store, lines[..|lines| - 1]) + [KidsMarks(store, lines[|lines| - 1], -1, [])]
  }

  function Tags<T>(store: seq<Built<T>>, stack: seq<nat>): (r: seq<T>)
    requires forall i :: 0 <= i < |stack| ==> stack[i] < |store|
    ensures |r| == |stack| && forall i :: 0 <= i < |stack| ==> r[i] == store[stack[i]].tag
  {
    seq(|stack|, i requires 0 <= i < |stack| => store[stack[i]].tag)
  }

  /** Nothing under the kid is still open. */
  predicate Sealed<T>(store: seq<Built<T>>, kid: Kid, above: int, stack: seq<nat>)
    decreases |store| - above, 0
  {
    kid.Ref? ==> above < kid.at < |store| && kid.at !in stack && AllSealed(store, store[kid.at].kids, kid.at, stack)
  }

  predicate AllSealed<T>(store: seq<Built<T>>, kids: seq<Kid>, above: int, stack: seq<nat>)
    decreases |store| - above, |kids|
  {
    kids != [] ==> AllSealed(store, kids[..|kids| - 1], above, stack) && Sealed(store, kids[|kids| - 1], above, stack)
  }

  /** From the i-th open element in, each is the last kid of the one before; all else
      is sealed. */
  predicate Spine<T>(store: seq<Built<T>>, kids: seq<Kid>, above: int, stack: seq<nat>, i: nat)
    requires i <= |stack|
    decreases |stack| - i
  {
    if i == |stack| then AllSealed(store, kids, above, stack)
    else
      && kids != [] && kids[|kids| - 1] == Ref(stack[i]) && above < stack[i] < |store|
      && AllSealed(store, kids[..|kids| - 1], above, stack)
      && Spine(store, store[stack[i]].kids, stack[i], stack, i + 1)
  }

  predicate SealedLines<T>(store: seq<Built<T>>, lines: seq<seq<Kid>>, stack: seq<nat>) {
    forall i :: 0 <= i < |lines| ==> AllSealed(store, lines[i], -1, stack)
  }

  predicate Ascending(store: nat, stack: seq<nat>) {
    (forall i, j :: 0 <= i < j < |stack| ==> stack[i] < stack[j]) && forall i :: 0 <= i < |stack| ==> stack[i] < store
  }

  predicate Ok<T>(d: Doc<T>) {
    && d.lines != [] && Ascending(|d.store|, d.stack)
    && SealedLines(d.store, d.lines[..|d.lines| - 1], d.stack)
    && Spine(d.store, d.lines[|d.lines| - 1], -1, d.stack, 0)
  }

  // ---- steps ----

  /** A kid put into the innermost open element, or on the line. */
  function Pushed<T>(d: Doc<T>, kid: Kid): Doc<T>
    requires d.lines != [] && Ascending(|d.store|, d.stack)
  {
    if d.stack != [] then
      var top := d.stack[|d.stack| - 1];
      d.(store := d.store[top := Built(d.store[top].tag, d.store[top].kids + [kid])])
    else
      var n := |d.lines| - 1;
      d.(lines := d.lines[n := d.lines[n] + [kid]])
  }

  /** A fresh element put there, and open. */
  function Entered<T>(d: Doc<T>, tag: T): Doc<T>
    requires d.lines != [] && Ascending(|d.store|, d.stack)
  {
    var n := |d.store|;
    var p := Pushed(d, Ref(n));
    Doc(p.store + [Built(tag, [])], p.lines, d.stack + [n])
  }

  class Splitter<T> {
    var store: seq<Built<T>>
    var lines: seq<seq<Kid>>
    var stack: seq<nat>

    function Now(): Doc<T>
      reads this
    {
      Doc(store, lines, stack)
    }

    constructor ()
      ensures Now() == Doc([], [[]], [])
    {
      store, lines, stack := [], [[]], [];
    }

    /** tip(stack).push(kid) */
    method Push(kid: Kid)
      requires lines != [] && Ascending(|store|, stack)
      modifies this
      ensures Now() == Pushed(old(Now()), kid)
    {
      if stack != [] {
        var top := stack[|stack| - 1];
        store := store[top := Built(store[top].tag, store[top].kids + [kid])];
      } else {
        var n := |lines| - 1;
        lines := lines[n := lines[n] + [kid]];
      }
    }

    method Enter(tag: T)
      requires lines != [] && Ascending(|store|, stack)
      modifies this
      ensures Now() == Entered(old(Now()), tag)
    {
      var n := |store|;
      Push(Ref(n));
      store := store + [Built(tag, [])];
      stack := stack + [n];
    }

    /** lines.push(reopen(stack)) */
    method Reopen()
      requires Ok(Now())
      modifies this
      ensures Ok(Now()) && Tags(store, stack) == old(Tags(store, stack))
      ensures Out(store, lines) == old(Out(store, lines)) + [[]]
    {
      hide Ok, Entered, Out;
      OkStack(Now());
      ghost var before := Now();
      var open := stack;
      LineStarted(Now());
      lines := lines + [[]];
      stack := [];
      for i := 0 to |open|
        invariant Ok(Now()) && |before.store| <= |store| && (forall k :: 0 <= k < |open| ==> open[k] < |store|)
        invariant forall k :: 0 <= k < |open| ==> store[open[k]].tag == before.store[before.stack[k]].tag
        invariant forall k :: 0 <= k < |stack| ==> stack[k] < |store|
        invariant Tags(store, stack) == Tags(before.store, before.stack)[..i]
        invariant Out(store, lines) == Out(before.store, before.lines) + [[]]
      {
        OkStack(Now());
        var tag := store[open[i]].tag;
        EnterKeeps(Now(), tag);
        Enter(tag);
      }
    }

    method Walk(n: Node<T>)
      requires Ok(Now())
      modifies this
      ensures Ok(Now()) && Tags(store, stack) == old(Tags(store, stack))
      ensures lines != [] && Out(store, lines) == Absorb(old(Out(store, lines)), NodeMarks(n, old(Tags(store, stack))))
      decreases n
    {
      hide Ok, Entered, Out, Pushed, Absorb;
      OkStack(Now());
      if n.Txt? {
        Write(n.value);
      } else if n.Elem? {
        EnterKeeps(Now(), n.tag);
        Enter(n.tag);
        ghost var chain := Tags(store, stack);
        ghost var before := Out(store, lines);
        OkStack(Now());
        AbsorbNone(before);
        for i := 0 to |n.children|
          invariant Ok(Now()) && lines != [] && (forall k :: 0 <= k < |stack| ==> stack[k] < |store|)
                    && Tags(store, stack) == chain
          invariant Out(store, lines) == Absorb(before, NodesMarks(n.children[..i], chain))
        {
          assert n.children[..i + 1][..i] == n.children[..i];
          AbsorbMore(before, NodesMarks(n.children[..i], chain), NodeMarks(n.children[i], chain));
          Walk(n.children[i]);
          OkStack(Now());
        }
        assert n.children[..|n.children|] == n.children;
        LeaveKeeps(Now());
        stack := stack[..|stack| - 1];
      } else {
        AbsorbNone(Out(store, lines));
      }
    }

    /** A text's parts, each on its own line. */
    method Write(value: string)
      requires Ok(Now())
      modifies this
      ensures Ok(Now()) && Tags(store, stack) == old(Tags(store, stack))
      ensures lines != [] && Out(store, lines) == Absorb(old(Out(store, lines)), Marks(value, old(Tags(store, stack))))
    {
      hide Ok, Entered, Out, Pushed, Absorb, Marks, Join, Split;
      OkStack(Now());
      ghost var chain, before := Tags(store, stack), Out(store, lines);
      var parts := Split(value, '\n');
      AbsorbNone(before);
      JoinNone("");
      MarksNone(chain);
      for i := 0 to |parts|
        invariant Ok(Now()) && lines != [] && (forall k :: 0 <= k < |stack| ==> stack[k] < |store|)
                  && Tags(store, stack) == chain
        invariant Out(store, lines) == Absorb(before, Marks(Join(parts[..i], ['\n']), chain))
      {
        ghost var here := Out(store, lines);
        if i > 0 {
          Reopen();
        }
        OkStack(Now());
        assert '\n' !in parts[i] by { PartsPlain(value, i); }
        PartWritten(before, parts, i, chain);
        if parts[i] != "" {
          PushKeeps(Now(), parts[i]);
          Push(Run(parts[i]));
          OkStack(Now());
        } else {
          MarksNone(chain);
          ghost var line := Out(store, lines);
          assert line[|line| - 1] + Marks(parts[i], chain) == line[|line| - 1];
          assert line[|line| - 1 := line[|line| - 1] + Marks(parts[i], chain)] == line;
        }
      }
      assert parts[..|parts|] == parts;
      JoinSplit(value, '\n');
    }
  }

  // ---- absorbing ----

  lemma PartsPlain(value: string, i: nat)
    requires i < |Split(value, '\n')|
    ensures '\n' !in Split(value, '\n')[i]
  {
    JoinSplit(value, '\n');
    assert Split(value, '\n')[i] in Split(value, '\n');
  }

  lemma AbsorbNone<T>(lines: seq<seq<Mark<T>>>)
    requires lines != []
    ensures Absorb(lines, []) == lines
  {
  }

  lemma {:induction false} AbsorbMore<T>(lines: seq<seq<Mark<T>>>, a: seq<Mark<T>>, b: seq<Mark<T>>)
    requires lines != []
    ensures Absorb(lines, a + b) == Absorb(Absorb(lines, a), b)
  {
    if b == [] {
      assert a + b == a;
    } else {
      assert (a + b)[..|a + b| - 1] == a + b[..|b| - 1];
      AbsorbMore(lines, a, b[..|b| - 1]);
    }
  }

  lemma AbsorbBreak<T>(lines: seq<seq<Mark<T>>>, chain: seq<T>)
    requires lines != []
    ensures Absorb(lines, Marks("\n", chain)) == lines + [[]]
  {
    assert Marks("\n", chain) == [Mark('\n', chain)];
    assert [Mark('\n', chain)][..0] == [];
  }

  /** A part without newlines goes on the last line. */
  lemma {:induction false} AbsorbPlain<T>(lines: seq<seq<Mark<T>>>, v: string, chain: seq<T>)
    requires lines != [] && '\n' !in v
    ensures Absorb(lines, Marks(v, chain)) == lines[|lines| - 1 := lines[|lines| - 1] + Marks(v, chain)]
  {
    if v == "" {
      assert lines[|lines| - 1] + [] == lines[|lines| - 1];
    } else {
      var init := v[..|v| - 1];
      AbsorbPlain(lines, init, chain);
      var all, x := Marks(v, chain), lines[|lines| - 1];
      assert all[..|all| - 1] == Marks(init, chain);
      var m := all[|all| - 1];
      assert m.c == v[|v| - 1] && m.c in v;
      assert x + Marks(init, chain) + [m] == x + all;
    }
  }

  lemma MarksMore<T>(a: string, b: string, chain: seq<T>)
    ensures Marks(a + b, chain) == Marks(a, chain) + Marks(b, chain)
  {
  }

  /** One more part: the newline before it, then its characters. */
  lemma PartWritten<T>(before: seq<seq<Mark<T>>>, parts: seq<string>, i: nat, chain: seq<T>)
    requires before != [] && i < |parts| && '\n' !in parts[i]
    ensures var done := Absorb(before, Marks(Join(parts[..i], ['\n']), chain));
            var line := if i > 0 then done + [[]] else done;
            Absorb(before, Marks(Join(parts[..i + 1], ['\n']), chain))
            == line[|line| - 1 := line[|line| - 1] + Marks(parts[i], chain)]
  {
    hide Absorb, Marks, Join;
    var init := parts[..i];
    var done := Absorb(before, Marks(Join(init, ['\n']), chain));
    assert parts[..i + 1] == init + [parts[i]];
    if i == 0 {
      JoinNone(parts[i]);
      assert init == [];
      MarksNone(chain);
      AbsorbNone(before);
      AbsorbPlain(before, parts[i], chain);
    } else {
      JoinAppend(init, parts[i], ['\n']);
      MarksMore(Join(init, ['\n']) + ['\n'], parts[i], chain);
      MarksMore(Join(init, ['\n']), "\n", chain);
      AbsorbMore(before, Marks(Join(init, ['\n']), chain) + Marks("\n", chain), Marks(parts[i], chain));
      AbsorbMore(before, Marks(Join(init, ['\n']), chain), Marks("\n", chain));
      AbsorbBreak(done, chain);
      AbsorbPlain(done + [[]], parts[i], chain);
    }
  }

  lemma JoinNone(part: string)
    ensures Join([], ['\n']) == "" && Join([part], ['\n']) == part && [] + [part] == [part]
  {
  }

  lemma MarksNone<T>(chain: seq<T>)
    ensures Marks("", chain) == []
  {
  }

  // ---- the store ----

  lemma OkStack<T>(d: Doc<T>)
    requires Ok(d)
    ensures d.lines != [] && Ascending(|d.store|, d.stack) && forall i :: 0 <= i < |d.stack| ==> d.stack[i] < |d.store|
  {
  }

  /** after is store but for what the open elements hold, and what was added. */
  ghost predicate Keeps<T>(store: seq<Built<T>>, after: seq<Built<T>>, stack: seq<nat>) {
    |store| <= |after| && forall a :: 0 <= a < |store| && a !in stack ==> after[a] == store[a]
  }

  /** Newly open are only elements open before, or new ones. */
  predicate Fresher(stack: seq<nat>, now: seq<nat>, n: nat) {
    forall a <- now :: a in stack || a >= n
  }

  /** What is sealed does not change, however the open elements do. */
  lemma {:induction false} SealedKept<T>(store: seq<Built<T>>, after: seq<Built<T>>, kids: seq<Kid>, above: int,
                                         stack: seq<nat>,
                                         now: seq<nat>, chain: seq<T>)
    requires AllSealed(store, kids, above, stack) && Keeps(store, after, stack) && Fresher(stack, now, |store|)
    ensures AllSealed(after, kids, above, now)
            && KidsMarks(after, kids, above, chain) == KidsMarks(store, kids, above, chain)
    decreases |store| - above, |kids|
  {
    hide Keeps, Fresher;
    if kids != [] {
      var init, kid := kids[..|kids| - 1], kids[|kids| - 1];
      SealedKept(store, after, init, above, stack, now, chain);
      if kid.Ref? {
        SameAt(store, after, stack, now, kid.at);
        SealedKept(store, after, store[kid.at].kids, kid.at, stack, now, chain + [store[kid.at].tag]);
      }
    }
  }

  lemma SameAt<T>(store: seq<Built<T>>, after: seq<Built<T>>, stack: seq<nat>, now: seq<nat>, a: nat)
    requires Keeps(store, after, stack) && Fresher(stack, now, |store|) && a < |store| && a !in stack
    ensures a < |after| && after[a] == store[a] && a !in now
  {
  }

  lemma SealedLinesKept<T>(store: seq<Built<T>>, after: seq<Built<T>>, lines: seq<seq<Kid>>, stack: seq<nat>,
                           now: seq<nat>)
    requires SealedLines(store, lines, stack) && Keeps(store, after, stack) && Fresher(stack, now, |store|)
    ensures SealedLines(after, lines, now) && Out(after, lines) == Out(store, lines)
  {
    hide Keeps, Fresher, AllSealed, KidsMarks;
    forall i | 0 <= i < |lines|
      ensures AllSealed(after, lines[i], -1, now)
              && KidsMarks(after, lines[i], -1, []) == KidsMarks<T>(store, lines[i], -1, [])
    {
      SealedKept<T>(store, after, lines[i], -1, stack, now, []);
    }
  }

  /** A kid put into the innermost element: the line grows at its end by what it holds. */
  lemma {:induction false} SpinePush<T>(store: seq<Built<T>>, after: seq<Built<T>>, kids: seq<Kid>, above: int,
                                        stack: seq<nat>, i: nat,
                                        chain: seq<T>, v: string)
    requires i < |stack| && Ascending(|store|, stack) && Spine(store, kids, above, stack, i)
    requires var top := stack[|stack| - 1]; after == store[top := Built(store[top].tag, store[top].kids + [Run(v)])]
    ensures Spine(after, kids, above, stack, i)
    ensures KidsMarks(after, kids, above, chain)
            == KidsMarks(store, kids, above, chain) + Marks(v, chain + Tags(store, stack)[i..])
    decreases |stack| - i
  {
    hide Marks, AllSealed, KidsMarks, Keeps, Fresher, Spine;
    SpineLevel(store, kids, above, stack, i);
    var init, a := kids[..|kids| - 1], stack[i];
    assert Keeps(store, after, stack) && Fresher(stack, stack, |store|) by { KeptBy(store, after, stack); }
    SealedKept(store, after, init, above, stack, stack, chain);
    var deeper := chain + [store[a].tag];
    assert chain + Tags(store, stack)[i..] == deeper + Tags(store, stack)[i + 1..];
    if i == |stack| - 1 {
      var inner := store[a].kids;
      SpineLevel(store, inner, a, stack, i + 1);
      assert after[a].kids == inner + [Run(v)];
      SealedKept(store, after, inner, a, stack, stack, deeper);
      OneMoreRun(after, inner, v, a, stack, deeper);
      assert deeper + Tags(store, stack)[i + 1..] == deeper;
    } else {
      assert after[a] == store[a];
      SpinePush(store, after, store[a].kids, a, stack, i + 1, deeper, v);
    }
    SpineLevel(after, kids, above, stack, i);
    SpineLevel(after, after[a].kids, a, stack, i + 1);
    SpineMarks(store, kids, above, chain, a);
    SpineMarks(after, kids, above, chain, a);
  }

  /** A level of the spine. */
  lemma SpineLevel<T>(store: seq<Built<T>>, kids: seq<Kid>, above: int, stack: seq<nat>, i: nat)
    requires i <= |stack|
    ensures Spine(store, kids, above, stack, i)
            <==> if i == |stack| then AllSealed(store, kids, above, stack)
                 else && kids != [] && kids[|kids| - 1] == Ref(stack[i]) && above < stack[i] < |store|
                      && AllSealed(store, kids[..|kids| - 1], above, stack)
                      && Spine(store, store[stack[i]].kids, stack[i], stack, i + 1)
  {
  }

  lemma KeptBy<T>(store: seq<Built<T>>, after: seq<Built<T>>, stack: seq<nat>)
    requires |after| >= |store| && forall a :: 0 <= a < |store| && a !in stack ==> after[a] == store[a]
    ensures Keeps(store, after, stack) && Fresher(stack, stack, |store|)
  {
  }

  lemma OneMoreRun<T>(store: seq<Built<T>>, kids: seq<Kid>, v: string, above: int, stack: seq<nat>, chain: seq<T>)
    requires AllSealed(store, kids, above, stack)
    ensures AllSealed(store, kids + [Run(v)], above, stack)
    ensures KidsMarks(store, kids + [Run(v)], above, chain) == KidsMarks(store, kids, above, chain) + Marks(v, chain)
  {
    assert (kids + [Run(v)])[..|kids|] == kids;
  }

  /** A level of the spine: what came before, then what the open element holds. */
  lemma SpineMarks<T>(store: seq<Built<T>>, kids: seq<Kid>, above: int, chain: seq<T>, a: nat)
    requires kids != [] && kids[|kids| - 1] == Ref(a) && above < a < |store|
    ensures KidsMarks(store, kids, above, chain)
            == KidsMarks(store, kids[..|kids| - 1], above, chain)
            + KidsMarks(store, store[a].kids, a, chain + [store[a].tag])
  {
  }

  lemma PushStore<T>(d: Doc<T>, v: string)
    requires d.lines != [] && Ascending(|d.store|, d.stack)
    ensures var p := Pushed(d, Run(v));
            && |p.store| == |d.store| && Keeps(d.store, p.store, d.stack) && Fresher(d.stack, d.stack, |d.store|)
            && forall a :: 0 <= a < |d.store| ==> p.store[a].tag == d.store[a].tag
  {
  }

  lemma PushLine<T>(d: Doc<T>, v: string)
    requires Ok(d)
    ensures d.lines != [] && Ascending(|d.store|, d.stack)
    ensures var p, n := Pushed(d, Run(v)), |d.lines| - 1;
            && |p.lines| == n + 1 && Spine(p.store, p.lines[n], -1, p.stack, 0)
            && KidsMarks<T>(p.store, p.lines[n], -1, [])
               == KidsMarks<T>(d.store, d.lines[n], -1, []) + Marks(v, Tags(d.store, d.stack))
  {
    hide Marks, Spine, AllSealed, KidsMarks, Keeps, Fresher, SealedLines;
    var p, line := Pushed(d, Run(v)), d.lines[|d.lines| - 1];
    if d.stack != [] {
      SpinePush<T>(d.store, p.store, line, -1, d.stack, 0, [], v);
      assert [] + Tags(d.store, d.stack)[0..] == Tags(d.store, d.stack);
    } else {
      SpineLevel(d.store, line, -1, d.stack, 0);
      OneMoreRun<T>(d.store, line, v, -1, [], []);
      assert Tags(d.store, d.stack) == [];
      SpineLevel(p.store, p.lines[|d.lines| - 1], -1, p.stack, 0);
    }
  }

  lemma PushKeeps<T>(d: Doc<T>, v: string)
    requires Ok(d)
    ensures d.lines != [] && Ascending(|d.store|, d.stack)
    ensures var p := Pushed(d, Run(v));
            && Ok(p) && p.lines != [] && p.stack == d.stack && |p.store| == |d.store|
            && Tags(p.store, p.stack) == Tags(d.store, d.stack)
            && Out(p.store, p.lines)
               == var out := Out(d.store, d.lines);
                  out[|d.lines| - 1 := out[|d.lines| - 1] + Marks(v, Tags(d.store, d.stack))]
  {
    hide Marks, Spine, AllSealed, KidsMarks, Keeps, Fresher, SealedLines;
    var p, n := Pushed(d, Run(v)), |d.lines| - 1;
    PushLine(d, v);
    PushStore(d, v);
    SealedLinesKept(d.store, p.store, d.lines[..n], d.stack, d.stack);
    assert p.lines[..n] == d.lines[..n];
  }

  /** A fresh element put into the innermost one, and open: the line holds what it held. */
  lemma {:induction false} SpineEnter<T>(store: seq<Built<T>>, after: seq<Built<T>>, kids: seq<Kid>, above: int,
                                         stack: seq<nat>, i: nat,
                                         chain: seq<T>, tag: T)
    requires i < |stack| && Ascending(|store|, stack) && Spine(store, kids, above, stack, i)
    requires var top := stack[|stack| - 1];
             after == store[top := Built(store[top].tag, store[top].kids + [Ref(|store|)])] + [Built(tag, [])]
    ensures Spine(after, kids, above, stack + [|store|], i)
    ensures KidsMarks(after, kids, above, chain) == KidsMarks(store, kids, above, chain)
    decreases |stack| - i
  {
    var init, a, more := kids[..|kids| - 1], stack[i], stack + [|store|];
    KeptBy(store, after, stack);
    FreshTop(stack, |store|);
    SealedKept(store, after, init, above, stack, more, chain);
    var deeper := chain + [store[a].tag];
    assert after[a].tag == store[a].tag;
    if i == |stack| - 1 {
      var inner := store[a].kids;
      assert after[a].kids == inner + [Ref(|store|)];
      SealedKept(store, after, inner, a, stack, more, deeper);
      OneMoreRef(after, inner, |store|, a, more, i + 1, deeper, tag);
    } else {
      assert after[a] == store[a];
      SpineEnter(store, after, store[a].kids, a, stack, i + 1, deeper, tag);
    }
    SpineMarks(store, kids, above, chain, a);
    SpineMarks(after, kids, above, chain, a);
  }

  lemma FreshTop(stack: seq<nat>, n: nat)
    ensures Fresher(stack, stack + [n], n)
  {
  }

  lemma OneMoreRef<T>(store: seq<Built<T>>, kids: seq<Kid>, n: nat, above: int, stack: seq<nat>, i: nat, chain: seq<T>,
                      tag: T)
    requires AllSealed(store, kids, above, stack) && i + 1 == |stack| && stack[i] == n && above < n < |store|
             && store[n] == Built(tag, [])
    ensures Spine(store, kids + [Ref(n)], above, stack, i)
    ensures KidsMarks(store, kids + [Ref(n)], above, chain) == KidsMarks(store, kids, above, chain)
  {
    assert (kids + [Ref(n)])[..|kids|] == kids;
    assert KidMarks(store, Ref(n), above, chain) == [];
    assert Spine(store, [], n, stack, i + 1);
  }

  lemma EnterStore<T>(d: Doc<T>, tag: T)
    requires d.lines != [] && Ascending(|d.store|, d.stack)
    ensures var p := Entered(d, tag); Keeps(d.store, p.store, d.stack) && Fresher(d.stack, p.stack, |d.store|)
  {
    FreshTop(d.stack, |d.store|);
  }

  lemma EnterLine<T>(d: Doc<T>, tag: T)
    requires Ok(d)
    ensures d.lines != [] && Ascending(|d.store|, d.stack)
    ensures var p, n := Entered(d, tag), |d.lines| - 1;
            && |p.lines| == n + 1 && Spine(p.store, p.lines[n], -1, p.stack, 0)
            && KidsMarks<T>(p.store, p.lines[n], -1, []) == KidsMarks<T>(d.store, d.lines[n], -1, [])
  {
    hide AllSealed, KidsMarks, Keeps, Fresher, SealedLines, Spine;
    var p, line := Entered(d, tag), d.lines[|d.lines| - 1];
    if d.stack != [] {
      SpineEnter<T>(d.store, p.store, line, -1, d.stack, 0, [], tag);
    } else {
      SpineLevel(d.store, line, -1, d.stack, 0);
      EnterStore(d, tag);
      SealedKept<T>(d.store, p.store, line, -1, [], p.stack, []);
      OneMoreRef<T>(p.store, line, |d.store|, -1, p.stack, 0, [], tag);
    }
  }

  lemma EnterKeeps<T>(d: Doc<T>, tag: T)
    requires Ok(d)
    ensures d.lines != [] && Ascending(|d.store|, d.stack)
    ensures var p := Entered(d, tag);
            && Ok(p) && |p.store| == |d.store| + 1
            && (forall a :: 0 <= a < |d.store| ==> p.store[a].tag == d.store[a].tag)
            && (forall k :: 0 <= k < |p.stack| ==> p.stack[k] < |p.store|)
            && Tags(p.store, p.stack) == Tags(d.store, d.stack) + [tag]
            && Out(p.store, p.lines) == Out(d.store, d.lines)
  {
    hide Spine, AllSealed, KidsMarks, Keeps, Fresher, SealedLines;
    var p, n := Entered(d, tag), |d.lines| - 1;
    EnterLine(d, tag);
    EnterStore(d, tag);
    SealedLinesKept(d.store, p.store, d.lines[..n], d.stack, p.stack);
    assert p.lines[..n] == d.lines[..n];
  }

  /** The innermost element closed is sealed. */
  lemma {:induction false} SpineLeave<T>(store: seq<Built<T>>, kids: seq<Kid>, above: int, stack: seq<nat>, i: nat)
    requires i < |stack| && Ascending(|store|, stack) && Spine(store, kids, above, stack, i)
    ensures Spine(store, kids, above, stack[..|stack| - 1], i)
    decreases |stack| - i
  {
    var less, a := stack[..|stack| - 1], stack[i];
    KeptBy(store, store, stack);
    Fewer(stack, |store|);
    SealedKept<T>(store, store, kids[..|kids| - 1], above, stack, less, []);
    if i == |stack| - 1 {
      SealedKept<T>(store, store, store[a].kids, a, stack, less, []);
      assert a !in less;
    } else {
      SpineLeave(store, store[a].kids, a, stack, i + 1);
    }
  }

  lemma Fewer(stack: seq<nat>, n: nat)
    requires stack != []
    ensures Fresher(stack, stack[..|stack| - 1], n)
  {
  }

  lemma LeaveKeeps<T>(d: Doc<T>)
    requires Ok(d) && d.stack != []
    ensures var p := d.(stack := d.stack[..|d.stack| - 1]);
            && Ok(p) && Ascending(|p.store|, p.stack) && Ascending(|d.store|, d.stack)
            && Tags(p.store, p.stack) == Tags(d.store, d.stack)[..|d.stack| - 1]
  {
    hide AllSealed;
    SpineLeave(d.store, d.lines[|d.lines| - 1], -1, d.stack, 0);
    KeptBy(d.store, d.store, d.stack);
    Fewer(d.stack, |d.store|);
    SealedLinesKept(d.store, d.store, d.lines[..|d.lines| - 1], d.stack, d.stack[..|d.stack| - 1]);
  }

  /** With nothing open any more, everything is sealed. */
  lemma {:induction false} SpineCloses<T>(store: seq<Built<T>>, kids: seq<Kid>, above: int, stack: seq<nat>, i: nat)
    requires i <= |stack| && Spine(store, kids, above, stack, i)
    ensures AllSealed(store, kids, above, [])
    decreases |stack| - i
  {
    KeptBy(store, store, stack);
    if i == |stack| {
      SealedKept<T>(store, store, kids, above, stack, [], []);
    } else {
      SealedKept<T>(store, store, kids[..|kids| - 1], above, stack, [], []);
      SpineCloses(store, store[stack[i]].kids, stack[i], stack, i + 1);
    }
  }

  lemma LineStarted<T>(d: Doc<T>)
    requires Ok(d)
    ensures var p := Doc(d.store, d.lines + [[]], []);
            Ok(p) && Out(p.store, p.lines) == Out(d.store, d.lines) + [[]] && Tags(p.store, p.stack) == []
  {
    var p, n := Doc(d.store, d.lines + [[]], []), |d.lines| - 1;
    hide KidsMarks, Sealed;
    SpineCloses(d.store, d.lines[n], -1, d.stack, 0);
    KeptBy(d.store, d.store, d.stack);
    SealedLinesKept(d.store, d.store, d.lines[..n], d.stack, []);
    assert p.lines[..|p.lines| - 1] == d.lines;
    assert KidsMarks<T>(d.store, [], -1, []) == [] by { NoMarks(d.store); }
    assert forall i :: 0 <= i < n ==> d.lines[..n][i] == d.lines[i];
    assert AllSealed(d.store, [], -1, []);
  }

  lemma NoMarks<T>(store: seq<Built<T>>)
    ensures KidsMarks<T>(store, [], -1, []) == []
  {
  }

  // ---- the whole file ----

  /** highlightLines: each line's characters, every one inside exactly the elements it
      was inside, outermost first. */
  method SplitTree<T>(children: seq<Node<T>>) returns (s: Splitter<T>)
    ensures s.lines != [] && Out(s.store, s.lines) == Absorb([[]], NodesMarks(children, []))
  {
    s := new Splitter();
    StartOk<T>();
    hide Ok, Absorb, Out;
    AbsorbNone<T>([[]]);
    for i := 0 to |children|
      invariant Ok(s.Now()) && s.lines != [] && (forall k :: 0 <= k < |s.stack| ==> s.stack[k] < |s.store|)
                && Tags(s.store, s.stack) == []
      invariant Out(s.store, s.lines) == Absorb([[]], NodesMarks(children[..i], []))
    {
      assert children[..i + 1][..i] == children[..i];
      AbsorbMore([[]], NodesMarks(children[..i], []), NodeMarks(children[i], []));
      s.Walk(children[i]);
      OkStack(s.Now());
    }
    assert children[..|children|] == children;
  }

  lemma StartOk<T>()
    ensures Ok<T>(Doc([], [[]], [])) && Out<T>([], [[]]) == [[]] && Tags<T>([], []) == []
  {
    var lines: seq<seq<Kid>> := [[]];
    assert lines[..0] == [] && Out<T>([], lines[..0]) == [];
  }

  function TextOf<T>(marks: seq<Mark<T>>): (r: string)
    ensures |r| == |marks| && forall i :: 0 <= i < |r| ==> r[i] == marks[i].c
  {
    if marks == [] then "" else TextOf(marks[..|marks| - 1]) + [marks[|marks| - 1].c]
  }

  function LineTexts<T>(lines: seq<seq<Mark<T>>>): (r: seq<string>)
    ensures |r| == |lines| && forall i :: 0 <= i < |lines| ==> r[i] == TextOf(lines[i])
  {
    seq(|lines|, i requires 0 <= i < |lines| => TextOf(lines[i]))
  }

  lemma JoinLonger(texts: seq<string>, more: string)
    requires texts != []
    ensures Join(texts[|texts| - 1 := texts[|texts| - 1] + more], ['\n']) == Join(texts, ['\n']) + more
  {
    hide Join;
    var n := |texts| - 1;
    var init := texts[..n];
    assert texts == init + [texts[n]] && texts[n := texts[n] + more] == init + [texts[n] + more];
    if n > 0 {
      JoinAppend(init, texts[n], ['\n']);
      JoinAppend(init, texts[n] + more, ['\n']);
    } else {
      JoinNone(texts[n]);
      JoinNone(texts[n] + more);
    }
  }

  /** The lines' text joined by newlines is the tree's text. */
  lemma {:induction false} LinesJoinToText<T>(marks: seq<Mark<T>>)
    ensures Join(LineTexts(Absorb([[]], marks)), ['\n']) == TextOf(marks)
  {
    hide Join;
    if marks != [] {
      var init, m := marks[..|marks| - 1], marks[|marks| - 1];
      LinesJoinToText(init);
      var before := Absorb([[]], init);
      var texts, n := LineTexts(before), |before| - 1;
      if m.c == '\n' {
        JoinAppend(texts, "", ['\n']);
        assert LineTexts(before + [[]]) == texts + [""];
      } else {
        var longer := before[n] + [m];
        assert longer[..|before[n]|] == before[n];
        assert LineTexts(before[n := longer]) == texts[n := texts[n] + [m.c]];
        hide LineTexts, TextOf, Absorb;
        JoinLonger(texts, [m.c]);
      }
    } else {
      assert LineTexts<T>([[]]) == [""];
      JoinNone("");
    }
  }

  /** And no line holds a newline: splitting the text gives the lines back. */
  lemma LinesAreSplit<T>(marks: seq<Mark<T>>)
    ensures LineTexts(Absorb([[]], marks)) == Split(TextOf(marks), '\n')
  {
    LinesJoinToText(marks);
    NoBreakInside(marks);
    SplitJoin(LineTexts(Absorb([[]], marks)), '\n');
  }

  lemma {:induction false} NoBreakInside<T>(marks: seq<Mark<T>>)
    ensures forall t <- LineTexts(Absorb([[]], marks)) :: '\n' !in t
    ensures forall i :: 0 <= i < |Absorb([[]], marks)| ==> '\n' !in TextOf(Absorb([[]], marks)[i])
  {
    if marks != [] {
      NoBreakInside(marks[..|marks| - 1]);
    }
  }

  /** The characters off the newlines, in order, each with its chain. */
  function Kept<T>(marks: seq<Mark<T>>): seq<Mark<T>> {
    if marks == [] then []
    else
      var init, m := Kept(marks[..|marks| - 1]), marks[|marks| - 1];
      if m.c == '\n' then init else init + [m]
  }

  function Flat<T>(lines: seq<seq<Mark<T>>>): seq<Mark<T>> {
    if lines == [] then [] else Flat(lines[..|lines| - 1]) + lines[|lines| - 1]
  }

  /** Read one after the other, the lines hold every character of the tree but the
      newlines, inside exactly its own elements. */
  lemma {:induction false} LinesKeepChains<T>(marks: seq<Mark<T>>)
    ensures Flat(Absorb([[]], marks)) == Kept(marks)
  {
    if marks == [] {
      assert Flat<T>([[]]) == Flat<T>([[]][..0]) + [];
    } else {
      var init, m := marks[..|marks| - 1], marks[|marks| - 1];
      LinesKeepChains(init);
      var before := Absorb([[]], init);
      var n := |before| - 1;
      if m.c == '\n' {
        assert (before + [[]])[..n + 1] == before;
      } else {
        var all := before[n := before[n] + [m]];
        assert all[..n] == before[..n];
      }
    }
  }
}
