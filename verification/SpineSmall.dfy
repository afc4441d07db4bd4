// Small flows with a spine: what their paths and texts come to, worked out by hand.
module SpineSmall {
  import opened Geometry
  import opened Text
  import opened DiagramTheme
  import opened Flow
  import opened SpinePath
  import opened SpineRows
  import opened SpineLayout
  import SpineShape

  // ---- the longest path, node by node ----

  /** A node with no way on. */
  lemma LongestEnd(g: Graph, id: string, stack: set<string>)
    requires g.Valid() && id in g.nodes && id !in stack && OutOf(g.edges, id) == []
    ensures LongestFrom(g, id, stack) == [id]
  {
  }

  /** A node with one. */
  lemma LongestOn(g: Graph, id: string, stack: set<string>, to: string)
    requires g.Valid() && id in g.nodes && id !in stack && |OutOf(g.edges, id)| == 1 && Next(g, id, 0) == to
    requires to !in stack + {id}
    ensures LongestFrom(g, id, stack) == [id] + LongestFrom(g, to, stack + {id})
  {
    FewerLeft(g.nodes, stack, id);
    assert BestOn(g, id, stack + {id}, 0) == [];
  }

  /** A node with two, the first as long as the second. */
  lemma LongestFirst(g: Graph, id: string, stack: set<string>, to: string, other: string)
    requires g.Valid() && id in g.nodes && id !in stack && |OutOf(g.edges, id)| == 2
    requires Next(g, id, 0) == to && Next(g, id, 1) == other && to !in stack + {id} && other !in stack + {id}
    requires |LongestFrom(g, other, stack + {id})| <= |LongestFrom(g, to, stack + {id})|
    ensures LongestFrom(g, id, stack) == [id] + LongestFrom(g, to, stack + {id})
  {
    FewerLeft(g.nodes, stack, id);
    hide OutOf, Next;
    assert BestOn(g, id, stack + {id}, 0) == [];
    assert BestOn(g, id, stack + {id}, 1) == LongestFrom(g, to, stack + {id});
  }

  /** The spine of a flow whose parts are known. */
  lemma SpineWith(ir: FlowIR, path: seq<string>, shape: SpineShape.Shape)
    requires IrOk(ir) && ir.direction == TopDown && ir.zones == [] && (forall e <- ir.edges :: e.from != e.to)
    requires path != [] && StartOf(ir.nodes, ir.edges) == Some(path[0]) && path[0] in GraphOf(ir).nodes
    requires LongestFrom(GraphOf(ir), path[0], {}) == path && SpineShape.ShapeOf(GraphOf(ir), path) == Some(shape)
    ensures Spine(ir) == Some(Found(GraphOf(ir), path, shape)) && Ready(Found(GraphOf(ir), path, shape))
    ensures Known(Found(GraphOf(ir), path, shape))
  {
    hide LongestFrom, SpineShape.ShapeOf, StartOf, GraphOf;
    assert !exists e :: e in ir.edges && e.from == e.to;
    assert Spine(ir) == Some(Found(GraphOf(ir), path, shape));
    SpineReady(ir);
    ReadyKnown(Found(GraphOf(ir), path, shape));
  }

  /** The gap before a column no label leads into. */
  lemma {:induction false} NothingInto(rows: seq<Row>, k: nat)
    requires forall r <- rows :: forall l <- r.chain :: l.text.None?
    ensures WidestInto(rows, k) == 0 && (k > 0 ==> ColumnGap(rows, k) == 48.0)
  {
    if rows != [] {
      NothingInto(rows[1..], k);
      if k < |rows[0].chain| {
        assert rows[0] in rows && rows[0].chain[k] in rows[0].chain;
      }
    }
  }

  // ---- plain text ----

  /** A lower-case letter or a space. */
  predicate Low(c: char) {
    'a' <= c <= 'z' || c == ' '
  }

  predicate AllLow(s: string) {
    forall i :: 0 <= i < |s| ==> Low(s[i])
  }

  /** What the page's measure gives such characters: 0.56 em in the sans, 0.6 in the mono; and
      no text of them and line breaks is taken for code. */
  ghost predicate Budgeted(fonts: Fonts) {
    && (forall c :: Low(c) ==> fonts.adv(c, Sans) == 0.56 && fonts.adv(c, Mono) == 0.6)
    && (forall text :: (forall i :: 0 <= i < |text| ==> Low(text[i]) || text[i] == '\n') ==> !fonts.code(text))
  }

  lemma {:induction false} LowEm(fonts: Fonts, s: string, face: Face)
    requires Budgeted(fonts) && AllLow(s)
    ensures Em(fonts.adv, s, face) == |s| as real * if face.Sans? then 0.56 else 0.6
  {
    hide Budgeted;
    if s != "" {
      var n := |s| - 1;
      LowEm(fonts, s[..n], face);
      assert Low(s[n]);
      LowAdvance(fonts, s[n], face);
      assert |s| as real == n as real + 1.0;
    }
  }

  lemma LowAdvance(fonts: Fonts, c: char, face: Face)
    requires Budgeted(fonts) && Low(c)
    ensures fonts.adv(c, face) == if face.Sans? then 0.56 else 0.6
  {
  }

  /** In a box's text each is 7.28 px. */
  lemma LowWidth(fonts: Fonts, s: string)
    requires Budgeted(fonts) && AllLow(s)
    ensures TextWidth(fonts.adv, s, RAMP_TEXT, Sans) == |s| as real * 7.28
  {
    LowEm(fonts, s, Sans);
    hide Em, Budgeted;
  }

  lemma LowPlain(fonts: Fonts, text: string)
    requires Budgeted(fonts) && forall i :: 0 <= i < |text| ==> Low(text[i]) || text[i] == '\n'
    ensures !fonts.code(text)
  {
  }

  lemma {:induction false} WordsOfWord(s: string)
    requires forall i :: 0 <= i < |s| ==> !IsSpace(s[i])
    ensures Words(s) == [s]
  {
    if s != "" {
      WordsOfWord(s[1..]);
      assert [s[0]] + s[1..] == s;
    }
  }

  /** No run is wider than each of them may be. */
  lemma {:induction false} WidestWithin(adv: Advance, runs: seq<string>, size: Size, face: Face, w: real)
    requires w >= 0.0 && forall i :: 0 <= i < |runs| ==> TextWidth(adv, runs[i], size, face) <= w
    ensures WidestRun(adv, runs, size, face) <= w
  {
    hide TextWidth;
    if runs != [] {
      WidestWithin(adv, runs[1..], size, face, w);
    }
  }
}
