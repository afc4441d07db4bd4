// A turn of a thread and what one event of its stream does to it (ui/src/turns.ts,
// ui/src/turnEvents.ts).
module Turns {
  import opened Geometry

  datatype Step = Step(step: string, at: int, serverAt: Option<int>, detail: Option<string>)

  datatype Clarification = Clarification(messageId: int, candidates: seq<string>, tooBroad: bool)

  datatype Turn = Turn(
    question: string, language: string, text: string, citations: seq<string>, notice: string,
    steps: seq<Step>, clockSkew: Option<int>, error: string, retry: Option<string>,
    done: bool, messageId: Option<int>, recorded: bool, headId: Option<int>,
    clarification: Option<Clarification>, chosenIdx: Option<int>, endedAt: Option<int>,
    usage: Option<string>, followups: seq<string>, sourceless: bool, memory: Option<string>)

  /** One event of the stream, its payload read. */
  datatype Event =
    | Thread(id: string, language: Option<string>)
    | Status(step: string, at: Option<int>)
    | Detail(step: string, detail: Option<string>)
    | Notice(text: string)
    | Token(text: string)
    | Citations(citations: seq<string>)
    | Followups(followups: seq<string>)
    | Memory(memory: string)
    | UsageOf(usage: string)
    | Clarify(card: Clarification)
    | Failed(message: string, messageId: Option<int>)
    | Finished(messageId: Option<int>, language: Option<string>, sourceless: bool)
    | Other(name: string)

  function Else<T>(o: Option<T>, t: T): T {
    if o.Some? then o.value else t
  }

  function MinInt(a: int, b: int): int {
    if a <= b then a else b
  }

  /** A server-timed step moved onto the browser's clock. */
  function Placed(s: Step, skew: int): Step {
    if s.serverAt.Some? then s.(at := s.serverAt.value + skew) else s
  }

  function PlacedAll(steps: seq<Step>, skew: int): (r: seq<Step>)
    ensures |r| == |steps| && forall k :: 0 <= k < |steps| ==> r[k] == Placed(steps[k], skew)
  {
    if steps == [] then [] else [Placed(steps[0], skew)] + PlacedAll(steps[1..], skew)
  }

  function WithStep(t: Turn, step: string, now: int, serverAt: Option<int>): Turn {
    if serverAt.None? then t.(steps := t.steps + [Step(step, now, None, None)])
    else
      var late := now - serverAt.value;
      var skew := if t.clockSkew.Some? then MinInt(t.clockSkew.value, late) else late;
      t.(clockSkew := Some(skew), steps := PlacedAll(t.steps + [Step(step, now, serverAt, None)], skew))
  }

  /** The latest step of that name, or -1. */
  function LastStep(steps: seq<Step>, name: string): (i: int)
    ensures -1 <= i < |steps| && (i >= 0 ==> steps[i].step == name)
    ensures forall k :: i < k < |steps| ==> steps[k].step != name
  {
    if steps == [] then -1
    else if steps[|steps| - 1].step == name then |steps| - 1
    else LastStep(steps[..|steps| - 1], name)
  }

  /** What an event does to the turn; nothing when it is handed back as it was. */
  function Changed(t: Turn, e: Event, now: int): Option<Turn> {
    match e
    case Thread(_, language) => Some(t.(recorded := true, language := Else(language, t.language)))
    case Status(step, at) => Some(WithStep(t, step, now, at))
    case Detail(step, detail) =>
      var i := LastStep(t.steps, step);
      if i < 0 then None else Some(t.(steps := t.steps[i := t.steps[i].(detail := detail)]))
    case Notice(text) => Some(t.(notice := text))
    case Token(text) => Some(t.(text := t.text + text))
    case Citations(citations) => Some(t.(citations := citations))
    case Followups(followups) => Some(t.(followups := followups))
    case Memory(memory) => Some(t.(memory := Some(memory)))
    case UsageOf(usage) => Some(t.(usage := Some(usage)))
    case Clarify(card) => Some(t.(messageId := Some(card.messageId), clarification := Some(card)))
    case Failed(message, id) =>
      Some(t.(error := message, done := true, endedAt := Some(now), messageId := if id.Some? then id else t.messageId))
    case Finished(id, language, sourceless) =>
      Some(t.(done := true, endedAt := Some(Else(t.endedAt, now)), messageId := if id.Some? then id else t.messageId,
              recorded := true, language := Else(language, t.language), sourceless := sourceless))
    case Other(_) => None
  }

  function ApplyEvent(t: Turn, e: Event, now: int): Turn {
    Else(Changed(t, e, now), t)
  }

  predicate EndsTurn(e: Event) {
    e.Failed? || e.Finished?
  }

  // ---- the clock over a run ----

  datatype Arrival = Arrival(e: Event, now: int)

  function Fold(t: Turn, run: seq<Arrival>): Turn {
    if run == [] then t
    else
      var last := run[|run| - 1];
      ApplyEvent(Fold(t, run[..|run| - 1]), last.e, last.now)
  }

  /** The status events of a run, in order: one a step. */
  function Statuses(run: seq<Arrival>): (r: seq<Arrival>)
    ensures forall k :: 0 <= k < |r| ==> r[k].e.Status? && r[k] in run
  {
    if run == [] then []
    else
      var last := run[|run| - 1];
      Statuses(run[..|run| - 1]) + if last.e.Status? then [last] else []
  }

  predicate Timed(a: Arrival) {
    a.e.Status? && a.e.at.Some?
  }

  /** How late an event with a server time arrived. */
  function Delay(a: Arrival): int
    requires Timed(a)
  {
    a.now - a.e.at.value
  }

  /** The least arrival delay of the server-timed events. */
  ghost predicate LeastDelay(run: seq<Arrival>, skew: int) {
    && (exists k :: 0 <= k < |run| && Timed(run[k]) && Delay(run[k]) == skew)
    && (forall k :: 0 <= k < |run| && Timed(run[k]) ==> skew <= Delay(run[k]))
  }

  /** A step beside the event it came with. */
  predicate StepOf(s: Step, a: Arrival, skew: Option<int>) {
    && a.e.Status? && s.step == a.e.step && s.serverAt == a.e.at
    && (if a.e.at.Some? then skew.Some? && s.at == a.e.at.value + skew.value else s.at == a.now)
  }

  predicate OnClock(t: Turn, seen: seq<Arrival>) {
    |t.steps| == |seen| && forall k :: 0 <= k < |seen| ==> StepOf(t.steps[k], seen[k], t.clockSkew)
  }

  ghost predicate SkewIs(t: Turn, run: seq<Arrival>) {
    if t.clockSkew.Some? then LeastDelay(run, t.clockSkew.value) else forall k :: 0 <= k < |run| ==> !Timed(run[k])
  }

  lemma SkewStep(before: Turn, run: seq<Arrival>, a: Arrival)
    requires SkewIs(before, run)
    ensures SkewIs(ApplyEvent(before, a.e, a.now), run + [a])
  {
    var t, all := ApplyEvent(before, a.e, a.now), run + [a];
    assert t.clockSkew == if !Timed(a) then before.clockSkew
                          else if before.clockSkew.Some? then Some(MinInt(before.clockSkew.value, Delay(a)))
                          else Some(Delay(a)) by {
      hide SkewIs;
    }
    hide ApplyEvent;
    assert all[|run|] == a;
    assert forall k :: 0 <= k < |run| ==> all[k] == run[k];
    if before.clockSkew.Some? {
      var k :| 0 <= k < |run| && Timed(run[k]) && Delay(run[k]) == before.clockSkew.value;
      assert Timed(all[k]) && Delay(all[k]) == before.clockSkew.value;
    }
  }

  lemma StepsPlaced(t: Turn, seen: seq<Arrival>, a: Arrival)
    requires OnClock(t, seen) && a.e.Status?
    ensures OnClock(WithStep(t, a.e.step, a.now, a.e.at), seen + [a])
  {
    var after, all := WithStep(t, a.e.step, a.now, a.e.at), seen + [a];
    forall k | 0 <= k < |all| ensures StepOf(after.steps[k], all[k], after.clockSkew) {
      assert k < |seen| ==> StepOf(t.steps[k], seen[k], t.clockSkew);
    }
  }

  lemma ClockStep(before: Turn, seen: seq<Arrival>, a: Arrival)
    requires OnClock(before, seen)
    ensures OnClock(ApplyEvent(before, a.e, a.now), if a.e.Status? then seen + [a] else seen)
  {
    if a.e.Status? {
      StepsPlaced(before, seen, a);
      hide OnClock, WithStep;
    } else {
      OthersLeaveTheClock(before, a.e, a.now);
      var t := ApplyEvent(before, a.e, a.now);
      hide ApplyEvent;
      forall k | 0 <= k < |seen| ensures StepOf(t.steps[k], seen[k], t.clockSkew) {
        assert StepOf(before.steps[k], seen[k], before.clockSkew);
        assert t.steps[k].(detail := None) == before.steps[k].(detail := None);
      }
    }
  }

  lemma ClockStarts(t: Turn)
    requires t.steps == [] && t.clockSkew.None?
    ensures OnClock(t, []) && SkewIs(t, [])
  {
  }

  /** After any run of events on a fresh turn there is one step a status event, in
      order: a server-timed one at its server time plus the least arrival delay seen,
      the others at their arrival. */
  lemma {:induction false} StepsOnClock(t: Turn, run: seq<Arrival>)
    requires t.steps == [] && t.clockSkew.None?
    ensures OnClock(Fold(t, run), Statuses(run)) && SkewIs(Fold(t, run), run)
  {
    hide OnClock, SkewIs, ApplyEvent;
    if run == [] {
      ClockStarts(t);
    } else {
      var init, last := run[..|run| - 1], run[|run| - 1];
      StepsOnClock(t, init);
      ClockStep(Fold(t, init), Statuses(init), last);
      SkewStep(Fold(t, init), init, last);
      assert run == init + [last];
      assert Statuses(run) == if last.e.Status? then Statuses(init) + [last] else Statuses(init);
    }
  }

  /** So two server-timed steps keep the server's gap, and none stands later than its
      own arrival. */
  lemma StepsKeepGaps(t: Turn, run: seq<Arrival>, j: nat, k: nat)
    requires t.steps == [] && t.clockSkew.None? && j < |Statuses(run)| && k < |Statuses(run)|
    ensures |Fold(t, run).steps| == |Statuses(run)|
    ensures var steps, seen := Fold(t, run).steps, Statuses(run);
            && steps[k].at <= seen[k].now
            && (Timed(seen[j]) && Timed(seen[k]) ==>
                steps[k].at - steps[j].at == seen[k].e.at.value - seen[j].e.at.value)
  {
    StepsOnClock(t, run);
    var after, seen := Fold(t, run), Statuses(run);
    assert StepOf(after.steps[j], seen[j], after.clockSkew) && StepOf(after.steps[k], seen[k], after.clockSkew);
    if Timed(seen[k]) {
      assert seen[k] in run;
    }
  }

  /** An event that is no status moves no step and names none. */
  lemma OthersLeaveTheClock(t: Turn, e: Event, now: int)
    requires !e.Status?
    ensures var after := ApplyEvent(t, e, now);
            && after.clockSkew == t.clockSkew && |after.steps| == |t.steps|
            && forall k :: 0 <= k < |t.steps| ==> after.steps[k].(detail := None) == t.steps[k].(detail := None)
  {
  }

  // ---- turns by question ----

  datatype Key = Head(id: int) | Live(i: nat)

  /** The turn a turn is an attempt at, or its own place while it has no id. */
  function KeyOf(turns: seq<Turn>, i: nat): Key
    requires i < |turns|
  {
    if turns[i].headId.Some? then Head(turns[i].headId.value)
    else if turns[i].messageId.Some? then Head(turns[i].messageId.value)
    else Live(i)
  }

  predicate GroupAt(turns: seq<Turn>, n: nat, group: seq<nat>)
    requires n <= |turns|
  {
    && group != [] && (forall i :: 0 <= i < |group| ==> group[i] < n)
    && (forall i :: 0 <= i < |group| ==> KeyOf(turns, group[i]) == KeyOf(turns, group[0]))
    && forall i, j :: 0 <= i < j < |group| ==> group[i] < group[j]
  }

  predicate InGroup(groups: seq<seq<nat>>, g: nat, i: nat) {
    g < |groups| && i in groups[g]
  }

  ghost predicate SomeGroup(groups: seq<seq<nat>>, i: nat) {
    exists g: nat :: InGroup(groups, g, i)
  }

  /** The groups of the first n turns: each turn in one, two in the same exactly when
      they are attempts at the same question, in the order first asked. */
  ghost predicate Grouped(turns: seq<Turn>, n: nat, groups: seq<seq<nat>>)
    requires n <= |turns|
  {
    && (forall g :: 0 <= g < |groups| ==> GroupAt(turns, n, groups[g]))
    && (forall i: nat :: i < n ==> SomeGroup(groups, i))
    && (forall g, h :: 0 <= g < h < |groups| ==> groups[g][0] < groups[h][0]
                                                 && KeyOf(turns, groups[g][0]) != KeyOf(turns, groups[h][0]))
  }

  lemma GroupAdded(turns: seq<Turn>, n: nat, groups: seq<seq<nat>>)
    requires n < |turns| && Grouped(turns, n, groups)
    requires forall g :: 0 <= g < |groups| ==> KeyOf(turns, groups[g][0]) != KeyOf(turns, n)
    ensures Grouped(turns, n + 1, groups + [[n]])
    ensures forall h :: 0 <= h < |groups| ==> groups[h] != []
  {
    var all := groups + [[n]];
    forall g | 0 <= g < |all| ensures GroupAt(turns, n + 1, all[g]) {
      assert g < |groups| ==> GroupAt(turns, n, groups[g]);
    }
    forall i: nat | i < n + 1 ensures SomeGroup(all, i) {
      if i < n {
        assert SomeGroup(groups, i);
        var g: nat :| InGroup(groups, g, i);
        assert InGroup(all, g, i);
      } else {
        assert InGroup(all, |groups|, i);
      }
    }
    forall g, h | 0 <= g < h < |all|
      ensures all[g][0] < all[h][0] && KeyOf(turns, all[g][0]) != KeyOf(turns, all[h][0])
    {
      assert GroupAt(turns, n, groups[g]);
    }
  }

  lemma GroupGrown(turns: seq<Turn>, n: nat, groups: seq<seq<nat>>, g: nat)
    requires n < |turns| && Grouped(turns, n, groups) && g < |groups| && KeyOf(turns, groups[g][0]) == KeyOf(turns, n)
    ensures Grouped(turns, n + 1, groups[g := groups[g] + [n]])
    ensures forall h :: 0 <= h < |groups| ==> groups[h] != []
  {
    var all := groups[g := groups[g] + [n]];
    assert GroupAt(turns, n, groups[g]);
    forall h | 0 <= h < |all| ensures GroupAt(turns, n + 1, all[h]) && all[h][0] == groups[h][0] {
      assert GroupAt(turns, n, groups[h]);
    }
    forall i: nat | i < n + 1 ensures SomeGroup(all, i) {
      if i < n {
        assert SomeGroup(groups, i);
        var h: nat :| InGroup(groups, h, i);
        assert InGroup(all, h, i);
      } else {
        assert InGroup(all, g, i);
      }
    }
  }

  /** The map says which group each question has. */
  ghost predicate Indexed(turns: seq<Turn>, groups: seq<seq<nat>>, at: map<Key, nat>) {
    && (forall g :: 0 <= g < |groups| ==> groups[g] != [] && groups[g][0] < |turns|)
    && (forall key <- at.Keys :: at[key] < |groups| && KeyOf(turns, groups[at[key]][0]) == key)
    && (forall g :: 0 <= g < |groups| ==> KeyOf(turns, groups[g][0]) in at.Keys)
  }

  lemma IndexGrown(turns: seq<Turn>, groups: seq<seq<nat>>, at: map<Key, nat>, g: nat, i: nat)
    requires Indexed(turns, groups, at) && g < |groups|
    ensures Indexed(turns, groups[g := groups[g] + [i]], at)
  {
    hide KeyOf;
    var all := groups[g := groups[g] + [i]];
    assert forall h :: 0 <= h < |groups| ==> all[h] != [] && all[h][0] == groups[h][0];
  }

  lemma IndexAdded(turns: seq<Turn>, groups: seq<seq<nat>>, at: map<Key, nat>, i: nat)
    requires Indexed(turns, groups, at) && i < |turns| && KeyOf(turns, i) !in at
    ensures Indexed(turns, groups + [[i]], at[KeyOf(turns, i) := |groups|])
  {
    hide KeyOf;
  }

  lemma IndexSays(turns: seq<Turn>, groups: seq<seq<nat>>, at: map<Key, nat>, key: Key)
    requires Indexed(turns, groups, at)
    ensures forall g :: 0 <= g < |groups| ==> groups[g] != [] && groups[g][0] < |turns|
    ensures key in at ==> at[key] < |groups| && KeyOf(turns, groups[at[key]][0]) == key
    ensures key !in at ==> forall g :: 0 <= g < |groups| ==> KeyOf(turns, groups[g][0]) != key
  {
  }

  lemma NoGroups(turns: seq<Turn>)
    ensures Grouped(turns, 0, []) && Indexed(turns, [], map[])
  {
  }

  /** groupByQuestion. */
  method GroupByQuestion(turns: seq<Turn>) returns (groups: seq<seq<nat>>)
    ensures Grouped(turns, |turns|, groups)
  {
    hide Grouped, KeyOf, Indexed, GroupAt, SomeGroup;
    var at: map<Key, nat> := map[];
    groups := [];
    NoGroups(turns);
    for i := 0 to |turns|
      invariant Grouped(turns, i, groups) && Indexed(turns, groups, at)
    {
      var key := KeyOf(turns, i);
      IndexSays(turns, groups, at, key);
      if key in at {
        var g := at[key];
        GroupGrown(turns, i, groups, g);
        IndexGrown(turns, groups, at, g, i);
        groups := groups[g := groups[g] + [i]];
      } else {
        GroupAdded(turns, i, groups);
        IndexAdded(turns, groups, at, i);
        at := at[key := |groups|];
        groups := groups + [[i]];
      }
    }
  }

  /** A turn with a head is an attempt at that question; any other with an id of its own is
      the first attempt at itself. */
  predicate AttemptAt(t: Turn, id: int) {
    t.headId == Some(id) || (t.headId.None? && t.messageId == Some(id))
  }

  ghost predicate SameQuestion(turns: seq<Turn>, i: nat, j: nat)
    requires i < |turns| && j < |turns|
  {
    i == j || exists id :: AttemptAt(turns[i], id) && AttemptAt(turns[j], id)
  }

  ghost predicate Together(groups: seq<seq<nat>>, i: nat, j: nat) {
    exists g: nat :: InGroup(groups, g, i) && InGroup(groups, g, j)
  }

  lemma SameKey(turns: seq<Turn>, i: nat, j: nat)
    requires i < |turns| && j < |turns|
    ensures KeyOf(turns, i) == KeyOf(turns, j) <==> SameQuestion(turns, i, j)
  {
    if KeyOf(turns, i) == KeyOf(turns, j) && i != j {
      assert AttemptAt(turns[i], KeyOf(turns, i).id) && AttemptAt(turns[j], KeyOf(turns, i).id);
    }
  }

  lemma InOneGroup(turns: seq<Turn>, groups: seq<seq<nat>>, g: nat, i: nat)
    requires Grouped(turns, |turns|, groups) && InGroup(groups, g, i)
    ensures groups[g] != [] && groups[g][0] < |turns| && i < |turns|
    ensures KeyOf(turns, i) == KeyOf(turns, groups[g][0])
  {
    hide KeyOf;
    assert GroupAt(turns, |turns|, groups[g]);
    var k :| 0 <= k < |groups[g]| && groups[g][k] == i;
  }

  /** Two turns are in one group exactly when they are attempts at one question. */
  lemma OneQuestion(turns: seq<Turn>, groups: seq<seq<nat>>, i: nat, j: nat)
    requires Grouped(turns, |turns|, groups) && i < |turns| && j < |turns|
    ensures Together(groups, i, j) <==> SameQuestion(turns, i, j)
  {
    hide KeyOf, SameQuestion, GroupAt;
    SameKey(turns, i, j);
    assert SomeGroup(groups, i) && SomeGroup(groups, j);
    var g: nat :| InGroup(groups, g, i);
    var h: nat :| InGroup(groups, h, j);
    InOneGroup(turns, groups, g, i);
    InOneGroup(turns, groups, h, j);
    if Together(groups, i, j) {
      var k: nat :| InGroup(groups, k, i) && InGroup(groups, k, j);
      InOneGroup(turns, groups, k, i);
      InOneGroup(turns, groups, k, j);
    }
  }
}
