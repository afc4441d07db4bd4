// What a stream writes into its turn, over a whole run of it: every field from the events
// that speak of it, and nothing else (ui/src/turnEvents.ts and patchLast of ui/src/Ask.tsx).
module TurnWriting {
  import opened Geometry
  import opened Turns
  import opened AskPage
  import opened AskRuns

  // ---- which events speak of what ----

  datatype Kind =
    | Says | Notes | Cites | Suggests | Remembers | Costs | Asks | Fails | Errs | Finishes | Ends | Records
    | NamesMessage | NamesLanguage | KeepsRequest

  predicate Fits(p: Patch, kind: Kind) {
    match kind
    case Says => p.Apply? && p.e.Token?
    case Notes => p.Apply? && p.e.Notice?
    case Cites => p.Apply? && p.e.Citations?
    case Suggests => p.Apply? && p.e.Followups?
    case Remembers => p.Apply? && p.e.Memory?
    case Costs => p.Apply? && p.e.UsageOf?
    case Asks => p.Apply? && p.e.Clarify?
    case Fails => p.Apply? && p.e.Failed?
    case Errs => p.Fail? || (p.Apply? && p.e.Failed?)
    case Finishes => p.Apply? && p.e.Finished?
    case Ends => p.Fail? || (p.Apply? && (p.e.Failed? || p.e.Finished?))
    case Records => p.Apply? && (p.e.Thread? || p.e.Finished?)
    case NamesMessage => p.Apply? && (p.e.Clarify? || ((p.e.Failed? || p.e.Finished?) && p.e.messageId.Some?))
    case NamesLanguage => p.Apply? && (p.e.Thread? || p.e.Finished?) && p.e.language.Some?
    case KeepsRequest => p.Keep?
  }

  /** The place of the latest of a kind, or -1. */
  function Latest(run: seq<Patch>, kind: Kind): (k: int)
    ensures -1 <= k < |run| && (k >= 0 ==> Fits(run[k], kind))
    ensures forall j :: k < j < |run| ==> !Fits(run[j], kind)
  {
    if run == [] then -1
    else if Fits(run[|run| - 1], kind) then |run| - 1
    else Latest(run[..|run| - 1], kind)
  }

  /** The place of the first of a kind, or the end. */
  function First(run: seq<Patch>, kind: Kind): (k: nat)
    ensures k <= |run| && (k < |run| ==> Fits(run[k], kind))
    ensures forall j :: 0 <= j < k ==> !Fits(run[j], kind)
  {
    if run == [] then 0
    else
      var k := First(run[..|run| - 1], kind);
      if k < |run| - 1 || Fits(run[|run| - 1], kind) then k else |run|
  }

  /** The tokens' texts in the order they arrived. */
  function TextSaid(run: seq<Patch>): string {
    if run == [] then ""
    else
      var last := run[|run| - 1];
      TextSaid(run[..|run| - 1]) + if last.Apply? && last.e.Token? then last.e.text else ""
  }

  // ---- the fields ----

  /** The answer, and what is shown with it, each as the latest event of its kind has it. */
  predicate AnswerReads(t: Turn, run: seq<Patch>, after: Turn) {
    && after.text == t.text + TextSaid(run)
    && var n, c, f, m, u, a := Latest(run, Notes), Latest(run, Cites), Latest(run, Suggests), Latest(run, Remembers),
         Latest(run, Costs), Latest(run, Asks);
       && after.notice == (if n >= 0 then run[n].e.text else t.notice)
       && after.citations == (if c >= 0 then run[c].e.citations else t.citations)
       && after.followups == (if f >= 0 then run[f].e.followups else t.followups)
       && after.memory == (if m >= 0 then Some(run[m].e.memory) else t.memory)
       && after.usage == (if u >= 0 then Some(run[u].e.usage) else t.usage)
       && after.clarification == (if a >= 0 then Some(run[a].e.card) else t.clarification)
  }

  function MessageNamed(p: Patch): int
    requires Fits(p, NamesMessage)
  {
    if p.e.Clarify? then p.e.card.messageId else p.e.messageId.value
  }

  function FailureSaid(p: Patch): string
    requires Fits(p, Errs)
  {
    if p.Fail? then p.message else p.e.message
  }

  /** How it went: what failed last, whether it ended, its record's id and language. */
  predicate OutcomeReads(t: Turn, run: seq<Patch>, after: Turn) {
    && (after.done <==> t.done || Latest(run, Ends) >= 0)
    && (after.recorded <==> t.recorded || Latest(run, Records) >= 0)
    && var e, f, i, l := Latest(run, Errs), Latest(run, Finishes), Latest(run, NamesMessage),
         Latest(run, NamesLanguage);
       && after.error == (if e >= 0 then FailureSaid(run[e]) else t.error)
       && after.sourceless == (if f >= 0 then run[f].e.sourceless else t.sourceless)
       && after.messageId == (if i >= 0 then Some(MessageNamed(run[i])) else t.messageId)
       && after.language == (if l >= 0 then run[l].e.language.value else t.language)
  }

  /** When it ended: at its latest failure, or else where it first was said to be done. */
  predicate EndReads(t: Turn, run: seq<Patch>, after: Turn) {
    var e, f := Latest(run, Errs), First(run, Finishes);
    after.endedAt == (if e >= 0 then Some(run[e].at)
                      else if t.endedAt.Some? || f == |run| then t.endedAt
                      else Some(run[f].at))
  }

  /** What no event of a stream changes, and the request kept to ask again with. */
  predicate AskedReads(t: Turn, run: seq<Patch>, after: Turn) {
    && after.question == t.question && after.headId == t.headId && after.chosenIdx == t.chosenIdx
    && var k := Latest(run, KeepsRequest); after.retry == (if k >= 0 then Some(run[k].request) else t.retry)
  }

  lemma LatestMore(run: seq<Patch>, p: Patch, kind: Kind)
    ensures Latest(run + [p], kind) == if Fits(p, kind) then |run| else Latest(run, kind)
    ensures (run + [p])[|run|] == p
    ensures Latest(run, kind) >= 0 ==> (run + [p])[Latest(run, kind)] == run[Latest(run, kind)]
  {
    hide Fits;
    assert (run + [p])[..|run|] == run;
  }

  lemma FirstMore(run: seq<Patch>, p: Patch, kind: Kind)
    ensures First(run + [p], kind) == if First(run, kind) < |run| || Fits(p, kind) then First(run, kind) else |run| + 1
    ensures First(run, kind) < |run| ==> (run + [p])[First(run, kind)] == run[First(run, kind)]
  {
    hide Fits;
    assert (run + [p])[..|run|] == run;
  }

  lemma TextMore(run: seq<Patch>, p: Patch)
    ensures TextSaid(run + [p]) == TextSaid(run) + if p.Apply? && p.e.Token? then p.e.text else ""
  {
    assert (run + [p])[..|run|] == run;
  }

  /** The turn after one thing more. */
  function After(t: Turn, p: Patch): Turn {
    Else(Patched(t, p), t)
  }

  lemma StatusLeaves(t: Turn, step: string, now: int, at: Option<int>)
    ensures var a := WithStep(t, step, now, at); a == t.(steps := a.steps, clockSkew := a.clockSkew)
  {
    hide PlacedAll;
  }

  lemma TextAfter(t: Turn, p: Patch)
    ensures var a := After(t, p);
            && a.text == t.text + (if Fits(p, Says) then p.e.text else "")
            && a.notice == (if Fits(p, Notes) then p.e.text else t.notice)
  {
    hide LastStep, WithStep;
    if p.Apply? && p.e.Status? {
      StatusLeaves(t, p.e.step, p.at, p.e.at);
    }
  }

  lemma ListsAfter(t: Turn, p: Patch)
    ensures var a := After(t, p);
            && a.citations == (if Fits(p, Cites) then p.e.citations else t.citations)
            && a.followups == (if Fits(p, Suggests) then p.e.followups else t.followups)
  {
    hide LastStep, WithStep;
    if p.Apply? && p.e.Status? {
      StatusLeaves(t, p.e.step, p.at, p.e.at);
    }
  }

  lemma ExtrasAfter(t: Turn, p: Patch)
    ensures var a := After(t, p);
            && a.memory == (if Fits(p, Remembers) then Some(p.e.memory) else t.memory)
            && a.usage == (if Fits(p, Costs) then Some(p.e.usage) else t.usage)
            && a.clarification == (if Fits(p, Asks) then Some(p.e.card) else t.clarification)
  {
    hide LastStep, WithStep;
    if p.Apply? && p.e.Status? {
      StatusLeaves(t, p.e.step, p.at, p.e.at);
    }
  }

  lemma EndAfter(t: Turn, p: Patch)
    ensures var a := After(t, p);
            && (a.done <==> t.done || Fits(p, Ends)) && (a.recorded <==> t.recorded || Fits(p, Records))
            && a.error == (if Fits(p, Errs) then FailureSaid(p) else t.error)
  {
    hide LastStep, WithStep;
    if p.Apply? && p.e.Status? {
      StatusLeaves(t, p.e.step, p.at, p.e.at);
    }
  }

  lemma RecordAfter(t: Turn, p: Patch)
    ensures var a := After(t, p);
            && a.sourceless == (if Fits(p, Finishes) then p.e.sourceless else t.sourceless)
            && a.messageId == (if Fits(p, NamesMessage) then Some(MessageNamed(p)) else t.messageId)
            && a.language == (if Fits(p, NamesLanguage) then p.e.language.value else t.language)
  {
    hide LastStep, WithStep;
    if p.Apply? && p.e.Status? {
      StatusLeaves(t, p.e.step, p.at, p.e.at);
    }
  }

  lemma AnswerMore(t: Turn, run: seq<Patch>, before: Turn, p: Patch)
    requires AnswerReads(t, run, before)
    ensures AnswerReads(t, run + [p], After(before, p))
  {
    hide Latest, First, TextSaid, After;
    TextAfter(before, p);
    ListsAfter(before, p);
    ExtrasAfter(before, p);
    TextMore(run, p);
    LatestMore(run, p, Notes);
    LatestMore(run, p, Cites);
    LatestMore(run, p, Suggests);
    LatestMore(run, p, Remembers);
    LatestMore(run, p, Costs);
    LatestMore(run, p, Asks);
  }

  lemma OutcomeMore(t: Turn, run: seq<Patch>, before: Turn, p: Patch)
    requires OutcomeReads(t, run, before)
    ensures OutcomeReads(t, run + [p], After(before, p))
  {
    hide Latest, First, TextSaid, After;
    EndAfter(before, p);
    RecordAfter(before, p);
    LatestMore(run, p, Ends);
    LatestMore(run, p, Records);
    LatestMore(run, p, Errs);
    LatestMore(run, p, Finishes);
    LatestMore(run, p, NamesMessage);
    LatestMore(run, p, NamesLanguage);
  }

  lemma EndedAfter(t: Turn, p: Patch)
    ensures After(t, p).endedAt == (if Fits(p, Errs) then Some(p.at)
                                    else if Fits(p, Finishes) then Some(Else(t.endedAt, p.at)) else t.endedAt)
  {
    hide LastStep, WithStep;
    if p.Apply? && p.e.Status? {
      StatusLeaves(t, p.e.step, p.at, p.e.at);
    }
  }

  lemma EndMore(t: Turn, run: seq<Patch>, before: Turn, p: Patch)
    requires EndReads(t, run, before)
    ensures EndReads(t, run + [p], After(before, p))
  {
    hide Latest, First, After;
    EndedAfter(before, p);
    LatestMore(run, p, Errs);
    FirstMore(run, p, Finishes);
  }

  lemma AskedAfter(t: Turn, p: Patch)
    ensures var a := After(t, p);
            && a.question == t.question && a.headId == t.headId && a.chosenIdx == t.chosenIdx
            && a.retry == (if p.Keep? then Some(p.request) else t.retry)
  {
    hide LastStep, WithStep;
    if p.Apply? && p.e.Status? {
      StatusLeaves(t, p.e.step, p.at, p.e.at);
    }
  }

  lemma AskedMore(t: Turn, run: seq<Patch>, before: Turn, p: Patch)
    requires AskedReads(t, run, before)
    ensures AskedReads(t, run + [p], After(before, p))
  {
    hide Latest, After;
    AskedAfter(before, p);
    LatestMore(run, p, KeepsRequest);
  }

  lemma WrittenMore(t: Turn, run: seq<Patch>, p: Patch)
    ensures Written(t, run + [p]) == After(Written(t, run), p)
  {
    hide Patched;
    assert (run + [p])[..|run|] == run;
  }

  /** After any run the turn reads: its text, then every token in the order it arrived; each
      other part as the latest event that spoke of it has it; done if any event ended it, at
      its latest failure or where it first was done; and nothing else is changed. */
  lemma {:induction false} TurnReads(t: Turn, run: seq<Patch>)
    ensures AnswerReads(t, run, Written(t, run)) && OutcomeReads(t, run, Written(t, run))
    ensures EndReads(t, run, Written(t, run)) && AskedReads(t, run, Written(t, run))
  {
    if run == [] {
      assert t.text + "" == t.text;
    } else {
      hide AnswerReads, OutcomeReads, EndReads, AskedReads, Written, After;
      var init, last := run[..|run| - 1], run[|run| - 1];
      TurnReads(t, init);
      assert run == init + [last];
      WrittenMore(t, init, last);
      AnswerMore(t, init, Written(t, init), last);
      OutcomeMore(t, init, Written(t, init), last);
      EndMore(t, init, Written(t, init), last);
      AskedMore(t, init, Written(t, init), last);
    }
  }

  // ---- the steps and their details ----

  predicate IsStatus(p: Patch) {
    p.Apply? && p.e.Status?
  }

  /** Where a run's status events stand. */
  function Places(run: seq<Patch>): (at: seq<nat>)
    ensures forall p <- at :: p < |run| && IsStatus(run[p])
    ensures forall p :: 0 <= p < |run| && IsStatus(run[p]) ==> p in at
    ensures forall j, k :: 0 <= j < k < |at| ==> at[j] < at[k]
  {
    if run == [] then []
    else
      var last := |run| - 1;
      var init := Places(run[..last]);
      assert forall k :: 0 <= k < |init| ==> init[k] in init && init[k] < last;
      init + if IsStatus(run[last]) then [last] else []
  }

  /** The detail at q is for the step the status at p opened: it names that step, and no step
      of the name was opened in between. */
  predicate SaidFor(run: seq<Patch>, p: nat, q: nat) {
    && p < q < |run| && IsStatus(run[p]) && run[q].Apply? && run[q].e.Detail? && run[q].e.step == run[p].e.step
    && forall r :: p < r < q ==> !(IsStatus(run[r]) && run[r].e.step == run[p].e.step)
  }

  /** The latest detail said for a step, or -1. */
  function Said(run: seq<Patch>, p: nat): (q: int)
    ensures -1 <= q < |run| && (q >= 0 ==> SaidFor(run, p, q))
    ensures forall r: nat :: r > q ==> !SaidFor(run, p, r)
  {
    if |run| <= p then -1
    else
      var last := |run| - 1;
      if SaidFor(run, p, last) then last
      else
        var q := Said(run[..last], p);
        assert forall r: nat :: r < last ==> SaidFor(run, p, r) == SaidFor(run[..last], p, r);
        q
  }

  /** One step a status event, in order, with the latest detail said for it. */
  predicate StepsRead(run: seq<Patch>, after: Turn) {
    && |after.steps| == |Places(run)|
    && forall k :: 0 <= k < |after.steps| ==> StepReads(run, after.steps[k], Places(run)[k])
  }

  /** The step the status at p opened. */
  predicate StepReads(run: seq<Patch>, s: Step, p: nat) {
    && p < |run| && IsStatus(run[p]) && s.step == run[p].e.step
    && var q := Said(run, p); s.detail == (if q >= 0 then run[q].e.detail else None)
  }

  lemma SaidMore(run: seq<Patch>, x: Patch, p: nat)
    requires p < |run|
    ensures Said(run + [x], p) == if SaidFor(run + [x], p, |run|) then |run| else Said(run, p)
    ensures Said(run, p) >= 0 ==> (run + [x])[Said(run, p)] == run[Said(run, p)]
  {
    hide SaidFor;
    assert (run + [x])[..|run|] == run;
  }

  lemma PlacesMore(run: seq<Patch>, x: Patch)
    ensures Places(run + [x]) == Places(run) + if IsStatus(x) then [|run|] else []
    ensures forall k :: 0 <= k < |Places(run)| ==> Places(run)[k] in Places(run)
    ensures forall p <- Places(run) :: (run + [x])[p] == run[p]
  {
    assert (run + [x])[..|run|] == run;
  }

  lemma NoDetail(run: seq<Patch>, x: Patch, p: nat)
    requires !(x.Apply? && x.e.Detail?)
    ensures !SaidFor(run + [x], p, |run|)
  {
  }

  lemma StatusStep(t: Turn, step: string, now: int, at: Option<int>)
    ensures var a := WithStep(t, step, now, at);
            && |a.steps| == |t.steps| + 1 && a.steps[|t.steps|].step == step && a.steps[|t.steps|].detail == None
            && forall k :: 0 <= k < |t.steps| ==>
                 a.steps[k].step == t.steps[k].step && a.steps[k].detail == t.steps[k].detail
  {
  }

  lemma StatusRead(run: seq<Patch>, before: Turn, x: Patch)
    requires StepsRead(run, before) && IsStatus(x)
    ensures StepsRead(run + [x], After(before, x))
  {
    hide WithStep, Places, StepReads;
    StatusStep(before, x.e.step, x.at, x.e.at);
    PlacesMore(run, x);
    var all, a := run + [x], After(before, x);
    forall k | 0 <= k < |a.steps| ensures StepReads(all, a.steps[k], Places(all)[k]) {
      if k < |before.steps| {
        StepStays(run, x, before.steps[k], a.steps[k], Places(run)[k]);
      } else {
        StepOpens(run, x, a.steps[k]);
      }
    }
  }

  lemma StepStays(run: seq<Patch>, x: Patch, s: Step, s': Step, p: nat)
    requires StepReads(run, s, p) && s'.step == s.step && s'.detail == s.detail
    requires !(x.Apply? && x.e.Detail?) || !SaidFor(run + [x], p, |run|)
    ensures StepReads(run + [x], s', p)
  {
    hide Said;
    SaidMore(run, x, p);
    if !(x.Apply? && x.e.Detail?) {
      NoDetail(run, x, p);
    }
    hide SaidFor;
  }

  lemma StepOpens(run: seq<Patch>, x: Patch, s: Step)
    requires IsStatus(x) && s.step == x.e.step && s.detail == None
    ensures StepReads(run + [x], s, |run|)
  {
    hide Said, SaidFor;
    NothingSaid(run + [x], |run|);
  }

  lemma StepDetailed(run: seq<Patch>, x: Patch, s: Step, s': Step, p: nat)
    requires StepReads(run, s, p) && s'.step == s.step
    requires SaidFor(run + [x], p, |run|) && s'.detail == x.e.detail
    ensures StepReads(run + [x], s', p)
  {
    hide Said;
    SaidMore(run, x, p);
  }

  lemma NothingSaid(run: seq<Patch>, p: nat)
    requires p + 1 == |run|
    ensures Said(run, p) == -1
  {
  }

  lemma LaterStep(run: seq<Patch>, before: Turn, j: nat, p: nat)
    requires StepsRead(run, before) && j < |before.steps| && p < Places(run)[j]
    ensures !SaidForName(run, p, before.steps[j].step)
  {
    hide Said, Places;
    assert StepReads(run, before.steps[j], Places(run)[j]);
  }

  /** No step of the name was opened after p. */
  predicate SaidForName(run: seq<Patch>, p: nat, name: string) {
    forall r :: p < r < |run| ==> !(IsStatus(run[r]) && run[r].e.step == name)
  }

  lemma OpenedLater(run: seq<Patch>, before: Turn, k: nat, r: nat) returns (j: nat)
    requires StepsRead(run, before) && k < |before.steps| && Places(run)[k] < r < |run| && IsStatus(run[r])
    ensures k < j < |before.steps| && before.steps[j].step == run[r].e.step
  {
    hide Said, Places;
    j :| 0 <= j < |Places(run)| && Places(run)[j] == r;
    assert StepReads(run, before.steps[j], Places(run)[j]);
  }

  lemma NameLatest(run: seq<Patch>, before: Turn, k: nat, name: string)
    requires StepsRead(run, before) && k < |before.steps| && k == LastStep(before.steps, name)
    ensures SaidForName(run, Places(run)[k], name)
  {
    hide Said, Places, LastStep;
    var at := Places(run);
    assert StepReads(run, before.steps[k], at[k]);
    forall r | at[k] < r < |run| ensures !(IsStatus(run[r]) && run[r].e.step == name) {
      if IsStatus(run[r]) {
        var j := OpenedLater(run, before, k, r);
      }
    }
  }

  lemma SaidByName(run: seq<Patch>, x: Patch, p: nat)
    requires p < |run| && IsStatus(run[p]) && x.Apply? && x.e.Detail?
    ensures SaidFor(run + [x], p, |run|) <==> run[p].e.step == x.e.step && SaidForName(run, p, x.e.step)
  {
    var all := run + [x];
    assert forall r :: 0 <= r < |run| ==> all[r] == run[r];
    assert all[|run|] == x;
  }

  /** Of the steps, the latest of a name is the one a detail of that name is said for. */
  lemma SaidForLatest(run: seq<Patch>, before: Turn, x: Patch, k: nat)
    requires StepsRead(run, before) && x.Apply? && x.e.Detail? && k < |before.steps|
    ensures SaidFor(run + [x], Places(run)[k], |run|) <==> k == LastStep(before.steps, x.e.step)
  {
    hide Said, Places, LastStep, SaidFor, SaidForName;
    var i, p := LastStep(before.steps, x.e.step), Places(run)[k];
    assert StepReads(run, before.steps[k], p);
    SaidByName(run, x, p);
    if k == i {
      NameLatest(run, before, k, x.e.step);
    } else if before.steps[k].step == x.e.step && SaidForName(run, p, x.e.step) {
      LaterStep(run, before, i, p);
    }
  }

  lemma DetailRead(run: seq<Patch>, before: Turn, x: Patch)
    requires StepsRead(run, before) && x.Apply? && x.e.Detail?
    ensures StepsRead(run + [x], After(before, x))
  {
    hide LastStep, SaidFor, Places, StepReads;
    PlacesMore(run, x);
    var all, a := run + [x], After(before, x);
    forall k | 0 <= k < |a.steps| ensures StepReads(all, a.steps[k], Places(all)[k]) {
      SaidForLatest(run, before, x, k);
      if SaidFor(all, Places(run)[k], |run|) {
        StepDetailed(run, x, before.steps[k], a.steps[k], Places(run)[k]);
      } else {
        StepStays(run, x, before.steps[k], a.steps[k], Places(run)[k]);
      }
    }
  }

  lemma OtherSteps(t: Turn, x: Patch)
    requires !IsStatus(x) && !(x.Apply? && x.e.Detail?)
    ensures After(t, x).steps == t.steps
  {
  }

  lemma OtherRead(run: seq<Patch>, before: Turn, x: Patch)
    requires StepsRead(run, before) && !IsStatus(x) && !(x.Apply? && x.e.Detail?)
    ensures StepsRead(run + [x], After(before, x))
  {
    OtherSteps(before, x);
    hide Places, After, StepReads;
    PlacesMore(run, x);
    forall k | 0 <= k < |before.steps| ensures StepReads(run + [x], before.steps[k], Places(run)[k]) {
      StepStays(run, x, before.steps[k], before.steps[k], Places(run)[k]);
    }
  }

  /** After any run on a fresh turn there is one step a status event, named as it was, in
      order, and each has the latest detail said for it, the step then latest of its name. */
  lemma {:induction false} StepsAreSaid(t: Turn, run: seq<Patch>)
    requires t.steps == []
    ensures StepsRead(run, Written(t, run))
  {
    if run != [] {
      hide Written, StepsRead, After;
      var init, last := run[..|run| - 1], run[|run| - 1];
      StepsAreSaid(t, init);
      assert run == init + [last];
      WrittenMore(t, init, last);
      if IsStatus(last) {
        StatusRead(init, Written(t, init), last);
      } else if last.Apply? && last.e.Detail? {
        DetailRead(init, Written(t, init), last);
      } else {
        OtherRead(init, Written(t, init), last);
      }
    }
  }

  // ---- the page ----

  /** The events among what a stream did. */
  function Events(run: seq<Patch>): seq<Arrival> {
    if run == [] then []
    else
      var last := run[|run| - 1];
      Events(run[..|run| - 1]) + if last.Apply? then [Arrival(last.e, last.at)] else []
  }

  lemma SameStatus(t: Turn, u: Turn, step: string, now: int, at: Option<int>)
    requires t.steps == u.steps && t.clockSkew == u.clockSkew
    ensures WithStep(t, step, now, at).steps == WithStep(u, step, now, at).steps
    ensures WithStep(t, step, now, at).clockSkew == WithStep(u, step, now, at).clockSkew
  {
    hide PlacedAll;
  }

  lemma SameClock(t: Turn, u: Turn, e: Event, now: int)
    requires t.steps == u.steps && t.clockSkew == u.clockSkew
    ensures ApplyEvent(t, e, now).steps == ApplyEvent(u, e, now).steps
    ensures ApplyEvent(t, e, now).clockSkew == ApplyEvent(u, e, now).clockSkew
  {
    if e.Status? {
      SameStatus(t, u, e.step, now, e.at);
      hide WithStep;
    } else if e.Detail? {
      hide LastStep, WithStep;
    } else {
      OtherSteps(t, Apply(e, now));
      OtherSteps(u, Apply(e, now));
      OthersLeaveTheClock(t, e, now);
      OthersLeaveTheClock(u, e, now);
      hide Changed;
    }
  }

  lemma FoldMore(t: Turn, run: seq<Arrival>, a: Arrival)
    ensures Fold(t, run + [a]) == ApplyEvent(Fold(t, run), a.e, a.now)
  {
    hide ApplyEvent;
    assert (run + [a])[..|run|] == run;
  }

  /** The steps stand where the events alone put them. */
  lemma {:induction false} StepsAreTimed(t: Turn, run: seq<Patch>)
    ensures Written(t, run).steps == Fold(t, Events(run)).steps
    ensures Written(t, run).clockSkew == Fold(t, Events(run)).clockSkew
  {
    if run != [] {
      hide Changed, Fold;
      var init, last := run[..|run| - 1], run[|run| - 1];
      StepsAreTimed(t, init);
      if last.Apply? {
        FoldMore(t, Events(init), Arrival(last.e, last.at));
        SameClock(Written(t, init), Fold(t, Events(init)), last.e, last.at);
        assert Written(t, run) == ApplyEvent(Written(t, init), last.e, last.at);
      } else {
        assert Events(run) == Events(init);
      }
    } else {
      assert Fold(t, []) == t;
    }
  }

  /** In every run of the page the turn being written, parked last, reads what arrived. */
  lemma ParkedReads(actions: seq<Action>)
    requires MayRun(actions) && Run(actions).busy
    ensures WritingOf(actions).Some? && Run(actions).liveTurns.Some?
    ensures var w, turns := WritingOf(actions).value, Run(actions).liveTurns.value;
            && |turns| == |w.before| + 1 && turns[..|w.before|] == w.before
            && AnswerReads(w.first, w.patches, turns[|w.before|])
            && OutcomeReads(w.first, w.patches, turns[|w.before|])
            && EndReads(w.first, w.patches, turns[|w.before|])
            && AskedReads(w.first, w.patches, turns[|w.before|])
            && (w.first.steps == [] ==> StepsRead(w.patches, turns[|w.before|]))
  {
    hide Run, WritingOf, Written, AnswerReads, OutcomeReads, EndReads, AskedReads, StepsRead;
    RunSound(actions);
    ParkedIsFolded(actions);
    var w := WritingOf(actions).value;
    TurnReads(w.first, w.patches);
    if w.first.steps == [] {
      StepsAreSaid(w.first, w.patches);
    }
  }
}
