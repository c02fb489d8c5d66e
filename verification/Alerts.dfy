/** The alert lifecycle of `alerts.rs`: conditions come in, transitions go out. */
module AlertLifecycle {

  type Rule = string

  datatype Severity = Info | Warning | Critical

  datatype Condition = Condition(rule: Rule, severity: Severity, message: string)

  datatype Alert = Alert(rule: Rule, severity: Severity, message: string, at: nat, active: bool)

  const HISTORY_CAP: nat := 200

  // ------------------------------------------------------------------
  // One evaluation, as a function
  // ------------------------------------------------------------------

  predicate Firing(active: seq<Alert>, rule: Rule)
  {
    exists i :: 0 <= i < |active| && active[i].rule == rule
  }

  predicate Wanted(conditions: seq<Condition>, rule: Rule)
  {
    exists i :: 0 <= i < |conditions| && conditions[i].rule == rule
  }

  /** The freshest wording goes to the first entry of the rule. */
  function Reword(active: seq<Alert>, c: Condition): seq<Alert>
    decreases |active|
  {
    if active == [] then []
    else if active[0].rule == c.rule then [active[0].(message := c.message)] + active[1..]
    else [active[0]] + Reword(active[1..], c)
  }

  function Fired(c: Condition, now: nat): Alert
  {
    Alert(c.rule, c.severity, c.message, now, true)
  }

  /** The active entries and the events after the conditions were looked at in order. */
  function FireAll(active: seq<Alert>, conditions: seq<Condition>, now: nat): (seq<Alert>, seq<Alert>)
    decreases |conditions|
  {
    if conditions == [] then (active, [])
    else
      var (before, events) := FireAll(active, conditions[..|conditions| - 1], now);
      var c := conditions[|conditions| - 1];
      if Firing(before, c.rule) then (Reword(before, c), events)
      else (before + [Fired(c, now)], events + [Fired(c, now)])
  }

  function Kept(active: seq<Alert>, conditions: seq<Condition>): seq<Alert>
    decreases |active|
  {
    if active == [] then []
    else
      var rest := Kept(active[..|active| - 1], conditions);
      var a := active[|active| - 1];
      if Wanted(conditions, a.rule) then rest + [a] else rest
  }

  function Resolved(active: seq<Alert>, conditions: seq<Condition>, now: nat): seq<Alert>
    decreases |active|
  {
    if active == [] then []
    else
      var rest := Resolved(active[..|active| - 1], conditions, now);
      var a := active[|active| - 1];
      if Wanted(conditions, a.rule) then rest else rest + [a.(active := false, at := now)]
  }

  datatype Pass = Pass(conditions: seq<Condition>, now: nat)

  function Next(active: seq<Alert>, p: Pass): seq<Alert>
  {
    Kept(FireAll(active, p.conditions, p.now).0, p.conditions)
  }

  function Events(active: seq<Alert>, p: Pass): seq<Alert>
  {
    var (fired, events) := FireAll(active, p.conditions, p.now);
    events + Resolved(fired, p.conditions, p.now)
  }

  function Last<T>(s: seq<T>, n: nat): seq<T>
  {
    if |s| <= n then s else s[|s| - n..]
  }

  // ------------------------------------------------------------------
  // The object
  // ------------------------------------------------------------------

  class Alerts {
    var active: seq<Alert>
    var history: seq<Alert>
    /** Every evaluation so far. */
    ghost var passes: seq<Pass>

    ghost predicate Valid()
      reads this
    {
      active == Active(passes) && history == History(passes)
    }

    constructor ()
      ensures Valid() && passes == []
    {
      active, history, passes := [], [], [];
    }

    method Evaluate(conditions: seq<Condition>, now: nat) returns (events: seq<Alert>)
      requires Valid()
      modifies this
      ensures Valid() && passes == old(passes) + [Pass(conditions, now)]
      ensures events == Events(old(active), Pass(conditions, now))
      ensures forall e :: e in events ==>
                Announces(e, Pass(conditions, now)) || Withdraws(e, old(active), Pass(conditions, now))
    {
      ghost var pass := Pass(conditions, now);
      RunSays(passes, pass);
      hide Active, History, Next, Events, Last, Announces, Withdraws;
      OneMorePass(passes, pass);
      events := Diff(conditions, now);
      passes := passes + [pass];
      if events != [] { Remember(events); }
    }

    /** Fire what is new, reword what goes on, resolve what cleared. */
    method Diff(conditions: seq<Condition>, now: nat) returns (events: seq<Alert>)
      modifies `active
      ensures active == Next(old(active), Pass(conditions, now))
      ensures events == Events(old(active), Pass(conditions, now))
    {
      events := [];
      for i := 0 to |conditions|
        invariant (active, events) == FireAll(old(active), conditions[..i], now)
      {
        assert conditions[..i + 1][..i] == conditions[..i];
        var c := conditions[i];
        if !Firing(active, c.rule) {
          var alert := Fired(c, now);
          active := active + [alert];
          events := events + [alert];
        } else {
          active := Reword(active, c);
        }
      }
      assert conditions[..|conditions|] == conditions;
      var drained := active;
      active := Kept(drained, conditions);
      ghost var fired := events;
      for i := 0 to |drained|
        invariant events == fired + Resolved(drained[..i], conditions, now)
        invariant active == Kept(drained, conditions)
      {
        assert drained[..i + 1][..i] == drained[..i];
        if Wanted(conditions, drained[i].rule) { continue; }
        events := events + [drained[i].(active := false, at := now)];
      }
      assert drained[..|drained|] == drained;
    }

    method Remember(events: seq<Alert>)
      requires |history| <= HISTORY_CAP
      modifies `history
      ensures history == Last(old(history) + events, HISTORY_CAP)
    {
      for i := 0 to |events|
        invariant history == Last(old(history) + events[..i], HISTORY_CAP)
      {
        LastOfLast(old(history) + events[..i], [events[i]], HISTORY_CAP);
        assert old(history) + events[..i] + [events[i]] == old(history) + events[..i + 1];
        history := history + [events[i]];
        if |history| > HISTORY_CAP { history := history[1..]; }
      }
      assert events[..|events|] == events;
    }
  }

  lemma LastOfLast<T>(a: seq<T>, b: seq<T>, n: nat)
    ensures Last(Last(a, n) + b, n) == Last(a + b, n)
  {
  }

  // ------------------------------------------------------------------
  // Replaying the events
  // ------------------------------------------------------------------

  function Rules(active: seq<Alert>): seq<Rule>
  {
    seq(|active|, i requires 0 <= i < |active| => active[i].rule)
  }

  predicate Distinct(rules: seq<Rule>)
  {
    forall i, j :: 0 <= i < j < |rules| ==> rules[i] != rules[j]
  }

  function Without(rules: seq<Rule>, gone: Rule): seq<Rule>
    decreases |rules|
  {
    if rules == [] then []
    else
      var rest := Without(rules[..|rules| - 1], gone);
      if rules[|rules| - 1] == gone then rest else rest + [rules[|rules| - 1]]
  }

  /** What a listener that only sees the events believes to be active, in order. */
  function Replay(rules: seq<Rule>, events: seq<Alert>): seq<Rule>
    decreases |events|
  {
    if events == [] then rules
    else
      var before := Replay(rules, events[..|events| - 1]);
      var e := events[|events| - 1];
      if e.active then before + [e.rule] else Without(before, e.rule)
  }

  /** Every event is a real transition for that listener. */
  predicate Transitions(rules: seq<Rule>, events: seq<Alert>)
    decreases |events|
  {
    events == []
    || (Transitions(rules, events[..|events| - 1])
        && (events[|events| - 1].active <==> events[|events| - 1].rule !in Replay(rules, events[..|events| - 1])))
  }

  lemma {:induction false} ReplayConcat(rules: seq<Rule>, a: seq<Alert>, b: seq<Alert>)
    ensures Replay(rules, a + b) == Replay(Replay(rules, a), b)
    ensures Transitions(rules, a + b) <==> Transitions(rules, a) && Transitions(Replay(rules, a), b)
    decreases |b|
  {
    if b == [] {
      assert a + b == a;
    } else {
      assert (a + b)[..|a + b| - 1] == a + b[..|b| - 1];
      ReplayConcat(rules, a, b[..|b| - 1]);
    }
  }

  lemma FiringIsListed(active: seq<Alert>, rule: Rule)
    ensures Firing(active, rule) <==> rule in Rules(active)
  {
    forall i | 0 <= i < |active|
      ensures Rules(active)[i] == active[i].rule
    {
    }
  }

  lemma {:induction false} RewordKeepsRules(active: seq<Alert>, c: Condition)
    ensures Rules(Reword(active, c)) == Rules(active)
    decreases |active|
  {
    if active != [] && active[0].rule != c.rule {
      RewordKeepsRules(active[1..], c);
      assert Rules(Reword(active, c)) == [active[0].rule] + Rules(Reword(active[1..], c));
      assert Rules(active) == [active[0].rule] + Rules(active[1..]);
    }
  }

  /** One condition: either nothing but the wording changes, or its rule is new and appended. */
  lemma FireOneReplays(rules: seq<Rule>, before: seq<Alert>, events: seq<Alert>, c: Condition, now: nat)
    requires Rules(before) == Replay(rules, events) && Transitions(rules, events) && Distinct(Rules(before))
    ensures Firing(before, c.rule) ==> Rules(Reword(before, c)) == Rules(before) && c.rule in Rules(before)
    ensures !Firing(before, c.rule) ==>
              var (after, more) := (before + [Fired(c, now)], events + [Fired(c, now)]);
              Rules(after) == Replay(rules, more) == Rules(before) + [c.rule]
              && Transitions(rules, more) && Distinct(Rules(after))
  {
    FiringIsListed(before, c.rule);
    RewordKeepsRules(before, c);
    assert Rules(before + [Fired(c, now)]) == Rules(before) + [c.rule];
    assert (events + [Fired(c, now)])[..|events|] == events;
  }

  /** The firing half of a pass: what is active afterwards is what was, plus every rule wanted. */
  lemma {:induction false} FireAllReplays(active: seq<Alert>, conditions: seq<Condition>, now: nat)
    requires Distinct(Rules(active))
    ensures var (after, events) := FireAll(active, conditions, now);
      && Rules(after) == Replay(Rules(active), events) && Transitions(Rules(active), events) && Distinct(Rules(after))
      && (forall rule :: rule in Rules(after) <==> rule in Rules(active) || Wanted(conditions, rule))
    decreases |conditions|
  {
    if conditions != [] {
      var init, c := conditions[..|conditions| - 1], conditions[|conditions| - 1];
      FireAllReplays(active, init, now);
      var (before, events) := FireAll(active, init, now);
      FireOneReplays(Rules(active), before, events, c, now);
      forall rule
        ensures Wanted(conditions, rule) <==> Wanted(init, rule) || rule == c.rule
      {
        WantedLast(conditions, rule);
      }
      hide Rules, Replay, Transitions, Distinct, Wanted, Firing, Reword;
    }
  }

  lemma WantedLast(conditions: seq<Condition>, rule: Rule)
    requires conditions != []
    ensures Wanted(conditions, rule)
       <==> Wanted(conditions[..|conditions| - 1], rule) || conditions[|conditions| - 1].rule == rule
  {
    var init := conditions[..|conditions| - 1];
    if Wanted(init, rule) {
      var i :| 0 <= i < |init| && init[i].rule == rule;
      assert conditions[i].rule == rule;
    }
  }

  lemma {:induction false} WithoutAbsent(rules: seq<Rule>, gone: Rule)
    requires gone !in rules
    ensures Without(rules, gone) == rules
    decreases |rules|
  {
    if rules != [] {
      WithoutAbsent(rules[..|rules| - 1], gone);
    }
  }

  lemma {:induction false} WithoutConcat(a: seq<Rule>, b: seq<Rule>, gone: Rule)
    ensures Without(a + b, gone) == Without(a, gone) + Without(b, gone)
    decreases |b|
  {
    if b == [] {
      assert a + b == a;
    } else {
      assert (a + b)[..|a + b| - 1] == a + b[..|b| - 1];
      WithoutConcat(a, b[..|b| - 1], gone);
    }
  }

  lemma WithoutOne(a: seq<Rule>, gone: Rule, b: seq<Rule>)
    requires gone !in a && gone !in b
    ensures Without(a + [gone] + b, gone) == a + b
  {
    WithoutConcat(a + [gone], b, gone);
    WithoutConcat(a, [gone], gone);
    WithoutAbsent(a, gone);
    WithoutAbsent(b, gone);
    assert [gone][..0] == [];
  }

  lemma {:induction false} KeptRules(active: seq<Alert>, conditions: seq<Condition>)
    ensures forall rule :: rule in Rules(Kept(active, conditions)) <==> rule in Rules(active) && Wanted(conditions, rule)
    decreases |active|
  {
    if active != [] {
      var init, a := active[..|active| - 1], active[|active| - 1];
      KeptRules(init, conditions);
      assert Rules(active) == Rules(init) + [a.rule];
      assert Rules(Kept(init, conditions) + [a]) == Rules(Kept(init, conditions)) + [a.rule];
    }
  }

  lemma OthersDiffer(active: seq<Alert>, k: nat)
    requires Distinct(Rules(active)) && k < |active|
    ensures active[k].rule !in Rules(active[..k]) && active[k].rule !in Rules(active[k + 1..])
  {
    var rules := Rules(active);
    assert rules[k] == active[k].rule;
    assert forall i :: 0 <= i < k ==> Rules(active[..k])[i] == rules[i];
    var later := Rules(active[k + 1..]);
    assert forall i :: 0 <= i < |later| ==> later[i] == active[k + 1..][i].rule;
    assert later == rules[k + 1..];
  }

  lemma ResolveTurn(rules: seq<Rule>, events: seq<Alert>, e: Alert, kept: seq<Rule>, rest: seq<Rule>)
    requires Replay(rules, events) == kept + [e.rule] + rest && Transitions(rules, events)
    requires !e.active && e.rule !in kept && e.rule !in rest
    ensures Replay(rules, events + [e]) == kept + rest && Transitions(rules, events + [e])
  {
    assert (events + [e])[..|events|] == events;
    WithoutOne(kept, e.rule, rest);
    assert (kept + [e.rule] + rest)[|kept|] == e.rule;
  }

  lemma RulesConcat(a: seq<Alert>, b: seq<Alert>)
    ensures Rules(a + b) == Rules(a) + Rules(b)
  {
  }

  /** Half-way through the drained entries: the worked-off ones are down to what is kept, the
      others still stand. */
  lemma {:induction false} ResolvedReplays(active: seq<Alert>, conditions: seq<Condition>, now: nat, k: nat)
    requires Distinct(Rules(active)) && k <= |active|
    ensures var events := Resolved(active[..k], conditions, now);
      && Replay(Rules(active), events) == Rules(Kept(active[..k], conditions)) + Rules(active[k..])
      && Transitions(Rules(active), events)
    decreases k
  {
    if k == 0 {
      assert active[..0] == [] && active[0..] == active && Rules([]) == [];
    } else {
      var done, a := active[..k - 1], active[k - 1];
      assert active[..k][..k - 1] == done && active[k - 1..] == [a] + active[k..];
      ResolvedReplays(active, conditions, now, k - 1);
      var kept, rest := Rules(Kept(done, conditions)), Rules(active[k..]);
      RulesConcat([a], active[k..]);
      RulesConcat(Kept(done, conditions), [a]);
      assert Rules([a]) == [a.rule];
      assert kept + ([a.rule] + rest) == kept + [a.rule] + rest;
      if !Wanted(conditions, a.rule) {
        OthersDiffer(active, k - 1);
        KeptRules(done, conditions);
        ResolveTurn(Rules(active), Resolved(done, conditions, now), a.(active := false, at := now), kept, rest);
      }
      hide Replay, Transitions, Rules, Distinct;
    }
  }

  lemma {:induction false} KeptDistinct(active: seq<Alert>, conditions: seq<Condition>)
    requires Distinct(Rules(active))
    ensures Distinct(Rules(Kept(active, conditions)))
    decreases |active|
  {
    if active != [] {
      var init, a := active[..|active| - 1], active[|active| - 1];
      assert Rules(active) == Rules(init) + [a.rule];
      assert active[|init| + 1..] == [];
      OthersDiffer(active, |init|);
      assert Distinct(Rules(init)) by { assert forall i :: 0 <= i < |init| ==> Rules(init)[i] == Rules(active)[i]; }
      KeptDistinct(init, conditions);
      KeptRules(init, conditions);
      assert Rules(Kept(init, conditions) + [a]) == Rules(Kept(init, conditions)) + [a.rule];
    }
  }

  /** One pass: its events turn what was active into what is, each of them a real transition, and
      what is active afterwards is exactly what the conditions ask for, once each. */
  lemma PassReplays(active: seq<Alert>, p: Pass)
    requires Distinct(Rules(active))
    ensures Replay(Rules(active), Events(active, p)) == Rules(Next(active, p))
    ensures Transitions(Rules(active), Events(active, p)) && Distinct(Rules(Next(active, p)))
    ensures forall rule :: rule in Rules(Next(active, p)) <==> Wanted(p.conditions, rule)
  {
    FireAllReplays(active, p.conditions, p.now);
    var (fired, events) := FireAll(active, p.conditions, p.now);
    ResolvedReplays(fired, p.conditions, p.now, |fired|);
    assert fired[..|fired|] == fired && fired[|fired|..] == [];
    assert Rules(Next(active, p)) + Rules([]) == Rules(Next(active, p));
    ReplayConcat(Rules(active), events, Resolved(fired, p.conditions, p.now));
    KeptDistinct(fired, p.conditions);
    KeptRules(fired, p.conditions);
  }

  // ------------------------------------------------------------------
  // Whole runs
  // ------------------------------------------------------------------

  function Active(passes: seq<Pass>): seq<Alert>
    decreases |passes|
  {
    if passes == [] then [] else Next(Active(passes[..|passes| - 1]), passes[|passes| - 1])
  }

  function AllEvents(passes: seq<Pass>): seq<Alert>
    decreases |passes|
  {
    if passes == [] then []
    else AllEvents(passes[..|passes| - 1]) + Events(Active(passes[..|passes| - 1]), passes[|passes| - 1])
  }

  function History(passes: seq<Pass>): seq<Alert>
    decreases |passes|
  {
    if passes == [] then []
    else
      var init := passes[..|passes| - 1];
      Last(History(init) + Events(Active(init), passes[|passes| - 1]), HISTORY_CAP)
  }

  /** After any run, replaying every event ever emitted gives the active rules, and these are the
      rules of the last conditions, once each. */
  lemma {:induction false} EventsRebuildTheActiveSet(passes: seq<Pass>)
    ensures Replay([], AllEvents(passes)) == Rules(Active(passes)) && Transitions([], AllEvents(passes))
    ensures Distinct(Rules(Active(passes)))
    ensures passes != [] ==>
              forall rule :: rule in Rules(Active(passes)) <==> Wanted(passes[|passes| - 1].conditions, rule)
    decreases |passes|
  {
    if passes == [] {
      assert Rules([]) == [];
    } else {
      var init, p := passes[..|passes| - 1], passes[|passes| - 1];
      EventsRebuildTheActiveSet(init);
      PassReplays(Active(init), p);
      ReplayConcat([], AllEvents(init), Events(Active(init), p));
    }
  }

  lemma OneMorePass(passes: seq<Pass>, p: Pass)
    ensures Active(passes + [p]) == Next(Active(passes), p)
    ensures |History(passes)| <= HISTORY_CAP
    ensures History(passes + [p]) == Last(History(passes) + Events(Active(passes), p), HISTORY_CAP)
    ensures Events(Active(passes), p) == [] ==> History(passes + [p]) == History(passes)
  {
    assert (passes + [p])[..|passes|] == passes;
    HistoryIsTheTail(passes);
    hide Events, AllEvents, Active;
    assert History(passes) + [] == History(passes);
  }

  /** The history is the end of all events of the run, and as long as 200 allow. */
  lemma HistoryHolds200(passes: seq<Pass>)
    ensures |History(passes)| == if |AllEvents(passes)| < 200 then |AllEvents(passes)| else 200
    ensures History(passes) == AllEvents(passes)[|AllEvents(passes)| - |History(passes)|..]
  {
    HistoryIsTheTail(passes);
  }

  /** The history is the last 200 events of the whole run. */
  lemma {:induction false} HistoryIsTheTail(passes: seq<Pass>)
    ensures History(passes) == Last(AllEvents(passes), HISTORY_CAP)
    decreases |passes|
  {
    if passes != [] {
      var init := passes[..|passes| - 1];
      HistoryIsTheTail(init);
      LastOfLast(AllEvents(init), Events(Active(init), passes[|passes| - 1]), HISTORY_CAP);
    }
  }

  /** The wording the last condition of a rule gives. */
  function Freshest(conditions: seq<Condition>, rule: Rule): string
    requires Wanted(conditions, rule)
    decreases |conditions|
  {
    var init, c := conditions[..|conditions| - 1], conditions[|conditions| - 1];
    if c.rule == rule then c.message else WantedLast(conditions, rule); Freshest(init, rule)
  }

  lemma {:induction false} RewordAt(active: seq<Alert>, c: Condition, i: nat)
    requires Distinct(Rules(active)) && i < |active|
    ensures |Reword(active, c)| == |active|
    ensures Reword(active, c)[i] == if active[i].rule == c.rule then active[i].(message := c.message) else active[i]
    decreases |active|
  {
    RewordKeepsRules(active, c);
    assert |Rules(Reword(active, c))| == |Rules(active)|;
    assert Rules(active)[0] == active[0].rule && Rules(active)[i] == active[i].rule;
    if active[0].rule != c.rule && i != 0 {
      assert forall j :: 0 <= j < |active[1..]| ==> Rules(active[1..])[j] == Rules(active)[j + 1];
      RewordAt(active[1..], c, i - 1);
    }
  }

  lemma {:induction false} FiringKeepsWordingFresh(active: seq<Alert>, conditions: seq<Condition>, now: nat, i: nat)
    requires Distinct(Rules(active)) && i < |FireAll(active, conditions, now).0|
    ensures var a := FireAll(active, conditions, now).0[i];
      Wanted(conditions, a.rule) ==> a.message == Freshest(conditions, a.rule)
    decreases |conditions|
  {
    if conditions != [] {
      var init, c := conditions[..|conditions| - 1], conditions[|conditions| - 1];
      var before := FireAll(active, init, now).0;
      FireAllReplays(active, init, now);
      WantedLast(conditions, FireAll(active, conditions, now).0[i].rule);
      if Firing(before, c.rule) {
        RewordKeepsRules(before, c);
        assert |Rules(Reword(before, c))| == |Rules(before)|;
        RewordAt(before, c, i);
      }
      if i < |before| {
        FiringKeepsWordingFresh(active, init, now, i);
      }
    }
  }

  lemma {:induction false} KeptWasThere(active: seq<Alert>, conditions: seq<Condition>, i: nat) returns (j: nat)
    requires i < |Kept(active, conditions)|
    ensures j < |active| && active[j] == Kept(active, conditions)[i] && Wanted(conditions, active[j].rule)
    decreases |active|
  {
    var init, a := active[..|active| - 1], active[|active| - 1];
    if i < |Kept(init, conditions)| {
      j := KeptWasThere(init, conditions, i);
    } else {
      j := |active| - 1;
    }
  }

  /** After any run, every active alert carries the latest wording of its rule in the last
      conditions, not the one it fired with. */
  lemma WordingIsFreshest(passes: seq<Pass>, i: nat)
    requires passes != [] && i < |Active(passes)|
    ensures var (a, last) := (Active(passes)[i], passes[|passes| - 1].conditions);
      Wanted(last, a.rule) && a.message == Freshest(last, a.rule) && a.active
  {
    var init, p := passes[..|passes| - 1], passes[|passes| - 1];
    EventsRebuildTheActiveSet(init);
    var fired := FireAll(Active(init), p.conditions, p.now).0;
    var j := KeptWasThere(fired, p.conditions, i);
    FiringKeepsWordingFresh(Active(init), p.conditions, p.now, j);
    AllActive(passes);
    hide FireAll, Kept;
  }

  /** Nothing resolved stays in the active set. */
  lemma {:induction false} AllActive(passes: seq<Pass>)
    ensures forall a :: a in Active(passes) ==> a.active
    decreases |passes|
  {
    if passes != [] {
      var init, p := passes[..|passes| - 1], passes[|passes| - 1];
      AllActive(init);
      FiringKeepsActive(Active(init), p.conditions, p.now);
      var fired := FireAll(Active(init), p.conditions, p.now).0;
      forall a | a in Active(passes)
        ensures a.active
      {
        var i :| 0 <= i < |Active(passes)| && Active(passes)[i] == a;
        var j := KeptWasThere(fired, p.conditions, i);
      }
    }
  }

  lemma {:induction false} FiringKeepsActive(active: seq<Alert>, conditions: seq<Condition>, now: nat)
    requires forall a :: a in active ==> a.active
    ensures forall a :: a in FireAll(active, conditions, now).0 ==> a.active
    decreases |conditions|
  {
    if conditions != [] {
      FiringKeepsActive(active, conditions[..|conditions| - 1], now);
      RewordKeepsActive(FireAll(active, conditions[..|conditions| - 1], now).0, conditions[|conditions| - 1]);
    }
  }

  lemma {:induction false} RewordKeepsActive(active: seq<Alert>, c: Condition)
    requires forall a :: a in active ==> a.active
    ensures forall a :: a in Reword(active, c) ==> a.active
    decreases |active|
  {
    if active != [] {
      RewordKeepsActive(active[1..], c);
    }
  }

  /** The events of one rule, as fired or resolved. */
  function Flags(events: seq<Alert>, rule: Rule): seq<bool>
    decreases |events|
  {
    if events == [] then []
    else
      var e := events[|events| - 1];
      Flags(events[..|events| - 1], rule) + if e.rule == rule then [e.active] else []
  }

  predicate Alternates(flags: seq<bool>)
  {
    forall i :: 0 <= i < |flags| ==> flags[i] == (i % 2 == 0)
  }

  lemma {:induction false} WithoutMembers(rules: seq<Rule>, gone: Rule)
    ensures forall rule :: rule in Without(rules, gone) <==> rule in rules && rule != gone
    decreases |rules|
  {
    if rules != [] {
      WithoutMembers(rules[..|rules| - 1], gone);
      assert rules == rules[..|rules| - 1] + [rules[|rules| - 1]];
    }
  }

  lemma {:induction false} TransitionsAlternate(events: seq<Alert>, rule: Rule)
    requires Transitions([], events)
    ensures Alternates(Flags(events, rule))
    ensures rule in Replay([], events) <==> |Flags(events, rule)| % 2 == 1
    decreases |events|
  {
    if events != [] {
      var init, e := events[..|events| - 1], events[|events| - 1];
      TransitionsAlternate(init, rule);
      WithoutMembers(Replay([], init), e.rule);
    }
  }

  /** Over any run a rule fires, resolves, fires, resolves; it is active exactly after an odd
      number of its events. */
  lemma EachRuleAlternates(passes: seq<Pass>, rule: Rule)
    ensures Alternates(Flags(AllEvents(passes), rule))
    ensures rule in Rules(Active(passes)) <==> |Flags(AllEvents(passes), rule)| % 2 == 1
  {
    EventsRebuildTheActiveSet(passes);
    TransitionsAlternate(AllEvents(passes), rule);
  }

  // ------------------------------------------------------------------
  // What an alert and an event say
  // ------------------------------------------------------------------

  /** `c` is the first of the conditions with its rule. */
  predicate FirstOfRule(conditions: seq<Condition>, c: Condition)
  {
    exists k :: 0 <= k < |conditions| && conditions[k] == c && forall j :: 0 <= j < k ==> conditions[j].rule != c.rule
  }

  lemma FirstStays(conditions: seq<Condition>, more: seq<Condition>, c: Condition)
    requires FirstOfRule(conditions, c)
    ensures FirstOfRule(conditions + more, c)
  {
    var k :| 0 <= k < |conditions| && conditions[k] == c && forall j :: 0 <= j < k ==> conditions[j].rule != c.rule;
    assert (conditions + more)[k] == c;
  }

  lemma NewIsFirst(init: seq<Condition>, c: Condition)
    requires !Wanted(init, c.rule)
    ensures FirstOfRule(init + [c], c)
  {
    assert (init + [c])[|init|] == c;
  }

  /** Says what the condition that fired it said, at the time of the pass. */
  ghost predicate Announces(e: Alert, p: Pass)
  {
    e.active && e.at == p.now
    && exists c :: FirstOfRule(p.conditions, c) && c.rule == e.rule && c.severity == e.severity && c.message == e.message
  }

  /** Repeats a rule that was active and is wanted no more, resolved at the time of the pass, with
      the severity and the wording it last had. */
  ghost predicate Withdraws(e: Alert, active: seq<Alert>, p: Pass)
  {
    && !e.active && e.at == p.now && !Wanted(p.conditions, e.rule)
    && exists i :: 0 <= i < |active| && active[i].rule == e.rule && active[i].severity == e.severity
                && active[i].message == e.message
  }

  /** The same rule and severity since the same time; only the wording may differ. */
  predicate SameAlert(a: Alert, b: Alert)
  {
    a.rule == b.rule && a.severity == b.severity && a.at == b.at && a.active == b.active
  }

  /** Active since the pass, with the severity its first condition gave. */
  ghost predicate BegunIn(a: Alert, p: Pass)
  {
    a.at == p.now && a.active
    && exists c :: FirstOfRule(p.conditions, c) && c.rule == a.rule && c.severity == a.severity
  }

  /** How the firing of the first conditions left the alerts that were active. */
  ghost predicate FiredSoFar(active: seq<Alert>, p: Pass, looked: seq<Condition>, after: seq<Alert>, events: seq<Alert>)
  {
    && (forall e :: e in events ==> Announces(e, p))
    && |active| <= |after|
    && (forall i :: 0 <= i < |active| ==>
          SameAlert(after[i], active[i]) && (!Wanted(looked, active[i].rule) ==> after[i] == active[i]))
    && (forall i :: |active| <= i < |after| ==> BegunIn(after[i], p))
  }

  lemma RewordingSays(active: seq<Alert>, p: Pass, looked: seq<Condition>, after: seq<Alert>, events: seq<Alert>, c: Condition)
    requires FiredSoFar(active, p, looked, after, events) && Distinct(Rules(after))
    ensures FiredSoFar(active, p, looked + [c], Reword(after, c), events)
  {
    RewordKeepsRules(after, c);
    assert |Rules(Reword(after, c))| == |Rules(after)|;
    forall i | 0 <= i < |after|
      ensures Reword(after, c)[i] == if after[i].rule == c.rule then after[i].(message := c.message) else after[i]
    {
      RewordAt(after, c, i);
    }
    assert (looked + [c])[..|looked|] == looked;
    forall i | 0 <= i < |active|
      ensures !Wanted(looked + [c], active[i].rule) ==> !Wanted(looked, active[i].rule) && c.rule != active[i].rule
    {
      WantedLast(looked + [c], active[i].rule);
    }
    hide Reword, Wanted, Announces, Rules, Distinct;
  }

  lemma FiringOneSays(active: seq<Alert>, p: Pass, looked: seq<Condition>, after: seq<Alert>, events: seq<Alert>, c: Condition)
    requires FiredSoFar(active, p, looked, after, events) && FirstOfRule(p.conditions, c)
    ensures FiredSoFar(active, p, looked + [c], after + [Fired(c, p.now)], events + [Fired(c, p.now)])
  {
    assert Announces(Fired(c, p.now), p) && BegunIn(Fired(c, p.now), p);
    assert (looked + [c])[..|looked|] == looked;
    forall i | 0 <= i < |active|
      ensures !Wanted(looked + [c], active[i].rule) ==> !Wanted(looked, active[i].rule)
    {
      WantedLast(looked + [c], active[i].rule);
    }
    hide Wanted, Announces, BegunIn;
  }

  /** What the conditions looked at so far have fired, and what they left of the others. */
  lemma {:induction false} FiringSays(active: seq<Alert>, p: Pass, n: nat)
    requires Distinct(Rules(active)) && n <= |p.conditions|
    ensures var (after, events) := FireAll(active, p.conditions[..n], p.now);
      FiredSoFar(active, p, p.conditions[..n], after, events)
    decreases n
  {
    if n != 0 {
      var init, c := p.conditions[..n - 1], p.conditions[n - 1];
      assert p.conditions[..n][..n - 1] == init && p.conditions[..n] == init + [c];
      FiringSays(active, p, n - 1);
      var (before, events) := FireAll(active, init, p.now);
      FireAllReplays(active, init, p.now);
      if Firing(before, c.rule) {
        RewordingSays(active, p, init, before, events, c);
      } else {
        FiringIsListed(before, c.rule);
        NewIsFirst(init, c);
        FirstStays(init + [c], p.conditions[n..], c);
        assert init + [c] + p.conditions[n..] == p.conditions;
        FiringOneSays(active, p, init, before, events, c);
      }
      hide Wanted, Firing, Rules, Distinct, Replay, Transitions, FirstOfRule, FiredSoFar;
    }
  }

  lemma {:induction false} ResolvingSays(fired: seq<Alert>, conditions: seq<Condition>, now: nat)
    ensures forall e :: e in Resolved(fired, conditions, now) ==>
              !e.active && e.at == now && !Wanted(conditions, e.rule)
              && exists i :: 0 <= i < |fired| && fired[i].(active := false, at := now) == e
    decreases |fired|
  {
    if fired != [] {
      var init, a := fired[..|fired| - 1], fired[|fired| - 1];
      ResolvingSays(init, conditions, now);
      forall e | e in Resolved(fired, conditions, now)
        ensures !e.active && e.at == now && !Wanted(conditions, e.rule)
        ensures exists i :: 0 <= i < |fired| && fired[i].(active := false, at := now) == e
      {
        if e in Resolved(init, conditions, now) {
          var i :| 0 <= i < |init| && init[i].(active := false, at := now) == e;
          assert fired[i].(active := false, at := now) == e;
        } else {
          assert fired[|fired| - 1].(active := false, at := now) == e;
        }
      }
    }
  }

  lemma BegunIsWanted(a: Alert, p: Pass)
    requires BegunIn(a, p)
    ensures Wanted(p.conditions, a.rule)
  {
    var c :| FirstOfRule(p.conditions, c) && c.rule == a.rule;
    var k :| 0 <= k < |p.conditions| && p.conditions[k] == c;
  }

  /** Every event of a pass announces what its first condition said or withdraws what was active,
      under the time of the pass. */
  lemma EventsSay(active: seq<Alert>, p: Pass)
    requires Distinct(Rules(active))
    ensures forall e :: e in Events(active, p) ==> Announces(e, p) || Withdraws(e, active, p)
  {
    var (fired, events) := FireAll(active, p.conditions, p.now);
    assert p.conditions[..|p.conditions|] == p.conditions;
    FiringSays(active, p, |p.conditions|);
    FireAllReplays(active, p.conditions, p.now);
    ResolvingSays(fired, p.conditions, p.now);
    forall e | e in Resolved(fired, p.conditions, p.now)
      ensures Withdraws(e, active, p)
    {
      var i :| 0 <= i < |fired| && fired[i].(active := false, at := p.now) == e;
      assert Rules(fired)[i] == fired[i].rule;
      if |active| <= i {
        BegunIsWanted(fired[i], p);
      }
    }
  }

  lemma RunSays(passes: seq<Pass>, p: Pass)
    ensures forall e :: e in Events(Active(passes), p) ==> Announces(e, p) || Withdraws(e, Active(passes), p)
  {
    EventsRebuildTheActiveSet(passes);
    EventsSay(Active(passes), p);
  }

  /** Since pass `k` the rule has been wanted without a break, and not in the pass before it. */
  predicate WantedSince(passes: seq<Pass>, rule: Rule, k: nat)
    requires k < |passes|
  {
    && (forall j :: k <= j < |passes| ==> Wanted(passes[j].conditions, rule))
    && (k == 0 || !Wanted(passes[k - 1].conditions, rule))
  }

  /** After one pass an alert was active before and is still wanted, or began in the pass. */
  lemma OnePassLater(active: seq<Alert>, p: Pass, i: nat) returns (j: nat)
    requires Distinct(Rules(active)) && i < |Next(active, p)|
    ensures var a := Next(active, p)[i];
      Wanted(p.conditions, a.rule)
      && if j < |active| then SameAlert(a, active[j]) else BegunIn(a, p) && a.rule !in Rules(active)
  {
    assert p.conditions[..|p.conditions|] == p.conditions;
    FiringSays(active, p, |p.conditions|);
    FireAllReplays(active, p.conditions, p.now);
    var fired := FireAll(active, p.conditions, p.now).0;
    j := KeptWasThere(fired, p.conditions, i);
    if |active| <= j {
      StartedNow(active, fired, j);
    }
    hide Wanted, Rules, Distinct, Replay, Transitions, FireAll, Kept, BegunIn;
  }

  /** An active alert carries the time of the pass in which its rule last began to be wanted, and the
      severity of the first condition of the rule in that pass. */
  lemma {:induction false} AlertsTellTheirBeginning(passes: seq<Pass>, i: nat) returns (k: nat)
    requires i < |Active(passes)|
    ensures k < |passes| && WantedSince(passes, Active(passes)[i].rule, k) && BegunIn(Active(passes)[i], passes[k])
    decreases |passes|
  {
    var init, p := passes[..|passes| - 1], passes[|passes| - 1];
    var a := Active(passes)[i];
    assert Distinct(Rules(Active(init))) by { EventsRebuildTheActiveSet(init); }
    var j := OnePassLater(Active(init), p, i);
    assert passes == init + [p];
    if j < |Active(init)| {
      hide Next, Active, Rules, Distinct, Wanted, WantedSince, BegunIn;
      k := AlertsTellTheirBeginning(init, j);
      StillBegun(a, Active(init)[j], init[k]);
      LongerWanted(init, p, a.rule, k);
    } else {
      hide Next, Active, Rules, Distinct, Wanted, BegunIn;
      k := |init|;
      NotWantedBefore(init, a.rule);
    }
  }

  lemma NotWantedBefore(init: seq<Pass>, rule: Rule)
    requires rule !in Rules(Active(init))
    ensures init != [] ==> !Wanted(init[|init| - 1].conditions, rule)
  {
    EventsRebuildTheActiveSet(init);
  }

  lemma StillBegun(a: Alert, b: Alert, p: Pass)
    requires SameAlert(a, b) && BegunIn(b, p)
    ensures BegunIn(a, p)
  {
  }

  lemma LongerWanted(init: seq<Pass>, p: Pass, rule: Rule, k: nat)
    requires k < |init| && WantedSince(init, rule, k) && Wanted(p.conditions, rule)
    ensures WantedSince(init + [p], rule, k)
  {
    hide Wanted;
  }

  /** A rule that stands past the old alerts was not among them. */
  lemma StartedNow(active: seq<Alert>, fired: seq<Alert>, j: nat)
    requires Distinct(Rules(fired)) && |active| <= j < |fired|
    requires forall i :: 0 <= i < |active| ==> fired[i].rule == active[i].rule
    ensures fired[j].rule !in Rules(active)
  {
    assert Rules(fired)[j] == fired[j].rule;
    assert forall i :: 0 <= i < |active| ==> Rules(fired)[i] == Rules(active)[i];
  }
}
