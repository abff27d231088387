/**
 Choosing attack payloads: whole shuffled cycles are drawn until enough payloads are chosen. The
 plan works on payload indexes (`attack_contracts.py`), the ATLAS runner on the payloads themselves
 (`runner.py`). The random source is any function from the number of the draw to a permutation.
 */
module CycleSampling {
  import opened Outcome
  import opened Text

  const MARKER := "[SAFE LAB SIMULATION]"

  datatype AttackCase = AttackCase(id: string, payloads: seq<string>)

  /** `render` fills the template; `str.format` may raise on braces other than the payload's. */
  datatype DeliveryStrategy = DeliveryStrategy(render: string -> Result<string>, supportedAgents: seq<string>)

  datatype ExecutionPlan = ExecutionPlan(attack: AttackCase, strategy: DeliveryStrategy, agent: string, iterations: int)

  datatype DeliveredAttack = DeliveredAttack(iteration: nat, payloadIndex: nat, raw: string, delivered: string)

  predicate Distinct(s: seq<string>)
  {
    forall i, j :: 0 <= i < j < |s| ==> s[i] != s[j]
  }

  predicate ValidCase(attack: AttackCase)
  {
    && !Blank(attack.id)
    && attack.payloads != [] && Distinct(attack.payloads)
    && forall p :: p in attack.payloads ==> StartsWith(p, MARKER)
  }

  predicate ValidPlan(plan: ExecutionPlan)
  {
    && ValidCase(plan.attack)
    && plan.strategy.supportedAgents != []
    && 1 <= plan.iterations <= 100
    && plan.agent in plan.strategy.supportedAgents
  }

  function Deliver(strategy: DeliveryStrategy, payload: string, agent: string): Result<string>
  {
    if agent !in strategy.supportedAgents then Err(ValueError)
    else if !StartsWith(payload, MARKER) then Err(ValueError)
    else strategy.render(payload)
  }

  // ----- the choices -----

  /** A shuffle of k positions: each of them exactly once. */
  ghost predicate Shuffle(order: seq<nat>, k: nat)
  {
    && |order| == k
    && (forall i :: 0 <= i < k ==> order[i] < k)
    && (forall j :: 0 <= j < k ==> multiset(order)[j] == 1)
  }

  ghost predicate Source(orders: nat -> seq<nat>, k: nat)
  {
    k > 0 && forall c :: Shuffle(orders(c), k)
  }

  /** The first n choices when the draws start with number c. */
  ghost function Choices(orders: nat -> seq<nat>, k: nat, n: nat, c: nat): (chosen: seq<nat>)
    requires Source(orders, k)
    ensures |chosen| == n
    ensures forall i :: 0 <= i < n ==> chosen[i] < k
    decreases n
  {
    assert Shuffle(orders(c), k);
    if n <= k then orders(c)[..n]
    else orders(c) + Choices(orders, k, n - k, c + 1)
  }

  /** After drawing order c in full, what has been drawn and what is still to come make up the choices. */
  lemma DrawOne(orders: nat -> seq<nat>, k: nat, n: nat, c: nat)
    requires Source(orders, k) && n > 0
    ensures |orders(c)| == k
    ensures n <= k ==> Choices(orders, k, n, c) == orders(c)[..n]
    ensures n >= k ==> Choices(orders, k, n, c) == orders(c) + Choices(orders, k, n - k, c + 1)
  {
    assert Shuffle(orders(c), k);
    if n == k {
      assert orders(c)[..k] == orders(c);
      assert Choices(orders, k, 0, c + 1) == [];
    }
  }

  /** What `selected` holds after some draws: all choices so far, perhaps beyond the n that are wanted. */
  ghost predicate Drawn(selected: seq<nat>, orders: nat -> seq<nat>, k: nat, n: nat, c: nat)
    requires Source(orders, k)
  {
    if |selected| <= n then selected + Choices(orders, k, n - |selected|, c) == Choices(orders, k, n, 0)
    else selected[..n] == Choices(orders, k, n, 0)
  }

  lemma DrawKeeps(selected: seq<nat>, orders: nat -> seq<nat>, k: nat, n: nat, c: nat)
    requires Source(orders, k) && |selected| < n && Drawn(selected, orders, k, n, c)
    ensures |orders(c)| == k && Drawn(selected + orders(c), orders, k, n, c + 1)
  {
    var left := n - |selected|;
    DrawOne(orders, k, left, c);
    if left >= k {
      var later := Choices(orders, k, left - k, c + 1);
      assert selected + orders(c) + later == selected + (orders(c) + later);
    } else {
      assert (selected + orders(c))[..n] == selected + orders(c)[..left];
    }
  }

  lemma DrawnEnough(selected: seq<nat>, orders: nat -> seq<nat>, k: nat, n: nat, c: nat)
    requires Source(orders, k) && |selected| >= n && Drawn(selected, orders, k, n, c)
    ensures selected[..n] == Choices(orders, k, n, 0)
  {
    if |selected| == n {
      assert Choices(orders, k, 0, c) == [];
      assert selected[..n] == selected == selected + [];
    }
  }

  /** A valid plan's strategy refuses no payload of its attack: only its template can raise. */
  lemma PlanDelivers(plan: ExecutionPlan, index: nat)
    requires ValidPlan(plan) && index < |plan.attack.payloads|
    ensures var payload := plan.attack.payloads[index];
            Deliver(plan.strategy, payload, plan.agent) == plan.strategy.render(payload)
  {
    assert plan.attack.payloads[index] in plan.attack.payloads;
  }

  /** The outcome: every chosen payload rendered and numbered from one, or the exception of the first that cannot be. */
  ghost predicate Delivers(plan: ExecutionPlan, selected: seq<nat>, r: Result<seq<DeliveredAttack>>)
    requires forall i :: 0 <= i < |selected| ==> selected[i] < |plan.attack.payloads|
  {
    var render := plan.strategy.render;
    if r.Ok? then
      && |r.value| == |selected|
      && forall i :: 0 <= i < |selected| ==>
           var raw := plan.attack.payloads[selected[i]];
           render(raw).Ok? && r.value[i] == DeliveredAttack(i + 1, selected[i], raw, render(raw).value)
    else exists i :: 0 <= i < |selected| && render(plan.attack.payloads[selected[i]]) == Err(r.error)
                     && forall j :: 0 <= j < i ==> render(plan.attack.payloads[selected[j]]).Ok?
  }

  /** Delivers payloads by index, numbered from one, up to the first that cannot be rendered. */
  method DeliverEach(plan: ExecutionPlan, selected: seq<nat>) returns (r: Result<seq<DeliveredAttack>>)
    requires ValidPlan(plan) && forall i :: 0 <= i < |selected| ==> selected[i] < |plan.attack.payloads|
    ensures Delivers(plan, selected, r)
  {
    hide Deliver, ValidPlan;
    var attacks: seq<DeliveredAttack> := [];
    for i := 0 to |selected|
      invariant |attacks| == i
      invariant forall j :: 0 <= j < i ==>
        var raw := plan.attack.payloads[selected[j]];
        plan.strategy.render(raw).Ok?
        && attacks[j] == DeliveredAttack(j + 1, selected[j], raw, plan.strategy.render(raw).value)
    {
      PlanDelivers(plan, selected[i]);
      var raw := plan.attack.payloads[selected[i]];
      var delivered := Deliver(plan.strategy, raw, plan.agent);
      if delivered.Err? {
        return Err(delivered.error);
      }
      attacks := attacks + [DeliveredAttack(i + 1, selected[i], raw, delivered.value)];
    }
    return Ok(attacks);
  }

  lemma NothingDrawn(orders: nat -> seq<nat>, k: nat, n: nat)
    requires Source(orders, k)
    ensures Drawn([], orders, k, n, 0)
  {
    assert [] + Choices(orders, k, n, 0) == Choices(orders, k, n, 0);
  }

  /**
   The plan delivers the chosen payloads numbered from one, or raises what the template raises on the first
   it cannot render.
   */
  method Materialize(plan: ExecutionPlan, orders: nat -> seq<nat>) returns (r: Result<seq<DeliveredAttack>>)
    requires ValidPlan(plan) && Source(orders, |plan.attack.payloads|)
    ensures Delivers(plan, Choices(orders, |plan.attack.payloads|, plan.iterations, 0), r)
  {
    hide Deliver, Choices, Drawn, Delivers;
    var k := |plan.attack.payloads|;
    var selected: seq<nat> := [];
    var draws := 0;
    NothingDrawn(orders, k, plan.iterations);
    while |selected| < plan.iterations
      invariant Drawn(selected, orders, k, plan.iterations, draws)
      decreases plan.iterations - |selected|
    {
      DrawKeeps(selected, orders, k, plan.iterations, draws);
      selected := selected + orders(draws);
      draws := draws + 1;
    }
    DrawnEnough(selected, orders, k, plan.iterations, draws);
    r := DeliverEach(plan, selected[..plan.iterations]);
  }

  // ----- the same by value -----

  datatype Tactic = Tactic(id: string, payloads: seq<string>)

  /** Five distinct variants at least. */
  predicate ValidTactic(tactic: Tactic)
  {
    StartsWith(tactic.id, "AML.T") && |tactic.payloads| >= 5 && Distinct(tactic.payloads)
  }

  /** One iteration: the agent's trace, and what the judge said of it or raised. */
  datatype AtlasIterationRecord<+T, +J> = AtlasIterationRecord(
    iteration: nat, payloadIndex: nat, payload: string, trace: T, judge: Result<J>)

  /** `tuple.index`: the first position of a value that is there. */
  function IndexOf(payloads: seq<string>, payload: string): (i: nat)
    requires payload in payloads
    ensures i < |payloads| && payloads[i] == payload
    ensures forall j :: 0 <= j < i ==> payloads[j] != payload
  {
    if payloads[0] == payload then 0 else 1 + IndexOf(payloads[1..], payload)
  }

  /** `sample(variants, len(variants))` with the shuffle `order`. */
  function Sample(variants: seq<string>, order: seq<nat>): (drawn: seq<string>)
    requires forall i :: 0 <= i < |order| ==> order[i] < |variants|
    ensures |drawn| == |order|
  {
    seq(|order|, i requires 0 <= i < |order| => variants[order[i]])
  }

  lemma SampleNothing(variants: seq<string>)
    ensures Sample(variants, []) == []
  {}

  lemma SampleAt(variants: seq<string>, order: seq<nat>, i: nat)
    requires i < |order| && forall i :: 0 <= i < |order| ==> order[i] < |variants|
    ensures Sample(variants, order)[i] == variants[order[i]]
  {}

  lemma SampleTake(variants: seq<string>, order: seq<nat>, n: nat)
    requires n <= |order| && forall i :: 0 <= i < |order| ==> order[i] < |variants|
    ensures Sample(variants, order)[..n] == Sample(variants, order[..n])
  {}

  lemma SampleConcat(variants: seq<string>, a: seq<nat>, b: seq<nat>)
    requires forall i :: 0 <= i < |a| ==> a[i] < |variants|
    requires forall i :: 0 <= i < |b| ==> b[i] < |variants|
    ensures Sample(variants, a + b) == Sample(variants, a) + Sample(variants, b)
  {}

  lemma IndexIsUnique(payloads: seq<string>, i: nat)
    requires Distinct(payloads) && i < |payloads|
    ensures payloads[i] in payloads && IndexOf(payloads, payloads[i]) == i
  {
    hide IndexOf;
  }

  lemma SourceIsBounded(orders: nat -> seq<nat>, k: nat, c: nat)
    requires Source(orders, k)
    ensures |orders(c)| == k && forall i :: 0 <= i < k ==> orders(c)[i] < k
  {
    assert Shuffle(orders(c), k);
  }

  /** The outcome of a run: a record for each chosen variant, or the exception of an agent that raised. */
  ghost predicate Records<T, J>(tactic: Tactic, chosen: seq<nat>, target: string -> Result<T>, judge: T -> Result<J>,
                                r: Result<seq<AtlasIterationRecord<T, J>>>)
    requires forall i :: 0 <= i < |chosen| ==> chosen[i] < |tactic.payloads|
  {
    if r.Ok? then
      && |r.value| == |chosen|
      && forall i :: 0 <= i < |chosen| ==>
           var ran := target(tactic.payloads[chosen[i]]);
           ran.Ok?
           && r.value[i]
              == AtlasIterationRecord(i + 1, chosen[i], tactic.payloads[chosen[i]], ran.value, judge(ran.value))
    else exists i :: 0 <= i < |chosen| && target(tactic.payloads[chosen[i]]) == Err(r.error)
                     && forall j :: 0 <= j < i ==> target(tactic.payloads[chosen[j]]).Ok?
  }

  /** Runs the agent on each variant, and finds the variant's index again. */
  method RecordEach<T, J>(tactic: Tactic, selected: seq<string>, ghost chosen: seq<nat>, target: string -> Result<T>,
                          judge: T -> Result<J>)
    returns (r: Result<seq<AtlasIterationRecord<T, J>>>)
    requires Distinct(tactic.payloads) && forall i :: 0 <= i < |chosen| ==> chosen[i] < |tactic.payloads|
    requires selected == Sample(tactic.payloads, chosen)
    ensures Records(tactic, chosen, target, judge, r)
  {
    hide Sample, IndexOf, Distinct;
    var records: seq<AtlasIterationRecord<T, J>> := [];
    for i := 0 to |selected|
      invariant |records| == i
      invariant forall j :: 0 <= j < i ==>
        var ran := target(tactic.payloads[chosen[j]]);
        ran.Ok?
        && records[j]
           == AtlasIterationRecord(j + 1, chosen[j], tactic.payloads[chosen[j]], ran.value, judge(ran.value))
    {
      SampleAt(tactic.payloads, chosen, i);
      IndexIsUnique(tactic.payloads, chosen[i]);
      var payload := selected[i];
      var ran := target(payload);
      if ran.Err? {
        return Err(ran.error);
      }
      var index := IndexOf(tactic.payloads, payload);
      records := records + [AtlasIterationRecord(i + 1, index, payload, ran.value, judge(ran.value))];
    }
    return Ok(records);
  }

  /**
   Variants drawn as values come back with the indexes the plan would have chosen. The agent's own
   exception ends the run; one of the judge is recorded with its iteration.
   */
  method RunAtlasTactic<T, J>(tactic: Tactic, iterations: int, rngGiven: bool, seedGiven: bool, orders: nat -> seq<nat>,
                              target: string -> Result<T>, judge: T -> Result<J>)
    returns (r: Result<seq<AtlasIterationRecord<T, J>>>)
    requires ValidTactic(tactic) && Source(orders, |tactic.payloads|)
    ensures if !(1 <= iterations <= 100) || (rngGiven && seedGiven) then r == Err(ValueError)
            else Records(tactic, Choices(orders, |tactic.payloads|, iterations, 0), target, judge, r)
  {
    hide Choices, Drawn, Sample, IndexOf, Source, Shuffle, Distinct, Records;
    if !(1 <= iterations <= 100) {
      return Err(ValueError);
    }
    if rngGiven && seedGiven {
      return Err(ValueError);
    }
    var variants := tactic.payloads;
    var k := |variants|;
    var selected: seq<string> := [];
    var draws := 0;
    ghost var indexes: seq<nat> := [];
    NothingDrawn(orders, k, iterations);
    SampleNothing(variants);
    while |selected| < iterations
      invariant Drawn(indexes, orders, k, iterations, draws)
      invariant forall i :: 0 <= i < |indexes| ==> indexes[i] < k
      invariant selected == Sample(variants, indexes)
      decreases iterations - |selected|
    {
      DrawKeeps(indexes, orders, k, iterations, draws);
      SourceIsBounded(orders, k, draws);
      SampleConcat(variants, indexes, orders(draws));
      selected := selected + Sample(variants, orders(draws));
      indexes := indexes + orders(draws);
      draws := draws + 1;
    }
    DrawnEnough(indexes, orders, k, iterations, draws);
    SampleTake(variants, indexes, iterations);
    r := RecordEach(tactic, selected[..iterations], indexes[..iterations], target, judge);
  }

  // ----- fairness -----

  /** The i-th choice is the place i mod k of the shuffle number i div k. */
  lemma {:induction false} ChoiceAt(orders: nat -> seq<nat>, k: nat, n: nat, c: nat, i: nat, cycle: nat, place: nat)
    requires Source(orders, k) && i < n && i == cycle * k + place && place < k
    ensures |orders(c + cycle)| == k && Choices(orders, k, n, c)[i] == orders(c + cycle)[place]
    decreases cycle
  {
    hide Choices;
    DrawOne(orders, k, n, c);
    assert Shuffle(orders(c + cycle), k);
    if cycle > 0 {
      assert i - k == (cycle - 1) * k + place && i - k >= 0;
      ChoiceAt(orders, k, n - k, c + 1, i - k, cycle - 1, place);
    } else {
      assert i == place;
    }
  }

  /** A payload is rendered for a supported agent only, and only when it carries the marker of a safe simulation. */
  lemma DeliverExactly(strategy: DeliveryStrategy, payload: string, agent: string)
    ensures Deliver(strategy, payload, agent) ==
      if agent in strategy.supportedAgents && StartsWith(payload, "[SAFE LAB SIMULATION]")
      then strategy.render(payload) else Err(ValueError)
  {}

  /** Each full cycle of the choices is one shuffle: no payload repeats before all have been used. */
  lemma {:induction false} CyclesAreShuffles(orders: nat -> seq<nat>, k: nat, n: nat, c: nat, cycle: nat, at: nat)
    requires Source(orders, k) && at == cycle * k && at + k <= n
    ensures Choices(orders, k, n, c)[at..at + k] == orders(c + cycle)
    ensures Shuffle(Choices(orders, k, n, c)[at..at + k], k)
    decreases cycle
  {
    hide Choices;
    DrawOne(orders, k, n, c);
    assert Shuffle(orders(c + cycle), k);
    var chosen := Choices(orders, k, n, c);
    if cycle == 0 {
      assert chosen[0..k] == orders(c);
    } else {
      assert at - k == (cycle - 1) * k && at - k >= 0;
      CyclesAreShuffles(orders, k, n - k, c + 1, cycle - 1, at - k);
      assert chosen[at..at + k] == Choices(orders, k, n - k, c + 1)[at - k..at];
    }
  }

  lemma PartialCycle(orders: nat -> seq<nat>, k: nat, n: nat, c: nat, j: nat)
    requires Source(orders, k) && j < k && n < k
    ensures multiset(Choices(orders, k, n, c))[j] <= 1
    ensures n == 0 ==> multiset(Choices(orders, k, n, c))[j] == 0
  {
    var order := orders(c);
    assert Shuffle(order, k);
    assert order == order[..n] + order[n..];
    assert multiset(order) == multiset(order[..n]) + multiset(order[n..]);
    assert multiset(order)[j] == multiset(order[..n])[j] + multiset(order[n..])[j];
    assert Choices(orders, k, n, c) == order[..n];
  }

  lemma {:induction false} UseAfterCycles(orders: nat -> seq<nat>, k: nat, n: nat, q: nat, r: nat, c: nat, j: nat)
    requires Source(orders, k) && j < k && r < k && n == q * k + r
    ensures q <= multiset(Choices(orders, k, n, c))[j] <= q + 1
    ensures r == 0 ==> multiset(Choices(orders, k, n, c))[j] == q
    decreases q
  {
    hide Choices;
    var order := orders(c);
    assert Shuffle(order, k);
    if q == 0 {
      PartialCycle(orders, k, n, c, j);
    } else {
      assert n - k == (q - 1) * k + r && n - k >= 0;
      UseAfterCycles(orders, k, n - k, q - 1, r, c + 1, j);
      DrawOne(orders, k, n, c);
    }
  }

  lemma Division(n: nat, k: nat)
    requires k > 0
    ensures n / k >= 0 && n == n / k * k + n % k
  {}

  /**
   After n choices every payload has been used floor(n / k) times, or once more; and exactly that
   often when the last cycle is complete.
   */
  lemma UseIsBalanced(orders: nat -> seq<nat>, k: nat, n: nat, j: nat)
    requires Source(orders, k) && j < k
    ensures n / k <= multiset(Choices(orders, k, n, 0))[j] <= n / k + 1
    ensures n % k == 0 ==> multiset(Choices(orders, k, n, 0))[j] == n / k
  {
    hide Choices, Shuffle;
    var q, r := n / k, n % k;
    Division(n, k);
    UseAfterCycles(orders, k, n, q, r, 0, j);
  }
}
