/**
 The rule-matching detector (`detector.py`). Patterns are arbitrary match functions; what is proved
 is how their hits become a verdict.
 */
module Detector {
  import opened Outcome

  datatype Verdict = Safe | Suspicious | Malicious

  function VerdictRank(v: Verdict): nat
  {
    match v
    case Safe => 0
    case Suspicious => 1
    case Malicious => 2
  }

  function MaxVerdict(a: Verdict, b: Verdict): Verdict
  {
    if VerdictRank(a) >= VerdictRank(b) then a else b
  }

  /** One heuristic rule: the category it reports and the text its pattern finds, if any. */
  datatype Rule = Rule(category: string, search: string -> Option<string>)

  /** What the tables of the detector say about categories, hits, and haystacks; `quote` is Python's `repr`. */
  datatype Tables = Tables(
    highCategory: string -> bool,
    severeHit: string -> bool,
    sensitivePath: string -> bool,
    outboundUrl: string -> bool,
    mode: string -> Option<string>,
    quote: string -> string)

  /** A trace: the user's input, and the tool call with its arguments as JSON; no name means no call. */
  datatype Trace = Trace(userInput: string, toolName: string, toolArgs: string)

  const INJECTION := "prompt_injection"

  function Haystacks(trace: Trace): seq<string>
  {
    [trace.userInput] + if trace.toolName == "" then [] else [trace.toolName, trace.toolArgs]
  }

  /** The text a rule finds in the first haystack it matches. */
  function FirstHit(rule: Rule, hays: seq<string>): Option<string>
  {
    if hays == [] then None
    else if rule.search(hays[0]).Some? then rule.search(hays[0])
    else FirstHit(rule, hays[1..])
  }

  predicate Any(hays: seq<string>, p: string -> bool)
  {
    exists i :: 0 <= i < |hays| && p(hays[i])
  }

  // ----- the verdict in closed form -----

  ghost predicate Fires(rule: Rule, hays: seq<string>)
  {
    FirstHit(rule, hays).Some?
  }

  ghost predicate Severe(rule: Rule, hays: seq<string>, tables: Tables)
  {
    Fires(rule, hays) && (tables.highCategory(rule.category) || tables.severeHit(FirstHit(rule, hays).value))
  }

  ghost predicate AnyFires(rules: seq<Rule>, hays: seq<string>)
  {
    exists i :: 0 <= i < |rules| && Fires(rules[i], hays)
  }

  ghost predicate AnySevere(rules: seq<Rule>, hays: seq<string>, tables: Tables)
  {
    exists i :: 0 <= i < |rules| && Severe(rules[i], hays, tables)
  }

  ghost predicate InjectionFires(rules: seq<Rule>, hays: seq<string>)
  {
    exists i :: 0 <= i < |rules| && rules[i].category == INJECTION && Fires(rules[i], hays)
  }

  /** An injection beside a sensitive path, or a sensitive path beside an outbound address. */
  ghost predicate Combination(rules: seq<Rule>, hays: seq<string>, tables: Tables)
  {
    Any(hays, tables.sensitivePath) && (InjectionFires(rules, hays) || Any(hays, tables.outboundUrl))
  }

  ghost function VerdictOf(rules: seq<Rule>, hays: seq<string>, tables: Tables): Verdict
  {
    if !AnyFires(rules, hays) then Safe
    else if AnySevere(rules, hays, tables) || Combination(rules, hays, tables) then Malicious
    else Suspicious
  }

  // ----- the detector's loops -----

  function HitOf(rule: Rule, hays: seq<string>, category: string): seq<string>
  {
    var hit := FirstHit(rule, hays);
    if rule.category == category && hit.Some? then [hit.value] else []
  }

  /** The hits of one category, in the order of its rules. */
  function HitsFor(rules: seq<Rule>, hays: seq<string>, category: string): seq<string>
  {
    if rules == [] then []
    else
      HitsFor(rules[..|rules| - 1], hays, category) + HitOf(rules[|rules| - 1], hays, category)
  }

  /** The categories that fired, in the order of their first hits. */
  function FiredCategories(rules: seq<Rule>, hays: seq<string>): seq<string>
  {
    if rules == [] then []
    else
      var fired, last := FiredCategories(rules[..|rules| - 1], hays), rules[|rules| - 1];
      if FirstHit(last, hays).Some? && last.category !in fired then fired + [last.category] else fired
  }

  /** The hits of all categories of one mode, category by category. */
  function ModeHits(keys: seq<string>, matched: map<string, seq<string>>, tables: Tables, mode: string): seq<string>
    requires forall c :: c in keys ==> c in matched
  {
    if keys == [] then []
    else
      var last := keys[|keys| - 1];
      ModeHits(keys[..|keys| - 1], matched, tables, mode)
      + if tables.mode(last) == Some(mode) then matched[last] else []
  }

  predicate HaveModes(keys: seq<string>, tables: Tables)
  {
    forall c :: c in keys ==> tables.mode(c).Some?
  }

  /** One piece of evidence. */
  function Bit(category: string, hit: string, tables: Tables): string
    requires tables.mode(category).Some?
  {
    tables.mode(category).value + "/" + category + ": " + tables.quote(hit)
  }

  function Bits(category: string, hits: seq<string>, tables: Tables): seq<string>
    requires tables.mode(category).Some?
  {
    if hits == [] then []
    else Bits(category, hits[..|hits| - 1], tables) + [Bit(category, hits[|hits| - 1], tables)]
  }

  /** The evidence of all hits, category by category. */
  function HitEvidence(keys: seq<string>, matched: map<string, seq<string>>, tables: Tables): seq<string>
    requires HaveModes(keys, tables) && forall c :: c in keys ==> c in matched
  {
    if keys == [] then []
    else
      var last := keys[|keys| - 1];
      HitEvidence(keys[..|keys| - 1], matched, tables) + Bits(last, matched[last], tables)
  }

  /** The evidence of the two combinations. */
  function Combinations(injection: bool, sensitive: bool, outbound: bool): seq<string>
  {
    (if injection && sensitive then ["combo: prompt_injection + sensitive_path"] else [])
    + (if sensitive && outbound then ["combo: sensitive_path + outbound_url"] else [])
  }

  function Joined(bits: seq<string>): string
  {
    if bits == [] then ""
    else if |bits| == 1 then bits[0]
    else bits[0] + "; " + Joined(bits[1..])
  }

  method AnyHaystack(hays: seq<string>, p: string -> bool) returns (found: bool)
    ensures found == Any(hays, p)
  {
    for i := 0 to |hays|
      invariant !Any(hays[..i], p)
    {
      if p(hays[i]) {
        return true;
      }
    }
    assert hays[..|hays|] == hays;
    return false;
  }

  /** One pattern against the haystacks, stopping at the first match. */
  method SearchHaystacks(rule: Rule, hays: seq<string>) returns (hit: Option<string>)
    ensures hit == FirstHit(rule, hays)
  {
    for i := 0 to |hays|
      invariant FirstHit(rule, hays) == FirstHit(rule, hays[i..])
    {
      hit := rule.search(hays[i]);
      assert hays[i..][0] == hays[i] && hays[i..][1..] == hays[i + 1..];
      if hit.Some? {
        return;
      }
    }
    return None;
  }

  /** The dictionary of matches: its keys in insertion order, and the hits of each. */
  ghost predicate Matches(keys: seq<string>, matched: map<string, seq<string>>, rules: seq<Rule>, hays: seq<string>)
  {
    && (forall c :: c in keys <==> c in matched)
    && (forall c :: c in matched <==> HitsFor(rules, hays, c) != [])
    && (forall c :: c in matched ==> matched[c] == HitsFor(rules, hays, c))
  }

  lemma NoHits(hays: seq<string>)
    ensures Matches([], map[], [], hays)
  {}

  lemma HitsOfOneMore(rules: seq<Rule>, i: nat, hays: seq<string>, c: string)
    requires i < |rules|
    ensures HitsFor(rules[..i + 1], hays, c) == HitsFor(rules[..i], hays, c) + HitOf(rules[i], hays, c)
  {
    hide FirstHit;
    assert rules[..i + 1][..i] == rules[..i];
  }

  lemma FiredOneMore(rules: seq<Rule>, i: nat, hays: seq<string>)
    requires i < |rules|
    ensures var fired, category := FiredCategories(rules[..i], hays), rules[i].category;
      FiredCategories(rules[..i + 1], hays)
      == if FirstHit(rules[i], hays).Some? && category !in fired then fired + [category] else fired
  {
    hide FirstHit;
    assert rules[..i + 1][..i] == rules[..i];
  }

  lemma MatchMiss(keys: seq<string>, matched: map<string, seq<string>>, rules: seq<Rule>, i: nat, hays: seq<string>)
    requires i < |rules| && Matches(keys, matched, rules[..i], hays) && FirstHit(rules[i], hays) == None
    ensures Matches(keys, matched, rules[..i + 1], hays)
  {
    hide FirstHit, HitsFor;
    forall c
      ensures HitsFor(rules[..i + 1], hays, c) == HitsFor(rules[..i], hays, c)
    {
      HitsOfOneMore(rules, i, hays, c);
    }
  }

  lemma MatchHit(keys: seq<string>, matched: map<string, seq<string>>, rules: seq<Rule>, i: nat, hays: seq<string>)
    requires i < |rules| && Matches(keys, matched, rules[..i], hays) && FirstHit(rules[i], hays).Some?
    ensures var category := rules[i].category;
      var hits := if category in matched then matched[category] else [];
      Matches(if category in matched then keys else keys + [category],
              matched[category := hits + [FirstHit(rules[i], hays).value]], rules[..i + 1], hays)
  {
    hide FirstHit, HitsFor;
    var category := rules[i].category;
    forall c | c != category
      ensures HitsFor(rules[..i + 1], hays, c) == HitsFor(rules[..i], hays, c)
    {
      HitsOfOneMore(rules, i, hays, c);
    }
    HitsOfOneMore(rules, i, hays, category);
    assert forall c :: c in keys + [category] <==> c in keys || c == category;
  }

  lemma KeysAreMatched(keys: seq<string>, matched: map<string, seq<string>>, rules: seq<Rule>, hays: seq<string>)
    requires Matches(keys, matched, rules, hays)
    ensures forall c :: c in keys <==> c in matched
  {}

  method MatchRules(rules: seq<Rule>, hays: seq<string>) returns (keys: seq<string>, matched: map<string, seq<string>>)
    ensures Matches(keys, matched, rules, hays) && keys == FiredCategories(rules, hays)
  {
    hide FirstHit, HitsFor, Matches;
    keys, matched := [], map[];
    NoHits(hays);
    assert rules[..0] == [];
    for i := 0 to |rules|
      invariant Matches(keys, matched, rules[..i], hays) && keys == FiredCategories(rules[..i], hays)
    {
      var category := rules[i].category;
      FiredOneMore(rules, i, hays);
      KeysAreMatched(keys, matched, rules[..i], hays);
      var hit := SearchHaystacks(rules[i], hays);
      if hit == None {
        MatchMiss(keys, matched, rules, i, hays);
      } else {
        MatchHit(keys, matched, rules, i, hays);
        var hits := if category in matched then matched[category] else [];
        if category !in matched {
          keys := keys + [category];
        }
        matched := matched[category := hits + [hit.value]];
      }
    }
    assert rules[..|rules|] == rules;
  }

  ghost predicate SevereCategory(category: string, hits: seq<string>, tables: Tables)
  {
    tables.highCategory(category) || exists i :: 0 <= i < |hits| && tables.severeHit(hits[i])
  }

  /** The hits grouped by mode. */
  ghost predicate Grouped(modes: map<string, seq<string>>, keys: seq<string>, matched: map<string, seq<string>>,
                          tables: Tables)
    requires forall c :: c in keys ==> c in matched
  {
    && (forall m :: m in modes <==> exists c :: c in keys && tables.mode(c) == Some(m))
    && (forall m :: m in modes ==> modes[m] == ModeHits(keys, matched, tables, m))
    && (forall m :: m !in modes ==> ModeHits(keys, matched, tables, m) == [])
  }

  lemma ModeHitsOneMore(keys: seq<string>, i: nat, matched: map<string, seq<string>>, tables: Tables)
    requires i < |keys| && forall c :: c in keys ==> c in matched
    ensures forall m :: ModeHits(keys[..i + 1], matched, tables, m) == ModeHits(keys[..i], matched, tables, m)
                        + if tables.mode(keys[i]) == Some(m) then matched[keys[i]] else []
  {
    assert keys[..i + 1][..i] == keys[..i];
  }

  lemma GroupOneMore(modes: map<string, seq<string>>, keys: seq<string>, i: nat, matched: map<string, seq<string>>,
                     tables: Tables)
    requires i < |keys| && forall c :: c in keys ==> c in matched
    requires Grouped(modes, keys[..i], matched, tables) && tables.mode(keys[i]).Some?
    ensures var mode := tables.mode(keys[i]).value;
      var hits := if mode in modes then modes[mode] else [];
      Grouped(modes[mode := hits + matched[keys[i]]], keys[..i + 1], matched, tables)
  {
    hide ModeHits;
    assert keys[..i + 1] == keys[..i] + [keys[i]];
    ModeHitsOneMore(keys, i, matched, tables);
    var mode := tables.mode(keys[i]).value;
    forall m
      ensures (exists c :: c in keys[..i + 1] && tables.mode(c) == Some(m))
        <==> m == mode || exists c :: c in keys[..i] && tables.mode(c) == Some(m)
    {
      assert keys[i] in keys[..i + 1];
    }
  }

  lemma NoneGrouped(keys: seq<string>, matched: map<string, seq<string>>, tables: Tables)
    requires keys == []
    ensures Grouped(map[], keys, matched, tables)
  {}

  /** Groups the hits by mode; a category without a mode raises. */
  method GroupByMode(keys: seq<string>, matched: map<string, seq<string>>, tables: Tables)
    returns (r: Result<map<string, seq<string>>>)
    requires forall c :: c in keys ==> c in matched
    ensures if HaveModes(keys, tables) then r.Ok? else r == Err(KeyError)
    ensures r.Ok? ==> Grouped(r.value, keys, matched, tables)
  {
    hide Grouped, ModeHits;
    var modes: map<string, seq<string>> := map[];
    NoneGrouped(keys[..0], matched, tables);
    for i := 0 to |keys|
      invariant HaveModes(keys[..i], tables)
      invariant Grouped(modes, keys[..i], matched, tables)
    {
      var mode := tables.mode(keys[i]);
      if mode == None {
        return Err(KeyError);
      }
      var hits := if mode.value in modes then modes[mode.value] else [];
      GroupOneMore(modes, keys, i, matched, tables);
      assert keys[..i + 1] == keys[..i] + [keys[i]];
      modes := modes[mode.value := hits + matched[keys[i]]];
    }
    assert keys[..|keys|] == keys;
    return Ok(modes);
  }

  lemma NoEvidence(keys: seq<string>, matched: map<string, seq<string>>, tables: Tables)
    requires keys == []
    ensures HitEvidence(keys, matched, tables) == []
  {}

  lemma EvidenceOneMore(keys: seq<string>, i: nat, matched: map<string, seq<string>>, tables: Tables)
    requires i < |keys| && HaveModes(keys, tables) && forall c :: c in keys ==> c in matched
    ensures HitEvidence(keys[..i + 1], matched, tables)
         == HitEvidence(keys[..i], matched, tables) + Bits(keys[i], matched[keys[i]], tables)
  {
    assert keys[..i + 1][..i] == keys[..i];
  }

  /** The loop over the matched categories and their hits: the verdict, and the evidence of each hit. */
  method Escalate(keys: seq<string>, matched: map<string, seq<string>>, tables: Tables)
    returns (verdict: Verdict, bits: seq<string>)
    requires HaveModes(keys, tables) && forall c :: c in keys ==> c in matched
    ensures verdict == if exists c :: c in keys && SevereCategory(c, matched[c], tables) then Malicious else Suspicious
    ensures bits == HitEvidence(keys, matched, tables)
  {
    hide HitEvidence, Bit;
    verdict, bits := Suspicious, [];
    NoEvidence(keys[..0], matched, tables);
    for i := 0 to |keys|
      invariant verdict in {Suspicious, Malicious}
      invariant verdict == Malicious <==> exists c :: c in keys[..i] && SevereCategory(c, matched[c], tables)
      invariant bits == HitEvidence(keys[..i], matched, tables)
    {
      var category := keys[i];
      assert keys[..i + 1] == keys[..i] + [category];
      EvidenceOneMore(keys, i, matched, tables);
      ghost var before := verdict;
      if tables.highCategory(category) {
        verdict := MaxVerdict(verdict, Malicious);
      }
      var hits := matched[category];
      for h := 0 to |hits|
        invariant verdict in {Suspicious, Malicious}
        invariant verdict == Malicious <==>
          before == Malicious || tables.highCategory(category) || exists j :: 0 <= j < h && tables.severeHit(hits[j])
        invariant bits == HitEvidence(keys[..i], matched, tables) + Bits(category, hits[..h], tables)
      {
        if tables.severeHit(hits[h]) {
          verdict := MaxVerdict(verdict, Malicious);
        }
        assert hits[..h + 1][..h] == hits[..h];
        bits := bits + [Bit(category, hits[h], tables)];
      }
      assert hits[..|hits|] == hits;
      assert SevereCategory(category, matched[category], tables) <==>
        tables.highCategory(category) || exists j :: 0 <= j < |hits| && tables.severeHit(hits[j]);
    }
    assert keys[..|keys|] == keys;
  }

  /** What `detect` returns; the list of all evidence is absent when nothing matched. */
  datatype Detection = Detection(
    verdict: Verdict,
    evidence: string,
    matched: map<string, seq<string>>,
    modes: map<string, seq<string>>,
    allEvidence: Option<seq<string>>)

  lemma {:induction false} HitsExactly(rules: seq<Rule>, hays: seq<string>, category: string, hit: string)
    ensures hit in HitsFor(rules, hays, category) <==>
      exists i :: 0 <= i < |rules| && rules[i].category == category && FirstHit(rules[i], hays) == Some(hit)
    decreases |rules|
  {
    if rules != [] {
      var init := rules[..|rules| - 1];
      HitsExactly(init, hays, category, hit);
      assert forall i :: 0 <= i < |init| ==> init[i] == rules[i];
    }
  }

  ghost function SevereAt(hits: seq<string>, tables: Tables): (h: nat)
    requires exists i :: 0 <= i < |hits| && tables.severeHit(hits[i])
    ensures h < |hits| && tables.severeHit(hits[h])
  {
    var i :| 0 <= i < |hits| && tables.severeHit(hits[i]);
    i
  }

  /** Non-empty hits, severe hits and injection hits are firing rules of those kinds. */
  lemma MatchedMeansFired(keys: seq<string>, matched: map<string, seq<string>>, rules: seq<Rule>, hays: seq<string>,
                          tables: Tables)
    requires Matches(keys, matched, rules, hays)
    ensures keys != [] <==> AnyFires(rules, hays)
    ensures (exists c :: c in keys && SevereCategory(c, matched[c], tables)) <==> AnySevere(rules, hays, tables)
    ensures INJECTION in matched <==> InjectionFires(rules, hays)
  {
    hide FirstHit, HitsFor;
    forall c | c in keys
      ensures AnyFires(rules, hays)
      ensures c == INJECTION ==> InjectionFires(rules, hays)
      ensures SevereCategory(c, matched[c], tables) ==> AnySevere(rules, hays, tables)
    {
      var hits := HitsFor(rules, hays, c);
      HitsExactly(rules, hays, c, hits[0]);
      var i :| 0 <= i < |rules| && rules[i].category == c && FirstHit(rules[i], hays) == Some(hits[0]);
      assert Fires(rules[i], hays);
      if SevereCategory(c, hits, tables) {
        var h := if tables.highCategory(c) then 0 else SevereAt(hits, tables);
        HitsExactly(rules, hays, c, hits[h]);
        var k :| 0 <= k < |rules| && rules[k].category == c && FirstHit(rules[k], hays) == Some(hits[h]);
        assert Severe(rules[k], hays, tables);
      }
    }
    if keys != [] { assert keys[0] in keys; }
    forall i | 0 <= i < |rules| && Fires(rules[i], hays)
      ensures rules[i].category in keys
      ensures Severe(rules[i], hays, tables) ==> SevereCategory(rules[i].category, matched[rules[i].category], tables)
    {
      HitsExactly(rules, hays, rules[i].category, FirstHit(rules[i], hays).value);
    }
  }

  // ----- the trace itself -----

  /** The text a rule finds in a trace: in the input, or else in the name or the arguments of a tool call. */
  function HitIn(rule: Rule, trace: Trace): Option<string>
  {
    if rule.search(trace.userInput).Some? then rule.search(trace.userInput)
    else if trace.toolName == "" then None
    else if rule.search(trace.toolName).Some? then rule.search(trace.toolName)
    else rule.search(trace.toolArgs)
  }

  /** The input, or the name or the arguments of a tool call, has the property. */
  predicate SomewhereIn(trace: Trace, p: string -> bool)
  {
    p(trace.userInput) || (trace.toolName != "" && (p(trace.toolName) || p(trace.toolArgs)))
  }

  /** Each rule's hit is in the first text of the trace that it matches. */
  lemma HitsComeFromTheTrace(rule: Rule, trace: Trace)
    ensures FirstHit(rule, Haystacks(trace)) == HitIn(rule, trace)
  {
    var hays := Haystacks(trace);
    if trace.toolName != "" {
      var tool := [trace.toolName, trace.toolArgs];
      assert hays[1..] == tool && tool[1..] == [trace.toolArgs] && [trace.toolArgs][1..] == [];
      assert FirstHit(rule, [trace.toolArgs]) == rule.search(trace.toolArgs);
      assert rule.search(trace.toolName).None? ==> FirstHit(rule, tool) == rule.search(trace.toolArgs);
    } else {
      assert hays[1..] == [];
    }
  }

  lemma AnyIsSomewhere(trace: Trace, p: string -> bool)
    ensures Any(Haystacks(trace), p) <==> SomewhereIn(trace, p)
  {
    var hays := Haystacks(trace);
    if SomewhereIn(trace, p) {
      var i := if p(trace.userInput) then 0 else if p(trace.toolName) then 1 else 2;
      assert p(hays[i]);
    }
  }

  /**
   The verdict on a trace: safe exactly when no rule matches its input or its tool call; malicious exactly when
   a rule that matches is of a severe category or finds severe text, or when some rule matches, the trace names
   a sensitive path, and it also has an injection or an outbound address.
   */
  ghost predicate Rates(verdict: Verdict, rules: seq<Rule>, trace: Trace, tables: Tables)
  {
    && (verdict == Safe <==> forall rule :: rule in rules ==> HitIn(rule, trace) == None)
    && (verdict == Malicious <==>
          || (exists rule :: rule in rules && HitIn(rule, trace).Some?
                             && (tables.highCategory(rule.category) || tables.severeHit(HitIn(rule, trace).value)))
          || ((exists rule :: rule in rules && HitIn(rule, trace).Some?)
              && SomewhereIn(trace, tables.sensitivePath)
              && ((exists rule :: rule in rules && rule.category == "prompt_injection" && HitIn(rule, trace).Some?)
                  || SomewhereIn(trace, tables.outboundUrl))))
  }

  lemma VerdictExactly(rules: seq<Rule>, trace: Trace, tables: Tables)
    ensures Rates(VerdictOf(rules, Haystacks(trace), tables), rules, trace, tables)
  {
    hide FirstHit, Haystacks, Any, HitIn, SomewhereIn;
    var hays := Haystacks(trace);
    AnyIsSomewhere(trace, tables.sensitivePath);
    AnyIsSomewhere(trace, tables.outboundUrl);
    forall rule
      ensures Fires(rule, hays) <==> HitIn(rule, trace).Some?
      ensures FirstHit(rule, hays) == HitIn(rule, trace)
    {
      HitsComeFromTheTrace(rule, trace);
    }
    assert AnyFires(rules, hays) <==> exists rule :: rule in rules && HitIn(rule, trace).Some?;
    assert AnySevere(rules, hays, tables) <==>
           exists rule :: rule in rules && HitIn(rule, trace).Some?
                          && (tables.highCategory(rule.category) || tables.severeHit(HitIn(rule, trace).value));
    assert InjectionFires(rules, hays) <==>
           exists rule :: rule in rules && rule.category == "prompt_injection" && HitIn(rule, trace).Some?;
  }

  // ----- the whole call -----

  /** All evidence: every hit, then the combinations. */
  ghost function EvidenceOf(rules: seq<Rule>, hays: seq<string>, matched: map<string, seq<string>>,
                            tables: Tables): seq<string>
    requires forall c :: c in FiredCategories(rules, hays) ==> c in matched
    requires HaveModes(FiredCategories(rules, hays), tables)
  {
    HitEvidence(FiredCategories(rules, hays), matched, tables)
    + Combinations(InjectionFires(rules, hays), Any(hays, tables.sensitivePath), Any(hays, tables.outboundUrl))
  }

  /** `d` is the detection of the rules on the haystacks. */
  ghost predicate IsDetection(d: Detection, rules: seq<Rule>, hays: seq<string>, tables: Tables)
    requires HaveModes(FiredCategories(rules, hays), tables)
  {
    var keys := FiredCategories(rules, hays);
    && d.verdict == VerdictOf(rules, hays, tables)
    && Matches(keys, d.matched, rules, hays)
    && Grouped(d.modes, keys, d.matched, tables)
    && if keys == [] then d.allEvidence == None && d.evidence == ""
       else
         var all := EvidenceOf(rules, hays, d.matched, tables);
         d.allEvidence == Some(all) && d.evidence == Joined(all[..if |all| < 5 then |all| else 5])
  }

  lemma VerdictCases(rules: seq<Rule>, hays: seq<string>, tables: Tables)
    ensures VerdictOf(rules, hays, tables) ==
      if !AnyFires(rules, hays) then Safe
      else if AnySevere(rules, hays, tables) || Combination(rules, hays, tables) then Malicious
      else Suspicious
  {}

  /** What fired leaves evidence. */
  lemma OneBitAtLeast(keys: seq<string>, matched: map<string, seq<string>>, rules: seq<Rule>, hays: seq<string>,
                      tables: Tables)
    requires keys != [] && Matches(keys, matched, rules, hays) && HaveModes(keys, tables)
    ensures HitEvidence(keys, matched, tables) != []
  {
    hide HitsFor, FirstHit;
    var last := keys[|keys| - 1];
    assert last in keys && matched[last] != [];
    assert Bits(last, matched[last], tables) != [];
  }

  method Detect(rules: seq<Rule>, trace: Trace, tables: Tables) returns (r: Result<Detection>)
    ensures if HaveModes(FiredCategories(rules, Haystacks(trace)), tables) then r.Ok? else r == Err(KeyError)
    ensures r.Ok? ==> IsDetection(r.value, rules, Haystacks(trace), tables)
    ensures r.Ok? ==> Rates(r.value.verdict, rules, trace, tables)
    ensures r.Ok? && r.value.allEvidence.Some? ==>
      var all := r.value.allEvidence.value;
      all != [] && r.value.evidence == Joined(if |all| <= 5 then all else all[..5])
  {
    hide Rates, FirstHit, HitsFor, VerdictOf, FiredCategories, Any, Grouped, HitEvidence, Joined, AnyFires, AnySevere,
      InjectionFires;
    var hays := Haystacks(trace);
    var keys, matched := MatchRules(rules, hays);
    MatchedMeansFired(keys, matched, rules, hays, tables);
    VerdictExactly(rules, trace, tables);
    if keys == [] {
      VerdictCases(rules, hays, tables);
      NoneGrouped(keys, matched, tables);
      return Ok(Detection(Safe, "", map[], map[], None));
    }
    var grouped := GroupByMode(keys, matched, tables);
    if grouped.Err? {
      return Err(grouped.error);
    }
    var injection := INJECTION in matched;
    var sensitive := AnyHaystack(hays, tables.sensitivePath);
    var outbound := AnyHaystack(hays, tables.outboundUrl);
    var verdict, bits := Escalate(keys, matched, tables);
    ghost var hits := bits;
    if injection && sensitive {
      verdict := MaxVerdict(verdict, Malicious);
      bits := bits + ["combo: prompt_injection + sensitive_path"];
    }
    if sensitive && outbound {
      verdict := MaxVerdict(verdict, Malicious);
      bits := bits + ["combo: sensitive_path + outbound_url"];
    }
    assert bits == hits + Combinations(injection, sensitive, outbound);
    VerdictCases(rules, hays, tables);
    var shown := bits[..if |bits| < 5 then |bits| else 5];
    OneBitAtLeast(keys, matched, rules, hays, tables);
    assert bits[..|bits|] == bits;
    return Ok(Detection(verdict, Joined(shown), matched, grouped.value, Some(bits)));
  }

  // ----- what the evidence says -----

  predicate Distinct(keys: seq<string>)
  {
    forall i, j :: 0 <= i < j < |keys| ==> keys[i] != keys[j]
  }

  /** A category is listed exactly when one of its rules fires, and none is listed twice. */
  lemma {:induction false} FiredExactly(rules: seq<Rule>, hays: seq<string>)
    ensures Distinct(FiredCategories(rules, hays))
    ensures forall c :: c in FiredCategories(rules, hays) <==>
                        exists i :: 0 <= i < |rules| && rules[i].category == c && Fires(rules[i], hays)
    decreases |rules|
  {
    hide FirstHit;
    if rules != [] {
      var init, last := rules[..|rules| - 1], rules[|rules| - 1];
      var before, fired := FiredCategories(init, hays), FiredCategories(rules, hays);
      FiredExactly(init, hays);
      assert fired == if Fires(last, hays) && last.category !in before then before + [last.category] else before;
      assert forall i :: 0 <= i < |init| ==> init[i] == rules[i];
      forall c
        ensures (exists i :: 0 <= i < |rules| && rules[i].category == c && Fires(rules[i], hays)) <==>
          c in before || (c == last.category && Fires(last, hays))
      {
        if i :| 0 <= i < |rules| && rules[i].category == c && Fires(rules[i], hays) {
          assert i < |init| ==> init[i].category == c && Fires(init[i], hays);
        }
      }
    }
  }

  /** The call raises exactly when a rule fires whose category has no mode. */
  lemma RaisesExactly(rules: seq<Rule>, hays: seq<string>, tables: Tables)
    ensures !HaveModes(FiredCategories(rules, hays), tables) <==>
      exists i :: 0 <= i < |rules| && Fires(rules[i], hays) && tables.mode(rules[i].category) == None
  {
    hide FiredCategories, Fires;
    FiredExactly(rules, hays);
  }

  lemma {:induction false} BitsExactly(category: string, hits: seq<string>, tables: Tables, bit: string)
    requires tables.mode(category).Some?
    ensures bit in Bits(category, hits, tables) <==> exists h :: h in hits && bit == Bit(category, h, tables)
    decreases |hits|
  {
    hide Bit;
    if hits != [] {
      var init, last := hits[..|hits| - 1], hits[|hits| - 1];
      BitsExactly(category, init, tables, bit);
      assert hits == init + [last];
    }
  }

  lemma {:induction false} HitEvidenceOf(keys: seq<string>, matched: map<string, seq<string>>, tables: Tables,
                                         bit: string)
    requires HaveModes(keys, tables) && forall c :: c in keys ==> c in matched
    ensures bit in HitEvidence(keys, matched, tables)
      <==> exists c, h :: c in keys && h in matched[c] && bit == Bit(c, h, tables)
    decreases |keys|
  {
    hide Bits, Bit;
    if keys != [] {
      var init, last := keys[..|keys| - 1], keys[|keys| - 1];
      HitEvidenceOf(init, matched, tables, bit);
      BitsExactly(last, matched[last], tables, bit);
      assert keys == init + [last];
    }
  }

  /** The evidence of the hits names exactly the rules that fired, each with its mode, category and hit. */
  lemma EvidenceExactly(rules: seq<Rule>, hays: seq<string>, matched: map<string, seq<string>>, tables: Tables,
                        bit: string)
    requires var keys := FiredCategories(rules, hays); HaveModes(keys, tables) && Matches(keys, matched, rules, hays)
    ensures bit in HitEvidence(FiredCategories(rules, hays), matched, tables) <==>
      exists i :: 0 <= i < |rules| && Fires(rules[i], hays) && tables.mode(rules[i].category).Some?
                  && bit == tables.mode(rules[i].category).value + "/" + rules[i].category + ": "
                            + tables.quote(FirstHit(rules[i], hays).value)
  {
    hide FirstHit, HitsFor, FiredCategories, HitEvidence;
    var keys := FiredCategories(rules, hays);
    HitEvidenceOf(keys, matched, tables, bit);
    FiredExactly(rules, hays);
    if bit in HitEvidence(keys, matched, tables) {
      var c, h :| c in keys && h in matched[c] && bit == Bit(c, h, tables);
      HitsExactly(rules, hays, c, h);
    }
    if i :| 0 <= i < |rules| && Fires(rules[i], hays) && tables.mode(rules[i].category).Some?
            && bit == tables.mode(rules[i].category).value + "/" + rules[i].category + ": "
                      + tables.quote(FirstHit(rules[i], hays).value) {
      assert bit == Bit(rules[i].category, FirstHit(rules[i], hays).value, tables);
      HitsExactly(rules, hays, rules[i].category, FirstHit(rules[i], hays).value);
      assert FirstHit(rules[i], hays).value in matched[rules[i].category];
    }
  }

  function Firing(rules: seq<Rule>, hays: seq<string>): nat
  {
    if rules == [] then 0
    else Firing(rules[..|rules| - 1], hays) + if FirstHit(rules[|rules| - 1], hays).Some? then 1 else 0
  }

  function HitCount(keys: seq<string>, rules: seq<Rule>, hays: seq<string>): nat
  {
    if keys == [] then 0
    else HitCount(keys[..|keys| - 1], rules, hays) + |HitsFor(rules, hays, keys[|keys| - 1])|
  }

  lemma {:induction false} HitCountOneMore(keys: seq<string>, rules: seq<Rule>, hays: seq<string>)
    requires rules != [] && Distinct(keys)
    ensures var last := rules[|rules| - 1];
      HitCount(keys, rules, hays) == HitCount(keys, rules[..|rules| - 1], hays)
                                     + if FirstHit(last, hays).Some? && last.category in keys then 1 else 0
    decreases |keys|
  {
    hide FirstHit, HitsFor;
    if keys != [] {
      HitCountOneMore(keys[..|keys| - 1], rules, hays);
      HitsOfOneMore(rules, |rules| - 1, hays, keys[|keys| - 1]);
      assert rules[..|rules| - 1 + 1] == rules;
      assert keys == keys[..|keys| - 1] + [keys[|keys| - 1]];
    }
  }

  lemma NoHitsBefore(rules: seq<Rule>, hays: seq<string>, category: string)
    requires category !in FiredCategories(rules, hays)
    ensures HitsFor(rules, hays, category) == []
  {
    hide FirstHit, FiredCategories;
    FiredExactly(rules, hays);
    var hits := HitsFor(rules, hays, category);
    if hits != [] {
      HitsExactly(rules, hays, category, hits[0]);
      assert false;
    }
  }

  lemma {:induction false} HitsAreFirings(rules: seq<Rule>, hays: seq<string>)
    ensures HitCount(FiredCategories(rules, hays), rules, hays) == Firing(rules, hays)
    decreases |rules|
  {
    hide FirstHit, HitsFor;
    if rules != [] {
      var init, last := rules[..|rules| - 1], rules[|rules| - 1];
      var before, fired := FiredCategories(init, hays), FiredCategories(rules, hays);
      HitsAreFirings(init, hays);
      FiredExactly(rules, hays);
      HitCountOneMore(fired, rules, hays);
      if fired != before {
        assert fired[..|fired| - 1] == before;
        NoHitsBefore(init, hays, last.category);
      }
    }
  }

  lemma {:induction false} BitsLength(category: string, hits: seq<string>, tables: Tables)
    requires tables.mode(category).Some?
    ensures |Bits(category, hits, tables)| == |hits|
    decreases |hits|
  {
    if hits != [] {
      BitsLength(category, hits[..|hits| - 1], tables);
    }
  }

  lemma {:induction false} EvidenceLength(keys: seq<string>, rules: seq<Rule>, hays: seq<string>,
                                          matched: map<string, seq<string>>, tables: Tables)
    requires HaveModes(keys, tables)
    requires forall c :: c in keys ==> c in matched && matched[c] == HitsFor(rules, hays, c)
    ensures |HitEvidence(keys, matched, tables)| == HitCount(keys, rules, hays)
    decreases |keys|
  {
    hide HitsFor, Bits;
    if keys != [] {
      EvidenceLength(keys[..|keys| - 1], rules, hays, matched, tables);
      BitsLength(keys[|keys| - 1], matched[keys[|keys| - 1]], tables);
    }
  }

  /** One piece of evidence per rule that fired: none is lost, and none is counted twice. */
  lemma OneBitPerFiring(rules: seq<Rule>, hays: seq<string>, matched: map<string, seq<string>>, tables: Tables)
    requires var keys := FiredCategories(rules, hays); HaveModes(keys, tables) && Matches(keys, matched, rules, hays)
    ensures |HitEvidence(FiredCategories(rules, hays), matched, tables)| == Firing(rules, hays)
  {
    hide FirstHit, HitsFor, FiredCategories, HitEvidence;
    EvidenceLength(FiredCategories(rules, hays), rules, hays, matched, tables);
    HitsAreFirings(rules, hays);
  }

  lemma {:induction false} ModeHitsOf(keys: seq<string>, matched: map<string, seq<string>>, tables: Tables,
                                      mode: string, hit: string)
    requires forall c :: c in keys ==> c in matched
    ensures hit in ModeHits(keys, matched, tables, mode)
      <==> exists c :: c in keys && tables.mode(c) == Some(mode) && hit in matched[c]
    decreases |keys|
  {
    if keys != [] {
      ModeHitsOf(keys[..|keys| - 1], matched, tables, mode, hit);
      assert keys == keys[..|keys| - 1] + [keys[|keys| - 1]];
    }
  }

  /** The hits of a mode are exactly those of the firing rules whose categories have that mode. */
  lemma ModeHitsExactly(rules: seq<Rule>, hays: seq<string>, matched: map<string, seq<string>>, tables: Tables,
                        mode: string, hit: string)
    requires Matches(FiredCategories(rules, hays), matched, rules, hays)
    ensures hit in ModeHits(FiredCategories(rules, hays), matched, tables, mode) <==>
      exists i :: 0 <= i < |rules| && tables.mode(rules[i].category) == Some(mode)
                  && FirstHit(rules[i], hays) == Some(hit)
  {
    hide FirstHit, HitsFor, FiredCategories, ModeHits;
    var keys := FiredCategories(rules, hays);
    ModeHitsOf(keys, matched, tables, mode, hit);
    FiredExactly(rules, hays);
    forall c | c in keys
      ensures hit in matched[c] <==>
        exists i :: 0 <= i < |rules| && rules[i].category == c && FirstHit(rules[i], hays) == Some(hit)
    {
      HitsExactly(rules, hays, c, hit);
    }
    if i :| 0 <= i < |rules| && tables.mode(rules[i].category) == Some(mode) && FirstHit(rules[i], hays) == Some(hit) {
      assert Fires(rules[i], hays) && rules[i].category in keys;
    }
  }

  /** After the evidence of the hits comes that of the two combinations. */
  lemma ComboEvidence(rules: seq<Rule>, trace: Trace, matched: map<string, seq<string>>, tables: Tables)
    requires var keys := FiredCategories(rules, Haystacks(trace));
      HaveModes(keys, tables) && forall c :: c in keys ==> c in matched
    ensures var hays := Haystacks(trace);
      var sensitive, outbound := SomewhereIn(trace, tables.sensitivePath), SomewhereIn(trace, tables.outboundUrl);
      var injection := exists rule :: rule in rules && rule.category == "prompt_injection" && HitIn(rule, trace).Some?;
      EvidenceOf(rules, hays, matched, tables)
      == HitEvidence(FiredCategories(rules, hays), matched, tables)
         + (if injection && sensitive then ["combo: prompt_injection + sensitive_path"] else [])
         + (if sensitive && outbound then ["combo: sensitive_path + outbound_url"] else [])
  {
    hide FirstHit, Haystacks, Any, HitIn, SomewhereIn, HitEvidence, FiredCategories;
    var hays := Haystacks(trace);
    AnyIsSomewhere(trace, tables.sensitivePath);
    AnyIsSomewhere(trace, tables.outboundUrl);
    forall rule
      ensures Fires(rule, hays) <==> HitIn(rule, trace).Some?
    {
      HitsComeFromTheTrace(rule, trace);
    }
    assert InjectionFires(rules, hays) <==>
           exists rule :: rule in rules && rule.category == "prompt_injection" && HitIn(rule, trace).Some?;
  }

  /** The pieces shown are separated by a semicolon and a space. */
  lemma {:induction false} JoinedOneMore(bits: seq<string>, bit: string)
    requires bits != []
    ensures Joined(bits + [bit]) == Joined(bits) + "; " + bit
    decreases |bits|
  {
    if |bits| > 1 {
      JoinedOneMore(bits[1..], bit);
      assert (bits + [bit])[1..] == bits[1..] + [bit];
    } else {
      assert (bits + [bit])[1..] == [bit];
    }
  }

  // ----- laws -----

  /** More rules never lower the verdict, wherever they are added. */
  lemma MoreRulesNeverLower(few: seq<Rule>, many: seq<Rule>, hays: seq<string>, tables: Tables)
    requires forall rule :: rule in few ==> rule in many
    ensures VerdictRank(VerdictOf(few, hays, tables)) <= VerdictRank(VerdictOf(many, hays, tables))
  {
    hide Fires;
    forall i | 0 <= i < |few|
      ensures Fires(few[i], hays) ==> AnyFires(many, hays)
      ensures Severe(few[i], hays, tables) ==> AnySevere(many, hays, tables)
      ensures few[i].category == INJECTION && Fires(few[i], hays) ==> InjectionFires(many, hays)
    {
      assert few[i] in many;
      var k :| 0 <= k < |many| && many[k] == few[i];
      assert Fires(few[i], hays) == Fires(many[k], hays);
      assert Severe(few[i], hays, tables) == Severe(many[k], hays, tables);
    }
  }

  lemma RankIsInjective(a: Verdict, b: Verdict)
    requires VerdictRank(a) == VerdictRank(b)
    ensures a == b
  {}

  /** The order of the rules does not matter, nor how often each occurs. */
  lemma RuleOrderIsIrrelevant(rules: seq<Rule>, others: seq<Rule>, hays: seq<string>, tables: Tables)
    requires multiset(rules) == multiset(others)
    ensures VerdictOf(rules, hays, tables) == VerdictOf(others, hays, tables)
  {
    hide VerdictOf;
    assert forall rule :: rule in rules ==> rule in multiset(others);
    assert forall rule :: rule in others ==> rule in multiset(rules);
    MoreRulesNeverLower(rules, others, hays, tables);
    MoreRulesNeverLower(others, rules, hays, tables);
    RankIsInjective(VerdictOf(rules, hays, tables), VerdictOf(others, hays, tables));
  }

  lemma {:induction false} HitStays(rule: Rule, hays: seq<string>, more: seq<string>)
    requires FirstHit(rule, hays).Some?
    ensures FirstHit(rule, hays + more) == FirstHit(rule, hays)
    decreases |hays|
  {
    if rule.search(hays[0]).None? {
      HitStays(rule, hays[1..], more);
      assert (hays + more)[1..] == hays[1..] + more;
    }
  }

  lemma AnyStays(hays: seq<string>, more: seq<string>, p: string -> bool)
    ensures Any(hays, p) ==> Any(hays + more, p)
  {
    if i :| 0 <= i < |hays| && p(hays[i]) {
      assert p((hays + more)[i]);
    }
  }

  /** More text to search, after what was there, never lowers the verdict. */
  lemma MoreTextNeverLowers(rules: seq<Rule>, hays: seq<string>, more: seq<string>, tables: Tables)
    ensures VerdictRank(VerdictOf(rules, hays, tables)) <= VerdictRank(VerdictOf(rules, hays + more, tables))
  {
    hide FirstHit;
    forall i | 0 <= i < |rules| && Fires(rules[i], hays)
      ensures Fires(rules[i], hays + more)
      ensures Severe(rules[i], hays, tables) ==> Severe(rules[i], hays + more, tables)
    {
      HitStays(rules[i], hays, more);
    }
    AnyStays(hays, more, tables.sensitivePath);
    AnyStays(hays, more, tables.outboundUrl);
  }

  /** A trace with a tool call is never rated below the same input without one. */
  lemma ToolCallNeverLowers(rules: seq<Rule>, input: string, name: string, args: string, tables: Tables)
    ensures VerdictRank(VerdictOf(rules, Haystacks(Trace(input, "", "")), tables))
         <= VerdictRank(VerdictOf(rules, Haystacks(Trace(input, name, args)), tables))
  {
    if name == "" {
      assert Haystacks(Trace(input, name, args)) == Haystacks(Trace(input, "", ""));
    } else {
      assert [input] + [] == [input];
      MoreTextNeverLowers(rules, [input], [name, args], tables);
    }
  }

  // ----- fusing with a second detector -----

  function Fused(heuristic: Verdict, llm: Option<Verdict>): Verdict
  {
    match llm
    case None => heuristic
    case Some(v) => MaxVerdict(heuristic, v)
  }

  predicate IsDetected(verdict: Verdict, minimum: Verdict)
  {
    VerdictRank(verdict) >= VerdictRank(minimum)
  }

  /** The fused verdict is the least upper bound of its parts, whichever comes first. */
  lemma FusedIsLeastUpperBound(heuristic: Verdict, v: Verdict, bound: Verdict)
    ensures VerdictRank(Fused(heuristic, Some(v))) <= VerdictRank(bound)
       <==> VerdictRank(heuristic) <= VerdictRank(bound) && VerdictRank(v) <= VerdictRank(bound)
    ensures Fused(heuristic, Some(v)) == Fused(v, Some(heuristic))
    ensures IsDetected(Fused(heuristic, Some(v)), bound) <==> IsDetected(heuristic, bound) || IsDetected(v, bound)
  {}

  /** The fused verdict by name; without a second opinion it is the first. */
  lemma FusedByName(heuristic: Verdict, v: Verdict)
    ensures Fused(heuristic, None) == heuristic
    ensures Fused(heuristic, Some(v)) == Malicious <==> heuristic == Malicious || v == Malicious
    ensures Fused(heuristic, Some(v)) == Safe <==> heuristic == Safe && v == Safe
  {}

  /** What counts as detected, by name of the least verdict that does. */
  lemma DetectedByName(v: Verdict)
    ensures IsDetected(v, Safe) && (IsDetected(v, Suspicious) <==> v != Safe)
    ensures IsDetected(v, Malicious) <==> v == Malicious
  {}

  /** Detection by the fused detector inherits the laws: nothing detected is lost by more rules or a tool call. */
  lemma DetectionIsKept(few: seq<Rule>, many: seq<Rule>, input: string, name: string, args: string,
                        tables: Tables, llm: Option<Verdict>, minimum: Verdict)
    requires forall rule :: rule in few ==> rule in many
    requires IsDetected(Fused(VerdictOf(few, Haystacks(Trace(input, "", "")), tables), llm), minimum)
    ensures IsDetected(Fused(VerdictOf(many, Haystacks(Trace(input, name, args)), tables), llm), minimum)
  {
    hide VerdictOf, Haystacks;
    MoreRulesNeverLower(few, many, Haystacks(Trace(input, "", "")), tables);
    ToolCallNeverLowers(many, input, name, args, tables);
  }
}
