/** Grouping findings by host and scenario (`report/correlation.py`). */
module Correlation {
  import opened Outcome

  datatype Severity = Info | Low | Medium | High | Critical

  function SeverityRank(s: Severity): nat
  {
    match s
    case Info => 0
    case Low => 1
    case Medium => 2
    case High => 3
    case Critical => 4
  }

  /** A finding; no host is the empty string, and the metadata may lack a scenario. */
  datatype Finding = Finding(id: string, host: string, scenario: Option<string>, severity: Severity)

  datatype TargetCorrelation = TargetCorrelation(
    target: string, findingIds: seq<string>, scenarios: seq<string>, severity: Severity)

  function ScenarioOf(f: Finding): string
  {
    if f.scenario.Some? then f.scenario.value else "unknown"
  }

  predicate HasScenario(linked: seq<Finding>, scenario: string)
  {
    exists i :: 0 <= i < |linked| && ScenarioOf(linked[i]) == scenario
  }

  // ----- what the loops compute -----

  /** The hosts that occur, in order of first occurrence. */
  function Hosts(findings: seq<Finding>): seq<string>
  {
    if findings == [] then []
    else
      var init, f := Hosts(findings[..|findings| - 1]), findings[|findings| - 1];
      if f.host == "" || f.host in init then init else init + [f.host]
  }

  function OfHost(findings: seq<Finding>, host: string): seq<Finding>
  {
    if findings == [] then []
    else
      var init, f := OfHost(findings[..|findings| - 1], host), findings[|findings| - 1];
      if f.host == host then init + [f] else init
  }

  /** The first finding of each scenario, in order of first occurrence. */
  function Linked(findings: seq<Finding>): seq<Finding>
  {
    if findings == [] then []
    else
      var init, f := Linked(findings[..|findings| - 1]), findings[|findings| - 1];
      if HasScenario(init, ScenarioOf(f)) then init else init + [f]
  }

  /** `max` with a rank as its key: the first of the highest. */
  function MaxSeverity(linked: seq<Finding>): (s: Severity)
    requires linked != []
    ensures exists i :: 0 <= i < |linked| && linked[i].severity == s
    ensures forall i :: 0 <= i < |linked| ==> SeverityRank(linked[i].severity) <= SeverityRank(s)
  {
    if |linked| == 1 then linked[0].severity
    else
      var init, last := MaxSeverity(linked[..|linked| - 1]), linked[|linked| - 1];
      if SeverityRank(last.severity) > SeverityRank(init) then last.severity else init
  }

  function Ids(linked: seq<Finding>): seq<string>
  {
    seq(|linked|, i requires 0 <= i < |linked| => linked[i].id)
  }

  function Scenarios(linked: seq<Finding>): seq<string>
  {
    seq(|linked|, i requires 0 <= i < |linked| => ScenarioOf(linked[i]))
  }

  function CorrelateHosts(hosts: seq<string>, findings: seq<Finding>): seq<TargetCorrelation>
  {
    if hosts == [] then []
    else
      var host := hosts[|hosts| - 1];
      var linked := Linked(OfHost(findings, host));
      CorrelateHosts(hosts[..|hosts| - 1], findings) +
        if |linked| < 2 then [] else [TargetCorrelation(host, Ids(linked), Scenarios(linked), MaxSeverity(linked))]
  }

  function Correlate(findings: seq<Finding>): seq<TargetCorrelation>
  {
    CorrelateHosts(Hosts(findings), findings)
  }

  // ----- the loops -----

  /** The dictionary of findings by host, with its keys in insertion order. */
  ghost predicate Grouped(keys: seq<string>, grouped: map<string, seq<Finding>>, findings: seq<Finding>)
  {
    && keys == Hosts(findings) && "" !in grouped
    && (forall h :: h in keys <==> h in grouped)
    && (forall h :: h in grouped ==> grouped[h] == OfHost(findings, h))
    && (forall h :: h != "" && h !in grouped ==> OfHost(findings, h) == [])
  }

  lemma NoneGrouped()
    ensures Hosts([]) == [] && forall h :: OfHost([], h) == []
    ensures Grouped([], map[], [])
  {}

  lemma StepGrouped(findings: seq<Finding>, i: nat)
    requires i < |findings|
    ensures Hosts(findings[..i + 1]) ==
      if findings[i].host == "" || findings[i].host in Hosts(findings[..i]) then Hosts(findings[..i])
      else Hosts(findings[..i]) + [findings[i].host]
    ensures OfHost(findings[..i + 1], findings[i].host) == OfHost(findings[..i], findings[i].host) + [findings[i]]
    ensures forall h :: h != findings[i].host ==> OfHost(findings[..i + 1], h) == OfHost(findings[..i], h)
  {
    assert findings[..i + 1][..i] == findings[..i];
  }

  lemma GroupOneMore(keys: seq<string>, grouped: map<string, seq<Finding>>, findings: seq<Finding>, i: nat)
    requires i < |findings| && Grouped(keys, grouped, findings[..i])
    ensures var f := findings[i];
      if f.host == "" then Grouped(keys, grouped, findings[..i + 1])
      else if f.host in grouped then Grouped(keys, grouped[f.host := grouped[f.host] + [f]], findings[..i + 1])
      else Grouped(keys + [f.host], grouped[f.host := [f]], findings[..i + 1])
  {
    hide Hosts, OfHost;
    StepGrouped(findings, i);
    var f := findings[i];
    if f.host != "" && f.host !in grouped {
      assert forall h :: h in keys + [f.host] <==> h in keys || h == f.host;
    }
  }

  method GroupByHost(findings: seq<Finding>) returns (keys: seq<string>, grouped: map<string, seq<Finding>>)
    ensures Grouped(keys, grouped, findings)
  {
    hide Hosts, OfHost, Grouped;
    keys, grouped := [], map[];
    NoneGrouped();
    assert findings[..0] == [];
    for i := 0 to |findings|
      invariant Grouped(keys, grouped, findings[..i])
    {
      var finding := findings[i];
      GroupOneMore(keys, grouped, findings, i);
      if finding.host != "" {
        var group := if finding.host in grouped then grouped[finding.host] else [];
        assert [] + [finding] == [finding];
        if finding.host !in grouped {
          keys := keys + [finding.host];
        }
        grouped := grouped[finding.host := group + [finding]];
      }
    }
    assert findings[..|findings|] == findings;
  }

  lemma ScenarioIsListed(linked: seq<Finding>, scenario: string)
    ensures scenario in Scenarios(linked) <==> HasScenario(linked, scenario)
  {
    if i :| 0 <= i < |linked| && ScenarioOf(linked[i]) == scenario {
      assert Scenarios(linked)[i] == scenario;
    }
  }

  /** The first finding of each scenario; `scenarios` are the dictionary's keys, in order. */
  method LinkByScenario(findings: seq<Finding>) returns (linked: seq<Finding>, scenarios: seq<string>)
    ensures linked == Linked(findings) && scenarios == Scenarios(linked)
  {
    linked, scenarios := [], [];
    for i := 0 to |findings|
      invariant linked == Linked(findings[..i]) && scenarios == Scenarios(linked)
    {
      var finding := findings[i];
      assert findings[..i + 1][..i] == findings[..i];
      var scenario := ScenarioOf(finding);
      ScenarioIsListed(linked, scenario);
      if scenario !in scenarios {
        linked, scenarios := linked + [finding], scenarios + [scenario];
      }
    }
    assert findings[..|findings|] == findings;
  }

  method CorrelateByTarget(findings: seq<Finding>) returns (correlations: seq<TargetCorrelation>)
    ensures correlations == Correlate(findings)
  {
    var keys, grouped := GroupByHost(findings);
    correlations := [];
    for i := 0 to |keys|
      invariant correlations == CorrelateHosts(keys[..i], findings)
    {
      assert keys[..i + 1][..i] == keys[..i];
      assert keys[i] in keys;
      var linked, scenarios := LinkByScenario(grouped[keys[i]]);
      if |scenarios| >= 2 {
        correlations := correlations + [TargetCorrelation(keys[i], Ids(linked), scenarios, MaxSeverity(linked))];
      }
    }
    assert keys[..|keys|] == keys;
  }

  // ----- what the report says about the findings -----

  /** The first finding of a host and scenario. */
  predicate FirstOf(findings: seq<Finding>, i: nat, host: string, scenario: string)
  {
    && i < |findings|
    && findings[i].host == host && ScenarioOf(findings[i]) == scenario
    && forall j :: 0 <= j < i ==> findings[j].host != host || ScenarioOf(findings[j]) != scenario
  }

  /** Where each linked finding of a host stands: at increasing places, each the first of its scenario. */
  ghost predicate Places(places: seq<nat>, findings: seq<Finding>, host: string)
  {
    var linked := Linked(OfHost(findings, host));
    && |places| == |linked|
    && (forall k :: 0 <= k < |places| ==>
          FirstOf(findings, places[k], host, ScenarioOf(linked[k])) && linked[k] == findings[places[k]])
    && (forall j, k :: 0 <= j < k < |places| ==> places[j] < places[k])
  }

  lemma FirstOfExtends(findings: seq<Finding>, f: Finding, i: nat, host: string, scenario: string)
    requires FirstOf(findings, i, host, scenario)
    ensures FirstOf(findings + [f], i, host, scenario)
  {}

  lemma LinkedOfOneMore(group: seq<Finding>, f: Finding)
    ensures Linked(group + [f])
         == if HasScenario(Linked(group), ScenarioOf(f)) then Linked(group) else Linked(group) + [f]
    ensures HasScenario(Linked(group + [f]), ScenarioOf(f))
    ensures forall s :: HasScenario(Linked(group), s) ==> HasScenario(Linked(group + [f]), s)
  {
    assert (group + [f])[..|group|] == group;
    var linked := Linked(group);
    if !HasScenario(linked, ScenarioOf(f)) {
      assert (linked + [f])[|linked|] == f;
      forall s | HasScenario(linked, s)
        ensures HasScenario(linked + [f], s)
      {
        var i :| 0 <= i < |linked| && ScenarioOf(linked[i]) == s;
        assert (linked + [f])[i] == linked[i];
      }
    }
  }

  /** The links of a host are the first findings of each of its scenarios, in order, and none is missing. */
  lemma {:induction false} LinkedExactly(findings: seq<Finding>, host: string) returns (places: seq<nat>)
    ensures Places(places, findings, host)
    ensures forall i :: 0 <= i < |findings| && findings[i].host == host ==>
      HasScenario(Linked(OfHost(findings, host)), ScenarioOf(findings[i]))
    decreases |findings|
  {
    if findings == [] {
      places := [];
    } else {
      var init, f := findings[..|findings| - 1], findings[|findings| - 1];
      assert findings == init + [f];
      places := LinkedExactly(init, host);
      var before, after := Linked(OfHost(init, host)), Linked(OfHost(findings, host));
      forall k | 0 <= k < |places|
        ensures FirstOf(findings, places[k], host, ScenarioOf(before[k])) && before[k] == findings[places[k]]
      {
        FirstOfExtends(init, f, places[k], host, ScenarioOf(before[k]));
      }
      if f.host == host {
        LinkedOfOneMore(OfHost(init, host), f);
        if !HasScenario(before, ScenarioOf(f)) {
          places := places + [|init|];
          assert FirstOf(findings, |init|, host, ScenarioOf(f));
        }
      }
    }
  }

  lemma {:induction false} HostsExactly(findings: seq<Finding>, host: string)
    ensures host in Hosts(findings) <==> host != "" && exists i :: 0 <= i < |findings| && findings[i].host == host
    decreases |findings|
  {
    if findings != [] {
      var init, f := findings[..|findings| - 1], findings[|findings| - 1];
      HostsExactly(init, host);
      assert forall i :: 0 <= i < |init| ==> init[i] == findings[i];
    }
  }

  predicate FirstOfHost(findings: seq<Finding>, i: nat, host: string)
  {
    i < |findings| && findings[i].host == host && forall j :: 0 <= j < i ==> findings[j].host != host
  }

  /** Hosts are listed once each, in the order in which they first occur. */
  lemma {:induction false} HostsInOrder(findings: seq<Finding>) returns (places: seq<nat>)
    ensures |places| == |Hosts(findings)|
    ensures forall k :: 0 <= k < |places| ==> FirstOfHost(findings, places[k], Hosts(findings)[k])
    ensures forall j, k :: 0 <= j < k < |places| ==> places[j] < places[k]
    decreases |findings|
  {
    if findings == [] {
      places := [];
    } else {
      var init, f := findings[..|findings| - 1], findings[|findings| - 1];
      assert findings == init + [f];
      places := HostsInOrder(init);
      HostsExactly(init, f.host);
      if f.host != "" && f.host !in Hosts(init) {
        places := places + [|init|];
      }
    }
  }

  lemma {:induction false} CorrelatedExactly(hosts: seq<string>, findings: seq<Finding>, c: TargetCorrelation)
    ensures c in CorrelateHosts(hosts, findings) <==>
      && c.target in hosts
      && var linked := Linked(OfHost(findings, c.target));
         |linked| >= 2 && c == TargetCorrelation(c.target, Ids(linked), Scenarios(linked), MaxSeverity(linked))
    decreases |hosts|
  {
    if hosts != [] {
      CorrelatedExactly(hosts[..|hosts| - 1], findings, c);
      assert hosts == hosts[..|hosts| - 1] + [hosts[|hosts| - 1]];
    }
  }

  predicate TwoScenarios(findings: seq<Finding>, i: nat, j: nat, host: string)
  {
    && i < j < |findings|
    && findings[i].host == findings[j].host == host && ScenarioOf(findings[i]) != ScenarioOf(findings[j])
  }

  lemma ReportedHasTwo(findings: seq<Finding>, c: TargetCorrelation) returns (i: nat, j: nat)
    requires c in Correlate(findings)
    ensures c.target != "" && TwoScenarios(findings, i, j, c.target)
  {
    hide Hosts, CorrelateHosts, OfHost, Linked, MaxSeverity, HasScenario;
    CorrelatedExactly(Hosts(findings), findings, c);
    HostsExactly(findings, c.target);
    var places := LinkedExactly(findings, c.target);
    var linked := Linked(OfHost(findings, c.target));
    i, j := places[0], places[1];
    assert FirstOf(findings, i, c.target, ScenarioOf(linked[0]));
    assert FirstOf(findings, j, c.target, ScenarioOf(linked[1]));
  }

  lemma TwoAreReported(findings: seq<Finding>, i: nat, j: nat, host: string)
    requires host != "" && TwoScenarios(findings, i, j, host)
    ensures exists c :: c in Correlate(findings) && c.target == host
  {
    hide Hosts, CorrelateHosts, OfHost, Linked, MaxSeverity;
    HostsExactly(findings, host);
    var places := LinkedExactly(findings, host);
    var linked := Linked(OfHost(findings, host));
    assert HasScenario(linked, ScenarioOf(findings[i])) && HasScenario(linked, ScenarioOf(findings[j]));
    var c := TargetCorrelation(host, Ids(linked), Scenarios(linked), MaxSeverity(linked));
    CorrelatedExactly(Hosts(findings), findings, c);
  }

  /** A host is reported exactly when two findings on it have different scenarios. */
  lemma ReportedExactly(findings: seq<Finding>, host: string)
    ensures (exists c :: c in Correlate(findings) && c.target == host) <==>
      host != "" && exists i, j :: TwoScenarios(findings, i, j, host)
  {
    hide Correlate, TwoScenarios;
    if c :| c in Correlate(findings) && c.target == host {
      var i, j := ReportedHasTwo(findings, c);
    }
    if host != "" && exists i, j :: TwoScenarios(findings, i, j, host) {
      var i, j :| TwoScenarios(findings, i, j, host);
      TwoAreReported(findings, i, j, host);
    }
  }

  /** Place k of an entry: the first finding of its scenario, no more severe than the entry. */
  predicate EntryAt(findings: seq<Finding>, c: TargetCorrelation, place: nat, k: nat)
  {
    && k < |c.findingIds| == |c.scenarios|
    && FirstOf(findings, place, c.target, c.scenarios[k])
    && c.findingIds[k] == findings[place].id
    && SeverityRank(findings[place].severity) <= SeverityRank(c.severity)
  }

  lemma FirstOfInRange(findings: seq<Finding>, i: nat, host: string, scenario: string)
    requires FirstOf(findings, i, host, scenario)
    ensures i < |findings|
  {}

  lemma FirstOfDiffers(findings: seq<Finding>, i: nat, j: nat, host: string, s: string, t: string)
    requires i < j && FirstOf(findings, i, host, s) && FirstOf(findings, j, host, t)
    ensures s != t
  {}

  /**
   An entry lists distinct scenarios, at least two and all of the host's, each with the id of the first
   finding for it, in order of occurrence; its severity is the highest among those findings alone.
   */
  lemma EntryExactly(findings: seq<Finding>, c: TargetCorrelation) returns (places: seq<nat>)
    requires c in Correlate(findings)
    ensures |places| == |c.findingIds| == |c.scenarios| >= 2
    ensures forall k :: 0 <= k < |places| ==> EntryAt(findings, c, places[k], k)
    ensures forall j, k :: 0 <= j < k < |places| ==> places[j] < places[k]
    ensures forall j, k :: 0 <= j < k < |places| ==> c.scenarios[j] != c.scenarios[k]
    ensures forall i :: 0 <= i < |findings| && findings[i].host == c.target ==> ScenarioOf(findings[i]) in c.scenarios
    ensures exists k :: 0 <= k < |places| && places[k] < |findings| && findings[places[k]].severity == c.severity
  {
    hide Hosts, CorrelateHosts, OfHost, Linked, MaxSeverity, FirstOf, HasScenario;
    places := LinkedExactly(findings, c.target);
    CorrelatedExactly(Hosts(findings), findings, c);
    var linked := Linked(OfHost(findings, c.target));
    forall k | 0 <= k < |places|
      ensures EntryAt(findings, c, places[k], k) && places[k] < |findings|
    {
      FirstOfInRange(findings, places[k], c.target, ScenarioOf(linked[k]));
    }
    forall j, k | 0 <= j < k < |places|
      ensures c.scenarios[j] != c.scenarios[k]
    {
      FirstOfDiffers(findings, places[j], places[k], c.target, ScenarioOf(linked[j]), ScenarioOf(linked[k]));
    }
    forall i | 0 <= i < |findings| && findings[i].host == c.target
      ensures ScenarioOf(findings[i]) in c.scenarios
    {
      ScenarioIsListed(linked, ScenarioOf(findings[i]));
    }
    var k :| 0 <= k < |linked| && linked[k].severity == c.severity;
    assert findings[places[k]].severity == c.severity;
  }

  /** Some linked finding has this severity. */
  predicate AnyOf(findings: seq<Finding>, places: seq<nat>, severity: Severity)
  {
    exists k :: 0 <= k < |places| && places[k] < |findings| && findings[places[k]].severity == severity
  }

  /** The severity of an entry: critical if one of its linked findings is, or else high if one is, and so on down. */
  lemma SeverityByName(findings: seq<Finding>, c: TargetCorrelation) returns (places: seq<nat>)
    requires c in Correlate(findings)
    ensures |places| == |c.scenarios|
    ensures forall k :: 0 <= k < |places| ==> FirstOf(findings, places[k], c.target, c.scenarios[k])
    ensures c.severity ==
      if AnyOf(findings, places, Critical) then Critical
      else if AnyOf(findings, places, High) then High
      else if AnyOf(findings, places, Medium) then Medium
      else if AnyOf(findings, places, Low) then Low
      else Info
  {
    hide Correlate, FirstOf;
    places := EntryExactly(findings, c);
    forall k | 0 <= k < |places|
      ensures places[k] < |findings| && SeverityRank(findings[places[k]].severity) <= SeverityRank(c.severity)
      ensures FirstOf(findings, places[k], c.target, c.scenarios[k])
    {
      assert EntryAt(findings, c, places[k], k);
      FirstOfInRange(findings, places[k], c.target, c.scenarios[k]);
    }
  }

  lemma OnlyOneScenario(f: Finding, g: Finding, i: nat, j: nat, host: string)
    requires f.scenario == None && (g.scenario == None || g.scenario == Some("unknown"))
    ensures !TwoScenarios([f, g], i, j, host)
  {}

  /** Findings that name no scenario all count as the scenario `unknown`. */
  lemma NamelessIsUnknown(f: Finding, g: Finding)
    requires f.host == g.host && f.scenario == None && (g.scenario == None || g.scenario == Some("unknown"))
    ensures Correlate([f, g]) == []
  {
    hide Correlate, TwoScenarios;
    if Correlate([f, g]) != [] {
      var c := Correlate([f, g])[0];
      assert c in Correlate([f, g]);
      ReportedExactly([f, g], c.target);
      var i: nat, j: nat :| TwoScenarios([f, g], i, j, c.target);
      OnlyOneScenario(f, g, i, j, c.target);
    }
  }

  /** Entries come in the order in which their hosts first occur, one per host. */
  lemma {:induction false} EntriesFollowHosts(hosts: seq<string>, findings: seq<Finding>, places: seq<nat>)
    returns (at: seq<nat>)
    requires |places| == |hosts|
    requires forall k :: 0 <= k < |places| ==> FirstOfHost(findings, places[k], hosts[k])
    requires forall j, k :: 0 <= j < k < |places| ==> places[j] < places[k]
    ensures |at| == |CorrelateHosts(hosts, findings)|
    ensures forall k :: 0 <= k < |at| ==> FirstOfHost(findings, at[k], CorrelateHosts(hosts, findings)[k].target)
    ensures forall j, k :: 0 <= j < k < |at| ==> at[j] < at[k]
    ensures forall k :: 0 <= k < |at| ==> at[k] in places
    decreases |hosts|
  {
    hide OfHost, Linked, MaxSeverity;
    if hosts == [] {
      at := [];
    } else {
      var n := |hosts| - 1;
      at := EntriesFollowHosts(hosts[..n], findings, places[..n]);
      assert forall p :: p in places[..n] ==> p < places[n];
      if |Linked(OfHost(findings, hosts[n]))| >= 2 {
        at := at + [places[n]];
      }
    }
  }

  lemma EntriesInOrder(findings: seq<Finding>) returns (at: seq<nat>)
    ensures |at| == |Correlate(findings)|
    ensures forall k :: 0 <= k < |at| ==> FirstOfHost(findings, at[k], Correlate(findings)[k].target)
    ensures forall j, k :: 0 <= j < k < |at| ==> at[j] < at[k]
  {
    var places := HostsInOrder(findings);
    at := EntriesFollowHosts(Hosts(findings), findings, places);
  }

  // ----- repeats -----

  lemma {:induction false} SameLinks(hosts: seq<string>, findings: seq<Finding>, others: seq<Finding>)
    requires forall h :: h in hosts ==> Linked(OfHost(findings, h)) == Linked(OfHost(others, h))
    ensures CorrelateHosts(hosts, findings) == CorrelateHosts(hosts, others)
    decreases |hosts|
  {
    hide OfHost, Linked, MaxSeverity;
    if hosts != [] {
      SameLinks(hosts[..|hosts| - 1], findings, others);
      assert hosts[|hosts| - 1] in hosts;
    }
  }

  /** Another finding for a host and scenario already seen changes nothing, whatever its severity. */
  lemma RepeatChangesNothing(findings: seq<Finding>, f: Finding, i: nat)
    requires i < |findings| && findings[i].host == f.host && ScenarioOf(findings[i]) == ScenarioOf(f)
    ensures Correlate(findings + [f]) == Correlate(findings)
  {
    var more := findings + [f];
    assert more[..|findings|] == findings;
    HostsExactly(findings, f.host);
    assert Hosts(more) == Hosts(findings);
    var places := LinkedExactly(findings, f.host);
    LinkedOfOneMore(OfHost(findings, f.host), f);
    SameLinks(Hosts(findings), more, findings);
  }

  /** So the severity of an entry can be lower than that of a finding on its host. */
  lemma SeverityMayBeLower(first: seq<Finding>, last: Finding)
    requires first == [Finding("a", "h", Some("s"), Low), Finding("b", "h", Some("t"), Low)]
    requires last == Finding("c", "h", Some("s"), Critical)
    ensures exists c :: c in Correlate(first + [last]) && c.target == "h" && c.severity == Low
  {
    hide Correlate, EntryAt;
    RepeatChangesNothing(first, last, 0);
    assert TwoScenarios(first, 0, 1, "h");
    TwoAreReported(first, 0, 1, "h");
    var c :| c in Correlate(first) && c.target == "h";
    var places := EntryExactly(first, c);
  }
}
