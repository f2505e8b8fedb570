/** Routing: which channels an event is announced on. */
module Policy {
  import opened Wrappers
  import opened Model

  datatype PolicyRule = PolicyRule(
    name: string, enabled: bool, eventType: Option<string>, source: Option<string>,
    hostId: Option<string>, state: Option<EventState>, severity: Option<Severity>,
    channels: seq<string>)
  {
    /** An absent field matches everything. */
    predicate Matches(e: Event) {
      && (eventType.None? || eventType.value == e.eventType)
      && (source.None? || source.value == e.source)
      && (hostId.None? || hostId.value == e.hostId)
      && (state.None? || state.value == e.state)
      && (severity.None? || severity.value == e.severity)
    }
  }

  predicate NoDuplicates<T(==)>(s: seq<T>) {
    forall i, j | 0 <= i < j < |s| :: s[i] != s[j]
  }

  /** Every channel named by an enabled matching rule, in catalog order, with repeats. */
  function Named(rules: seq<PolicyRule>, e: Event): seq<string> {
    if rules == [] then []
    else (if rules[0].enabled && rules[0].Matches(e) then rules[0].channels else []) + Named(rules[1..], e)
  }

  /** First occurrences only. */
  function Distinct(names: seq<string>): seq<string> {
    if names == [] then [] else
      var n := |names| - 1;
      var before := Distinct(names[..n]);
      if names[n] in before then before else before + [names[n]]
  }

  lemma {:induction false} DistinctFacts(names: seq<string>)
    ensures forall c :: c in Distinct(names) <==> c in names
    ensures NoDuplicates(Distinct(names))
  {
    if names != [] {
      var n := |names| - 1;
      DistinctFacts(names[..n]);
      assert names == names[..n] + [names[n]];
    }
  }

  /** The channels of an event: first occurrences among the named channels. */
  function Channels(rules: seq<PolicyRule>, e: Event): seq<string> {
    Distinct(Named(rules, e))
  }

  function FirstIndex(names: seq<string>, c: string): (i: nat)
    requires c in names
    ensures i < |names| && names[i] == c && c !in names[..i]
  {
    if names[0] == c then 0 else
      assert names == [names[0]] + names[1..];
      var i := 1 + FirstIndex(names[1..], c);
      assert names[..i] == [names[0]] + names[1..][..i - 1];
      i
  }

  lemma FirstIndexIs(names: seq<string>, c: string, i: nat)
    requires i < |names| && names[i] == c && c !in names[..i]
    ensures c in names && FirstIndex(names, c) == i
  {
    var k := FirstIndex(names, c);
    assert forall j | 0 <= j < i :: names[j] in names[..i];
    assert forall j | 0 <= j < k :: names[j] in names[..k];
  }

  /** Channels come in the order in which the catalog first names them. */
  lemma {:induction false} DistinctKeepsOrder(names: seq<string>, i: nat, j: nat)
    requires i < j < |Distinct(names)|
    ensures Distinct(names)[i] in names && Distinct(names)[j] in names
    ensures FirstIndex(names, Distinct(names)[i]) < FirstIndex(names, Distinct(names)[j])
  {
    DistinctFacts(names);
    DistinctFacts(names[..|names| - 1]);
    var n := |names| - 1;
    var init := names[..n];
    var before := Distinct(init);
    assert names == init + [names[n]];
    Prefix(init, names, before[i]);
    if j < |before| {
      DistinctKeepsOrder(init, i, j);
      Prefix(init, names, before[j]);
    } else {
      FirstIndexIs(names, names[n], n);
    }
  }

  lemma Prefix(init: seq<string>, names: seq<string>, c: string)
    requires init <= names && c in init
    ensures c in names && FirstIndex(names, c) == FirstIndex(init, c)
  {
    var i := FirstIndex(init, c);
    assert names[..i] == init[..i];
    FirstIndexIs(names, c, i);
  }

  lemma {:induction false} DistinctExtends(a: seq<string>, b: seq<string>)
    ensures Distinct(a) <= Distinct(a + b)
  {
    if b == [] {
      assert a + b == a;
    } else {
      var n := |b| - 1;
      assert (a + b)[..|a + b| - 1] == a + b[..n];
      DistinctExtends(a, b[..n]);
    }
  }

  lemma {:induction false} NamedConcat(a: seq<PolicyRule>, b: seq<PolicyRule>, e: Event)
    ensures Named(a + b, e) == Named(a, e) + Named(b, e)
  {
    if a == [] {
      assert a + b == b;
    } else {
      assert (a + b)[1..] == a[1..] + b;
      NamedConcat(a[1..], b, e);
    }
  }

  lemma {:induction false} NamedIff(rules: seq<PolicyRule>, e: Event, c: string)
    ensures c in Named(rules, e) <==>
      exists r :: r in rules && r.enabled && r.Matches(e) && c in r.channels
  {
    if rules != [] {
      NamedIff(rules[1..], e, c);
      assert rules == [rules[0]] + rules[1..];
    }
  }

  /** An optional field of a rule and the value it has to have. */
  predicate Admits<T(==)>(wanted: Option<T>, actual: T) {
    match wanted case None => true case Some(value) => value == actual
  }

  /** The rule is enabled, admits the event in all five respects, and names the channel. */
  predicate Routes(r: PolicyRule, e: Event, c: string) {
    && r.enabled && c in r.channels
    && Admits(r.eventType, e.eventType) && Admits(r.source, e.source) && Admits(r.hostId, e.hostId)
    && Admits(r.state, e.state) && Admits(r.severity, e.severity)
  }

  /** A channel is chosen exactly when some enabled matching rule names it, and only once. */
  lemma ChannelsExact(rules: seq<PolicyRule>, e: Event, c: string)
    ensures c in Channels(rules, e) <==> exists r :: r in rules && Routes(r, e, c)
    ensures multiset(Channels(rules, e))[c] <= 1
  {
    NamedIff(rules, e, c);
    DistinctFacts(Named(rules, e));
    OccursOnce(Channels(rules, e), c);
  }

  lemma {:induction false} OccursOnce<T>(s: seq<T>, c: T)
    requires NoDuplicates(s)
    ensures multiset(s)[c] == if c in s then 1 else 0
  {
    if s != [] {
      assert s == [s[0]] + s[1..];
      OccursOnce(s[1..], c);
    }
  }

  /** Adding rules to the end of the catalog only adds channels to the end. */
  lemma AppendedRulesExtend(rules: seq<PolicyRule>, more: seq<PolicyRule>, e: Event)
    ensures Channels(rules, e) <= Channels(rules + more, e)
  {
    NamedConcat(rules, more, e);
    DistinctExtends(Named(rules, e), Named(more, e));
  }

  lemma NamedStep(rules: seq<PolicyRule>, e: Event, i: nat)
    requires i < |rules|
    ensures Named(rules[..i + 1], e) ==
      Named(rules[..i], e) + (if rules[i].enabled && rules[i].Matches(e) then rules[i].channels else [])
  {
    assert rules[..i + 1] == rules[..i] + [rules[i]];
    NamedConcat(rules[..i], [rules[i]], e);
    assert [rules[i]][1..] == [];
    assert Named([rules[i]], e) == if rules[i].enabled && rules[i].Matches(e) then rules[i].channels else [];
  }

  lemma DistinctStep(names: seq<string>, more: seq<string>, j: nat)
    requires j < |more|
    ensures var before := Distinct(names + more[..j]);
      Distinct(names + more[..j + 1]) == if more[j] in before then before else before + [more[j]]
  {
    var next := names + more[..j + 1];
    assert next[..|next| - 1] == names + more[..j];
  }

  /** `PolicyCatalog::channels_for` */
  method ChannelsFor(rules: seq<PolicyRule>, e: Event) returns (channels: seq<string>)
    ensures channels == Channels(rules, e)
  {
    channels := [];
    for i := 0 to |rules|
      invariant channels == Distinct(Named(rules[..i], e))
    {
      NamedStep(rules, e, i);
      ghost var named := Named(rules[..i], e);
      if rules[i].enabled && rules[i].Matches(e) {
        channels := PushNew(channels, named, rules[i].channels);
      } else {
        assert named + [] == named;
      }
    }
    assert rules[..|rules|] == rules;
  }

  /** The inner loop of `channels_for`: push the channels not yet known. */
  method PushNew(known: seq<string>, ghost named: seq<string>, more: seq<string>) returns (channels: seq<string>)
    requires known == Distinct(named)
    ensures channels == Distinct(named + more)
  {
    channels := known;
    assert named + more[..0] == named;
    for j := 0 to |more|
      invariant channels == Distinct(named + more[..j])
    {
      DistinctStep(named, more, j);
      if more[j] !in channels {
        channels := channels + [more[j]];
      }
    }
    assert more[..|more|] == more;
  }
}
