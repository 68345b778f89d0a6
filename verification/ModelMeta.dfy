/** The batch enrichment of controller/model_meta.go: one pass over the price list serves every rule model at once,
    and must give each of them what computing it alone would give. */
module ModelMeta {
  import opened Lists
  import opened Options
  import opened Text

  /** A rule code that the source does not know never matches. */
  datatype NameRule = Exact | Prefix | Contains | Suffix | UnknownRule

  datatype BoundChannel = BoundChannel(name: string, kind: int)

  datatype Pricing = Pricing(modelName: string, endpoints: seq<string>, groups: seq<string>, quotaType: int)

  /** A model row; `endpoints` is None while the serialized field is empty. */
  datatype Model = Model(
    name: string, rule: NameRule, endpoints: Option<seq<string>>, boundChannels: seq<BoundChannel>,
    enableGroups: seq<string>, quotaTypes: seq<int>, matchedModels: seq<string>, matchedCount: int)

  predicate Matches(m: Model, p: Pricing) {
    match m.rule
    case Prefix => HasPrefix(p.modelName, m.name)
    case Suffix => HasSuffix(p.modelName, m.name)
    case Contains => Text.Contains(p.modelName, m.name)
    case _ => false
  }

  // ---------- One model alone ----------

  /** What the price list says about a rule model. */
  datatype Summary = Summary(names: seq<string>, endpoints: set<string>, groups: set<string>, quotas: set<int>)

  function Nothing(): Summary { Summary([], {}, {}, {}) }

  function Add(s: Summary, p: Pricing): Summary {
    Summary(s.names + [p.modelName], s.endpoints + SetOf(p.endpoints), s.groups + SetOf(p.groups),
        s.quotas + {p.quotaType})
  }

  function Summarize(m: Model, pricings: seq<Pricing>): Summary {
    if pricings == [] then Nothing()
    else
      var s, last := Summarize(m, pricings[..|pricings| - 1]), pricings[|pricings| - 1];
      if Matches(m, last) then Add(s, last) else s
  }

  // ---------- Which prices concern a rule ----------

  /** The name starts with, ends with or holds the name of the rule model; no other rule concerns any name. */
  ghost predicate Concerns(m: Model, name: string) {
    match m.rule
    case Prefix => exists rest :: name == m.name + rest
    case Suffix => exists front :: name == front + m.name
    case Contains => exists front, rest :: name == front + m.name + rest
    case Exact => false
    case UnknownRule => false
  }

  lemma PrefixIff(name: string, prefix: string)
    ensures HasPrefix(name, prefix) <==> exists rest :: name == prefix + rest
  {
    if HasPrefix(name, prefix) {
      assert name == prefix + name[|prefix|..];
    }
  }

  lemma SuffixIff(name: string, suffix: string)
    ensures HasSuffix(name, suffix) <==> exists front :: name == front + suffix
  {
    if HasSuffix(name, suffix) {
      assert name == name[..|name| - |suffix|] + suffix;
    }
  }

  lemma ContainsIff(name: string, part: string)
    ensures Text.Contains(name, part) <==> exists front, rest :: name == front + part + rest
  {
    if Text.Contains(name, part) {
      var i :| 0 <= i <= |name| && part <= name[i..];
      assert name == name[..i] + part + name[i + |part|..];
    }
    if front, rest :| name == front + part + rest {
      assert name[|front|..] == part + rest;
    }
  }

  /** The scan matches exactly the prices whose names the rule concerns. */
  lemma MatchesIff(m: Model, p: Pricing)
    ensures Matches(m, p) <==> Concerns(m, p.modelName)
  {
    PrefixIff(p.modelName, m.name);
    SuffixIff(p.modelName, m.name);
    ContainsIff(p.modelName, m.name);
  }

  /** The listed names are those of the prices that the rule concerns, one for each, in the order of the list. */
  lemma {:induction false} ListedInOrder(m: Model, pricings: seq<Pricing>) returns (at: seq<int>)
    ensures Increasing(at)
    ensures forall i :: i in at <==> 0 <= i < |pricings| && Concerns(m, pricings[i].modelName)
    ensures |Summarize(m, pricings).names| == |at|
    ensures forall k | 0 <= k < |at| :: 0 <= at[k] < |pricings|
                                        && Summarize(m, pricings).names[k] == pricings[at[k]].modelName
  {
    at := [];
    if pricings != [] {
      var init, n := pricings[..|pricings| - 1], |pricings| - 1;
      at := ListedInOrder(m, init);
      MatchesIff(m, pricings[n]);
      if Matches(m, pricings[n]) {
        AppendIndex(at, n);
        at := at + [n];
      }
    }
  }

  lemma AppendIndex(at: seq<int>, n: int)
    requires Increasing(at) && forall i | i in at :: i < n
    ensures Increasing(at + [n]) && forall i :: i in at + [n] <==> i in at || i == n
  {
    assert forall k | 0 <= k < |at| :: at[k] in at;
    assert (at + [n])[|at|] == n;
  }

  ghost predicate ConcernedPrice(m: Model, pricings: seq<Pricing>, i: int) {
    0 <= i < |pricings| && Concerns(m, pricings[i].modelName)
  }

  lemma OneMorePrice(m: Model, pricings: seq<Pricing>, i: int)
    requires pricings != []
    ensures var n := |pricings| - 1;
            ConcernedPrice(m, pricings, i)
            <==> ConcernedPrice(m, pricings[..n], i) || (i == n && Matches(m, pricings[n]))
  {
    MatchesIff(m, pricings[|pricings| - 1]);
  }

  /** What a summary gathers: exactly the names, endpoints, groups and quota types of the prices that the rule
      concerns. */
  lemma {:induction false} SummaryGathers(m: Model, pricings: seq<Pricing>, name: string, endpoint: string,
                                          group: string, quota: int)
    ensures var s := Summarize(m, pricings);
            && (name in s.names <==> exists i :: ConcernedPrice(m, pricings, i) && pricings[i].modelName == name)
            && (endpoint in s.endpoints
                <==> exists i :: ConcernedPrice(m, pricings, i) && endpoint in pricings[i].endpoints)
            && (group in s.groups <==> exists i :: ConcernedPrice(m, pricings, i) && group in pricings[i].groups)
            && (quota in s.quotas <==> exists i :: ConcernedPrice(m, pricings, i) && pricings[i].quotaType == quota)
  {
    if pricings != [] {
      var init := pricings[..|pricings| - 1];
      SummaryGathers(m, init, name, endpoint, group, quota);
      forall i { OneMorePrice(m, pricings, i); }
      SummaryStep(m, pricings, name, endpoint, group, quota);
    }
  }

  /** The last price adds what it offers. */
  lemma SummaryStep(m: Model, pricings: seq<Pricing>, name: string, endpoint: string, group: string, quota: int)
    requires pricings != []
    ensures var s, last := Summarize(m, pricings), pricings[|pricings| - 1];
            var before, hit := Summarize(m, pricings[..|pricings| - 1]), Matches(m, last);
            && (name in s.names <==> name in before.names || (hit && last.modelName == name))
            && (endpoint in s.endpoints <==> endpoint in before.endpoints || (hit && endpoint in last.endpoints))
            && (group in s.groups <==> group in before.groups || (hit && group in last.groups))
            && (quota in s.quotas <==> quota in before.quotas || (hit && last.quotaType == quota))
  {
    var before, last := Summarize(m, pricings[..|pricings| - 1]), pricings[|pricings| - 1];
    InConcat(before.names, [last.modelName], name);
  }

  /** The channels bound to any of the names. */
  function BoundTo(names: seq<string>, bound: string -> seq<BoundChannel>): set<BoundChannel> {
    if names == [] then {} else BoundTo(names[..|names| - 1], bound) + SetOf(bound(names[|names| - 1]))
  }

  // ---------- The channel key ----------

  function DigitChar(d: nat): char
    requires d < 10
  {
    ('0' as int + d) as char
  }

  function Digits(n: nat): (r: string)
    ensures r != "" && forall c | c in r :: '0' <= c <= '9'
  {
    if n < 10 then [DigitChar(n)] else Digits(n / 10) + [DigitChar(n % 10)]
  }

  /** strconv.Itoa */
  function Itoa(n: int): string {
    if n < 0 then "-" + Digits(-n) else Digits(n)
  }

  function Key(c: BoundChannel): string {
    c.name + "_" + Itoa(c.kind)
  }

  function ParseDigits(s: string): int {
    if s == "" then 0 else ParseDigits(s[..|s| - 1]) * 10 + (s[|s| - 1] as int - '0' as int)
  }

  lemma {:induction false} DigitsParse(n: nat)
    ensures ParseDigits(Digits(n)) == n
  {
    if n >= 10 {
      DigitsParse(n / 10);
      assert Digits(n)[..|Digits(n)| - 1] == Digits(n / 10);
    } else {
      assert Digits(n)[..0] == "";
    }
  }

  lemma ItoaInjective(a: int, b: int)
    requires Itoa(a) == Itoa(b)
    ensures a == b
  {
    assert Digits(if a < 0 then -a else a)[0] in Digits(if a < 0 then -a else a);
    assert Digits(if b < 0 then -b else b)[0] in Digits(if b < 0 then -b else b);
    DigitsParse(if a < 0 then -a else a);
    DigitsParse(if b < 0 then -b else b);
    if a < 0 && b < 0 {
      assert Itoa(a)[1..] == Digits(-a) && Itoa(b)[1..] == Digits(-b);
    }
  }

  lemma ItoaHasNoUnderscore(n: int)
    ensures '_' !in Itoa(n)
  {
  }

  lemma LongerTailHoldsSeparator<T>(a: seq<T>, x: seq<T>, b: seq<T>, y: seq<T>, sep: T)
    requires a + [sep] + x == b + [sep] + y && |x| < |y|
    ensures sep in y
  {
    assert (a + [sep] + x)[|a|] == y[|a| - |b| - 1];
  }

  /** Cutting at the last underscore is unambiguous. */
  lemma LastSeparatorSplits<T>(a: seq<T>, x: seq<T>, b: seq<T>, y: seq<T>, sep: T)
    requires a + [sep] + x == b + [sep] + y && sep !in x && sep !in y && |x| <= |y|
    ensures a == b && x == y
  {
    var s := a + [sep] + x;
    if |x| < |y| {
      LongerTailHoldsSeparator(a, x, b, y, sep);
    }
    assert s[..|a|] == a && s[..|b|] == b;
    assert s[|a| + 1..] == x && s[|b| + 1..] == y;
  }

  /** Channels that differ have different keys, whatever their names contain. */
  lemma KeyInjective(a: BoundChannel, b: BoundChannel)
    requires Key(a) == Key(b)
    ensures a == b
  {
    ItoaHasNoUnderscore(a.kind);
    ItoaHasNoUnderscore(b.kind);
    if |Itoa(a.kind)| <= |Itoa(b.kind)| {
      LastSeparatorSplits(a.name, Itoa(a.kind), b.name, Itoa(b.kind), '_');
    } else {
      LastSeparatorSplits(b.name, Itoa(b.kind), a.name, Itoa(a.kind), '_');
    }
    ItoaInjective(a.kind, b.kind);
  }

  // ---------- The scan ----------

  type Summaries = map<nat, Summary>

  function SummaryAt(s: Summaries, i: nat): Summary {
    if i in s then s[i] else Nothing()
  }

  /** The inner loop: one price against every rule model. */
  method ScanPrice(models: seq<Option<Model>>, rules: seq<nat>, p: Pricing, before: Summaries)
                   returns (after: Summaries)
    requires Distinct(rules) && forall k | 0 <= k < |rules| :: rules[k] < |models| && models[rules[k]].Some?
    ensures forall k | 0 <= k < |rules| :: SummaryAt(after, rules[k])
              == if Matches(models[rules[k]].value, p) then Add(SummaryAt(before, rules[k]), p)
                  else SummaryAt(before, rules[k])
  {
    after := before;
    for j := 0 to |rules|
      invariant forall k | 0 <= k < j :: SummaryAt(after, rules[k])
                  == if Matches(models[rules[k]].value, p) then Add(SummaryAt(before, rules[k]), p)
                      else SummaryAt(before, rules[k])
      invariant forall k | j <= k < |rules| :: SummaryAt(after, rules[k]) == SummaryAt(before, rules[k])
    {
      var i := rules[j];
      assert models[i] == models[rules[j]];
      if Matches(models[i].value, p) {
        after := after[i := Add(SummaryAt(after, i), p)];
      }
    }
  }

  method ScanPrices(models: seq<Option<Model>>, rules: seq<nat>, pricings: seq<Pricing>) returns (s: Summaries)
    requires Distinct(rules) && forall k | 0 <= k < |rules| :: rules[k] < |models| && models[rules[k]].Some?
    ensures forall k | 0 <= k < |rules| :: SummaryAt(s, rules[k]) == Summarize(models[rules[k]].value, pricings)
  {
    s := map[];
    for i := 0 to |pricings|
      invariant forall k | 0 <= k < |rules| ::
              SummaryAt(s, rules[k]) == Summarize(models[rules[k]].value, pricings[..i])
    {
      assert pricings[..i + 1][..i] == pricings[..i];
      s := ScanPrice(models, rules, pricings[i], s);
    }
    assert pricings[..|pricings|] == pricings;
  }

  /** The elements of a set in some order: ranging over a Go map. */
  method Enumerate<T(==)>(s: set<T>) returns (r: seq<T>)
    ensures Distinct(r) && SetOf(r) == s
  {
    r := [];
    var pending := s;
    while pending != {}
      invariant pending <= s && Distinct(r) && SetOf(r) == s - pending
      decreases |pending|
    {
      var x :| x in pending;
      assert SetOf(r + [x]) == SetOf(r) + {x};
      r := r + [x];
      pending := pending - {x};
    }
  }

  /** The union of the channels of a model's matched names, through a map keyed by name and type. */
  method UnionChannels(names: seq<string>, bound: string -> seq<BoundChannel>) returns (channels: set<BoundChannel>)
    ensures channels == BoundTo(names, bound)
  {
    var byKey: map<string, BoundChannel> := map[];
    for i := 0 to |names|
      invariant byKey.Values == BoundTo(names[..i], bound)
      invariant forall k | k in byKey :: k == Key(byKey[k])
    {
      assert names[..i + 1][..i] == names[..i];
      var more := bound(names[i]);
      for j := 0 to |more|
        invariant byKey.Values == BoundTo(names[..i], bound) + SetOf(more[..j])
        invariant forall k | k in byKey :: k == Key(byKey[k])
      {
        byKey := AddChannel(byKey, more[j]);
        assert more[..j + 1] == more[..j] + [more[j]];
      }
      assert more[..|more|] == more;
    }
    assert names[..|names|] == names;
    channels := byKey.Values;
  }

  method AddChannel(byKey: map<string, BoundChannel>, c: BoundChannel) returns (r: map<string, BoundChannel>)
    requires forall k | k in byKey :: k == Key(byKey[k])
    ensures r.Values == byKey.Values + {c} && forall k | k in r :: k == Key(r[k])
  {
    r := byKey[Key(c) := c];
    if Key(c) in byKey {
      KeyInjective(byKey[Key(c)], c);
    }
    forall x ensures x in r.Values <==> x in byKey.Values + {c} {
      if x in byKey.Values {
        var k :| k in byKey && byKey[k] == x;
        assert r[k] == x;
      }
      if x == c {
        assert r[Key(c)] == c;
      }
    }
  }

  // ---------- The batch ----------

  /** The caches and queries that the batch reads; a failed query gives no channels. */
  datatype Environment = Environment(
    pricings: seq<Pricing>,
    bound: string -> seq<BoundChannel>,
    exactQueryWorks: bool,
    ruleQueryWorks: bool,
    supported: string -> seq<string>,
    groups: string -> seq<string>,
    quotas: string -> seq<int>)

  function NoChannels(): string -> seq<BoundChannel> { _ => [] }

  /** GetBoundChannelsByModelsMap: nothing for names that were not asked for */
  function Queried(asked: set<string>, bound: string -> seq<BoundChannel>, works: bool): string -> seq<BoundChannel> {
    if works then n => if n in asked then bound(n) else [] else NoChannels()
  }

  /** What an exact model gets. */
  function EnrichedExact(m: Model, env: Environment): Model {
    m.(endpoints := if m.endpoints.None? then Some(env.supported(m.name)) else m.endpoints,
       boundChannels := if env.exactQueryWorks then env.bound(m.name) else [],
       enableGroups := env.groups(m.name),
       quotaTypes := env.quotas(m.name))
  }

  ghost predicate ListOf<T>(r: seq<T>, s: set<T>) {
    Distinct(r) && SetOf(r) == s
  }

  /** What a rule model gets when it is computed alone; lists that come from ranging over a map have no order. */
  ghost predicate EnrichedAlone(m: Model, m': Model, env: Environment) {
    var s := Summarize(m, env.pricings);
    var channels := BoundTo(s.names, if env.ruleQueryWorks then env.bound else NoChannels());
    && m'.name == m.name && m'.rule == m.rule
    && m'.matchedModels == s.names && m'.matchedCount == |s.names|
    && (if s.names != [] && m.endpoints.None? then m'.endpoints.Some? && ListOf(m'.endpoints.value, s.endpoints)
        else m'.endpoints == m.endpoints)
    && (if s.names != [] then ListOf(m'.enableGroups, s.groups) && m'.quotaTypes == Ascending(s.quotas)
        else m'.enableGroups == m.enableGroups && m'.quotaTypes == m.quotaTypes)
    && (if channels != {} then ListOf(m'.boundChannels, channels) else m'.boundChannels == m.boundChannels)
  }

  ghost predicate Enriched(m: Option<Model>, m': Option<Model>, env: Environment) {
    match m
    case None => m' == None
    case Some(x) =>
      if x.rule.Exact? then m' == Some(EnrichedExact(x, env))
      else m'.Some? && EnrichedAlone(x, m'.value, env)
  }

  lemma {:induction false} BoundToSubset(names: seq<string>, asked: set<string>, bound: string -> seq<BoundChannel>,
                                         works: bool)
    requires SetOf(names) <= asked
    ensures BoundTo(names, Queried(asked, bound, works)) == BoundTo(names, if works then bound else NoChannels())
  {
    if names != [] {
      var init := names[..|names| - 1];
      assert SetOf(init) <= SetOf(names);
      assert names[|names| - 1] in SetOf(names);
      BoundToSubset(init, asked, bound, works);
    }
  }

  /** Filling one rule model from its summary. */
  method FillRule(m: Model, s: Summary, hasSummary: bool, channelsOf: string -> seq<BoundChannel>) returns (r: Model)
    requires hasSummary <==> s.names != []
    ensures var channels := BoundTo(s.names, channelsOf);
            && r.name == m.name && r.rule == m.rule && r.matchedModels == s.names && r.matchedCount == |s.names|
            && (if hasSummary && m.endpoints.None? then r.endpoints.Some? && ListOf(r.endpoints.value, s.endpoints)
                else r.endpoints == m.endpoints)
            && (if hasSummary then ListOf(r.enableGroups, s.groups) && r.quotaTypes == Ascending(s.quotas)
                else r.enableGroups == m.enableGroups && r.quotaTypes == m.quotaTypes)
            && (if channels != {} then ListOf(r.boundChannels, channels) else r.boundChannels == m.boundChannels)
  {
    r := m;
    if hasSummary && m.endpoints.None? {
      var endpoints := Enumerate(s.endpoints);
      r := r.(endpoints := Some(endpoints));
    }
    if hasSummary {
      var groups := Enumerate(s.groups);
      r := r.(enableGroups := groups, quotaTypes := Ascending(s.quotas));
    }
    var channels := UnionChannels(s.names, channelsOf);
    if channels != {} {
      var list := Enumerate(channels);
      r := r.(boundChannels := list);
    }
    r := r.(matchedModels := s.names, matchedCount := |s.names|);
  }

  predicate IsExact(m: Option<Model>) { m.Some? && m.value.rule.Exact? }

  predicate IsRule(m: Option<Model>) { m.Some? && !m.value.rule.Exact? }

  /** Splitting the rows into exact and rule models. */
  method Split(models: seq<Option<Model>>) returns (exact: seq<nat>, rules: seq<nat>)
    ensures Distinct(exact) && Distinct(rules)
    ensures forall k | 0 <= k < |exact| :: exact[k] < |models| && IsExact(models[exact[k]])
    ensures forall k | 0 <= k < |rules| :: rules[k] < |models| && IsRule(models[rules[k]])
    ensures forall i | 0 <= i < |models| && IsExact(models[i]) :: exists k :: 0 <= k < |exact| && exact[k] == i
    ensures forall i | 0 <= i < |models| && IsRule(models[i]) :: exists k :: 0 <= k < |rules| && rules[k] == i
  {
    exact, rules := [], [];
    for i := 0 to |models|
      invariant forall k | 0 <= k < |exact| :: exact[k] < i && IsExact(models[exact[k]])
      invariant forall k | 0 <= k < |rules| :: rules[k] < i && IsRule(models[rules[k]])
      invariant Distinct(exact) && Distinct(rules)
      invariant forall n | 0 <= n < i && IsExact(models[n]) :: exists k :: 0 <= k < |exact| && exact[k] == n
      invariant forall n | 0 <= n < i && IsRule(models[n]) :: exists k :: 0 <= k < |rules| && rules[k] == n
    {
      if models[i].None? {
        continue;
      }
      ghost var exact', rules' := exact, rules;
      if models[i].value.rule.Exact? {
        exact := exact + [i];
        assert exact[|exact| - 1] == i;
      } else {
        rules := rules + [i];
        assert rules[|rules| - 1] == i;
      }
      assert forall k | 0 <= k < |exact'| :: exact[k] == exact'[k];
      assert forall k | 0 <= k < |rules'| :: rules[k] == rules'[k];
    }
  }

  method FillExact(models: array<Option<Model>>, exact: seq<nat>, env: Environment)
    requires Distinct(exact) && forall k | 0 <= k < |exact| :: exact[k] < models.Length && IsExact(models[exact[k]])
    modifies models
    ensures forall k | 0 <= k < |exact| ::
              old(models[exact[k]]).Some? && models[exact[k]] == Some(EnrichedExact(old(models[exact[k]]).value, env))
    ensures forall i | 0 <= i < models.Length && !IsExact(old(models[i])) :: models[i] == old(models[i])
  {
    ghost var start := models[..];
    var asked: set<string> := {};
    for k := 0 to |exact|
      invariant forall j | 0 <= j < k :: start[exact[j]].value.name in asked
    {
      asked := asked + {models[exact[k]].value.name};
    }
    var channels := Queried(asked, env.bound, env.exactQueryWorks);
    for k := 0 to |exact|
      invariant forall j | 0 <= j < k :: models[exact[j]] == Some(EnrichedExact(start[exact[j]].value, env))
      invariant forall j | k <= j < |exact| :: models[exact[j]] == start[exact[j]]
      invariant forall i | 0 <= i < models.Length && !IsExact(start[i]) :: models[i] == start[i]
    {
      var m := models[exact[k]].value;
      if m.endpoints.None? {
        m := m.(endpoints := Some(env.supported(m.name)));
      }
      m := m.(boundChannels := channels(m.name));
      m := m.(enableGroups := env.groups(m.name));
      m := m.(quotaTypes := env.quotas(m.name));
      models[exact[k]] := Some(m);
    }
  }

  method FillRules(models: array<Option<Model>>, rules: seq<nat>, env: Environment)
    requires Distinct(rules) && forall k | 0 <= k < |rules| :: rules[k] < models.Length && IsRule(models[rules[k]])
    modifies models
    ensures forall k | 0 <= k < |rules| ::
              old(models[rules[k]]).Some? && models[rules[k]].Some?
              && EnrichedAlone(old(models[rules[k]]).value, models[rules[k]].value, env)
    ensures forall i | 0 <= i < models.Length && !IsRule(old(models[i])) :: models[i] == old(models[i])
  {
    ghost var start := models[..];
    var summaries := ScanPrices(models[..], rules, env.pricings);
    var asked := MatchedNames(rules, summaries);
    for k := 0 to |rules|
      invariant forall j | 0 <= j < k ::
              models[rules[j]].Some? && EnrichedAlone(start[rules[j]].value, models[rules[j]].value, env)
      invariant forall j | k <= j < |rules| :: models[rules[j]] == start[rules[j]]
      invariant forall i | 0 <= i < models.Length && !IsRule(start[i]) :: models[i] == start[i]
    {
      var m := FillFromSummary(models[rules[k]].value, SummaryAt(summaries, rules[k]), asked, env);
      models[rules[k]] := Some(m);
    }
  }

  /** All matched names together, for one query. */
  method MatchedNames(rules: seq<nat>, summaries: Summaries) returns (asked: set<string>)
    ensures forall j | 0 <= j < |rules| :: SetOf(SummaryAt(summaries, rules[j]).names) <= asked
  {
    asked := {};
    for k := 0 to |rules|
      invariant forall j | 0 <= j < k :: SetOf(SummaryAt(summaries, rules[j]).names) <= asked
    {
      asked := asked + SetOf(SummaryAt(summaries, rules[k]).names);
    }
  }

  method FillFromSummary(m: Model, s: Summary, asked: set<string>, env: Environment) returns (r: Model)
    requires s == Summarize(m, env.pricings) && SetOf(s.names) <= asked
    ensures EnrichedAlone(m, r, env)
  {
    BoundToSubset(s.names, asked, env.bound, env.ruleQueryWorks);
    r := FillRule(m, s, s.names != [], Queried(asked, env.bound, env.ruleQueryWorks));
  }

  /** enrichModels: every model gets what it would get alone, and a missing one stays missing. */
  method EnrichModels(models: array<Option<Model>>, env: Environment)
    modifies models
    ensures forall i | 0 <= i < models.Length :: Enriched(old(models[i]), models[i], env)
  {
    if models.Length == 0 {
      return;
    }
    ghost var start := models[..];
    var exact, rules := Split(models[..]);
    FillExact(models, exact, env);
    assert forall k | 0 <= k < |rules| :: models[rules[k]] == start[rules[k]];
    if |rules| > 0 {
      FillRules(models, rules, env);
    }
    forall i | 0 <= i < models.Length ensures Enriched(start[i], models[i], env) {
      if IsRule(start[i]) {
        var k :| 0 <= k < |rules| && rules[k] == i;
      } else if IsExact(start[i]) {
        var k :| 0 <= k < |exact| && exact[k] == i;
      }
    }
  }

  // ---------- What the rows say ----------

  /** An exact row gets the channels, groups and quota types of its own name, and its endpoints unless it had some. */
  lemma ExactRow(m: Model, m': Model, env: Environment)
    requires Enriched(Some(m), Some(m'), env) && m.rule.Exact?
    ensures m'.enableGroups == env.groups(m.name) && m'.quotaTypes == env.quotas(m.name)
    ensures m'.boundChannels == if env.exactQueryWorks then env.bound(m.name) else []
    ensures m'.endpoints == if m.endpoints.Some? then m.endpoints else Some(env.supported(m.name))
    ensures m'.matchedModels == m.matchedModels && m'.matchedCount == m.matchedCount
    ensures m'.name == m.name && m'.rule == m.rule
  {
  }

  lemma {:induction false} BoundToIff(names: seq<string>, bound: string -> seq<BoundChannel>, c: BoundChannel)
    ensures c in BoundTo(names, bound) <==> exists k :: 0 <= k < |names| && c in bound(names[k])
  {
    if names != [] {
      var init := names[..|names| - 1];
      BoundToIff(init, bound, c);
      assert forall k | 0 <= k < |init| :: init[k] == names[k];
    }
  }

  /** A rule row lists exactly the names of the prices that its rule concerns, whatever other rows are in the batch. */
  lemma RowListsIff(m: Model, m': Model, env: Environment, name: string)
    requires Enriched(Some(m), Some(m'), env) && !m.rule.Exact?
    ensures name in m'.matchedModels
            <==> exists i :: ConcernedPrice(m, env.pricings, i) && env.pricings[i].modelName == name
    ensures m'.matchedCount == |m'.matchedModels| && m'.name == m.name && m'.rule == m.rule
  {
    SummaryGathers(m, env.pricings, name, "", "", 0);
  }

  lemma NamesNeedPrices(m: Model, pricings: seq<Pricing>)
    ensures Summarize(m, pricings).names != [] <==> exists i :: ConcernedPrice(m, pricings, i)
  {
    var at := ListedInOrder(m, pricings);
    if Summarize(m, pricings).names != [] {
      assert at[0] in at && ConcernedPrice(m, pricings, at[0]);
    }
    if i :| ConcernedPrice(m, pricings, i) {
      assert i in at;
    }
  }

  /** When the rule concerns some price, the row gets exactly the groups and quota types of those prices, the latter in
      ascending order, and their endpoints unless it had its own; otherwise it keeps what it had. */
  lemma RowGathersIff(m: Model, m': Model, env: Environment, endpoint: string, group: string, quota: int)
    requires Enriched(Some(m), Some(m'), env) && !m.rule.Exact?
    ensures (forall i :: !ConcernedPrice(m, env.pricings, i)) ==>
              m' == m.(matchedModels := [], matchedCount := 0, boundChannels := m'.boundChannels)
    ensures (exists i :: ConcernedPrice(m, env.pricings, i)) ==>
              && (group in m'.enableGroups
                  <==> exists i :: ConcernedPrice(m, env.pricings, i) && group in env.pricings[i].groups)
              && (quota in m'.quotaTypes
                  <==> exists i :: ConcernedPrice(m, env.pricings, i) && env.pricings[i].quotaType == quota)
              && Increasing(m'.quotaTypes)
              && (m.endpoints.Some? ==> m'.endpoints == m.endpoints)
              && (m.endpoints.None? ==>
                  && m'.endpoints.Some?
                  && (endpoint in m'.endpoints.value
                      <==> exists i :: ConcernedPrice(m, env.pricings, i) && endpoint in env.pricings[i].endpoints))
  {
    NamesNeedPrices(m, env.pricings);
    SummaryGathers(m, env.pricings, "", endpoint, group, quota);
    AscendingLists(Summarize(m, env.pricings).quotas);
    assert group in m'.enableGroups <==> group in SetOf(m'.enableGroups);
    if m'.endpoints.Some? {
      assert endpoint in m'.endpoints.value <==> endpoint in SetOf(m'.endpoints.value);
    }
  }

  /** The channel is bound to a name that the rule concerns. */
  ghost predicate Reached(m: Model, env: Environment, c: BoundChannel) {
    exists i :: ConcernedPrice(m, env.pricings, i) && c in env.bound(env.pricings[i].modelName)
  }

  /** The row gets exactly the channels that are bound to those names, unless there are none or the query fails; then
      it keeps what it had. */
  lemma RowChannelsIff(m: Model, m': Model, env: Environment, c: BoundChannel)
    requires Enriched(Some(m), Some(m'), env) && !m.rule.Exact?
    ensures if env.ruleQueryWorks && exists d :: Reached(m, env, d)
            then c in m'.boundChannels <==> Reached(m, env, c)
            else m'.boundChannels == m.boundChannels
  {
    var names := Summarize(m, env.pricings).names;
    var at := ListedInOrder(m, env.pricings);
    var channels := BoundTo(names, if env.ruleQueryWorks then env.bound else NoChannels());
    forall d ensures d in channels <==> env.ruleQueryWorks && Reached(m, env, d) {
      BoundToIff(names, if env.ruleQueryWorks then env.bound else NoChannels(), d);
      if env.ruleQueryWorks {
        ReachedIff(m, env, names, at, d);
      }
    }
    assert c in m'.boundChannels <==> c in SetOf(m'.boundChannels);
  }

  lemma ReachedIff(m: Model, env: Environment, names: seq<string>, at: seq<int>, d: BoundChannel)
    requires |names| == |at|
    requires forall i :: i in at <==> ConcernedPrice(m, env.pricings, i)
    requires forall k | 0 <= k < |at| :: 0 <= at[k] < |env.pricings| && names[k] == env.pricings[at[k]].modelName
    ensures Reached(m, env, d) <==> exists k :: 0 <= k < |names| && d in env.bound(names[k])
  {
    if i :| ConcernedPrice(m, env.pricings, i) && d in env.bound(env.pricings[i].modelName) {
      var k :| 0 <= k < |at| && at[k] == i;
      assert d in env.bound(names[k]);
    }
    if k :| 0 <= k < |names| && d in env.bound(names[k]) {
      assert at[k] in at && ConcernedPrice(m, env.pricings, at[k]);
    }
  }
}
