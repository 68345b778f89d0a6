/** The models.dev price selection of controller/ratio_sync.go: every provider may price a model, and one candidate
    per model is selected by a fold over the providers in name order.  The comparison treats costs closer than
    1e-9 as equal, which is not transitive.  Costs are reals. */
module ModelsDev {
  import opened Lists
  import opened Options
  import opened RatioSync

  datatype Cost = Cost(input: Option<real>, output: Option<real>, cacheRead: Option<real>)

  datatype Candidate = Candidate(provider: string, input: real, output: Option<real>, cacheRead: Option<real>)

  /** buildModelsDevCandidate; NaN and infinities do not occur */
  function BuildCandidate(provider: string, cost: Cost): Option<Candidate> {
    if cost.input.None? || cost.input.value < 0.0 then None
    else if cost.output.Some? && cost.output.value < 0.0 then None
    else if cost.input.value == 0.0 && cost.output.Some? && cost.output.value > 0.0 then None
    else Some(Candidate(provider, cost.input.value, cost.output,
                        if cost.cacheRead.Some? && cost.cacheRead.value >= 0.0 then cost.cacheRead else None))
  }

  /** Go's order on strings. */
  predicate Less(a: string, b: string) {
    if a == "" then b != ""
    else if b == "" then false
    else if a[0] != b[0] then a[0] < b[0]
    else Less(a[1..], b[1..])
  }

  /** shouldReplaceModelsDevCandidate */
  predicate ShouldReplace(current: Candidate, next: Candidate) {
    if (current.input > 0.0) != (next.input > 0.0) then next.input > 0.0
    else if next.input > 0.0 && !NearlyEqual(next.input, current.input) then next.input < current.input
    else Less(next.provider, current.provider)
  }

  // ---------- Sorted listings ----------

  lemma {:induction false} LessIsStrictOrder(a: string, b: string, c: string)
    ensures !Less(a, a)
    ensures Less(a, b) && Less(b, c) ==> Less(a, c)
    ensures a != b ==> Less(a, b) || Less(b, a)
    decreases |a|
  {
    if a != "" {
      LessIsStrictOrder(a[1..], if b == "" then "" else b[1..], if c == "" then "" else c[1..]);
      if b != "" && a[0] == b[0] && a[1..] == b[1..] {
        assert a == [a[0]] + a[1..] && b == [b[0]] + b[1..];
      }
    }
  }

  ghost predicate InOrder(s: seq<string>) {
    forall i, j | 0 <= i < j < |s| :: Less(s[i], s[j])
  }

  ghost predicate SortedListing(s: seq<string>, keys: set<string>) {
    InOrder(s) && forall k :: k in s <==> k in keys
  }

  lemma LessAsymmetric(a: string, b: string)
    ensures !(Less(a, b) && Less(b, a)) && !Less(a, a)
  {
    LessIsStrictOrder(a, b, a);
  }

  /** The first element of a sorted listing is the least one. */
  lemma HeadIsLeast(s: seq<string>, x: string)
    requires InOrder(s) && x in s
    ensures x == s[0] || Less(s[0], x)
  {
    var i :| 0 <= i < |s| && s[i] == x;
  }

  lemma TailWithoutHead(s: seq<string>)
    requires s != [] && InOrder(s)
    ensures InOrder(s[1..]) && s[0] !in s[1..]
    ensures forall x :: x in s[1..] <==> x in s && x != s[0]
  {
    LessAsymmetric(s[0], s[0]);
    forall i | 1 <= i < |s| ensures s[i] != s[0] {
      assert Less(s[0], s[i]);
    }
    assert s == [s[0]] + s[1..];
  }

  /** Sorting leaves no choice: two sorted listings of the same keys are equal, so nothing that follows depends on
      the order in which the map was ranged over. */
  lemma {:induction false} SortedListingUnique(a: seq<string>, b: seq<string>, keys: set<string>)
    requires SortedListing(a, keys) && SortedListing(b, keys)
    ensures a == b
    decreases |a|
  {
    if a == [] {
      NoMembers(b);
    } else {
      assert a[0] in b;
      assert b[0] in a;
      HeadIsLeast(a, b[0]);
      HeadIsLeast(b, a[0]);
      LessAsymmetric(a[0], b[0]);
      TailWithoutHead(a);
      TailWithoutHead(b);
      SortedListingUnique(a[1..], b[1..], keys - {a[0]});
      assert a == [a[0]] + a[1..] && b == [b[0]] + b[1..];
    }
  }

  // ---------- The fold ----------

  type Provider = map<string, Cost>

  function CandidateOf(upstream: map<string, Provider>, provider: string, model: string): Option<Candidate> {
    if provider in upstream && model in upstream[provider]
        then BuildCandidate(provider, upstream[provider][model]) else None
  }

  function Better(current: Option<Candidate>, next: Option<Candidate>): Option<Candidate> {
    if next.None? then current
    else if current.None? || ShouldReplace(current.value, next.value) then next
    else current
  }

  /** The candidate selected for a model after the given providers. */
  function Select(upstream: map<string, Provider>, providers: seq<string>, model: string): Option<Candidate> {
    if providers == [] then None
    else Better(Select(upstream, providers[..|providers| - 1], model),
                CandidateOf(upstream, providers[|providers| - 1], model))
  }

  method SortKeys(keys: set<string>) returns (sorted: seq<string>)
    ensures SortedListing(sorted, keys)
  {
    sorted := [];
    var pending := keys;
    while pending != {}
      invariant pending <= keys && SortedListing(sorted, keys - pending)
      decreases |pending|
    {
      var k :| k in pending;
      var at := 0;
      while at < |sorted| && Less(sorted[at], k)
        invariant 0 <= at <= |sorted| && forall i | 0 <= i < at :: Less(sorted[i], k)
      {
        at := at + 1;
      }
      InsertSorted(sorted, keys - pending, k, at);
      assert keys - pending + {k} == keys - (pending - {k});
      sorted := sorted[..at] + [k] + sorted[at..];
      pending := pending - {k};
    }
  }

  lemma InsertSorted(sorted: seq<string>, keys: set<string>, k: string, at: nat)
    requires SortedListing(sorted, keys) && k !in keys && at <= |sorted|
    requires forall i | 0 <= i < at :: Less(sorted[i], k)
    requires at < |sorted| ==> !Less(sorted[at], k)
    ensures SortedListing(sorted[..at] + [k] + sorted[at..], keys + {k})
  {
    var r := sorted[..at] + [k] + sorted[at..];
    forall i | at <= i < |sorted| ensures Less(k, sorted[i]) {
      assert sorted[at] in sorted;
      LessIsStrictOrder(k, sorted[at], sorted[i]);
    }
    forall x ensures x in r <==> x in keys + {k} {
      assert sorted == sorted[..at] + sorted[at..];
    }
  }

  /** The two selection loops of convertModelsDevToRatioData. */
  method SelectCandidates(upstream: map<string, Provider>) returns (selected: map<string, Candidate>)
    ensures forall providers, m | SortedListing(providers, upstream.Keys) ::
              if m in selected then Select(upstream, providers, m) == Some(selected[m])
              else Select(upstream, providers, m) == None
  {
    var providers := SortKeys(upstream.Keys);
    selected := map[];
    for i := 0 to |providers|
      invariant forall m :: Lookup(selected, m) == Select(upstream, providers[..i], m)
    {
      var provider := providers[i];
      assert providers[..i + 1][..i] == providers[..i];
      selected := AddProvider(selected, provider, upstream);
    }
    assert providers[..|providers|] == providers;
    forall other | SortedListing(other, upstream.Keys) ensures other == providers {
      SortedListingUnique(other, providers, upstream.Keys);
    }
  }

  function Lookup(selected: map<string, Candidate>, m: string): Option<Candidate> {
    if m in selected then Some(selected[m]) else None
  }

  /** One provider's models, in any order. */
  method AddProvider(selected: map<string, Candidate>, provider: string, upstream: map<string, Provider>)
      returns (r: map<string, Candidate>)
    requires provider in upstream
    ensures forall m :: Lookup(r, m) == Better(Lookup(selected, m), CandidateOf(upstream, provider, m))
  {
    r := selected;
    var models := upstream[provider].Keys;
    var pending := models;
    while pending != {}
      invariant pending <= models
      invariant forall m :: Lookup(r, m) == if m in pending then Lookup(selected, m)
                                            else Better(Lookup(selected, m), CandidateOf(upstream, provider, m))
      decreases |pending|
    {
      var m :| m in pending;
      var candidate := BuildCandidate(provider, upstream[provider][m]);
      assert Lookup(r, m) == Lookup(selected, m);
      if candidate.Some? && (m !in r || ShouldReplace(r[m], candidate.value)) {
        r := r[m := candidate.value];
      }
      pending := pending - {m};
    }
  }

  // ---------- What is selected ----------

  /** The policy "cheapest non-zero", as far as the epsilon comparison keeps it. */
  ghost predicate CheapestNonZero(upstream: map<string, Provider>, providers: seq<string>, model: string,
                                  c: Candidate) {
    && c.provider in providers && CandidateOf(upstream, c.provider, model) == Some(c)
    && forall p | p in providers && CandidateOf(upstream, p, model).Some? ::
         NotBeatenBy(c, CandidateOf(upstream, p, model).value)
  }

  predicate NotBeatenBy(c: Candidate, other: Candidate) {
    other.input > 0.0 ==> c.input > 0.0 && c.input < other.input + EPSILON
  }

  /** Despite the non-transitive comparison, folding providers in ascending order selects a zero price only if
      every valid price is zero, and otherwise a price less than epsilon above the cheapest non-zero one. */
  lemma {:induction false} SelectsCheapestNonZero(upstream: map<string, Provider>, providers: seq<string>,
                                                  model: string)
    requires InOrder(providers)
    ensures var s := Select(upstream, providers, model);
            && (s.None? <==> forall p | p in providers :: CandidateOf(upstream, p, model).None?)
            && (s.Some? ==> CheapestNonZero(upstream, providers, model, s.value))
  {
    if providers != [] {
      var init, last := providers[..|providers| - 1], providers[|providers| - 1];
      SelectsCheapestNonZero(upstream, init, model);
      assert forall p :: p in providers <==> p in init || p == last;
      var current, next := Select(upstream, init, model), CandidateOf(upstream, last, model);
      if current.Some? && next.Some? {
        var i :| 0 <= i < |init| && init[i] == current.value.provider;
        assert Less(providers[i], last);
        LessAsymmetric(providers[i], last);
        BetterKeepsPolicy(current.value, next.value);
        assert CheapestNonZero(upstream, init, model, current.value);
      }
    }
  }

  /** One comparison against a later provider. */
  lemma BetterKeepsPolicy(current: Candidate, next: Candidate)
    requires !Less(next.provider, current.provider) && current.input >= 0.0
    ensures var best := if ShouldReplace(current, next) then next else current;
            && NotBeatenBy(best, next) && NotBeatenBy(best, current)
            && (ShouldReplace(current, next) ==> forall other | NotBeatenBy(current, other) :: NotBeatenBy(next, other))
  {
  }

  /** Costs that can be turned into local ratios: an input cost, no negative costs, and no priced output on a free
      input. */
  predicate Convertible(cost: Cost) {
    cost.input.Some? && cost.input.value >= 0.0
    && (cost.output.Some? ==> cost.output.value >= 0.0 && (cost.input.value > 0.0 || cost.output.value == 0.0))
  }

  predicate Prices(upstream: map<string, Provider>, provider: string, model: string) {
    provider in upstream && model in upstream[provider] && Convertible(upstream[provider][model])
  }

  /** A provider makes a candidate exactly when it prices the model convertibly; the candidate carries its costs, except
      for a negative cache cost. */
  lemma CandidateIff(upstream: map<string, Provider>, provider: string, model: string)
    ensures var c := CandidateOf(upstream, provider, model);
            && (c.Some? <==> Prices(upstream, provider, model))
            && (c.Some? ==>
                  var cost := upstream[provider][model];
                  && c.value.provider == provider && c.value.input == cost.input.value && c.value.output == cost.output
                  && (c.value.cacheRead == if cost.cacheRead.Some? && cost.cacheRead.value < 0.0 then None
                                           else cost.cacheRead))
  {
  }

  /** So in terms of the costs that the providers list: nothing is selected exactly when no provider prices the model
      convertibly; what is selected is a listed cost, with a priced output only on a priced input; and it is free only
      if every convertible cost is, and otherwise less than a billionth above each one that is not. */
  lemma SelectsCheapestCost(upstream: map<string, Provider>, providers: seq<string>, model: string)
    requires InOrder(providers)
    ensures var s := Select(upstream, providers, model);
            && (s.None? <==> forall p | p in providers :: !Prices(upstream, p, model))
            && (s.Some? ==>
                  && s.value.provider in providers && Prices(upstream, s.value.provider, model)
                  && upstream[s.value.provider][model].input == Some(s.value.input)
                  && (s.value.output.Some? && s.value.output.value > 0.0 ==> s.value.input > 0.0)
                  && forall p | p in providers && Prices(upstream, p, model) ::
                       upstream[p][model].input.value > 0.0 ==>
                         0.0 < s.value.input < upstream[p][model].input.value + 0.000000001)
  {
    SelectsCheapestNonZero(upstream, providers, model);
    forall p | p in providers ensures CandidateOf(upstream, p, model).Some? <==> Prices(upstream, p, model) {
      CandidateIff(upstream, p, model);
    }
  }

  /** In descending order the bound fails: each step is a tie that the smaller name wins, and the ties drift. */
  lemma DescendingOrderDrifts()
    ensures var cost := (c: real) => Cost(Some(c), None, None);
            var upstream := map["a" := map["m" := cost(1.0000000012)], "b" := map["m" := cost(1.0000000006)],
                                "c" := map["m" := cost(1.0)]];
            var s := Select(upstream, ["c", "b", "a"], "m");
            s.Some? && s.value.input >= 1.0 + EPSILON
  {
    var cost := (c: real) => Cost(Some(c), None, None);
    var upstream := map["a" := map["m" := cost(1.0000000012)], "b" := map["m" := cost(1.0000000006)],
                        "c" := map["m" := cost(1.0)]];
    assert ["c", "b", "a"][..2] == ["c", "b"] && ["c", "b"][..1] == ["c"];
    assert Select(upstream, ["c"], "m").value.input == 1.0;
    assert Less("b", "c") && Less("a", "b");
    assert Select(upstream, ["c", "b"], "m").value.input == 1.0000000006;
  }
}
