/** The price comparison of controller/ratio_sync.go: buildDifferences compares the local price tables with those
    of several upstream channels in four passes.  Prices are reals; a table is a map from (model, field). */
module RatioSync {
  // ---------- Values ----------

  datatype Value = Null | Float(r: real) | Integer(n: int) | Str(s: string) | Flag(b: bool)

  const EPSILON: real := 0.000000001

  predicate NearlyEqual(a: real, b: real) {
    if a > b then a - b < EPSILON else b - a < EPSILON
  }

  predicate ValuesEqual(a: Value, b: Value) {
    if a.Float? && b.Float? then NearlyEqual(a.r, b.r) else a == b
  }

  const SAME := Str("same")

  datatype Slot = Slot(model: string, field: string)

  const NUMERIC_FIELDS: set<string> := {"model_ratio", "completion_ratio", "cache_ratio", "create_cache_ratio",
                                        "image_ratio", "audio_ratio", "audio_completion_ratio", "model_price"}

  /** asFloat64 on the modelled value kinds */
  function AsFloat(v: Value): Value {
    match v
    case Float(r) => v
    case Integer(n) => Float(n as real)
    case _ => Null
  }

  /** normalizeSyncValue */
  function NormalizeValue(field: string, v: Value): Value {
    if field in NUMERIC_FIELDS && AsFloat(v).Float? then AsFloat(v) else v
  }

  type Table = map<Slot, Value>

  /** nil when the table has no entry */
  function ValueAt(t: Table, slot: Slot): Value {
    if slot in t then NormalizeValue(slot.field, t[slot]) else Null
  }

  datatype Upstream = Upstream(name: string, data: Table)

  // ---------- One row: a slot against every channel ----------

  /** What a row records for one channel. */
  function Cell(local: Value, data: Table, slot: Slot): Value {
    var v := ValueAt(data, slot);
    if slot in data && ValuesEqual(local, v) then SAME
    else if v == Null && local == Null then SAME
    else v
  }

  /** Does this channel raise the row's difference flag? */
  predicate Raises(local: Value, data: Table, slot: Slot) {
    || (slot in data && local != Null && !ValuesEqual(local, ValueAt(data, slot)))
    || (local == Null && Cell(local, data, slot) != Null && Cell(local, data, slot) != SAME)
  }

  /** A price pair that the pricing endpoint uses as a placeholder is not trusted. */
  predicate Trusted(data: Table, model: string) {
    var ratio, completion := Slot(model, "model_ratio"), Slot(model, "completion_ratio");
    !(ratio in data && completion in data
      && AsFloat(data[ratio]).Float? && AsFloat(data[completion]).Float?
      && NearlyEqual(AsFloat(data[ratio]).r, 37.5) && NearlyEqual(AsFloat(data[completion]).r, 1.0))
  }

  datatype Item = Item(current: Value, upstreams: map<string, Value>, confidence: map<string, bool>)

  function Cells(local: Value, channels: seq<Upstream>, slot: Slot): map<string, Value> {
    if channels == [] then map[]
    else
      var last := channels[|channels| - 1];
      Cells(local, channels[..|channels| - 1], slot)[last.name := Cell(local, last.data, slot)]
  }

  function Confidences(channels: seq<Upstream>, model: string): map<string, bool> {
    if channels == [] then map[]
    else
      var last := channels[|channels| - 1];
      Confidences(channels[..|channels| - 1], model)[last.name := Trusted(last.data, model)]
  }

  function ItemFor(local: Table, channels: seq<Upstream>, slot: Slot): Item {
    Item(ValueAt(local, slot), Cells(ValueAt(local, slot), channels, slot), Confidences(channels, slot.model))
  }

  predicate Included(local: Table, channels: seq<Upstream>, slot: Slot) {
    if ValueAt(local, slot) != Null
    then exists i | 0 <= i < |channels| :: Raises(ValueAt(local, slot), channels[i].data, slot)
    else exists i | 0 <= i < |channels| :: slot in channels[i].data
  }

  // ---------- The passes ----------

  type Differences = map<Slot, Item>

  function Collected(local: Table, channels: seq<Upstream>, slots: set<Slot>): Differences {
    map slot | slot in slots && Included(local, channels, slot) :: ItemFor(local, channels, slot)
  }

  predicate Visible(v: Value) { v != Null && v != SAME }

  /** channelHasDiff */
  function Differing(d: Differences): set<string> {
    set slot, c | slot in d && c in d[slot].upstreams && Visible(d[slot].upstreams[c]) :: c
  }

  function Restrict(item: Item, names: set<string>): Item {
    Item(item.current,
         map c | c in item.upstreams && c in names :: item.upstreams[c],
         map c | c in item.confidence && c in names :: item.confidence[c])
  }

  predicate AllSame(item: Item) {
    forall c | c in item.upstreams :: item.upstreams[c] == SAME
  }

  function Pruned(d: Differences, names: set<string>): Differences {
    map slot | slot in d && !AllSame(Restrict(d[slot], names)) :: Restrict(d[slot], names)
  }

  /** Every model any table mentions, under every synchronised field. */
  function AllSlots(local: Table, channels: seq<Upstream>, fields: set<string>): set<Slot> {
    var models := (set s | s in local && s.field in fields :: s.model)
                  + (set i, s | 0 <= i < |channels| && s in channels[i].data && s.field in fields :: s.model);
    set m, f | m in models && f in fields :: Slot(m, f)
  }

  function DifferencesOf(local: Table, channels: seq<Upstream>, fields: set<string>): Differences {
    var d := Collected(local, channels, AllSlots(local, channels, fields));
    Pruned(d, Differing(d))
  }

  // ---------- The loops ----------

  /** One channel's part of a row. */
  method BuildCell(localValue: Value, data: Table, slot: Slot) returns (value: Value, differs: bool)
    ensures value == Cell(localValue, data, slot)
    ensures differs == Raises(localValue, data, slot)
  {
    value, differs := Null, false;
    if slot in data {
      value := NormalizeValue(slot.field, data[slot]);
      if localValue != Null && !ValuesEqual(localValue, value) {
        differs := true;
      } else if ValuesEqual(localValue, value) {
        value := SAME;
      }
    }
    if value == Null && localValue == Null {
      value := SAME;
    }
    if localValue == Null && value != Null && value != SAME {
      differs := true;
    }
  }

  /** The loop over channels for one slot. */
  method BuildRow(local: Table, channels: seq<Upstream>, slot: Slot) returns (item: Item, wanted: bool)
    ensures item == ItemFor(local, channels, slot)
    ensures wanted == Included(local, channels, slot)
  {
    var localValue := ValueAt(local, slot);
    var upstreams: map<string, Value> := map[];
    var confidence: map<string, bool> := map[];
    var hasUpstream, hasDifference := false, false;
    for i := 0 to |channels|
      invariant upstreams == Cells(localValue, channels[..i], slot)
      invariant confidence == Confidences(channels[..i], slot.model)
      invariant hasUpstream == exists k | 0 <= k < i :: slot in channels[k].data
      invariant hasDifference == exists k | 0 <= k < i :: Raises(localValue, channels[k].data, slot)
    {
      var channel := channels[i];
      assert channels[..i + 1][..i] == channels[..i];
      var value, differs := BuildCell(localValue, channel.data, slot);
      hasUpstream := hasUpstream || slot in channel.data;
      hasDifference := hasDifference || differs;
      upstreams := upstreams[channel.name := value];
      confidence := confidence[channel.name := Trusted(channel.data, slot.model)];
    }
    assert channels[..|channels|] == channels;
    item := Item(localValue, upstreams, confidence);
    wanted := if localValue != Null then hasDifference else hasUpstream;
  }

  /** buildDifferences */
  method BuildDifferences(local: Table, channels: seq<Upstream>, fields: set<string>) returns (d: Differences)
    ensures d == DifferencesOf(local, channels, fields)
  {
    var slots := AllSlots(local, channels, fields);
    var collected := CollectPass(local, channels, slots);
    var names := DifferingPass(collected);
    d := PrunePass(collected, names);
  }

  method CollectPass(local: Table, channels: seq<Upstream>, slots: set<Slot>) returns (d: Differences)
    ensures d == Collected(local, channels, slots)
  {
    d := map[];
    var pending := slots;
    ghost var done: set<Slot> := {};
    while pending != {}
      invariant done + pending == slots && done !! pending
      invariant d == Collected(local, channels, done)
      decreases |pending|
    {
      var slot :| slot in pending;
      var item, wanted := BuildRow(local, channels, slot);
      CollectStep(local, channels, done, slot);
      if wanted {
        d := d[slot := item];
      }
      done := done + {slot};
      pending := pending - {slot};
    }
    assert done == slots;
  }

  lemma CollectStep(local: Table, channels: seq<Upstream>, done: set<Slot>, slot: Slot)
    requires slot !in done
    ensures Collected(local, channels, done + {slot})
            == if Included(local, channels, slot)
                then Collected(local, channels, done)[slot := ItemFor(local, channels, slot)]
               else Collected(local, channels, done)
  {
  }

  method DifferingPass(d: Differences) returns (names: set<string>)
    ensures names == Differing(d)
  {
    names := {};
    var pending := d.Keys;
    while pending != {}
      invariant pending <= d.Keys
      invariant names == set slot, c | slot in d.Keys - pending && c in d[slot].upstreams
              && Visible(d[slot].upstreams[c]) :: c
      decreases |pending|
    {
      var slot :| slot in pending;
      names := names + set c | c in d[slot].upstreams && Visible(d[slot].upstreams[c]);
      pending := pending - {slot};
    }
  }

  method PrunePass(d: Differences, names: set<string>) returns (r: Differences)
    ensures r == Pruned(d, names)
  {
    r := d;
    var pending := d.Keys;
    while pending != {}
      invariant pending <= d.Keys
      invariant r == map slot | slot in d && (slot in pending || !AllSame(Restrict(d[slot], names)))
                       :: if slot in pending then d[slot] else Restrict(d[slot], names)
      decreases |pending|
    {
      var slot :| slot in pending;
      var item := Restrict(r[slot], names);
      if AllSame(item) {
        r := r - {slot};
      } else {
        r := r[slot := item];
      }
      pending := pending - {slot};
    }
  }

  // ---------- The closed form ----------

  ghost predicate DistinctNames(channels: seq<Upstream>) {
    forall i, j | 0 <= i < j < |channels| :: channels[i].name != channels[j].name
  }

  /** The channel offers a value that local lacks or that is not equal to the local one. */
  predicate Differs(local: Table, data: Table, slot: Slot) {
    slot in data && (ValueAt(local, slot) == Null || !ValuesEqual(ValueAt(local, slot), ValueAt(data, slot)))
  }

  ghost predicate DiffersAt(local: Table, channels: seq<Upstream>, i: nat, slot: Slot) {
    i < |channels| && Differs(local, channels[i].data, slot)
  }

  /** What the row of a slot records for a channel. */
  function CellAt(local: Table, channels: seq<Upstream>, i: nat, slot: Slot): Value
    requires i < |channels|
  {
    Cell(ValueAt(local, slot), channels[i].data, slot)
  }

  /** The channel has a visible cell in this row: a value that is neither null nor the word that marks agreement. */
  ghost predicate VisibleAt(local: Table, channels: seq<Upstream>, i: nat, slot: Slot) {
    i < |channels| && Visible(CellAt(local, channels, i, slot))
  }

  /** The channel has a visible cell in some row: it stays in the comparison. */
  ghost predicate Stays(local: Table, channels: seq<Upstream>, i: nat, fields: set<string>) {
    exists slot: Slot :: slot.field in fields && VisibleAt(local, channels, i, slot)
  }

  /** The channel stays, and its cell in this row is not the mark of agreement. */
  ghost predicate Keeps(local: Table, channels: seq<Upstream>, i: nat, fields: set<string>, slot: Slot) {
    Stays(local, channels, i, fields) && i < |channels| && CellAt(local, channels, i, slot) != SAME
  }

  lemma {:induction false} CellsAt(local: Value, channels: seq<Upstream>, slot: Slot, i: nat)
    requires DistinctNames(channels) && i < |channels|
    ensures channels[i].name in Cells(local, channels, slot)
    ensures Cells(local, channels, slot)[channels[i].name] == Cell(local, channels[i].data, slot)
  {
    if i < |channels| - 1 {
      CellsAt(local, channels[..|channels| - 1], slot, i);
    }
  }

  lemma {:induction false} CellNames(local: Value, channels: seq<Upstream>, slot: Slot, c: string)
    requires c in Cells(local, channels, slot)
    ensures exists i :: 0 <= i < |channels| && channels[i].name == c
  {
    var last := channels[|channels| - 1];
    if c != last.name {
      CellNames(local, channels[..|channels| - 1], slot, c);
      var i :| 0 <= i < |channels| - 1 && channels[..|channels| - 1][i].name == c;
      assert channels[i].name == c;
    }
  }

  lemma {:induction false} ConfidenceAt(channels: seq<Upstream>, model: string, i: nat)
    requires DistinctNames(channels) && i < |channels|
    ensures channels[i].name in Confidences(channels, model)
    ensures Confidences(channels, model)[channels[i].name] == Trusted(channels[i].data, model)
  {
    if i < |channels| - 1 {
      ConfidenceAt(channels[..|channels| - 1], model, i);
    }
  }

  /** A visible cell is exactly a difference whose value is itself neither null nor the word that marks agreement. */
  lemma VisibleIff(local: Table, channels: seq<Upstream>, i: nat, slot: Slot)
    requires i < |channels|
    ensures VisibleAt(local, channels, i, slot)
            <==> DiffersAt(local, channels, i, slot) && Visible(ValueAt(channels[i].data, slot))
  {
  }

  /** A row with a visible cell is collected, and its slot is looked at. */
  lemma VisibleIsCollected(local: Table, channels: seq<Upstream>, fields: set<string>, i: nat, slot: Slot)
    requires slot.field in fields && VisibleAt(local, channels, i, slot)
    ensures slot in Collected(local, channels, AllSlots(local, channels, fields))
  {
    VisibleIff(local, channels, i, slot);
    var local' := ValueAt(local, slot);
    if local' == Null {
      assert slot in channels[i].data;
    } else {
      assert Raises(local', channels[i].data, slot);
    }
  }

  /** The second pass finds exactly the channels with a visible cell somewhere. */
  lemma StaysIff(local: Table, channels: seq<Upstream>, fields: set<string>, i: nat)
    requires DistinctNames(channels) && i < |channels|
    ensures channels[i].name in Differing(Collected(local, channels, AllSlots(local, channels, fields)))
            <==> Stays(local, channels, i, fields)
  {
    var d := Collected(local, channels, AllSlots(local, channels, fields));
    var c := channels[i].name;
    if Stays(local, channels, i, fields) {
      var slot: Slot :| slot.field in fields && VisibleAt(local, channels, i, slot);
      VisibleIsCollected(local, channels, fields, i, slot);
      CellsAt(ValueAt(local, slot), channels, slot, i);
      assert slot in d && c in d[slot].upstreams;
    }
    if c in Differing(d) {
      var slot :| slot in d && c in d[slot].upstreams && Visible(d[slot].upstreams[c]);
      CellsAt(ValueAt(local, slot), channels, slot, i);
      assert slot.field in fields && VisibleAt(local, channels, i, slot);
    }
  }

  /** A row is collected exactly when some channel differs from local, whatever the values are. */
  lemma IncludedIffDiffers(local: Table, channels: seq<Upstream>, slot: Slot)
    ensures Included(local, channels, slot) <==> exists i: nat :: DiffersAt(local, channels, i, slot)
  {
    forall i: nat | i < |channels|
      ensures DiffersAt(local, channels, i, slot) <==>
              if ValueAt(local, slot) != Null then Raises(ValueAt(local, slot), channels[i].data, slot)
              else slot in channels[i].data
    {
    }
  }

  /** Some channel differs from local in a synchronised field. */
  ghost predicate Wanted(local: Table, channels: seq<Upstream>, fields: set<string>, slot: Slot) {
    slot.field in fields && exists i: nat :: DiffersAt(local, channels, i, slot)
  }

  lemma CollectedIffWanted(local: Table, channels: seq<Upstream>, fields: set<string>, slot: Slot)
    ensures slot in Collected(local, channels, AllSlots(local, channels, fields))
            <==> Wanted(local, channels, fields, slot)
  {
    IncludedIffDiffers(local, channels, slot);
    if Wanted(local, channels, fields, slot) {
      var i: nat :| DiffersAt(local, channels, i, slot);
      assert slot in channels[i].data;
    }
  }

  lemma KeptSurvives(local: Table, channels: seq<Upstream>, fields: set<string>, slot: Slot, i: nat)
    requires DistinctNames(channels) && Wanted(local, channels, fields, slot) && Keeps(local, channels, i, fields, slot)
    ensures slot in DifferencesOf(local, channels, fields)
  {
    var d := Collected(local, channels, AllSlots(local, channels, fields));
    var c := channels[i].name;
    CollectedIffWanted(local, channels, fields, slot);
    StaysIff(local, channels, fields, i);
    CellsAt(ValueAt(local, slot), channels, slot, i);
    assert c in Restrict(d[slot], Differing(d)).upstreams && Restrict(d[slot], Differing(d)).upstreams[c] != SAME;
  }

  lemma DifferentCell(item: Item) returns (c: string)
    requires !AllSame(item)
    ensures c in item.upstreams && item.upstreams[c] != SAME
  {
    c :| c in item.upstreams && item.upstreams[c] != SAME;
  }

  lemma SurvivorKeeps(local: Table, channels: seq<Upstream>, fields: set<string>, slot: Slot) returns (i: nat)
    requires DistinctNames(channels) && slot in DifferencesOf(local, channels, fields)
    ensures Wanted(local, channels, fields, slot) && Keeps(local, channels, i, fields, slot)
  {
    var d := Collected(local, channels, AllSlots(local, channels, fields));
    CollectedIffWanted(local, channels, fields, slot);
    var c := DifferentCell(Restrict(d[slot], Differing(d)));
    CellNames(ValueAt(local, slot), channels, slot, c);
    i :| 0 <= i < |channels| && channels[i].name == c;
    CellsAt(ValueAt(local, slot), channels, slot, i);
    StaysIff(local, channels, fields, i);
  }

  /** Main result, for channels with distinct names and values of any kind: a (model, field) pair survives exactly when
      some channel differs in it and some channel that stays has a cell in it other than the mark of agreement. */
  lemma SurvivesIff(local: Table, channels: seq<Upstream>, fields: set<string>, slot: Slot)
    requires DistinctNames(channels)
    ensures slot in DifferencesOf(local, channels, fields)
            <==> Wanted(local, channels, fields, slot) && exists i: nat :: Keeps(local, channels, i, fields, slot)
  {
    if slot in DifferencesOf(local, channels, fields) {
      var i := SurvivorKeeps(local, channels, fields, slot);
    } else if Wanted(local, channels, fields, slot) {
      forall i: nat ensures !Keeps(local, channels, i, fields, slot) {
        if Keeps(local, channels, i, fields, slot) {
          KeptSurvives(local, channels, fields, slot, i);
        }
      }
    }
  }

  /** A surviving row lists exactly the channels that stay, each with its own cell and confidence, next to the local
      value. */
  lemma SurvivingRow(local: Table, channels: seq<Upstream>, fields: set<string>, slot: Slot, i: nat)
    requires DistinctNames(channels) && i < |channels|
    ensures slot in DifferencesOf(local, channels, fields) ==>
            var item, c := DifferencesOf(local, channels, fields)[slot], channels[i].name;
            && item.current == ValueAt(local, slot)
            && (c in item.upstreams <==> Stays(local, channels, i, fields))
            && (c in item.confidence <==> Stays(local, channels, i, fields))
            && (c in item.upstreams ==> item.upstreams[c] == CellAt(local, channels, i, slot))
            && (c in item.confidence ==> item.confidence[c] == Trusted(channels[i].data, slot.model))
            && forall n | n in item.upstreams :: exists k :: 0 <= k < |channels| && channels[k].name == n
  {
    CellsAt(ValueAt(local, slot), channels, slot, i);
    ConfidenceAt(channels, slot.model, i);
    StaysIff(local, channels, fields, i);
    forall n | n in Cells(ValueAt(local, slot), channels, slot)
      ensures exists k :: 0 <= k < |channels| && channels[k].name == n
    {
      CellNames(ValueAt(local, slot), channels, slot, n);
    }
  }

  /** The surviving row of the slot shows the channel with something other than the mark of agreement. */
  ghost predicate Shown(local: Table, channels: seq<Upstream>, fields: set<string>, i: nat, slot: Slot)
    requires i < |channels|
  {
    var d := DifferencesOf(local, channels, fields);
    slot in d && channels[i].name in d[slot].upstreams && d[slot].upstreams[channels[i].name] != SAME
  }

  /** Exactly when a channel that differs is shown: it does not offer the word that marks agreement, nor null where
      local has nothing either, and it has a visible difference somewhere. */
  lemma DifferenceShownIff(local: Table, channels: seq<Upstream>, fields: set<string>, i: nat, slot: Slot)
    requires DistinctNames(channels) && slot.field in fields && DiffersAt(local, channels, i, slot)
    ensures var v := ValueAt(channels[i].data, slot);
            Shown(local, channels, fields, i, slot)
            <==> Stays(local, channels, i, fields) && v != SAME && !(v == Null && ValueAt(local, slot) == Null)
  {
    SurvivingRow(local, channels, fields, slot, i);
    SurvivesIff(local, channels, fields, slot);
    if Stays(local, channels, i, fields) && CellAt(local, channels, i, slot) != SAME {
      assert Keeps(local, channels, i, fields, slot);
    }
  }

  // ---------- Plain values ----------

  /** No channel offers null, or the word that marks agreement, in a synchronised field. */
  ghost predicate PlainValues(channels: seq<Upstream>, fields: set<string>) {
    forall i, slot | 0 <= i < |channels| && slot in channels[i].data && slot.field in fields ::
      Visible(ValueAt(channels[i].data, slot))
  }

  ghost predicate DiffersSomewhere(local: Table, channels: seq<Upstream>, i: nat, fields: set<string>) {
    exists slot: Slot :: slot.field in fields && DiffersAt(local, channels, i, slot)
  }

  /** Then every difference is visible. */
  lemma PlainStays(local: Table, channels: seq<Upstream>, fields: set<string>, i: nat)
    requires PlainValues(channels, fields) && i < |channels|
    ensures Stays(local, channels, i, fields) <==> DiffersSomewhere(local, channels, i, fields)
  {
    if slot: Slot :| slot.field in fields && DiffersAt(local, channels, i, slot) {
      VisibleIff(local, channels, i, slot);
      assert VisibleAt(local, channels, i, slot);
    }
    if slot: Slot :| slot.field in fields && VisibleAt(local, channels, i, slot) {
      VisibleIff(local, channels, i, slot);
      assert DiffersAt(local, channels, i, slot);
    }
  }

  /** So a channel that differs is always shown. */
  lemma DifferenceSurvives(local: Table, channels: seq<Upstream>, fields: set<string>, slot: Slot, i: nat)
    requires DistinctNames(channels) && PlainValues(channels, fields)
    requires slot.field in fields && DiffersAt(local, channels, i, slot)
    ensures Shown(local, channels, fields, i, slot)
  {
    PlainStays(local, channels, fields, i);
    DifferenceShownIff(local, channels, fields, i, slot);
  }

  /** And a pair survives exactly when some channel differs. */
  lemma SurvivesIffDiffers(local: Table, channels: seq<Upstream>, fields: set<string>, slot: Slot)
    requires DistinctNames(channels) && PlainValues(channels, fields)
    ensures slot in DifferencesOf(local, channels, fields)
            <==> slot.field in fields && exists i: nat :: DiffersAt(local, channels, i, slot)
  {
    SurvivesIff(local, channels, fields, slot);
    if slot.field in fields {
      if i: nat :| DiffersAt(local, channels, i, slot) {
        DifferenceSurvives(local, channels, fields, slot, i);
      }
    }
  }

  /** The word that marks agreement must not be a price: a lone channel that offers it differs from a local table
      without an entry, and is still dropped. */
  lemma ReservedWordHidesDifference(name: string, slot: Slot)
    ensures var channels := [Upstream(name, map[slot := SAME])];
            DiffersAt(map[], channels, 0, slot) && slot !in DifferencesOf(map[], channels, {slot.field})
  {
    var channels := [Upstream(name, map[slot := SAME])];
    assert channels[..0] == [];
    assert Cells(Null, channels, slot) == map[name := SAME];
  }

  // ---------- Prices ----------

  /** The value is this number, in either of the ways a table may hold it. */
  ghost predicate Denotes(v: Value, x: real) {
    v == Float(x) || (v.Integer? && v.n as real == x)
  }

  predicate IsPriceField(field: string) {
    || field == "model_ratio" || field == "completion_ratio" || field == "cache_ratio"
    || field == "create_cache_ratio" || field == "image_ratio" || field == "audio_ratio"
    || field == "audio_completion_ratio" || field == "model_price"
  }

  /** Two numbers in a price field agree exactly when they lie less than a billionth apart; otherwise the row shows the
      number of the channel. */
  lemma PricesAgreeIff(local: Table, channels: seq<Upstream>, i: nat, slot: Slot, x: real, y: real)
    requires i < |channels| && IsPriceField(slot.field)
    requires slot in local && Denotes(local[slot], x) && slot in channels[i].data && Denotes(channels[i].data[slot], y)
    ensures CellAt(local, channels, i, slot)
            == if -0.000000001 < y - x < 0.000000001 then Str("same") else Float(y)
    ensures DiffersAt(local, channels, i, slot) <==> y - x <= -0.000000001 || y - x >= 0.000000001
  {
  }

  /** Two texts in any other field agree exactly when they are equal. */
  lemma TextsAgreeIff(local: Table, channels: seq<Upstream>, i: nat, slot: Slot, x: string, y: string)
    requires i < |channels| && !IsPriceField(slot.field)
    requires slot in local && local[slot] == Str(x) && slot in channels[i].data && channels[i].data[slot] == Str(y)
    ensures CellAt(local, channels, i, slot) == if x == y then Str("same") else Str(y)
    ensures DiffersAt(local, channels, i, slot) <==> x != y
  {
  }

  /** The synchronised fields are price fields, and the table holds only numbers there. */
  ghost predicate PriceTable(t: Table, fields: set<string>) {
    forall slot | slot in t && slot.field in fields ::
      IsPriceField(slot.field) && (t[slot].Float? || t[slot].Integer?)
  }

  /** The channel has a price that local lacks, or that lies at least a billionth away from the local one. */
  ghost predicate Apart(local: Table, data: Table, slot: Slot) {
    slot in data
    && (slot !in local
        || exists x, y :: Denotes(local[slot], x) && Denotes(data[slot], y)
                          && (y - x <= -0.000000001 || y - x >= 0.000000001))
  }

  lemma NumberDenotes(v: Value) returns (x: real)
    requires v.Float? || v.Integer?
    ensures Denotes(v, x)
  {
    x := if v.Float? then v.r else v.n as real;
  }

  lemma ApartIffDiffers(local: Table, channels: seq<Upstream>, fields: set<string>, i: nat, slot: Slot)
    requires i < |channels| && PriceTable(local, fields) && PriceTable(channels[i].data, fields) && slot.field in fields
    ensures Apart(local, channels[i].data, slot) <==> DiffersAt(local, channels, i, slot)
  {
    if slot in channels[i].data && slot in local {
      var x := NumberDenotes(local[slot]);
      var y := NumberDenotes(channels[i].data[slot]);
      PricesAgreeIff(local, channels, i, slot, x, y);
      if Apart(local, channels[i].data, slot) {
        var x', y' :| Denotes(local[slot], x') && Denotes(channels[i].data[slot], y')
                      && (y' - x' <= -0.000000001 || y' - x' >= 0.000000001);
        PricesAgreeIff(local, channels, i, slot, x', y');
      }
    }
  }

  lemma PriceTablesArePlain(channels: seq<Upstream>, fields: set<string>)
    requires forall i | 0 <= i < |channels| :: PriceTable(channels[i].data, fields)
    ensures PlainValues(channels, fields)
  {
  }

  /** For tables of prices, whether reals or integers, a (model, field) pair survives exactly when some channel has a
      price there that local lacks or that is at least a billionth away. */
  lemma PriceSurvivesIff(local: Table, channels: seq<Upstream>, fields: set<string>, slot: Slot)
    requires DistinctNames(channels) && PriceTable(local, fields)
    requires forall i | 0 <= i < |channels| :: PriceTable(channels[i].data, fields)
    ensures slot in DifferencesOf(local, channels, fields)
            <==> slot.field in fields && exists i :: 0 <= i < |channels| && Apart(local, channels[i].data, slot)
  {
    PriceTablesArePlain(channels, fields);
    SurvivesIffDiffers(local, channels, fields, slot);
    if slot.field in fields {
      forall i | 0 <= i < |channels|
        ensures Apart(local, channels[i].data, slot) <==> DiffersAt(local, channels, i, slot)
      {
        ApartIffDiffers(local, channels, fields, i, slot);
      }
    }
  }

  /** And it then shows every such channel with its own price. */
  lemma PriceShown(local: Table, channels: seq<Upstream>, fields: set<string>, i: nat, slot: Slot, y: real)
    requires DistinctNames(channels) && PriceTable(local, fields)
    requires forall k | 0 <= k < |channels| :: PriceTable(channels[k].data, fields)
    requires slot.field in fields && i < |channels| && Apart(local, channels[i].data, slot)
    requires Denotes(channels[i].data[slot], y)
    ensures var d := DifferencesOf(local, channels, fields);
            && slot in d && channels[i].name in d[slot].upstreams
            && d[slot].upstreams[channels[i].name] == Float(y)
  {
    PriceTablesArePlain(channels, fields);
    ApartIffDiffers(local, channels, fields, i, slot);
    DifferenceSurvives(local, channels, fields, slot, i);
    SurvivingRow(local, channels, fields, slot, i);
    if slot in local {
      var x := NumberDenotes(local[slot]);
      PricesAgreeIff(local, channels, i, slot, x, y);
    }
  }

  /** A channel is not trusted with a model exactly when it prices the model within a billionth of the placeholder: a
      model ratio of 37.5 and a completion ratio of 1. */
  lemma UntrustedIff(data: Table, model: string)
    ensures !Trusted(data, model)
            <==> && Slot(model, "model_ratio") in data && Slot(model, "completion_ratio") in data
                 && (exists x :: Denotes(data[Slot(model, "model_ratio")], x)
                                 && 37.499999999 < x < 37.500000001)
                 && (exists y :: Denotes(data[Slot(model, "completion_ratio")], y)
                                 && 0.999999999 < y < 1.000000001)
  {
    var ratio, completion := Slot(model, "model_ratio"), Slot(model, "completion_ratio");
    if !Trusted(data, model) {
      assert Denotes(data[ratio], AsFloat(data[ratio]).r);
      assert Denotes(data[completion], AsFloat(data[completion]).r);
    }
  }
}
