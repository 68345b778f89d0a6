/** The ordered-set algebra on model names of controller/channel_upstream_update.go. */
module ModelNames {
  import opened Lists
  import opened Text

  function TrimAll(models: seq<string>): seq<string> {
    Map(models, Trim)
  }

  /** Every trimmed name comes from a raw one. */
  lemma NameSource(models: seq<string>, n: string) returns (raw: string)
    requires n in TrimAll(models)
    ensures raw in models && n == Trim(raw) && Trimmed(n) && forall c | c in n :: c in raw
  {
    raw := MapSource(models, Trim, n);
    TrimIsTrimmed(raw);
  }

  /** normalizeModelNames: trim, drop blanks, keep first occurrences */
  function Normalize(models: seq<string>): seq<string> {
    Uniq(Filter(TrimAll(models), NotBlank))
  }

  /** A list that normalizing leaves alone. */
  ghost predicate Clean(models: seq<string>) {
    Distinct(models) && forall n | n in models :: n != "" && Trimmed(n)
  }

  /** The names that a raw list stands for. */
  ghost function Names(models: seq<string>): set<string> {
    set n | n in TrimAll(models) && n != ""
  }

  lemma NormalizeIsClean(models: seq<string>)
    ensures Clean(Normalize(models))
    ensures forall n :: n in Normalize(models) <==> n in Names(models)
  {
    forall n | n in Normalize(models) ensures Trimmed(n) {
      var raw := NameSource(models, n);
    }
  }

  lemma CleanIsNormal(models: seq<string>)
    requires Clean(models)
    ensures Normalize(models) == models
    ensures forall n :: n in Names(models) <==> n in models
  {
    forall i | 0 <= i < |models| ensures TrimAll(models)[i] == models[i] {
      TrimIsTrimmed(models[i]);
      assert models[i] in models;
    }
    assert TrimAll(models) == models;
    FilterAll(models, NotBlank);
    UniqOfDistinct(models);
  }

  /** mergeModelNames */
  function Merge(base: seq<string>, appended: seq<string>): seq<string> {
    Normalize(base + appended)
  }

  predicate NotBlank(name: string) { name != "" }

  lemma TrimAllConcat(a: seq<string>, b: seq<string>)
    ensures TrimAll(a + b) == TrimAll(a) + TrimAll(b)
  {
    MapConcat(a, b, Trim);
  }

  lemma NamesOfConcat(a: seq<string>, b: seq<string>)
    ensures forall n :: n in Names(a + b) <==> n in Names(a) || n in Names(b)
  {
    TrimAllConcat(a, b);
    forall n ensures n in Names(a + b) <==> n in Names(a) || n in Names(b) {
      InConcat(TrimAll(a), TrimAll(b), n);
    }
  }

  lemma MergeIsUniq(base: seq<string>, appended: seq<string>)
    ensures Merge(base, appended) == Uniq(Normalize(base) + Normalize(appended))
  {
    TrimAllConcat(base, appended);
    UniqFilterConcat(TrimAll(base), TrimAll(appended), NotBlank);
  }

  /** Merging two raw lists is normalizing their concatenation: every name keeps the place of its first
      occurrence. */
  method MergeModelNames(base: seq<string>, appended: seq<string>) returns (merged: seq<string>)
    ensures merged == Merge(base, appended)
  {
    merged := Normalize(base);
    var seen := set n | n in merged;
    var extra := Normalize(appended);
    UniqOfDistinct(merged);
    assert merged + extra[..0] == merged;
    for i := 0 to |extra|
      invariant merged == Uniq(Normalize(base) + extra[..i])
      invariant forall n :: n in seen <==> n in merged
    {
      UniqTake(Normalize(base), extra, i);
      if extra[i] !in seen {
        seen := seen + {extra[i]};
        merged := merged + [extra[i]];
      }
    }
    assert extra[..|extra|] == extra;
    MergeIsUniq(base, appended);
  }

  /** Merging new names appends them. */
  lemma MergeFresh(base: seq<string>, fresh': seq<string>)
    requires Clean(base) && Clean(fresh') && forall n | n in fresh' :: n !in base
    ensures Merge(base, fresh') == base + fresh' && Clean(base + fresh')
  {
    DistinctConcat(base, fresh');
    CleanIsNormal(base + fresh');
  }

  /** subtractModelNames */
  function Subtract(base: seq<string>, removed: seq<string>): seq<string> {
    var drop := Normalize(removed);
    Filter(Normalize(base), n => n !in drop)
  }

  /** intersectModelNames */
  function Intersect(base: seq<string>, allowed: seq<string>): seq<string> {
    var keep := Normalize(allowed);
    Filter(Normalize(base), n => n in keep)
  }

  lemma MergeNames(base: seq<string>, appended: seq<string>)
    ensures Clean(Merge(base, appended))
    ensures forall n :: n in Merge(base, appended) <==> n in Names(base) || n in Names(appended)
  {
    NormalizeIsClean(base + appended);
    NamesOfConcat(base, appended);
  }

  lemma SubtractNames(base: seq<string>, removed: seq<string>)
    ensures Clean(Subtract(base, removed))
    ensures forall n :: n in Subtract(base, removed) <==> n in Names(base) && n !in Names(removed)
  {
    NormalizeIsClean(base);
    NormalizeIsClean(removed);
    var drop := Normalize(removed);
    FilterKeepsDistinct(Normalize(base), n => n !in drop);
  }

  lemma IntersectNames(base: seq<string>, allowed: seq<string>)
    ensures Clean(Intersect(base, allowed))
    ensures forall n :: n in Intersect(base, allowed) <==> n in Names(base) && n in Names(allowed)
  {
    NormalizeIsClean(base);
    NormalizeIsClean(allowed);
    var keep := Normalize(allowed);
    FilterKeepsDistinct(Normalize(base), n => n in keep);
  }

  /** applySelectedModelChanges: add wins when a name is selected in both lists */
  function ApplySelected(origin: seq<string>, add: seq<string>, remove: seq<string>): seq<string> {
    var normalizedAdd := Normalize(add);
    var normalizedRemove := Subtract(Normalize(remove), normalizedAdd);
    Subtract(Merge(origin, normalizedAdd), normalizedRemove)
  }

  lemma ApplySelectedNames(origin: seq<string>, add: seq<string>, remove: seq<string>)
    ensures Clean(ApplySelected(origin, add, remove))
    ensures forall n :: n in ApplySelected(origin, add, remove)
              <==> n in Names(add) || (n in Names(origin) && n !in Names(remove))
  {
    var normalizedAdd := Normalize(add);
    var normalizedRemove := Subtract(Normalize(remove), normalizedAdd);
    NormalizeIsClean(add);
    NormalizeIsClean(remove);
    CleanIsNormal(normalizedAdd);
    CleanIsNormal(Normalize(remove));
    SubtractNames(Normalize(remove), normalizedAdd);
    CleanIsNormal(normalizedRemove);
    MergeNames(origin, normalizedAdd);
    CleanIsNormal(Merge(origin, normalizedAdd));
    SubtractNames(Merge(origin, normalizedAdd), normalizedRemove);
  }

  /** Names that may be stored in a comma-separated field. */
  predicate CommaFree(models: seq<string>) {
    forall n | n in models :: ',' !in n
  }

  /** Channel.GetModels */
  function GetModels(models: string): seq<string> {
    if models == "" then [] else Split(TrimChar(models, ','), ',')
  }

  lemma {:induction false} SplitEdges(s: string, sep: char)
    requires s != "" && s[0] != sep && s[|s| - 1] != sep
    ensures var r := Split(s, sep); r[0] != "" && r[|r| - 1] != ""
  {
    if |s| > 1 && s[1] == sep {
      SplitLast(s[1..], sep);
    } else if |s| > 1 {
      SplitEdges(s[1..], sep);
    }
  }

  lemma {:induction false} SplitLast(s: string, sep: char)
    requires s != "" && s[|s| - 1] != sep
    ensures var r := Split(s, sep); r[|r| - 1] != ""
  {
    if |s| > 1 {
      SplitLast(s[1..], sep);
    }
  }

  /** Commas at the ends of the stored text name no model: of several, neither the first nor the last is blank. */
  lemma ModelsHaveSolidEnds(models: string)
    ensures var r := GetModels(models); |r| > 1 ==> r[0] != "" && r[|r| - 1] != ""
  {
    if TrimChar(models, ',') != "" {
      SplitEdges(TrimChar(models, ','), ',');
    }
  }

  lemma {:induction false} JoinEdges(parts: seq<string>, sep: char)
    requires parts != [] && forall p | p in parts :: p != "" && sep !in p
    ensures var s := Join(parts, sep); s != "" && s[0] != sep && s[|s| - 1] != sep
  {
    assert parts[0] in parts && parts[0][0] in parts[0];
    if |parts| == 1 {
      assert parts[0][|parts[0]| - 1] in parts[0];
    } else {
      var rest := parts[1..];
      assert forall p | p in rest :: p in parts;
      JoinEdges(rest, sep);
      var s := Join(parts, sep);
      assert s[|s| - 1] == Join(rest, sep)[|Join(rest, sep)| - 1];
    }
  }

  /** The stored field reads back as the list that was joined into it. */
  lemma StoredModelsReadBack(models: seq<string>)
    requires Clean(models) && CommaFree(models)
    ensures GetModels(Join(models, ',')) == models
  {
    if models != [] {
      JoinEdges(models, ',');
      SplitJoin(models, ',');
    }
  }

  lemma StoredModelsAreCommaFree(models: string)
    ensures CommaFree(Normalize(GetModels(models)))
  {
    forall n | n in Normalize(GetModels(models)) ensures ',' !in n {
      var raw := NameSource(GetModels(models), n);
    }
  }

  // ---------- What a stored list of any names reads back as ----------

  /** The names that a stored name reads back as: its comma-separated parts. */
  ghost predicate Fragment(n: string, name: string) {
    n in Names(Split(name, ','))
  }

  ghost predicate FragmentOf(n: string, names: seq<string>) {
    exists p :: p in names && Fragment(n, p)
  }

  lemma NameOf(models: seq<string>, raw: string)
    requires raw in models && Trim(raw) != ""
    ensures Trim(raw) in Names(models)
  {
    MapMember(models, Trim, raw);
  }

  /** Two lists with the same non-empty raw names have the same names. */
  lemma SameRawNames(a: seq<string>, b: seq<string>, n: string)
    requires forall x | x != "" :: x in a ==> x in b
    ensures n in Names(a) ==> n in Names(b)
  {
    if n in Names(a) {
      var raw := NameSource(a, n);
      NameOf(b, raw);
    }
  }

  /** Trimming separators off a stored text does not change its names. */
  lemma TrimmedTextNames(s: string, sep: char, n: string)
    ensures n in Names(Split(TrimChar(s, sep), sep)) <==> n in Names(Split(s, sep))
  {
    var trimmed, raw := Split(TrimChar(s, sep), sep), Split(s, sep);
    forall x | x != "" ensures x in trimmed <==> x in raw {
      TrimCharPieces(s, sep, x);
    }
    SameRawNames(trimmed, raw, n);
    SameRawNames(raw, trimmed, n);
  }

  lemma StoredNames(models: string, n: string)
    ensures n in Names(GetModels(models)) <==> n in Names(Split(models, ','))
  {
    if models == "" {
      var raw := Split(models, ',');
      assert raw == [""];
      forall x | x != "" ensures x !in raw {
      }
      SameRawNames(raw, [], n);
    } else {
      TrimmedTextNames(models, ',', n);
    }
  }

  /** A part without separators is a name of the joined text. */
  lemma JoinedName(parts: seq<string>, sep: char, raw: string)
    requires raw in parts && sep !in raw && Trim(raw) != ""
    ensures Trim(raw) in Names(Split(Join(parts, sep), sep))
  {
    assert raw != "" by {
      TrimIsTrimmed(raw);
    }
    SplitAtSeparator(raw, "", sep);
    OneElement(raw);
    JoinPieces(parts, sep, raw);
    NameOf(Split(Join(parts, sep), sep), raw);
  }

  /** A list of any names that is joined and stored reads back as the parts of its names. */
  lemma StoredFragments(names: seq<string>, n: string)
    ensures n in Names(GetModels(Join(names, ','))) <==> FragmentOf(n, names)
  {
    var raw := Split(Join(names, ','), ',');
    StoredNames(Join(names, ','), n);
    if n in Names(raw) {
      var x := NameSource(raw, n);
      JoinPieces(names, ',', x);
      var p :| p in names && x in Split(p, ',');
      NameOf(Split(p, ','), x);
      assert Fragment(n, p);
    }
    if FragmentOf(n, names) {
      var p :| p in names && Fragment(n, p);
      var x := NameSource(Split(p, ','), n);
      JoinPieces(names, ',', x);
      NameOf(raw, x);
    }
  }

  /** A clean name without commas is its own only part. */
  lemma WholeName(name: string, n: string)
    requires name != "" && Trimmed(name) && ',' !in name
    ensures Fragment(n, name) <==> n == name
  {
    SplitAtSeparator(name, "", ',');
    OneElement(name);
    CleanIsNormal([name]);
  }

  lemma PlainFragments(names: seq<string>, n: string)
    requires Clean(names) && CommaFree(names)
    ensures FragmentOf(n, names) <==> n in names
  {
    if n in names {
      WholeName(n, n);
    }
    if p :| p in names && Fragment(n, p) {
      WholeName(p, n);
    }
  }
}
