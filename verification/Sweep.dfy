/** The paged sweep that three loops of controller/channel_upstream_update.go share: pages of enabled channels
    are fetched by "id greater than the last one seen" and every channel is handled in turn.  What is done with
    a channel is a parameter. */
module Sweep {
  import opened Lists

  // ---------- What the sweep should do ----------

  datatype Visited<T, R> = Visited(row: T, results: seq<R>)

  type Visitor<!K, !T, !R> = (K, T) -> Visited<T, R>

  function EnabledIds<K, T>(t: map<K, T>, enabled: T -> bool): set<K> {
    set id | id in t && enabled(t[id])
  }

  function VisitedTable<K, T, R>(t: map<K, T>, visit: Visitor<K, T, R>, done: set<K>): map<K, T> {
    map id | id in t :: if id in done then visit(id, t[id]).row else t[id]
  }

  function ResultsFor<K(!new), T, R>(t: map<K, T>, visit: Visitor<K, T, R>, ids: seq<K>): seq<R>
    requires forall id | id in ids :: id in t
  {
    if ids == [] then []
    else
      var init, last := ids[..|ids| - 1], ids[|ids| - 1];
      assert forall id | id in init :: id in ids;
      ResultsFor(t, visit, init) + visit(last, t[last]).results
  }

  function AfterID(ids: set<int>, lastID: int): set<int> {
    set id | id in ids && (lastID > 0 ==> id > lastID)
  }

  /** findEnabledChannelsAfterID: the filter on the id is only added for a positive lastID. */
  function PageAfter<T>(t: map<int, T>, enabled: T -> bool, lastID: int, batchSize: nat): seq<int> {
    Take(Ascending(AfterID(EnabledIds(t, enabled), lastID)), batchSize)
  }

  // ---------- The invariant of the sweep ----------

  lemma {:induction false} ResultsAppend<K(!new), T, R>(t: map<K, T>, visit: Visitor<K, T, R>, a: seq<K>, b: seq<K>)
    requires forall id | id in a :: id in t
    requires forall id | id in b :: id in t
    ensures forall id | id in a + b :: id in t
    ensures ResultsFor(t, visit, a + b) == ResultsFor(t, visit, a) + ResultsFor(t, visit, b)
  {
    if b == [] {
      assert a + b == a;
    } else {
      var init := b[..|b| - 1];
      assert forall id | id in init :: id in b;
      assert (a + b)[..|a + b| - 1] == a + init;
      ResultsAppend(t, visit, a, init);
    }
  }

  lemma {:induction false} UntouchedResults<K(!new), T, R>(t: map<K, T>, visit: Visitor<K, T, R>, ids: seq<K>,
          done: set<K>)
    requires forall id | id in ids :: id in t && id !in done
    ensures ResultsFor(VisitedTable(t, visit, done), visit, ids) == ResultsFor(t, visit, ids)
  {
    if ids != [] {
      var init := ids[..|ids| - 1];
      assert forall id | id in init :: id in ids;
      UntouchedResults(t, visit, init, done);
      assert ids[|ids| - 1] in ids;
    }
  }

  /** lastID is the last of the first n listed ids, or 0 before the first page. */
  ghost predicate LastOf(listed: seq<int>, n: nat, lastID: int) {
    n <= |listed| && lastID == if n == 0 then 0 else listed[n - 1]
  }

  lemma RestIsAfterID(listed: seq<int>, n: nat, lastID: int, x: int)
    requires Increasing(listed) && LastOf(listed, n, lastID) && forall id | id in listed :: id > 0
    ensures x in listed[n..] <==> x in listed && (lastID > 0 ==> x > lastID)
  {
    if x in listed {
      var i :| 0 <= i < |listed| && listed[i] == x;
      if i >= n {
        assert listed[n..][i - n] == x;
      }
    }
    if x in listed[n..] {
      var i :| 0 <= i < |listed[n..]| && listed[n..][i] == x;
      assert listed[n + i] == x;
    }
    if n > 0 {
      assert listed[n - 1] in listed;
    }
  }

  /** What lies after lastID is the rest of the listing. */
  lemma NextPage(all: set<int>, n: nat, lastID: int)
    requires (forall id | id in all :: id > 0) && LastOf(Ascending(all), n, lastID)
    ensures Ascending(AfterID(all, lastID)) == Ascending(all)[n..]
  {
    var listed, after := Ascending(all), Ascending(AfterID(all, lastID));
    AscendingLists(all);
    AscendingLists(AfterID(all, lastID));
    forall x ensures x in after <==> x in listed[n..] {
      RestIsAfterID(listed, n, lastID, x);
    }
    IncreasingUnique(after, listed[n..]);
  }

  lemma TableAppends<K(!new), T, R>(t: map<K, T>, visit: Visitor<K, T, R>, done: seq<K>, page: seq<K>)
    requires forall id | id in page :: id in t && id !in done
    ensures VisitedTable(VisitedTable(t, visit, SetOf(done)), visit, SetOf(page))
            == VisitedTable(t, visit, SetOf(done + page))
  {
    assert SetOf(done + page) == SetOf(done) + SetOf(page);
  }

  lemma PageAppends<K(!new), T, R>(t: map<K, T>, visit: Visitor<K, T, R>, done: seq<K>, page: seq<K>, more: seq<R>)
    requires forall id | id in done :: id in t
    requires forall id | id in page :: id in t && id !in done
    requires more == ResultsFor(VisitedTable(t, visit, SetOf(done)), visit, page)
    ensures forall id | id in done + page :: id in t
    ensures ResultsFor(t, visit, done) + more == ResultsFor(t, visit, done + page)
  {
    UntouchedResults(t, visit, page, SetOf(done));
    ResultsAppend(t, visit, done, page);
  }

  /** Handling a channel does not enable or disable it. */
  ghost predicate KeepsStatus<K(!new), T, R>(t: map<K, T>, visit: Visitor<K, T, R>, enabled: T -> bool) {
    forall id | id in t :: enabled(visit(id, t[id]).row) == enabled(t[id])
  }

  lemma VisitKeepsEnabled<K(!new), T, R>(t: map<K, T>, visit: Visitor<K, T, R>, enabled: T -> bool, done: set<K>)
    requires KeepsStatus(t, visit, enabled)
    ensures EnabledIds(VisitedTable(t, visit, done), enabled) == EnabledIds(t, enabled)
  {
  }

  ghost predicate Visitable<K, T>(page: seq<K>, t: map<K, T>) {
    Distinct(page) && forall id | id in page :: id in t
  }

  /** The first n listed ids are done. */
  ghost predicate Progress<K(!new), T, R>(start: map<K, T>, table: map<K, T>, results: seq<R>,
                                          visit: Visitor<K, T, R>, listed: seq<K>, n: nat)
  {
    && n <= |listed|
    && (forall id | id in listed[..n] :: id in start)
    && table == VisitedTable(start, visit, SetOf(listed[..n]))
    && results == ResultsFor(start, visit, listed[..n])
  }

  /** The first i ids of a page are done. */
  ghost predicate PageProgress<K(!new), T, R>(before: map<K, T>, table: map<K, T>, results: seq<R>,
                                              visit: Visitor<K, T, R>, page: seq<K>, i: nat)
    requires i <= |page| && Visitable(page, before)
  {
    table == VisitedTable(before, visit, SetOf(page[..i])) && results == ResultsFor(before, visit, page[..i])
  }

  lemma VisitStep<K(!new), T, R>(before: map<K, T>, table: map<K, T>, results: seq<R>, visit: Visitor<K, T, R>,
                                 page: seq<K>, i: nat)
    requires i < |page| && Visitable(page, before) && PageProgress(before, table, results, visit, page, i)
    ensures page[i] in table
    ensures var v := visit(page[i], table[page[i]]);
            PageProgress(before, table[page[i] := v.row], results + v.results, visit, page, i + 1)
  {
    var id := page[i];
    assert page[..i + 1] == page[..i] + [id];
    assert id !in page[..i] && table[id] == before[id];
    ResultsAppend(before, visit, page[..i], [id]);
    assert ResultsFor(before, visit, [id]) == [] + visit(id, before[id]).results;
    assert SetOf(page[..i + 1]) == SetOf(page[..i]) + {id};
  }

  lemma PageIsFresh<K>(listed: seq<K>, n: nat, page: seq<K>)
    requires Distinct(listed) && n + |page| <= |listed| && page == listed[n..n + |page|]
    ensures Distinct(page)
    ensures forall id | id in page :: id in listed && id !in listed[..n]
  {
    assert forall i | 0 <= i < |page| :: page[i] == listed[n + i] && listed[n + i] in listed;
    assert forall i | 0 <= i < n :: listed[..n][i] == listed[i];
  }

  /** One round of the loop, once its page has been handled. */
  lemma RoundOfSweep<K(!new), T, R>(start: map<K, T>, table: map<K, T>, results: seq<R>, visit: Visitor<K, T, R>,
                                    listed: seq<K>, n: nat, page: seq<K>, table': map<K, T>, more: seq<R>, n': nat)
    requires Visitable(listed, start) && Visitable(page, table)
    requires Progress(start, table, results, visit, listed, n)
    requires n <= n' <= |listed| && page == listed[n..n']
    requires table' == VisitedTable(table, visit, SetOf(page)) && more == ResultsFor(table, visit, page)
    ensures Progress(start, table', results + more, visit, listed, n')
  {
    TakeExtends(listed, n, n', page);
    PageMembers(start, listed, n, page);
    PageFollows(start, table, results, visit, listed[..n], page, table', more);
  }

  lemma TakeExtends<X>(s: seq<X>, n: nat, n': nat, stretch: seq<X>)
    requires n <= n' <= |s| && stretch == s[n..n']
    ensures s[..n] + stretch == s[..n'] && n' == n + |stretch|
  {
  }

  lemma PageMembers<K(!new), T>(start: map<K, T>, listed: seq<K>, n: nat, page: seq<K>)
    requires Visitable(listed, start) && n + |page| <= |listed| && page == listed[n..n + |page|]
    ensures forall id | id in page :: id in start && id !in listed[..n]
  {
    PageIsFresh(listed, n, page);
  }

  lemma PageFollows<K(!new), T, R>(start: map<K, T>, table: map<K, T>, results: seq<R>, visit: Visitor<K, T, R>,
                                   done: seq<K>, page: seq<K>, table': map<K, T>, more: seq<R>)
    requires (forall id | id in done :: id in start) && forall id | id in page :: id in start && id !in done
    requires forall id | id in page :: id in table
    requires table == VisitedTable(start, visit, SetOf(done)) && results == ResultsFor(start, visit, done)
    requires table' == VisitedTable(table, visit, SetOf(page)) && more == ResultsFor(table, visit, page)
    ensures forall id | id in done + page :: id in start
    ensures table' == VisitedTable(start, visit, SetOf(done + page))
    ensures results + more == ResultsFor(start, visit, done + page)
  {
    TableAppends(start, visit, done, page);
    PageAppends(start, visit, done, page, more);
  }

  lemma PageIsVisitable<K(!new), T, R>(start: map<K, T>, table: map<K, T>, results: seq<R>, visit: Visitor<K, T, R>,
                                       listed: seq<K>, n: nat, page: seq<K>, n': nat)
    requires Visitable(listed, start) && Progress(start, table, results, visit, listed, n)
    requires n <= n' <= |listed| && page == listed[n..n']
    ensures Visitable(page, table)
  {
    PageIsFresh(listed, n, page);
  }

  lemma NoProgress<K(!new), T, R>(start: map<K, T>, visit: Visitor<K, T, R>, listed: seq<K>)
    ensures Progress(start, start, [], visit, listed, 0)
  {
  }

  lemma FullProgress<K(!new), T, R>(start: map<K, T>, table: map<K, T>, results: seq<R>, visit: Visitor<K, T, R>,
                                    listed: seq<K>)
    requires Progress(start, table, results, visit, listed, |listed|)
    ensures forall id | id in listed :: id in start
    ensures table == VisitedTable(start, visit, SetOf(listed)) && results == ResultsFor(start, visit, listed)
  {
    assert listed[..|listed|] == listed;
  }

  lemma EnabledUnchanged<K(!new), T, R>(start: map<K, T>, table: map<K, T>, results: seq<R>, visit: Visitor<K, T, R>,
                                        enabled: T -> bool, listed: seq<K>, n: nat)
    requires KeepsStatus(start, visit, enabled) && Progress(start, table, results, visit, listed, n)
    ensures EnabledIds(table, enabled) == EnabledIds(start, enabled)
  {
    VisitKeepsEnabled(start, visit, enabled, SetOf(listed[..n]));
  }

  lemma TakeIsStretch<X>(s: seq<X>, n: nat, count: nat)
    requires n <= |s| && count >= 1
    ensures var page := Take(s[n..], count);
            && n + |page| <= |s| && page == s[n..n + |page|]
            && (|page| < count ==> n + |page| == |s|)
            && (page != [] ==> page[|page| - 1] == s[n + |page| - 1])
  {
  }

  /** The page that is fetched when the first n ids are done. */
  lemma FetchedPage<T>(t: map<int, T>, enabled: T -> bool, all: set<int>, n: nat, lastID: int, batchSize: nat)
    requires all == EnabledIds(t, enabled) && forall id | id in all :: id > 0
    requires LastOf(Ascending(all), n, lastID) && batchSize >= 1
    ensures var page, listed := PageAfter(t, enabled, lastID, batchSize), Ascending(all);
            var n' := n + |page|;
            && n' <= |listed| && page == listed[n..n'] && (|page| < batchSize ==> n' == |listed|)
            && (page != [] ==> LastOf(listed, n', page[|page| - 1]))
  {
    NextPage(all, n, lastID);
    TakeIsStretch(Ascending(all), n, batchSize);
  }

  // ---------- The sweep ----------

  class ChannelStore<T(!new), R> {
    var table: map<int, T>
    const enabled: T -> bool

    constructor (table: map<int, T>, enabled: T -> bool)
      ensures this.table == table && this.enabled == enabled
    {
      this.table := table;
      this.enabled := enabled;
    }

    method VisitPage(visit: Visitor<int, T, R>, page: seq<int>) returns (results: seq<R>)
      requires Visitable(page, table)
      modifies this`table
      ensures table == VisitedTable(old(table), visit, SetOf(page))
      ensures results == ResultsFor(old(table), visit, page)
    {
      results := [];
      ghost var before := table;
      assert page[..0] == [];
      for i := 0 to |page|
        invariant PageProgress(before, table, results, visit, page, i)
      {
        VisitStep(before, table, results, visit, page, i);
        var v := visit(page[i], table[page[i]]);
        table := table[page[i] := v.row];
        results := results + v.results;
      }
      assert page[..|page|] == page;
    }

    method SweepListed(visit: Visitor<int, T, R>, batchSize: nat, ghost all: set<int>) returns (results: seq<R>)
      requires batchSize >= 1 && all == EnabledIds(table, enabled) && forall id | id in all :: id > 0
      requires Visitable(Ascending(all), table) && KeepsStatus(table, visit, enabled)
      modifies this`table
      ensures Progress(old(table), table, results, visit, Ascending(all), |Ascending(all)|)
    {
      results := [];
      var lastID := 0;
      ghost var start, n, listed := table, 0, Ascending(all);
      NoProgress(start, visit, listed);
      while true
        invariant LastOf(listed, n, lastID)
        invariant Progress(start, table, results, visit, listed, n)
        decreases |listed| - n
      {
        EnabledUnchanged(start, table, results, visit, enabled, listed, n);
        FetchedPage(table, enabled, all, n, lastID, batchSize);
        var page := PageAfter(table, enabled, lastID, batchSize);
        if |page| == 0 {
          break;
        }
        lastID := page[|page| - 1];
        ghost var before, n' := table, n + |page|;
        PageIsVisitable(start, table, results, visit, listed, n, page, n');
        var more := VisitPage(visit, page);
        RoundOfSweep(start, before, results, visit, listed, n, page, table, more, n');
        results := results + more;
        n := n';
        if |page| < batchSize {
          break;
        }
      }
      assert n == |listed|;
    }

    /** Every enabled channel is visited exactly once, in ascending id order, whatever the batch size, and no
        other channel changes. */
    method SweepAll(visit: Visitor<int, T, R>, batchSize: nat) returns (results: seq<R>)
      requires batchSize >= 1
      requires forall id | id in table :: id > 0
      requires KeepsStatus(table, visit, enabled)
      modifies this`table
      ensures table == VisitedTable(old(table), visit, EnabledIds(old(table), enabled))
      ensures forall id | id in Ascending(EnabledIds(old(table), enabled)) :: id in old(table)
      ensures results == ResultsFor(old(table), visit, Ascending(EnabledIds(old(table), enabled)))
    {
      ghost var all := EnabledIds(table, enabled);
      ghost var listed := Ascending(all);
      AscendingLists(all);
      results := SweepListed(visit, batchSize, all);
      FullProgress(old(table), table, results, visit, listed);
      assert SetOf(listed) == all;
    }
  }
}
