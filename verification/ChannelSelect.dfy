/** How service/channel_select.go chooses the channel of an attempt, and what choosing does to the counter of the
    retry loops: a token of the "auto" group walks through its groups, and every step to a further group sets the
    counter back to 0. */
module ChannelSelect {

  /** The retry counter, whether the next increase is skipped, and the remembered position in the list of groups. */
  datatype Counter = Counter(retry: int, skipIncrease: bool, group: nat)

  /** RetryTimes, the number of groups of the user, and whether the token retries across groups. */
  datatype Settings = Settings(retryTimes: int, groups: nat, crossGroup: bool)

  /** Is there a channel in this group (first argument) at this priority (second argument)? */
  type Availability = (nat, int) -> bool

  datatype Selected = Selected(counter: Counter, found: bool)

  /** The loop over the groups of an "auto" token, from group i on. */
  function SearchFrom(s: Settings, c: Counter, start: nat, i: nat, available: Availability): Selected
    decreases s.groups - i
  {
    if i >= s.groups then Selected(c, false)
    else
      var priority := if i > start then 0 else c.retry;
      if !available(i, priority) then SearchFrom(s, c.(retry := 0, group := i + 1), start, i + 1, available)
      else if s.crossGroup && priority >= s.retryTimes then Selected(Counter(0, true, i + 1), true)
      else Selected(c.(group := i), true)
  }

  function Search(s: Settings, c: Counter, available: Availability): Selected {
    SearchFrom(s, c, c.group, c.group, available)
  }

  /** RetryParam.IncreaseRetry */
  function Increased(c: Counter): Counter {
    if c.skipIncrease then c.(skipIncrease := false) else c.(retry := c.retry + 1)
  }

  /** Where an attempt gets its channel from: it is settled before the loop (or locked), it is looked up in the plain
      groups of the token, or it is searched for in the groups of an "auto" token. */
  datatype Choice = Preset | Plain(found: bool) | Auto(available: Availability)

  function Chosen(s: Settings, c: Counter, choice: Choice): Selected {
    match choice
    case Preset => Selected(c, true)
    case Plain(found) => Selected(c, found)
    case Auto(available) => Search(s, c, available)
  }

  class RetryParam {
    var retry: int
    var resetNextTry: bool
    var groupIndex: nat   // ContextKeyAutoGroupIndex

    constructor (group: nat)
      ensures View() == Counter(0, false, group)
    {
      retry, resetNextTry, groupIndex := 0, false, group;
    }

    function View(): Counter
      reads this
    {
      Counter(retry, resetNextTry, groupIndex)
    }

    method IncreaseRetry()
      modifies this
      ensures View() == Increased(old(View()))
    {
      if resetNextTry {
        resetNextTry := false;
        return;
      }
      retry := retry + 1;
    }

    /** CacheGetRandomSatisfiedChannel for the "auto" group */
    method SelectAuto(s: Settings, available: Availability) returns (found: bool)
      modifies this
      ensures Selected(View(), found) == Search(s, old(View()), available)
    {
      var start, i := groupIndex, groupIndex;
      while i < s.groups
        invariant i >= start
        invariant SearchFrom(s, View(), start, i, available) == Search(s, old(View()), available)
      {
        var priorityRetry := retry;
        if i > start {
          priorityRetry := 0;
        }
        if !available(i, priorityRetry) {
          groupIndex := i + 1;
          retry := 0;
          i := i + 1;
          continue;
        }
        if s.crossGroup && priorityRetry >= s.retryTimes {
          groupIndex := i + 1;
          retry := 0;
          resetNextTry := true;
        } else {
          groupIndex := i;
        }
        return true;
      }
      found := false;
    }

    method Choose(s: Settings, choice: Choice) returns (found: bool)
      modifies this
      ensures Selected(View(), found) == Chosen(s, old(View()), choice)
    {
      match choice
      case Preset => found := true;
      case Plain(inGroups) => found := inGroups;
      case Auto(available) => found := SelectAuto(s, available);
    }
  }

  // ---------- What a selection can do to the counter ----------

  /** A search either stays where it is and leaves the counter alone, or moves to a later group and sets the counter
      to 0; a skipped increase comes only with the second. */
  lemma {:induction false} SearchMoves(s: Settings, c: Counter, start: nat, i: nat, available: Availability)
    requires c.group == i >= start && !c.skipIncrease && (i > start ==> c.retry == 0)
    ensures var r := SearchFrom(s, c, start, i, available);
            r.found ==>
              && i < s.groups && i <= r.counter.group <= s.groups
              && (r.counter == c
                  || (r.counter.retry == 0 && r.counter.group > i)
                  || (r.counter.retry == 0 && i > start))
              && (!r.counter.skipIncrease ==> r.counter.group < s.groups)
    decreases s.groups - i
  {
    if i < s.groups && !available(i, if i > start then 0 else c.retry) {
      SearchMoves(s, c.(retry := 0, group := i + 1), start, i + 1, available);
    }
  }

  lemma SelectionMoves(s: Settings, c: Counter, choice: Choice)
    requires !c.skipIncrease
    ensures var r := Chosen(s, c, choice);
            r.found ==>
              && (r.counter == c || (r.counter.retry == 0 && c.group < r.counter.group <= s.groups))
              && (choice.Auto? ==> c.group < s.groups && (!r.counter.skipIncrease ==> r.counter.group < s.groups))
  {
    if choice.Auto? {
      SearchMoves(s, c, c.group, c.group, choice.available);
      if !choice.available(c.group, c.retry) && c.group < s.groups {
        SearchMoves(s, c.(retry := 0, group := c.group + 1), c.group, c.group + 1, choice.available);
      }
    }
  }

  // ---------- How many attempts the groups allow ----------

  /** RetryTimes + 1 for every group from this one on. */
  function Allowance(s: Settings, group: nat): int
    decreases s.groups - group
  {
    if group >= s.groups then 0 else s.retryTimes + 1 + Allowance(s, group + 1)
  }

  lemma {:induction false} AllowanceIsProduct(s: Settings, group: nat)
    requires group <= s.groups
    ensures Allowance(s, group) == (s.retryTimes + 1) * (s.groups - group)
    decreases s.groups - group
  {
    if group < s.groups {
      AllowanceIsProduct(s, group + 1);
    }
  }

  /** Every group that is left behind takes its allowance with it. */
  lemma {:induction false} AllowanceFalls(s: Settings, group: nat, later: nat)
    requires group <= later && s.retryTimes >= 0
    ensures Allowance(s, later) >= 0
    ensures group < s.groups && group < later ==> Allowance(s, later) + s.retryTimes + 1 <= Allowance(s, group)
    ensures Allowance(s, later) <= Allowance(s, group)
    decreases s.groups - group
  {
    if group < s.groups {
      AllowanceFalls(s, group + 1, if later > group then later else group + 1);
    } else {
      AllowancePastEnd(s, later);
    }
  }

  lemma AllowancePastEnd(s: Settings, group: nat)
    requires group >= s.groups
    ensures Allowance(s, group) == 0
  {
  }
}
