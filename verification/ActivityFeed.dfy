/** The dashboard's activity feed. Entries are mutable objects held by
    reference; a reference is the number of the entry's creation. */
module ActivityFeed {
  import opened Telemetry

  const MAX_ACTIVITY := 200
  const COALESCE_LOOKBACK := 4

  datatype Entry = Entry(at: real, source: string, level: string, message: string, fields: string, count: nat)

  /** One call of `add_activity`, with the clock reading it makes. */
  datatype Call = Call(now: real, source: string, level: string, message: string, fields: string)

  /** The deque of references, the entries, how many were created, and the sum
      of the counts of those that fell off the old end. */
  datatype Feed = Feed(order: seq<nat>, entries: map<nat, Entry>, created: nat, evicted: nat)

  const EMPTY_FEED := Feed([], map[], 0, 0)

  predicate WellFormed(f: Feed) {
    && |f.order| <= MAX_ACTIVITY
    && (forall i | 0 <= i < |f.order| :: f.order[i] in f.entries && f.order[i] < f.created)
  }

  function Values(order: seq<nat>, entries: map<nat, Entry>): (values: seq<Entry>)
    requires forall i :: 0 <= i < |order| ==> order[i] in entries
    ensures |values| == |order| && forall i :: 0 <= i < |order| ==> values[i] == entries[order[i]]
  {
    seq(|order|, i requires 0 <= i < |order| => entries[order[i]])
  }

  predicate Repeats(e: Entry, c: Call) {
    e.message == c.message && e.source == c.source
  }

  /** The first repeat at or after index i. */
  function FindFrom(values: seq<Entry>, c: Call, i: nat): (r: Option<nat>)
    ensures r.Some? ==> i <= r.value < |values| && Repeats(values[r.value], c)
    ensures r.Some? ==> forall k :: i <= k < r.value ==> !Repeats(values[k], c)
    ensures r.None? ==> forall k :: i <= k < |values| ==> !Repeats(values[k], c)
    decreases |values| - i
  {
    if i >= |values| then None else if Repeats(values[i], c) then Some(i) else FindFrom(values, c, i + 1)
  }

  function RecentFrom(n: nat): nat {
    if n > COALESCE_LOOKBACK then n - COALESCE_LOOKBACK else 0
  }

  /** `deque.remove` compares by value: the first equal entry. */
  function FirstEqual(values: seq<Entry>, v: Entry): (r: nat)
    requires v in values
    ensures r < |values| && values[r] == v && forall k :: 0 <= k < r ==> values[k] != v
  {
    if values[0] == v then 0 else 1 + FirstEqual(values[1..], v)
  }

  function EntryOf(c: Call): Entry {
    Entry(c.now, c.source, c.level, c.message, c.fields, 1)
  }

  function Updated(e: Entry, c: Call): Entry {
    e.(count := e.count + 1, at := c.now, level := c.level, fields := c.fields)
  }

  function RemoveAt(order: seq<nat>, k: nat): seq<nat>
    requires k < |order|
  {
    order[..k] + order[k + 1..]
  }

  function Coalesced(f: Feed, c: Call, i: nat): Feed
    requires WellFormed(f) && i < |f.order|
  {
    var values := Values(f.order, f.entries);
    assert values[i] in values;
    var k := FirstEqual(values, values[i]);
    f.(order := RemoveAt(f.order, k) + [f.order[i]], entries := f.entries[f.order[i] := Updated(values[i], c)])
  }

  function Appended(f: Feed, c: Call): Feed
    requires WellFormed(f)
  {
    var entries := f.entries[f.created := EntryOf(c)];
    var longer := f.order + [f.created];
    if |longer| > MAX_ACTIVITY
    then Feed(longer[1..], entries, f.created + 1, f.evicted + f.entries[f.order[0]].count)
    else Feed(longer, entries, f.created + 1, f.evicted)
  }

  function Add(f: Feed, c: Call): (r: Feed)
    requires WellFormed(f)
    ensures WellFormed(r)
  {
    var found := FindFrom(Values(f.order, f.entries), c, RecentFrom(|f.order|));
    if found.Some? then Coalesced(f, c, found.value) else Appended(f, c)
  }

  class Activity {
    var order: seq<nat>
    var entries: map<nat, Entry>
    var created: nat
    ghost var evicted: nat

    ghost function State(): Feed
      reads this
    {
      Feed(order, entries, created, evicted)
    }

    constructor ()
      ensures State() == EMPTY_FEED
    {
      order, entries, created, evicted := [], map[], 0, 0;
    }

    method AddActivity(c: Call)
      requires WellFormed(State())
      modifies this
      ensures State() == Add(old(State()), c) && WellFormed(State())
    {
      ghost var f := State();
      var i := RecentFrom(|order|);
      while i < |order|
        invariant RecentFrom(|order|) <= i <= |order| && State() == f
        invariant FindFrom(Values(order, entries), c, i) == FindFrom(Values(order, entries), c, RecentFrom(|order|))
      {
        var entry := entries[order[i]];
        if Repeats(entry, c) {
          assert Values(order, entries)[i] == entry;
          var k := FirstEqual(Values(order, entries), entry);
          entries := entries[order[i] := Updated(entry, c)];
          order := RemoveAt(order, k) + [order[i]];
          assert State() == Coalesced(f, c, i);
          return;
        }
        i := i + 1;
      }
      entries := entries[created := EntryOf(c)];
      order := order + [created];
      created := created + 1;
      if |order| > MAX_ACTIVITY {
        evicted := evicted + f.entries[f.order[0]].count;
        order := order[1..];
      }
      assert State() == Appended(f, c);
    }
  }

  // --- conservation ---

  function SumCounts(values: seq<Entry>): nat {
    if values == [] then 0 else SumCounts(values[..|values| - 1]) + values[|values| - 1].count
  }

  lemma {:induction false} SumConcat(a: seq<Entry>, b: seq<Entry>)
    ensures SumCounts(a + b) == SumCounts(a) + SumCounts(b)
  {
    if b == [] {
      assert a + b == a;
    } else {
      assert (a + b)[..|a + b| - 1] == a + b[..|b| - 1];
      SumConcat(a, b[..|b| - 1]);
    }
  }

  lemma SumSingle(e: Entry)
    ensures SumCounts([e]) == e.count
  {
    assert [e][..0] == [];
  }

  lemma {:induction false} SumWithout(values: seq<Entry>, k: nat)
    requires k < |values|
    ensures SumCounts(values[..k] + values[k + 1..]) == SumCounts(values) - values[k].count
  {
    var front, e, rest := values[..k], values[k], values[k + 1..];
    assert values == front + ([e] + rest);
    SumConcat(front, [e] + rest);
    SumConcat([e], rest);
    SumSingle(e);
    SumConcat(front, rest);
  }

  /** What the feed accounts for: the counts shown and those that fell off. */
  function Accounted(f: Feed): nat
    requires WellFormed(f)
  {
    SumCounts(Values(f.order, f.entries)) + f.evicted
  }

  ghost predicate DistinctRefs(f: Feed) {
    Distinct(f.order)
  }

  lemma AppendedSum(values: seq<Entry>, e: Entry)
    requires e.count == 1
    ensures SumCounts(values + [e]) == SumCounts(values) + 1
  {
    SumConcat(values, [e]);
    SumSingle(e);
  }

  lemma TailSum(values: seq<Entry>)
    requires values != []
    ensures SumCounts(values[1..]) == SumCounts(values) - values[0].count
  {
    SumWithout(values, 0);
    assert values[..0] + values[1..] == values[1..];
  }

  lemma AppendedAccounts(f: Feed, c: Call)
    requires WellFormed(f)
    ensures WellFormed(Appended(f, c)) && Accounted(Appended(f, c)) == Accounted(f) + 1
  {
    var values := Values(f.order, f.entries);
    AppendedSum(values, EntryOf(c));
    TailSum(values + [EntryOf(c)]);
    AppendedShown(f, c);
  }

  lemma AppendedShown(f: Feed, c: Call)
    requires WellFormed(f)
    ensures var r, longer := Appended(f, c), Values(f.order, f.entries) + [EntryOf(c)];
            WellFormed(r) && Values(r.order, r.entries) == if |f.order| == MAX_ACTIVITY then longer[1..] else longer
  {
  }

  /** Every reference leads to an entry. */
  ghost predicate Known(order: seq<nat>, entries: map<nat, Entry>) {
    forall i :: 0 <= i < |order| ==> order[i] in entries
  }

  lemma ValuesUpdated(order: seq<nat>, entries: map<nat, Entry>, i: nat, e: Entry)
    requires Known(order, entries) && i < |order|
    requires Distinct(order)
    ensures Known(order, entries[order[i] := e])
    ensures Values(order, entries[order[i] := e]) == Values(order, entries)[i := e]
  {
  }

  lemma ValuesMoved(order: seq<nat>, entries: map<nat, Entry>, i: nat, k: nat)
    requires Known(order, entries) && i < |order| && k < |order|
    ensures var after, values := RemoveAt(order, k) + [order[i]], Values(order, entries);
            Known(after, entries) && Values(after, entries) == values[..k] + values[k + 1..] + [values[i]]
  {
  }

  lemma MoveKeepsWellFormed(f: Feed, i: nat, k: nat, u: Entry)
    requires WellFormed(f) && i < |f.order| && k < |f.order|
    ensures WellFormed(f.(order := RemoveAt(f.order, k) + [f.order[i]], entries := f.entries[f.order[i] := u]))
  {
  }

  lemma MoveKeepsDistinct(order: seq<nat>, i: nat)
    requires Distinct(order) && i < |order|
    ensures Distinct(RemoveAt(order, i) + [order[i]])
  {
    var after := RemoveAt(order, i) + [order[i]];
    assert forall k :: 0 <= k < |order| - 1 ==> after[k] == order[if k < i then k else k + 1];
  }

  lemma ChangedValues(values: seq<Entry>, i: nat, u: Entry)
    requires i < |values|
    ensures var changed := values[i := u];
            changed[..i] + changed[i + 1..] + [changed[i]] == values[..i] + values[i + 1..] + [u]
  {
  }

  /** Coalescing removes the very entry it found. */
  lemma CoalescedValues(f: Feed, c: Call, i: nat)
    requires WellFormed(f) && DistinctRefs(f) && i < |f.order|
    requires var values := Values(f.order, f.entries); values[i] in values && FirstEqual(values, values[i]) == i
    ensures WellFormed(Coalesced(f, c, i)) && DistinctRefs(Coalesced(f, c, i))
    ensures var values, r := Values(f.order, f.entries), Coalesced(f, c, i);
            Values(r.order, r.entries) == values[..i] + values[i + 1..] + [Updated(values[i], c)]
  {
    var values, r := Values(f.order, f.entries), Coalesced(f, c, i);
    ValuesUpdated(f.order, f.entries, i, Updated(values[i], c));
    ValuesMoved(f.order, r.entries, i, i);
    MoveKeepsWellFormed(f, i, i, Updated(values[i], c));
    MoveKeepsDistinct(f.order, i);
    ChangedValues(values, i, Updated(values[i], c));
  }

  /** Entry i is the first one about the same thing among the last four. */
  ghost predicate FirstRepeat(values: seq<Entry>, c: Call, i: nat) {
    && i < |values| <= i + 4 && values[i].source == c.source && values[i].message == c.message
    && forall k :: 0 <= k < i && k >= |values| - 4 ==> values[k].source != c.source || values[k].message != c.message
  }

  /** What is shown after a call: if it repeats none of the last four entries,
      a new entry at the end and the newest 199 of the others; if it repeats
      one, and no earlier entry equals that one, that entry moved to the end
      with its count raised and the rest of the call's data; the others stay. */
  lemma CallShows(f: Feed, c: Call)
    requires WellFormed(f) && DistinctRefs(f)
    ensures var before, after := Values(f.order, f.entries), Values(Add(f, c).order, Add(f, c).entries);
            && ((forall i: nat :: !FirstRepeat(before, c, i)) ==>
                  after == (if |before| == 200 then before[1..] else before)
                           + [Entry(c.now, c.source, c.level, c.message, c.fields, 1)])
            && (forall i: nat :: FirstRepeat(before, c, i) && (forall k :: 0 <= k < i ==> before[k] != before[i]) ==>
                  after == before[..i] + before[i + 1..]
                           + [Entry(c.now, c.source, c.level, c.message, c.fields, before[i].count + 1)])
  {
    var before := Values(f.order, f.entries);
    var found := FindFrom(before, c, RecentFrom(|before|));
    FoundIsFirstRepeat(before, c);
    if found.None? {
      AppendedShown(f, c);
      assert Add(f, c) == Appended(f, c);
    } else {
      RepeatShows(f, c, found.value);
      assert Add(f, c) == Coalesced(f, c, found.value);
    }
  }

  lemma RepeatShows(f: Feed, c: Call, i: nat)
    requires WellFormed(f) && DistinctRefs(f) && i < |f.order|
    ensures var before, r := Values(f.order, f.entries), Coalesced(f, c, i);
            && WellFormed(r)
            && ((forall k :: 0 <= k < i ==> before[k] != before[i]) ==>
                  Values(r.order, r.entries) == before[..i] + before[i + 1..] + [Updated(before[i], c)])
  {
    var before := Values(f.order, f.entries);
    assert before[i] in before;
    MoveKeepsWellFormed(f, i, FirstEqual(before, before[i]), Updated(before[i], c));
    if forall k :: 0 <= k < i ==> before[k] != before[i] {
      CoalescedValues(f, c, i);
    }
  }

  lemma FoundIsFirstRepeat(values: seq<Entry>, c: Call)
    ensures var found := FindFrom(values, c, RecentFrom(|values|));
            forall i: nat :: FirstRepeat(values, c, i) <==> found == Some(i)
  {
  }

  // --- an entry is counted at every place at which its object stands ---

  /** How many places of the deque hold the object. */
  function Places(order: seq<nat>, ref: nat): nat {
    multiset(order)[ref]
  }

  lemma {:induction false} UpdateCountsAtEveryPlace(order: seq<nat>, entries: map<nat, Entry>, ref: nat, u: Entry)
    requires Known(order, entries) && ref in entries && u.count == entries[ref].count + 1
    ensures Known(order, entries[ref := u])
    ensures SumCounts(Values(order, entries[ref := u])) == SumCounts(Values(order, entries)) + Places(order, ref)
  {
    if order != [] {
      var before, last := order[..|order| - 1], order[|order| - 1];
      assert order == before + [last];
      assert forall i :: 0 <= i < |before| ==> before[i] == order[i];
      UpdateCountsAtEveryPlace(before, entries, ref, u);
      ValuesAppend(before, entries, last);
      ValuesAppend(before, entries[ref := u], last);
    }
  }

  lemma ValuesAppend(order: seq<nat>, entries: map<nat, Entry>, last: nat)
    requires Known(order, entries) && last in entries
    ensures Known(order + [last], entries)
    ensures SumCounts(Values(order + [last], entries)) == SumCounts(Values(order, entries)) + entries[last].count
  {
    assert Values(order + [last], entries)[..|order|] == Values(order, entries);
  }

  /** Taking out an equal entry and putting the found one at the end changes
      no sum. */
  lemma MoveKeepsSum(order: seq<nat>, entries: map<nat, Entry>, i: nat, k: nat)
    requires Known(order, entries) && i < |order| && k < |order| && entries[order[k]] == entries[order[i]]
    ensures var after := RemoveAt(order, k) + [order[i]];
            Known(after, entries) && SumCounts(Values(after, entries)) == SumCounts(Values(order, entries))
  {
    var values := Values(order, entries);
    ValuesMoved(order, entries, i, k);
    SumConcat(values[..k] + values[k + 1..], [values[i]]);
    SumWithout(values, k);
    SumSingle(values[i]);
  }

  lemma PlacesAfterMove(order: seq<nat>, i: nat, k: nat)
    requires i < |order| && k < |order|
    ensures Places(RemoveAt(order, k) + [order[i]], order[i]) ==
            Places(order, order[i]) + (if order[k] == order[i] then 0 else 1)
  {
    assert order == order[..k] + [order[k]] + order[k + 1..];
  }

  /** A repeat adds one to the count of its object, at each place at which the
      object stands afterwards. */
  lemma CoalescedAccounts(f: Feed, c: Call, i: nat)
    requires WellFormed(f) && i < |f.order|
    requires var values := Values(f.order, f.entries); values[i] in values
    ensures var k := FirstEqual(Values(f.order, f.entries), Values(f.order, f.entries)[i]);
            && WellFormed(Coalesced(f, c, i))
            && Accounted(Coalesced(f, c, i)) == Accounted(f) + Places(Coalesced(f, c, i).order, f.order[i])
            && Places(Coalesced(f, c, i).order, f.order[i]) ==
               Places(f.order, f.order[i]) + (if f.order[k] == f.order[i] then 0 else 1)
  {
    var values := Values(f.order, f.entries);
    var k, u := FirstEqual(values, values[i]), Updated(values[i], c);
    MoveKeepsWellFormed(f, i, k, u);
    MoveKeepsSum(f.order, f.entries, i, k);
    UpdateCountsAtEveryPlace(RemoveAt(f.order, k) + [f.order[i]], f.entries, f.order[i], u);
    PlacesAfterMove(f.order, i, k);
  }

  lemma FreshObjectStandsOnce(f: Feed, c: Call)
    requires WellFormed(f)
    ensures var r := Appended(f, c);
            && r.order != [] && r.order[|r.order| - 1] == f.created && Places(r.order, f.created) == 1
  {
    var longer := f.order + [f.created];
    if |longer| > MAX_ACTIVITY {
      assert longer[1..] == f.order[1..] + [f.created];
      assert f.created !in f.order[1..];
    } else {
      assert f.created !in f.order;
    }
  }

  /** From any feed, a call adds the number of places at which its object
      stands afterwards. */
  lemma CallAddsItsPlaces(f: Feed, c: Call)
    requires WellFormed(f)
    ensures var r := Add(f, c);
            r.order != [] && Accounted(r) == Accounted(f) + Places(r.order, r.order[|r.order| - 1])
  {
    var values := Values(f.order, f.entries);
    var found := FindFrom(values, c, RecentFrom(|f.order|));
    if found.None? {
      AppendedAccounts(f, c);
      FreshObjectStandsOnce(f, c);
    } else {
      assert values[found.value] in values;
      CoalescedAccounts(f, c, found.value);
    }
  }

  /** The call repeats nothing recent, or an entry whose object stands in the
      deque once and that no equal entry precedes. */
  ghost predicate HitsOnlyItsEntry(f: Feed, c: Call)
    requires WellFormed(f)
  {
    var values := Values(f.order, f.entries);
    var found := FindFrom(values, c, RecentFrom(|values|));
    found.Some? ==> Alone(f.order, values, found.value)
  }

  lemma TwoIndicesTwoPlaces(order: seq<nat>, low: nat, high: nat)
    requires low < high < |order| && order[low] == order[high]
    ensures Places(order, order[low]) >= 2
  {
    var rest := order[low + 1..];
    assert order == order[..low] + [order[low]] + rest;
    assert rest[high - low - 1] == order[low] && order[low] in multiset(rest);
  }

  /** The object at index i stands nowhere else, and no equal entry precedes it. */
  ghost predicate Alone(order: seq<nat>, values: seq<Entry>, i: nat)
    requires i < |order| == |values|
  {
    Places(order, order[i]) == 1 && forall k :: 0 <= k < i ==> values[k] != values[i]
  }

  lemma AloneIff(order: seq<nat>, values: seq<Entry>, i: nat, k: nat)
    requires k <= i < |order| == |values| && values[k] == values[i]
    requires forall j :: 0 <= j < k ==> values[j] != values[i]
    ensures Alone(order, values, i) <==> Places(order, order[i]) + (if order[k] == order[i] then 0 else 1) == 1
  {
    assert order == order[..i] + [order[i]] + order[i + 1..];
    assert Places(order, order[i]) >= 1;
    if k < i && order[k] == order[i] {
      TwoIndicesTwoPlaces(order, k, i);
    }
  }

  lemma RepeatIsCountedOnceIff(f: Feed, c: Call, i: nat)
    requires WellFormed(f) && i < |f.order| && var values := Values(f.order, f.entries); values[i] in values
    ensures WellFormed(Coalesced(f, c, i))
    ensures Accounted(Coalesced(f, c, i)) == Accounted(f) + 1 <==> Alone(f.order, Values(f.order, f.entries), i)
  {
    var values := Values(f.order, f.entries);
    CoalescedAccounts(f, c, i);
    AloneIff(f.order, values, i, FirstEqual(values, values[i]));
  }

  /** From any feed, a call is accounted for once exactly when it hits only its
      entry, which can be told from the feed before the call. */
  lemma CallIsCountedOnceIff(f: Feed, c: Call)
    requires WellFormed(f)
    ensures Accounted(Add(f, c)) == Accounted(f) + 1 <==> HitsOnlyItsEntry(f, c)
  {
    var values := Values(f.order, f.entries);
    var found := FindFrom(values, c, RecentFrom(|values|));
    if found.None? {
      AppendedAccounts(f, c);
    } else {
      assert values[found.value] in values;
      RepeatIsCountedOnceIff(f, c, found.value);
    }
  }

  /** Whatever happened before, the newest entry shows the latest call, and
      its count is one, or one more than that of the entry it repeats. */
  lemma NewestEntryIsTheCall(f: Feed, c: Call)
    requires WellFormed(f)
    ensures var r, values := Add(f, c), Values(f.order, f.entries);
            var found := FindFrom(values, c, RecentFrom(|values|));
            && r.order != []
            && r.entries[r.order[|r.order| - 1]] ==
               EntryOf(c).(count := if found.Some? then values[found.value].count + 1 else 1)
  {
    var values := Values(f.order, f.entries);
    var found := FindFrom(values, c, RecentFrom(|values|));
    if found.Some? {
      var i := found.value;
      assert values[i] in values;
    }
  }

  // --- whole runs ---

  function After(calls: seq<Call>): (f: Feed)
    ensures WellFormed(f)
  {
    if calls == [] then EMPTY_FEED else Add(After(calls[..|calls| - 1]), calls[|calls| - 1])
  }

  /** No two calls share a clock reading. */
  ghost predicate DistinctReadings(calls: seq<Call>) {
    forall i, j :: 0 <= i < j < |calls| ==> calls[i].now != calls[j].now
  }

  ghost predicate IsReading(calls: seq<Call>, at: real) {
    exists k :: 0 <= k < |calls| && calls[k].now == at
  }

  /** Entries carry pairwise different times, each the time of some call. */
  ghost predicate Timed(values: seq<Entry>, calls: seq<Call>) {
    && (forall i, j :: 0 <= i < j < |values| ==> values[i].at != values[j].at)
    && (forall i :: 0 <= i < |values| ==> IsReading(calls, values[i].at))
  }

  /** The newest entries differ pairwise in source or message. */
  ghost predicate RecentDiffer(values: seq<Entry>) {
    forall i, j :: 0 <= i < j < |values| && i >= |values| - 4 ==>
      values[i].source != values[j].source || values[i].message != values[j].message
  }

  lemma ReadingsAppend(calls: seq<Call>, c: Call, at: real)
    ensures IsReading(calls + [c], c.now)
    ensures IsReading(calls, at) ==> IsReading(calls + [c], at)
    ensures IsReading(calls, at) && DistinctReadings(calls + [c]) ==> at != c.now
  {
    var longer := calls + [c];
    assert longer[|calls|] == c;
    if IsReading(calls, at) {
      var k :| 0 <= k < |calls| && calls[k].now == at;
      assert longer[k].now == at;
    }
  }

  lemma TimedAppend(values: seq<Entry>, calls: seq<Call>, c: Call, e: Entry)
    requires Timed(values, calls) && DistinctReadings(calls + [c]) && e.at == c.now
    ensures Timed(values + [e], calls + [c])
  {
    ReadingsAppend(calls, c, e.at);
    forall i | 0 <= i < |values| ensures values[i].at != e.at && IsReading(calls + [c], values[i].at) {
      ReadingsAppend(calls, c, values[i].at);
    }
  }

  lemma TimedWithout(values: seq<Entry>, calls: seq<Call>, k: nat)
    requires Timed(values, calls) && k < |values|
    ensures Timed(values[..k] + values[k + 1..], calls)
  {
    var rest := values[..k] + values[k + 1..];
    forall i | 0 <= i < |rest| ensures rest[i] == values[if i < k then i else i + 1] && IsReading(calls, rest[i].at) {
      assert IsReading(calls, values[if i < k then i else i + 1].at);
    }
  }

  ghost predicate Kept(f: Feed, calls: seq<Call>) {
    && WellFormed(f) && DistinctRefs(f)
    && var values := Values(f.order, f.entries);
    && Timed(values, calls) && RecentDiffer(values)
    && Accounted(f) == |calls|
  }

  lemma KeptCoalesced(f: Feed, calls: seq<Call>, c: Call, i: nat)
    requires Kept(f, calls) && DistinctReadings(calls + [c])
    requires FindFrom(Values(f.order, f.entries), c, RecentFrom(|f.order|)) == Some(i)
    ensures Kept(Coalesced(f, c, i), calls + [c])
  {
    var values := Values(f.order, f.entries);
    assert values[i] in values;
    assert FirstEqual(values, values[i]) == i;
    CoalescedValues(f, c, i);
    CoalescedAccounts(f, c, i);
    DistinctStandOnce(f.order, i);
    TimedWithout(values, calls, i);
    TimedAppend(values[..i] + values[i + 1..], calls, c, Updated(values[i], c));
    RecentAfterMove(values, i, c);
  }

  lemma DistinctStandOnce(order: seq<nat>, i: nat)
    requires i < |order| && forall a, b :: 0 <= a < b < |order| ==> order[a] != order[b]
    ensures Places(order, order[i]) == 1
  {
    assert order == order[..i] + [order[i]] + order[i + 1..];
    assert order[i] !in order[..i] && order[i] !in order[i + 1..];
  }

  lemma RecentAfterMove(values: seq<Entry>, i: nat, c: Call)
    requires RecentDiffer(values) && RecentFrom(|values|) <= i < |values| && Repeats(values[i], c)
    ensures RecentDiffer(values[..i] + values[i + 1..] + [Updated(values[i], c)])
  {
    var after := values[..i] + values[i + 1..] + [Updated(values[i], c)];
    forall j | 0 <= j < |values| - 1 ensures after[j] == values[if j < i then j else j + 1] {
    }
  }

  lemma KeptAppended(f: Feed, calls: seq<Call>, c: Call)
    requires Kept(f, calls) && DistinctReadings(calls + [c])
    requires FindFrom(Values(f.order, f.entries), c, RecentFrom(|f.order|)) == None
    ensures Kept(Appended(f, c), calls + [c])
  {
    assert Accounted(Appended(f, c)) == Accounted(f) + 1 by {
      AppendedAccounts(f, c);
    }
    AppendedValues(f, c);
    NewestStaysFine(Values(f.order, f.entries), EntryOf(c), calls, c);
  }

  lemma NewestStaysFine(values: seq<Entry>, e: Entry, calls: seq<Call>, c: Call)
    requires Timed(values, calls) && RecentDiffer(values) && DistinctReadings(calls + [c]) && e.at == c.now
    requires forall k :: RecentFrom(|values|) <= k < |values| ==>
               values[k].source != e.source || values[k].message != e.message
    ensures var longer := values + [e];
            && Timed(longer, calls + [c]) && RecentDiffer(longer)
            && (|values| == MAX_ACTIVITY ==> Timed(longer[1..], calls + [c]) && RecentDiffer(longer[1..]))
  {
    var longer := values + [e];
    TimedAppend(values, calls, c, e);
    if |values| == MAX_ACTIVITY {
      TailStaysFine(longer, calls + [c]);
    }
  }

  lemma TailStaysFine(values: seq<Entry>, calls: seq<Call>)
    requires Timed(values, calls) && RecentDiffer(values) && |values| > COALESCE_LOOKBACK
    ensures Timed(values[1..], calls) && RecentDiffer(values[1..])
  {
    TimedTail(values, calls);
  }

  lemma TimedTail(values: seq<Entry>, calls: seq<Call>)
    requires Timed(values, calls) && |values| > 0
    ensures Timed(values[1..], calls)
  {
    var rest := values[1..];
    forall i | 0 <= i < |rest| ensures IsReading(calls, rest[i].at) {
      assert rest[i] == values[i + 1];
    }
  }

  lemma AppendedValues(f: Feed, c: Call)
    requires WellFormed(f) && DistinctRefs(f)
    ensures var r, longer := Appended(f, c), Values(f.order, f.entries) + [EntryOf(c)];
            && WellFormed(r) && DistinctRefs(r)
            && Values(r.order, r.entries) == if |f.order| == MAX_ACTIVITY then longer[1..] else longer
  {
    AppendedShown(f, c);
  }

  /** If no two calls share a clock reading, every call is accounted for once,
      shown or fallen off; the feed never exceeds 200 entries; and its four
      newest entries are about different things. */
  lemma {:induction false} FeedConservesCalls(calls: seq<Call>)
    requires DistinctReadings(calls)
    ensures Kept(After(calls), calls)
  {
    if calls != [] {
      var before, c := calls[..|calls| - 1], calls[|calls| - 1];
      assert calls == before + [c];
      FeedConservesCalls(before);
      var f := After(before);
      var found := FindFrom(Values(f.order, f.entries), c, RecentFrom(|f.order|));
      if found.Some? {
        KeptCoalesced(f, before, c, found.value);
      } else {
        KeptAppended(f, before, c);
      }
    } else {
      assert SumCounts([]) == 0;
    }
  }

  /** Every call of a run hits only its entry. */
  ghost predicate AllHit(calls: seq<Call>) {
    calls == [] ||
    var before, c := calls[..|calls| - 1], calls[|calls| - 1];
    AllHit(before) && HitsOnlyItsEntry(After(before), c)
  }

  /** Over every run, clock readings shared or not, no call is lost, and the
      feed accounts for exactly the calls made if and only if each of them hit
      only its entry. */
  lemma {:induction false} FeedIsExactIffAllHit(calls: seq<Call>)
    ensures Accounted(After(calls)) >= |calls|
    ensures Accounted(After(calls)) == |calls| <==> AllHit(calls)
  {
    if calls == [] {
      assert SumCounts([]) == 0;
    } else {
      var before, c := calls[..|calls| - 1], calls[|calls| - 1];
      FeedIsExactIffAllHit(before);
      CallAddsAtLeastOne(After(before), c);
      CallIsCountedOnceIff(After(before), c);
    }
  }

  lemma CallAddsAtLeastOne(f: Feed, c: Call)
    requires WellFormed(f)
    ensures Accounted(Add(f, c)) >= Accounted(f) + 1
  {
    CallAddsItsPlaces(f, c);
    assert Add(f, c).order[|Add(f, c).order| - 1] in multiset(Add(f, c).order);
  }

  // --- a shared clock reading loses the count ---

  function EntriesOf(calls: seq<Call>): (values: seq<Entry>)
    ensures |values| == |calls| && forall i :: 0 <= i < |calls| ==> values[i] == EntryOf(calls[i])
  {
    seq(|calls|, i requires 0 <= i < |calls| => EntryOf(calls[i]))
  }

  /** The feed shows exactly these values after the calls, each call once. */
  ghost predicate Shows(calls: seq<Call>, values: seq<Entry>) {
    var f := After(calls);
    DistinctRefs(f) && Values(f.order, f.entries) == values && Accounted(f) == |calls|
  }

  lemma FreshCall(calls: seq<Call>, c: Call, values: seq<Entry>)
    requires Shows(calls, values) && |values| < MAX_ACTIVITY
    requires forall k :: RecentFrom(|values|) <= k < |values| ==> !Repeats(values[k], c)
    ensures Shows(calls + [c], values + [EntryOf(c)])
  {
    assert (calls + [c])[..|calls|] == calls;
    var f := After(calls);
    AppendedAccounts(f, c);
    AppendedValues(f, c);
  }

  lemma NothingShown(calls: seq<Call>)
    requires calls == []
    ensures Shows(calls, EntriesOf(calls))
  {
    assert EntriesOf(calls) == [];
    assert SumCounts([]) == 0;
  }

  ghost predicate FreshPair(calls: seq<Call>, i: nat, j: nat) {
    i < j < |calls| && j <= i + COALESCE_LOOKBACK ==> !Repeats(EntryOf(calls[i]), calls[j])
  }

  ghost predicate AllFresh(calls: seq<Call>) {
    forall i: nat, j: nat :: FreshPair(calls, i, j)
  }

  lemma NoRecentRepeat(before: seq<Call>, c: Call)
    requires AllFresh(before + [c])
    ensures AllFresh(before)
    ensures forall k :: RecentFrom(|before|) <= k < |before| ==> !Repeats(EntryOf(before[k]), c)
  {
    var calls := before + [c];
    forall i: nat, j: nat ensures FreshPair(before, i, j) {
      assert FreshPair(calls, i, j);
    }
    forall k | RecentFrom(|before|) <= k < |before| ensures !Repeats(EntryOf(before[k]), c) {
      assert FreshPair(calls, k, |before|);
    }
  }

  lemma EntriesOfAppend(calls: seq<Call>, c: Call)
    ensures EntriesOf(calls + [c]) == EntriesOf(calls) + [EntryOf(c)]
  {
  }

  lemma FreshStep(before: seq<Call>, c: Call)
    requires |before| < MAX_ACTIVITY && AllFresh(before + [c]) && Shows(before, EntriesOf(before))
    ensures Shows(before + [c], EntriesOf(before + [c]))
  {
    NoRecentRepeat(before, c);
    EntriesOfAppend(before, c);
    FreshCall(before, c, EntriesOf(before));
  }

  /** Calls that repeat none of the four before them are shown one by one. */
  lemma FreshCallsAreShown(calls: seq<Call>)
    requires |calls| <= MAX_ACTIVITY && AllFresh(calls)
    ensures Shows(calls, EntriesOf(calls))
    decreases |calls|, 1
  {
    if calls == [] {
      NothingShown(calls);
    } else {
      var before, c := calls[..|calls| - 1], calls[|calls| - 1];
      assert calls == before + [c];
      FreshAppended(before, c);
    }
  }

  lemma FreshAppended(before: seq<Call>, c: Call)
    requires |before| < MAX_ACTIVITY && AllFresh(before + [c])
    ensures Shows(before + [c], EntriesOf(before + [c]))
    decreases |before| + 1, 0
  {
    NoRecentRepeat(before, c);
    FreshCallsAreShown(before);
    FreshStep(before, c);
  }

  function Note(message: string): Call {
    Call(0.0, "dashboard", "INFO", message, "")
  }

  /** Five different calls and the first one again, in the same clock tick. */
  ghost predicate FirstComesBack(six: seq<Call>, a: Call) {
    && |six| == 6 && six[0] == a && six[5] == a
    && (forall i, j :: 0 <= i < j < 5 ==> six[i].message != six[j].message)
  }

  /** The entry for `a` stands at the last two places; the others are not about it. */
  ghost predicate StandsTwice(f: Feed, a: Call) {
    && WellFormed(f) && |f.order| == 6 && f.order[4] == f.order[5]
    && (forall i :: 0 <= i < 4 ==> f.order[i] != f.order[5] && !Repeats(f.entries[f.order[i]], a))
    && Repeats(f.entries[f.order[5]], a)
  }

  lemma SixShown(six: seq<Call>, a: Call)
    requires FirstComesBack(six, a)
    ensures Shows(six, EntriesOf(six))
  {
    forall i: nat, j: nat ensures FreshPair(six, i, j) {
    }
    FreshCallsAreShown(six);
  }

  /** The third `a` repeats the second but removes the first, equal one, so that
      the second is shown twice: seven calls, eight shown. */
  lemma MovedTwice(f: Feed, six: seq<Call>, a: Call)
    requires FirstComesBack(six, a)
    requires WellFormed(f) && DistinctRefs(f) && Values(f.order, f.entries) == EntriesOf(six)
    ensures Accounted(Add(f, a)) == Accounted(f) + 2 && StandsTwice(Add(f, a), a)
  {
    SixthIsFound(f, six, a);
    CoalescedAccounts(f, a, 5);
    DistinctStandOnce(f.order, 5);
    MovedStandsTwice(f, six, a);
  }

  lemma SixthIsFound(f: Feed, six: seq<Call>, a: Call)
    requires FirstComesBack(six, a) && WellFormed(f) && Values(f.order, f.entries) == EntriesOf(six)
    ensures var values := Values(f.order, f.entries);
            values[5] in values && FirstEqual(values, values[5]) == 0 && Add(f, a) == Coalesced(f, a, 5)
  {
    var values := Values(f.order, f.entries);
    FoundAt(values, a, 2, 5);
    assert values[0] == values[5] && values[5] in values;
  }

  lemma MovedStandsTwice(f: Feed, six: seq<Call>, a: Call)
    requires FirstComesBack(six, a)
    requires WellFormed(f) && DistinctRefs(f) && Values(f.order, f.entries) == EntriesOf(six)
    requires var values := Values(f.order, f.entries); values[5] in values && FirstEqual(values, values[5]) == 0
    ensures StandsTwice(Coalesced(f, a, 5), a)
  {
    MoveKeepsWellFormed(f, 5, 0, Updated(f.entries[f.order[5]], a));
  }

  /** From then on even a call with a reading of its own is counted twice. */
  lemma LaterRepeatCountsTwice(f: Feed, a: Call, later: Call)
    requires StandsTwice(f, a) && Repeats(EntryOf(a), later)
    ensures Accounted(Add(f, later)) == Accounted(f) + 2
  {
    var values := Values(f.order, f.entries);
    FoundAt(values, later, 2, 4);
    assert values[4] in values;
    assert FirstEqual(values, values[4]) == 4;
    CoalescedAccounts(f, later, 4);
    assert f.order == f.order[..4] + [f.order[5], f.order[5]];
    assert f.order[5] !in f.order[..4];
  }

  lemma EightCalls(six: seq<Call>, a: Call, later: Call)
    requires FirstComesBack(six, a) && Repeats(EntryOf(a), later)
    ensures Accounted(After(six + [a])) == 8 && Accounted(After(six + [a] + [later])) == 10
  {
    SixShown(six, a);
    MovedTwice(After(six), six, a);
    assert (six + [a])[..6] == six && (six + [a] + [later])[..7] == six + [a];
    LaterRepeatCountsTwice(After(six + [a]), a, later);
  }

  /** Seven calls in the same clock tick: "a" is noted, then four other things,
      then "a" twice more, and the feed accounts for eight. An eighth call a
      second later, sharing its reading with no other, is counted twice too. */
  lemma SharedReadingMiscounts()
    ensures var calls := [Note("a"), Note("b"), Note("c"), Note("d"), Note("e"), Note("a"), Note("a")];
            var later := Note("a").(now := 1.0);
            && !DistinctReadings(calls) && Accounted(After(calls)) == |calls| + 1
            && !IsReading(calls, later.now) && Accounted(After(calls + [later])) == |calls| + 3
  {
    var a, b, c, d, e := Note("a"), Note("b"), Note("c"), Note("d"), Note("e");
    var six, calls := [a, b, c, d, e, a], [a, b, c, d, e, a, a];
    assert forall i, j :: 0 <= i < j < 5 ==> six[i].message[0] != six[j].message[0];
    SharedReadings(six, a, a.(now := 1.0));
    assert calls == six + [a];
  }

  lemma SharedReadings(six: seq<Call>, a: Call, later: Call)
    requires FirstComesBack(six, a) && later == a.(now := 1.0)
    requires forall i :: 0 <= i < 6 ==> six[i].now == 0.0
    ensures !DistinctReadings(six + [a]) && Accounted(After(six + [a])) == 8
    ensures !IsReading(six + [a], later.now) && Accounted(After(six + [a] + [later])) == 10
  {
    EightCalls(six, a, later);
    AllInOneTick(six + [a]);
  }

  lemma AllInOneTick(calls: seq<Call>)
    requires |calls| > 1 && forall i :: 0 <= i < |calls| ==> calls[i].now == 0.0
    ensures !DistinctReadings(calls) && !IsReading(calls, 1.0)
  {
    assert calls[0].now == calls[1].now;
  }

  lemma FoundAt(values: seq<Entry>, c: Call, i: nat, k: nat)
    requires i <= k < |values| && Repeats(values[k], c)
    requires forall j :: i <= j < k ==> !Repeats(values[j], c)
    ensures FindFrom(values, c, i) == Some(k)
  {
  }
}
