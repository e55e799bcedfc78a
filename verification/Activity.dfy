/** The activity list: built in one pass from a session's stored events, or kept up to date
    event by event while the session is on screen. */
module Activity {
  import opened Seqs
  import opened Wrappers

  datatype State = InProgress | Finished | Broken

  datatype Policy =
    | AutoApply | AutoRun | Awaiting | Blocked | HighRisk | Conflict
    | PolicyRunning | PolicyDone | PolicyFailed | Generic

  datatype Item = Item(id: string, caption: string, detail: string, state: State, policy: Policy)

  predicate Distinctive(p: Policy) {
    p.AutoApply? || p.AutoRun? || p.Awaiting? || p.Blocked? || p.HighRisk? || p.Conflict?
  }

  function Merge(previous: Option<Item>, next: Item): (r: Item) {
    if previous.None? then next
    else if Distinctive(previous.value.policy) && !Distinctive(next.policy) then next.(policy := previous.value.policy)
    else next
  }

  // ---------- live: a list, appended to or merged in place ----------

  function FindIndex(items: seq<Item>, id: string): (r: int)
    ensures -1 <= r < |items|
    ensures r >= 0 ==> items[r].id == id
    ensures r < 0 ==> forall i :: 0 <= i < |items| ==> items[i].id != id
  {
    if items == [] then -1
    else if items[0].id == id then 0
    else
      var r := FindIndex(items[1..], id);
      assert forall i :: 1 <= i < |items| ==> items[i] == items[1..][i - 1];
      if r < 0 then -1 else r + 1
  }

  function MergeInto(next: Item): (r: Item -> Item) {
    (item: Item) => if item.id == next.id then Merge(Some(item), next) else item
  }

  function LiveStep(items: seq<Item>, activity: Option<Item>): (r: seq<Item>) {
    if activity.None? then items
    else if FindIndex(items, activity.value.id) < 0 then items + [activity.value]
    else Map(MergeInto(activity.value), items)
  }

  function Live(activities: seq<Option<Item>>): (r: seq<Item>) {
    if activities == [] then []
    else LiveStep(Live(activities[..|activities| - 1]), activities[|activities| - 1])
  }

  // ---------- batch: a map that remembers insertion order ----------

  /** A JavaScript map: keys in the order of their first insertion. */
  datatype OrderedMap = OrderedMap(order: seq<string>, values: map<string, Item>)

  ghost predicate WellFormed(m: OrderedMap) {
    && (forall k :: k in m.values <==> k in m.order)
    && (forall k :: k in m.values ==> m.values[k].id == k)
    && (forall i, j :: 0 <= i < j < |m.order| ==> m.order[i] != m.order[j])
  }

  function Put(m: OrderedMap, key: string, item: Item): (r: OrderedMap) {
    OrderedMap(if key in m.values then m.order else m.order + [key], m.values[key := item])
  }

  function Get(m: OrderedMap, key: string): (r: Option<Item>) {
    if key in m.values then Some(m.values[key]) else None
  }

  function Values(m: OrderedMap): (r: seq<Item>)
    requires forall k :: k in m.order ==> k in m.values
  {
    seq(|m.order|, i requires 0 <= i < |m.order| => m.values[m.order[i]])
  }

  lemma PutWellFormed(m: OrderedMap, item: Item)
    requires WellFormed(m)
    ensures WellFormed(Put(m, item.id, item))
  {}

  lemma PutNew(m: OrderedMap, item: Item)
    requires WellFormed(m) && item.id !in m.values
    ensures WellFormed(Put(m, item.id, item))
    ensures Values(Put(m, item.id, item)) == Values(m) + [item]
    ensures FindIndex(Values(m), item.id) < 0
  {
    PutWellFormed(m, item);
    assert forall i :: 0 <= i < |m.order| ==> m.order[i] in m.values && Values(m)[i].id == m.order[i];
  }

  lemma PutExisting(m: OrderedMap, item: Item, merged: Item)
    requires WellFormed(m) && item.id in m.values && merged == Merge(Some(m.values[item.id]), item)
    ensures WellFormed(Put(m, item.id, merged))
    ensures Values(Put(m, item.id, merged)) == Map(MergeInto(item), Values(m))
    ensures FindIndex(Values(m), item.id) >= 0
  {
    PutWellFormed(m, merged);
    var at :| 0 <= at < |m.order| && m.order[at] == item.id;
    assert Values(m)[at].id == item.id;
    assert forall i :: 0 <= i < |m.order| ==> Values(m)[i].id == m.order[i];
  }

  /** One stored event against one live update. */
  lemma PutIsLiveStep(m: OrderedMap, activity: Item)
    requires WellFormed(m)
    ensures WellFormed(Put(m, activity.id, Merge(Get(m, activity.id), activity)))
    ensures Values(Put(m, activity.id, Merge(Get(m, activity.id), activity))) == LiveStep(Values(m), Some(activity))
  {
    if activity.id in m.values {
      PutExisting(m, activity, Merge(Get(m, activity.id), activity));
    } else {
      PutNew(m, activity);
    }
  }

  /** The pass over the stored events gives exactly the list the live handler builds. */
  method BuildActivity(activities: seq<Option<Item>>) returns (items: seq<Item>)
    ensures items == Live(activities)
  {
    var byId := OrderedMap([], map[]);
    for i := 0 to |activities|
      invariant WellFormed(byId)
      invariant Values(byId) == Live(activities[..i])
    {
      assert activities[..i + 1][..i] == activities[..i];
      if activities[i].None? {
        continue;
      }
      var activity := activities[i].value;
      PutIsLiveStep(byId, activity);
      byId := Put(byId, activity.id, Merge(Get(byId, activity.id), activity));
    }
    assert activities[..|activities|] == activities;
    items := Values(byId);
  }

  // ---------- what the list shows ----------

  ghost predicate UniqueIds(items: seq<Item>) {
    forall i, j :: 0 <= i < j < |items| ==> items[i].id != items[j].id
  }

  lemma LiveStepUnique(items: seq<Item>, activity: Option<Item>)
    requires UniqueIds(items)
    ensures UniqueIds(LiveStep(items, activity))
  {}

  lemma {:induction false} LiveUnique(activities: seq<Option<Item>>)
    ensures UniqueIds(Live(activities))
  {
    if activities != [] {
      LiveUnique(activities[..|activities| - 1]);
      LiveStepUnique(Live(activities[..|activities| - 1]), activities[|activities| - 1]);
    }
  }

  /** The last event of an id. */
  function LastOf(activities: seq<Option<Item>>, id: string): (r: Option<Item>) {
    if activities == [] then None
    else
      var last := activities[|activities| - 1];
      if last.Some? && last.value.id == id then last else LastOf(activities[..|activities| - 1], id)
  }

  /** The last distinctive policy among the events of an id. */
  function LastDistinctive(activities: seq<Option<Item>>, id: string): (r: Option<Policy>) {
    if activities == [] then None
    else
      var last := activities[|activities| - 1];
      if last.Some? && last.value.id == id && Distinctive(last.value.policy) then Some(last.value.policy)
      else LastDistinctive(activities[..|activities| - 1], id)
  }

  /** What an id should show: its last event, under the last distinctive policy it ever had. */
  function Expected(activities: seq<Option<Item>>, id: string): (r: Option<Item>) {
    match LastOf(activities, id)
    case None => None
    case Some(item) =>
      var policy := LastDistinctive(activities, id);
      Some(if policy.Some? then item.(policy := policy.value) else item)
  }

  function Shown(items: seq<Item>, id: string): (r: Option<Item>) {
    var i := FindIndex(items, id);
    if i < 0 then None else Some(items[i])
  }

  lemma ShownStep(items: seq<Item>, activity: Item, id: string)
    requires UniqueIds(items)
    ensures Shown(LiveStep(items, Some(activity)), id)
            == if id == activity.id then Some(Merge(Shown(items, id), activity)) else Shown(items, id)
  {
    var next := LiveStep(items, Some(activity));
    var i, j := FindIndex(items, id), FindIndex(next, id);
    if FindIndex(items, activity.id) < 0 {
      assert forall k :: 0 <= k < |items| ==> next[k] == items[k];
      assert next[|items|] == activity;
    } else {
      assert forall k :: 0 <= k < |items| ==> next[k].id == items[k].id;
      if i >= 0 && j >= 0 { assert i == j; }
    }
  }

  /** For every sequence of events and every id, the list shows the id's last event under the
      last distinctive policy it had; so a distinctive policy is never lost to a plain one. */
  lemma {:induction false} LiveShowsExpected(activities: seq<Option<Item>>, id: string)
    ensures Shown(Live(activities), id) == Expected(activities, id)
  {
    if activities != [] {
      var init, last := activities[..|activities| - 1], activities[|activities| - 1];
      LiveShowsExpected(init, id);
      LiveUnique(init);
      if last.Some? {
        ShownStep(Live(init), last.value, id);
        DistinctiveHasEvent(init, id);
      }
    }
  }

  lemma {:induction false} DistinctiveHasEvent(activities: seq<Option<Item>>, id: string)
    ensures LastDistinctive(activities, id).Some? ==>
      LastOf(activities, id).Some? && Distinctive(LastDistinctive(activities, id).value)
    ensures LastOf(activities, id).Some? && Distinctive(LastOf(activities, id).value.policy) ==>
      LastDistinctive(activities, id) == Some(LastOf(activities, id).value.policy)
  {
    if activities != [] {
      DistinctiveHasEvent(activities[..|activities| - 1], id);
    }
  }

  /** Once distinctive, an id stays distinctive whatever follows. */
  lemma {:induction false} DistinctiveStays(activities: seq<Option<Item>>, more: seq<Option<Item>>, id: string)
    requires LastDistinctive(activities, id).Some?
    ensures LastDistinctive(activities + more, id).Some?
    ensures Shown(Live(activities + more), id).Some?
    ensures Distinctive(Shown(Live(activities + more), id).value.policy)
    decreases |more|
  {
    if more == [] {
      assert activities + more == activities;
    } else {
      var init, last := more[..|more| - 1], more[|more| - 1];
      var all := activities + more;
      assert all[..|all| - 1] == activities + init && all[|all| - 1] == last;
      DistinctiveStays(activities, init, id);
    }
    LiveShowsExpected(activities + more, id);
    DistinctiveHasEvent(activities + more, id);
  }

  // ---------- the order ----------

  function IdsOf(items: seq<Item>): (r: seq<string>) {
    Map((item: Item) => item.id, items)
  }

  /** The ids in the order in which they first appear. */
  function FirstSeen(activities: seq<Option<Item>>): (r: seq<string>) {
    if activities == [] then []
    else
      var before, last := FirstSeen(activities[..|activities| - 1]), activities[|activities| - 1];
      if last.Some? && last.value.id !in before then before + [last.value.id] else before
  }

  lemma IdsStep(items: seq<Item>, activity: Item)
    ensures IdsOf(LiveStep(items, Some(activity)))
         == if activity.id in IdsOf(items) then IdsOf(items) else IdsOf(items) + [activity.id]
  {
    var i := FindIndex(items, activity.id);
    if i >= 0 {
      assert IdsOf(items)[i] == activity.id;
      assert IdsOf(Map(MergeInto(activity), items)) == IdsOf(items);
    }
  }

  /** Entries stand in the order in which their ids first appeared; later events do not move them. */
  lemma {:induction false} LiveInOrder(activities: seq<Option<Item>>)
    ensures IdsOf(Live(activities)) == FirstSeen(activities)
  {
    if activities != [] {
      var init, last := activities[..|activities| - 1], activities[|activities| - 1];
      LiveInOrder(init);
      if last.Some? {
        IdsStep(Live(init), last.value);
      }
    }
  }

  // ---------- the on-screen list ----------

  class LiveList {
    var items: seq<Item>

    constructor ()
      ensures items == Live([])
    {
      items := [];
    }

    method OnActivity(activity: Option<Item>, ghost history: seq<Option<Item>>)
      requires items == Live(history)
      modifies this
      ensures items == Live(history + [activity])
    {
      assert (history + [activity])[..|history|] == history;
      if activity.None? {
        return;
      }
      var index := FindIndex(items, activity.value.id);
      if index < 0 {
        items := items + [activity.value];
      } else {
        items := Map(MergeInto(activity.value), items);
      }
    }
  }
}
