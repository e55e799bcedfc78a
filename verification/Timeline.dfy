/** Laying activity entries between the assistant messages of a conversation: each entry goes
    to the first assistant message that is not older, the rest stays pending. */
module Timeline {
  import opened Seqs
  import opened Wrappers

  datatype Role = User | Assistant | Tool

  datatype Message = Message(id: string, role: Role, createdAt: int)

  datatype Entry = Entry(id: string, createdAt: int)

  // ---------- windows ----------

  predicate After(previous: Option<int>, t: int) {
    previous.None? || t > previous.value
  }

  function InWindow(previous: Option<int>, at: int): (r: Entry -> bool) {
    (e: Entry) => After(previous, e.createdAt) && e.createdAt <= at
  }

  function Later(previous: Option<int>): (r: Entry -> bool) {
    (e: Entry) => After(previous, e.createdAt)
  }

  /** The time of the last assistant message. */
  function LastAssistantAt(messages: seq<Message>): (r: Option<int>) {
    if messages == [] then None
    else
      var last := messages[|messages| - 1];
      if last.role == Assistant then Some(last.createdAt) else LastAssistantAt(messages[..|messages| - 1])
  }

  function Bucket(messages: seq<Message>, entries: seq<Entry>): (r: seq<Entry>)
    requires messages != []
  {
    var last := messages[|messages| - 1];
    Filter(InWindow(LastAssistantAt(messages[..|messages| - 1]), last.createdAt), entries)
  }

  function Buckets(messages: seq<Message>, entries: seq<Entry>): (r: map<string, seq<Entry>>) {
    if messages == [] then map[]
    else
      var before := Buckets(messages[..|messages| - 1], entries);
      var last := messages[|messages| - 1];
      if last.role == Assistant && Bucket(messages, entries) != []
      then before[last.id := Bucket(messages, entries)] else before
  }

  function Pending(messages: seq<Message>, entries: seq<Entry>): (r: seq<Entry>) {
    Filter(Later(LastAssistantAt(messages)), entries)
  }

  // ---------- the loops ----------

  method SplitByMessage(messages: seq<Message>, entries: seq<Entry>)
      returns (buckets: map<string, seq<Entry>>, pending: seq<Entry>)
    ensures buckets == Buckets(messages, entries) && pending == Pending(messages, entries)
  {
    buckets := map[];
    var previousAssistantAt: Option<int> := None;
    for i := 0 to |messages|
      invariant buckets == Buckets(messages[..i], entries)
      invariant previousAssistantAt == LastAssistantAt(messages[..i])
    {
      var message := messages[i];
      assert messages[..i + 1][..i] == messages[..i];
      if message.role != Assistant {
        continue;
      }
      var bucket := FillBucket(entries, previousAssistantAt, message.createdAt);
      if |bucket| > 0 {
        buckets := buckets[message.id := bucket];
      }
      previousAssistantAt := Some(message.createdAt);
    }
    assert messages[..|messages|] == messages;
    pending := Filter(Later(previousAssistantAt), entries);
  }

  method FillBucket(entries: seq<Entry>, previous: Option<int>, at: int) returns (bucket: seq<Entry>)
    ensures bucket == Filter(InWindow(previous, at), entries)
  {
    bucket := [];
    for i := 0 to |entries|
      invariant bucket == Filter(InWindow(previous, at), entries[..i])
    {
      var entry := entries[i];
      assert entries[..i + 1] == entries[..i] + [entry];
      FilterAppend(InWindow(previous, at), entries[..i], [entry]);
      if After(previous, entry.createdAt) && entry.createdAt <= at {
        bucket := bucket + [entry];
      }
    }
    assert entries[..|entries|] == entries;
  }

  // ---------- the partition ----------

  ghost predicate AssistantsInOrder(messages: seq<Message>) {
    forall i, j :: 0 <= i < j < |messages| && messages[i].role == Assistant && messages[j].role == Assistant ==>
      messages[i].createdAt <= messages[j].createdAt
  }

  ghost predicate AssistantsDistinct(messages: seq<Message>) {
    forall i, j :: 0 <= i < j < |messages| && messages[i].role == Assistant && messages[j].role == Assistant ==>
      messages[i].id != messages[j].id
  }

  ghost predicate InOrder(entries: seq<Entry>) {
    forall i, j :: 0 <= i < j < |entries| ==> entries[i].createdAt <= entries[j].createdAt
  }

  function Lookup(buckets: map<string, seq<Entry>>, id: string): (r: seq<Entry>) {
    if id in buckets then buckets[id] else []
  }

  /** The entries as a reader meets them: the bucket of every assistant message in turn. */
  function Laid(buckets: map<string, seq<Entry>>, messages: seq<Message>): (r: seq<Entry>) {
    if messages == [] then []
    else
      var last := messages[|messages| - 1];
      Laid(buckets, messages[..|messages| - 1]) + (if last.role == Assistant then Lookup(buckets, last.id) else [])
  }

  lemma {:induction false} LastIsLatest(messages: seq<Message>, m: Message)
    requires AssistantsInOrder(messages + [m]) && m.role == Assistant
    ensures LastAssistantAt(messages).Some? ==> LastAssistantAt(messages).value <= m.createdAt
  {
    if messages != [] {
      var init, last := messages[..|messages| - 1], messages[|messages| - 1];
      var all := messages + [m];
      if last.role == Assistant {
        assert all[|messages| - 1] == last && all[|messages|] == m;
      } else {
        var shorter := init + [m];
        assert forall i :: 0 <= i < |init| ==> shorter[i] == all[i];
        assert shorter[|init|] == all[|messages|];
        LastIsLatest(init, m);
      }
    }
  }

  lemma {:induction false} WindowSplitsInOrder(previous: Option<int>, at: int, entries: seq<Entry>)
    requires InOrder(entries) && (previous.Some? ==> previous.value <= at)
    ensures Filter(InWindow(previous, at), entries) + Filter(Later(Some(at)), entries)
            == Filter(Later(previous), entries)
  {
    if entries != [] {
      assert InOrder(entries[1..]);
      WindowSplitsInOrder(previous, at, entries[1..]);
      if entries[0].createdAt > at {
        assert forall e :: e in entries ==> e.createdAt > at;
        FilterNone(InWindow(previous, at), entries);
        FilterSame(Later(Some(at)), Later(previous), entries);
        assert [] + Filter(Later(previous), entries) == Filter(Later(previous), entries);
      }
    }
  }

  lemma {:induction false} KeysAreAssistants(messages: seq<Message>, entries: seq<Entry>, id: string)
    requires id in Buckets(messages, entries)
    ensures exists i :: 0 <= i < |messages| && messages[i].role == Assistant && messages[i].id == id
  {
    var init, last := messages[..|messages| - 1], messages[|messages| - 1];
    if last.role == Assistant && last.id == id {
      assert messages[|messages| - 1].role == Assistant;
    } else {
      KeysAreAssistants(init, entries, id);
      var i :| 0 <= i < |init| && init[i].role == Assistant && init[i].id == id;
      assert messages[i] == init[i];
    }
  }

  lemma {:induction false} LaidIgnores(buckets: map<string, seq<Entry>>, messages: seq<Message>, id: string,
                                       bucket: seq<Entry>)
    requires forall i :: 0 <= i < |messages| && messages[i].role == Assistant ==> messages[i].id != id
    ensures Laid(buckets[id := bucket], messages) == Laid(buckets, messages)
  {
    if messages != [] {
      LaidIgnores(buckets, messages[..|messages| - 1], id, bucket);
    }
  }

  /** One more message lays exactly its own bucket after the others. */
  lemma LaidStep(messages: seq<Message>, entries: seq<Entry>)
    requires messages != [] && AssistantsDistinct(messages)
    ensures var init, last := messages[..|messages| - 1], messages[|messages| - 1];
            Laid(Buckets(messages, entries), messages)
            == Laid(Buckets(init, entries), init) + (if last.role == Assistant then Bucket(messages, entries) else [])
  {
    var init, last := messages[..|messages| - 1], messages[|messages| - 1];
    if last.role == Assistant {
      assert forall i :: 0 <= i < |init| ==> init[i] == messages[i];
      if last.id in Buckets(init, entries) {
        KeysAreAssistants(init, entries, last.id);
        assert false;
      }
      LaidIgnores(Buckets(init, entries), init, last.id, Bucket(messages, entries));
    }
  }

  /** Every entry is in exactly one bucket, or pending, as often as it was given. */
  ghost predicate Partitioned(messages: seq<Message>, entries: seq<Entry>) {
    multiset(Laid(Buckets(messages, entries), messages)) + multiset(Pending(messages, entries)) == multiset(entries)
  }

  /** From an assistant message at `x` or later back to one before `x`. */
  predicate BackOver(init: seq<Message>, last: Message, x: int) {
    last.role == Assistant && last.createdAt < x && !After(LastAssistantAt(init), x)
  }

  function StepsBack(messages: seq<Message>, x: int): (r: nat) {
    if messages == [] then 0
    else
      var init, last := messages[..|messages| - 1], messages[|messages| - 1];
      StepsBack(init, x) + (if BackOver(init, last, x) then 1 else 0)
  }

  lemma {:induction false} FilterCount(keep: Entry -> bool, entries: seq<Entry>, e: Entry)
    ensures multiset(Filter(keep, entries))[e] == if keep(e) then multiset(entries)[e] else 0
  {
    if entries != [] {
      FilterCount(keep, entries[1..], e);
      assert entries == [entries[0]] + entries[1..];
    }
  }

  function Shown(messages: seq<Message>, entries: seq<Entry>, e: Entry): (r: nat) {
    multiset(Laid(Buckets(messages, entries), messages))[e] + multiset(Pending(messages, entries))[e]
  }

  lemma ShownStep(messages: seq<Message>, entries: seq<Entry>, e: Entry)
    requires messages != [] && AssistantsDistinct(messages)
    ensures var init, last := messages[..|messages| - 1], messages[|messages| - 1];
            Shown(messages, entries, e)
            == Shown(init, entries, e) + (if BackOver(init, last, e.createdAt) then multiset(entries)[e] else 0)
  {
    var init, last := messages[..|messages| - 1], messages[|messages| - 1];
    LaidStep(messages, entries);
    FilterCount(Later(LastAssistantAt(init)), entries, e);
    FilterCount(Later(LastAssistantAt(messages)), entries, e);
    if last.role == Assistant {
      FilterCount(InWindow(LastAssistantAt(init), last.createdAt), entries, e);
    }
  }

  lemma ShownNone(entries: seq<Entry>, e: Entry)
    ensures Shown([], entries, e) == multiset(entries)[e]
  {
    FilterCount(Later(None), entries, e);
  }

  /** An entry is shown at least once, and more than once exactly if there is a step back over
      its time. */
  lemma {:induction false} ShownCount(messages: seq<Message>, entries: seq<Entry>, e: Entry, n: nat)
    requires AssistantsDistinct(messages) && n == multiset(entries)[e]
    ensures Shown(messages, entries, e) >= n
    ensures Shown(messages, entries, e) == n <==> n == 0 || StepsBack(messages, e.createdAt) == 0
  {
    if messages == [] {
      ShownNone(entries, e);
    } else {
      ShownCount(messages[..|messages| - 1], entries, e, n);
      ShownStep(messages, entries, e);
    }
  }

  /** Of two assistant messages the later one is older than `x`, the earlier one is not. */
  ghost predicate Straddled(messages: seq<Message>, x: int) {
    exists i, j :: 0 <= i < j < |messages| && messages[i].role == Assistant && messages[j].role == Assistant
                   && messages[j].createdAt < x <= messages[i].createdAt
  }

  /** Some assistant message is not older than `x`. */
  ghost predicate Reached(messages: seq<Message>, x: int) {
    exists i :: 0 <= i < |messages| && messages[i].role == Assistant && x <= messages[i].createdAt
  }

  lemma StraddledStep(init: seq<Message>, last: Message, x: int)
    ensures Straddled(init + [last], x)
       <==> Straddled(init, x) || (last.role == Assistant && last.createdAt < x && Reached(init, x))
    ensures Reached(init + [last], x) <==> Reached(init, x) || (last.role == Assistant && x <= last.createdAt)
  {
    var all := init + [last];
    assert all[|init|] == last && forall i :: 0 <= i < |init| ==> all[i] == init[i];
    if Straddled(init, x) {
      var i, j :| 0 <= i < j < |init| && init[i].role == Assistant && init[j].role == Assistant
                  && init[j].createdAt < x <= init[i].createdAt;
      assert all[i] == init[i] && all[j] == init[j];
    }
    if Reached(init, x) {
      var i :| 0 <= i < |init| && init[i].role == Assistant && x <= init[i].createdAt;
      assert all[i] == init[i];
    }
  }

  lemma {:induction false} StepsBackExactly(messages: seq<Message>, x: int)
    ensures StepsBack(messages, x) > 0 <==> Straddled(messages, x)
    ensures Reached(messages, x) <==> !After(LastAssistantAt(messages), x) || Straddled(messages, x)
  {
    if messages != [] {
      var init, last := messages[..|messages| - 1], messages[|messages| - 1];
      assert messages == init + [last];
      StepsBackExactly(init, x);
      StraddledStep(init, last, x);
    }
  }

  /** For any messages and entries: the buckets and the pending list hold every entry exactly
      once if and only if no entry's time is straddled by assistant messages out of order. */
  lemma PartitionedExactly(messages: seq<Message>, entries: seq<Entry>)
    requires AssistantsDistinct(messages)
    ensures Partitioned(messages, entries) <==> forall e :: e in entries ==> !Straddled(messages, e.createdAt)
  {
    forall e
      ensures Shown(messages, entries, e) == multiset(entries)[e]
         <==> (e in entries ==> !Straddled(messages, e.createdAt))
    {
      ShownCount(messages, entries, e, multiset(entries)[e]);
      StepsBackExactly(messages, e.createdAt);
      assert e in entries <==> multiset(entries)[e] > 0;
    }
    ShownDecides(messages, entries);
  }

  lemma ShownDecides(messages: seq<Message>, entries: seq<Entry>)
    ensures Partitioned(messages, entries) <==> forall e :: Shown(messages, entries, e) == multiset(entries)[e]
  {
    var shown := multiset(Laid(Buckets(messages, entries), messages)) + multiset(Pending(messages, entries));
    assert forall e :: shown[e] == Shown(messages, entries, e);
  }

  /** Whatever entries come, they are partitioned, if and only if the assistant messages are in
      time order. */
  lemma SplitIsPartition(messages: seq<Message>)
    requires AssistantsDistinct(messages)
    ensures (forall entries :: Partitioned(messages, entries)) <==> AssistantsInOrder(messages)
  {
    if AssistantsInOrder(messages) {
      forall entries ensures Partitioned(messages, entries) { PartitionedExactly(messages, entries); }
    } else {
      var entry := Misplaced(messages);
    }
  }

  /** If the entries are in time order as well, reading bucket after bucket and then the
      pending list gives back the entries in their own order. */
  lemma {:induction false} SplitKeepsOrder(messages: seq<Message>, entries: seq<Entry>)
    requires AssistantsInOrder(messages) && AssistantsDistinct(messages) && InOrder(entries)
    ensures Laid(Buckets(messages, entries), messages) + Pending(messages, entries) == entries
  {
    if messages == [] {
      FilterAll(Later(None), entries);
    } else {
      var init, last := messages[..|messages| - 1], messages[|messages| - 1];
      assert messages == init + [last];
      SplitKeepsOrder(init, entries);
      LaidStep(messages, entries);
      if last.role == Assistant {
        LastIsLatest(init, last);
        WindowSplitsInOrder(LastAssistantAt(init), last.createdAt, entries);
      }
    }
  }

  /** Time-ordered entries keep their order, whatever they are, if and only if the assistant
      messages are in time order. */
  lemma OrderKeptExactly(messages: seq<Message>)
    requires AssistantsDistinct(messages)
    ensures (forall entries :: InOrder(entries) ==>
               Laid(Buckets(messages, entries), messages) + Pending(messages, entries) == entries)
        <==> AssistantsInOrder(messages)
  {
    if AssistantsInOrder(messages) {
      forall entries | InOrder(entries)
        ensures Laid(Buckets(messages, entries), messages) + Pending(messages, entries) == entries
      {
        SplitKeepsOrder(messages, entries);
      }
    } else {
      var entry := Misplaced(messages);
      assert InOrder([entry]);
    }
  }

  /** An entry that is not shown exactly once. */
  lemma Misplaced(messages: seq<Message>) returns (entry: Entry)
    requires AssistantsDistinct(messages) && !AssistantsInOrder(messages)
    ensures !Partitioned(messages, [entry])
  {
    var i, j :| 0 <= i < j < |messages| && messages[i].role == Assistant && messages[j].role == Assistant
                && messages[i].createdAt > messages[j].createdAt;
    entry := Entry("", messages[i].createdAt);
    assert entry in [entry] && Straddled(messages, entry.createdAt);
    PartitionedExactly(messages, [entry]);
  }

  // ---------- which bucket ----------

  /** Every assistant message before position `i` is older than `x`. */
  ghost predicate AllOlder(messages: seq<Message>, i: nat, x: int)
    requires i <= |messages|
  {
    forall j :: 0 <= j < i && messages[j].role == Assistant ==> messages[j].createdAt < x
  }

  lemma {:induction false} LaterExactly(messages: seq<Message>, x: int)
    requires AssistantsInOrder(messages)
    ensures After(LastAssistantAt(messages), x) <==> AllOlder(messages, |messages|, x)
  {
    if messages != [] {
      var init, last := messages[..|messages| - 1], messages[|messages| - 1];
      assert forall j :: 0 <= j < |init| ==> init[j] == messages[j];
      LaterExactly(init, x);
    }
  }

  lemma {:induction false} BucketIs(messages: seq<Message>, entries: seq<Entry>, i: nat)
    requires i < |messages| && messages[i].role == Assistant && AssistantsDistinct(messages)
    ensures Lookup(Buckets(messages, entries), messages[i].id) == Bucket(messages[..i + 1], entries)
  {
    var init, last := messages[..|messages| - 1], messages[|messages| - 1];
    if i == |messages| - 1 {
      assert messages[..i + 1] == messages;
      if last.id in Buckets(init, entries) {
        KeysAreAssistants(init, entries, last.id);
        assert false;
      }
    } else {
      assert init[i] == messages[i] && init[..i + 1] == messages[..i + 1];
      BucketIs(init, entries, i);
    }
  }

  /** An entry lies in the bucket of the first assistant message that is not older than it. */
  lemma BucketExactly(messages: seq<Message>, entries: seq<Entry>, i: nat, e: Entry)
    requires i < |messages| && messages[i].role == Assistant
    requires AssistantsDistinct(messages) && AssistantsInOrder(messages)
    ensures e in Lookup(Buckets(messages, entries), messages[i].id)
       <==> e in entries && e.createdAt <= messages[i].createdAt && AllOlder(messages, i, e.createdAt)
  {
    BucketIs(messages, entries, i);
    var upTo := messages[..i + 1];
    assert upTo[..i] == messages[..i] && upTo[i] == messages[i];
    LaterExactly(messages[..i], e.createdAt);
    FilterMembers(InWindow(LastAssistantAt(messages[..i]), messages[i].createdAt), entries);
  }

  /** And it is pending if and only if every assistant message is older. */
  lemma PendingExactly(messages: seq<Message>, entries: seq<Entry>, e: Entry)
    requires AssistantsInOrder(messages)
    ensures e in Pending(messages, entries) <==> e in entries && AllOlder(messages, |messages|, e.createdAt)
  {
    LaterExactly(messages, e.createdAt);
    FilterMembers(Later(LastAssistantAt(messages)), entries);
  }

  /** Out of time order the same entry can be shown under two messages. */
  lemma OutOfOrderShowsTwice()
    ensures var messages := [Message("a", Assistant, 5), Message("b", Assistant, 1), Message("c", Assistant, 6)];
            var entries := [Entry("e", 3)];
            && Lookup(Buckets(messages, entries), "a") == entries
            && Lookup(Buckets(messages, entries), "c") == entries
  {
    var a, b, c := Message("a", Assistant, 5), Message("b", Assistant, 1), Message("c", Assistant, 6);
    var entries := [Entry("e", 3)];
    assert [a, b, c][..2] == [a, b] && [a, b][..1] == [a] && [a][..0] == [];
    assert Bucket([a], entries) == entries;
    assert Bucket([a, b], entries) == [];
    assert Bucket([a, b, c], entries) == entries;
    assert Buckets([a], entries) == map["a" := entries];
    assert Buckets([a, b], entries) == map["a" := entries];
  }
}
