/** The daily reading tracker: clicks and bookmarks collected in one moment per user and day. */
module Reading {
  import opened Options
  import opened GraphEdges

  datatype Action = Click | Bookmark | Unbookmark

  datatype Resource = Resource(name: string, tags: seq<string>, bookmarkedBy: seq<string>)

  datatype Item = Item(resource: string, title: string, tags: seq<string>, action: Action)

  datatype Moment = Moment(items: seq<Item>, resourceCount: nat, edges: seq<Edge>, topicTags: seq<string>)

  /** The moment's id is derived from the user and the day. */
  datatype DayKey = DayKey(user: string, day: nat)

  datatype Tables = Tables(resources: map<string, Resource>, moments: map<DayKey, Moment>)

  datatype Call = Call(user: Option<string>, resource: string, action: Action, day: nat)

  datatype Reply = Unauthorized | NotFound | Unbookmarked | Duplicate | Updated | Added(count: nat) | Created

  // ----- Lists

  /** The position of the first item for the resource. */
  function IndexOf(items: seq<Item>, resource: string): (r: Option<nat>)
    ensures r.Some? ==> r.value < |items| && items[r.value].resource == resource
    ensures r.Some? ==> forall k :: 0 <= k < r.value ==> items[k].resource != resource
    ensures r.None? ==> forall k :: 0 <= k < |items| ==> items[k].resource != resource
  {
    if items == [] then None
    else
      var init, last := items[..|items| - 1], |items| - 1;
      var earlier := IndexOf(init, resource);
      if earlier.Some? then earlier
      else if items[last].resource == resource then Some(last) else None
  }

  function AllTags(items: seq<Item>): seq<string> {
    if items == [] then [] else AllTags(items[..|items| - 1]) + items[|items| - 1].tags
  }

  /** Removes the first occurrence. */
  function Without(users: seq<string>, user: string): seq<string> {
    if users == [] then []
    else if users[0] == user then users[1..]
    else [users[0]] + Without(users[1..], user)
  }

  // ----- One call

  function Marked(r: Resource, user: string, action: Action): Resource {
    match action
    case Unbookmark => r.(bookmarkedBy := Without(r.bookmarkedBy, user))
    case Bookmark => if user in r.bookmarkedBy then r else r.(bookmarkedBy := r.bookmarkedBy + [user])
    case Click => r
  }

  function ReadEdge(r: Resource): Edge {
    Edge(Some(r.name), Some("read"), Some(1.0))
  }

  function NewItem(c: Call, r: Resource): Item {
    Item(c.resource, r.name, r.tags, c.action)
  }

  function Opened(c: Call, r: Resource): Moment {
    Moment([NewItem(c, r)], 1, [ReadEdge(r)], r.tags)
  }

  function Extended(m: Moment, c: Call, r: Resource): Moment {
    var items := m.items + [NewItem(c, r)];
    Moment(items, |items|, Merge(m.edges, [ReadEdge(r)]), FirstOccurrences(AllTags(items)))
  }

  function Touched(m: Moment, c: Call, r: Resource): Moment {
    var at := IndexOf(m.items, c.resource);
    if at.Some? then m.(items := m.items[at.value := m.items[at.value].(action := c.action)])
    else Extended(m, c, r)
  }

  predicate Accepted(t: Tables, c: Call) {
    c.user.Some? && c.resource in t.resources
  }

  function After(t: Tables, c: Call): Tables {
    if !Accepted(t, c) then t
    else
      var r, key := t.resources[c.resource], DayKey(c.user.value, c.day);
      var marked := t.(resources := t.resources[c.resource := Marked(r, c.user.value, c.action)]);
      if c.action == Unbookmark then marked
      else
        marked.(moments := t.moments[key := if key in t.moments then Touched(t.moments[key], c, r) else Opened(c, r)])
  }

  function Run(t: Tables, calls: seq<Call>): Tables {
    if calls == [] then t else After(Run(t, calls[..|calls| - 1]), calls[|calls| - 1])
  }

  function ReplyTo(t: Tables, c: Call): Reply {
    if c.user.None? then Unauthorized
    else if c.resource !in t.resources then NotFound
    else if c.action == Unbookmark then Unbookmarked
    else
      var key := DayKey(c.user.value, c.day);
      if key !in t.moments then Created
      else
        var items := t.moments[key].items;
        var at := IndexOf(items, c.resource);
        if at.None? then Added(|items| + 1)
        else if items[at.value].action == c.action then Duplicate else Updated
  }

  /** The service with its two tables. */
  class ReadingTracker {
    var resources: map<string, Resource>
    var moments: map<DayKey, Moment>

    function State(): Tables
      reads this
    {
      Tables(resources, moments)
    }

    constructor (t: Tables)
      ensures State() == t
    {
      resources, moments := t.resources, t.moments;
    }

    method FindItem(items: seq<Item>, resource: string) returns (at: Option<nat>)
      ensures at == IndexOf(items, resource)
    {
      for k := 0 to |items|
        invariant forall j :: 0 <= j < k ==> items[j].resource != resource
      {
        if items[k].resource == resource { return Some(k); }
      }
      return None;
    }

    method CollectTags(items: seq<Item>) returns (tags: seq<string>)
      ensures tags == FirstOccurrences(AllTags(items))
    {
      var all := [];
      for k := 0 to |items|
        invariant all == AllTags(items[..k])
      {
        assert items[..k + 1][..k] == items[..k];
        all := all + items[k].tags;
      }
      assert items[..|items|] == items;
      tags := FirstOccurrences(all);
    }

    method Mark(c: Call)
      requires Accepted(State(), c)
      modifies this`resources
      ensures resources == old(resources)[c.resource := Marked(old(resources)[c.resource], c.user.value, c.action)]
    {
      var r := resources[c.resource];
      if c.action == Unbookmark {
        if c.user.value in r.bookmarkedBy {
          resources := resources[c.resource := r.(bookmarkedBy := Without(r.bookmarkedBy, c.user.value))];
        } else {
          WithoutAbsent(r.bookmarkedBy, c.user.value);
        }
      }
      if c.action == Bookmark {
        if c.user.value !in r.bookmarkedBy {
          resources := resources[c.resource := r.(bookmarkedBy := r.bookmarkedBy + [c.user.value])];
        }
      }
    }

    /** `record_reading`. */
    method RecordReading(c: Call) returns (reply: Reply)
      modifies this
      ensures State() == After(old(State()), c)
      ensures reply == ReplyTo(old(State()), c)
    {
      if c.user.None? { return Unauthorized; }
      if c.resource !in resources { return NotFound; }
      var r := resources[c.resource];
      Mark(c);
      if c.action == Unbookmark { return Unbookmarked; }
      var key := DayKey(c.user.value, c.day);
      if key in moments {
        var m := moments[key];
        var at := FindItem(m.items, c.resource);
        if at.Some? {
          var item := m.items[at.value];
          if item.action == c.action {
            assert m.items[at.value := item] == m.items;
            assert moments[key := m] == moments;
            return Duplicate;
          }
          moments := moments[key := m.(items := m.items[at.value := item.(action := c.action)])];
          return Updated;
        }
        var items := m.items + [NewItem(c, r)];
        var edges := MergeGraphEdges(m.edges, [ReadEdge(r)]);
        var tags := CollectTags(items);
        moments := moments[key := Moment(items, |items|, edges, tags)];
        return Added(|items|);
      }
      moments := moments[key := Moment([NewItem(c, r)], 1, [ReadEdge(r)], r.tags)];
      return Created;
    }
  }

  lemma {:induction false} WithoutAbsent(users: seq<string>, user: string)
    requires user !in users
    ensures Without(users, user) == users
  {
    if users != [] { WithoutAbsent(users[1..], user); }
  }

  // ----- What every call keeps

  ghost predicate DistinctUsers(users: seq<string>) {
    forall i, j :: 0 <= i < j < |users| ==> users[i] != users[j]
  }

  ghost predicate DistinctItems(items: seq<Item>) {
    forall i, j :: 0 <= i < j < |items| ==> items[i].resource != items[j].resource
  }

  ghost predicate HasTag(items: seq<Item>, tag: string) {
    exists i :: 0 <= i < |items| && tag in items[i].tags
  }

  ghost predicate HasTitle(items: seq<Item>, title: string) {
    exists i :: 0 <= i < |items| && items[i].title == title
  }

  /** The tags are those of the items. */
  ghost predicate TagsMatch(m: Moment) {
    forall t :: t in m.topicTags <==> HasTag(m.items, t)
  }

  /** The "read" edges lead to the titles of the items. */
  ghost predicate EdgesMatch(m: Moment) {
    && Distinct(Keys(m.edges))
    && forall title :: Key(title, "read") in Keys(m.edges) <==> HasTitle(m.items, title)
  }

  ghost predicate Sound(m: Moment) {
    DistinctItems(m.items) && m.resourceCount == |m.items| && TagsMatch(m) && EdgesMatch(m)
  }

  ghost predicate Valid(t: Tables) {
    && (forall key :: key in t.moments ==> Sound(t.moments[key]))
    && (forall id :: id in t.resources ==> DistinctUsers(t.resources[id].bookmarkedBy))
  }

  lemma {:induction false} FirstOccurrencesMembers<T>(s: seq<T>, x: T)
    ensures x in FirstOccurrences(s) <==> x in s
  {
    if s != [] {
      assert s == s[..|s| - 1] + [s[|s| - 1]];
      FirstOccurrencesMembers(s[..|s| - 1], x);
    }
  }

  lemma HasTagMore(items: seq<Item>, item: Item, tag: string)
    ensures HasTag(items + [item], tag) <==> HasTag(items, tag) || tag in item.tags
  {
    assert (items + [item])[|items|] == item;
    if HasTag(items, tag) {
      var i :| 0 <= i < |items| && tag in items[i].tags;
      assert (items + [item])[i] == items[i];
    }
  }

  lemma HasTitleMore(items: seq<Item>, item: Item, title: string)
    ensures HasTitle(items + [item], title) <==> HasTitle(items, title) || title == item.title
  {
    assert (items + [item])[|items|] == item;
    if HasTitle(items, title) {
      var i :| 0 <= i < |items| && items[i].title == title;
      assert (items + [item])[i] == items[i];
    }
  }

  lemma {:induction false} AllTagsMembers(items: seq<Item>, tag: string)
    ensures tag in AllTags(items) <==> HasTag(items, tag)
  {
    if items != [] {
      var init, last := items[..|items| - 1], items[|items| - 1];
      assert items == init + [last];
      AllTagsMembers(init, tag);
      HasTagMore(init, last, tag);
    }
  }

  lemma MergeMembers(edges: seq<Edge>, e: Edge, k: Key)
    ensures k in Keys(Merge(edges, [e])) <==> k in Keys(edges) || k == KeyOf(e)
  {
    MergeKeepsFirstHeaviest(edges, [e]);
    FirstOccurrencesMembers(Keys(edges + [e]), k);
    assert Keys(edges + [e]) == Keys(edges) + [KeyOf(e)];
  }

  lemma CreatedIsSound(c: Call, r: Resource)
    ensures Sound(Opened(c, r))
  {
    var m := Opened(c, r);
    assert m.items[0].tags == r.tags && m.items[0].title == r.name;
    assert Keys(m.edges)[0] == Key(r.name, "read");
  }

  lemma ExtendedIsSound(m: Moment, c: Call, r: Resource)
    requires Sound(m) && IndexOf(m.items, c.resource).None?
    ensures Sound(Extended(m, c, r))
  {
    var m', item := Extended(m, c, r), NewItem(c, r);
    forall t ensures t in m'.topicTags <==> HasTag(m'.items, t) {
      FirstOccurrencesMembers(AllTags(m'.items), t);
      AllTagsMembers(m'.items, t);
    }
    forall title ensures Key(title, "read") in Keys(m'.edges) <==> HasTitle(m'.items, title) {
      MergeMembers(m.edges, ReadEdge(r), Key(title, "read"));
      HasTitleMore(m.items, item, title);
    }
    MergeKeepsFirstHeaviest(m.edges, [ReadEdge(r)]);
  }

  lemma UpdatedIsSound(m: Moment, at: nat, action: Action)
    requires Sound(m) && at < |m.items|
    ensures Sound(m.(items := m.items[at := m.items[at].(action := action)]))
  {
    var m' := m.(items := m.items[at := m.items[at].(action := action)]);
    assert forall i :: 0 <= i < |m.items| ==> m'.items[i] == m.items[i].(action := m'.items[i].action);
    assert forall t :: HasTag(m'.items, t) <==> HasTag(m.items, t);
    assert forall t :: HasTitle(m'.items, t) <==> HasTitle(m.items, t);
  }

  lemma {:induction false} WithoutMembers(users: seq<string>, user: string)
    requires DistinctUsers(users)
    ensures DistinctUsers(Without(users, user))
    ensures forall u :: u in Without(users, user) <==> u in users && u != user
  {
    if users != [] {
      var rest := users[1..];
      assert users == [users[0]] + rest;
      assert forall i :: 0 <= i < |rest| ==> rest[i] == users[i + 1];
      assert users[0] !in rest && DistinctUsers(rest);
      WithoutMembers(rest, user);
    }
  }

  lemma MarkedMembers(r: Resource, user: string, action: Action)
    requires DistinctUsers(r.bookmarkedBy)
    ensures DistinctUsers(Marked(r, user, action).bookmarkedBy)
    ensures forall u :: u in Marked(r, user, action).bookmarkedBy <==>
                        if u != user || action == Click then u in r.bookmarkedBy else action == Bookmark
  {
    WithoutMembers(r.bookmarkedBy, user);
  }

  lemma AfterIsValid(t: Tables, c: Call)
    requires Valid(t)
    ensures Valid(After(t, c))
  {
    if Accepted(t, c) {
      var r, key := t.resources[c.resource], DayKey(c.user.value, c.day);
      MarkedMembers(r, c.user.value, c.action);
      if c.action != Unbookmark {
        if key in t.moments {
          var m := t.moments[key];
          var at := IndexOf(m.items, c.resource);
          if at.Some? { UpdatedIsSound(m, at.value, c.action); } else { ExtendedIsSound(m, c, r); }
        } else {
          CreatedIsSound(c, r);
        }
      }
    }
  }

  /** Over any calls: one item per resource, the count is the number of items, tags and
      "read" edges are those of the items. */
  lemma {:induction false} EveryRunIsValid(t: Tables, calls: seq<Call>)
    requires Valid(t)
    ensures Valid(Run(t, calls))
  {
    if calls != [] {
      EveryRunIsValid(t, calls[..|calls| - 1]);
      AfterIsValid(Run(t, calls[..|calls| - 1]), calls[|calls| - 1]);
    }
  }

  // ----- What a run leaves, said by its calls alone

  lemma ResourcesStayAfter(t: Tables, c: Call)
    ensures After(t, c).resources.Keys == t.resources.Keys
    ensures forall id :: id in t.resources ==>
              After(t, c).resources[id].name == t.resources[id].name &&
              After(t, c).resources[id].tags == t.resources[id].tags
  {
  }

  lemma {:induction false} ResourcesStay(t: Tables, calls: seq<Call>)
    ensures Run(t, calls).resources.Keys == t.resources.Keys
    ensures forall id :: id in t.resources ==>
              id in Run(t, calls).resources.Keys
              && Run(t, calls).resources[id].name == t.resources[id].name
              && Run(t, calls).resources[id].tags == t.resources[id].tags
  {
    if calls != [] {
      ResourcesStay(t, calls[..|calls| - 1]);
      ResourcesStayAfter(Run(t, calls[..|calls| - 1]), calls[|calls| - 1]);
    }
  }

  /** The user's last bookmark or unbookmark of the resource. */
  function LastMark(calls: seq<Call>, user: string, resource: string): Option<Action> {
    if calls == [] then None
    else
      var last := calls[|calls| - 1];
      if last.user == Some(user) && last.resource == resource && last.action != Click then Some(last.action)
      else LastMark(calls[..|calls| - 1], user, resource)
  }

  /** A user is among those who bookmarked a resource exactly if the last of the user's
      marks was a bookmark. */
  lemma {:induction false} BookmarkedIffLastMark(t: Tables, calls: seq<Call>, user: string, resource: string)
    requires Valid(t) && resource in t.resources
    ensures resource in Run(t, calls).resources
    ensures user in Run(t, calls).resources[resource].bookmarkedBy <==>
            var mark := LastMark(calls, user, resource);
            if mark.None? then user in t.resources[resource].bookmarkedBy else mark.value == Bookmark
  {
    ResourcesStay(t, calls);
    if calls != [] {
      var init, last := calls[..|calls| - 1], calls[|calls| - 1];
      BookmarkedIffLastMark(t, init, user, resource);
      EveryRunIsValid(t, init);
      var before := Run(t, init);
      if Accepted(before, last) {
        MarkedMembers(before.resources[last.resource], last.user.value, last.action);
      }
    }
  }

  /** The call clicks or bookmarks something for this user on this day. */
  predicate ReadsOn(c: Call, key: DayKey) {
    c.user == Some(key.user) && c.day == key.day && c.action != Unbookmark
  }

  /** The resources that the user clicked or bookmarked on the day. */
  function Reads(resources: map<string, Resource>, calls: seq<Call>, key: DayKey): seq<string> {
    if calls == [] then []
    else
      var init, last := Reads(resources, calls[..|calls| - 1], key), calls[|calls| - 1];
      if ReadsOn(last, key) && last.resource in resources
      then init + [last.resource] else init
  }

  function LastRead(calls: seq<Call>, key: DayKey, resource: string): Option<Action> {
    if calls == [] then None
    else
      var last := calls[|calls| - 1];
      if ReadsOn(last, key) && last.resource == resource
      then Some(last.action)
      else LastRead(calls[..|calls| - 1], key, resource)
  }

  function ItemsAt(t: Tables, key: DayKey): seq<Item> {
    if key in t.moments then t.moments[key].items else []
  }

  function Ids(items: seq<Item>): (ids: seq<string>)
    ensures |ids| == |items|
    ensures forall i :: 0 <= i < |ids| ==> ids[i] == items[i].resource
  {
    seq(|items|, i requires 0 <= i < |items| => items[i].resource)
  }

  lemma ItemsAfter(t: Tables, c: Call, key: DayKey)
    ensures var items, items' := ItemsAt(t, key), ItemsAt(After(t, c), key);
            if ReadsOn(c, key) && c.resource in t.resources then
              Ids(items') == (if c.resource in Ids(items) then Ids(items) else Ids(items) + [c.resource])
            else items' == items
  {
    var items, items' := ItemsAt(t, key), ItemsAt(After(t, c), key);
    if ReadsOn(c, key) && c.resource in t.resources && key in t.moments {
      var at := IndexOf(items, c.resource);
      if at.Some? {
        assert Ids(items)[at.value] == c.resource;
      } else {
        assert items' == items + [NewItem(c, t.resources[c.resource])];
      }
    }
  }

  /** The moment lists what was read that day, each resource once, in the order of the
      first reads. */
  lemma {:induction false} ItemsAreFirstReads(t: Tables, calls: seq<Call>, key: DayKey)
    requires key !in t.moments
    ensures Ids(ItemsAt(Run(t, calls), key)) == FirstOccurrences(Reads(t.resources, calls, key))
  {
    if calls != [] {
      var init, last := calls[..|calls| - 1], calls[|calls| - 1];
      ItemsAreFirstReads(t, init, key);
      ResourcesStay(t, init);
      ItemsAfter(Run(t, init), last, key);
      var earlier := Reads(t.resources, init, key);
      assert (earlier + [last.resource])[..|earlier|] == earlier;
      FirstOccurrencesMembers(earlier, last.resource);
    }
  }

  /** An item after a call: touched by it, new, or as before. */
  lemma ItemAfter(t: Tables, c: Call, key: DayKey, item: Item) returns (was: Option<Item>)
    requires DistinctItems(ItemsAt(t, key)) && item in ItemsAt(After(t, c), key)
    ensures was.Some? ==> was.value in ItemsAt(t, key) && item == was.value.(action := item.action)
    ensures was.None? ==> c.resource in t.resources && item == NewItem(c, t.resources[c.resource])
    ensures if ReadsOn(c, key) && c.resource == item.resource && c.resource in t.resources
            then item.action == c.action else was == Some(item)
  {
    var items, items' := ItemsAt(t, key), ItemsAt(After(t, c), key);
    if items' == items || item in items {
      was := Some(item);
    } else {
      var at := IndexOf(items, c.resource);
      was := if at.Some? then Some(items[at.value]) else None;
    }
  }

  /** Every item shows the user's last action on its resource, and the resource's own
      name and tags. */
  lemma {:induction false} ItemsShowLastAction(t: Tables, calls: seq<Call>, key: DayKey, item: Item)
    requires Valid(t) && key !in t.moments && item in ItemsAt(Run(t, calls), key)
    ensures item.resource in t.resources
    ensures LastRead(calls, key, item.resource) == Some(item.action)
    ensures item.title == t.resources[item.resource].name && item.tags == t.resources[item.resource].tags
  {
    if calls != [] {
      var init, last := calls[..|calls| - 1], calls[|calls| - 1];
      EveryRunIsValid(t, init);
      ResourcesStay(t, init);
      assert DistinctItems(ItemsAt(Run(t, init), key));
      var was := ItemAfter(Run(t, init), last, key, item);
      if was.Some? {
        ItemsShowLastAction(t, init, key, was.value);
      }
    }
  }

  // ----- Replies, by the calls

  lemma MomentAfter(t: Tables, c: Call, key: DayKey)
    ensures key in After(t, c).moments <==> key in t.moments || (ReadsOn(c, key) && c.resource in t.resources)
    ensures key in t.moments || !(ReadsOn(c, key) && c.resource in t.resources) ==>
              key in After(t, c).moments ==> key in t.moments
  {
  }

  /** There is a moment exactly if something was read. */
  lemma {:induction false} MomentIffRead(t: Tables, calls: seq<Call>, key: DayKey)
    requires key !in t.moments
    ensures key in Run(t, calls).moments <==> Reads(t.resources, calls, key) != []
  {
    if calls != [] {
      var init, last := calls[..|calls| - 1], calls[|calls| - 1];
      MomentIffRead(t, init, key);
      ResourcesStay(t, init);
      MomentAfter(Run(t, init), last, key);
    }
  }

  lemma {:induction false} LastReadIffRead(resources: map<string, Resource>, calls: seq<Call>, key: DayKey,
                                           resource: string)
    requires resource in resources
    ensures LastRead(calls, key, resource).Some? <==> resource in Reads(resources, calls, key)
  {
    if calls != [] { LastReadIffRead(resources, calls[..|calls| - 1], key, resource); }
  }

  /** The answer to the next call: a read of something for the first time that day adds it
      to the day's list, whose length it reports; reading it again is a duplicate exactly if
      the last read of it that day had the same action. */
  function ReplyByCalls(resources: map<string, Resource>, calls: seq<Call>, c: Call): Reply {
    if c.user.None? then Unauthorized
    else if c.resource !in resources then NotFound
    else if c.action == Unbookmark then Unbookmarked
    else
      var key := DayKey(c.user.value, c.day);
      match LastRead(calls, key, c.resource)
      case Some(action) => if action == c.action then Duplicate else Updated
      case None =>
        var read := FirstOccurrences(Reads(resources, calls, key));
        if read == [] then Created else Added(|read| + 1)
  }

  lemma RepliesFollowCalls(t: Tables, calls: seq<Call>, c: Call)
    requires Valid(t) && (c.user.Some? ==> DayKey(c.user.value, c.day) !in t.moments)
    ensures ReplyTo(Run(t, calls), c) == ReplyByCalls(t.resources, calls, c)
  {
    ResourcesStay(t, calls);
    if c.user.Some? && c.resource in t.resources && c.action != Unbookmark {
      var key, after := DayKey(c.user.value, c.day), Run(t, calls);
      var items, done := ItemsAt(after, key), Reads(t.resources, calls, key);
      MomentIffRead(t, calls, key);
      ItemsAreFirstReads(t, calls, key);
      LastReadIffRead(t.resources, calls, key, c.resource);
      FirstOccurrencesMembers(done, c.resource);
      if done != [] { FirstOccurrencesMembers(done, done[0]); }
      ReplyOfItems(t, calls, key, c);
    }
  }

  lemma ReplyOfItems(t: Tables, calls: seq<Call>, key: DayKey, c: Call)
    requires Valid(t) && key !in t.moments && ReadsOn(c, key)
    ensures var at := IndexOf(ItemsAt(Run(t, calls), key), c.resource);
            && (at.Some? <==> c.resource in Ids(ItemsAt(Run(t, calls), key)))
            && (at.Some? ==>
                  LastRead(calls, key, c.resource) == Some(ItemsAt(Run(t, calls), key)[at.value].action))
  {
    var items := ItemsAt(Run(t, calls), key);
    var at := IndexOf(items, c.resource);
    if at.Some? {
      assert Ids(items)[at.value] == c.resource;
      ItemsShowLastAction(t, calls, key, items[at.value]);
    }
  }

  // ----- Edges and tags, by the items

  function ReadKeys(items: seq<Item>): (keys: seq<Key>)
    ensures |keys| == |items|
  {
    seq(|items|, i requires 0 <= i < |items| => Key(items[i].title, "read"))
  }

  /** One edge of weight 1 to each title, in the order of the items, and the tags of the
      items in their order, each once; a first item's tags are taken as they are. */
  ghost predicate FollowsItems(m: Moment) {
    && Keys(m.edges) == FirstOccurrences(ReadKeys(m.items))
    && (forall e :: e in m.edges ==> e.target.Some? && e.relation == Some("read") && e.weight == Some(1.0))
    && m.topicTags == if |m.items| == 1 then m.items[0].tags else FirstOccurrences(AllTags(m.items))
  }

  lemma {:induction false} OccurrencesAgain<T>(s: seq<T>, x: T)
    ensures FirstOccurrences(FirstOccurrences(s) + [x]) == FirstOccurrences(s + [x])
  {
    var once := FirstOccurrences(s);
    assert (once + [x])[..|once|] == once && (s + [x])[..|s|] == s;
    OccurrencesOnce(s);
    FirstOccurrencesMembers(s, x);
  }

  lemma {:induction false} OccurrencesOnce<T>(s: seq<T>)
    ensures FirstOccurrences(FirstOccurrences(s)) == FirstOccurrences(s)
  {
    if s != [] {
      var init, x := s[..|s| - 1], s[|s| - 1];
      OccurrencesOnce(init);
      FirstOccurrencesMembers(init, x);
      if x !in init {
        var once := FirstOccurrences(init);
        assert (once + [x])[..|once|] == once;
      }
    }
  }

  lemma OpenedFollowsItems(c: Call, r: Resource)
    ensures FollowsItems(Opened(c, r))
  {
    var m := Opened(c, r);
    var keys := ReadKeys(m.items);
    assert keys == [Key(r.name, "read")] && Keys(m.edges) == keys;
    assert keys[..0] == [] && FirstOccurrences(keys[..0]) == [];
  }

  lemma ExtendedFollowsItems(m: Moment, c: Call, r: Resource)
    requires FollowsItems(m) && m.items != []
    ensures FollowsItems(Extended(m, c, r))
  {
    var e, m' := ReadEdge(r), Extended(m, c, r);
    MergeKeepsFirstHeaviest(m.edges, [e]);
    assert Keys(m.edges + [e]) == Keys(m.edges) + [KeyOf(e)];
    assert ReadKeys(m'.items) == ReadKeys(m.items) + [KeyOf(e)];
    OccurrencesAgain(ReadKeys(m.items), KeyOf(e));
    forall x | x in Merge(m.edges, [e]) ensures x in m.edges || x == e {
      var i :| 0 <= i < |m.edges + [e]| && (m.edges + [e])[i] == x;
    }
  }

  lemma {:induction false} SameTags(a: seq<Item>, b: seq<Item>)
    requires |a| == |b| && forall i :: 0 <= i < |a| ==> a[i].tags == b[i].tags
    ensures AllTags(a) == AllTags(b)
  {
    if a != [] { SameTags(a[..|a| - 1], b[..|b| - 1]); }
  }

  lemma TouchedFollowsItems(m: Moment, c: Call, r: Resource)
    requires FollowsItems(m) && m.items != []
    ensures FollowsItems(Touched(m, c, r)) && Touched(m, c, r).items != []
  {
    var at := IndexOf(m.items, c.resource);
    if at.Some? {
      var m' := Touched(m, c, r);
      assert forall i :: 0 <= i < |m.items| ==> m'.items[i] == m.items[i].(action := m'.items[i].action);
      assert ReadKeys(m'.items) == ReadKeys(m.items);
      SameTags(m'.items, m.items);
    } else {
      ExtendedFollowsItems(m, c, r);
    }
  }

  /** Over every run that starts the day. */
  lemma {:induction false} MomentFollowsItems(t: Tables, calls: seq<Call>, key: DayKey)
    requires key !in t.moments && key in Run(t, calls).moments
    ensures var m := Run(t, calls).moments[key];
            m.items != [] && FollowsItems(m)
  {
    var init, c := calls[..|calls| - 1], calls[|calls| - 1];
    var before := Run(t, init);
    if key in before.moments { MomentFollowsItems(t, init, key); }
    if Accepted(before, c) {
      var r := before.resources[c.resource];
      if key in before.moments { TouchedFollowsItems(before.moments[key], c, r); } else { OpenedFollowsItems(c, r); }
    }
  }
}
