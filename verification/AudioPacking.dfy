/** Merging the silence-separated segments of a recording into chunks to be transcribed. */
module AudioPacking {
  /** Audio, one element for each millisecond. */
  type Audio = seq<int>

  const Shortest := 500

  function Joined(segments: seq<Audio>): Audio {
    if segments == [] then [] else Joined(segments[..|segments| - 1]) + segments[|segments| - 1]
  }

  function Flat(groups: seq<seq<Audio>>): seq<Audio> {
    if groups == [] then [] else Flat(groups[..|groups| - 1]) + groups[|groups| - 1]
  }

  /** Within a group every segment either fits or follows too short a beginning. */
  predicate Grown(group: seq<Audio>, target: nat) {
    forall j :: 0 <= j < |group| ==>
      |Joined(group[..j])| + |group[j]| <= target || |Joined(group[..j])| < Shortest
  }

  /** A group ends only when it is long enough and the next segment does not fit. */
  predicate Closed(group: seq<Audio>, next: seq<Audio>, target: nat) {
    && |Joined(group)| >= Shortest
    && next != []
    && |Joined(group)| + |next[0]| > target
  }

  /** The segments in their order, cut into groups by the greedy rule. */
  predicate Packing(segments: seq<Audio>, groups: seq<seq<Audio>>, target: nat) {
    && groups != []
    && Flat(groups) == segments
    && (forall i :: 0 <= i < |groups| ==> Grown(groups[i], target))
    && (forall i :: 0 <= i < |groups| - 1 ==> Closed(groups[i], groups[i + 1], target))
  }

  /** The groups that become chunks: a last one that is too short is dropped. */
  function Kept(groups: seq<seq<Audio>>): seq<seq<Audio>>
    requires groups != []
  {
    if |Joined(groups[|groups| - 1])| >= Shortest then groups else groups[..|groups| - 1]
  }

  function Tail(groups: seq<seq<Audio>>): seq<Audio>
    requires groups != []
  {
    if |Joined(groups[|groups| - 1])| >= Shortest then [] else groups[|groups| - 1]
  }

  lemma JoinedMore(segments: seq<Audio>, s: Audio)
    ensures Joined(segments + [s]) == Joined(segments) + s
  {
    assert (segments + [s])[..|segments|] == segments;
  }

  lemma FlatMore(groups: seq<seq<Audio>>, g: seq<Audio>, s: Audio)
    ensures Flat(groups + [g]) == Flat(groups) + g
    ensures Flat(groups + [g + [s]]) == Flat(groups + [g]) + [s]
  {
    assert (groups + [g])[..|groups|] == groups;
    assert (groups + [g + [s]])[..|groups|] == groups;
    assert Flat(groups) + (g + [s]) == Flat(groups) + g + [s];
  }

  lemma GrownMore(group: seq<Audio>, s: Audio, target: nat)
    requires Grown(group, target)
    requires |Joined(group)| + |s| <= target || |Joined(group)| < Shortest
    ensures Grown(group + [s], target)
  {
    forall j | 0 <= j < |group + [s]|
      ensures |Joined((group + [s])[..j])| + |(group + [s])[j]| <= target || |Joined((group + [s])[..j])| < Shortest
    {
      assert (group + [s])[..j] == group[..j];
      assert j == |group| ==> group[..j] == group;
    }
  }

  lemma PackingCloses(segments: seq<Audio>, closed: seq<seq<Audio>>, group: seq<Audio>, seg: Audio, target: nat)
    requires Packing(segments, closed + [group], target) && Closed(group, [seg], target)
    ensures Packing(segments + [seg], closed + [group] + [[seg]], target)
  {
    var before := closed + [group];
    FlatMore(before, [], seg);
    assert [] + [seg] == [seg];
    GrownMore([], seg, target);
    forall i | 0 <= i < |before|
      ensures Closed((before + [[seg]])[i], (before + [[seg]])[i + 1], target)
    {
      if i < |closed| {
        assert Closed(before[i], before[i + 1], target);
      }
    }
  }

  lemma PackingGrows(segments: seq<Audio>, closed: seq<seq<Audio>>, group: seq<Audio>, seg: Audio, target: nat)
    requires Packing(segments, closed + [group], target)
    requires |Joined(group)| + |seg| <= target || |Joined(group)| < Shortest
    requires group == [] ==> closed == []
    ensures Packing(segments + [seg], closed + [group + [seg]], target)
  {
    var before, after := closed + [group], closed + [group + [seg]];
    FlatMore(closed, group, seg);
    assert before[|closed|] == group;
    GrownMore(group, seg, target);
    forall i | 0 <= i < |after|
      ensures Grown(after[i], target)
    {
      if i < |closed| {
        assert before[i] == after[i];
      }
    }
    forall i | 0 <= i < |closed|
      ensures Closed(after[i], after[i + 1], target)
    {
      assert Closed(before[i], before[i + 1], target);
    }
  }

  lemma PackingStarts(target: nat)
    ensures Packing([], [[]], target)
  {
    assert Flat([[]]) == [];
  }

  // ----- The loop

  /** One more segment: it starts a new group or joins the last one. */
  function Taken(groups: seq<seq<Audio>>, seg: Audio, target: nat): (after: seq<seq<Audio>>)
    requires groups != []
    ensures after != []
  {
    var last := groups[|groups| - 1];
    if |Joined(last)| + |seg| > target && |Joined(last)| >= Shortest then groups + [[seg]]
    else groups[..|groups| - 1] + [last + [seg]]
  }

  function Greedy(segments: seq<Audio>, target: nat): (groups: seq<seq<Audio>>)
    ensures groups != []
  {
    if segments == [] then [[]]
    else Taken(Greedy(segments[..|segments| - 1], target), segments[|segments| - 1], target)
  }

  /** One chunk for each group, with all its audio. */
  predicate Exported(merged: seq<Audio>, groups: seq<seq<Audio>>) {
    && |merged| == |groups|
    && forall i :: 0 <= i < |merged| ==> merged[i] == Joined(groups[i])
  }

  /** What the loop has: the finished groups as chunks, and the audio of the growing one. */
  predicate Merging(groups: seq<seq<Audio>>, merged: seq<Audio>, current: Audio)
    requires groups != []
  {
    current == Joined(groups[|groups| - 1]) && Exported(merged, groups[..|groups| - 1])
  }

  lemma CloseStep(groups: seq<seq<Audio>>, merged: seq<Audio>, current: Audio, seg: Audio, target: nat)
    requires groups != [] && Merging(groups, merged, current)
    requires |current| + |seg| > target && |current| >= Shortest
    ensures Merging(Taken(groups, seg, target), merged + [current], seg)
  {
    JoinedMore([], seg);
    assert [] + [seg] == [seg];
    assert (groups + [[seg]])[..|groups|] == groups;
    assert groups == groups[..|groups| - 1] + [groups[|groups| - 1]];
  }

  lemma GrowStep(groups: seq<seq<Audio>>, merged: seq<Audio>, current: Audio, seg: Audio, target: nat)
    requires groups != [] && Merging(groups, merged, current)
    requires |current| + |seg| <= target || |current| < Shortest
    ensures Merging(Taken(groups, seg, target), merged, current + seg)
  {
    var closed, last := groups[..|groups| - 1], groups[|groups| - 1];
    JoinedMore(last, seg);
    assert (closed + [last + [seg]])[..|closed|] == closed;
  }

  /** The merge loop of `chunk_audio_for_whisper`. */
  method MergeSegments(segments: seq<Audio>, target: nat) returns (merged: seq<Audio>)
    ensures Exported(merged, Kept(Greedy(segments, target)))
  {
    merged := [];
    var current: Audio := [];
    ghost var groups: seq<seq<Audio>> := [[]];
    for n := 0 to |segments|
      invariant groups == Greedy(segments[..n], target)
      invariant Merging(groups, merged, current)
    {
      var seg := segments[n];
      assert segments[..n + 1][..n] == segments[..n];
      if |current| + |seg| > target && |current| >= 500 {
        CloseStep(groups, merged, current, seg, target);
        merged := merged + [current];
        current := seg;
      } else {
        GrowStep(groups, merged, current, seg, target);
        current := current + seg;
      }
      groups := Taken(groups, seg, target);
    }
    assert segments[..|segments|] == segments;
    assert groups == groups[..|groups| - 1] + [groups[|groups| - 1]];
    if |current| >= 500 {
      merged := merged + [current];
    }
  }

  // ----- The loop's groups are the only packing

  lemma {:induction false} GreedyIsPacking(segments: seq<Audio>, target: nat)
    ensures Packing(segments, Greedy(segments, target), target)
  {
    if segments == [] {
      PackingStarts(target);
    } else {
      var init, seg := segments[..|segments| - 1], segments[|segments| - 1];
      GreedyIsPacking(init, target);
      var groups := Greedy(init, target);
      var closed, last := groups[..|groups| - 1], groups[|groups| - 1];
      assert groups == closed + [last] && segments == init + [seg];
      LastIsNotEmpty(init, closed, last, target);
      if |Joined(last)| + |seg| > target && |Joined(last)| >= Shortest {
        PackingCloses(init, closed, last, seg, target);
      } else {
        PackingGrows(init, closed, last, seg, target);
      }
    }
  }

  lemma LastIsNotEmpty(segments: seq<Audio>, closed: seq<seq<Audio>>, last: seq<Audio>, target: nat)
    requires Packing(segments, closed + [last], target)
    ensures last == [] ==> closed == [] && segments == []
  {
    if closed != [] {
      assert Closed((closed + [last])[|closed| - 1], (closed + [last])[|closed|], target);
    } else {
      assert (closed + [last])[..0] == [];
      assert Flat(closed + [last]) == [] + last;
    }
  }

  /** Without its last segment a packing is a packing, and the segment went where the
      greedy rule puts it. */
  lemma PackingShrinks(segments: seq<Audio>, closed: seq<seq<Audio>>, last: seq<Audio>, target: nat)
    returns (groups: seq<seq<Audio>>)
    requires segments != [] && Packing(segments, closed + [last], target)
    ensures Packing(segments[..|segments| - 1], groups, target)
    ensures Taken(groups, segments[|segments| - 1], target) == closed + [last]
  {
    var all, seg := closed + [last], segments[|segments| - 1];
    LastIsNotEmpty(segments, closed, last, target);
    assert all[..|closed|] == closed && all[|closed|] == last;
    assert Flat(closed) + last == segments;
    assert last[|last| - 1] == seg;
    if |last| == 1 && closed != [] {
      groups := closed;
      assert Closed(all[|closed| - 1], all[|closed|], target);
      assert Flat(closed) == segments[..|segments| - 1];
      assert forall i :: 0 <= i < |closed| ==> closed[i] == all[i];
      assert forall i :: 0 <= i < |closed| - 1 ==> Closed(all[i], all[i + 1], target);
      assert last == [seg];
    } else {
      var shorter := last[..|last| - 1];
      groups := closed + [shorter];
      ShorterIsPacking(segments, closed, last, target);
      assert shorter + [seg] == last;
      assert Grown(all[|closed|], target);
      assert last[..|last| - 1] == shorter;
    }
  }

  lemma ShorterIsPacking(segments: seq<Audio>, closed: seq<seq<Audio>>, last: seq<Audio>, target: nat)
    requires segments != [] && Packing(segments, closed + [last], target)
    requires |last| > 1 || (closed == [] && last != [])
    ensures Packing(segments[..|segments| - 1], closed + [last[..|last| - 1]], target)
  {
    var all, shorter := closed + [last], last[..|last| - 1];
    var groups := closed + [shorter];
    assert all[..|closed|] == closed && groups[..|closed|] == closed;
    assert Flat(groups) == Flat(closed) + shorter == segments[..|segments| - 1];
    assert Grown(all[|closed|], target);
    assert forall j :: 0 <= j < |shorter| ==> shorter[..j] == last[..j];
    forall i | 0 <= i < |groups| ensures Grown(groups[i], target) {
      if i < |closed| { assert groups[i] == all[i]; }
    }
    forall i | 0 <= i < |closed| ensures Closed(groups[i], groups[i + 1], target) {
      assert Closed(all[i], all[i + 1], target);
    }
  }

  /** The packing rule leaves no choice: the loop's groups satisfy it and no others do. */
  lemma {:induction false} PackingIffGreedy(segments: seq<Audio>, groups: seq<seq<Audio>>, target: nat)
    ensures Packing(segments, groups, target) <==> groups == Greedy(segments, target)
  {
    GreedyIsPacking(segments, target);
    if Packing(segments, groups, target) {
      var closed, last := groups[..|groups| - 1], groups[|groups| - 1];
      assert groups == closed + [last];
      if segments == [] {
        OnlyEmptyPacking(closed, last, target);
      } else {
        var before := PackingShrinks(segments, closed, last, target);
        PackingIffGreedy(segments[..|segments| - 1], before, target);
      }
    }
  }

  lemma OnlyEmptyPacking(closed: seq<seq<Audio>>, last: seq<Audio>, target: nat)
    requires Packing([], closed + [last], target)
    ensures closed == [] && last == []
  {
    assert (closed + [last])[..|closed|] == closed;
    assert Flat(closed) + last == [];
    LastIsNotEmpty([], closed, last, target);
  }

  // ----- What the greedy rule guarantees

  predicate Longest(segments: seq<Audio>, m: nat) {
    forall i :: 0 <= i < |segments| ==> |segments[i]| <= m
  }

  /** Nothing is lost, repeated or reordered but a tail shorter than half a second. */
  lemma NothingButAShortTailIsLost(segments: seq<Audio>, groups: seq<seq<Audio>>, target: nat)
    requires Packing(segments, groups, target)
    ensures Flat(Kept(groups)) + Tail(groups) == segments
    ensures |Joined(Tail(groups))| < Shortest
    ensures forall i :: 0 <= i < |Kept(groups)| ==> |Joined(Kept(groups)[i])| >= Shortest
  {
    forall i | 0 <= i < |groups| - 1
      ensures |Joined(groups[i])| >= Shortest
    {
      assert Closed(groups[i], groups[i + 1], target);
    }
    KeptAndTail(groups);
  }

  lemma KeptAndTail(groups: seq<seq<Audio>>)
    requires groups != []
    ensures Flat(Kept(groups)) + Tail(groups) == Flat(groups)
    ensures |Joined(Tail(groups))| < Shortest
  {
    var last := groups[|groups| - 1];
    if |Joined(last)| >= Shortest {
      assert Kept(groups) == groups && Tail(groups) == [];
      assert Flat(groups) + [] == Flat(groups);
    } else {
      assert Kept(groups) == groups[..|groups| - 1] && Tail(groups) == last;
    }
  }

  lemma {:induction false} MemberOfFlat(groups: seq<seq<Audio>>, i: nat, m: nat)
    requires i < |groups| && Longest(Flat(groups), m)
    ensures Longest(groups[i], m)
  {
    var init, last := groups[..|groups| - 1], groups[|groups| - 1];
    if i < |init| {
      assert forall k :: 0 <= k < |Flat(init)| ==> Flat(groups)[k] == Flat(init)[k];
      MemberOfFlat(init, i, m);
    } else {
      assert forall k :: 0 <= k < |last| ==> Flat(groups)[|Flat(init)| + k] == last[k];
    }
  }

  /** A chunk exceeds the target only by growing from less than half a second. */
  lemma ChunkIsBounded(segments: seq<Audio>, groups: seq<seq<Audio>>, target: nat, m: nat, i: nat)
    requires Packing(segments, groups, target) && Longest(segments, m) && i < |groups|
    ensures |Joined(groups[i])| <= if target > 499 + m then target else 499 + m
  {
    MemberOfFlat(groups, i, m);
    var g := groups[i];
    if g != [] {
      assert Grown(g, target);
      assert |g[|g| - 1]| <= m;
      assert |Joined(g[..|g| - 1])| + |g[|g| - 1]| <= target || |Joined(g[..|g| - 1])| < Shortest;
    }
  }

  lemma {:induction false} FirstIsContained(group: seq<Audio>)
    requires group != []
    ensures |group[0]| <= |Joined(group)|
  {
    if |group| > 1 {
      FirstIsContained(group[..|group| - 1]);
    }
  }

  /** Two chunks in a row are longer than the target. */
  lemma NeighboursExceedTarget(segments: seq<Audio>, groups: seq<seq<Audio>>, target: nat, i: nat)
    requires Packing(segments, groups, target) && i + 1 < |groups|
    ensures |Joined(groups[i])| + |Joined(groups[i + 1])| > target
  {
    assert Closed(groups[i], groups[i + 1], target);
    FirstIsContained(groups[i + 1]);
  }

  lemma {:induction false} JoinedSplits(a: seq<Audio>, b: seq<Audio>)
    ensures Joined(a + b) == Joined(a) + Joined(b)
  {
    if b == [] {
      assert a + b == a;
    } else {
      assert (a + b)[..|a + b| - 1] == a + b[..|b| - 1];
      JoinedSplits(a, b[..|b| - 1]);
    }
  }

  lemma JoinedOneMore(groups: seq<seq<Audio>>, n: nat)
    requires n < |groups|
    ensures Joined(Flat(groups[..n + 1])) == Joined(Flat(groups[..n])) + Joined(groups[n])
  {
    assert groups[..n + 1][..n] == groups[..n];
    JoinedSplits(Flat(groups[..n]), groups[n]);
  }

  lemma {:induction false} PairsFill(groups: seq<seq<Audio>>, target: nat, n: nat)
    requires n <= |groups|
    requires forall i :: 0 <= i < |groups| - 1 ==> |Joined(groups[i])| + |Joined(groups[i + 1])| > target
    ensures n / 2 * target <= |Joined(Flat(groups[..n]))|
  {
    if n >= 2 {
      var m := n - 2;
      PairsFill(groups, target, m);
      JoinedOneMore(groups, m);
      JoinedOneMore(groups, m + 1);
      assert |Joined(groups[m])| + |Joined(groups[m + 1])| > target;
      assert n / 2 == m / 2 + 1;
      assert (m / 2 + 1) * target == m / 2 * target + target;
    }
  }

  lemma {:induction false} FlatOfPrefix(groups: seq<seq<Audio>>, n: nat)
    requires n <= |groups|
    ensures |Joined(Flat(groups[..n]))| <= |Joined(Flat(groups))|
  {
    if n == |groups| {
      assert groups[..n] == groups;
    } else {
      var init := groups[..|groups| - 1];
      FlatOfPrefix(init, n);
      assert init[..n] == groups[..n];
      JoinedSplits(Flat(init), groups[|groups| - 1]);
    }
  }

  /** The next-fit bound: half the number of chunks, times the target, fits into the
      length of the recording. */
  lemma ChunksAreFew(segments: seq<Audio>, groups: seq<seq<Audio>>, target: nat)
    requires Packing(segments, groups, target)
    ensures |Kept(groups)| / 2 * target <= |Joined(segments)|
  {
    forall i | 0 <= i < |groups| - 1
      ensures |Joined(groups[i])| + |Joined(groups[i + 1])| > target
    {
      NeighboursExceedTarget(segments, groups, target, i);
    }
    PairsFill(groups, target, |Kept(groups)|);
    FlatOfPrefix(groups, |Kept(groups)|);
  }
}
