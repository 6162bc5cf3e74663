/** One batch of the embedding queue: claim, skip by content hash, embed, store. */
module Embeddings {
  import opened Options

  datatype Item = Item(tableName: string, entity: string, fieldName: string)

  datatype Status = Pending | Processing | GivenUp

  datatype Job = Job(item: Item, status: Status, attempts: nat)

  type Vector = seq<real>

  /** The vector and the content hash stored for an item under the service's provider. */
  datatype Entry = Entry(vector: Vector, hash: Option<string>)

  /** What the rest of the system answers during one batch: the stored content and its
      decryption, the hash, the embedding provider, which either fails as a whole or
      returns vectors, and the items whose vector cannot be stored. */
  datatype World = World(
    content: Item -> Option<string>,
    decrypt: (Item, string) -> string,
    hash: string -> string,
    embed: seq<string> -> Option<seq<Vector>>,
    unstorable: set<Item>)
  {
    /** The text of an item: none when the row is gone or its field is empty. */
    function Text(item: Item): Option<string> {
      var raw := content(item);
      if raw.None? || raw.value == "" then None else Some(decrypt(item, raw.value))
    }
  }

  /** What became of a claimed item. */
  datatype Fate = Skipped | Stored(vector: Vector) | Failed

  // ----- The queue

  function Items(jobs: seq<Job>): seq<Item> {
    if jobs == [] then [] else [jobs[0].item] + Items(jobs[1..])
  }

  predicate Distinct(items: seq<Item>) {
    forall i, j :: 0 <= i < j < |items| ==> items[i] != items[j]
  }

  /** The claim: up to `limit` of the oldest pending jobs. */
  function Claimed(queue: seq<Job>, limit: nat): seq<Job> {
    if queue == [] then []
    else if limit > 0 && queue[0].status == Pending then
      [queue[0].(status := Processing, attempts := queue[0].attempts + 1)] + Claimed(queue[1..], limit - 1)
    else [queue[0]] + Claimed(queue[1..], limit)
  }

  function Batch(queue: seq<Job>, limit: nat): (b: seq<Item>)
    ensures |b| <= limit
  {
    if queue == [] then []
    else if limit > 0 && queue[0].status == Pending then [queue[0].item] + Batch(queue[1..], limit - 1)
    else Batch(queue[1..], limit)
  }

  /** How many of the first n jobs are pending. */
  function PendingBefore(queue: seq<Job>, n: nat): (c: nat)
    requires n <= |queue|
    ensures c <= n
  {
    if n == 0 then 0 else PendingBefore(queue, n - 1) + if queue[n - 1].status == Pending then 1 else 0
  }

  lemma {:induction false} PendingTail(queue: seq<Job>, n: nat)
    requires 0 < n <= |queue|
    ensures PendingBefore(queue, n) == PendingBefore(queue[1..], n - 1) + if queue[0].status == Pending then 1 else 0
  {
    if n > 1 { PendingTail(queue, n - 1); }
  }

  /** A job is claimed if it is pending and fewer than `limit` jobs before it are. */
  predicate IsClaimed(queue: seq<Job>, limit: nat, i: nat)
    requires i < |queue|
  {
    queue[i].status == Pending && PendingBefore(queue, i) < limit
  }

  lemma ClaimTail(queue: seq<Job>, limit: nat, rest: nat, i: nat)
    requires 0 < i < |queue| && rest == if limit > 0 && queue[0].status == Pending then limit - 1 else limit
    ensures IsClaimed(queue, limit, i) <==> IsClaimed(queue[1..], rest, i - 1)
    ensures PendingBefore(queue, i) == PendingBefore(queue[1..], i - 1) + if queue[0].status == Pending then 1 else 0
  {
    PendingTail(queue, i);
    assert queue[1..][i - 1] == queue[i];
  }

  /** The jobs position by position: the oldest pending ones are marked and counted, all
      others stay. */
  lemma {:induction false} ClaimedAt(queue: seq<Job>, limit: nat, i: nat)
    requires i < |queue|
    ensures |Claimed(queue, limit)| == |queue|
    ensures Claimed(queue, limit)[i] ==
            if IsClaimed(queue, limit, i) then queue[i].(status := Processing, attempts := queue[i].attempts + 1)
            else queue[i]
  {
    var rest := if limit > 0 && queue[0].status == Pending then limit - 1 else limit;
    if i > 0 {
      ClaimTail(queue, limit, rest, i);
      ClaimedAt(queue[1..], rest, i - 1);
    } else if |queue| > 1 {
      ClaimedAt(queue[1..], rest, 0);
    }
  }

  lemma {:induction false} BatchSize(queue: seq<Job>, limit: nat)
    ensures var n := PendingBefore(queue, |queue|); |Batch(queue, limit)| == if n < limit then n else limit
  {
    if queue != [] {
      BatchSize(queue[1..], if limit > 0 && queue[0].status == Pending then limit - 1 else limit);
      PendingTail(queue, |queue|);
    }
  }

  /** The batch has the claimed items in their order. */
  lemma {:induction false} BatchAt(queue: seq<Job>, limit: nat, i: nat)
    requires i < |queue| && IsClaimed(queue, limit, i)
    ensures PendingBefore(queue, i) < |Batch(queue, limit)| &&
            Batch(queue, limit)[PendingBefore(queue, i)] == queue[i].item
  {
    if i > 0 {
      var rest := if limit > 0 && queue[0].status == Pending then limit - 1 else limit;
      ClaimTail(queue, limit, rest, i);
      BatchAt(queue[1..], rest, i - 1);
    }
  }

  lemma ClaimedEverywhere(queue: seq<Job>, limit: nat)
    ensures |Claimed(queue, limit)| == |queue|
    ensures forall i :: 0 <= i < |queue| ==>
              Claimed(queue, limit)[i] ==
              if IsClaimed(queue, limit, i) then queue[i].(status := Processing, attempts := queue[i].attempts + 1)
              else queue[i]
    ensures forall i :: 0 <= i < |queue| && IsClaimed(queue, limit, i) ==>
              PendingBefore(queue, i) < |Batch(queue, limit)| &&
              Batch(queue, limit)[PendingBefore(queue, i)] == queue[i].item
  {
    forall i | 0 <= i < |queue|
      ensures |Claimed(queue, limit)| == |queue|
      ensures Claimed(queue, limit)[i] ==
              if IsClaimed(queue, limit, i) then queue[i].(status := Processing, attempts := queue[i].attempts + 1)
              else queue[i]
      ensures IsClaimed(queue, limit, i) ==>
                PendingBefore(queue, i) < |Batch(queue, limit)| &&
                Batch(queue, limit)[PendingBefore(queue, i)] == queue[i].item
    {
      ClaimedAt(queue, limit, i);
      if IsClaimed(queue, limit, i) { BatchAt(queue, limit, i); }
    }
  }

  /** `_remove_from_queue`. */
  function Remove(queue: seq<Job>, item: Item): seq<Job> {
    if queue == [] then []
    else if queue[0].item == item then Remove(queue[1..], item)
    else [queue[0]] + Remove(queue[1..], item)
  }

  function Returned(job: Job): Job {
    job.(status := if job.attempts >= 3 then GivenUp else Pending)
  }

  /** The SQL function `fail_embedding`. */
  function Return(queue: seq<Job>, item: Item): seq<Job> {
    if queue == [] then []
    else [if queue[0].item == item then Returned(queue[0]) else queue[0]] + Return(queue[1..], item)
  }

  lemma {:induction false} ReturnAt(queue: seq<Job>, item: Item)
    ensures |Return(queue, item)| == |queue|
    ensures forall i :: 0 <= i < |queue| ==>
              Return(queue, item)[i] == if queue[i].item == item then Returned(queue[i]) else queue[i]
  {
    if queue != [] { ReturnAt(queue[1..], item); }
  }

  /** The queue when the fates of some items are known. */
  function Settled(queue: seq<Job>, fates: map<Item, Fate>): seq<Job> {
    if queue == [] then []
    else
      var job, rest := queue[0], Settled(queue[1..], fates);
      if job.item !in fates then [job] + rest
      else if fates[job.item].Failed? then [Returned(job)] + rest
      else rest
  }

  lemma {:induction false} NothingSettled(queue: seq<Job>)
    ensures Settled(queue, map[]) == queue
  {
    if queue != [] { NothingSettled(queue[1..]); }
  }

  lemma {:induction false} RemoveSettles(queue: seq<Job>, fates: map<Item, Fate>, item: Item, fate: Fate)
    requires item !in fates && !fate.Failed?
    ensures Remove(Settled(queue, fates), item) == Settled(queue, fates[item := fate])
  {
    if queue != [] {
      RemoveSettles(queue[1..], fates, item, fate);
      var job, rest := queue[0], Settled(queue[1..], fates);
      assert ([job] + rest)[1..] == rest && ([Returned(job)] + rest)[1..] == rest;
    }
  }

  lemma {:induction false} ReturnSettles(queue: seq<Job>, fates: map<Item, Fate>, item: Item)
    requires item !in fates
    ensures Return(Settled(queue, fates), item) == Settled(queue, fates[item := Failed])
  {
    if queue != [] {
      ReturnSettles(queue[1..], fates, item);
      var job, rest := queue[0], Settled(queue[1..], fates);
      assert ([job] + rest)[1..] == rest && ([Returned(job)] + rest)[1..] == rest;
    }
  }

  // ----- The items that need a vector

  predicate Fresh(w: World, index: map<Item, Entry>, item: Item) {
    item in index && w.Text(item).Some? && index[item].hash == Some(w.hash(w.Text(item).value))
  }

  predicate Needs(w: World, index: map<Item, Entry>, item: Item) {
    w.Text(item).Some? && !Fresh(w, index, item)
  }

  function Needed(w: World, index: map<Item, Entry>, batch: seq<Item>): (items: seq<Item>)
    ensures |items| <= |batch|
    ensures forall k :: 0 <= k < |items| ==> items[k] in batch && Needs(w, index, items[k])
  {
    if batch == [] then []
    else
      var init, last := Needed(w, index, batch[..|batch| - 1]), batch[|batch| - 1];
      if Needs(w, index, last) then init + [last] else init
  }

  function Texts(w: World, items: seq<Item>): (texts: seq<string>)
    requires forall k :: 0 <= k < |items| ==> w.Text(items[k]).Some?
    ensures |texts| == |items|
    ensures forall k :: 0 <= k < |items| ==> texts[k] == w.Text(items[k]).value
  {
    if items == [] then []
    else Texts(w, items[..|items| - 1]) + [w.Text(items[|items| - 1]).value]
  }

  /** What becomes of the first n items that need a vector. */
  function FateOf(w: World, answer: Option<seq<Vector>>, k: nat, item: Item): Fate
    requires answer.Some? ==> k < |answer.value|
  {
    if answer.None? || item in w.unstorable then Failed else Stored(answer.value[k])
  }

  /** The fates once some items of the batch were looked at: those that need no vector
      are skipped. */
  ghost predicate Looked(w: World, index: map<Item, Entry>, seen: seq<Item>, fates: map<Item, Fate>) {
    && (forall i :: i in fates <==> i in seen && !Needs(w, index, i))
    && (forall i :: i in fates ==> fates[i] == Skipped)
  }

  /** The fates once the first n of the items that need a vector were handled. */
  ghost predicate Handled(w: World, skipped: map<Item, Fate>, items: seq<Item>, answer: Option<seq<Vector>>, n: nat,
                          fates: map<Item, Fate>)
    requires n <= |items| && (answer.Some? ==> n <= |answer.value|)
  {
    && (forall i :: i in fates <==> i in skipped || i in items[..n])
    && (forall i :: i in skipped ==> fates[i] == skipped[i])
    && (forall k :: 0 <= k < n ==> fates[items[k]] == FateOf(w, answer, k, items[k]))
  }

  /** How many of the needed items are handled: all, unless the provider returned too few
      vectors. */
  function Answered(answer: Option<seq<Vector>>, n: nat): nat {
    if answer.Some? && |answer.value| < n then |answer.value| else n
  }

  /** The whole effect of a batch on its items, the queue and the index. */
  ghost predicate Outcome(w: World, limit: nat, queue: seq<Job>, index: map<Item, Entry>, fates: map<Item, Fate>,
                          queue': seq<Job>, index': map<Item, Entry>) {
    var items := Needed(w, index, Batch(queue, limit));
    var answer := if items == [] then Some([]) else w.embed(Texts(w, items));
    && (exists skipped :: Looked(w, index, Batch(queue, limit), skipped)
                          && Handled(w, skipped, items, answer, Answered(answer, |items|), fates))
    && queue' == Settled(Claimed(queue, limit), fates)
    && Indexed(w, index, fates, index')
  }

  /** The index with the stored vectors. */
  ghost predicate Indexed(w: World, before: map<Item, Entry>, fates: map<Item, Fate>, after: map<Item, Entry>) {
    && (forall i :: i in fates && fates[i].Stored? ==>
          w.Text(i).Some? && i in after && after[i] == Entry(fates[i].vector, Some(w.hash(w.Text(i).value))))
    && (forall i :: !(i in fates && fates[i].Stored?) ==>
          (i in after <==> i in before) && (i in before ==> i in after && after[i] == before[i]))
  }

  /** How many of the first n items cannot be stored. */
  function CountFailed(w: World, items: seq<Item>, n: nat): (c: nat)
    requires n <= |items|
    ensures c <= n
  {
    if n == 0 then 0 else CountFailed(w, items, n - 1) + if items[n - 1] in w.unstorable then 1 else 0
  }

  // ----- Steps

  lemma NeededMore(w: World, index: map<Item, Entry>, seen: seq<Item>, item: Item)
    ensures Needed(w, index, seen + [item]) == Needed(w, index, seen) + if Needs(w, index, item) then [item] else []
  {
    assert (seen + [item])[..|seen|] == seen;
  }

  lemma LookedMore(w: World, index: map<Item, Entry>, seen: seq<Item>, fates: map<Item, Fate>, item: Item)
    requires Looked(w, index, seen, fates)
    ensures Needs(w, index, item) ==> Looked(w, index, seen + [item], fates)
    ensures !Needs(w, index, item) ==> Looked(w, index, seen + [item], fates[item := Skipped])
  {
  }

  lemma HandledMore(w: World, skipped: map<Item, Fate>, items: seq<Item>, answer: Option<seq<Vector>>, n: nat,
                    fates: map<Item, Fate>)
    requires n < |items| && (answer.Some? ==> n < |answer.value|) && Distinct(items) && items[n] !in skipped
    requires Handled(w, skipped, items, answer, n, fates)
    ensures items[n] !in fates
    ensures Handled(w, skipped, items, answer, n + 1, fates[items[n] := FateOf(w, answer, n, items[n])])
  {
    assert items[..n + 1] == items[..n] + [items[n]];
    assert items[n] !in items[..n];
  }

  lemma {:induction false} BatchIsQueued(queue: seq<Job>, limit: nat, item: Item)
    requires item in Batch(queue, limit)
    ensures item in Items(queue)
  {
    if limit > 0 && queue[0].status == Pending {
      if item != queue[0].item { BatchIsQueued(queue[1..], limit - 1, item); }
    } else {
      BatchIsQueued(queue[1..], limit, item);
    }
  }

  lemma DistinctCons(item: Item, items: seq<Item>)
    ensures Distinct([item] + items) <==> item !in items && Distinct(items)
  {
    var all := [item] + items;
    assert all[1..] == items;
    if Distinct(all) {
      forall i, j | 0 <= i < j < |items| ensures items[i] != items[j] {
        assert all[i + 1] != all[j + 1];
      }
      forall k | 0 <= k < |items| ensures items[k] != item {
        assert all[0] != all[k + 1];
      }
    }
  }

  lemma {:induction false} BatchIsDistinct(queue: seq<Job>, limit: nat)
    requires Distinct(Items(queue))
    ensures Distinct(Batch(queue, limit))
  {
    if queue != [] {
      var first, rest := queue[0].item, queue[1..];
      DistinctCons(first, Items(rest));
      if limit > 0 && queue[0].status == Pending {
        BatchIsDistinct(rest, limit - 1);
        DistinctCons(first, Batch(rest, limit - 1));
        if first in Batch(rest, limit - 1) { BatchIsQueued(rest, limit - 1, first); }
      } else {
        BatchIsDistinct(rest, limit);
      }
    }
  }

  lemma {:induction false} NeededIsDistinct(w: World, index: map<Item, Entry>, batch: seq<Item>)
    requires Distinct(batch)
    ensures Distinct(Needed(w, index, batch))
  {
    if batch != [] {
      NeededIsDistinct(w, index, batch[..|batch| - 1]);
    }
  }

  /** Items whose vector can be asked for. */
  ghost predicate Ready(w: World, items: seq<Item>, skipped: map<Item, Fate>) {
    && Distinct(items)
    && forall k :: 0 <= k < |items| ==> items[k] !in skipped && w.Text(items[k]).Some?
  }

  function FatesAfter(w: World, skipped: map<Item, Fate>, items: seq<Item>, answer: Option<seq<Vector>>,
                      n: nat): map<Item, Fate>
    requires n <= |items| && (answer.Some? ==> n <= |answer.value|)
  {
    if n == 0 then skipped
    else FatesAfter(w, skipped, items, answer, n - 1)[items[n - 1] := FateOf(w, answer, n - 1, items[n - 1])]
  }

  function IndexAfter(w: World, index: map<Item, Entry>, items: seq<Item>, vectors: seq<Vector>,
                      n: nat): map<Item, Entry>
    requires n <= |items| && n <= |vectors|
    requires forall k :: 0 <= k < |items| ==> w.Text(items[k]).Some?
  {
    if n == 0 then index
    else
      var before, item := IndexAfter(w, index, items, vectors, n - 1), items[n - 1];
      if item in w.unstorable then before
      else before[item := Entry(vectors[n - 1], Some(w.hash(w.Text(item).value)))]
  }

  lemma {:induction false} FatesAreHandled(w: World, skipped: map<Item, Fate>, items: seq<Item>,
                                           answer: Option<seq<Vector>>, n: nat)
    requires n <= |items| && (answer.Some? ==> n <= |answer.value|) && Ready(w, items, skipped)
    ensures Handled(w, skipped, items, answer, n, FatesAfter(w, skipped, items, answer, n))
  {
    if n > 0 {
      FatesAreHandled(w, skipped, items, answer, n - 1);
      HandledMore(w, skipped, items, answer, n - 1, FatesAfter(w, skipped, items, answer, n - 1));
    }
  }

  lemma NotYetFated(w: World, skipped: map<Item, Fate>, items: seq<Item>, answer: Option<seq<Vector>>, n: nat)
    requires n < |items| && (answer.Some? ==> n < |answer.value|) && Ready(w, items, skipped)
    ensures items[n] !in FatesAfter(w, skipped, items, answer, n)
  {
    FatesAreHandled(w, skipped, items, answer, n);
    HandledMore(w, skipped, items, answer, n, FatesAfter(w, skipped, items, answer, n));
  }

  lemma IndexedMore(w: World, before: map<Item, Entry>, fates: map<Item, Fate>, index: map<Item, Entry>, item: Item,
                    fate: Fate)
    requires Indexed(w, before, fates, index) && item !in fates && w.Text(item).Some?
    ensures fate.Stored? ==>
              Indexed(w, before, fates[item := fate],
                      index[item := Entry(fate.vector, Some(w.hash(w.Text(item).value)))])
    ensures !fate.Stored? ==> Indexed(w, before, fates[item := fate], index)
  {
  }

  lemma {:induction false} VectorsAreIndexed(w: World, skipped: map<Item, Fate>, items: seq<Item>,
                                             vectors: seq<Vector>, n: nat,
                                             index: map<Item, Entry>)
    requires n <= |items| && n <= |vectors| && Ready(w, items, skipped)
    requires forall i :: i in skipped ==> skipped[i] == Skipped
    ensures Indexed(w, index, FatesAfter(w, skipped, items, Some(vectors), n), IndexAfter(w, index, items, vectors, n))
  {
    if n > 0 {
      VectorsAreIndexed(w, skipped, items, vectors, n - 1, index);
      var was, item := FatesAfter(w, skipped, items, Some(vectors), n - 1), items[n - 1];
      NotYetFated(w, skipped, items, Some(vectors), n - 1);
      IndexedMore(w, index, was, IndexAfter(w, index, items, vectors, n - 1), item,
                  FateOf(w, Some(vectors), n - 1, item));
    }
  }

  lemma {:induction false} NothingStored(w: World, skipped: map<Item, Fate>, items: seq<Item>, n: nat,
                                         index: map<Item, Entry>)
    requires n <= |items|
    requires forall i :: i in skipped ==> skipped[i] == Skipped
    ensures Indexed(w, index, FatesAfter(w, skipped, items, None, n), index)
  {
    if n > 0 { NothingStored(w, skipped, items, n - 1, index); }
  }

  // ----- The service

  class EmbeddingService {
    const batchSize: nat
    var queue: seq<Job>
    var index: map<Item, Entry>

    constructor (batchSize: nat, queue: seq<Job>, index: map<Item, Entry>)
      ensures this.batchSize == batchSize && this.queue == queue && this.index == index
    {
      this.batchSize, this.queue, this.index := batchSize, queue, index;
    }

    method ClaimBatch() returns (batch: seq<Item>)
      modifies this`queue
      ensures batch == Batch(old(queue), batchSize) && queue == Claimed(old(queue), batchSize)
      ensures |queue| == |old(queue)|
      ensures var n := PendingBefore(old(queue), |old(queue)|); |batch| == if n < batchSize then n else batchSize
      ensures forall i :: 0 <= i < |queue| ==>
                var was := old(queue)[i];
                if IsClaimed(old(queue), batchSize, i) then
                  var place := PendingBefore(old(queue), i);
                  && queue[i] == Job(was.item, Processing, was.attempts + 1)
                  && place < |batch| && batch[place] == was.item
                else queue[i] == was
    {
      BatchSize(queue, batchSize);
      ClaimedEverywhere(queue, batchSize);
      batch := Batch(queue, batchSize);
      queue := Claimed(queue, batchSize);
    }

    method RemoveFromQueue(item: Item)
      modifies this`queue
      ensures queue == Remove(old(queue), item)
    {
      queue := Remove(queue, item);
    }

    method FailItem(item: Item)
      modifies this`queue
      ensures queue == Return(old(queue), item) && |queue| == |old(queue)|
      ensures forall i :: 0 <= i < |queue| ==>
                var was := old(queue)[i];
                && queue[i].item == was.item && queue[i].attempts == was.attempts
                && queue[i].status == if was.item != item then was.status else if was.attempts >= 3 then GivenUp
                   else Pending
    {
      ReturnAt(queue, item);
      queue := Return(queue, item);
    }

    /** The SQL function `upsert_embedding`: one statement, so it stores and unqueues, or
        does neither. */
    method UpsertEmbedding(w: World, item: Item, vector: Vector, hash: string) returns (ok: bool)
      modifies this
      ensures ok == (item !in w.unstorable)
      ensures queue == if ok then Remove(old(queue), item) else old(queue)
      ensures index == if ok then old(index)[item := Entry(vector, Some(hash))] else old(index)
    {
      ok := item !in w.unstorable;
      if ok {
        index := index[item := Entry(vector, Some(hash))];
        queue := Remove(queue, item);
      }
    }

    /** The first loop: skips what needs no vector. */
    method SkipFresh(w: World, batch: seq<Item>) returns (items: seq<Item>, skipped: nat, ghost fates: map<Item, Fate>)
      requires Distinct(batch)
      modifies this`queue
      ensures items == Needed(w, index, batch) && skipped == |batch| - |items|
      ensures Looked(w, index, batch, fates)
      ensures queue == Settled(old(queue), fates)
    {
      items, skipped, fates := [], 0, map[];
      NothingSettled(queue);
      for n := 0 to |batch|
        invariant items == Needed(w, index, batch[..n]) && skipped == n - |items|
        invariant Looked(w, index, batch[..n], fates)
        invariant queue == Settled(old(queue), fates)
      {
        var item := batch[n];
        assert batch[..n + 1] == batch[..n] + [item];
        assert item !in batch[..n];
        NeededMore(w, index, batch[..n], item);
        LookedMore(w, index, batch[..n], fates, item);
        RemoveSettles(old(queue), fates, item, Skipped);
        var text := w.Text(item);
        if text.None? {
          RemoveFromQueue(item);
          skipped, fates := skipped + 1, fates[item := Skipped];
          continue;
        }
        var existing := if item in index then index[item].hash else None;
        if existing == Some(w.hash(text.value)) {
          RemoveFromQueue(item);
          skipped, fates := skipped + 1, fates[item := Skipped];
          continue;
        }
        items := items + [item];
      }
      assert batch[..|batch|] == batch;
    }

    /** The provider failed: every item goes back. */
    method FailAll(w: World, items: seq<Item>, ghost claimed: seq<Job>, ghost skipped: map<Item, Fate>)
      requires Ready(w, items, skipped)
      requires queue == Settled(claimed, skipped)
      modifies this`queue
      ensures queue == Settled(claimed, FatesAfter(w, skipped, items, None, |items|))
    {
      for n := 0 to |items|
        invariant queue == Settled(claimed, FatesAfter(w, skipped, items, None, n))
      {
        NotYetFated(w, skipped, items, None, n);
        ReturnSettles(claimed, FatesAfter(w, skipped, items, None, n), items[n]);
        FailItem(items[n]);
      }
    }

    /** Stores one vector, or puts its item back. */
    method StoreOne(w: World, items: seq<Item>, vectors: seq<Vector>, n: nat, ghost claimed: seq<Job>,
                    ghost skipped: map<Item, Fate>)
      returns (ok: bool)
      requires Ready(w, items, skipped) && n < |items| && n < |vectors|
      requires queue == Settled(claimed, FatesAfter(w, skipped, items, Some(vectors), n))
      modifies this
      ensures ok == (items[n] !in w.unstorable)
      ensures queue == Settled(claimed, FatesAfter(w, skipped, items, Some(vectors), n + 1))
      ensures index == if ok then old(index)[items[n] := Entry(vectors[n], Some(w.hash(w.Text(items[n]).value)))]
              else old(index)
    {
      var item := items[n];
      ghost var was := FatesAfter(w, skipped, items, Some(vectors), n);
      NotYetFated(w, skipped, items, Some(vectors), n);
      ok := UpsertEmbedding(w, item, vectors[n], w.hash(w.Text(item).value));
      if ok {
        RemoveSettles(claimed, was, item, Stored(vectors[n]));
      } else {
        ReturnSettles(claimed, was, item);
        FailItem(item);
      }
    }

    /** The last loop: stores each vector, and puts back the items for which that fails. */
    method StoreAll(w: World, items: seq<Item>, vectors: seq<Vector>, ghost claimed: seq<Job>,
                    ghost skipped: map<Item, Fate>)
      returns (processed: nat, failed: nat)
      requires Ready(w, items, skipped)
      requires queue == Settled(claimed, skipped)
      modifies this
      ensures var n := Answered(Some(vectors), |items|);
              && queue == Settled(claimed, FatesAfter(w, skipped, items, Some(vectors), n))
              && index == IndexAfter(w, old(index), items, vectors, n)
              && failed == CountFailed(w, items, n) && processed == n - failed
    {
      processed, failed := 0, 0;
      var n := 0;
      while n < |items| && n < |vectors|
        invariant n <= |items| && n <= |vectors|
        invariant queue == Settled(claimed, FatesAfter(w, skipped, items, Some(vectors), n))
        invariant index == IndexAfter(w, old(index), items, vectors, n)
        invariant failed == CountFailed(w, items, n) && processed == n - failed
      {
        var ok := StoreOne(w, items, vectors, n, claimed, skipped);
        if ok {
          processed := processed + 1;
        } else {
          failed := failed + 1;
        }
        n := n + 1;
      }
    }

    /** `process_batch`. */
    method ProcessBatch(w: World) returns (processed: nat, skipped: nat, failed: nat, ghost fates: map<Item, Fate>)
      requires Distinct(Items(queue))
      modifies this
      ensures var batch := Batch(old(queue), batchSize);
              var items := Needed(w, old(index), batch);
              var answer := w.embed(Texts(w, items));
              (processed + skipped + failed == |batch| <==> items == [] || answer.None? || |answer.value| >= |items|)
      ensures Outcome(w, batchSize, old(queue), old(index), fates, queue, index)
      ensures var batch := Batch(old(queue), batchSize);
              var items := Needed(w, old(index), batch);
              var answer := w.embed(Texts(w, items));
              && skipped == |batch| - |items|
              && processed + failed == (if items == [] then 0 else Answered(answer, |items|))
              && failed == (if items == [] then 0 else if answer.None? then |items|
                            else CountFailed(w, items, Answered(answer, |items|)))
    {
      BatchIsDistinct(queue, batchSize);
      var batch := ClaimBatch();
      ghost var claimed := queue;
      NeededIsDistinct(w, index, batch);
      var items: seq<Item>;
      items, skipped, fates := SkipFresh(w, batch);
      ghost var looked := fates;
      processed, failed := 0, 0;
      if items == [] {
        assert Handled(w, looked, items, Some([]), 0, fates);
        return;
      }
      var answer := w.embed(Texts(w, items));
      ghost var n := Answered(answer, |items|);
      fates := FatesAfter(w, looked, items, answer, n);
      FatesAreHandled(w, looked, items, answer, n);
      match answer {
        case None =>
          NothingStored(w, looked, items, |items|, index);
          FailAll(w, items, claimed, looked);
          failed := |items|;
        case Some(vectors) =>
          VectorsAreIndexed(w, looked, items, vectors, n, index);
          processed, failed := StoreAll(w, items, vectors, claimed, looked);
      }
    }
  }

  /** When the provider returned too few vectors, the items left over have no fate: their
      jobs stay claimed, and no batch takes them again. */
  lemma UnansweredStayClaimed(w: World, limit: nat, queue: seq<Job>, index: map<Item, Entry>, fates: map<Item, Fate>,
                              queue': seq<Job>, index': map<Item, Entry>, k: nat, i: nat)
    requires Outcome(w, limit, queue, index, fates, queue', index') && Distinct(Items(queue))
    requires var items := Needed(w, index, Batch(queue, limit));
             var answer := w.embed(Texts(w, items));
             answer.Some? && |answer.value| <= k < |items| && i < |queue| && queue[i].item == items[k] &&
             IsClaimed(queue, limit, i)
    ensures queue[i].item !in fates && queue[i].(status := Processing, attempts := queue[i].attempts + 1) in queue'
  {
    var items := Needed(w, index, Batch(queue, limit));
    BatchIsDistinct(queue, limit);
    NeededIsDistinct(w, index, Batch(queue, limit));
    ClaimedAt(queue, limit, i);
    assert forall j :: 0 <= j < k ==> items[j] != items[k];
    SettledKeeps(Claimed(queue, limit), fates, i);
  }

  lemma {:induction false} SettledKeeps(queue: seq<Job>, fates: map<Item, Fate>, i: nat)
    requires i < |queue| && queue[i].item !in fates
    ensures queue[i] in Settled(queue, fates)
  {
    if i > 0 {
      SettledKeeps(queue[1..], fates, i - 1);
    }
  }

  // ----- A job that keeps failing

  /** What a batch makes of a job that it claims and that fails. */
  function FailedOnce(job: Job): Job {
    if job.status == Pending then Returned(job.(status := Processing, attempts := job.attempts + 1)) else job
  }

  function FailedTimes(job: Job, n: nat): Job {
    if n == 0 then job else FailedOnce(FailedTimes(job, n - 1))
  }

  /** A claimed job whose item fails is that afterwards. */
  lemma BatchFailsJob(w: World, limit: nat, queue: seq<Job>, index: map<Item, Entry>, fates: map<Item, Fate>,
                      queue': seq<Job>, index': map<Item, Entry>, i: nat)
    requires Outcome(w, limit, queue, index, fates, queue', index')
    requires i < |queue| && IsClaimed(queue, limit, i) && queue[i].item in fates && fates[queue[i].item].Failed?
    ensures FailedOnce(queue[i]) in queue'
  {
    ClaimedAt(queue, limit, i);
    var claimed := Claimed(queue, limit);
    assert queue' == Settled(claimed, fates);
    SettledReturns(claimed, fates, i);
    assert FailedOnce(queue[i]) == Returned(claimed[i]);
  }

  lemma {:induction false} SettledReturns(queue: seq<Job>, fates: map<Item, Fate>, i: nat)
    requires i < |queue| && queue[i].item in fates && fates[queue[i].item].Failed?
    ensures Returned(queue[i]) in Settled(queue, fates)
  {
    if i > 0 {
      SettledReturns(queue[1..], fates, i - 1);
    }
  }

  /** However many batches claim it, a new job is tried three times, and then given up. */
  lemma {:induction false} TriedThreeTimes(item: Item, n: nat)
    ensures FailedTimes(Job(item, Pending, 0), n) == if n < 3 then Job(item, Pending, n) else Job(item, GivenUp, 3)
  {
    if n > 0 { TriedThreeTimes(item, n - 1); }
  }

  // ----- The index agrees with recomputing it

  ghost predicate Injective(hash: string -> string) {
    forall a, b :: hash(a) == hash(b) ==> a == b
  }

  /** The provider answers every list with the vector of each of its texts. */
  ghost predicate Lawful(w: World, vector: string -> Vector) {
    forall texts :: w.embed(texts).Some? ==>
      |w.embed(texts).value| == |texts|
      && forall k :: 0 <= k < |texts| ==> w.embed(texts).value[k] == vector(texts[k])
  }

  /** Every entry with a hash has the vector of some text with that hash. */
  ghost predicate Sound(w: World, vector: string -> Vector, index: map<Item, Entry>) {
    forall i :: i in index && index[i].hash.Some? ==>
      exists t :: w.hash(t) == index[i].hash.value && vector(t) == index[i].vector
  }

  ghost predicate Current(w: World, vector: string -> Vector, index: map<Item, Entry>, item: Item) {
    w.Text(item).Some? && item in index &&
    index[item] == Entry(vector(w.Text(item).value), Some(w.hash(w.Text(item).value)))
  }

  lemma FreshIsCurrent(w: World, vector: string -> Vector, index: map<Item, Entry>, item: Item)
    requires Injective(w.hash) && Sound(w, vector, index) && Fresh(w, index, item)
    ensures Current(w, vector, index, item)
  {
    var t :| w.hash(t) == index[item].hash.value && vector(t) == index[item].vector;
    assert t == w.Text(item).value;
  }

  /** Each claimed item has a fate, and unless it failed, the vector of its own text. */
  lemma ClaimedItemsAreCurrent(w: World, vector: string -> Vector, limit: nat, queue: seq<Job>, index: map<Item, Entry>,
                               fates: map<Item, Fate>, queue': seq<Job>, index': map<Item, Entry>, item: Item)
    requires Outcome(w, limit, queue, index, fates, queue', index')
    requires Injective(w.hash) && Lawful(w, vector) && Sound(w, vector, index)
    requires item in Batch(queue, limit)
    ensures item in fates
    ensures w.Text(item).Some? && !fates[item].Failed? ==> Current(w, vector, index', item)
  {
    var items := Needed(w, index, Batch(queue, limit));
    var answer := if items == [] then Some([]) else w.embed(Texts(w, items));
    if Needs(w, index, item) {
      NeededHasAll(w, index, Batch(queue, limit), item);
      var k :| 0 <= k < |items| && items[k] == item;
      assert fates[items[k]] == FateOf(w, answer, k, items[k]);
    } else if w.Text(item).Some? {
      FreshIsCurrent(w, vector, index, item);
    }
  }

  lemma {:induction false} NeededHasAll(w: World, index: map<Item, Entry>, batch: seq<Item>, item: Item)
    requires item in batch && Needs(w, index, item)
    ensures item in Needed(w, index, batch)
  {
    var init, last := batch[..|batch| - 1], batch[|batch| - 1];
    if item != last {
      assert item in init;
      NeededHasAll(w, index, init, item);
    }
  }

  /** The index stays sound, so the next batch can rely on it. */
  lemma IndexStaysSound(w: World, vector: string -> Vector, limit: nat, queue: seq<Job>, index: map<Item, Entry>,
                        fates: map<Item, Fate>, queue': seq<Job>, index': map<Item, Entry>)
    requires Outcome(w, limit, queue, index, fates, queue', index')
    requires Injective(w.hash) && Lawful(w, vector) && Sound(w, vector, index)
    ensures Sound(w, vector, index')
  {
    forall i | i in index' && index'[i].hash.Some?
      ensures exists t :: w.hash(t) == index'[i].hash.value && vector(t) == index'[i].vector
    {
      if i in fates && fates[i].Stored? {
        assert i in Batch(queue, limit);
        ClaimedItemsAreCurrent(w, vector, limit, queue, index, fates, queue', index', i);
        assert w.hash(w.Text(i).value) == index'[i].hash.value;
      } else {
        assert i in index && index'[i] == index[i];
      }
    }
  }

  /** The text of an item matters only through its hash: with a hash that maps two texts
      to one value, an item keeps the vector of its earlier text. */
  lemma CollisionKeepsOldVector(w: World, vector: string -> Vector, item: Item, other: string)
    requires w.Text(item).Some? && w.hash(other) == w.hash(w.Text(item).value) &&
             vector(other) != vector(w.Text(item).value)
    ensures var index := map[item := Entry(vector(other), Some(w.hash(other)))];
            Sound(w, vector, index) && Fresh(w, index, item) && !Current(w, vector, index, item)
  {
  }
}
