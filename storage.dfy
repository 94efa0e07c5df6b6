/**
  The storage manager of ipfs-client/src/storage.rs: a content index (hash → metadata) and a
  tag index (tag → hashes, in insertion order) updated in place by every store, batch stores
  that collect successes and failures, and queries over the indexes. The IPFS `add` reply for
  each store and the clock reading at each store are parameters; the serialisers are those of
  the client the manager owns.
 */
module Storage {
  import opened Types
  import opened Wrappers
  import opened IpfsErrors
  import opened IpfsClient
  import Did
  import Vc

  datatype StorageOperation =
    | StoreDid(didDoc: Did.DidDocument, tags: seq<string>)
    | StoreCredential(credential: Vc.VerifiableCredential, tags: seq<string>)
    | StorePresentation(presentation: Vc.VerifiablePresentation, tags: seq<string>)
    | StoreJson(data: Json, contentType: ContentType, tags: seq<string>)

  datatype BatchOperation = BatchOperation(operations: seq<StorageOperation>)

  /** `BatchResult`: `failed` pairs an operation index with the error's display text. */
  datatype BatchResult = BatchResult(
    successful: seq<StorageResult>,
    failed: seq<(nat, string)>,
    totalSize: nat,
    totalOperations: nat)

  datatype SearchCriteria = SearchCriteria(
    contentType: Option<ContentType>,
    tags: seq<string>,
    createdAfter: Option<Timestamp>,
    createdBefore: Option<Timestamp>,
    minSize: Option<nat>,
    maxSize: Option<nat>)

  datatype StorageStatistics = StorageStatistics(
    totalItems: nat,
    totalSize: nat,
    typeCounts: map<ContentType, nat>,
    totalTags: nat)

  // ---------------------------------------------------------------------------
  // Batch and criteria builders
  // ---------------------------------------------------------------------------

  /** `BatchOperation::new`. */
  function NewBatch(): (b: BatchOperation)
    ensures Len(b) == 0 && IsEmpty(b)
  {
    BatchOperation([])
  }

  /** `len`. */
  function Len(b: BatchOperation): nat {
    |b.operations|
  }

  /** `is_empty`. */
  predicate IsEmpty(b: BatchOperation) {
    |b.operations| == 0
  }

  /** `after` is `before` with exactly `op` appended. */
  predicate Appends(before: BatchOperation, after: BatchOperation, op: StorageOperation) {
    && Len(after) == Len(before) + 1
    && after.operations[..Len(before)] == before.operations
    && after.operations[Len(before)] == op
  }

  /** `add_did_document`. */
  function AddDidDocument(b: BatchOperation, doc: Did.DidDocument, tags: seq<string>): (r: BatchOperation)
    ensures Appends(b, r, StoreDid(doc, tags)) && !IsEmpty(r)
  {
    BatchOperation(b.operations + [StoreDid(doc, tags)])
  }

  /** `add_credential`. */
  function AddCredential(b: BatchOperation, credential: Vc.VerifiableCredential, tags: seq<string>)
    : (r: BatchOperation)
    ensures Appends(b, r, StoreCredential(credential, tags)) && !IsEmpty(r)
  {
    BatchOperation(b.operations + [StoreCredential(credential, tags)])
  }

  /** `add_presentation`. */
  function AddPresentation(b: BatchOperation, presentation: Vc.VerifiablePresentation, tags: seq<string>)
    : (r: BatchOperation)
    ensures Appends(b, r, StorePresentation(presentation, tags)) && !IsEmpty(r)
  {
    BatchOperation(b.operations + [StorePresentation(presentation, tags)])
  }

  /** `add_json`. */
  function AddJson(b: BatchOperation, data: Json, contentType: ContentType, tags: seq<string>)
    : (r: BatchOperation)
    ensures Appends(b, r, StoreJson(data, contentType, tags)) && !IsEmpty(r)
  {
    BatchOperation(b.operations + [StoreJson(data, contentType, tags)])
  }

  /** `SearchCriteria::new`: no filter set. */
  function NewCriteria(): SearchCriteria {
    SearchCriteria(None, [], None, None, None, None)
  }

  function WithContentType(c: SearchCriteria, t: ContentType): SearchCriteria {
    c.(contentType := Some(t))
  }

  function WithTags(c: SearchCriteria, tags: seq<string>): SearchCriteria {
    c.(tags := tags)
  }

  function WithDateRange(c: SearchCriteria, after: Option<Timestamp>, before: Option<Timestamp>): SearchCriteria {
    c.(createdAfter := after, createdBefore := before)
  }

  function WithSizeRange(c: SearchCriteria, min: Option<nat>, max: Option<nat>): SearchCriteria {
    c.(minSize := min, maxSize := max)
  }

  /** `matches_criteria`: every filter that is set passes; both date bounds are strict, both size bounds inclusive. */
  predicate MatchesCriteria(m: ContentMetadata, c: SearchCriteria) {
    && (c.contentType.Some? ==> m.contentType == c.contentType.value)
    && (forall t :: t in c.tags ==> t in m.tags)
    && (c.createdAfter.Some? ==> m.createdAt > c.createdAfter.value)
    && (c.createdBefore.Some? ==> m.createdAt < c.createdBefore.value)
    && (c.minSize.Some? ==> m.size >= c.minSize.value)
    && (c.maxSize.Some? ==> m.size <= c.maxSize.value)
  }

  /** Fresh criteria let everything through. */
  lemma NewCriteriaMatchesAll(m: ContentMetadata)
    ensures MatchesCriteria(m, NewCriteria())
  {
  }

  /** A date window whose lower bound is not below its upper bound lets nothing through. */
  lemma EmptyDateWindowMatchesNothing(m: ContentMetadata, c: SearchCriteria, after: Timestamp, before: Timestamp)
    requires before <= after
    ensures !MatchesCriteria(m, WithDateRange(c, Some(after), Some(before)))
  {
  }

  /** Requiring more tags only narrows the match. */
  lemma MoreTagsNarrow(m: ContentMetadata, c: SearchCriteria, extra: seq<string>)
    ensures MatchesCriteria(m, WithTags(c, c.tags + extra)) ==> MatchesCriteria(m, c)
  {
    if MatchesCriteria(m, WithTags(c, c.tags + extra)) {
      forall t | t in c.tags
        ensures t in m.tags
      {
        assert t in c.tags + extra;
      }
    }
  }

  // ---------------------------------------------------------------------------
  // What one store produces
  // ---------------------------------------------------------------------------

  /** The bytes the client sends to `add` for an operation. */
  function Serialized(codec: Serializers, op: StorageOperation): Bytes {
    match op
    case StoreDid(doc, _) => codec.didDocument(doc)
    case StoreCredential(credential, _) => codec.credential(credential)
    case StorePresentation(presentation, _) => codec.presentation(presentation)
    case StoreJson(data, _, _) => codec.json(data)
  }

  /** The content type recorded for an operation. */
  function OperationType(op: StorageOperation): ContentType {
    match op
    case StoreDid(_, _) => DidDocument
    case StoreCredential(_, _) => VerifiableCredential
    case StorePresentation(_, _) => VerifiablePresentation
    case StoreJson(_, contentType, _) => contentType
  }

  /** The tags recorded for an operation: the client's fixed tags, then the caller's. */
  function OperationTags(op: StorageOperation): seq<string> {
    match op
    case StoreDid(_, tags) => ["did", "document"] + tags
    case StoreCredential(_, tags) => ["credential", "verifiable"] + tags
    case StorePresentation(_, tags) => ["presentation", "verifiable"] + tags
    case StoreJson(_, _, tags) => tags
  }

  /**
    The result `store_with_index` returns for an operation stored at time `now` when the
    node answers `addReply`; it does not depend on the indexes.
   */
  function StoreOutcome(codec: Serializers, op: StorageOperation, now: Timestamp, addReply: Result<string, string>)
    : (r: Result<StorageResult, IpfsError>)
    ensures r.Success? <==> addReply.Success?
    ensures r.Failure? ==> r.error == StorageError("IPFS add failed: " + addReply.error)
    ensures r.Success? ==>
              && r.value.hash == addReply.value
              && r.value.metadata == ContentMetadata(OperationType(op), addReply.value, |Serialized(codec, op)|,
                                                     now, OperationTags(op), None)
  {
    match op
    case StoreDid(doc, tags) =>
      var stored :- StoreDidDocument(codec, doc, now, addReply);
      Success(stored.(metadata := stored.metadata.(tags := stored.metadata.tags + tags)))
    case StoreCredential(credential, tags) =>
      var stored :- IpfsClient.StoreCredential(codec, credential, now, addReply);
      Success(stored.(metadata := stored.metadata.(tags := stored.metadata.tags + tags)))
    case StorePresentation(presentation, tags) =>
      var stored :- IpfsClient.StorePresentation(codec, presentation, now, addReply);
      Success(stored.(metadata := stored.metadata.(tags := stored.metadata.tags + tags)))
    case StoreJson(data, contentType, tags) =>
      var content := codec.json(data);
      StoreContent(content, ContentMetadata(contentType, "", |content|, now, tags, None), addReply)
  }

  // ---------------------------------------------------------------------------
  // Tag index updates
  // ---------------------------------------------------------------------------

  /** The hashes listed under `tag`, or none. */
  function ListedUnder(index: map<string, seq<string>>, tag: string): seq<string> {
    if tag in index then index[tag] else []
  }

  /** Occurrences of `x` in `s`. */
  function Count<T(==)>(s: seq<T>, x: T): nat {
    if |s| == 0 then 0 else Count(s[..|s| - 1], x) + (if s[|s| - 1] == x then 1 else 0)
  }

  function Repeat<T>(x: T, n: nat): (r: seq<T>)
    ensures |r| == n && forall i :: 0 <= i < n ==> r[i] == x
  {
    seq(n, _ => x)
  }

  /** The tag index after `hash` is pushed onto the list of each of `tags` in turn. */
  function TagsAfter(index: map<string, seq<string>>, hash: string, tags: seq<string>): map<string, seq<string>> {
    if |tags| == 0 then index
    else
      var before := TagsAfter(index, hash, tags[..|tags| - 1]);
      var tag := tags[|tags| - 1];
      before[tag := ListedUnder(before, tag) + [hash]]
  }

  /** Indexing `hash` under `tags` creates a list for each new tag and for no other key. */
  lemma {:induction false} TagsAfterKeys(index: map<string, seq<string>>, hash: string, tags: seq<string>)
    ensures TagsAfter(index, hash, tags).Keys == index.Keys + (set t | t in tags)
  {
    if |tags| > 0 {
      TagsAfterKeys(index, hash, tags[..|tags| - 1]);
      assert tags == tags[..|tags| - 1] + [tags[|tags| - 1]];
    }
  }

  /**
    Indexing `hash` under `tags` appends `hash` to the list of `tag` once per occurrence of
    `tag` in `tags`, and leaves what was listed before in front.
   */
  lemma {:induction false} TagsAfterAppends(index: map<string, seq<string>>, hash: string, tags: seq<string>,
                                            tag: string)
    ensures ListedUnder(TagsAfter(index, hash, tags), tag) == ListedUnder(index, tag) + Repeat(hash, Count(tags, tag))
  {
    if |tags| > 0 {
      var init := tags[..|tags| - 1];
      TagsAfterAppends(index, hash, init, tag);
      if tags[|tags| - 1] == tag {
        assert ListedUnder(index, tag) + Repeat(hash, Count(init, tag)) + [hash]
            == ListedUnder(index, tag) + Repeat(hash, Count(init, tag) + 1);
      }
    }
  }

  // ---------------------------------------------------------------------------
  // Batches
  // ---------------------------------------------------------------------------

  /** What each operation of a batch produces, given the clock reading and node reply at its turn. */
  function Outcomes(codec: Serializers, ops: seq<StorageOperation>, nows: seq<Timestamp>,
                    replies: seq<Result<string, string>>): (outs: seq<Result<StorageResult, IpfsError>>)
    requires |nows| == |ops| && |replies| == |ops|
    ensures |outs| == |ops|
    ensures forall i :: 0 <= i < |ops| ==> outs[i] == StoreOutcome(codec, ops[i], nows[i], replies[i])
  {
    seq(|ops|, i requires 0 <= i < |ops| => StoreOutcome(codec, ops[i], nows[i], replies[i]))
  }

  /** The stored results, in operation order. */
  function Successes(outs: seq<Result<StorageResult, IpfsError>>): seq<StorageResult> {
    if |outs| == 0 then []
    else
      var last := outs[|outs| - 1];
      Successes(outs[..|outs| - 1]) + (if last.Success? then [last.value] else [])
  }

  /** The failed operations' indices and error texts, in operation order. */
  function Failures(outs: seq<Result<StorageResult, IpfsError>>): seq<(nat, string)> {
    if |outs| == 0 then []
    else
      var last := outs[|outs| - 1];
      Failures(outs[..|outs| - 1]) + (if last.Failure? then [(|outs| - 1, last.error.ToString())] else [])
  }

  /** The sum of the stored sizes. */
  function SizeSum(results: seq<StorageResult>): nat {
    if |results| == 0 then 0 else SizeSum(results[..|results| - 1]) + results[|results| - 1].metadata.size
  }

  /** One more outcome extends exactly one of the two lists. */
  lemma OutcomesStep(outs: seq<Result<StorageResult, IpfsError>>, index: nat)
    requires index < |outs|
    ensures Successes(outs[..index + 1])
            == Successes(outs[..index]) + (if outs[index].Success? then [outs[index].value] else [])
    ensures Failures(outs[..index + 1])
            == Failures(outs[..index]) + (if outs[index].Failure? then [(index, outs[index].error.ToString())] else [])
  {
    assert outs[..index + 1][..index] == outs[..index];
  }

  /** Storing one more result adds its size. */
  lemma SizeSumAppend(results: seq<StorageResult>, stored: StorageResult)
    ensures SizeSum(results + [stored]) == SizeSum(results) + stored.metadata.size
  {
    assert (results + [stored])[..|results|] == results;
  }

  /** The manager's two indexes: metadata by hash, and hashes by tag. */
  datatype Indexes = Indexes(content: map<string, ContentMetadata>, tags: map<string, seq<string>>)

  /** Filing one outcome: a stored result is indexed as `update_indexes` does, a failure changes nothing. */
  function FileOutcome(ix: Indexes, out: Result<StorageResult, IpfsError>): Indexes {
    if out.Success? then
      Indexes(ix.content[out.value.hash := out.value.metadata],
              TagsAfter(ix.tags, out.value.hash, out.value.metadata.tags))
    else ix
  }

  /** The indexes after filing a batch's outcomes in operation order. */
  function IndexesAfter(ix: Indexes, outs: seq<Result<StorageResult, IpfsError>>): Indexes {
    if |outs| == 0 then ix else FileOutcome(IndexesAfter(ix, outs[..|outs| - 1]), outs[|outs| - 1])
  }

  /** Filing one more outcome of a batch. */
  lemma IndexesAfterStep(ix: Indexes, outs: seq<Result<StorageResult, IpfsError>>, index: nat)
    requires index < |outs|
    ensures IndexesAfter(ix, outs[..index + 1]) == FileOutcome(IndexesAfter(ix, outs[..index]), outs[index])
  {
    assert outs[..index + 1][..index] == outs[..index];
  }

  /** After a batch the content index holds the old hashes and exactly the stored ones besides. */
  lemma {:induction false} IndexesAfterKeys(ix: Indexes, outs: seq<Result<StorageResult, IpfsError>>)
    ensures IndexesAfter(ix, outs).content.Keys == ix.content.Keys + (set s | s in Successes(outs) :: s.hash)
  {
    if |outs| > 0 {
      var init := outs[..|outs| - 1];
      var last := outs[|outs| - 1];
      IndexesAfterKeys(ix, init);
      if last.Success? {
        assert Successes(outs) == Successes(init) + [last.value];
        assert (set s | s in Successes(outs) :: s.hash)
               == (set s | s in Successes(init) :: s.hash) + {last.value.hash};
      } else {
        assert Successes(outs) == Successes(init);
      }
    }
  }

  /** A batch in which every operation failed leaves both indexes as they were. */
  lemma {:induction false} FailedBatchKeepsIndexes(ix: Indexes, outs: seq<Result<StorageResult, IpfsError>>)
    requires forall i :: 0 <= i < |outs| ==> outs[i].Failure?
    ensures IndexesAfter(ix, outs) == ix
  {
    if |outs| > 0 {
      FailedBatchKeepsIndexes(ix, outs[..|outs| - 1]);
    }
  }

  /** Every operation lands in exactly one of the two lists. */
  lemma {:induction false} BatchPartition(outs: seq<Result<StorageResult, IpfsError>>)
    ensures |Successes(outs)| + |Failures(outs)| == |outs|
  {
    if |outs| > 0 {
      BatchPartition(outs[..|outs| - 1]);
    }
  }

  /**
    The failure list names each failed operation once, by its index, in increasing order,
    with the display text of its error.
   */
  lemma {:induction false} FailuresIndexed(outs: seq<Result<StorageResult, IpfsError>>)
    ensures forall j :: 0 <= j < |Failures(outs)| ==> Failures(outs)[j].0 < |outs|
    ensures forall j, k :: 0 <= j < k < |Failures(outs)| ==> Failures(outs)[j].0 < Failures(outs)[k].0
    ensures forall j :: 0 <= j < |Failures(outs)| ==>
                          var i := Failures(outs)[j].0;
                          outs[i].Failure? && Failures(outs)[j].1 == outs[i].error.ToString()
    ensures forall i :: 0 <= i < |outs| && outs[i].Failure? ==> exists j :: 0 <= j < |Failures(outs)| && Failures(outs)[j].0 == i
  {
    if |outs| > 0 {
      var init := outs[..|outs| - 1];
      FailuresIndexed(init);
      var f := Failures(outs);
      assert f[..|Failures(init)|] == Failures(init);
      forall i | 0 <= i < |outs| && outs[i].Failure?
        ensures exists j :: 0 <= j < |f| && f[j].0 == i
      {
        if i < |outs| - 1 {
          assert init[i] == outs[i];
          var j :| 0 <= j < |Failures(init)| && Failures(init)[j].0 == i;
          assert f[j] == Failures(init)[j];
        } else {
          assert f[|f| - 1].0 == i;
        }
      }
    }
  }

  /** Operation `i` is listed in a failure list. */
  predicate FailedAt(failed: seq<(nat, string)>, i: nat) {
    exists j :: 0 <= j < |failed| && failed[j].0 == i
  }

  /** In a batch, an operation fails exactly when the node refused its content, and says so. */
  lemma BatchFailsExactlyOnRefusals(codec: Serializers, ops: seq<StorageOperation>, nows: seq<Timestamp>,
                                    replies: seq<Result<string, string>>)
    requires |nows| == |ops| && |replies| == |ops|
    ensures var failed := Failures(Outcomes(codec, ops, nows, replies));
            && (forall i :: 0 <= i < |ops| ==> (replies[i].Failure? <==> FailedAt(failed, i)))
            && (forall j :: 0 <= j < |failed| ==>
                  0 <= failed[j].0 < |ops| &&
                  failed[j].1 == StorageError("IPFS add failed: " + replies[failed[j].0].error).ToString())
  {
    var outs := Outcomes(codec, ops, nows, replies);
    var failed := Failures(outs);
    FailuresIndexed(outs);
    forall i | 0 <= i < |ops|
      ensures replies[i].Failure? <==> FailedAt(failed, i)
    {
      assert replies[i].Failure? <==> outs[i].Failure?;
      if replies[i].Success? {
        forall j | 0 <= j < |failed|
          ensures failed[j].0 != i
        {
          assert outs[failed[j].0].Failure?;
        }
      }
    }
  }

  // ---------------------------------------------------------------------------
  // Statistics helpers
  // ---------------------------------------------------------------------------

  /** The sum of the sizes of a list of metadata records. */
  function SizeTotal(ms: seq<ContentMetadata>): nat {
    if |ms| == 0 then 0 else SizeTotal(ms[..|ms| - 1]) + ms[|ms| - 1].size
  }

  /** The count map after one more item of type `t`. */
  function Bump(counts: map<ContentType, nat>, t: ContentType): map<ContentType, nat> {
    counts[t := (if t in counts then counts[t] else 0) + 1]
  }

  /** How many items of each type a list holds, as `type_counts` accumulates them. */
  function TypeCounts(ms: seq<ContentMetadata>): map<ContentType, nat> {
    if |ms| == 0 then map[] else Bump(TypeCounts(ms[..|ms| - 1]), ms[|ms| - 1].contentType)
  }

  /** Items of type `t` in a list. */
  function CountType(ms: seq<ContentMetadata>, t: ContentType): nat {
    if |ms| == 0 then 0 else CountType(ms[..|ms| - 1], t) + (if ms[|ms| - 1].contentType == t then 1 else 0)
  }

  /** A type is in the count map exactly when an item has it, and then with the exact number of such items. */
  lemma {:induction false} TypeCountsExact(ms: seq<ContentMetadata>, t: ContentType)
    ensures t in TypeCounts(ms) <==> CountType(ms, t) > 0
    ensures t in TypeCounts(ms) ==> TypeCounts(ms)[t] == CountType(ms, t)
  {
    if |ms| > 0 {
      TypeCountsExact(ms[..|ms| - 1], t);
    }
  }

  ghost function PickKey<K(!new)>(m: map<K, nat>): K
    requires |m| > 0
  {
    var k :| k in m; k
  }

  /** The sum of the values of a map. */
  ghost function MapSum<K(!new)>(m: map<K, nat>): nat
    decreases |m|
  {
    if |m| == 0 then 0 else var k := PickKey(m); m[k] + MapSum(m - {k})
  }

  lemma {:induction false} MapSumRemove<K(!new)>(m: map<K, nat>, k: K)
    requires k in m
    ensures MapSum(m) == m[k] + MapSum(m - {k})
    decreases |m|
  {
    var j := PickKey(m);
    if j != k {
      MapSumRemove(m - {j}, k);
      MapSumRemove(m - {k}, j);
      assert m - {j} - {k} == m - {k} - {j};
    }
  }

  /** One more item adds one to the sum of the counts. */
  lemma BumpSum(counts: map<ContentType, nat>, t: ContentType)
    ensures MapSum(Bump(counts, t)) == MapSum(counts) + 1
  {
    var bumped := Bump(counts, t);
    MapSumRemove(bumped, t);
    assert bumped - {t} == counts - {t};
    if t in counts {
      MapSumRemove(counts, t);
    } else {
      assert counts - {t} == counts;
    }
  }

  /** Counting one more item of a list bumps the count of its type. */
  lemma TypeCountsStep(ms: seq<ContentMetadata>, i: nat)
    requires i < |ms|
    ensures TypeCounts(ms[..i + 1]) == Bump(TypeCounts(ms[..i]), ms[i].contentType)
  {
    assert ms[..i + 1][..i] == ms[..i];
  }

  /** The type counts add up to the number of items counted. */
  lemma {:induction false} TypeCountsSum(ms: seq<ContentMetadata>)
    ensures MapSum(TypeCounts(ms)) == |ms|
  {
    if |ms| > 0 {
      TypeCountsSum(ms[..|ms| - 1]);
      BumpSum(TypeCounts(ms[..|ms| - 1]), ms[|ms| - 1].contentType);
    }
  }

  // ---------------------------------------------------------------------------
  // The manager
  // ---------------------------------------------------------------------------

  /** The hashes of `hashes` that have a record, in order. */
  function Indexed(contentIndex: map<string, ContentMetadata>, hashes: seq<string>): seq<string> {
    if |hashes| == 0 then []
    else
      var last := hashes[|hashes| - 1];
      Indexed(contentIndex, hashes[..|hashes| - 1]) + (if last in contentIndex then [last] else [])
  }

  /** The hashes kept from a list are exactly those of its hashes that have a record. */
  lemma {:induction false} IndexedElements(contentIndex: map<string, ContentMetadata>, hashes: seq<string>)
    ensures forall h :: h in Indexed(contentIndex, hashes) <==> h in contentIndex && h in hashes
  {
    if |hashes| > 0 {
      var n := |hashes| - 1;
      IndexedElements(contentIndex, hashes[..n]);
      assert hashes == hashes[..n] + [hashes[n]];
    }
  }

  /** One more hash of a tag's list is visited when it has a record. */
  lemma IndexedStep(contentIndex: map<string, ContentMetadata>, hashes: seq<string>, j: nat)
    requires j < |hashes|
    ensures Indexed(contentIndex, hashes[..j + 1])
            == Indexed(contentIndex, hashes[..j]) + (if hashes[j] in contentIndex then [hashes[j]] else [])
  {
    assert hashes[..j + 1][..j] == hashes[..j];
  }

  /** The hashes `find_by_tags` visits: each tag's list in tag order, keeping those with a record. */
  function Visited(contentIndex: map<string, ContentMetadata>, tagsIndex: map<string, seq<string>>,
                   tags: seq<string>): seq<string>
  {
    if |tags| == 0 then []
    else
      var last := tags[|tags| - 1];
      Visited(contentIndex, tagsIndex, tags[..|tags| - 1])
        + (if last in tagsIndex then Indexed(contentIndex, tagsIndex[last]) else [])
  }

  /** Visiting one more tag appends its indexed hashes. */
  lemma VisitedStep(contentIndex: map<string, ContentMetadata>, tagsIndex: map<string, seq<string>>,
                    tags: seq<string>, i: nat)
    requires i < |tags|
    ensures Visited(contentIndex, tagsIndex, tags[..i + 1])
            == Visited(contentIndex, tagsIndex, tags[..i])
               + (if tags[i] in tagsIndex then Indexed(contentIndex, tagsIndex[tags[i]]) else [])
  {
    assert tags[..i + 1][..i] == tags[..i];
  }

  /** The hashes visited are exactly the indexed hashes listed under one of the tags. */
  lemma {:induction false} VisitedExactly(contentIndex: map<string, ContentMetadata>,
                                          tagsIndex: map<string, seq<string>>, tags: seq<string>)
    ensures forall h :: h in Visited(contentIndex, tagsIndex, tags) <==>
              h in contentIndex && exists t :: t in tags && t in tagsIndex && h in tagsIndex[t]
  {
    if |tags| > 0 {
      var n := |tags| - 1;
      VisitedExactly(contentIndex, tagsIndex, tags[..n]);
      if tags[n] in tagsIndex {
        IndexedElements(contentIndex, tagsIndex[tags[n]]);
      }
      assert tags == tags[..n] + [tags[n]];
    }
  }

  /** `s` with every element kept at its first occurrence only: the same elements, none twice. */
  function FirstOccurrences(s: seq<string>): seq<string> {
    if |s| == 0 then []
    else
      var d := FirstOccurrences(s[..|s| - 1]);
      var last := s[|s| - 1];
      if last in d then d else d + [last]
  }

  /** Keeping first occurrences keeps every element and repeats none. */
  lemma {:induction false} FirstOccurrencesDistinct(s: seq<string>)
    ensures forall h :: h in FirstOccurrences(s) <==> h in s
    ensures forall p, q :: 0 <= p < q < |FirstOccurrences(s)| ==> FirstOccurrences(s)[p] != FirstOccurrences(s)[q]
  {
    if |s| > 0 {
      var n := |s| - 1;
      FirstOccurrencesDistinct(s[..n]);
      assert s == s[..n] + [s[n]];
      var d := FirstOccurrences(s[..n]);
      if s[n] !in d {
        assert FirstOccurrences(s) == d + [s[n]];
        forall p, q | 0 <= p < q < |d| + 1
          ensures (d + [s[n]])[p] != (d + [s[n]])[q]
        {
          if q == |d| {
            assert d[p] in d;
          }
        }
      }
    }
  }

  /** Appending one element keeps it only when it is new. */
  lemma FirstOccurrencesAppend(s: seq<string>, h: string)
    ensures FirstOccurrences(s + [h])
            == if h in FirstOccurrences(s) then FirstOccurrences(s) else FirstOccurrences(s) + [h]
  {
    assert (s + [h])[..|s|] == s;
  }

  class StorageManager {
    /** The serialisers of the client the manager owns. */
    const codec: Serializers
    var contentIndex: map<string, ContentMetadata>
    var tagsIndex: map<string, seq<string>>

    /** Metadata is filed under its own hash, and every hash the tag index lists is in the content index. */
    ghost predicate Valid()
      reads this
    {
      && (forall h :: h in contentIndex ==> contentIndex[h].hash == h)
      && (forall t, h :: t in tagsIndex && h in tagsIndex[t] ==> h in contentIndex)
    }

    /** `StorageManager::new`. */
    constructor (codec: Serializers)
      ensures Valid()
      ensures this.codec == codec && contentIndex == map[] && tagsIndex == map[]
    {
      this.codec := codec;
      contentIndex := map[];
      tagsIndex := map[];
    }

    /** `update_indexes`: file the metadata under the hash and push the hash onto each of its tags' lists. */
    method UpdateIndexes(result: StorageResult)
      modifies this
      ensures contentIndex == old(contentIndex)[result.hash := result.metadata]
      ensures tagsIndex == TagsAfter(old(tagsIndex), result.hash, result.metadata.tags)
      ensures old(Valid()) && result.hash == result.metadata.hash ==> Valid()
    {
      var hash := result.hash;
      contentIndex := contentIndex[hash := result.metadata];
      var tags := result.metadata.tags;
      var i := 0;
      while i < |tags|
        invariant 0 <= i <= |tags|
        invariant contentIndex == old(contentIndex)[hash := result.metadata]
        invariant tagsIndex == TagsAfter(old(tagsIndex), hash, tags[..i])
        invariant old(Valid()) && result.hash == result.metadata.hash ==> Valid()
      {
        var tag := tags[i];
        var list := if tag in tagsIndex then tagsIndex[tag] else [];
        tagsIndex := tagsIndex[tag := list + [hash]];
        assert tags[..i + 1][..i] == tags[..i];
        i := i + 1;
      }
      assert tags[..|tags|] == tags;
    }

    /** `store_with_index` at time `now`, the node answering `addReply`. */
    method StoreWithIndex(op: StorageOperation, now: Timestamp, addReply: Result<string, string>)
      returns (r: Result<StorageResult, IpfsError>)
      modifies this
      ensures r == StoreOutcome(codec, op, now, addReply)
      ensures r.Failure? ==> contentIndex == old(contentIndex) && tagsIndex == old(tagsIndex)
      ensures r.Success? ==>
                && contentIndex == old(contentIndex)[r.value.hash := r.value.metadata]
                && tagsIndex == TagsAfter(old(tagsIndex), r.value.hash, r.value.metadata.tags)
      ensures old(contentIndex).Keys <= contentIndex.Keys
      ensures r.Success? ==> r.value.hash in contentIndex
      ensures old(Valid()) ==> Valid()
    {
      r := StoreOutcome(codec, op, now, addReply);
      if r.Success? {
        UpdateIndexes(r.value);
      }
    }

    /** One turn of the `execute_batch` loop: store operation `index` and file its outcome. */
    method BatchStep(ghost start: Indexes, ghost outs: seq<Result<StorageResult, IpfsError>>, index: nat,
                     op: StorageOperation,
                     now: Timestamp, reply: Result<string, string>,
                     successful: seq<StorageResult>, failed: seq<(nat, string)>, totalSize: nat)
      returns (nextSuccessful: seq<StorageResult>, nextFailed: seq<(nat, string)>, nextTotalSize: nat)
      requires index < |outs| && outs[index] == StoreOutcome(codec, op, now, reply)
      requires successful == Successes(outs[..index]) && failed == Failures(outs[..index])
      requires totalSize == SizeSum(successful)
      requires forall s :: s in successful ==> s.hash in contentIndex
      requires Indexes(contentIndex, tagsIndex) == IndexesAfter(start, outs[..index])
      modifies this
      ensures nextSuccessful == Successes(outs[..index + 1]) && nextFailed == Failures(outs[..index + 1])
      ensures Indexes(contentIndex, tagsIndex) == IndexesAfter(start, outs[..index + 1])
      ensures nextTotalSize == SizeSum(nextSuccessful)
      ensures old(contentIndex).Keys <= contentIndex.Keys
      ensures forall s :: s in nextSuccessful ==> s.hash in contentIndex
      ensures old(Valid()) ==> Valid()
    {
      ghost var before := contentIndex.Keys;
      var result := StoreWithIndex(op, now, reply);
      OutcomesStep(outs, index);
      IndexesAfterStep(start, outs, index);
      if result.Success? {
        var stored := result.value;
        SizeSumAppend(successful, stored);
        nextSuccessful, nextFailed, nextTotalSize :=
          successful + [stored], failed, totalSize + stored.metadata.size;
        forall s | s in nextSuccessful
          ensures s.hash in contentIndex
        {
          if s != stored {
            assert s.hash in before;
          }
        }
      } else {
        nextSuccessful, nextFailed, nextTotalSize :=
          successful, failed + [(index, result.error.ToString())], totalSize;
      }
    }

    /**
      `execute_batch`: every operation is attempted in order; operation `i` runs at time
      `nows[i]` and the node answers it `replies[i]`.
     */
    method ExecuteBatch(batch: BatchOperation, nows: seq<Timestamp>, replies: seq<Result<string, string>>)
      returns (r: BatchResult)
      requires |nows| == |batch.operations| && |replies| == |batch.operations|
      modifies this
      ensures var outs := Outcomes(codec, batch.operations, nows, replies);
              r.successful == Successes(outs) && r.failed == Failures(outs)
      ensures Indexes(contentIndex, tagsIndex)
              == IndexesAfter(Indexes(old(contentIndex), old(tagsIndex)), Outcomes(codec, batch.operations, nows, replies))
      ensures r.totalSize == SizeSum(r.successful)
      ensures r.totalOperations == |r.successful| + |r.failed| == |batch.operations|
      ensures old(contentIndex).Keys <= contentIndex.Keys
      ensures forall s :: s in r.successful ==> s.hash in contentIndex
      ensures old(Valid()) ==> Valid()
    {
      var ops := batch.operations;
      ghost var outs := Outcomes(codec, ops, nows, replies);
      ghost var start := Indexes(contentIndex, tagsIndex);
      var successful: seq<StorageResult> := [];
      var failed: seq<(nat, string)> := [];
      var totalSize: nat := 0;
      var index := 0;
      while index < |ops|
        invariant 0 <= index <= |ops|
        invariant successful == Successes(outs[..index]) && failed == Failures(outs[..index])
        invariant totalSize == SizeSum(successful)
        invariant old(contentIndex).Keys <= contentIndex.Keys
        invariant forall s :: s in successful ==> s.hash in contentIndex
        invariant Indexes(contentIndex, tagsIndex) == IndexesAfter(start, outs[..index])
        invariant old(Valid()) ==> Valid()
      {
        successful, failed, totalSize :=
          BatchStep(start, outs, index, ops[index], nows[index], replies[index], successful, failed, totalSize);
        index := index + 1;
      }
      assert outs[..|ops|] == outs;
      BatchPartition(outs);
      r := BatchResult(successful, failed, totalSize, |successful| + |failed|);
    }

    /** `get_metadata`. */
    function GetMetadata(hash: string): (r: Option<ContentMetadata>)
      reads this
      ensures r.Some? <==> hash in contentIndex
      ensures r.Some? ==> r.value == contentIndex[hash]
    {
      if hash in contentIndex then Some(contentIndex[hash]) else None
    }

    /** `list_all`, without its order. */
    function ListAll(): set<ContentMetadata>
      reads this
    {
      contentIndex.Values
    }

    /** `search`, without its order: the indexed records the criteria let through. */
    function Search(c: SearchCriteria): (r: set<ContentMetadata>)
      reads this
      ensures r <= ListAll()
      ensures forall h :: h in contentIndex ==> (contentIndex[h] in r <==> MatchesCriteria(contentIndex[h], c))
    {
      set m | m in contentIndex.Values && MatchesCriteria(m, c)
    }

    /** Searching with fresh criteria lists everything. */
    lemma SearchWithNewCriteriaListsAll()
      ensures Search(NewCriteria()) == ListAll()
    {
      forall m | m in ListAll()
        ensures m in Search(NewCriteria())
      {
        NewCriteriaMatchesAll(m);
      }
    }

    /** Adding a type filter to criteria without one only removes results. */
    lemma TypeFilterNarrowsSearch(c: SearchCriteria, t: ContentType)
      requires c.contentType.None?
      ensures Search(WithContentType(c, t)) <= Search(c)
      ensures forall m :: m in Search(WithContentType(c, t)) ==> m.contentType == t
    {
    }

    /** `results` holds, position by position, the records of the hashes of `order`. */
    ghost predicate InOrder(results: seq<ContentMetadata>, order: seq<string>)
      reads this
    {
      && |results| == |order|
      && forall k :: 0 <= k < |results| ==> order[k] in contentIndex && results[k] == contentIndex[order[k]]
    }

    ghost predicate ListedUnderAny(h: string, tags: seq<string>)
      reads this
    {
      exists t :: t in tags && t in tagsIndex && h in tagsIndex[t]
    }

    /**
      `find_by_tags`: the indexed records listed under any of the tags, each once (by hash),
      and all of them, in the order they are first visited (tag by tag, each tag's list in order).
     */
    method FindByTags(tags: seq<string>) returns (results: seq<ContentMetadata>)
      requires Valid()
      ensures forall i, j :: 0 <= i < j < |results| ==> results[i].hash != results[j].hash
      ensures forall m :: m in results ==>
                            m.hash in contentIndex && contentIndex[m.hash] == m && ListedUnderAny(m.hash, tags)
      ensures forall h :: h in contentIndex && ListedUnderAny(h, tags) ==> contentIndex[h] in results
      ensures InOrder(results, FirstOccurrences(Visited(contentIndex, tagsIndex, tags)))
    {
      results := [];
      var i := 0;
      while i < |tags|
        invariant 0 <= i <= |tags|
        invariant InOrder(results, FirstOccurrences(Visited(contentIndex, tagsIndex, tags[..i])))
      {
        var tag := tags[i];
        ghost var visited := Visited(contentIndex, tagsIndex, tags[..i]);
        VisitedStep(contentIndex, tagsIndex, tags, i);
        if tag in tagsIndex {
          results := CollectTag(tagsIndex[tag], visited, results);
          assert Visited(contentIndex, tagsIndex, tags[..i + 1]) == visited + Indexed(contentIndex, tagsIndex[tag]);
        } else {
          assert visited + [] == visited;
        }
        i := i + 1;
      }
      assert tags[..|tags|] == tags;
      VisitedExactly(contentIndex, tagsIndex, tags);
      FirstOccurrencesDistinct(Visited(contentIndex, tagsIndex, tags));
      InOrderSummary(results, FirstOccurrences(Visited(contentIndex, tagsIndex, tags)), tags);
    }

    /** The inner loop of `find_by_tags`: the records of one tag's list, each added unless already collected. */
    method CollectTag(hashes: seq<string>, ghost visited: seq<string>, results: seq<ContentMetadata>)
      returns (collected: seq<ContentMetadata>)
      requires Valid() && InOrder(results, FirstOccurrences(visited))
      ensures InOrder(collected, FirstOccurrences(visited + Indexed(contentIndex, hashes)))
    {
      collected := results;
      assert visited + Indexed(contentIndex, hashes[..0]) == visited;
      var j := 0;
      while j < |hashes|
        invariant 0 <= j <= |hashes|
        invariant InOrder(collected, FirstOccurrences(visited + Indexed(contentIndex, hashes[..j])))
      {
        var hash := hashes[j];
        ghost var seen := visited + Indexed(contentIndex, hashes[..j]);
        IndexedStep(contentIndex, hashes, j);
        assert visited + Indexed(contentIndex, hashes[..j + 1]) == seen + (if hash in contentIndex then [hash] else []);
        if hash in contentIndex {
          var metadata := contentIndex[hash];
          FirstOccurrencesAppend(seen, hash);
          AlreadyCollected(collected, FirstOccurrences(seen), hash);
          if !(exists m :: m in collected && m.hash == metadata.hash) {
            InOrderAppend(collected, FirstOccurrences(seen), hash);
            collected := collected + [metadata];
          }
        } else {
          assert seen + [] == seen;
        }
        j := j + 1;
      }
      assert hashes[..|hashes|] == hashes;
    }

    /** Collecting the record of a new hash extends the order by that hash. */
    lemma InOrderAppend(results: seq<ContentMetadata>, order: seq<string>, hash: string)
      requires InOrder(results, order) && hash in contentIndex
      ensures InOrder(results + [contentIndex[hash]], order + [hash])
    {
    }

    /** Under `Valid()`, a record is already collected exactly when its hash is in the order so far. */
    lemma AlreadyCollected(results: seq<ContentMetadata>, order: seq<string>, hash: string)
      requires Valid() && InOrder(results, order) && hash in contentIndex
      ensures (exists m :: m in results && m.hash == contentIndex[hash].hash) <==> hash in order
    {
      if hash in order {
        var k :| 0 <= k < |order| && order[k] == hash;
        assert results[k] in results && results[k].hash == hash;
      }
    }

    /**
      Records in the order of the distinct visited hashes have no repeated hash, are all indexed
      and listed under one of the tags, and include every such record.
     */
    lemma InOrderSummary(results: seq<ContentMetadata>, order: seq<string>, tags: seq<string>)
      requires Valid() && InOrder(results, order)
      requires forall p, q :: 0 <= p < q < |order| ==> order[p] != order[q]
      requires forall h :: h in order <==> h in contentIndex && ListedUnderAny(h, tags)
      ensures forall i, j :: 0 <= i < j < |results| ==> results[i].hash != results[j].hash
      ensures forall m :: m in results ==>
                            m.hash in contentIndex && contentIndex[m.hash] == m && ListedUnderAny(m.hash, tags)
      ensures forall h :: h in contentIndex && ListedUnderAny(h, tags) ==> contentIndex[h] in results
    {
      forall h | h in contentIndex && ListedUnderAny(h, tags)
        ensures contentIndex[h] in results
      {
        var k :| 0 <= k < |order| && order[k] == h;
        assert results[k] == contentIndex[h];
      }
    }

    /**
      `get_statistics`, `order` being the content index's iteration order: the item count, the
      total size, the number of items per type (which add up to the item count) and the number
      of tags.
     */
    method GetStatistics(order: seq<string>) returns (stats: StorageStatistics)
      requires Enumerates(order, contentIndex.Keys)
      ensures stats.totalItems == |contentIndex| && stats.totalTags == |tagsIndex|
      ensures stats.totalSize == SizeTotal(Metadatas(order))
      ensures stats.typeCounts == TypeCounts(Metadatas(order))
      ensures MapSum(stats.typeCounts) == stats.totalItems
    {
      ghost var ms := Metadatas(order);
      var counts: map<ContentType, nat> := map[];
      var i := 0;
      while i < |order|
        invariant 0 <= i <= |order|
        invariant counts == TypeCounts(ms[..i])
      {
        var t := contentIndex[order[i]].contentType;
        counts := counts[t := (if t in counts then counts[t] else 0) + 1];
        TypeCountsStep(ms, i);
        i := i + 1;
      }
      assert ms[..|order|] == ms;
      EnumerationSize(order, contentIndex.Keys);
      TypeCountsSum(ms);
      stats := StorageStatistics(|contentIndex|, SizeTotal(Metadatas(order)), counts, |tagsIndex|);
    }

    /** The indexed records, in the order `order` lists their hashes. */
    function Metadatas(order: seq<string>): (ms: seq<ContentMetadata>)
      requires forall h :: h in order ==> h in contentIndex
      reads this
      ensures |ms| == |order| && forall i :: 0 <= i < |order| ==> ms[i] == contentIndex[order[i]]
    {
      seq(|order|, i requires 0 <= i < |order| && order[i] in contentIndex reads this => contentIndex[order[i]])
    }
  }
}
