/** One tenant's documents cut into commits: each chunk ends with the document that reaches the target. */
module IndexChunks {

  import opened Saturating
  import opened MessageDocument
  import opened IndexPreparation
  import CoordinatorState
  import CoordinatorInvariant
  import CoordinatorAccounting

  datatype Prepared = Prepared(
    messageId: int, accountId: int, mailboxId: int, projectedBytes: uint64, projection: Projection)

  datatype Chunk = Chunk(userId: int, accountId: int, mailboxId: int, projectedBytes: uint64, documents: seq<Prepared>)

  // ----- what a chunk says about its documents -----

  function Extend(chunk: Chunk, document: Prepared): Chunk {
    var first := chunk.documents == [];
    Chunk(chunk.userId,
          if first || chunk.accountId == document.accountId then document.accountId else 0,
          if first || chunk.mailboxId == document.mailboxId then document.mailboxId else 0,
          SaturatingAdd(chunk.projectedBytes, document.projectedBytes),
          chunk.documents + [document])
  }

  function ChunkOf(userId: int, documents: seq<Prepared>): Chunk {
    if documents == [] then Chunk(userId, 0, 0, 0, [])
    else Extend(ChunkOf(userId, documents[..|documents| - 1]), documents[|documents| - 1])
  }

  function Counts(documents: seq<Prepared>): seq<uint64> {
    seq(|documents|, i requires 0 <= i < |documents| => documents[i].projectedBytes)
  }

  /** The true number of bytes of the documents. */
  function TrueBytes(documents: seq<Prepared>): nat {
    Sum(Counts(documents))
  }

  ghost predicate ShareAccount(documents: seq<Prepared>) {
    forall i :: 0 <= i < |documents| ==> documents[i].accountId == documents[0].accountId
  }

  ghost predicate ShareMailbox(documents: seq<Prepared>) {
    forall i :: 0 <= i < |documents| ==> documents[i].mailboxId == documents[0].mailboxId
  }

  /** The chunk names an account, or a mailbox, when all its documents share it, and 0 otherwise. */
  lemma {:induction false} ChunkNamesWhatIsShared(userId: int, documents: seq<Prepared>)
    requires documents != []
    ensures ChunkOf(userId, documents).userId == userId && ChunkOf(userId, documents).documents == documents
    ensures ChunkOf(userId, documents).accountId == if ShareAccount(documents) then documents[0].accountId else 0
    ensures ChunkOf(userId, documents).mailboxId == if ShareMailbox(documents) then documents[0].mailboxId else 0
  {
    hide ChunkOf, ShareAccount, ShareMailbox, SaturatingAdd;
    var init, last := documents[..|documents| - 1], documents[|documents| - 1];
    assert documents == init + [last];
    OneMoreDocument(userId, init, last);
    if init == [] {
      OneDocument(userId, last);
    } else {
      ChunkNamesWhatIsShared(userId, init);
      ShareOneMore(init, last);
    }
  }

  lemma OneMoreDocument(userId: int, init: seq<Prepared>, last: Prepared)
    ensures ChunkOf(userId, init + [last]) == Extend(ChunkOf(userId, init), last)
  {
    assert (init + [last])[..|init|] == init;
  }

  lemma OneDocument(userId: int, document: Prepared)
    ensures ChunkOf(userId, []) == Chunk(userId, 0, 0, 0, [])
    ensures ShareAccount([document]) && ShareMailbox([document])
  {
  }

  lemma ShareOneMore(init: seq<Prepared>, last: Prepared)
    requires init != []
    ensures ShareAccount(init + [last]) <==> ShareAccount(init) && init[0].accountId == last.accountId
    ensures ShareMailbox(init + [last]) <==> ShareMailbox(init) && init[0].mailboxId == last.mailboxId
  {
    var all := init + [last];
    assert all[|init|] == last && forall i :: 0 <= i < |init| ==> all[i] == init[i];
  }

  /** Its byte count is the true one, unless that leaves 64 bits. */
  lemma {:induction false} ChunkCounts(userId: int, documents: seq<Prepared>)
    ensures ChunkOf(userId, documents).projectedBytes == Capped(TrueBytes(documents))
  {
    if documents != [] {
      var init, last := documents[..|documents| - 1], documents[|documents| - 1];
      ChunkCounts(userId, init);
      BytesSnoc(init, last);
      assert documents == init + [last];
    }
  }

  lemma BytesSnoc(documents: seq<Prepared>, document: Prepared)
    ensures TrueBytes(documents + [document]) == TrueBytes(documents) + document.projectedBytes
  {
    assert Counts(documents + [document]) == Counts(documents) + [document.projectedBytes];
    assert Counts(documents + [document])[..|documents|] == Counts(documents);
  }

  /** The chunk under construction. */
  class MessageIndexChunk {
    const userId: int
    var accountId: int
    var mailboxId: int
    var projectedBytes: uint64
    var documents: seq<Prepared>

    constructor (userId: int)
      ensures Value() == ChunkOf(userId, [])
    {
      this.userId := userId;
      accountId, mailboxId, projectedBytes, documents := 0, 0, 0, [];
    }

    function Value(): Chunk
      reads this
    {
      Chunk(userId, accountId, mailboxId, projectedBytes, documents)
    }

    method Append(document: Prepared)
      modifies this
      ensures Value() == Extend(old(Value()), document) && Value().projectedBytes == projectedBytes
    {
      if |documents| == 0 {
        accountId := document.accountId;
        mailboxId := document.mailboxId;
      } else {
        if accountId != document.accountId {
          accountId := 0;
        }
        if mailboxId != document.mailboxId {
          mailboxId := 0;
        }
      }
      projectedBytes := SaturatingAdd(projectedBytes, document.projectedBytes);
      documents := documents + [document];
    }
  }

  // ----- projecting -----

  /** The fields of the projection that have been visited. */
  function Visited(projection: Projection, left: set<string>): Projection {
    map name | name in projection && name !in left :: projection[name]
  }

  lemma VisitOneMore(projection: Projection, left: set<string>, name: string)
    requires left <= projection.Keys && name in left
    ensures TextBytes(Visited(projection, left - {name})) == TextBytes(Visited(projection, left)) + Size(projection[name])
  {
    var more := Visited(projection, left - {name});
    TextBytesSplit(more, name);
    assert more - {name} == Visited(projection, left);
  }

  /** The sum over a map's text fields, visited in whatever order the map yields them. */
  method ProjectedDocumentStringBytes(projection: Projection) returns (total: uint64)
    ensures total == Capped(TextBytes(projection))
  {
    total := 0;
    var left := projection.Keys;
    assert Visited(projection, left) == map[];
    assert TextBytes(Visited(projection, left)) == 0;
    hide TextBytes;
    while left != {}
      invariant left <= projection.Keys
      invariant total == Capped(TextBytes(Visited(projection, left)))
      decreases |left|
    {
      var name :| name in left;
      VisitOneMore(projection, left, name);
      if projection[name].Words? {
        total := SaturatingAdd(total, Capped(|projection[name].text|));
      }
      left := left - {name};
    }
    assert Visited(projection, left) == projection;
  }

  ghost function Prepare(projector: Projector, document: IndexDocument): Prepared {
    var projection := projector(document.message, document.attachments);
    Prepared(document.message.id, document.message.accountId, document.message.mailboxId,
             Capped(TextBytes(projection)), projection)
  }

  ghost function PrepareAll(projector: Projector, documents: seq<IndexDocument>): (prepared: seq<Prepared>)
    ensures |prepared| == |documents|
  {
    seq(|documents|, i requires 0 <= i < |documents| => Prepare(projector, documents[i]))
  }

  // ----- the iterator -----

  /** The chunk that starts at from ends at to: no sooner than the target allows, no later than it asks. */
  ghost predicate IsNextChunk(prepared: seq<Prepared>, target: uint64, from: nat, to: nat) {
    && from < to <= |prepared|
    && (to < |prepared| ==> TrueBytes(prepared[from..to]) >= target)
    && forall e :: from < e < to ==> TrueBytes(prepared[from..e]) < target
  }

  ghost predicate Yields(chunk: Chunk, userId: int, prepared: seq<Prepared>, target: uint64, from: nat, to: nat) {
    IsNextChunk(prepared, target, from, to) && chunk == ChunkOf(userId, prepared[from..to])
  }

  datatype Outcome = Produced(chunk: Chunk) | Exhausted | Failed

  class MessageIndexChunkIterator {
    const userId: int
    const documents: seq<IndexDocument>
    const targetBytes: uint64
    const projector: Projector
    var next: nat

    constructor (plan: TenantPlan, targetBytes: uint64, projector: Projector)
      ensures next == 0 && this.userId == plan.userId && this.documents == plan.documents
      ensures this.targetBytes == (if targetBytes == 0 then CHUNK_TARGET_BYTES else targetBytes)
      ensures this.projector == projector
    {
      this.userId, this.documents := plan.userId, plan.documents;
      this.targetBytes := if targetBytes == 0 then CHUNK_TARGET_BYTES else targetBytes;
      this.projector := projector;
      next := 0;
    }

    ghost function Input(): (input: seq<Prepared>)
      ensures |input| == |documents|
    {
      PrepareAll(projector, documents)
    }

    method ProjectNext() returns (prepared: Prepared)
      requires next < |documents|
      modifies this
      ensures next == old(next) + 1 && prepared == Input()[old(next)]
    {
      var document := documents[next];
      next := next + 1;
      var projection := projector(document.message, document.attachments);
      var projectedBytes := ProjectedDocumentStringBytes(projection);
      prepared := Prepared(document.message.id, document.message.accountId, document.message.mailboxId,
                           projectedBytes, projection);
    }

    /** Either the next chunk, complete; or nothing, because all is done or the request was canceled. A canceled
        call may have consumed documents; they are in no chunk. */
    method Next(ctx: Context) returns (outcome: Outcome)
      requires targetBytes > 0
      modifies this, ctx
      ensures old(ctx.canceled) ==> ctx.canceled
      ensures match outcome
              case Exhausted => next == old(next) >= |documents|
              case Failed => old(next) < |documents| && old(next) <= next <= |documents| && ctx.canceled
              case Produced(chunk) =>
                old(next) < next <= |documents| && Yields(chunk, userId, Input(), targetBytes, old(next), next)
    {
      hide *;
      if next >= |documents| {
        return Exhausted;
      }
      var failed := ctx.Err();
      if failed {
        return Failed;
      }
      var chunk := new MessageIndexChunk(userId);
      ghost var from, input := next, Input();
      FillBegins(userId, input, from, targetBytes);
      while next < |documents|
        invariant from <= next <= |documents| && fresh(chunk)
        invariant Filling(chunk.Value(), userId, input, from, next, targetBytes)
        invariant old(ctx.canceled) ==> ctx.canceled
      {
        failed := ctx.Err();
        if failed {
          return Failed;
        }
        FillOneMore(chunk.Value(), userId, input, from, next, targetBytes);
        var prepared := ProjectNext();
        chunk.Append(prepared);
        if chunk.projectedBytes >= targetBytes {
          return Produced(chunk.Value());
        }
      }
      FillEnds(chunk.Value(), userId, input, from, targetBytes);
      return Produced(chunk.Value());
    }
  }

  /** The chunk holds the documents so far, and the target is not reached. */
  ghost predicate Filling(chunk: Chunk, userId: int, input: seq<Prepared>, from: nat, next: nat, target: uint64)
    requires from <= next <= |input|
  {
    && chunk == ChunkOf(userId, input[from..next])
    && forall e :: from < e <= next ==> TrueBytes(input[from..e]) < target
  }

  lemma FillBegins(userId: int, input: seq<Prepared>, from: nat, target: uint64)
    requires from < |input|
    ensures Filling(ChunkOf(userId, []), userId, input, from, from, target)
  {
    assert input[from..from] == [];
  }

  lemma FillOneMore(chunk: Chunk, userId: int, input: seq<Prepared>, from: nat, next: nat, target: uint64)
    requires from <= next < |input| && Filling(chunk, userId, input, from, next, target)
    ensures var longer := Extend(chunk, input[next]);
            && (longer.projectedBytes < target ==> Filling(longer, userId, input, from, next + 1, target))
            && (longer.projectedBytes >= target ==> Yields(longer, userId, input, target, from, next + 1))
  {
    hide TrueBytes;
    ChunkSnoc(userId, input, from, next + 1);
  }

  lemma FillEnds(chunk: Chunk, userId: int, input: seq<Prepared>, from: nat, target: uint64)
    requires from < |input| && Filling(chunk, userId, input, from, |input|, target)
    ensures Yields(chunk, userId, input, target, from, |input|)
  {
  }

  lemma ChunkSnoc(userId: int, input: seq<Prepared>, from: nat, to: nat)
    requires from < to <= |input|
    ensures ChunkOf(userId, input[from..to]) == Extend(ChunkOf(userId, input[from..to - 1]), input[to - 1])
    ensures ChunkOf(userId, input[from..to]).projectedBytes == Capped(TrueBytes(input[from..to]))
  {
    assert input[from..to][..to - 1 - from] == input[from..to - 1];
    ChunkCounts(userId, input[from..to]);
  }

  // ----- all chunks of a tenant -----

  /** The chunks partition the first upto documents, each ending where the iterator ends it. */
  ghost predicate Chunked(chunks: seq<Chunk>, userId: int, input: seq<Prepared>, target: uint64, upto: nat) {
    if chunks == [] then upto == 0
    else
      var last := chunks[|chunks| - 1];
      var from := upto - |last.documents|;
      && 0 <= from && Yields(last, userId, input, target, from, upto)
      && Chunked(chunks[..|chunks| - 1], userId, input, target, from)
  }

  function AllPrepared(chunks: seq<Chunk>): seq<Prepared> {
    if chunks == [] then [] else AllPrepared(chunks[..|chunks| - 1]) + chunks[|chunks| - 1].documents
  }

  lemma LastChunk(chunks: seq<Chunk>, userId: int, input: seq<Prepared>, target: uint64, upto: nat) returns (from: nat)
    requires chunks != [] && Chunked(chunks, userId, input, target, upto)
    ensures from < upto <= |input| && Chunked(chunks[..|chunks| - 1], userId, input, target, from)
    ensures var last := chunks[|chunks| - 1];
            && last.documents == input[from..upto] && last.userId == userId
            && (upto < |input| ==> last.projectedBytes >= target)
  {
    from := upto - |chunks[|chunks| - 1].documents|;
    ChunkIsNonEmpty(userId, input, from, upto);
    ChunkCounts(userId, input[from..upto]);
  }

  lemma NoChunks(userId: int, input: seq<Prepared>, target: uint64)
    ensures Chunked([], userId, input, target, 0)
  {
  }

  lemma OneMoreChunk(chunks: seq<Chunk>, chunk: Chunk, userId: int, input: seq<Prepared>, target: uint64, from: nat, to: nat)
    requires Chunked(chunks, userId, input, target, from) && Yields(chunk, userId, input, target, from, to)
    ensures Chunked(chunks + [chunk], userId, input, target, to)
  {
    ChunkIsNonEmpty(userId, input, from, to);
    hide ChunkOf;
    assert (chunks + [chunk])[..|chunks|] == chunks;
  }

  lemma CutAgain(input: seq<Prepared>, from: nat, upto: nat)
    requires from <= upto <= |input|
    ensures input[..from] + input[from..upto] == input[..upto]
  {
  }

  /** No document is lost, repeated or moved. */
  lemma {:induction false} ChunksPartition(chunks: seq<Chunk>, userId: int, input: seq<Prepared>, target: uint64, upto: nat)
    requires Chunked(chunks, userId, input, target, upto) && upto <= |input|
    ensures AllPrepared(chunks) == input[..upto]
    decreases |chunks|
  {
    if chunks == [] {
      assert upto == 0;
    } else {
      var from := LastChunk(chunks, userId, input, target, upto);
      var init, last := chunks[..|chunks| - 1], chunks[|chunks| - 1];
      assert AllPrepared(chunks) == AllPrepared(init) + last.documents;
      hide Chunked, IsNextChunk, ChunkOf, AllPrepared;
      ChunksPartition(init, userId, input, target, from);
      CutAgain(input, from, upto);
    }
  }

  /** No chunk is empty, and every chunk but the last of the tenant reaches the target. */
  lemma {:induction false} ChunksReachTarget(chunks: seq<Chunk>, userId: int, input: seq<Prepared>, target: uint64, upto: nat)
    requires Chunked(chunks, userId, input, target, upto)
    ensures forall i :: 0 <= i < |chunks| && (i < |chunks| - 1 || upto < |input|) ==> chunks[i].projectedBytes >= target
    ensures forall i :: 0 <= i < |chunks| ==> chunks[i].userId == userId && chunks[i].documents != []
    decreases |chunks|
  {
    if chunks != [] {
      var from := LastChunk(chunks, userId, input, target, upto);
      hide Chunked, IsNextChunk, ChunkOf;
      var init := chunks[..|chunks| - 1];
      ChunksReachTarget(init, userId, input, target, from);
      assert forall i :: 0 <= i < |init| ==> chunks[i] == init[i];
    }
  }

  lemma ChunkIsNonEmpty(userId: int, input: seq<Prepared>, from: nat, to: nat)
    requires from < to <= |input|
    ensures ChunkOf(userId, input[from..to]).documents == input[from..to] != []
    ensures ChunkOf(userId, input[from..to]).userId == userId
  {
    ChunkNamesWhatIsShared(userId, input[from..to]);
  }

  /** A chunk overshoots the target by less than its last document. */
  lemma ChunkOvershoots(input: seq<Prepared>, target: uint64, from: nat, to: nat)
    requires target > 0 && IsNextChunk(input, target, from, to)
    ensures TrueBytes(input[from..to]) < target + input[to - 1].projectedBytes
  {
    assert input[from..to] == input[from..to - 1] + [input[to - 1]];
    BytesSnoc(input[from..to - 1], input[to - 1]);
    if to - 1 > from {
      assert TrueBytes(input[from..to - 1]) < target;
    } else {
      assert input[from..to - 1] == [];
    }
  }

  /** What is reserved with the write coordinator before a chunk is projected. */
  function ReservationBytes(target: uint64): uint64 {
    if target == CHUNK_TARGET_BYTES then RESERVATION_BYTES else SaturatingAdd(target, MAX_PROJECTED_DOCUMENT_BYTES)
  }

  ghost predicate Bounded(projector: Projector) {
    forall m, a :: TextBytes(projector(m, a)) <= MAX_PROJECTED_DOCUMENT_BYTES
  }

  /** A bounded projector's chunk never exceeds what was reserved for it. */
  lemma ChunkFitsReservation(
    projector: Projector, documents: seq<IndexDocument>, userId: int, target: uint64, from: nat, to: nat)
    requires target > 0 && Bounded(projector) && IsNextChunk(PrepareAll(projector, documents), target, from, to)
    ensures ChunkOf(userId, PrepareAll(projector, documents)[from..to]).projectedBytes <= ReservationBytes(target)
  {
    hide TrueBytes, ChunkOf, TextBytes;
    var input := PrepareAll(projector, documents);
    ChunkOvershoots(input, target, from, to);
    ChunkCounts(userId, input[from..to]);
    assert input[to - 1] == Prepare(projector, documents[to - 1]);
    assert input[to - 1].projectedBytes <= MAX_PROJECTED_DOCUMENT_BYTES;
  }

  /** The projection in use. */
  function DocumentProjector(tools: TextTools): Projector {
    (m, a) => Document(tools, m, a)
  }

  lemma DocumentIsBounded(tools: TextTools)
    ensures Bounded(DocumentProjector(tools))
  {
    forall m, a ensures TextBytes(Document(tools, m, a)) <= MAX_PROJECTED_DOCUMENT_BYTES {
      DocumentFits(tools, m, a);
    }
  }

  lemma LoweringKeepsExact(s: CoordinatorState.Coordinator, id: nat, chunkBytes: uint64, now: int)
    requires CoordinatorInvariant.Inv(s) && CoordinatorAccounting.Exact(s)
    requires id in s.leases && chunkBytes <= s.leases[id].bytes
    ensures var e := CoordinatorState.Resized(id, chunkBytes, now);
            && CoordinatorInvariant.Before(s, e).activeBytes <= s.activeBytes
            && CoordinatorAccounting.Exact(CoordinatorState.Apply(s, e))
  {
    var e := CoordinatorState.Resized(id, chunkBytes, now);
    CoordinatorAccounting.ClampsAreDead(s, id);
    CoordinatorAccounting.TotalSplit(s.leases, id);
    CoordinatorAccounting.StepAccounts(s, e);
  }

  /** From text to admission: whatever the documents, the chunk that the iterator projects under a lease of the
      reserved size never raises the bytes in use when the lease is reconciled to it, in any state of the
      coordinator, and so cannot spoil its accounting. */
  lemma ReconcilingNeverRaises(
    s: CoordinatorState.Coordinator, id: nat, tools: TextTools, documents: seq<IndexDocument>, userId: int,
    target: uint64, from: nat, to: nat, now: int)
    requires CoordinatorInvariant.Inv(s) && CoordinatorAccounting.Exact(s)
    requires id in s.leases && s.leases[id].bytes == ReservationBytes(target) && target > 0
    requires IsNextChunk(PrepareAll(DocumentProjector(tools), documents), target, from, to)
    ensures var chunk := ChunkOf(userId, PrepareAll(DocumentProjector(tools), documents)[from..to]);
            var e := CoordinatorState.Resized(id, chunk.projectedBytes, now);
            && chunk.projectedBytes <= s.leases[id].bytes
            && CoordinatorInvariant.Before(s, e).activeBytes <= s.activeBytes
            && CoordinatorAccounting.Exact(CoordinatorState.Apply(s, e))
  {
    var chunk := ChunkOf(userId, PrepareAll(DocumentProjector(tools), documents)[from..to]);
    hide *;
    DocumentIsBounded(tools);
    ChunkFitsReservation(DocumentProjector(tools), documents, userId, target, from, to);
    LoweringKeepsExact(s, id, chunk.projectedBytes, now);
  }

  // ----- preparing everything -----

  datatype PreparedTenant = PreparedTenant(userId: int, chunks: seq<Chunk>)

  ghost predicate IsPreparation(
    tenants: seq<PreparedTenant>, plans: seq<TenantPlan>, n: nat, target: uint64, projector: Projector)
    requires n <= |plans|
  {
    && |tenants| == n
    && forall i :: 0 <= i < n ==>
         && tenants[i].userId == plans[i].userId
         && Chunked(tenants[i].chunks, plans[i].userId, PrepareAll(projector, plans[i].documents), target,
                    |plans[i].documents|)
  }

  method PrepareTenant(ctx: Context, plan: TenantPlan, target: uint64, projector: Projector)
    returns (result: Result<PreparedTenant>)
    requires target > 0
    modifies ctx
    ensures old(ctx.canceled) ==> ctx.canceled
    ensures result.Canceled? ==> ctx.canceled
    ensures result.Ok? ==> IsPreparation([result.value], [plan], 1, target, projector)
  {
    var cursor := new MessageIndexChunkIterator(plan, target, projector);
    var chunks: seq<Chunk> := [];
    ghost var input := PrepareAll(projector, plan.documents);
    NoChunks(plan.userId, input, target);
    hide IsNextChunk, Yields, Chunked, PrepareAll;
    while true
      invariant fresh(cursor) && cursor.userId == plan.userId && cursor.documents == plan.documents
      invariant cursor.targetBytes == target && cursor.projector == projector
      invariant cursor.next <= |plan.documents|
      invariant Chunked(chunks, plan.userId, input, target, cursor.next)
      invariant old(ctx.canceled) ==> ctx.canceled
      decreases |plan.documents| - cursor.next
    {
      ghost var from := cursor.next;
      var outcome := cursor.Next(ctx);
      match outcome {
        case Failed =>
          return Canceled;
        case Exhausted =>
          return Ok(PreparedTenant(plan.userId, chunks));
        case Produced(chunk) =>
          OneMoreChunk(chunks, chunk, plan.userId, input, target, from, cursor.next);
          chunks := chunks + [chunk];
      }
    }
  }

  /** Plans the tenants and chunks each of them; a canceled request prepares nothing. */
  method PrepareMessageIndexChunksWith(
    ctx: Context, documents: seq<IndexDocument>, targetBytes: uint64, projector: Projector)
    returns (result: Result<seq<PreparedTenant>>)
    modifies ctx
    ensures result.Canceled? ==> ctx.canceled
    ensures result.Ok? ==>
              exists plans :: Planned(plans, documents, |documents|)
                           && IsPreparation(result.value, plans, |plans|,
                                            if targetBytes == 0 then CHUNK_TARGET_BYTES else targetBytes, projector)
  {
    var target := if targetBytes == 0 then CHUNK_TARGET_BYTES else targetBytes;
    var planned := PlanMessageIndexTenants(ctx, documents);
    if planned.Canceled? {
      return Canceled;
    }
    var plans := planned.value;
    var tenants: seq<PreparedTenant> := [];
    for i := 0 to |plans|
      invariant IsPreparation(tenants, plans, i, target, projector)
    {
      var prepared := PrepareTenant(ctx, plans[i], target, projector);
      if prepared.Canceled? {
        return Canceled;
      }
      tenants := tenants + [prepared.value];
    }
    return Ok(tenants);
  }
}
