/** From a list of messages to index commits: grouped by tenant, cut into chunks near a target size. */
module IndexPreparation {

  import opened Saturating
  import opened MessageDocument

  const CHUNK_TARGET_BYTES: uint64 := 12 * 1024 * 1024
  const RESERVATION_BYTES: uint64 := CHUNK_TARGET_BYTES + MAX_PROJECTED_DOCUMENT_BYTES

  datatype IndexDocument = IndexDocument(message: Message, attachments: seq<Attachment>)

  type Projector = (Message, seq<Attachment>) -> Projection

  datatype Result<T> = Ok(value: T) | Canceled

  /** The context of a request: canceled at any moment, and never again alive. */
  class Context {
    var canceled: bool

    constructor ()
    {
    }

    method Err() returns (failed: bool)
      modifies this
      ensures failed == canceled
      ensures old(canceled) ==> canceled
    {
      if * {
        canceled := true;
      }
      failed := canceled;
    }
  }

  // ----- grouping by tenant -----

  datatype TenantPlan = TenantPlan(userId: int, documents: seq<IndexDocument>)

  /** The documents of one user, in their order. */
  function ForUser(documents: seq<IndexDocument>, userId: int): seq<IndexDocument> {
    if documents == [] then []
    else
      var last := documents[|documents| - 1];
      ForUser(documents[..|documents| - 1], userId) + if last.message.userId == userId then [last] else []
  }

  /** The users in the order of their first documents. */
  function FirstSeen(documents: seq<IndexDocument>): seq<int> {
    if documents == [] then []
    else
      var earlier := FirstSeen(documents[..|documents| - 1]);
      var userId := documents[|documents| - 1].message.userId;
      if userId in earlier then earlier else earlier + [userId]
  }

  ghost predicate IsGrouping(plans: seq<TenantPlan>, documents: seq<IndexDocument>) {
    var users := FirstSeen(documents);
    && |plans| == |users|
    && forall i :: 0 <= i < |plans| ==> plans[i] == TenantPlan(users[i], ForUser(documents, users[i]))
  }

  lemma {:induction false} FirstSeenListsUsersOnce(documents: seq<IndexDocument>)
    ensures forall i, j :: 0 <= i < j < |FirstSeen(documents)| ==> FirstSeen(documents)[i] != FirstSeen(documents)[j]
    ensures forall userId :: userId in FirstSeen(documents) <==> ForUser(documents, userId) != []
  {
    if documents != [] {
      FirstSeenListsUsersOnce(documents[..|documents| - 1]);
    }
  }

  function AllDocuments(plans: seq<TenantPlan>): seq<IndexDocument> {
    if plans == [] then [] else AllDocuments(plans[..|plans| - 1]) + plans[|plans| - 1].documents
  }

  lemma AddOnePlan(plans: seq<TenantPlan>, plan: TenantPlan)
    ensures AllDocuments(plans + [plan]) == AllDocuments(plans) + plan.documents
  {
    assert (plans + [plan])[..|plans|] == plans;
  }

  function Add(plan: TenantPlan, document: IndexDocument): TenantPlan {
    plan.(documents := plan.documents + [document])
  }

  /** One document more for a plan that exists, or for a new plan at the end. */
  function Place(plans: seq<TenantPlan>, at: nat, document: IndexDocument): (placed: seq<TenantPlan>)
    requires at <= |plans|
  {
    if at < |plans| then plans[at := Add(plans[at], document)]
    else plans + [TenantPlan(document.message.userId, [document])]
  }

  lemma {:induction false} PlaceAddsOne(plans: seq<TenantPlan>, at: nat, document: IndexDocument)
    requires at <= |plans|
    ensures multiset(AllDocuments(Place(plans, at, document))) == multiset(AllDocuments(plans)) + multiset{document}
  {
    hide AllDocuments;
    if at == |plans| {
      AddOnePlan(plans, TenantPlan(document.message.userId, [document]));
    } else {
      var n := |plans| - 1;
      var init, last := plans[..n], plans[n];
      assert plans == init + [last];
      AddOnePlan(init, last);
      if at == n {
        assert Place(plans, at, document) == init + [Add(last, document)];
        AddOnePlan(init, Add(last, document));
        assert AllDocuments(init) + Add(last, document).documents
            == AllDocuments(init) + last.documents + [document];
      } else {
        PlaceAddsOne(init, at, document);
        assert Place(plans, at, document) == Place(init, at, document) + [last];
        AddOnePlan(Place(init, at, document), last);
      }
    }
  }

  /** Where the document belongs: its user's plan, or behind the last one. */
  ghost predicate Belongs(plans: seq<TenantPlan>, at: nat, document: IndexDocument) {
    && at <= |plans|
    && (at < |plans| ==> plans[at].userId == document.message.userId)
    && (at == |plans| ==> forall i :: 0 <= i < |plans| ==> plans[i].userId != document.message.userId)
  }

  lemma OneMore(earlier: seq<IndexDocument>, document: IndexDocument)
    ensures FirstSeen(earlier + [document])
         == if document.message.userId in FirstSeen(earlier) then FirstSeen(earlier)
            else FirstSeen(earlier) + [document.message.userId]
    ensures forall userId :: ForUser(earlier + [document], userId)
                          == ForUser(earlier, userId) + if document.message.userId == userId then [document] else []
  {
    assert (earlier + [document])[..|earlier|] == earlier;
  }

  lemma PlaceGroups(plans: seq<TenantPlan>, earlier: seq<IndexDocument>, document: IndexDocument, at: nat)
    requires IsGrouping(plans, earlier) && Belongs(plans, at, document)
    ensures IsGrouping(Place(plans, at, document), earlier + [document])
  {
    hide FirstSeen, ForUser;
    OneMore(earlier, document);
    FirstSeenListsUsersOnce(earlier);
    var users := FirstSeen(earlier);
    if at < |plans| {
      assert users[at] in users;
    } else {
      assert forall i :: 0 <= i < |users| ==> users[i] == plans[i].userId;
      assert document.message.userId !in users;
      assert ForUser(earlier, document.message.userId) == [];
    }
  }

  /** The position map of the loop: every plan under its user. */
  ghost predicate Indexes(positions: map<int, nat>, plans: seq<TenantPlan>) {
    && (forall i :: 0 <= i < |plans| ==> plans[i].userId in positions && positions[plans[i].userId] == i)
    && (forall userId :: userId in positions ==>
          positions[userId] < |plans| && plans[positions[userId]].userId == userId)
  }

  lemma PositionBelongs(positions: map<int, nat>, plans: seq<TenantPlan>, document: IndexDocument)
    requires Indexes(positions, plans)
    ensures var userId := document.message.userId;
            var position := if userId in positions then positions[userId] else |plans|;
            && Belongs(plans, position, document)
            && Indexes(if userId in positions then positions else positions[userId := position],
                       Place(plans, position, document))
  {
  }

  /** The first n documents are planned: grouped, each one once. */
  ghost predicate Planned(plans: seq<TenantPlan>, documents: seq<IndexDocument>, n: nat)
    requires n <= |documents|
  {
    IsGrouping(plans, documents[..n]) && multiset(AllDocuments(plans)) == multiset(documents[..n])
  }

  lemma PlanKeeps(plans: seq<TenantPlan>, documents: seq<IndexDocument>, n: nat, at: nat)
    requires n < |documents| && Planned(plans, documents, n) && Belongs(plans, at, documents[n])
    ensures Planned(Place(plans, at, documents[n]), documents, n + 1)
  {
    hide IsGrouping, AllDocuments, Place;
    PlaceGroups(plans, documents[..n], documents[n], at);
    PlaceAddsOne(plans, at, documents[n]);
    assert documents[..n + 1] == documents[..n] + [documents[n]];
  }

  /** A new plan is started empty and then given its document. */
  lemma PlaceInSteps(plans: seq<TenantPlan>, document: IndexDocument)
    ensures var started := plans + [TenantPlan(document.message.userId, [])];
            started[|plans| := Add(started[|plans|], document)] == Place(plans, |plans|, document)
  {
    assert Add(TenantPlan(document.message.userId, []), document) == TenantPlan(document.message.userId, [document]);
  }

  /** Every document is planned once, for its own user, in its own order; unless the request was canceled. */
  method PlanMessageIndexTenants(ctx: Context, documents: seq<IndexDocument>) returns (result: Result<seq<TenantPlan>>)
    modifies ctx
    ensures old(ctx.canceled) ==> ctx.canceled
    ensures result.Canceled? ==> ctx.canceled && documents != []
    ensures result.Ok? ==> Planned(result.value, documents, |documents|)
  {
    if |documents| == 0 {
      return Ok([]);
    }
    var plans: seq<TenantPlan> := [];
    var positions: map<int, nat> := map[];
    assert Planned(plans, documents, 0);
    hide Planned, Indexes;
    for k := 0 to |documents|
      invariant old(ctx.canceled) ==> ctx.canceled
      invariant Planned(plans, documents, k) && Indexes(positions, plans)
    {
      var failed := ctx.Err();
      if failed {
        return Canceled;
      }
      var document := documents[k];
      var userId := document.message.userId;
      var position := if userId in positions then positions[userId] else |plans|;
      ghost var placed := Place(plans, position, document);
      PositionBelongs(positions, plans, document);
      PlanKeeps(plans, documents, k, position);
      PlaceInSteps(plans, document);
      if userId !in positions {
        positions := positions[userId := position];
        plans := plans + [TenantPlan(userId, [])];
      }
      plans := plans[position := Add(plans[position], document)];
      assert plans == placed;
    }
    return Ok(plans);
  }
}
