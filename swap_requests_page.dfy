/**
 * The swap list page: which swaps it shows for a status filter and a name search, which
 * party it presents as "the other user", the status colour, and which action buttons it
 * offers, related to what the server then answers.
 */
module SwapRequestsPage {
  import opened Wrappers
  import opened Js
  import opened Seqs
  import opened Casting
  import opened UserModel
  import opened SwapModel
  import opened Store
  import SwapController

  /** Both references populated; a swap whose user was deleted arrives with `null` there. */
  predicate BothPresent(v: SwapView) {
    v.requester.Some? && v.responder.Some?
  }

  /** The responder when the viewer is the requester, otherwise the requester. */
  function OtherParty(v: SwapView, me: Id): (p: Party)
    requires BothPresent(v)
    ensures v.requester.value.id == me ==> p == v.responder.value
    ensures v.requester.value.id != me ==> p == v.requester.value
  {
    if v.requester.value.id == me then v.responder.value else v.requester.value
  }

  /** The status select: `all` passes every swap, any other value must equal the status exactly. */
  predicate StatusMatches(v: SwapView, filter: string) {
    filter == "all" || StatusName(v.swap.status) == filter
  }

  predicate Shown(v: SwapView, me: Id, filter: string, query: string) {
    BothPresent(v) && IncludesIgnoringCase(OtherParty(v, me).name, query) && StatusMatches(v, filter)
  }

  /** `filteredSwaps`: the two filters, in the page's order. */
  function FilteredSwaps(swaps: seq<SwapView>, me: Id, filter: string, query: string): (r: seq<SwapView>)
    ensures |r| <= |swaps|
    ensures forall v :: v in r <==> v in swaps && Shown(v, me, filter, query)
  {
    var present := Filter(swaps, BothPresent);
    Filter(present, (v: SwapView) => BothPresent(v) && IncludesIgnoringCase(OtherParty(v, me).name, query) &&
                                     StatusMatches(v, filter))
  }

  /** The filter works swap by swap, so it keeps the order of the list it is given. */
  lemma FilteredSwapsKeepOrder(a: seq<SwapView>, b: seq<SwapView>, me: Id, filter: string, query: string)
    ensures FilteredSwaps(a + b, me, filter, query) ==
            FilteredSwaps(a, me, filter, query) + FilteredSwaps(b, me, filter, query)
  {
    var p := (v: SwapView) => BothPresent(v) && IncludesIgnoringCase(OtherParty(v, me).name, query) &&
                              StatusMatches(v, filter);
    FilterAppend(a, b, BothPresent);
    FilterAppend(Filter(a, BothPresent), Filter(b, BothPresent), p);
  }

  /** With the `all` filter and an empty search, exactly the swaps with both parties remain, in order. */
  lemma NoFilterShowsAllPresent(swaps: seq<SwapView>, me: Id)
    ensures FilteredSwaps(swaps, me, "all", "") == Filter(swaps, BothPresent)
  {
    var p := (v: SwapView) => BothPresent(v) && IncludesIgnoringCase(OtherParty(v, me).name, "") &&
                              StatusMatches(v, "all");
    var present := Filter(swaps, BothPresent);
    forall v | v in present
      ensures p(v)
    {
      IncludesEmpty(ToLower(OtherParty(v, me).name));
    }
    FilterAll(present, p);
  }

  // ---------------------------------------------------------------- colours

  const Yellow := "text-yellow-400"
  const Green := "text-green-400"
  const Red := "text-red-400"
  const Cyan := "text-cyan-400"
  const Gray := "text-gray-400"

  /** `getStatusColor`. */
  function StatusColor(status: string): (c: string)
    ensures ParseStatus(status).None? ==> c == Gray
  {
    match status
    case "pending" => Yellow
    case "accepted" => Green
    case "rejected" => Red
    case "completed" => Cyan
    case _ => Gray
  }

  /** Each status has its own colour, and none of them is the fallback gray. */
  lemma StatusColorsDistinct(a: Status, b: Status)
    ensures StatusColor(StatusName(a)) != Gray
    ensures StatusColor(StatusName(a)) == StatusColor(StatusName(b)) ==> a == b
  {
  }

  // ---------------------------------------------------------------- buttons

  /** The viewer is the responder (the page's `isResponder`). */
  predicate IsResponder(v: SwapView, me: Id)
    requires BothPresent(v)
  {
    v.responder.value.id == me
  }

  predicate ShowsAcceptReject(v: SwapView, me: Id)
    requires BothPresent(v)
  {
    IsResponder(v, me) && v.swap.status == Pending
  }

  predicate ShowsDelete(v: SwapView, me: Id)
    requires BothPresent(v)
  {
    !IsResponder(v, me) && v.swap.status == Pending
  }

  predicate ShowsRate(v: SwapView) {
    v.swap.status == Accepted
  }

  /** A pending swap offers either Accept/Reject or Delete, never both. */
  lemma PendingOffersOneAction(v: SwapView, me: Id)
    requires BothPresent(v) && v.swap.status == Pending
    ensures ShowsAcceptReject(v, me) != ShowsDelete(v, me)
  {
  }

  /** Accept and Reject, when offered on a current view, are both carried out by the server. */
  lemma AcceptRejectSucceed(s: State, v: SwapView, me: Id)
    requires IsViewIn(s, v) && IsObjectId(v.id) && BothPresent(v) && ShowsAcceptReject(v, me)
    ensures SwapController.UpdateStatusOutcome(s, v.id, me, "accepted").reply.code == 200
    ensures SwapController.UpdateStatusOutcome(s, v.id, me, "rejected").reply.code == 200
  {
  }

  /** Delete, when offered on one of the viewer's swaps, is carried out by the server. */
  lemma DeleteSucceeds(s: State, v: SwapView, me: Id)
    requires IsViewIn(s, v) && IsObjectId(v.id) && Involves(v.swap, me) && BothPresent(v) && ShowsDelete(v, me)
    ensures SwapController.DeleteOutcome(s, v.id, me).reply.code == 200
  {
  }

  /** Complete & Rate on one of the viewer's swaps passes every guard; with a value in 1..5 it succeeds. */
  lemma RateGuardsPass(s: State, v: SwapView, me: Id, value: int, feedback: string)
    requires IsViewIn(s, v) && IsObjectId(v.id) && Involves(v.swap, me) && BothPresent(v) && ShowsRate(v)
    ensures SwapController.RateOutcome(s, v.id, me, value, feedback).reply.code !in {400, 401, 404}
    ensures 1 <= value <= 5 ==> SwapController.RateOutcome(s, v.id, me, value, feedback).reply.code == 200
  {
    var rated := SwapController.RatedParty(v.swap, me).value;
    assert rated == v.swap.requester || rated == v.swap.responder;
  }
}
