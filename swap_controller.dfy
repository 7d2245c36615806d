/**
 * The swap lifecycle: creating a request, listing one's swaps, accepting or rejecting,
 * withdrawing a pending request, and completing a swap by rating the other party.
 * Each handler is a pure `...Outcome` function over the store, which carries the
 * contract, and a method that performs the same steps on the store object.
 */
module SwapController {
  import opened Wrappers
  import opened Js
  import opened Casting
  import opened UserModel
  import opened SwapModel
  import opened Store

  const NoOfferedSkill := "You must offer at least one skill."
  const NoRequestedSkill := "You must request at least one skill."
  const MessageRequired := "A message is required."
  const ValidationFailed := "Data validation failed."
  const CreateServerError := "Server error while creating swap request."
  const NotAuthorized := "User not authorized"
  const SwapNotFound := "Swap not found"
  const StatusRejectedByEnum := "Swap validation failed"
  const NotPending := "Cannot delete a non-pending request"
  const Removed := "Swap request removed"
  const OnlyAccepted := "Can only rate accepted swaps."
  const NotAParty := "User not part of this swap"
  const RatedUserNotFound := "User to be rated not found."
  const ServerError := "Server Error"
  const RatedAndCompleted := "Rating submitted and swap completed."
  const IdCastFailed := "Cast to ObjectId failed"

  // ------------------------------------------------------------------ create

  /** `!x || !Array.isArray(x) || x.length === 0` is false: the field is a non-empty array. */
  predicate NonEmptyArray(body: Body, key: string) {
    key in body && body[key].Arr? && |body[key].items| > 0
  }

  /** The message guard lets the request through: a string that is not only white space. */
  predicate MessageGiven(body: Body) {
    "message" in body && body["message"].Str? && Trim(body["message"].s) != ""
  }

  /** The message guard calls `trim` on a truthy value that is not a string, which throws. */
  predicate MessageNotString(body: Body) {
    FieldTruthy(body, "message") && !body["message"].Str?
  }

  /** The guards of the handler pass, in their order. */
  predicate CreateGuardsPass(body: Body) {
    NonEmptyArray(body, "requesterSkills") && NonEmptyArray(body, "responderSkills") && MessageGiven(body)
  }

  /** The referenced responder as the ObjectId path casts it; absent or refused is `None`. */
  function ResponderOf(body: Body): Option<Id> {
    if "responderId" in body then CastObjectId(body["responderId"]) else None
  }

  /** The fields of the new swap all cast, so its save succeeds. */
  predicate CreateFieldsCast(body: Body)
    requires CreateGuardsPass(body)
  {
    && ResponderOf(body).Some?
    && CastStrings(body["requesterSkills"].items).Some?
    && CastStrings(body["responderSkills"].items).Some?
  }

  function CreateOutcome(s: State, caller: Id, body: Body, newId: Id, now: int): (o: Outcome)
    requires newId !in s.swaps
    ensures o.after.users == s.users
    ensures o.reply.code != 201 ==> o.after == s
    ensures !NonEmptyArray(body, "requesterSkills") ==> o.reply == Reply(400, NoOfferedSkill)
    ensures NonEmptyArray(body, "requesterSkills") && !NonEmptyArray(body, "responderSkills") ==>
              o.reply == Reply(400, NoRequestedSkill)
    ensures NonEmptyArray(body, "requesterSkills") && NonEmptyArray(body, "responderSkills") ==>
              (MessageNotString(body) ==> o.reply == Reply(500, CreateServerError)) &&
              (!MessageNotString(body) && !MessageGiven(body) ==> o.reply == Reply(400, MessageRequired))
    ensures CreateGuardsPass(body) && !CreateFieldsCast(body) ==> o.reply == Reply(400, ValidationFailed)
    ensures o.reply.code == 201 <==> CreateGuardsPass(body) && CreateFieldsCast(body)
    ensures o.reply.code == 201 ==>
              && newId in o.after.swaps
              && o.after.swaps == s.swaps[newId := o.after.swaps[newId]]
              && o.after.swaps[newId].requester == caller
              && Some(o.after.swaps[newId].responder) == ResponderOf(body)
              && Some(o.after.swaps[newId].requesterSkills) == CastStrings(body["requesterSkills"].items)
              && Some(o.after.swaps[newId].responderSkills) == CastStrings(body["responderSkills"].items)
              && o.after.swaps[newId].message == body["message"].s
              && o.after.swaps[newId].status == Pending
              && o.after.swaps[newId].createdAt == now
  {
    if !NonEmptyArray(body, "requesterSkills") then Refuse(s, 400, NoOfferedSkill)
    else if !NonEmptyArray(body, "responderSkills") then Refuse(s, 400, NoRequestedSkill)
    else if !FieldTruthy(body, "message") then Refuse(s, 400, MessageRequired)
    else if !body["message"].Str? then Refuse(s, 500, CreateServerError)
    else if Trim(body["message"].s) == "" then Refuse(s, 400, MessageRequired)
    else
      match (ResponderOf(body), CastStrings(body["requesterSkills"].items), CastStrings(body["responderSkills"].items))
      case (Some(responder), Some(offered), Some(wanted)) =>
        var sw := NewSwap(caller, responder, offered, wanted, body["message"].s, now);
        Outcome(Reply(201, ""), State(s.users, s.swaps[newId := sw]))
      case _ => Refuse(s, 400, ValidationFailed)
  }

  /** A request naming the caller as responder is accepted: the handler does not forbid self-swaps. */
  lemma SelfSwapAccepted(s: State, caller: Id, body: Body, newId: Id, now: int)
    requires newId !in s.swaps && CreateGuardsPass(body) && CreateFieldsCast(body)
    requires ResponderOf(body) == Some(caller)
    ensures var o := CreateOutcome(s, caller, body, newId, now);
            o.reply.code == 201 && o.after.swaps[newId].requester == o.after.swaps[newId].responder
  {
  }

  lemma CreatePreservesConsistency(s: State, caller: Id, body: Body, newId: Id, now: int)
    requires Consistent(s) && newId !in s.swaps
    ensures Consistent(CreateOutcome(s, caller, body, newId, now).after)
  {
    var o := CreateOutcome(s, caller, body, newId, now);
    if o.reply.code == 201 {
      var sw := o.after.swaps[newId];
      assert |sw.requesterSkills| == |body["requesterSkills"].items|;
      assert |sw.responderSkills| == |body["responderSkills"].items|;
      assert SwapRecordValid(sw);
    }
  }

  method CreateSwapRequest(db: Db, caller: Id, body: Body, newId: Id, now: int) returns (reply: Reply)
    requires db.Valid() && newId !in db.swaps
    modifies db
    ensures db.Valid()
    ensures Outcome(reply, db.Snapshot()) == CreateOutcome(old(db.Snapshot()), caller, body, newId, now)
  {
    CreatePreservesConsistency(db.Snapshot(), caller, body, newId, now);
    if !NonEmptyArray(body, "requesterSkills") {
      return Reply(400, NoOfferedSkill);
    }
    if !NonEmptyArray(body, "responderSkills") {
      return Reply(400, NoRequestedSkill);
    }
    if !FieldTruthy(body, "message") {
      return Reply(400, MessageRequired);
    }
    var message := body["message"];
    if !message.Str? {
      // `message.trim` is not a function: the catch block answers 500
      return Reply(500, CreateServerError);
    }
    if Trim(message.s) == "" {
      return Reply(400, MessageRequired);
    }
    var responder := ResponderOf(body);
    var offered := CastStrings(body["requesterSkills"].items);
    var wanted := CastStrings(body["responderSkills"].items);
    if responder.None? || offered.None? || wanted.None? {
      // the save raises a ValidationError
      return Reply(400, ValidationFailed);
    }
    var swap := NewSwap(caller, responder.value, offered.value, wanted.value, message.s, now);
    db.swaps := db.swaps[newId := swap];
    reply := Reply(201, "");
  }

  // ------------------------------------------------------------------- list

  /** The swaps in which the caller is requester or responder, with both parties populated. */
  method GetUserSwaps(db: Db, caller: Id) returns (reply: Reply, swaps: seq<SwapView>)
    ensures reply.code == 200
    ensures forall k :: 0 <= k < |swaps| ==> IsViewIn(db.Snapshot(), swaps[k]) && Involves(swaps[k].swap, caller)
    ensures forall id :: id in db.swaps && Involves(db.swaps[id], caller) ==>
              exists k :: 0 <= k < |swaps| && swaps[k].id == id
    ensures forall i, j :: 0 <= i < j < |swaps| ==> swaps[i].id != swaps[j].id
  {
    swaps := db.FindSwaps(sw => Involves(sw, caller));
    reply := Reply(200, "");
  }

  // ----------------------------------------------------------------- update

  /** The `:id` of the route is cast by `findById`; a malformed one throws, and the catch answers 500. */
  function UpdateStatusOutcome(s: State, pathId: string, caller: Id, requested: string): (o: Outcome)
    ensures o.after.users == s.users
    ensures o.reply.code != 200 ==> o.after == s
    ensures PathKey(pathId).None? ==> o.reply.code == 500
    ensures PathKey(pathId).Some? ==>
              var id := PathKey(pathId).value;
              && (id !in s.swaps ==> o.reply == Reply(404, SwapNotFound))
              && (id in s.swaps && s.swaps[id].responder != caller ==> o.reply == Reply(401, NotAuthorized))
              && (id in s.swaps && s.swaps[id].responder == caller && ParseStatus(requested).None? ==>
                    o.reply.code == 500)
    ensures o.reply.code == 200 <==>
              PathKey(pathId).Some? && PathKey(pathId).value in s.swaps &&
              s.swaps[PathKey(pathId).value].responder == caller && ParseStatus(requested).Some?
    ensures o.reply.code == 200 ==>
              var id := PathKey(pathId).value;
              o.after.swaps == s.swaps[id := s.swaps[id].(status := ParseStatus(requested).value)]
  {
    match PathKey(pathId)
    case None => Refuse(s, 500, IdCastFailed)
    case Some(id) =>
      if id !in s.swaps then Refuse(s, 404, SwapNotFound)
      else if s.swaps[id].responder != caller then Refuse(s, 401, NotAuthorized)
      else match ParseStatus(requested)
        case None => Refuse(s, 500, StatusRejectedByEnum)
        case Some(st) => Outcome(Reply(200, ""), State(s.users, s.swaps[id := s.swaps[id].(status := st)]))
  }

  /** No transition guard: the responder can move even a completed swap back to pending. */
  lemma ResponderCanReopenCompletedSwap(s: State, pathId: string, id: Id)
    requires PathKey(pathId) == Some(id) && id in s.swaps && s.swaps[id].status == Completed
    ensures var o := UpdateStatusOutcome(s, pathId, s.swaps[id].responder, "pending");
            o.reply.code == 200 && o.after.swaps[id].status == Pending
  {
  }

  lemma UpdateStatusPreservesConsistency(s: State, pathId: string, caller: Id, requested: string)
    requires Consistent(s)
    ensures Consistent(UpdateStatusOutcome(s, pathId, caller, requested).after)
  {
  }

  method UpdateSwapStatus(db: Db, pathId: string, caller: Id, requested: string) returns (reply: Reply)
    requires db.Valid()
    modifies db
    ensures db.Valid()
    ensures Outcome(reply, db.Snapshot()) == UpdateStatusOutcome(old(db.Snapshot()), pathId, caller, requested)
  {
    UpdateStatusPreservesConsistency(db.Snapshot(), pathId, caller, requested);
    var key := PathKey(pathId);
    if key.None? {
      return Reply(500, IdCastFailed);
    }
    var id := key.value;
    if id !in db.swaps {
      return Reply(404, SwapNotFound);
    }
    var swap := db.swaps[id];
    if swap.responder != caller {
      return Reply(401, NotAuthorized);
    }
    var status := ParseStatus(requested);
    if status.None? {
      // the enum validator fails the save
      return Reply(500, StatusRejectedByEnum);
    }
    swap := swap.(status := status.value);
    db.swaps := db.swaps[id := swap];
    reply := Reply(200, "");
  }

  // ----------------------------------------------------------------- delete

  function DeleteOutcome(s: State, pathId: string, caller: Id): (o: Outcome)
    ensures o.after.users == s.users
    ensures o.reply.code != 200 ==> o.after == s
    ensures PathKey(pathId).None? ==> o.reply.code == 500
    ensures PathKey(pathId).Some? ==>
              var id := PathKey(pathId).value;
              && (id !in s.swaps ==> o.reply == Reply(404, SwapNotFound))
              && (id in s.swaps && s.swaps[id].requester != caller ==> o.reply == Reply(401, NotAuthorized))
              && (id in s.swaps && s.swaps[id].requester == caller && s.swaps[id].status != Pending ==>
                    o.reply == Reply(400, NotPending))
    ensures o.reply.code == 200 <==>
              PathKey(pathId).Some? && PathKey(pathId).value in s.swaps &&
              s.swaps[PathKey(pathId).value].requester == caller && s.swaps[PathKey(pathId).value].status == Pending
    ensures o.reply.code == 200 ==> o.after.swaps == s.swaps - {PathKey(pathId).value} && o.reply.message == Removed
  {
    match PathKey(pathId)
    case None => Refuse(s, 500, IdCastFailed)
    case Some(id) =>
      if id !in s.swaps then Refuse(s, 404, SwapNotFound)
      else if s.swaps[id].requester != caller then Refuse(s, 401, NotAuthorized)
      else if s.swaps[id].status != Pending then Refuse(s, 400, NotPending)
      else Outcome(Reply(200, Removed), State(s.users, s.swaps - {id}))
  }

  lemma DeletePreservesConsistency(s: State, pathId: string, caller: Id)
    requires Consistent(s)
    ensures Consistent(DeleteOutcome(s, pathId, caller).after)
  {
  }

  method DeleteSwapRequest(db: Db, pathId: string, caller: Id) returns (reply: Reply)
    requires db.Valid()
    modifies db
    ensures db.Valid()
    ensures Outcome(reply, db.Snapshot()) == DeleteOutcome(old(db.Snapshot()), pathId, caller)
  {
    DeletePreservesConsistency(db.Snapshot(), pathId, caller);
    var key := PathKey(pathId);
    if key.None? {
      return Reply(500, IdCastFailed);
    }
    var id := key.value;
    if id !in db.swaps {
      return Reply(404, SwapNotFound);
    }
    var swap := db.swaps[id];
    if swap.requester != caller {
      return Reply(401, NotAuthorized);
    }
    if swap.status != Pending {
      return Reply(400, NotPending);
    }
    db.swaps := db.swaps - {id};
    reply := Reply(200, Removed);
  }

  // ------------------------------------------------------------------- rate

  /** The rated party: the responder when the rater is the requester (checked first), else the requester. */
  function RatedParty(sw: Swap, rater: Id): (r: Option<Id>)
    ensures r.Some? <==> Involves(sw, rater)
    ensures sw.requester == rater ==> r == Some(sw.responder)
    ensures sw.requester != rater && sw.responder == rater ==> r == Some(sw.requester)
  {
    if sw.requester == rater then Some(sw.responder)
    else if sw.responder == rater then Some(sw.requester)
    else None
  }

  /** The rated record after the push and the recomputation of `avgRating` from the `reduce`. */
  function WithRating(u: User, rater: Id, value: int, feedback: string): (r: User)
    ensures r.ratings == u.ratings + [Rating(rater, value, Trim(feedback))]
    ensures r.avgRating == Mean(r.ratings)
    ensures r == u.(ratings := r.ratings, avgRating := r.avgRating)
  {
    var ratings := u.ratings + [Rating(rater, value, Trim(feedback))];
    FoldIsSum(ratings, 0);
    u.(ratings := ratings, avgRating := FoldValues(ratings, 0) as real / |ratings| as real)
  }

  /** Every guard of the rating handler passes and the rated user's save validates. */
  predicate RateAllowed(s: State, id: Id, rater: Id, value: int) {
    && id in s.swaps && s.swaps[id].status == Accepted && Involves(s.swaps[id], rater)
    && RatedParty(s.swaps[id], rater).value in s.users && 1 <= value <= 5
  }

  /** The store after a successful rating: the other party holds the new rating, the swap is completed. */
  function RatedState(s: State, id: Id, rater: Id, value: int, feedback: string): (r: State)
    requires RateAllowed(s, id, rater, value)
    ensures var rated := RatedParty(s.swaps[id], rater).value;
            && r.users == s.users[rated := WithRating(s.users[rated], rater, value, feedback)]
            && r.swaps == s.swaps[id := s.swaps[id].(status := Completed)]
  {
    var rated := RatedParty(s.swaps[id], rater).value;
    State(s.users[rated := WithRating(s.users[rated], rater, value, feedback)],
          s.swaps[id := s.swaps[id].(status := Completed)])
  }

  function RateOutcome(s: State, pathId: string, rater: Id, value: int, feedback: string): (o: Outcome)
    ensures o.reply.code != 200 ==> o.after == s
    ensures PathKey(pathId).None? ==> o.reply == Reply(500, ServerError)
    ensures PathKey(pathId).Some? ==>
              var id := PathKey(pathId).value;
              && (id !in s.swaps ==> o.reply == Reply(404, SwapNotFound))
              && (id in s.swaps && s.swaps[id].status != Accepted ==> o.reply == Reply(400, OnlyAccepted))
              && (id in s.swaps && s.swaps[id].status == Accepted && !Involves(s.swaps[id], rater) ==>
                    o.reply == Reply(401, NotAParty))
              && (id in s.swaps && s.swaps[id].status == Accepted && Involves(s.swaps[id], rater) ==>
                    (RatedParty(s.swaps[id], rater).value !in s.users ==> o.reply == Reply(404, RatedUserNotFound)) &&
                    (RatedParty(s.swaps[id], rater).value in s.users && !(1 <= value <= 5) ==> o.reply.code == 500))
    ensures o.reply.code == 200 <==> PathKey(pathId).Some? && RateAllowed(s, PathKey(pathId).value, rater, value)
    ensures o.reply.code == 200 ==> o.after == RatedState(s, PathKey(pathId).value, rater, value, feedback)
  {
    match PathKey(pathId)
    case None => Refuse(s, 500, ServerError)
    case Some(id) =>
      if id !in s.swaps then Refuse(s, 404, SwapNotFound)
      else if s.swaps[id].status != Accepted then Refuse(s, 400, OnlyAccepted)
      else match RatedParty(s.swaps[id], rater)
        case None => Refuse(s, 401, NotAParty)
        case Some(rated) =>
          if rated !in s.users then Refuse(s, 404, RatedUserNotFound)
          else if !(1 <= value <= 5) then Refuse(s, 500, ServerError)
          else Outcome(Reply(200, RatedAndCompleted), RatedState(s, id, rater, value, feedback))
  }

  /** A rated swap is completed, so a second rating of it fails the `accepted` guard, whoever sends it. */
  lemma SecondRatingRefused(s: State, pathId: string, id: Id, rater: Id, value: int, feedback: string,
                            rater2: Id, value2: int, feedback2: string)
    requires PathKey(pathId) == Some(id) && RateAllowed(s, id, rater, value)
    ensures var s1 := RateOutcome(s, pathId, rater, value, feedback).after;
            RateOutcome(s1, pathId, rater2, value2, feedback2).reply == Reply(400, OnlyAccepted)
  {
  }

  /** In a swap with oneself the requester branch wins: the rater is credited with their own rating. */
  lemma SelfSwapRatingCreditsRater(s: State, pathId: string, id: Id, rater: Id, value: int, feedback: string)
    requires PathKey(pathId) == Some(id)
    requires id in s.swaps && s.swaps[id].requester == rater && s.swaps[id].responder == rater
    requires RateAllowed(s, id, rater, value)
    ensures RateOutcome(s, pathId, rater, value, feedback).after.users[rater].ratings ==
            s.users[rater].ratings + [Rating(rater, value, Trim(feedback))]
  {
  }

  /** The stored mean moves from the old one incrementally: (n * old + v) / (n + 1). */
  lemma RatingUpdatesMeanIncrementally(u: User, rater: Id, value: int, feedback: string)
    requires u.avgRating == Mean(u.ratings)
    ensures var n := |u.ratings|;
            var r := WithRating(u, rater, value, feedback);
            |r.ratings| == n + 1 &&
            r.avgRating == (u.avgRating * n as real + value as real) / (n + 1) as real
  {
    MeanAppend(u.ratings, Rating(rater, value, Trim(feedback)));
  }

  lemma RatePreservesConsistency(s: State, pathId: string, rater: Id, value: int, feedback: string)
    requires Consistent(s)
    ensures Consistent(RateOutcome(s, pathId, rater, value, feedback).after)
  {
    if PathKey(pathId).Some? && RateAllowed(s, PathKey(pathId).value, rater, value) {
      var id := PathKey(pathId).value;
      var rated := RatedParty(s.swaps[id], rater).value;
      RatedRecordValid(s.users[rated], rater, value, feedback);
      ReplaceUserKeepsConsistency(s.users, rated, WithRating(s.users[rated], rater, value, feedback));
      assert SwapRecordValid(s.swaps[id].(status := Completed));
    }
  }

  lemma RatedRecordValid(u: User, rater: Id, value: int, feedback: string)
    requires RecordValid(u) && 1 <= value <= 5
    ensures RecordValid(WithRating(u, rater, value, feedback))
  {
    var r := WithRating(u, rater, value, feedback);
    assert forall k :: 0 <= k < |r.ratings| ==> ValidRating(r.ratings[k]) by {
      assert forall k :: 0 <= k < |u.ratings| ==> r.ratings[k] == u.ratings[k];
      assert r.ratings[|u.ratings|].value == value;
    }
  }

  /** The success path of the handler: the reply, and a store that is still consistent. */
  lemma RateCommits(s: State, pathId: string, id: Id, rater: Id, value: int, feedback: string)
    requires Consistent(s) && PathKey(pathId) == Some(id) && RateAllowed(s, id, rater, value)
    ensures RateOutcome(s, pathId, rater, value, feedback) ==
            Outcome(Reply(200, RatedAndCompleted), RatedState(s, id, rater, value, feedback))
    ensures Consistent(RatedState(s, id, rater, value, feedback))
  {
    RatePreservesConsistency(s, pathId, rater, value, feedback);
  }

  method RateSwap(db: Db, pathId: string, rater: Id, value: int, feedback: string) returns (reply: Reply)
    requires db.Valid()
    modifies db
    ensures db.Valid()
    ensures Outcome(reply, db.Snapshot()) == RateOutcome(old(db.Snapshot()), pathId, rater, value, feedback)
  {
    var swaps, users := db.swaps, db.users;
    ghost var s := db.Snapshot();
    ghost var o := RateOutcome(s, pathId, rater, value, feedback);
    var key := PathKey(pathId);
    if key.None? {
      assert o == Outcome(Reply(500, ServerError), s);
      return Reply(500, ServerError);
    }
    var id := key.value;
    if id !in swaps {
      assert o == Outcome(Reply(404, SwapNotFound), s);
      return Reply(404, SwapNotFound);
    }
    var swap := swaps[id];
    if swap.status != Accepted {
      assert o == Outcome(Reply(400, OnlyAccepted), s);
      return Reply(400, OnlyAccepted);
    }
    var ratedId: Id;
    if swap.requester == rater {
      ratedId := swap.responder;
    } else if swap.responder == rater {
      ratedId := swap.requester;
    } else {
      assert o == Outcome(Reply(401, NotAParty), s);
      return Reply(401, NotAParty);
    }
    if ratedId !in users {
      assert o == Outcome(Reply(404, RatedUserNotFound), s);
      return Reply(404, RatedUserNotFound);
    }
    var ratedUser := Rerate(users[ratedId], rater, value, feedback);
    if !(1 <= value <= 5) {
      // the rating sub-schema's min/max validators fail the user's save; nothing is written
      assert o.reply.code == 500 && o.after == s;
      return Reply(500, ServerError);
    }
    SaveRating(db, pathId, id, rater, value, feedback, ratedId, ratedUser);
    reply := Reply(200, RatedAndCompleted);
  }

  /** `ratings.push`, then `avgRating` recomputed from the `reduce` over all ratings. */
  method Rerate(u: User, rater: Id, value: int, feedback: string) returns (r: User)
    ensures r == WithRating(u, rater, value, feedback)
  {
    var ratings := u.ratings + [Rating(rater, value, Trim(feedback))];
    var total := FoldValues(ratings, 0);
    r := u.(ratings := ratings, avgRating := total as real / |ratings| as real);
  }

  /** The two saves of the success path: the rated user, then the swap marked completed. */
  method SaveRating(db: Db, pathId: string, id: Id, rater: Id, value: int, feedback: string,
                    ratedId: Id, ratedUser: User)
    requires db.Valid() && PathKey(pathId) == Some(id) && RateAllowed(db.Snapshot(), id, rater, value)
    requires ratedId == RatedParty(db.swaps[id], rater).value
    requires ratedUser == WithRating(db.users[ratedId], rater, value, feedback)
    modifies db
    ensures db.Valid()
    ensures RateOutcome(old(db.Snapshot()), pathId, rater, value, feedback) ==
            Outcome(Reply(200, RatedAndCompleted), db.Snapshot())
  {
    RateCommits(db.Snapshot(), pathId, id, rater, value, feedback);
    db.users := db.users[ratedId := ratedUser];
    db.swaps := db.swaps[id := db.swaps[id].(status := Completed)];
  }

  // -------------------------------------------------------------- scenarios

  /** Create, accept by the responder, rate by the requester: completed, and the responder holds the rating. */
  lemma CreateAcceptRateScenario(s: State, a: Id, b: Id, body: Body, newId: Id, now: int, feedback: string)
    requires newId !in s.swaps && IsObjectId(newId) && b in s.users
    requires CreateGuardsPass(body) && CreateFieldsCast(body) && ResponderOf(body) == Some(b)
    ensures var s1 := CreateOutcome(s, a, body, newId, now).after;
            var o2 := UpdateStatusOutcome(s1, newId, b, "accepted");
            var o3 := RateOutcome(o2.after, newId, a, 5, feedback);
            && o2.reply.code == 200
            && o3.reply.code == 200
            && o3.after.swaps[newId].status == Completed
            && o3.after.users[b].ratings == s.users[b].ratings + [Rating(a, 5, Trim(feedback))]
            && o3.after.users[b].avgRating == Mean(o3.after.users[b].ratings)
  {
  }

  /** Create and withdraw: the store is back where it was, and a second withdrawal finds nothing. */
  lemma CreateDeleteScenario(s: State, a: Id, body: Body, newId: Id, now: int)
    requires newId !in s.swaps && IsObjectId(newId)
    requires CreateGuardsPass(body) && CreateFieldsCast(body)
    ensures var s1 := CreateOutcome(s, a, body, newId, now).after;
            var o2 := DeleteOutcome(s1, newId, a);
            && o2.reply.code == 200
            && o2.after == s
            && DeleteOutcome(o2.after, newId, a).reply == Reply(404, SwapNotFound)
  {
    var o1 := CreateOutcome(s, a, body, newId, now);
    var sw := o1.after.swaps[newId];
    assert o1.after == State(s.users, s.swaps[newId := sw]);
    DeleteFreshPending(s, newId, sw);
  }

  /** Withdrawing a pending swap just added by its requester restores the store. */
  lemma DeleteFreshPending(s: State, id: Id, sw: Swap)
    requires id !in s.swaps && IsObjectId(id) && sw.status == Pending
    ensures var o := DeleteOutcome(State(s.users, s.swaps[id := sw]), id, sw.requester);
            && o.reply.code == 200
            && o.after == s
            && DeleteOutcome(o.after, id, sw.requester).reply == Reply(404, SwapNotFound)
  {
    assert s.swaps[id := sw] - {id} == s.swaps;
  }
}
