/**
 * The two forms that lead to swap handlers: the swap request form, whose payload the
 * create handler reads under other names (see README, Findings), and the rating form
 * with its five stars.
 */
module Modals {
  import opened Wrappers
  import opened Js
  import opened Casting
  import opened UserModel
  import opened SwapModel
  import opened Store
  import SwapController
  import SwapRequestsPage

  // ---------------------------------------------------------- request form

  /** The three controlled fields of the request form. */
  datatype RequestForm = RequestForm(requesterSkill: string, responderSkill: string, message: string)

  /** `list[0] || ''`: the first skill, or the empty string for an empty list. */
  function FirstOr(list: seq<string>): (r: string)
    ensures |list| > 0 ==> r == list[0]
    ensures |list| == 0 ==> r == ""
  {
    if |list| > 0 then list[0] else ""
  }

  /** The form as it opens: the viewer's first offered skill and the target's first wanted skill. */
  function RequestInit(myOffered: seq<string>, theirWanted: seq<string>): (f: RequestForm)
    ensures f.message == ""
    ensures |myOffered| > 0 ==> f.requesterSkill == myOffered[0]
    ensures |theirWanted| > 0 ==> f.responderSkill == theirWanted[0]
    ensures f.requesterSkill == "" <==> |myOffered| == 0 || myOffered[0] == ""
    ensures f.responderSkill == "" <==> |theirWanted| == 0 || theirWanted[0] == ""
  {
    RequestForm(FirstOr(myOffered), FirstOr(theirWanted), "")
  }

  /** The submit guard: no field may be empty; the message is not trimmed. */
  predicate RequestComplete(f: RequestForm) {
    f.requesterSkill != "" && f.responderSkill != "" && f.message != ""
  }

  /** `handleSubmit` as written: the payload carries the chosen skills under singular names. */
  function RequestSubmit(f: RequestForm, targetId: Id): (r: Option<Body>)
    ensures r.Some? <==> RequestComplete(f)
    ensures r.Some? ==> "requesterSkills" !in r.value && "responderSkills" !in r.value
    ensures r.Some? ==> "requesterSkill" in r.value && r.value["requesterSkill"] == Str(f.requesterSkill)
    ensures r.Some? ==> "responderSkill" in r.value && r.value["responderSkill"] == Str(f.responderSkill)
  {
    if !RequestComplete(f) then None
    else Some(map["responderId" := Str(targetId), "requesterSkill" := Str(f.requesterSkill),
                  "responderSkill" := Str(f.responderSkill), "message" := Str(f.message)])
  }

  /** A freshly opened form cannot be sent: its message is still empty. */
  lemma FreshFormBlocked(myOffered: seq<string>, theirWanted: seq<string>, targetId: Id)
    ensures RequestSubmit(RequestInit(myOffered, theirWanted), targetId) == None
  {
  }

  /** Every request the form sends is refused for lacking `requesterSkills`, and nothing is stored. */
  lemma SubmittedRequestAlwaysRefused(f: RequestForm, targetId: Id, s: State, caller: Id, newId: Id, now: int)
    requires RequestComplete(f) && newId !in s.swaps
    ensures SwapController.CreateOutcome(s, caller, RequestSubmit(f, targetId).value, newId, now) ==
            Outcome(Reply(400, SwapController.NoOfferedSkill), s)
  {
  }

  /** The payload the handler reads: each chosen skill as a one-element array. */
  function CorrectedSubmit(f: RequestForm, targetId: Id): (r: Option<Body>)
    ensures r.Some? <==> RequestComplete(f)
    ensures r.Some? ==> SwapController.NonEmptyArray(r.value, "requesterSkills") &&
                        SwapController.NonEmptyArray(r.value, "responderSkills")
  {
    if !RequestComplete(f) then None
    else Some(map["responderId" := Str(targetId), "requesterSkills" := Arr([Str(f.requesterSkill)]),
                  "responderSkills" := Arr([Str(f.responderSkill)]), "message" := Str(f.message)])
  }

  lemma SingleSkillCasts(skill: string)
    ensures CastStrings([Str(skill)]) == Some([skill])
  {
    var r := CastStrings([Str(skill)]);
    assert CastString([Str(skill)][0]).Some?;
    assert r.value[0] == skill;
    assert r.value == [skill];
  }

  /** What the handler reads from the corrected payload of a complete form. */
  lemma CorrectedPayloadFields(f: RequestForm, targetId: Id)
    requires RequestComplete(f)
    ensures var body := CorrectedSubmit(f, targetId).value;
            && SwapController.NonEmptyArray(body, "requesterSkills")
            && SwapController.NonEmptyArray(body, "responderSkills")
            && "message" in body && body["message"] == Str(f.message)
            && SwapController.ResponderOf(body) == CastObjectId(Str(targetId))
            && CastStrings(body["requesterSkills"].items) == Some([f.requesterSkill])
            && CastStrings(body["responderSkills"].items) == Some([f.responderSkill])
  {
    var body := CorrectedSubmit(f, targetId).value;
    assert body["requesterSkills"].items == [Str(f.requesterSkill)];
    assert body["responderSkills"].items == [Str(f.responderSkill)];
    SingleSkillCasts(f.requesterSkill);
    SingleSkillCasts(f.responderSkill);
  }

  /** With the corrected payload a complete form whose message is not blank creates the pending swap it describes. */
  lemma CorrectedRequestCreatesSwap(f: RequestForm, targetId: Id, s: State, caller: Id, newId: Id, now: int)
    requires RequestComplete(f) && Trim(f.message) != "" && newId !in s.swaps
    requires CastObjectId(Str(targetId)) == Some(targetId)
    ensures var o := SwapController.CreateOutcome(s, caller, CorrectedSubmit(f, targetId).value, newId, now);
            && o.reply.code == 201
            && o.after.swaps[newId] ==
               Swap(caller, targetId, [f.requesterSkill], [f.responderSkill], f.message, Pending, now)
  {
    CorrectedPayloadFields(f, targetId);
    var body := CorrectedSubmit(f, targetId).value;
    assert SwapController.CreateGuardsPass(body);
    assert SwapController.CreateFieldsCast(body);
  }

  /** The client accepts a message of spaces only; the server then answers 400 even to the corrected payload. */
  lemma BlankMessagePassesClientOnly(f: RequestForm, targetId: Id, s: State, caller: Id, newId: Id, now: int)
    requires RequestComplete(f) && IsBlank(f.message) && newId !in s.swaps
    ensures SwapController.CreateOutcome(s, caller, CorrectedSubmit(f, targetId).value, newId, now) ==
            Outcome(Reply(400, SwapController.MessageRequired), s)
  {
    TrimEmptyIffBlank(f.message);
  }

  // ----------------------------------------------------------- rating form

  /** The numbers on the five stars. */
  type StarNumber = k: int | 1 <= k <= 5 witness 1

  /** `rating`, `hoverRating` and `feedback`. */
  datatype RatingForm = RatingForm(rating: int, hover: int, feedback: string)

  datatype RatingEvent =
    | Click(star: StarNumber)
    | Enter(star: StarNumber)
    | Leave
    | Type(text: string)

  const RatingInit := RatingForm(0, 0, "")

  /** What each event handler sets. */
  function RatingStep(f: RatingForm, ev: RatingEvent): (r: RatingForm)
    ensures ev.Click? ==> r == f.(rating := ev.star)
    ensures ev.Enter? ==> r == f.(hover := ev.star)
    ensures ev.Leave? ==> r == f.(hover := 0)
    ensures ev.Type? ==> r == f.(feedback := ev.text)
  {
    match ev
    case Click(k) => f.(rating := k)
    case Enter(k) => f.(hover := k)
    case Leave => f.(hover := 0)
    case Type(t) => f.(feedback := t)
  }

  /** The form after a run of events from the initial state. */
  function RatingRun(events: seq<RatingEvent>): RatingForm {
    if events == [] then RatingInit else RatingStep(RatingRun(events[..|events| - 1]), events[|events| - 1])
  }

  /** No selection yet (0) or a star's number; the same for the hover state. */
  predicate RatingInRange(f: RatingForm) {
    0 <= f.rating <= 5 && 0 <= f.hover <= 5
  }

  lemma {:induction false} RatingRunInRange(events: seq<RatingEvent>)
    ensures RatingInRange(RatingRun(events))
  {
    if events != [] {
      RatingRunInRange(events[..|events| - 1]);
    }
  }

  /** Only a click selects: a run without clicks leaves the rating at 0. */
  lemma {:induction false} NoClickNoRating(events: seq<RatingEvent>)
    requires forall i :: 0 <= i < |events| ==> !events[i].Click?
    ensures RatingRun(events).rating == 0
  {
    if events != [] {
      NoClickNoRating(events[..|events| - 1]);
    }
  }

  /** The submit guard: `{ rating, feedback }` once a star has been selected. */
  function RatingSubmit(f: RatingForm): (r: Option<(int, string)>)
    ensures r.Some? <==> f.rating != 0
    ensures r.Some? ==> r.value == (f.rating, f.feedback)
  {
    if f.rating == 0 then None else Some((f.rating, f.feedback))
  }

  /** Whatever the user did, a submitted value lies in 1..5, the bound the rating record enforces. */
  lemma SubmittedRatingInBounds(events: seq<RatingEvent>)
    requires RatingSubmit(RatingRun(events)).Some?
    ensures 1 <= RatingSubmit(RatingRun(events)).value.0 <= 5
  {
    RatingRunInRange(events);
  }

  /** Star `k` is filled when the hovered star, or the selected one when none is hovered, is at least `k`. */
  predicate StarFilled(f: RatingForm, k: int) {
    (if f.hover != 0 then f.hover else f.rating) >= k
  }

  /** The filled stars are a prefix: filling star `k` fills every star below it. */
  lemma FilledStarsArePrefix(f: RatingForm, j: int, k: int)
    requires 1 <= j <= k && StarFilled(f, k)
    ensures StarFilled(f, j)
  {
  }

  /** Submitting from the Complete & Rate button of one of the viewer's swaps completes it on the server. */
  lemma RatingFromListCompletesSwap(s: State, v: SwapView, me: Id, events: seq<RatingEvent>)
    requires IsViewIn(s, v) && IsObjectId(v.id) && Involves(v.swap, me)
    requires SwapRequestsPage.BothPresent(v) && SwapRequestsPage.ShowsRate(v)
    requires RatingSubmit(RatingRun(events)).Some?
    ensures var sent := RatingSubmit(RatingRun(events)).value;
            SwapController.RateOutcome(s, v.id, me, sent.0, sent.1).reply.code == 200
  {
    SubmittedRatingInBounds(events);
    var sent := RatingSubmit(RatingRun(events)).value;
    SwapRequestsPage.RateGuardsPass(s, v, me, sent.0, sent.1);
  }
}
