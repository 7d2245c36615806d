/**
 * The profile handlers: the public directory, reading one's own profile, and updating it
 * by merging the request body into the stored record with JavaScript's `||` rules.
 */
module UserController {
  import opened Wrappers
  import opened Js
  import opened Casting
  import opened UserModel
  import opened Store

  const UserNotFound := "User not found"
  const UserValidationFailed := "User validation failed"

  // ------------------------------------------------------------------ reads

  /** `User.find({ isPublic: true })`: exactly the public users, each once. */
  method GetAllPublicUsers(db: Db) returns (reply: Reply, users: seq<(Id, User)>)
    ensures reply.code == 200
    ensures forall k :: 0 <= k < |users| ==>
              users[k].0 in db.users && db.users[users[k].0] == users[k].1 && users[k].1.isPublic
    ensures forall id :: id in db.users && db.users[id].isPublic ==>
              exists k :: 0 <= k < |users| && users[k].0 == id
    ensures forall i, j :: 0 <= i < j < |users| ==> users[i].0 != users[j].0
  {
    users := db.FindUsers((u: User) => u.isPublic);
    reply := Reply(200, "");
  }

  /** The caller's own record, or 404 when it no longer exists. */
  method GetUserProfile(db: Db, caller: Id) returns (reply: Reply, profile: Option<User>)
    ensures caller !in db.users ==> reply == Reply(404, UserNotFound) && profile == None
    ensures caller in db.users ==> reply.code == 200 && profile == Some(db.users[caller])
  {
    if caller in db.users {
      reply, profile := Reply(200, ""), Some(db.users[caller]);
    } else {
      reply, profile := Reply(404, UserNotFound), None;
    }
  }

  // ----------------------------------------------------------------- update

  /** `user.f = body.f || user.f` on a String path: the new value, or `None` when the cast fails. */
  function AssignString(current: string, body: Body, key: string): (r: Option<string>)
    ensures !FieldTruthy(body, key) ==> r == Some(current)
    ensures FieldTruthy(body, key) ==> r == CastString(body[key])
  {
    if FieldTruthy(body, key) then CastString(body[key]) else Some(current)
  }

  /** The same on a [String] path. */
  function AssignList(current: seq<string>, body: Body, key: string): (r: Option<seq<string>>)
    ensures !FieldTruthy(body, key) ==> r == Some(current)
    ensures FieldTruthy(body, key) ==> r == CastStringArray(body[key])
  {
    if FieldTruthy(body, key) then CastStringArray(body[key]) else Some(current)
  }

  /** `if (body.isPublic !== undefined) user.isPublic = body.isPublic` on a Boolean path. */
  function AssignFlag(current: bool, body: Body): (r: Option<bool>)
    ensures "isPublic" !in body ==> r == Some(current)
    ensures "isPublic" in body ==> r == CastBoolean(body["isPublic"])
  {
    if "isPublic" in body then CastBoolean(body["isPublic"]) else Some(current)
  }

  /** Every assignment of the merge casts, so the save's validation passes. */
  predicate MergeCasts(u: User, body: Body) {
    && AssignString(u.name, body, "name").Some?
    && AssignString(u.location, body, "location").Some?
    && AssignList(u.skillsOffered, body, "skillsOffered").Some?
    && AssignList(u.skillsWanted, body, "skillsWanted").Some?
    && AssignString(u.availability, body, "availability").Some?
    && AssignFlag(u.isPublic, body).Some?
  }

  /**
   * The record after the merge, or `None` when an assigned value fails its cast. Only the six
   * profile fields can change; a falsy value keeps the stored one, `isPublic` follows any
   * value that is present.
   */
  function MergeProfile(u: User, body: Body): (r: Option<User>)
    ensures r.Some? <==> MergeCasts(u, body)
    ensures r.Some? ==>
              r.value == u.(name := r.value.name, location := r.value.location,
                            skillsOffered := r.value.skillsOffered, skillsWanted := r.value.skillsWanted,
                            availability := r.value.availability, isPublic := r.value.isPublic)
    ensures r.Some? && !FieldTruthy(body, "name") ==> r.value.name == u.name
    ensures r.Some? && !FieldTruthy(body, "location") ==> r.value.location == u.location
    ensures r.Some? && !FieldTruthy(body, "availability") ==> r.value.availability == u.availability
    ensures r.Some? && !FieldTruthy(body, "skillsOffered") ==> r.value.skillsOffered == u.skillsOffered
    ensures r.Some? && !FieldTruthy(body, "skillsWanted") ==> r.value.skillsWanted == u.skillsWanted
    ensures r.Some? && FieldTruthy(body, "name") ==> Some(r.value.name) == CastString(body["name"])
    ensures r.Some? && FieldTruthy(body, "location") ==> Some(r.value.location) == CastString(body["location"])
    ensures r.Some? && FieldTruthy(body, "availability") ==>
              Some(r.value.availability) == CastString(body["availability"])
    ensures r.Some? && FieldTruthy(body, "skillsOffered") ==>
              Some(r.value.skillsOffered) == CastStringArray(body["skillsOffered"])
    ensures r.Some? && FieldTruthy(body, "skillsWanted") ==>
              Some(r.value.skillsWanted) == CastStringArray(body["skillsWanted"])
    ensures r.Some? && "name" in body && body["name"].Str? && body["name"].s != "" ==>
              r.value.name == body["name"].s
    ensures r.Some? && "skillsOffered" in body && body["skillsOffered"].Arr? ==>
              Some(r.value.skillsOffered) == CastStrings(body["skillsOffered"].items)
    ensures r.Some? && "skillsWanted" in body && body["skillsWanted"].Arr? ==>
              Some(r.value.skillsWanted) == CastStrings(body["skillsWanted"].items)
    ensures r.Some? ==> (r.value.isPublic != u.isPublic ==> "isPublic" in body)
    ensures r.Some? && "isPublic" in body ==> Some(r.value.isPublic) == CastBoolean(body["isPublic"])
  {
    match (AssignString(u.name, body, "name"), AssignString(u.location, body, "location"),
           AssignList(u.skillsOffered, body, "skillsOffered"), AssignList(u.skillsWanted, body, "skillsWanted"),
           AssignString(u.availability, body, "availability"), AssignFlag(u.isPublic, body))
    case (Some(name), Some(location), Some(offered), Some(wanted), Some(availability), Some(isPublic)) =>
      Some(u.(name := name, location := location, skillsOffered := offered, skillsWanted := wanted,
              availability := availability, isPublic := isPublic))
    case _ => None
  }

  function UpdateProfileOutcome(s: State, caller: Id, body: Body): (o: Outcome)
    ensures o.after.swaps == s.swaps
    ensures o.reply.code != 200 ==> o.after == s
    ensures caller !in s.users ==> o.reply == Reply(404, UserNotFound)
    ensures caller in s.users && !MergeCasts(s.users[caller], body) ==> o.reply.code == 500
    ensures o.reply.code == 200 <==> caller in s.users && MergeCasts(s.users[caller], body)
    ensures o.reply.code == 200 ==>
              o.after.users == s.users[caller := MergeProfile(s.users[caller], body).value]
  {
    if caller !in s.users then Refuse(s, 404, UserNotFound)
    else match MergeProfile(s.users[caller], body)
      case None => Refuse(s, 500, UserValidationFailed)
      case Some(u) => Outcome(Reply(200, ""), State(s.users[caller := u], s.swaps))
  }

  /** An empty string for a text field keeps the stored text: it cannot be cleared. */
  lemma EmptyTextKeepsStoredValues(u: User)
    ensures MergeProfile(u, map["name" := Str(""), "location" := Str(""), "availability" := Str("")]) == Some(u)
  {
  }

  /** An empty array is truthy: it replaces, and so clears, a skill list. */
  lemma EmptyArrayClearsSkills(u: User)
    ensures MergeProfile(u, map["skillsOffered" := Arr([]), "skillsWanted" := Arr([])]) ==
            Some(u.(skillsOffered := [], skillsWanted := []))
  {
  }

  /** `false` is applied to `isPublic`, unlike the `||` fields. */
  lemma FalseHidesProfile(u: User)
    ensures MergeProfile(u, map["isPublic" := Bool(false)]) == Some(u.(isPublic := false))
  {
  }

  /** The handler ignores `profilePhoto`: a body carrying only a new photo leaves the record as it was. */
  lemma PhotoBodyChangesNothing(u: User, url: string)
    ensures MergeProfile(u, map["profilePhoto" := Str(url)]) == Some(u)
  {
  }

  /** Sending the same update twice has the effect of sending it once. */
  lemma MergeIdempotent(u: User, body: Body)
    requires MergeCasts(u, body)
    ensures MergeProfile(MergeProfile(u, body).value, body) == MergeProfile(u, body)
  {
  }

  /** A merged record still passes the validators: a truthy name casts to a non-empty string. */
  lemma MergeKeepsRecordValid(u: User, body: Body)
    requires RecordValid(u) && MergeCasts(u, body)
    ensures RecordValid(MergeProfile(u, body).value)
    ensures MergeProfile(u, body).value.email == u.email
  {
    if FieldTruthy(body, "name") {
      TruthyCastsNonEmpty(body["name"]);
    }
  }

  lemma UpdatePreservesConsistency(s: State, caller: Id, body: Body)
    requires Consistent(s)
    ensures Consistent(UpdateProfileOutcome(s, caller, body).after)
  {
    if caller in s.users && MergeCasts(s.users[caller], body) {
      MergeKeepsRecordValid(s.users[caller], body);
      ReplaceUserKeepsConsistency(s.users, caller, MergeProfile(s.users[caller], body).value);
    }
  }

  method UpdateUserProfile(db: Db, caller: Id, body: Body) returns (reply: Reply)
    requires db.Valid()
    modifies db
    ensures db.Valid()
    ensures Outcome(reply, db.Snapshot()) == UpdateProfileOutcome(old(db.Snapshot()), caller, body)
  {
    UpdatePreservesConsistency(db.Snapshot(), caller, body);
    if caller !in db.users {
      return Reply(404, UserNotFound);
    }
    var merged := AssignFields(db.users[caller], body);
    if merged.None? {
      return Reply(500, UserValidationFailed);
    }
    db.users := db.users[caller := merged.value];
    reply := Reply(200, "");
  }

  /** The six assignments on the fetched document; a value that fails its cast fails the later save. */
  method AssignFields(u: User, body: Body) returns (r: Option<User>)
    ensures r == MergeProfile(u, body)
  {
    var user := u;
    var name, f1 := AssignText(u.name, body, "name");
    var location, f2 := AssignText(u.location, body, "location");
    var offered, f3 := AssignSkills(u.skillsOffered, body, "skillsOffered");
    var wanted, f4 := AssignSkills(u.skillsWanted, body, "skillsWanted");
    var availability, f5 := AssignText(u.availability, body, "availability");
    var isPublic, f6 := AssignVisibility(u.isPublic, body);
    user := user.(name := name, location := location, skillsOffered := offered, skillsWanted := wanted,
                  availability := availability, isPublic := isPublic);
    var castFailed := f1 || f2 || f3 || f4 || f5 || f6;
    r := if castFailed then None else Some(user);
  }

  /** `user[key] = body[key] || user[key]` on a String path: the value kept, and whether its cast failed. */
  method AssignText(current: string, body: Body, key: string) returns (value: string, failed: bool)
    ensures failed <==> AssignString(current, body, key).None?
    ensures !failed ==> value == AssignString(current, body, key).value
  {
    value, failed := current, false;
    if FieldTruthy(body, key) {
      var v := CastString(body[key]);
      if v.Some? { value := v.value; } else { failed := true; }
    }
  }

  /** The same on a [String] path. */
  method AssignSkills(current: seq<string>, body: Body, key: string) returns (value: seq<string>, failed: bool)
    ensures failed <==> AssignList(current, body, key).None?
    ensures !failed ==> value == AssignList(current, body, key).value
  {
    value, failed := current, false;
    if FieldTruthy(body, key) {
      var v := CastStringArray(body[key]);
      if v.Some? { value := v.value; } else { failed := true; }
    }
  }

  /** `if (body.isPublic !== undefined) user.isPublic = body.isPublic` on a Boolean path. */
  method AssignVisibility(current: bool, body: Body) returns (value: bool, failed: bool)
    ensures failed <==> AssignFlag(current, body).None?
    ensures !failed ==> value == AssignFlag(current, body).value
  {
    value, failed := current, false;
    if "isPublic" in body {
      var v := CastBoolean(body["isPublic"]);
      if v.Some? { value := v.value; } else { failed := true; }
    }
  }
}
