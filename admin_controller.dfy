/**
 * The moderation handlers, reachable only by a caller whose role is admin: the full user
 * list, banning and unbanning, and every swap newest first.
 */
module AdminController {
  import opened Wrappers
  import opened Seqs
  import opened Casting
  import opened UserModel
  import opened SwapModel
  import opened Store

  const UserNotFound := "User not found"
  const Banned := "User has been banned."
  const Unbanned := "User has been unbanned."
  const ServerError := "Server Error"

  /** What the admin middleware lets through: an authenticated caller whose role is admin. */
  predicate IsAdmin(s: State, caller: Id) {
    caller in s.users && s.users[caller].role == Admin
  }

  // ------------------------------------------------------------------ users

  /** `User.find({})`: every user, each once. */
  method GetAllUsers(db: Db, caller: Id) returns (reply: Reply, users: seq<(Id, User)>)
    requires IsAdmin(db.Snapshot(), caller)
    ensures reply.code == 200
    ensures forall k :: 0 <= k < |users| ==> users[k].0 in db.users && db.users[users[k].0] == users[k].1
    ensures forall id :: id in db.users ==> exists k :: 0 <= k < |users| && users[k].0 == id
    ensures forall i, j :: 0 <= i < j < |users| ==> users[i].0 != users[j].0
  {
    users := db.FindUsers((u: User) => true);
    reply := Reply(200, "");
  }

  /** The reply names the new value of the flag. */
  function BanMessage(isBanned: bool): (m: string)
    ensures m == Banned <==> isBanned
    ensures m == Unbanned <==> !isBanned
  {
    if isBanned then Banned else Unbanned
  }

  /** A malformed `:id` makes `findById` throw, and the catch answers 500. */
  function ToggleBanOutcome(s: State, pathId: string): (o: Outcome)
    ensures o.after.swaps == s.swaps
    ensures PathKey(pathId).None? ==> o == Outcome(Reply(500, ServerError), s)
    ensures PathKey(pathId).Some? && PathKey(pathId).value !in s.users ==> o == Outcome(Reply(404, UserNotFound), s)
    ensures PathKey(pathId).Some? && PathKey(pathId).value in s.users ==>
              var id := PathKey(pathId).value;
              && o.reply.code == 200
              && o.after.users == s.users[id := s.users[id].(isBanned := !s.users[id].isBanned)]
              && (o.reply.message == Banned <==> o.after.users[id].isBanned)
  {
    match PathKey(pathId)
    case None => Refuse(s, 500, ServerError)
    case Some(id) =>
      if id !in s.users then Refuse(s, 404, UserNotFound)
      else
        var u := s.users[id].(isBanned := !s.users[id].isBanned);
        Outcome(Reply(200, BanMessage(u.isBanned)), State(s.users[id := u], s.swaps))
  }

  /** Toggling twice restores the store, and the two replies say opposite things. */
  lemma ToggleTwiceRestores(s: State, pathId: string, id: Id)
    requires PathKey(pathId) == Some(id) && id in s.users
    ensures var o1 := ToggleBanOutcome(s, pathId);
            var o2 := ToggleBanOutcome(o1.after, pathId);
            o2.after == s && o1.reply.message != o2.reply.message
  {
    var o1 := ToggleBanOutcome(s, pathId);
    assert o1.after.users[id := s.users[id]] == s.users;
  }

  /** Only the flag of the one user changes; every other record and field stays as it was. */
  lemma ToggleChangesOnlyTheFlag(s: State, pathId: string, id: Id, other: Id)
    requires PathKey(pathId) == Some(id) && id in s.users && other in s.users
    ensures var after := ToggleBanOutcome(s, pathId).after.users;
            other in after &&
            (other != id ==> after[other] == s.users[other]) &&
            (other == id ==> after[other].(isBanned := s.users[id].isBanned) == s.users[id])
  {
  }

  lemma TogglePreservesConsistency(s: State, pathId: string)
    requires Consistent(s)
    ensures Consistent(ToggleBanOutcome(s, pathId).after)
  {
    if PathKey(pathId).Some? && PathKey(pathId).value in s.users {
      var id := PathKey(pathId).value;
      ReplaceUserKeepsConsistency(s.users, id, s.users[id].(isBanned := !s.users[id].isBanned));
    }
  }

  method ToggleBanUser(db: Db, caller: Id, pathId: string) returns (reply: Reply)
    requires db.Valid() && IsAdmin(db.Snapshot(), caller)
    modifies db
    ensures db.Valid()
    ensures Outcome(reply, db.Snapshot()) == ToggleBanOutcome(old(db.Snapshot()), pathId)
  {
    TogglePreservesConsistency(db.Snapshot(), pathId);
    var key := PathKey(pathId);
    if key.None? {
      return Reply(500, ServerError);
    }
    var id := key.value;
    if id !in db.users {
      return Reply(404, UserNotFound);
    }
    var user := db.users[id];
    user := user.(isBanned := !user.isBanned);
    db.users := db.users[id := user];
    reply := Reply(200, BanMessage(user.isBanned));
  }

  // ------------------------------------------------------------------ swaps

  /** The sort key of `sort({ createdAt: -1 })`. */
  function CreatedAt(v: SwapView): int {
    v.swap.createdAt
  }

  /** No swap precedes a newer one. */
  predicate NewestFirst(vs: seq<SwapView>) {
    Descending(vs, CreatedAt)
  }

  predicate DistinctIds(vs: seq<SwapView>) {
    forall i, j :: 0 <= i < j < |vs| ==> vs[i].id != vs[j].id
  }

  /** `Swap.find({})` with both references populated, sorted newest first. */
  method GetAllSwaps(db: Db, caller: Id) returns (reply: Reply, swaps: seq<SwapView>)
    requires IsAdmin(db.Snapshot(), caller)
    ensures reply.code == 200
    ensures NewestFirst(swaps)
    ensures forall k :: 0 <= k < |swaps| ==> IsViewIn(db.Snapshot(), swaps[k])
    ensures forall id :: id in db.swaps ==> exists k :: 0 <= k < |swaps| && swaps[k].id == id
    ensures DistinctIds(swaps)
  {
    var found := db.FindSwaps((sw: Swap) => true);
    assert NoDuplicates(found);
    swaps := SortDescending(found, CreatedAt);
    SortIsDescending(found, CreatedAt);
    SortKeepsNoDuplicates(found, CreatedAt);
    forall id | id in db.swaps
      ensures exists k :: 0 <= k < |swaps| && swaps[k].id == id
    {
      var k :| 0 <= k < |found| && found[k].id == id;
      assert found[k] in multiset(swaps);
    }
    forall k | 0 <= k < |swaps|
      ensures IsViewIn(db.Snapshot(), swaps[k])
    {
      assert swaps[k] in multiset(found);
    }
    reply := Reply(200, "");
  }
}
