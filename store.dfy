/**
 * The document store the controllers work on: one collection of users and one of swaps,
 * keyed by id, the invariant every saved record keeps, the reply a handler sends, and the
 * populated view of a swap that the listings return.
 */
module Store {
  import opened Wrappers
  import opened Js
  import opened UserModel
  import opened SwapModel

  /** An HTTP status code and the `message` of the JSON body. */
  datatype Reply = Reply(code: int, message: string)

  /** Both collections at one moment. */
  datatype State = State(users: map<Id, User>, swaps: map<Id, Swap>)

  /** What a handler sends and what the collections hold afterwards. */
  datatype Outcome = Outcome(reply: Reply, after: State)

  /** Answer without touching the store. */
  function Refuse(s: State, code: int, message: string): (o: Outcome)
    ensures o.after == s && o.reply.code == code
  {
    Outcome(Reply(code, message), s)
  }

  /** The `unique` index on `email`. */
  predicate EmailsUnique(users: map<Id, User>) {
    forall a, b :: a in users && b in users && users[a].email == users[b].email ==> a == b
  }

  /** What the swap handler's guards leave in every stored swap. */
  predicate SwapRecordValid(sw: Swap) {
    |sw.requesterSkills| > 0 && |sw.responderSkills| > 0 && Trim(sw.message) != ""
  }

  /** Every user record passed its validators, and no two share an email. */
  predicate UsersConsistent(users: map<Id, User>) {
    (forall id :: id in users ==> RecordValid(users[id])) && EmailsUnique(users)
  }

  predicate SwapsConsistent(swaps: map<Id, Swap>) {
    forall id :: id in swaps ==> SwapRecordValid(swaps[id])
  }

  /** The invariant of the store. */
  predicate Consistent(s: State) {
    UsersConsistent(s.users) && SwapsConsistent(s.swaps)
  }

  /** Replacing a valid record by another valid one with the same email keeps the users consistent. */
  lemma ReplaceUserKeepsConsistency(users: map<Id, User>, id: Id, u: User)
    requires UsersConsistent(users) && id in users
    requires RecordValid(u) && u.email == users[id].email
    ensures UsersConsistent(users[id := u])
  {
  }

  /** `findOne({ email })`: the one user with that email, if any (the unique index makes it unique). */
  function UserWithEmail(users: map<Id, User>, email: string): (r: Option<Id>)
    requires EmailsUnique(users)
    ensures r.Some? <==> exists id :: id in users && users[id].email == email
    ensures r.Some? ==> r.value in users && users[r.value].email == email
  {
    if exists id :: id in users && users[id].email == email then
      var id :| id in users && users[id].email == email; Some(id)
    else None
  }

  // ------------------------------------------------------ populated views

  /** The referenced user as `populate` returns it, or `null` when no such user exists. */
  datatype Party = Party(id: Id, name: string, profilePhoto: string, email: string)

  function Populate(users: map<Id, User>, id: Id): (r: Option<Party>)
    ensures r.Some? <==> id in users
    ensures r.Some? ==> r.value.id == id && r.value.name == users[id].name
  {
    if id in users then
      Some(Party(id, users[id].name, users[id].profilePhoto, users[id].email))
    else None
  }

  /** A swap with its two references populated. */
  datatype SwapView = SwapView(id: Id, swap: Swap, requester: Option<Party>, responder: Option<Party>)

  function ViewOf(users: map<Id, User>, id: Id, sw: Swap): SwapView {
    SwapView(id, sw, Populate(users, sw.requester), Populate(users, sw.responder))
  }

  /** The view of swap `v.id` as the store holds it. */
  predicate IsViewIn(s: State, v: SwapView) {
    v.id in s.swaps && v == ViewOf(s.users, v.id, s.swaps[v.id])
  }

  // ------------------------------------------------------------ the store

  class Db {
    var users: map<Id, User>
    var swaps: map<Id, Swap>

    function Snapshot(): State
      reads this
    {
      State(users, swaps)
    }

    ghost predicate Valid()
      reads this
    {
      Consistent(Snapshot())
    }

    constructor ()
      ensures Valid() && users == map[] && swaps == map[]
    {
      users := map[];
      swaps := map[];
    }

    /** A `find` over users: every user satisfying `keep`, each exactly once, in no particular order. */
    method FindUsers(keep: User -> bool) returns (r: seq<(Id, User)>)
      ensures forall k :: 0 <= k < |r| ==> r[k].0 in users && users[r[k].0] == r[k].1 && keep(r[k].1)
      ensures forall id :: id in users && keep(users[id]) ==> exists k :: 0 <= k < |r| && r[k].0 == id
      ensures forall i, j :: 0 <= i < j < |r| ==> r[i].0 != r[j].0
    {
      var rest := users.Keys;
      r := [];
      while rest != {}
        invariant rest <= users.Keys
        invariant forall k :: 0 <= k < |r| ==>
                    r[k].0 in users && r[k].0 !in rest && users[r[k].0] == r[k].1 && keep(r[k].1)
        invariant forall id :: id in users && id !in rest && keep(users[id]) ==>
                    exists k :: 0 <= k < |r| && r[k].0 == id
        invariant forall i, j :: 0 <= i < j < |r| ==> r[i].0 != r[j].0
        decreases rest
      {
        var id :| id in rest;
        if keep(users[id]) {
          ghost var prev := r;
          r := r + [(id, users[id])];
          assert forall k :: 0 <= k < |prev| ==> r[k] == prev[k];
          assert r[|prev|].0 == id;
        }
        rest := rest - {id};
      }
    }

    /** `findOne({ email })` over the users collection. */
    method FindOne(email: string) returns (r: Option<Id>)
      requires EmailsUnique(users)
      ensures r == UserWithEmail(users, email)
    {
      var rest := users.Keys;
      while rest != {}
        invariant rest <= users.Keys
        invariant forall id :: id in users && id !in rest ==> users[id].email != email
        decreases rest
      {
        var id :| id in rest;
        if users[id].email == email {
          return Some(id);
        }
        rest := rest - {id};
      }
      return None;
    }

    /** A `find` over swaps with both references populated: every swap satisfying `keep`, each once. */
    method FindSwaps(keep: Swap -> bool) returns (r: seq<SwapView>)
      ensures forall k :: 0 <= k < |r| ==> IsViewIn(Snapshot(), r[k]) && keep(r[k].swap)
      ensures forall id :: id in swaps && keep(swaps[id]) ==> exists k :: 0 <= k < |r| && r[k].id == id
      ensures forall i, j :: 0 <= i < j < |r| ==> r[i].id != r[j].id
    {
      var rest := swaps.Keys;
      r := [];
      while rest != {}
        invariant rest <= swaps.Keys
        invariant forall k :: 0 <= k < |r| ==>
                    IsViewIn(Snapshot(), r[k]) && r[k].id !in rest && keep(r[k].swap)
        invariant forall id :: id in swaps && id !in rest && keep(swaps[id]) ==>
                    exists k :: 0 <= k < |r| && r[k].id == id
        invariant forall i, j :: 0 <= i < j < |r| ==> r[i].id != r[j].id
        decreases rest
      {
        var id :| id in rest;
        if keep(swaps[id]) {
          ghost var prev := r;
          r := r + [ViewOf(users, id, swaps[id])];
          assert forall k :: 0 <= k < |prev| ==> r[k] == prev[k];
          assert r[|prev|].id == id;
        }
        rest := rest - {id};
      }
    }
  }
}
