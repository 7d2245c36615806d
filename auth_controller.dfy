/**
 * Registration and login. The configured admin address cannot be registered; logging in
 * with the configured admin credentials provisions the admin record on first use; a
 * regular login checks the password first and the ban flag only after it matched.
 * Password hashing and comparison are parameters, `hash` and `matches`; the token the
 * success replies carry is represented by the id it would be issued for.
 */
module AuthController {
  import opened Wrappers
  import opened Js
  import opened UserModel
  import opened Store

  const Reserved := "This email is reserved."
  const AlreadyExists := "User already exists"
  const UserValidationFailed := "User validation failed"
  const AdminSetupError := "Admin setup error"
  const InvalidCredentials := "Invalid email or password"
  const BannedAccount := "Your account has been banned."
  const MemberPhotoBase := "https://placehold.co/100x100/8b5cf6/ffffff?text="
  const AdminPhoto := "https://placehold.co/100x100/10b981/ffffff?text=A"
  const AdminName := "Admin"

  /** `ADMIN_EMAIL` and `ADMIN_PASSWORD` from the environment. */
  datatype Config = Config(adminEmail: string, adminPassword: string)

  /** A handler's reply and store, and the user the token is issued for on success. */
  datatype Session = Session(outcome: Outcome, user: Option<Id>)

  /** The placeholder avatar of a new member: the base URL followed by the upper-cased initial. */
  function PhotoFor(name: string): (url: string)
    ensures |url| == |MemberPhotoBase| + (if name == "" then 0 else 1)
    ensures url[..|MemberPhotoBase|] == MemberPhotoBase
    ensures name != "" ==> url[|MemberPhotoBase|] == UpperChar(name[0])
  {
    MemberPhotoBase + FirstUpper(name)
  }

  /** A user with this email exists. */
  predicate Taken(s: State, email: string) {
    exists id :: id in s.users && s.users[id].email == email
  }

  // --------------------------------------------------------------- register

  function RegisterOutcome(s: State, cfg: Config, name: string, email: string, password: string,
                           hash: string -> string, newId: Id): (r: Session)
    requires EmailsUnique(s.users) && newId !in s.users
    ensures r.outcome.after.swaps == s.swaps
    ensures r.outcome.reply.code != 201 ==> r.outcome.after == s && r.user == None
    ensures email == cfg.adminEmail ==> r.outcome.reply == Reply(400, Reserved)
    ensures email != cfg.adminEmail && Taken(s, email) ==> r.outcome.reply == Reply(400, AlreadyExists)
    ensures email != cfg.adminEmail && !Taken(s, email) && !CreatableUser(name, email, password) ==>
              r.outcome.reply.code == 500
    ensures r.outcome.reply.code == 201 <==>
              email != cfg.adminEmail && !Taken(s, email) && CreatableUser(name, email, password)
    ensures r.outcome.reply.code == 201 ==>
              && r.user == Some(newId)
              && r.outcome.after.users == s.users[newId := NewUser(name, email, hash(password), PhotoFor(name), Member)]
  {
    if email == cfg.adminEmail then Session(Refuse(s, 400, Reserved), None)
    else if UserWithEmail(s.users, email).Some? then Session(Refuse(s, 400, AlreadyExists), None)
    else if !CreatableUser(name, email, password) then Session(Refuse(s, 500, UserValidationFailed), None)
    else
      var u := NewUser(name, email, hash(password), PhotoFor(name), Member);
      Session(Outcome(Reply(201, ""), State(s.users[newId := u], s.swaps)), Some(newId))
  }

  /** A new member's avatar shows the upper-cased first letter of the name after `text=`. */
  lemma RegisteredPhotoShowsInitial(s: State, cfg: Config, name: string, email: string, password: string,
                                    hash: string -> string, newId: Id)
    requires EmailsUnique(s.users) && newId !in s.users
    requires RegisterOutcome(s, cfg, name, email, password, hash, newId).outcome.reply.code == 201
    ensures var photo := RegisterOutcome(s, cfg, name, email, password, hash, newId).outcome.after.users[newId].profilePhoto;
            |photo| >= 6 && photo[|photo| - 6..] == "text=" + [UpperChar(name[0])]
  {
    var photo := PhotoFor(name);
    assert photo == MemberPhotoBase + [UpperChar(name[0])];
  }

  /** Registering the same address a second time is refused and creates nothing. */
  lemma SecondRegistrationRefused(s: State, cfg: Config, name: string, email: string, password: string,
                                  hash: string -> string, newId: Id,
                                  name2: string, password2: string, newId2: Id)
    requires EmailsUnique(s.users) && newId !in s.users
    requires RegisterOutcome(s, cfg, name, email, password, hash, newId).outcome.reply.code == 201
    ensures var s1 := RegisterOutcome(s, cfg, name, email, password, hash, newId).outcome.after;
            EmailsUnique(s1.users) && newId2 !in s1.users ==>
              RegisterOutcome(s1, cfg, name2, email, password2, hash, newId2).outcome ==
              Outcome(Reply(400, AlreadyExists), s1)
  {
    var s1 := RegisterOutcome(s, cfg, name, email, password, hash, newId).outcome.after;
    assert s1.users[newId].email == email;
  }

  lemma RegisterPreservesConsistency(s: State, cfg: Config, name: string, email: string, password: string,
                                     hash: string -> string, newId: Id)
    requires Consistent(s) && newId !in s.users
    ensures Consistent(RegisterOutcome(s, cfg, name, email, password, hash, newId).outcome.after)
  {
    if email != cfg.adminEmail && !Taken(s, email) && CreatableUser(name, email, password) {
      NewUserValid(name, email, hash(password), PhotoFor(name), Member);
    }
  }

  method Register(db: Db, cfg: Config, name: string, email: string, password: string,
                  hash: string -> string, newId: Id) returns (reply: Reply, user: Option<Id>)
    requires db.Valid() && newId !in db.users
    modifies db
    ensures db.Valid()
    ensures Session(Outcome(reply, db.Snapshot()), user) ==
            RegisterOutcome(old(db.Snapshot()), cfg, name, email, password, hash, newId)
  {
    RegisterPreservesConsistency(db.Snapshot(), cfg, name, email, password, hash, newId);
    if email == cfg.adminEmail {
      return Reply(400, Reserved), None;
    }
    var existing := db.FindOne(email);
    if existing.Some? {
      return Reply(400, AlreadyExists), None;
    }
    var photo := MemberPhotoBase + FirstUpper(name);
    if !CreatableUser(name, email, password) {
      // `User.create` rejects with a ValidationError, answered by the catch block
      return Reply(500, UserValidationFailed), None;
    }
    db.users := db.users[newId := NewUser(name, email, hash(password), photo, Member)];
    reply, user := Reply(201, ""), Some(newId);
  }

  // ------------------------------------------------------------------ login

  /** The request carries exactly the configured admin credentials. */
  predicate AdminCredentials(cfg: Config, email: string, password: string) {
    email == cfg.adminEmail && password == cfg.adminPassword
  }

  function LoginOutcome(s: State, cfg: Config, email: string, password: string,
                        hash: string -> string, matches: (string, string) -> bool, newId: Id): (r: Session)
    requires EmailsUnique(s.users) && newId !in s.users
    ensures r.outcome.after.swaps == s.swaps
    ensures r.outcome.reply.code != 200 ==> r.outcome.after == s && r.user == None
    ensures r.outcome.reply.code == 200 ==>
              r.user.Some? && r.user.value in r.outcome.after.users &&
              r.outcome.after.users[r.user.value].email == email
    // the admin path: the stored record is reused, or one is created, and the ban flag is not consulted
    ensures AdminCredentials(cfg, email, password) && Taken(s, email) ==>
              r.outcome.reply.code == 200 && r.outcome.after == s
    ensures AdminCredentials(cfg, email, password) && !Taken(s, email) ==>
              (r.outcome.reply.code == 200 <==> CreatableUser(AdminName, email, password)) &&
              (r.outcome.reply.code != 200 ==> r.outcome.reply == Reply(500, AdminSetupError)) &&
              (r.outcome.reply.code == 200 ==>
                 r.user == Some(newId) &&
                 r.outcome.after.users == s.users[newId := NewUser(AdminName, email, hash(password), AdminPhoto, Admin)])
    // the regular path: the password is compared first, the ban flag afterwards
    ensures !AdminCredentials(cfg, email, password) ==> r.outcome.after == s
    ensures !AdminCredentials(cfg, email, password) ==>
              (r.outcome.reply == Reply(401, InvalidCredentials) <==>
                 !Taken(s, email) || !matches(password, s.users[UserWithEmail(s.users, email).value].passwordHash))
    ensures !AdminCredentials(cfg, email, password) && Taken(s, email) ==>
              var u := s.users[UserWithEmail(s.users, email).value];
              (r.outcome.reply == Reply(403, BannedAccount) <==> matches(password, u.passwordHash) && u.isBanned) &&
              (r.outcome.reply.code == 200 <==> matches(password, u.passwordHash) && !u.isBanned)
  {
    if AdminCredentials(cfg, email, password) then
      match UserWithEmail(s.users, cfg.adminEmail)
      case Some(id) => Session(Refuse(s, 200, ""), Some(id))
      case None =>
        if CreatableUser(AdminName, cfg.adminEmail, cfg.adminPassword) then
          var u := NewUser(AdminName, cfg.adminEmail, hash(cfg.adminPassword), AdminPhoto, Admin);
          Session(Outcome(Reply(200, ""), State(s.users[newId := u], s.swaps)), Some(newId))
        else Session(Refuse(s, 500, AdminSetupError), None)
    else
      match UserWithEmail(s.users, email)
      case None => Session(Refuse(s, 401, InvalidCredentials), None)
      case Some(id) =>
        if !matches(password, s.users[id].passwordHash) then Session(Refuse(s, 401, InvalidCredentials), None)
        else if s.users[id].isBanned then Session(Refuse(s, 403, BannedAccount), None)
        else Session(Refuse(s, 200, ""), Some(id))
  }

  /** A banned user who gives a wrong password is told the credentials are invalid, not that they are banned. */
  lemma BannedWrongPasswordGets401(s: State, cfg: Config, id: Id, password: string,
                                   hash: string -> string, matches: (string, string) -> bool, newId: Id)
    requires EmailsUnique(s.users) && newId !in s.users
    requires id in s.users && s.users[id].isBanned && !AdminCredentials(cfg, s.users[id].email, password)
    requires !matches(password, s.users[id].passwordHash)
    ensures LoginOutcome(s, cfg, s.users[id].email, password, hash, matches, newId).outcome.reply ==
            Reply(401, InvalidCredentials)
  {
  }

  /** The admin path never consults the ban flag: a banned admin record still logs in. */
  lemma AdminLoginIgnoresBan(s: State, cfg: Config, id: Id,
                             hash: string -> string, matches: (string, string) -> bool, newId: Id)
    requires EmailsUnique(s.users) && newId !in s.users
    requires id in s.users && s.users[id].email == cfg.adminEmail && s.users[id].isBanned
    ensures var r := LoginOutcome(s, cfg, cfg.adminEmail, cfg.adminPassword, hash, matches, newId);
            r.outcome.reply.code == 200 && r.user == Some(id) && r.outcome.after == s
  {
  }

  /** The admin record is created at most once: a second admin login reuses the first one's record. */
  lemma AdminLoginIdempotent(s: State, cfg: Config, hash: string -> string,
                             matches: (string, string) -> bool, newId: Id, newId2: Id)
    requires EmailsUnique(s.users) && newId !in s.users
    requires LoginOutcome(s, cfg, cfg.adminEmail, cfg.adminPassword, hash, matches, newId).outcome.reply.code == 200
    ensures var r1 := LoginOutcome(s, cfg, cfg.adminEmail, cfg.adminPassword, hash, matches, newId);
            EmailsUnique(r1.outcome.after.users) && newId2 !in r1.outcome.after.users ==>
              var r2 := LoginOutcome(r1.outcome.after, cfg, cfg.adminEmail, cfg.adminPassword, hash, matches, newId2);
              r2.outcome.after == r1.outcome.after && r2.user == r1.user
  {
    var r1 := LoginOutcome(s, cfg, cfg.adminEmail, cfg.adminPassword, hash, matches, newId);
    assert r1.outcome.after.users[r1.user.value].email == cfg.adminEmail;
  }

  /** A member who has just registered can log in with the same password, provided the hash verifies. */
  lemma RegisterThenLogin(s: State, cfg: Config, name: string, email: string, password: string,
                          hash: string -> string, matches: (string, string) -> bool, newId: Id, newId2: Id)
    requires EmailsUnique(s.users) && newId !in s.users
    requires RegisterOutcome(s, cfg, name, email, password, hash, newId).outcome.reply.code == 201
    requires matches(password, hash(password))
    ensures var s1 := RegisterOutcome(s, cfg, name, email, password, hash, newId).outcome.after;
            EmailsUnique(s1.users) && newId2 !in s1.users ==>
              var r := LoginOutcome(s1, cfg, email, password, hash, matches, newId2);
              r.outcome.reply.code == 200 && r.user == Some(newId) && r.outcome.after == s1
  {
    var s1 := RegisterOutcome(s, cfg, name, email, password, hash, newId).outcome.after;
    assert s1.users[newId].email == email;
  }

  lemma LoginPreservesConsistency(s: State, cfg: Config, email: string, password: string,
                                  hash: string -> string, matches: (string, string) -> bool, newId: Id)
    requires Consistent(s) && newId !in s.users
    ensures Consistent(LoginOutcome(s, cfg, email, password, hash, matches, newId).outcome.after)
  {
    if AdminCredentials(cfg, email, password) && !Taken(s, email) && CreatableUser(AdminName, email, password) {
      NewUserValid(AdminName, email, hash(password), AdminPhoto, Admin);
    }
  }

  method Login(db: Db, cfg: Config, email: string, password: string,
               hash: string -> string, matches: (string, string) -> bool, newId: Id)
    returns (reply: Reply, user: Option<Id>)
    requires db.Valid() && newId !in db.users
    modifies db
    ensures db.Valid()
    ensures Session(Outcome(reply, db.Snapshot()), user) ==
            LoginOutcome(old(db.Snapshot()), cfg, email, password, hash, matches, newId)
  {
    LoginPreservesConsistency(db.Snapshot(), cfg, email, password, hash, matches, newId);
    if email == cfg.adminEmail && password == cfg.adminPassword {
      var adminUser := db.FindOne(cfg.adminEmail);
      if adminUser.None? {
        if !CreatableUser(AdminName, cfg.adminEmail, cfg.adminPassword) {
          return Reply(500, AdminSetupError), None;
        }
        db.users := db.users[newId := NewUser(AdminName, cfg.adminEmail, hash(cfg.adminPassword), AdminPhoto, Admin)];
        adminUser := Some(newId);
      }
      return Reply(200, ""), adminUser;
    }
    var found := db.FindOne(email);
    if found.None? || !matches(password, db.users[found.value].passwordHash) {
      return Reply(401, InvalidCredentials), None;
    }
    if db.users[found.value].isBanned {
      return Reply(403, BannedAccount), None;
    }
    reply, user := Reply(200, ""), found;
  }
}
