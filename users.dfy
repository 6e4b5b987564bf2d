/** Accounts and e-mail verification. The user table is a sequence in which
    a user's id is its position plus one; the verification table maps each
    code to the user it verifies. Password hashing, password comparison,
    token signing and code generation are parameters, and the mails the
    service sends are appended to a log. */
module Users {
  import opened Common
  import opened UserEntity

  const EmailTaken := "There is a user with that email already"
  const LoginUserNotFound := "User Not Found.."
  const WrongPassword := "Wrong Password!"
  const CannotLogIn := "Can't log user in."
  const UserNotFound := "User Not Found"
  const CannotUpdateProfile := "Could not update profile."
  const VerificationNotFound := "Verification not found"

  /** A verification mail: the address it went to and the code it carries. */
  datatype Mail = Mail(to: string, code: string)

  /** The insert/update hook of the user record: a non-empty password is
      replaced by its hash before it is stored, an empty one is kept. */
  function Stored(hash: string -> string, password: string): string {
    if password != "" then hash(password) else password
  }

  /** An optional input field under JavaScript truthiness: present and non-empty. */
  predicate Given(s: Option<string>) {
    s.Some? && s.value != ""
  }

  /** Matches the user with the given e-mail address. */
  function EmailIs(email: string): User -> bool {
    (u: User) => u.email == email
  }

  /** Matches the user with the given id. */
  function IdIs(id: UserId): User -> bool {
    (u: User) => u.id == id
  }

  /** Matches a user other than `id` that already has `email`. */
  function ClashesWith(id: UserId, email: string): User -> bool {
    (u: User) => u.id != id && u.email == email
  }

  /** The unique constraint on the e-mail column. */
  predicate UniqueEmails(users: seq<User>) {
    forall i, j :: 0 <= i < j < |users| ==> users[i].email != users[j].email
  }

  /** The store hands out ids 1, 2, 3, ... in insertion order. */
  predicate IdsInOrder(users: seq<User>) {
    forall i :: 0 <= i < |users| ==> users[i].id == i + 1
  }

  /** `login`: look the account up by e-mail, compare the password with the
      stored hash (`None` when the comparison throws) and sign a token for
      the account's id. */
  function Login(users: seq<User>, email: string, password: string,
                 compare: (string, string) -> Option<bool>, sign: UserId -> string): (r: Output<string>)
    ensures r == Fail(LoginUserNotFound) <==> forall i :: 0 <= i < |users| ==> users[i].email != email
    ensures r.Ok? ==> exists i :: 0 <= i < |users| && users[i].email == email
                                 && compare(password, users[i].password) == Some(true) && r.value == sign(users[i].id)
  {
    match Find(users, EmailIs(email))
    case None => Fail(LoginUserNotFound)
    case Some(i) =>
      match compare(password, users[i].password)
      case None => Fail(CannotLogIn)
      case Some(false) => Fail(WrongPassword)
      case Some(true) => Ok(sign(users[i].id))
  }

  /** With unique e-mail addresses the answer does not depend on which
      matching row the store returns first: login succeeds exactly when the
      account with that address accepts the password, and the token is
      signed for that account. */
  lemma LoginSucceedsExactly(users: seq<User>, email: string, password: string,
                             compare: (string, string) -> Option<bool>, sign: UserId -> string, i: nat)
    requires UniqueEmails(users)
    requires i < |users| && users[i].email == email
    ensures Login(users, email, password, compare, sign) ==
      match compare(password, users[i].password)
      case None => Fail(CannotLogIn)
      case Some(false) => Fail(WrongPassword)
      case Some(true) => Ok(sign(users[i].id))
  {
    assert EmailIs(email)(users[i]);
    var k := Find(users, EmailIs(email));
    assert k.Some? && k.value <= i;
    assert users[k.value].email == email;
  }

  /** `findById`: the user with that id, or a failure. */
  function FindById(users: seq<User>, id: UserId): (r: Output<User>)
    ensures r.Ok? ==> r.value in users && r.value.id == id
    ensures r.Fail? <==> forall i :: 0 <= i < |users| ==> users[i].id != id
    ensures r.Fail? ==> r.error == UserNotFound
  {
    match Find(users, IdIs(id))
    case None => Fail(UserNotFound)
    case Some(i) => Ok(users[i])
  }

  /** In a table numbered by the store, the user with id `id` is found
      exactly when `id` has been handed out, at position `id - 1`. */
  lemma FindByIdIsPosition(users: seq<User>, id: UserId)
    requires IdsInOrder(users)
    ensures FindById(users, id).Ok? <==> 1 <= id <= |users|
    ensures FindById(users, id).Ok? ==> FindById(users, id).value == users[id - 1]
  {
    if 1 <= id <= |users| {
      assert IdIs(id)(users[id - 1]);
    }
  }

  /** A freshly created account can log in with the password it was
      created with, when the comparison accepts a password against its own
      hash. */
  lemma NewAccountCanLogIn(users: seq<User>, email: string, password: string, role: UserRole,
                           hash: string -> string, compare: (string, string) -> Option<bool>, sign: UserId -> string)
    requires UniqueEmails(users)
    requires forall i :: 0 <= i < |users| ==> users[i].email != email
    requires compare(password, Stored(hash, password)) == Some(true)
    ensures Login(users + [User(|users| + 1, email, Stored(hash, password), role, false)], email, password, compare, sign)
            == Ok(sign(|users| + 1))
  {
    var users' := users + [User(|users| + 1, email, Stored(hash, password), role, false)];
    LoginSucceedsExactly(users', email, password, compare, sign, |users|);
  }

  /** The verification table after a change of e-mail: every code of the
      user is deleted and `code` is added for them. */
  function Rotated(codes: map<string, UserId>, id: UserId, code: string): (r: map<string, UserId>)
    ensures code in r && r[code] == id
    ensures forall c :: c in r ==> (r[c] == id <==> c == code)
    ensures forall c :: c in codes && codes[c] != id && c != code ==> c in r && r[c] == codes[c]
    ensures forall c :: c in r && c != code ==> c in codes && r[c] == codes[c]
  {
    (map c | c in codes && codes[c] != id :: codes[c])[code := id]
  }

  /** Every code belongs to one of the `n` users, and no user has two codes
      (the verification's one-to-one relation to its user). */
  predicate CodesValid(codes: map<string, UserId>, n: nat) {
    && (forall c :: c in codes ==> 1 <= codes[c] <= n)
    && (forall c, d :: c in codes && d in codes && codes[c] == codes[d] ==> c == d)
  }

  /** Replacing a user's codes by one fresh code keeps one code per user. */
  lemma RotatedKeepsCodesValid(codes: map<string, UserId>, n: nat, id: UserId, code: string)
    requires CodesValid(codes, n) && 1 <= id <= n
    ensures CodesValid(Rotated(codes, id, code), n)
  {
    var r := Rotated(codes, id, code);
    forall c, d | c in r && d in r && r[c] == r[d]
      ensures c == d
    {
      if c != code && d != code {
        assert codes[c] == codes[d];
      }
    }
  }

  /** Giving the user at position `i` an address no other user has keeps
      addresses unique, and keeping the id keeps the numbering. */
  lemma UpdateKeepsTable(users: seq<User>, i: nat, u: User)
    requires UniqueEmails(users) && IdsInOrder(users) && i < |users|
    requires u.id == users[i].id
    requires forall j :: 0 <= j < |users| && j != i ==> users[j].email != u.email
    ensures UniqueEmails(users[i := u]) && IdsInOrder(users[i := u])
  {
  }

  class UsersService {
    var users: seq<User>
    var verifications: map<string, UserId>
    /** Every verification mail sent so far, oldest first. */
    ghost var mails: seq<Mail>

    /** Ids are handed out in order, e-mail addresses are unique, every
        code belongs to an existing user and no user has two codes (the
        one-to-one relation from verification to user). */
    ghost predicate Valid()
      reads this
    {
      && IdsInOrder(users)
      && UniqueEmails(users)
      && CodesValid(verifications, |users|)
    }

    /** A service over empty tables. */
    constructor ()
      ensures Valid()
      ensures users == [] && verifications == map[] && mails == []
    {
      users := [];
      verifications := map[];
      mails := [];
    }

    /** `createAccount`. An address already in use is refused and nothing is
        saved. Otherwise one unverified user is saved with the next id and
        the stored form of the password, one verification with the fresh
        `code` is saved for that user, and a mail with the code goes to the
        address. */
    method CreateAccount(email: string, password: string, role: UserRole, code: string, hash: string -> string)
      returns (r: Output<()>)
      requires Valid()
      requires code !in verifications
      modifies this
      ensures Valid()
      ensures (exists i :: 0 <= i < |old(users)| && old(users)[i].email == email) ==>
        && r == Fail(EmailTaken)
        && users == old(users) && verifications == old(verifications) && mails == old(mails)
      ensures (forall i :: 0 <= i < |old(users)| ==> old(users)[i].email != email) ==>
        var user := User(|old(users)| + 1, email, Stored(hash, password), role, false);
        && r == Ok(())
        && users == old(users) + [user]
        && verifications == old(verifications)[code := user.id]
        && mails == old(mails) + [Mail(email, code)]
      ensures r.Ok? ==> forall c :: c in verifications ==> (verifications[c] == |users| <==> c == code)
    {
      var existing := Find(users, EmailIs(email));
      if existing.Some? {
        return Fail(EmailTaken);
      }
      var user := User(|users| + 1, email, Stored(hash, password), role, false);
      users := users + [user];
      verifications := verifications[code := user.id];
      mails := mails + [Mail(user.email, code)];
      r := Ok(());
    }

    /** `editProfile`. The user is looked up by id; a missing user fails
        with nothing changed. A given e-mail address replaces the old one
        and clears `verified`; the user's codes are then replaced by the
        fresh `code` and a mail with it goes to the new address, all before
        the user is saved. A given password replaces the stored one by its
        hash. The save itself is refused when another user already has the
        address: the user row is then unchanged, but the new code and the
        mail remain. */
    method EditProfile(userId: UserId, email: Option<string>, password: Option<string>, code: string,
                       hash: string -> string)
      returns (r: Output<()>)
      requires Valid()
      requires code !in verifications
      modifies this
      ensures Valid()
      ensures !(1 <= userId <= |old(users)|) ==>
        && r == Fail(CannotUpdateProfile)
        && users == old(users) && verifications == old(verifications) && mails == old(mails)
      ensures 1 <= userId <= |old(users)| ==>
        var before := old(users)[userId - 1];
        var address := if Given(email) then email.value else before.email;
        var after := before.(email := address,
                             verified := before.verified && !Given(email),
                             password := if Given(password) then Stored(hash, password.value) else before.password);
        && verifications == (if Given(email) then Rotated(old(verifications), userId, code) else old(verifications))
        && mails == (if Given(email) then old(mails) + [Mail(address, code)] else old(mails))
        && ((exists j :: 0 <= j < |old(users)| && j != userId - 1 && old(users)[j].email == address) ==>
              r == Fail(CannotUpdateProfile) && users == old(users))
        && ((forall j :: 0 <= j < |old(users)| && j != userId - 1 ==> old(users)[j].email != address) ==>
              r == Ok(()) && users == old(users)[userId - 1 := after])
      ensures r.Ok? && Given(email) ==> !users[userId - 1].verified && users[userId - 1].email == email.value
    {
      var found := Find(users, IdIs(userId));
      if found.None? {
        return Fail(CannotUpdateProfile);
      }
      var i := found.value;
      var user := users[i];
      if Given(email) {
        user := user.(email := email.value, verified := false);
        ResetVerification(user.id, user.email, code);
      }
      if Given(password) {
        user := user.(password := Stored(hash, password.value));
      }
      r := SaveUser(i, user);
    }

    /** The e-mail branch of `editProfile` after the in-memory change: delete
        the user's verifications, save one with the fresh code and mail it to
        the new address. */
    method ResetVerification(id: UserId, address: string, code: string)
      requires CodesValid(verifications, |users|) && 1 <= id <= |users|
      modifies this`verifications, this`mails
      ensures CodesValid(verifications, |users|)
      ensures verifications == Rotated(old(verifications), id, code)
      ensures mails == old(mails) + [Mail(address, code)]
    {
      RotatedKeepsCodesValid(verifications, |users|, id, code);
      verifications := Rotated(verifications, id, code);
      mails := mails + [Mail(address, code)];
    }

    /** `users.save` of an existing user: refused, with nothing changed, when
        another user already has the address. */
    method SaveUser(i: nat, user: User) returns (r: Output<()>)
      requires UniqueEmails(users) && IdsInOrder(users)
      requires i < |users| && user.id == users[i].id
      modifies this`users
      ensures UniqueEmails(users) && IdsInOrder(users)
      ensures (exists j :: 0 <= j < |old(users)| && j != i && old(users)[j].email == user.email) ==>
        r == Fail(CannotUpdateProfile) && users == old(users)
      ensures (forall j :: 0 <= j < |old(users)| && j != i ==> old(users)[j].email != user.email) ==>
        r == Ok(()) && users == old(users)[i := user]
    {
      var clash := Find(users, ClashesWith(user.id, user.email));
      if clash.Some? {
        return Fail(CannotUpdateProfile);
      }
      assert forall j :: 0 <= j < |users| && j != i ==> !ClashesWith(user.id, user.email)(users[j]);
      UpdateKeepsTable(users, i, user);
      users := users[i := user];
      r := Ok(());
    }

    /** `verifyEmail`. An unknown code fails with nothing changed. A known
        code marks its user verified, changes nothing else about any user,
        and is deleted. */
    method VerifyEmail(code: string) returns (r: Output<()>)
      requires Valid()
      modifies this
      ensures Valid()
      ensures mails == old(mails)
      ensures code !in old(verifications) ==>
        r == Fail(VerificationNotFound) && users == old(users) && verifications == old(verifications)
      ensures code in old(verifications) ==>
        var id := old(verifications)[code];
        && r == Ok(())
        && users == old(users)[id - 1 := old(users)[id - 1].(verified := true)]
        && verifications == old(verifications) - {code}
      ensures r.Ok? ==> forall c :: c in verifications ==> verifications[c] != old(verifications)[code]
    {
      if code !in verifications {
        return Fail(VerificationNotFound);
      }
      var id := verifications[code];
      var user := users[id - 1];
      users := users[id - 1 := user.(verified := true)];
      verifications := verifications - {code};
      r := Ok(());
    }
  }

  /** Changing the address of an account and then following the code in the
      mail leaves the account verified under the new address. */
  method ChangeEmailThenVerify(service: UsersService, userId: UserId, email: string, code: string,
                               hash: string -> string)
    returns (r1: Output<()>, r2: Output<()>)
    requires service.Valid()
    requires code !in service.verifications
    requires 1 <= userId <= |service.users| && email != ""
    requires forall j :: 0 <= j < |service.users| && j != userId - 1 ==> service.users[j].email != email
    modifies service
    ensures r1 == Ok(()) && r2 == Ok(())
    ensures |service.users| == |old(service.users)|
    ensures service.users[userId - 1].email == email && service.users[userId - 1].verified
    ensures forall c :: c in service.verifications ==> service.verifications[c] != userId
  {
    r1 := service.EditProfile(userId, Some(email), None, code, hash);
    r2 := service.VerifyEmail(code);
  }
}
