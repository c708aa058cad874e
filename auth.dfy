/** The two account routes: `POST /api/auth/register` creates an account
    with its first user and a bcrypt digest of the password, and
    `POST /api/auth/login` checks an email and password against the stored
    digest. Neither ever answers with the digest. */
module Auth {
  import opened Text

  /** Cost factor the registration route hashes with. */
  const HashRounds: nat := 12

  /** A bcrypt digest. The model keeps what the digest was made from so that
      `Verify` can be defined; nothing but `Verify` looks inside it, and no
      reply carries one. */
  datatype Digest = Bcrypt(rounds: nat, salt: nat, secret: string)

  /** `bcrypt.hash(password, 12)`; the salt, random in bcrypt, is a parameter. */
  function Hash(password: string, salt: nat): (d: Digest)
    ensures Verify(password, d)
  {
    Bcrypt(HashRounds, salt, password)
  }

  /** `bcrypt.compare(password, digest)`. */
  predicate Verify(password: string, d: Digest) {
    d.secret == password
  }

  /** A digest admits only the password it was made from, whatever the salt. */
  lemma VerifyOnlyThePassword(password: string, other: string, salt: nat)
    ensures Verify(other, Hash(password, salt)) <==> other == password
  {
  }

  datatype AccountRow = AccountRow(id: nat, email: string, password: Digest, name: Option<string>)

  datatype UserRow = UserRow(id: nat, accountId: nat, name: string, email: string)

  /** The account as a reply shows it: every column except the password,
      with its users included. */
  datatype AccountView = AccountView(id: nat, email: string, name: Option<string>, users: seq<UserRow>)

  /** `include: { users: true }`: the users of one account, in table order. */
  function UsersOf(users: seq<UserRow>, accountId: nat): (r: seq<UserRow>)
    ensures forall u :: u in r <==> u in users && u.accountId == accountId
    ensures |r| <= |users|
  {
    if users == [] then []
    else
      var last := users[|users| - 1];
      UsersOf(users[..|users| - 1], accountId) + (if last.accountId == accountId then [last] else [])
  }

  /** A new user row belongs to its account alone: appended to a table
      with no user of that account, it is the account's only user. */
  lemma {:induction false} UsersOfNewAccount(users: seq<UserRow>, u: UserRow)
    requires forall k :: 0 <= k < |users| ==> users[k].accountId != u.accountId
    ensures UsersOf(users + [u], u.accountId) == [u]
  {
    assert (users + [u])[..|users|] == users;
    NoUsersOf(users, u.accountId);
  }

  lemma {:induction false} NoUsersOf(users: seq<UserRow>, accountId: nat)
    requires forall k :: 0 <= k < |users| ==> users[k].accountId != accountId
    ensures UsersOf(users, accountId) == []
    decreases |users|
  {
    if users != [] {
      NoUsersOf(users[..|users| - 1], accountId);
    }
  }

  /** The view of an account created together with its first user. */
  lemma NewAccountView(users: seq<UserRow>, row: AccountRow, user: UserRow)
    requires user.accountId == row.id
    requires forall k :: 0 <= k < |users| ==> users[k].accountId < row.id
    ensures View(row, users + [user]) == AccountView(row.id, row.email, row.name, [user])
  {
    UsersOfNewAccount(users, user);
  }

  function View(row: AccountRow, users: seq<UserRow>): (v: AccountView)
    ensures v.id == row.id && v.email == row.email && v.name == row.name
    ensures forall u :: u in v.users <==> u in users && u.accountId == row.id
  {
    AccountView(row.id, row.email, row.name, UsersOf(users, row.id))
  }

  /** `accountName || null`. */
  function AccountName(accountName: Option<string>): (r: Option<string>)
    ensures r.Some? <==> Present(accountName)
    ensures r.Some? ==> r == accountName
  {
    if Present(accountName) then accountName else None
  }

  /** `|| null` never stores an empty name, and applying it to what it
      stored changes nothing. */
  lemma AccountNameNeverEmpty(accountName: Option<string>)
    ensures AccountName(accountName) != Some("")
    ensures AccountName(AccountName(accountName)) == AccountName(accountName)
  {
  }

  // -----------------------------------------------------------------------
  // Login

  datatype LoginReply = LoginMissingFields | InvalidCredentials | LoggedIn(account: AccountView)

  function LoginStatus(r: LoginReply): (status: int)
    ensures status == 200 <==> r.LoggedIn?
  {
    match r
    case LoginMissingFields => 400
    case InvalidCredentials => 401
    case LoggedIn(_) => 200
  }

  function LoginMessage(r: LoginReply): string {
    match r
    case LoginMissingFields => "Email and password are required"
    case InvalidCredentials => "Invalid credentials"
    case LoggedIn(_) => "Login successful"
  }

  /** The login reply's message and its status determine each other. */
  lemma LoginMessageMatchesStatus(a: LoginReply, b: LoginReply)
    ensures LoginMessage(a) == LoginMessage(b) <==> LoginStatus(a) == LoginStatus(b)
  {
  }

  /** `POST /api/auth/login`. It only reads the store. An unknown email and
      a wrong password both give the one `InvalidCredentials` reply, so the
      caller cannot tell them apart. */
  function Login(accounts: map<string, AccountRow>, users: seq<UserRow>,
                 email: Option<string>, password: Option<string>): (r: LoginReply)
    ensures r == LoginMissingFields <==> !Present(email) || !Present(password)
    ensures r == InvalidCredentials <==>
              Present(email) && Present(password)
              && (email.value !in accounts || !Verify(password.value, accounts[email.value].password))
    ensures r.LoggedIn? ==>
              && email.value in accounts
              && Verify(password.value, accounts[email.value].password)
              && r.account == View(accounts[email.value], users)
  {
    if !Present(email) || !Present(password) then LoginMissingFields
    else if email.value !in accounts then InvalidCredentials
    else
      var account := accounts[email.value];
      if !Verify(password.value, account.password) then InvalidCredentials
      else LoggedIn(View(account, users))
  }

  // -----------------------------------------------------------------------
  // Registration

  datatype RegisterReply = RegisterMissingFields | EmailTaken | Registered(account: AccountView)

  function RegisterStatus(r: RegisterReply): (status: int)
    ensures status == 200 <==> r.Registered?
  {
    match r
    case RegisterMissingFields => 400
    case EmailTaken => 400
    case Registered(_) => 200
  }

  function RegisterMessage(r: RegisterReply): string {
    match r
    case RegisterMissingFields => "Email, password, and name are required"
    case EmailTaken => "An account with this email already exists"
    case Registered(_) => "Account created successfully"
  }

  /** The registration message tells the three replies apart, although the
      two refusals share the status 400. */
  lemma RegisterMessageNamesReply(a: RegisterReply, b: RegisterReply)
    ensures RegisterMessage(a) == RegisterMessage(b)
            <==> a.RegisterMissingFields? == b.RegisterMissingFields? && a.EmailTaken? == b.EmailTaken?
    ensures RegisterStatus(a) != RegisterStatus(b) ==> RegisterMessage(a) != RegisterMessage(b)
  {
  }

  /** Accounts are keyed by their (unique) email, and every id taken so far
      lies below the counter. */
  ghost predicate StoreInvariant(accounts: map<string, AccountRow>, users: seq<UserRow>, nextId: nat) {
    && (forall e :: e in accounts ==> accounts[e].email == e && accounts[e].id < nextId)
    && (forall k :: 0 <= k < |users|  ==> users[k].id < nextId && users[k].accountId < nextId)
  }

  /** Adding a fresh account row and its first user under the next two ids
      keeps the invariant. */
  lemma RegistrationKeepsInvariant(accounts: map<string, AccountRow>, users: seq<UserRow>, nextId: nat,
                                   row: AccountRow, user: UserRow)
    requires StoreInvariant(accounts, users, nextId)
    requires row.id == nextId && user.id == nextId + 1 && user.accountId == nextId
    ensures StoreInvariant(accounts[row.email := row], users + [user], nextId + 2)
  {
    var accounts', users' := accounts[row.email := row], users + [user];
    forall e | e in accounts' ensures accounts'[e].email == e && accounts'[e].id < nextId + 2 {
      if e != row.email {
        assert accounts'[e] == accounts[e];
      }
    }
    forall k | 0 <= k < |users'| ensures users'[k].id < nextId + 2 && users'[k].accountId < nextId + 2 {
      if k < |users| {
        assert users'[k] == users[k];
      }
    }
  }

  /** The account and user tables. Record ids are drawn from one counter. */
  class AccountStore {
    var accounts: map<string, AccountRow>
    var users: seq<UserRow>
    var nextId: nat

    ghost predicate Valid()
      reads this
    {
      StoreInvariant(accounts, users, nextId)
    }

    constructor ()
      ensures Valid() && accounts == map[] && users == [] && nextId == 0
    {
      accounts := map[];
      users := [];
      nextId := 0;
    }

    /** `POST /api/auth/register`; `salt` stands for bcrypt's random salt. */
    method Register(email: Option<string>, password: Option<string>, accountName: Option<string>,
                    userName: Option<string>, salt: nat) returns (reply: RegisterReply)
      requires Valid()
      modifies this
      ensures Valid()
      ensures !Present(email) || !Present(password) || !Present(userName) ==>
                reply == RegisterMissingFields
                && accounts == old(accounts) && users == old(users) && nextId == old(nextId)
      ensures Present(email) && Present(password) && Present(userName) && email.value in old(accounts) ==>
                reply == EmailTaken
                && accounts == old(accounts) && users == old(users) && nextId == old(nextId)
      ensures Present(email) && Present(password) && Present(userName) && email.value !in old(accounts) ==>
                var row := AccountRow(old(nextId), email.value, Hash(password.value, salt), AccountName(accountName));
                var user := UserRow(old(nextId) + 1, old(nextId), userName.value, email.value);
                && accounts == old(accounts)[email.value := row]
                && users == old(users) + [user]
                && nextId == old(nextId) + 2
                && reply == Registered(AccountView(row.id, row.email, row.name, [user]))
    {
      if !Present(email) || !Present(password) || !Present(userName) {
        return RegisterMissingFields;
      }
      if email.value in accounts {
        return EmailTaken;
      }
      var hashedPassword := Hash(password.value, salt);
      var row := AccountRow(nextId, email.value, hashedPassword, AccountName(accountName));
      var user := UserRow(nextId + 1, nextId, userName.value, email.value);
      var newAccounts, newUsers := accounts[email.value := row], users + [user];
      var view := View(row, newUsers);
      assert view == AccountView(row.id, row.email, row.name, [user]) by {
        NewAccountView(users, row, user);
      }
      assert StoreInvariant(newAccounts, newUsers, nextId + 2) by {
        RegistrationKeepsInvariant(accounts, users, nextId, row, user);
      }
      accounts, users, nextId := newAccounts, newUsers, nextId + 2;
      reply := Registered(view);
    }
  }

  /** What registration builds is what login later accepts: with no user of
      the new account yet, logging in with the registered email and password
      answers with the same view registration returned, and any other
      password is refused exactly like an unknown email. */
  lemma LoginAfterRegister(accounts: map<string, AccountRow>, users: seq<UserRow>, nextId: nat,
                           email: string, password: string, accountName: Option<string>,
                           userName: string, salt: nat, attempt: string)
    requires forall k :: 0 <= k < |users| ==> users[k].accountId < nextId
    requires email != "" && password != "" && attempt != ""
    ensures var row := AccountRow(nextId, email, Hash(password, salt), AccountName(accountName));
            var user := UserRow(nextId + 1, nextId, userName, email);
            var after := accounts[email := row];
            && Login(after, users + [user], Some(email), Some(password))
               == LoggedIn(AccountView(nextId, email, AccountName(accountName), [user]))
            && (attempt != password ==>
                  Login(after, users + [user], Some(email), Some(attempt)) == InvalidCredentials)
  {
    var row := AccountRow(nextId, email, Hash(password, salt), AccountName(accountName));
    var user := UserRow(nextId + 1, nextId, userName, email);
    var after := accounts[email := row];
    assert after[email] == row;
    NewAccountView(users, row, user);
    LoginOfStoredEmail(after, users + [user], email, password);
    LoginOfStoredEmail(after, users + [user], email, attempt);
  }

  /** Login with an email on file answers by the password check alone. */
  lemma LoginOfStoredEmail(accounts: map<string, AccountRow>, users: seq<UserRow>, email: string, password: string)
    requires email in accounts && email != "" && password != ""
    ensures Login(accounts, users, Some(email), Some(password))
            == if Verify(password, accounts[email].password) then LoggedIn(View(accounts[email], users))
               else InvalidCredentials
  {
  }

  /** Registering never replaces an account: the accounts already present
      keep their rows, so their owners' logins answer as before. */
  lemma RegisterKeepsOtherLogins(accounts: map<string, AccountRow>, users: seq<UserRow>,
                                  email: string, row: AccountRow, user: UserRow,
                                  other: string, password: Option<string>)
    requires email !in accounts && other != email && user.accountId == row.id
    requires forall e :: e in accounts ==> accounts[e].id != row.id
    ensures Login(accounts[email := row], users + [user], Some(other), password)
            == Login(accounts, users, Some(other), password)
  {
    if other in accounts {
      var a := accounts[other];
      assert UsersOf(users + [user], a.id) == UsersOf(users, a.id) by {
        assert (users + [user])[..|users|] == users;
      }
    }
  }
}
