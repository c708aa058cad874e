/** The settings page: the household's user list with its add form, and
    the notification settings record. */
module Settings {
  import opened Text

  datatype User = User(id: string, name: string, email: string, isActive: bool)

  datatype NewUser = NewUser(name: string, email: string)

  datatype SettingValue = Flag(on: bool) | Time(text: string)

  /** `users.filter(user => user.id !== userId)`. */
  function WithoutUser(users: seq<User>, userId: string): (r: seq<User>)
    ensures |r| <= |users|
    ensures forall k :: 0 <= k < |r| ==> r[k].id != userId
  {
    if users == [] then []
    else
      var last := users[|users| - 1];
      WithoutUser(users[..|users| - 1], userId) + (if last.id != userId then [last] else [])
  }

  /** Exactly the users with another id remain. */
  lemma {:induction false} WithoutUserMembers(users: seq<User>, userId: string, u: User)
    ensures u in WithoutUser(users, userId) <==> u in users && u.id != userId
    decreases |users|
  {
    if users != [] {
      var init := users[..|users| - 1];
      WithoutUserMembers(init, userId, u);
      assert users == init + [users[|users| - 1]];
    }
  }

  /** Removing an id nobody has changes nothing. */
  lemma {:induction false} WithoutAbsentUser(users: seq<User>, userId: string)
    requires forall k :: 0 <= k < |users| ==> users[k].id != userId
    ensures WithoutUser(users, userId) == users
    decreases |users|
  {
    if users != [] {
      WithoutAbsentUser(users[..|users| - 1], userId);
      assert users == users[..|users| - 1] + [users[|users| - 1]];
    }
  }

  /** The remaining users keep their order: filtering distributes over
      concatenation. */
  lemma {:induction false} WithoutUserAppend(a: seq<User>, b: seq<User>, userId: string)
    ensures WithoutUser(a + b, userId) == WithoutUser(a, userId) + WithoutUser(b, userId)
    decreases |b|
  {
    if b != [] {
      var initB := b[..|b| - 1];
      assert (a + b)[..|a + b| - 1] == a + initB;
      WithoutUserAppend(a, initB, userId);
    } else {
      assert a + b == a;
    }
  }

  /** Removing the id of a user just added takes out that user and leaves
      the list as removing it before would have. */
  lemma RemoveAddedUser(users: seq<User>, u: User)
    ensures WithoutUser(users + [u], u.id) == WithoutUser(users, u.id)
  {
    WithoutUserAppend(users, [u], u.id);
  }

  function InitialUsers(): seq<User> {
    [User("1", "Sir Knight", "knight@castle.com", true), User("2", "Lady Warrior", "warrior@castle.com", true)]
  }

  function InitialEmailSettings(): map<string, SettingValue> {
    map["dailyReminders" := Flag(true), "weeklyReports" := Flag(true),
        "bingoCelebrations" := Flag(true), "reminderTime" := Time("09:00")]
  }

  class SettingsPage {
    var users: seq<User>
    var newUser: NewUser
    var showAddUser: bool
    var emailSettings: map<string, SettingValue>

    constructor ()
      ensures users == InitialUsers() && newUser == NewUser("", "") && !showAddUser
      ensures emailSettings == InitialEmailSettings()
    {
      users := InitialUsers();
      newUser := NewUser("", "");
      showAddUser := false;
      emailSettings := InitialEmailSettings();
    }

    /** `handleAddUser`: with both a name and an email, append the user with
        id `Date.now().toString()` (`now`), active, then clear and hide the
        form; otherwise nothing happens. The fields are not trimmed. */
    method HandleAddUser(now: nat)
      modifies this
      ensures old(newUser).name != [] && old(newUser).email != [] ==>
                && users == old(users) + [User(NatToString(now), old(newUser).name, old(newUser).email, true)]
                && newUser == NewUser("", "") && !showAddUser
      ensures old(newUser).name == [] || old(newUser).email == [] ==>
                users == old(users) && newUser == old(newUser) && showAddUser == old(showAddUser)
      ensures emailSettings == old(emailSettings)
    {
      if newUser.name != [] && newUser.email != [] {
        var user := User(NatToString(now), newUser.name, newUser.email, true);
        users := users + [user];
        newUser := NewUser("", "");
        showAddUser := false;
      }
    }

    /** `handleRemoveUser`: drop every user with that id. */
    method HandleRemoveUser(userId: string)
      modifies this
      ensures users == WithoutUser(old(users), userId)
      ensures newUser == old(newUser) && showAddUser == old(showAddUser) && emailSettings == old(emailSettings)
    {
      users := WithoutUser(users, userId);
    }

    /** `handleEmailSettingsChange`: set one key, keep the others. */
    method HandleEmailSettingsChange(setting: string, value: SettingValue)
      modifies this
      ensures emailSettings == old(emailSettings)[setting := value]
      ensures setting in emailSettings && emailSettings[setting] == value
      ensures forall k :: k in old(emailSettings) && k != setting ==> k in emailSettings && emailSettings[k] == old(emailSettings)[k]
      ensures users == old(users) && newUser == old(newUser) && showAddUser == old(showAddUser)
    {
      emailSettings := emailSettings[setting := value];
    }

    /** The "Add User" button opens the form and keeps what was typed. */
    method OpenAddUser()
      modifies this
      ensures showAddUser
      ensures users == old(users) && newUser == old(newUser) && emailSettings == old(emailSettings)
    {
      showAddUser := true;
    }

    /** The form's Cancel button hides it and keeps what was typed. */
    method CancelAddUser()
      modifies this
      ensures !showAddUser
      ensures users == old(users) && newUser == old(newUser) && emailSettings == old(emailSettings)
    {
      showAddUser := false;
    }

    method SetNewUser(name: string, email: string)
      modifies this
      ensures newUser == NewUser(name, email)
      ensures users == old(users) && showAddUser == old(showAddUser) && emailSettings == old(emailSettings)
    {
      newUser := NewUser(name, email);
    }
  }
}
