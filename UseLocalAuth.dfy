/**
 * src/hooks/useLocalAuth.ts: a browser-only account registry. Storage holds the
 * registered users under `shadow-comments-users` and the signed-in user under
 * `shadow-comments-user`; the hook's state mirrors the latter. Sign-up adds a
 * user with a new email, sign-in selects a registered user by email alone.
 */
module UseLocalAuth {
  import opened Wrappers
  import opened Text
  import opened Lists
  import opened Storage

  /** The hook's `User`. */
  datatype LocalUser = LocalUser(id: string, email: string, name: Option<string>, avatarUrl: Option<string>)

  function EmailOf(u: LocalUser): string {
    u.email
  }

  /** What the `shadow-comments-user` key holds: nothing, a user, or text `JSON.parse` rejects. */
  datatype CurrentSlot = NoCurrent | Current(user: LocalUser) | CorruptCurrent

  /** What the hook answers; `Thrown` is the `catch` of an exception from parsing the registry. */
  datatype AuthReply = Signed(user: LocalUser) | Refused(message: string) | Thrown

  const MsgRequired: string := "Email and password are required"
  const MsgExists: string := "User already exists with this email"
  const MsgNotFound: string := "User not found"
  const AvatarBase: string := "https://api.dicebear.com/7.x/avataaars/svg?seed="

  /**
   * `JSON.parse(localStorage.getItem('shadow-comments-users') || '[]')` ready for
   * `.find`: the list, `[]` when the key is absent, None when parsing or `.find` throws.
   */
  function Registered(registry: Option<Stored<LocalUser>>): (r: Option<seq<LocalUser>>)
    ensures registry.None? ==> r == Some([])
    ensures registry.Some? && registry.value.Items? ==> r == Some(registry.value.items)
    ensures registry.Some? && !registry.value.Items? ==> r.None?
  {
    match registry
    case None => Some([])
    case Some(Items(xs)) => Some(xs)
    case Some(_) => None
  }

  /** `users.find(u => u.email === email)`. */
  function FindByEmail(users: seq<LocalUser>, email: string): (r: Option<LocalUser>)
    ensures r.Some? ==> r.value in users && r.value.email == email
    ensures r.None? <==> forall u :: u in users ==> u.email != email
  {
    var idx := IndexOfKey(users, EmailOf, email);
    assert idx.None? ==> forall u :: u in users ==> u.email != email by {
      if idx.None? {
        forall u | u in users ensures u.email != email {
          var k :| 0 <= k < |users| && users[k] == u;
          assert EmailOf(users[k]) != email;
        }
      }
    }
    FirstWithKey(users, EmailOf, email)
  }

  /** The user `signUp` creates: the name defaults to the email's local part, the avatar is seeded by the email. */
  function NewLocalUser(email: string, name: Option<string>, now: int, suffix: string): (u: LocalUser)
    ensures u.email == email && u.id == "user_" + IntToString(now) + "_" + suffix
    ensures u.name == Some(Or(name, LocalPart(email)))
    ensures u.avatarUrl == Some(AvatarBase + email)
  {
    LocalUser("user_" + IntToString(now) + "_" + suffix, email, Some(Or(name, LocalPart(email))),
              Some(AvatarBase + email))
  }

  /** The demo user of `signInWithGoogle`, never written to the registry. */
  function GoogleDemoUser(now: int): (u: LocalUser)
    ensures u.id == "google_user_" + IntToString(now) && u.email == "demo@google.com"
    ensures u.name == Some("Google User") && u.avatarUrl == Some(AvatarBase + "google")
  {
    LocalUser("google_user_" + IntToString(now), "demo@google.com", Some("Google User"), Some(AvatarBase + "google"))
  }

  /** Registry emails are pairwise distinct. */
  predicate UniqueEmails(users: seq<LocalUser>) {
    UniqueKeys(users, EmailOf)
  }

  /** Appending a user under an email the registry lacks keeps emails unique, and that email then finds the new user. */
  lemma {:induction false} AppendNewEmail(users: seq<LocalUser>, u: LocalUser)
    requires FindByEmail(users, u.email).None?
    ensures UniqueEmails(users) ==> UniqueEmails(users + [u])
    ensures FindByEmail(users + [u], u.email) == Some(u)
    ensures forall e :: e != u.email ==> FindByEmail(users + [u], e) == FindByEmail(users, e)
  {
    var xs := users + [u];
    if UniqueEmails(users) {
      forall i, j | 0 <= i < j < |xs| ensures EmailOf(xs[i]) != EmailOf(xs[j]) {
        assert xs[i] == users[i];
        if j == |users| {
          assert users[i] in users;
        } else {
          assert xs[j] == users[j];
        }
      }
    }
    IndexOfKeyAppendOne(users, u, EmailOf, u.email);
    forall e | e != u.email ensures FindByEmail(xs, e) == FindByEmail(users, e) {
      IndexOfKeyAppendOne(users, u, EmailOf, e);
    }
  }

  /** The hook instance: both storage keys and the state record. */
  class LocalAuth {
    var registry: Option<Stored<LocalUser>>
    var current: CurrentSlot
    var user: Option<LocalUser>
    var loading: bool

    /** First render, before the mount effect: no user, loading. */
    constructor (registry: Option<Stored<LocalUser>>, current: CurrentSlot)
      ensures this.registry == registry && this.current == current
      ensures user.None? && loading
    {
      this.registry := registry;
      this.current := current;
      user := None;
      loading := true;
    }

    /** The mount effect: the stored current user, or none when absent or unparsable. */
    method Mount()
      modifies this
      ensures registry == old(registry) && current == old(current) && !loading
      ensures user == if current.Current? then Some(current.user) else None
    {
      user := if current.Current? then Some(current.user) else None;
      loading := false;
    }

    /** `signUp(email, password, name)`; `now` and `suffix` stand for `Date.now()` and the random id part. */
    method SignUp(email: string, password: string, name: Option<string>, now: int, suffix: string)
      returns (reply: AuthReply)
      modifies this
      ensures email == "" || password == "" ==>
        reply == Refused(MsgRequired) && registry == old(registry) && current == old(current)
        && user == old(user) && loading == old(loading)
      ensures email != "" && password != "" && Registered(old(registry)).None? ==>
        reply == Thrown && registry == old(registry) && current == old(current)
        && user == old(user) && loading == old(loading)
      ensures email != "" && password != "" && Registered(old(registry)).Some?
              && FindByEmail(Registered(old(registry)).value, email).Some? ==>
        reply == Refused(MsgExists) && registry == old(registry) && current == old(current)
        && user == old(user) && loading == old(loading)
      ensures email != "" && password != "" && Registered(old(registry)).Some?
              && FindByEmail(Registered(old(registry)).value, email).None? ==>
        var u := NewLocalUser(email, name, now, suffix);
        && reply == Signed(u)
        && registry == Some(Items(Registered(old(registry)).value + [u]))
        && current == Current(u) && user == Some(u) && !loading
      // the registry never gains a second user under one email
      ensures Registered(old(registry)).Some? && UniqueEmails(Registered(old(registry)).value) ==>
        Registered(registry).Some? && UniqueEmails(Registered(registry).value)
    {
      if email == "" || password == "" {
        return Refused(MsgRequired);
      }
      var users := Registered(registry);
      if users.None? {
        return Thrown;
      }
      if FindByEmail(users.value, email).Some? {
        return Refused(MsgExists);
      }
      var u := NewLocalUser(email, name, now, suffix);
      AppendNewEmail(users.value, u);
      registry := Some(Items(users.value + [u]));
      current := Current(u);
      user := Some(u);
      loading := false;
      reply := Signed(u);
    }

    /** `signIn(email, password)`: the password is checked for presence only. */
    method SignIn(email: string, password: string) returns (reply: AuthReply)
      modifies this
      ensures registry == old(registry)
      ensures email == "" || password == "" ==>
        reply == Refused(MsgRequired) && current == old(current) && user == old(user) && loading == old(loading)
      ensures email != "" && password != "" && Registered(registry).None? ==>
        reply == Thrown && current == old(current) && user == old(user) && loading == old(loading)
      ensures email != "" && password != "" && Registered(registry).Some?
              && FindByEmail(Registered(registry).value, email).None? ==>
        reply == Refused(MsgNotFound) && current == old(current) && user == old(user) && loading == old(loading)
      ensures email != "" && password != "" && Registered(registry).Some?
              && FindByEmail(Registered(registry).value, email).Some? ==>
        var u := FindByEmail(Registered(registry).value, email).value;
        reply == Signed(u) && current == Current(u) && user == Some(u) && !loading
    {
      if email == "" || password == "" {
        return Refused(MsgRequired);
      }
      var users := Registered(registry);
      if users.None? {
        return Thrown;
      }
      var found := FindByEmail(users.value, email);
      if found.None? {
        return Refused(MsgNotFound);
      }
      current := Current(found.value);
      user := found;
      loading := false;
      reply := Signed(found.value);
    }

    /** `signOut()`. */
    method SignOut()
      modifies this
      ensures registry == old(registry) && current == NoCurrent && user.None? && !loading
    {
      current := NoCurrent;
      user := None;
      loading := false;
    }

    /** `signInWithGoogle()`: the demo user becomes current without being registered. */
    method SignInWithGoogle(now: int) returns (reply: AuthReply)
      modifies this
      ensures registry == old(registry)
      ensures reply == Signed(GoogleDemoUser(now))
      ensures current == Current(GoogleDemoUser(now)) && user == Some(GoogleDemoUser(now)) && !loading
    {
      var u := GoogleDemoUser(now);
      current := Current(u);
      user := Some(u);
      loading := false;
      reply := Signed(u);
    }
  }
}
