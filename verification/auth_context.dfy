/** The session controller: who is signed in, their profile, whether the
    app is still waiting for the first auth event, and whether it runs in
    local mode. The authentication services are opaque: what a sign-in or
    sign-up call returns is a parameter, and so is the success of every
    remote call the controller makes. */
module AuthContext {
  import opened Common
  import opened Firestore
  import opened DeviceStorage
  import opened LocalStorage
  import opened SyncManager

  /** The signed-in account as the auth service reports it. */
  datatype AuthUser = AuthUser(uid: string, displayName: Option<string>, email: Option<string>, photoURL: Option<string>)

  /** A rejection by the auth service: its code and message. */
  datatype AuthError = AuthError(code: string, message: string)

  /** What a sign-in or sign-up call resolves to. */
  datatype SignInResult = Rejected(error: AuthError) | NoUser | SignedIn(account: AuthUser)

  /** Why a sign-in or sign-up was rethrown. */
  datatype AuthFailure = Service(authError: AuthError) | ProfileStore(storeError: StoreError)

  /** Which remote calls of one sequence fail: the local read of
      `@tasks_local`, the profile read and write, and the batch commit. */
  datatype Faults = Faults(localRead: bool, profileRead: bool, profileWrite: bool, commit: bool)

  /** The fields `updateUserProfile` is given; each may be missing. */
  datatype ProfileChanges = ProfileChanges(name: Option<string>, email: Option<string>, photoURL: Option<string>)

  /** `photoURL` only when it is truthy. */
  function TruthyPhoto(p: Option<string>): Option<string> {
    if Present(p) then p else None
  }

  /** The profile created on an auth event for a user without one. */
  function EventProfile(u: AuthUser): ProfileInput {
    ProfileInput(OptOr(u.displayName, "User"), OptOr(u.email, ""), TruthyPhoto(u.photoURL))
  }

  /** The profile created on sign-in for a user without one; the typed
      email is the fallback for the account's. */
  function SignInProfile(u: AuthUser, email: Option<string>): ProfileInput {
    ProfileInput(OptOr(u.displayName, "User"), OptOr(u.email, OptOr(email, "")), TruthyPhoto(u.photoURL))
  }

  /** The profile written on every sign-up; the full name typed on the form
      comes first. */
  function SignUpProfile(u: AuthUser, email: Option<string>, fullName: Option<string>): ProfileInput {
    ProfileInput(OptOr(fullName, OptOr(u.displayName, "User")), OptOr(u.email, OptOr(email, "")), TruthyPhoto(u.photoURL))
  }

  /** The profile `updateUserProfile` writes: each field given, else the
      held profile's, else the default. */
  function UpdatedProfile(changes: ProfileChanges, current: Option<Profile>): ProfileInput {
    var heldName := if current.Some? then Some(current.value.name) else None;
    var heldEmail := if current.Some? then Some(current.value.email) else None;
    ProfileInput(OptOr(changes.name, OptOr(heldName, "User")), OptOr(changes.email, OptOr(heldEmail, "")), TruthyPhoto(changes.photoURL))
  }

  /** The profile every written sign-up carries: the full name when one is
      typed, on the email path and on the Google path alike. */
  lemma SignUpNameChain(u: AuthUser, email: Option<string>, fullName: Option<string>, now: Time)
    ensures var p := ProfileData(SignUpProfile(u, email, fullName), now);
      && p.name != ""
      && (Present(fullName) ==> p.name == fullName.value)
      && (!Present(fullName) && Present(u.displayName) ==> p.name == u.displayName.value)
      && (!Present(fullName) && !Present(u.displayName) ==> p.name == "User")
      && p.createdAt == now
  {
  }

  /** What `getUserProfile` finds: nothing when the read fails. */
  function StoredProfile(users: map<string, UserDoc>, uid: string, readFails: bool): Option<Profile> {
    if !readFails && uid in users then users[uid].profile else None
  }

  /** What `loadLocalTasks` returns. */
  function LocalRead(entries: map<string, string>, readFails: bool): seq<LocalTask> {
    if readFails then [] else Loaded(entries)
  }

  class AuthProvider {
    var user: Option<AuthUser>
    var userProfile: Option<Profile>
    var loading: bool
    var isLocalMode: bool

    constructor ()
      ensures user == None && userProfile == None && loading && isLocalMode
    {
      user := None;
      userProfile := None;
      loading := true;
      isLocalMode := true;
    }

    /** The auth-state handler: records the user and the mode, loads (or
        creates) the profile of a signed-in user, and ends loading. A failed
        profile creation is logged and leaves the profile as it was. */
    method OnAuthStateChanged(db: Database, authUser: Option<AuthUser>, now: Time, profileReadFails: bool, profileWriteFails: bool)
      modifies this, db
      ensures user == authUser && isLocalMode == authUser.None? && !loading
      ensures db.tasks == old(db.tasks) && db.nextId == old(db.nextId)
      ensures authUser.None? ==> userProfile == None && db.users == old(db.users)
      ensures authUser.Some? ==>
        var stored := StoredProfile(old(db.users), authUser.value.uid, profileReadFails);
        var created := ProfileData(EventProfile(authUser.value), now);
        && (stored.Some? ==> userProfile == stored && db.users == old(db.users))
        && (stored.None? && profileWriteFails ==> userProfile == old(userProfile) && db.users == old(db.users))
        && (stored.None? && !profileWriteFails ==>
              userProfile == Some(created) && db.users == WithProfile(old(db.users), authUser.value.uid, created))
    {
      user := authUser;
      isLocalMode := authUser.None?;
      if authUser.Some? {
        var u := authUser.value;
        var profile := db.GetUserProfile(u.uid, profileReadFails);
        if profile.None? {
          var newProfile := EventProfile(u);
          var written := db.CreateUserProfile(u.uid, newProfile, now, profileWriteFails);
          if written.Ok? {
            userProfile := Some(ProfileData(newProfile, now));
          }
        } else {
          userProfile := profile;
        }
      } else {
        userProfile := None;
      }
      loading := false;
    }

    /** `handleSignIn`: reads the local tasks first, signs in by email when
        both email and password are truthy and with Google otherwise, then
        loads or creates the profile, leaves local mode and migrates the
        local tasks when there are any. A failed migration is swallowed;
        any other failure is rethrown. */
    method HandleSignIn(db: Database, store: Store, email: Option<string>, password: Option<string>,
                        emailResult: SignInResult, googleResult: SignInResult, now: Time, faults: Faults)
      returns (r: Outcome<AuthFailure>)
      requires db.Valid()
      modifies this, db
      ensures db.Valid() && user == old(user) && loading == old(loading)
      ensures var result := if Present(email) && Present(password) then emailResult else googleResult;
        !result.SignedIn? ==>
          && r == (if result.Rejected? then Fail(Service(result.error)) else Pass)
          && userProfile == old(userProfile) && isLocalMode == old(isLocalMode)
          && db.users == old(db.users) && db.tasks == old(db.tasks)
      ensures var result := if Present(email) && Present(password) then emailResult else googleResult;
        result.SignedIn? ==>
        var uid := result.account.uid;
        var stored := StoredProfile(old(db.users), uid, faults.profileRead);
        var created := ProfileData(SignInProfile(result.account, email), now);
        var local := LocalRead(old(store.entries), faults.localRead);
        if stored.None? && faults.profileWrite then
          && r == Fail(ProfileStore(Unavailable))
          && userProfile == old(userProfile) && isLocalMode == old(isLocalMode)
          && db.users == old(db.users) && db.tasks == old(db.tasks)
        else
          && r == Pass && !isLocalMode
          && userProfile == Some(if stored.Some? then stored.value else created)
          && db.users == (if stored.Some? then old(db.users) else WithProfile(old(db.users), uid, created))
          && (faults.commit ==> db.tasks == old(db.tasks))
          && (!faults.commit ==> db.tasks == ApplyWrites(old(db.tasks), Writes(Pending(local), uid, old(db.nextId))))
    {
      var localTasks := LoadLocalTasks(store, faults.localRead);
      var result := if Present(email) && Present(password) then emailResult else googleResult;
      if result.Rejected? {
        return Fail(Service(result.error));
      }
      if result.NoUser? {
        return Pass;
      }
      var u := result.account;
      var profile := db.GetUserProfile(u.uid, faults.profileRead);
      if profile.None? {
        var newProfile := SignInProfile(u, email);
        var written := db.CreateUserProfile(u.uid, newProfile, now, faults.profileWrite);
        if written.Err? {
          return Fail(ProfileStore(written.error));
        }
        profile := Some(ProfileData(newProfile, now));
      }
      userProfile := profile;
      isLocalMode := false;
      MigrateLocalTasks(db, u.uid, localTasks, faults.commit);
      r := Pass;
    }

    /** `handleSignUp`: reads the local tasks first, signs up by email when
        email, password and full name are all truthy and with Google
        otherwise, then always writes a fresh profile, leaves local mode and
        migrates the local tasks when there are any. A failed migration is
        swallowed; any other failure is rethrown. */
    method HandleSignUp(db: Database, store: Store, email: Option<string>, password: Option<string>, fullName: Option<string>,
                        emailResult: SignInResult, googleResult: SignInResult, now: Time, faults: Faults)
      returns (r: Outcome<AuthFailure>)
      requires db.Valid()
      modifies this, db
      ensures db.Valid() && user == old(user) && loading == old(loading)
      ensures var result := if Present(email) && Present(password) && Present(fullName) then emailResult else googleResult;
        !result.SignedIn? ==>
          && r == (if result.Rejected? then Fail(Service(result.error)) else Pass)
          && userProfile == old(userProfile) && isLocalMode == old(isLocalMode)
          && db.users == old(db.users) && db.tasks == old(db.tasks)
      ensures var result := if Present(email) && Present(password) && Present(fullName) then emailResult else googleResult;
        result.SignedIn? ==>
        var uid := result.account.uid;
        var created := ProfileData(SignUpProfile(result.account, email, fullName), now);
        var local := LocalRead(old(store.entries), faults.localRead);
        if faults.profileWrite then
          && r == Fail(ProfileStore(Unavailable))
          && userProfile == old(userProfile) && isLocalMode == old(isLocalMode)
          && db.users == old(db.users) && db.tasks == old(db.tasks)
        else
          && r == Pass && !isLocalMode
          && userProfile == Some(created)
          && db.users == WithProfile(old(db.users), uid, created)
          && (faults.commit ==> db.tasks == old(db.tasks))
          && (!faults.commit ==> db.tasks == ApplyWrites(old(db.tasks), Writes(Pending(local), uid, old(db.nextId))))
    {
      var localTasks := LoadLocalTasks(store, faults.localRead);
      var result := if Present(email) && Present(password) && Present(fullName) then emailResult else googleResult;
      if result.Rejected? {
        return Fail(Service(result.error));
      }
      if result.NoUser? {
        return Pass;
      }
      var u := result.account;
      var newProfile := SignUpProfile(u, email, fullName);
      var written := db.CreateUserProfile(u.uid, newProfile, now, faults.profileWrite);
      if written.Err? {
        return Fail(ProfileStore(written.error));
      }
      userProfile := Some(ProfileData(newProfile, now));
      isLocalMode := false;
      MigrateLocalTasks(db, u.uid, localTasks, faults.commit);
      r := Pass;
    }

    /** `handleSignOut`: clears the session and returns to local mode before
        the service call; the call's failure is logged, never thrown. */
    method HandleSignOut()
      modifies this
      ensures user == None && userProfile == None && isLocalMode
      ensures loading == old(loading)
    {
      user := None;
      userProfile := None;
      isLocalMode := true;
    }

    /** `updateUserProfile`: nothing without a user; otherwise writes the
        merged profile, rethrows a failed write, and on success updates the
        held profile while keeping its creation time. */
    method UpdateUserProfile(db: Database, changes: ProfileChanges, now: Time, fail: bool) returns (r: Outcome<StoreError>)
      modifies this, db
      ensures db.tasks == old(db.tasks) && db.nextId == old(db.nextId)
      ensures user == old(user) && loading == old(loading) && isLocalMode == old(isLocalMode)
      ensures user.None? || fail ==> userProfile == old(userProfile) && db.users == old(db.users)
      ensures user.None? ==> r == Pass
      ensures user.Some? && fail ==> r == Fail(Unavailable)
      ensures user.Some? && !fail ==>
        var clean := UpdatedProfile(changes, old(userProfile));
        && r == Pass
        && db.users == WithProfile(old(db.users), user.value.uid, ProfileData(clean, now))
        && (old(userProfile).None? ==> userProfile == None)
        && (old(userProfile).Some? ==>
              && userProfile.Some?
              && userProfile.value.name == clean.name && userProfile.value.email == clean.email
              && userProfile.value.photoURL == (if clean.photoURL.Some? then clean.photoURL else old(userProfile).value.photoURL)
              && userProfile.value.createdAt == old(userProfile).value.createdAt)
    {
      if user.None? {
        return Pass;
      }
      var clean := UpdatedProfile(changes, userProfile);
      var written := db.CreateUserProfile(user.value.uid, clean, now, fail);
      if written.Err? {
        return Fail(written.error);
      }
      if userProfile.Some? {
        var prev := userProfile.value;
        userProfile := Some(Profile(clean.name, clean.email,
                                    if clean.photoURL.Some? then clean.photoURL else prev.photoURL, prev.createdAt));
      }
      r := Pass;
    }
  }

  /** The migration step shared by sign-in and sign-up: only for a non-empty
      list, and its failure is swallowed. */
  method MigrateLocalTasks(db: Database, uid: string, localTasks: seq<LocalTask>, commitFails: bool)
    requires db.Valid()
    modifies db
    ensures db.Valid() && db.users == old(db.users)
    ensures commitFails ==> db.tasks == old(db.tasks)
    ensures !commitFails ==> db.tasks == ApplyWrites(old(db.tasks), Writes(Pending(localTasks), uid, old(db.nextId)))
  {
    if |localTasks| > 0 {
      var _, _ := SyncLocalTasksToFirebase(db, uid, localTasks, commitFails);
    }
  }
}
