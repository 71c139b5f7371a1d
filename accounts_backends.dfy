/**
 * Signing in through the staff single sign-on proxy: the proxy's profile
 * headers name the user, who is found by SSO id or by e-mail address (or
 * created), and whose stored name, address and password are brought in
 * line with the headers.
 */
module AccountsBackends {
  import opened Wrappers
  import Collections
  import Text

  const EmailHeader := "HTTP_SSO_PROFILE_EMAIL"
  const RelatedEmailsHeader := "HTTP_SSO_PROFILE_RELATED_EMAILS"
  const UserIdHeader := "HTTP_SSO_PROFILE_USER_ID"
  const LastNameHeader := "HTTP_SSO_PROFILE_LAST_NAME"
  const FirstNameHeader := "HTTP_SSO_PROFILE_FIRST_NAME"

  /** What the headers say about the user. */
  datatype Profile = Profile(email: string, relatedEmails: seq<string>, userId: string, lastName: string,
                             firstName: string)

  /**
   * The header reads: any of the five headers missing (the KeyError) is no
   * user; the related addresses are split on ','.
   */
  function ReadProfile(meta: map<string, string>): (r: Option<Profile>)
    ensures r.Some? <==> EmailHeader in meta && RelatedEmailsHeader in meta && UserIdHeader in meta
                         && LastNameHeader in meta && FirstNameHeader in meta
    ensures r.Some? ==> r.value == Profile(meta[EmailHeader], Text.Split(meta[RelatedEmailsHeader], ','),
                                           meta[UserIdHeader], meta[LastNameHeader], meta[FirstNameHeader])
  {
    if EmailHeader in meta && RelatedEmailsHeader in meta && UserIdHeader in meta
       && LastNameHeader in meta && FirstNameHeader in meta
    then Some(Profile(meta[EmailHeader], Text.Split(meta[RelatedEmailsHeader], ','),
                      meta[UserIdHeader], meta[LastNameHeader], meta[FirstNameHeader]))
    else None
  }

  /** The stored user, with the SSO id its profile row holds. */
  datatype AuthUser = AuthUser(username: string, email: string, firstName: string, lastName: string,
                               usablePassword: bool, ssoId: Option<string>)

  predicate HasSsoId(u: AuthUser, ssoId: string)
  {
    u.ssoId == Some(ssoId)
  }

  /** The addresses a user may already be stored under: the header's, then the related ones. */
  function Addresses(p: Profile): (r: seq<string>)
    ensures p.email in r
    ensures forall e :: e in p.relatedEmails ==> e in r
  {
    [p.email] + p.relatedEmails
  }

  /**
   * The field sync as written: the username is set from the address the
   * user had before the sync, and only then is the address replaced by the
   * header's. `changed` is set by each field that had to change.
   */
  function SyncAsWritten(u: AuthUser, p: Profile): (r: (AuthUser, bool))
    ensures r.0.username == u.email && r.0.email == p.email
    ensures r.0.firstName == p.firstName && r.0.lastName == p.lastName && !r.0.usablePassword
    ensures r.0.ssoId == u.ssoId
    ensures r.1 <==> u.username != u.email || u.email != p.email || u.firstName != p.firstName
                     || u.lastName != p.lastName || u.usablePassword
  {
    var changed := u.username != u.email || u.email != p.email || u.firstName != p.firstName
                   || u.lastName != p.lastName || u.usablePassword;
    (u.(username := u.email, email := p.email, firstName := p.firstName, lastName := p.lastName,
        usablePassword := false), changed)
  }

  /**
   * A user stored under an address other than the header's is left with
   * a username that is not their address.
   */
  lemma SyncAsWrittenLeavesOldUsername()
    ensures var u := AuthUser("a@example.com", "a@example.com", "A", "B", false, Some("x"));
            var p := Profile("b@example.com", [], "x", "B", "A");
            var r := SyncAsWritten(u, p).0;
            r.username == "a@example.com" && r.email == "b@example.com" && r.username != r.email
  {
    var u := AuthUser("a@example.com", "a@example.com", "A", "B", false, Some("x"));
    var p := Profile("b@example.com", [], "x", "B", "A");
    assert u.email[0] != p.email[0];
  }

  /** As written, the username catches up with the address only at the next sign-in. */
  lemma SyncAsWrittenSettlesOnSecondSignIn(u: AuthUser, p: Profile)
    ensures var once := SyncAsWritten(u, p).0;
            var twice := SyncAsWritten(once, p).0;
            twice.username == twice.email == p.email
  {
  }

  /**
   * The intended sync: the username, the address, the names follow the
   * headers and the password is made unusable; `changed` is set exactly
   * when some field had to change.
   */
  function Sync(u: AuthUser, p: Profile): (r: (AuthUser, bool))
    ensures r.0.username == p.email && r.0.email == p.email
    ensures r.0.firstName == p.firstName && r.0.lastName == p.lastName && !r.0.usablePassword
    ensures r.0.ssoId == u.ssoId
    ensures r.1 <==> r.0 != u
  {
    var changed := u.username != p.email || u.email != p.email || u.firstName != p.firstName
                   || u.lastName != p.lastName || u.usablePassword;
    (u.(username := p.email, email := p.email, firstName := p.firstName, lastName := p.lastName,
        usablePassword := false), changed)
  }

  /** A second sign-in with the same headers changes nothing, so saves nothing. */
  lemma SyncIdempotent(u: AuthUser, p: Profile)
    ensures Sync(Sync(u, p).0, p) == (Sync(u, p).0, false)
  {
  }

  /** `User.objects.get(profile__sso_id=...)`: the one user holding the SSO id. */
  function BySsoId(users: map<nat, AuthUser>, p: Profile): Result<nat, string>
  {
    Collections.SoleKey<nat, AuthUser>(users, (u: AuthUser) => HasSsoId(u, p.userId))
  }

  /** `User.objects.get(email__in=...)`: the one user stored under one of the profile's addresses. */
  function ByAddress(users: map<nat, AuthUser>, p: Profile): Result<nat, string>
  {
    Collections.SoleKey<nat, AuthUser>(users, (u: AuthUser) => u.email in Addresses(p))
  }

  /**
   * The lookup on the users table: the result, the table afterwards and the
   * number of saves. The user with the SSO id is taken as is. Otherwise
   * get_or_create by address stores the single user with one of the
   * addresses (or a new user under the header's address at `nextPk`), and
   * the SSO id is saved on it; when a concurrent sign-in stored a user with
   * that id first, saving clashes and that user is taken instead. Several
   * users with the id, or with the addresses, are MultipleObjectsReturned.
   * The saves are get_or_create's insert when it creates, the save that
   * makes the profile, and the save of the SSO id unless it clashes.
   */
  function Lookup(users: map<nat, AuthUser>, nextPk: nat, p: Profile, concurrent: Option<(nat, AuthUser)>)
    : (Result<nat, string>, map<nat, AuthUser>, nat)
  {
    var bySso := BySsoId(users, p);
    var byEmail := ByAddress(users, p);
    if bySso.Ok? || bySso == Err("MultipleObjectsReturned") then (bySso, users, 0)
    else if byEmail == Err("MultipleObjectsReturned") then (byEmail, users, 0)
    else
      var pk := if byEmail.Ok? then byEmail.value else nextPk;
      var stored := if byEmail.Ok? then users[pk] else AuthUser(p.email, p.email, "", "", true, None);
      var created := if byEmail.Ok? then 0 else 1;
      if concurrent.Some? then (Ok(concurrent.value.0), users[pk := stored][concurrent.value.0 := concurrent.value.1], created + 1)
      else (Ok(pk), users[pk := stored.(ssoId := Some(p.userId))], created + 2)
  }

  /**
   * The lookup finds the user it returns in the table, and every other user
   * already stored is left exactly as it was: only the user returned is
   * written, besides a new user stored before a clash.
   */
  lemma LookupTouchesOnlyFound(users: map<nat, AuthUser>, nextPk: nat, p: Profile, concurrent: Option<(nat, AuthUser)>)
    requires concurrent.Some? ==> concurrent.value.0 !in users
    requires nextPk !in users
    ensures var (r, after, _) := Lookup(users, nextPk, p, concurrent);
            && (r.Ok? ==> r.value in after)
            && (r.Err? ==> after == users)
            && forall k :: k in users && r != Ok(k) ==> k in after && after[k] == users[k]
  {
  }

  /**
   * The user returned: the SSO id's owner, else the concurrent sign-in's
   * user, else the address's owner, else a new user; a user with the id
   * is found whatever the addresses say.
   */
  lemma LookupResult(users: map<nat, AuthUser>, nextPk: nat, p: Profile, concurrent: Option<(nat, AuthUser)>)
    ensures var r := Lookup(users, nextPk, p, concurrent).0;
            var bySso := BySsoId(users, p);
            var byEmail := ByAddress(users, p);
            && (bySso.Ok? ==> r == bySso)
            && (r == Err("MultipleObjectsReturned") <==>
                  bySso == Err("MultipleObjectsReturned") || (!bySso.Ok? && byEmail == Err("MultipleObjectsReturned")))
            && (r.Ok? && !bySso.Ok? ==>
                  r == Ok(if concurrent.Some? then concurrent.value.0 else if byEmail.Ok? then byEmail.value else nextPk))
  {
  }

  /**
   * The saves of the lookup: none when the SSO id settles it; otherwise
   * three for a user get_or_create inserts, two for one it finds, and one
   * fewer when the save of the SSO id clashes with a concurrent sign-in.
   */
  lemma LookupSaves(users: map<nat, AuthUser>, nextPk: nat, p: Profile, concurrent: Option<(nat, AuthUser)>)
    ensures var (r, _, saves) := Lookup(users, nextPk, p, concurrent);
            var bySso := BySsoId(users, p);
            var byEmail := ByAddress(users, p);
            && (r.Err? || bySso.Ok? ==> saves == 0)
            && (r.Ok? && !bySso.Ok? ==>
                  saves == (if byEmail.Ok? then 2 else 3) - (if concurrent.Some? then 1 else 0))
  {
  }

  /**
   * A sign-in with a complete profile: the lookup, then the found user
   * brought in line with the headers and saved once more only when some
   * field had to change.
   */
  function SignIn(users: map<nat, AuthUser>, nextPk: nat, p: Profile, concurrent: Option<(nat, AuthUser)>)
    : (Result<nat, string>, map<nat, AuthUser>, nat)
    requires concurrent.Some? ==> concurrent.value.0 !in users
    requires nextPk !in users
  {
    LookupTouchesOnlyFound(users, nextPk, p, concurrent);
    var (r, found, saves) := Lookup(users, nextPk, p, concurrent);
    if r.Err? then (r, found, saves)
    else
      var synced := Sync(found[r.value], p);
      if synced.1 then (r, found[r.value := synced.0], saves + 1) else (r, found, saves)
  }

  /** The user a sign-in returns is stored with the headers' address as username and address, their names, and no usable password. */
  lemma SignInSyncsUser(users: map<nat, AuthUser>, nextPk: nat, p: Profile, concurrent: Option<(nat, AuthUser)>)
    requires concurrent.Some? ==> concurrent.value.0 !in users
    requires nextPk !in users
    ensures var (r, after, _) := SignIn(users, nextPk, p, concurrent);
            r.Ok? ==>
              && r.value in after
              && after[r.value].username == p.email && after[r.value].email == p.email
              && after[r.value].firstName == p.firstName && after[r.value].lastName == p.lastName
              && !after[r.value].usablePassword
  {
    LookupTouchesOnlyFound(users, nextPk, p, concurrent);
  }

  /**
   * A sign-in writes no user but the one it returns (and a new user stored
   * before a clash); a failed one changes nothing and saves nothing.
   */
  lemma SignInTouchesOnlyFound(users: map<nat, AuthUser>, nextPk: nat, p: Profile, concurrent: Option<(nat, AuthUser)>)
    requires concurrent.Some? ==> concurrent.value.0 !in users
    requires nextPk !in users
    ensures var (r, after, saves) := SignIn(users, nextPk, p, concurrent);
            && (r.Err? ==> after == users && saves == 0)
            && forall k :: k in users && r != Ok(k) ==> k in after && after[k] == users[k]
  {
    LookupTouchesOnlyFound(users, nextPk, p, concurrent);
  }

  /** A user already holding the SSO id is only synced: one save exactly when a field changed. */
  lemma SignInBySsoId(users: map<nat, AuthUser>, nextPk: nat, p: Profile, concurrent: Option<(nat, AuthUser)>)
    requires concurrent.Some? ==> concurrent.value.0 !in users
    requires nextPk !in users
    requires BySsoId(users, p).Ok?
    ensures var k := BySsoId(users, p).value;
            var synced := Sync(users[k], p);
            SignIn(users, nextPk, p, concurrent) == (Ok(k), users[k := synced.0], if synced.1 then 1 else 0)
  {
    var k := BySsoId(users, p).value;
    LookupTouchesOnlyFound(users, nextPk, p, concurrent);
    if !Sync(users[k], p).1 {
      assert users[k := Sync(users[k], p).0] == users;
    }
  }

  /** The users table and the number of writes made to it. */
  class UserDirectory {
    var users: map<nat, AuthUser>
    var nextPk: nat
    var writes: nat

    constructor (users: map<nat, AuthUser>, nextPk: nat)
      ensures this.users == users && this.nextPk == nextPk && writes == 0
    {
      this.users := users;
      this.nextPk := nextPk;
      writes := 0;
    }

    /**
     * The lookup: the user with the SSO id; failing that, get_or_create by
     * any of the profile's addresses (a new user is stored under the
     * header's address), saved, then given the SSO id and saved again.
     * `concurrent` is a user a concurrent sign-in stored meanwhile with the
     * same SSO id: saving the id then fails and that user is taken instead.
     */
    method FindOrCreate(p: Profile, concurrent: Option<(nat, AuthUser)>) returns (r: Result<nat, string>)
      modifies this
      requires concurrent.Some? ==> HasSsoId(concurrent.value.1, p.userId) && concurrent.value.0 !in users
      requires forall k :: k in users ==> k < nextPk
      ensures forall k :: k in users ==> k < nextPk
      ensures r == Lookup(old(users), old(nextPk), p, concurrent).0
      ensures users == Lookup(old(users), old(nextPk), p, concurrent).1
      ensures writes == old(writes) + Lookup(old(users), old(nextPk), p, concurrent).2
    {
      var bySso := BySsoId(users, p);
      if bySso.Ok? || bySso == Err("MultipleObjectsReturned") {
        return bySso;
      }
      var byEmail := ByAddress(users, p);
      if byEmail == Err("MultipleObjectsReturned") {
        return byEmail;
      }
      var pk: nat;
      var stored: AuthUser;
      if byEmail.Ok? {
        pk := byEmail.value;
        stored := users[pk];
      } else {
        pk := nextPk;
        stored := AuthUser(p.email, p.email, "", "", true, None);
        nextPk := nextPk + 1;
        writes := writes + 1;
      }
      users := users[pk := stored];
      writes := writes + 1;
      if concurrent.Some? {
        users := users[concurrent.value.0 := concurrent.value.1];
        if concurrent.value.0 >= nextPk {
          nextPk := concurrent.value.0 + 1;
        }
        r := Ok(concurrent.value.0);
      } else {
        users := users[pk := stored.(ssoId := Some(p.userId))];
        writes := writes + 1;
        r := Ok(pk);
      }
    }

    /**
     * authenticate: no user when a header is missing; otherwise the user
     * found or created, brought in line with the headers and saved once
     * more only when some field had to change.
     */
    method Authenticate(meta: map<string, string>, concurrent: Option<(nat, AuthUser)>)
      returns (r: Result<Option<nat>, string>)
      modifies this
      requires ReadProfile(meta).Some? && concurrent.Some? ==> HasSsoId(concurrent.value.1, ReadProfile(meta).value.userId)
      requires concurrent.Some? ==> concurrent.value.0 !in users
      requires forall k :: k in users ==> k < nextPk
      ensures ReadProfile(meta).None? ==> r == Ok(None) && users == old(users) && writes == old(writes)
      ensures ReadProfile(meta).Some? ==>
                var (found, after, saves) := SignIn(old(users), old(nextPk), ReadProfile(meta).value, concurrent);
                && r == (if found.Ok? then Ok(Some(found.value)) else Err(found.error))
                && users == after && writes == old(writes) + saves
    {
      var profile := ReadProfile(meta);
      if profile.None? {
        return Ok(None);
      }
      var p := profile.value;
      LookupTouchesOnlyFound(users, nextPk, p, concurrent);
      var found := FindOrCreate(p, concurrent);
      if found.Err? {
        return Err(found.error);
      }
      var pk := found.value;
      var synced := Sync(users[pk], p);
      if synced.1 {
        users := users[pk := synced.0];
        writes := writes + 1;
      }
      r := Ok(Some(pk));
    }
  }
}
