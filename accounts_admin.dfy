/**
 * The user admin: the form that adds a user, the edit page's two tool
 * permission checkboxes with their history entries, and the list filters
 * on those permissions.
 */
module AccountsAdmin {
  import opened Wrappers
  import Collections

  const StartAllApplications := "start_all_applications"
  const AccessAppstream := "access_appstream"
  const StartAllApplicationsField := "can_start_all_applications"
  const AccessAppstreamField := "can_access_appstream"

  /** The user being added or edited. */
  datatype AdminUser = AdminUser(username: string, email: string, firstName: string, lastName: string,
                                 usablePassword: bool, perms: set<string>)

  /** The users table as the admin's forms write it. */
  class UserTable {
    var saved: seq<AdminUser>

    constructor ()
      ensures saved == []
    {
      saved := [];
    }

    /**
     * AppUserCreationForm.save: the username is the address and the
     * password is unusable; the user is written only when `commit` is set.
     */
    method CreateUser(email: string, firstName: string, lastName: string, commit: bool) returns (u: AdminUser)
      modifies this
      ensures u == AdminUser(email, email, firstName, lastName, false, {})
      ensures saved == old(saved) + (if commit then [u] else [])
    {
      u := AdminUser("", email, firstName, lastName, true, {});
      u := u.(username := u.email);
      u := u.(usablePassword := false);
      if commit {
        saved := saved + [u];
      }
    }
  }

  function AddedMessage(field: string): string
  {
    "Added " + field + " permission"
  }

  function RemovedMessage(field: string): string
  {
    "Removed " + field + " permission"
  }

  /**
   * One permission checkbox as written: a ticked box adds a permission the
   * user lacks; otherwise a permission the user holds is removed, whether
   * the box is ticked or not. A field missing from the cleaned data leaves
   * the permission alone. The result is the permissions and the history
   * messages written.
   */
  function ToggleAsWritten(perms: set<string>, perm: string, field: string, cleaned: map<string, bool>)
    : (r: (set<string>, seq<string>))
    ensures field !in cleaned ==> r == (perms, [])
    ensures field in cleaned && cleaned[field] && perm !in perms ==> r == (perms + {perm}, [AddedMessage(field)])
    ensures field in cleaned && perm in perms ==> r == (perms - {perm}, [RemovedMessage(field)])
  {
    if field !in cleaned then (perms, [])
    else if cleaned[field] && perm !in perms then (perms + {perm}, [AddedMessage(field)])
    else if perm in perms then (perms - {perm}, [RemovedMessage(field)])
    else (perms, [])
  }

  /**
   * Saving the edit page untouched for a user who holds the permission
   * (the box starts ticked) takes the permission away.
   */
  lemma ToggleAsWrittenRemovesTicked(perms: set<string>, perm: string, field: string, cleaned: map<string, bool>)
    requires perm in perms && field in cleaned && cleaned[field]
    ensures perm !in ToggleAsWritten(perms, perm, field, cleaned).0
  {
  }

  /**
   * One permission checkbox as intended: afterwards the user holds the
   * permission exactly when the box is ticked, and a history message is
   * written exactly when that changed something.
   */
  function Toggle(perms: set<string>, perm: string, field: string, cleaned: map<string, bool>)
    : (r: (set<string>, seq<string>))
    ensures field !in cleaned ==> r == (perms, [])
    ensures field in cleaned ==> (perm in r.0 <==> cleaned[field])
    ensures r.0 - {perm} == perms - {perm}
    ensures r.1 == [] <==> r.0 == perms
    ensures r.1 != [] ==> r.1 == [if perm in r.0 then AddedMessage(field) else RemovedMessage(field)]
  {
    if field !in cleaned then (perms, [])
    else if cleaned[field] && perm !in perms then (perms + {perm}, [AddedMessage(field)])
    else if !cleaned[field] && perm in perms then (perms - {perm}, [RemovedMessage(field)])
    else (perms, [])
  }

  /** Saving the page again with the same boxes changes nothing and logs nothing. */
  lemma ToggleIdempotent(perms: set<string>, perm: string, field: string, cleaned: map<string, bool>)
    ensures var once := Toggle(perms, perm, field, cleaned).0;
            Toggle(once, perm, field, cleaned) == (once, [])
  {
  }

  /** The two agree except on a ticked box for a held permission. */
  lemma ToggleAgreesElsewhere(perms: set<string>, perm: string, field: string, cleaned: map<string, bool>)
    requires !(field in cleaned && cleaned[field] && perm in perms)
    ensures ToggleAsWritten(perms, perm, field, cleaned) == Toggle(perms, perm, field, cleaned)
  {
  }

  /** A history entry on the user's change page. */
  datatype Change = Change(userId: nat, objectId: nat, message: string)

  /** The edited user and the admin history. */
  class UserChange {
    var user: AdminUser
    var history: seq<Change>

    constructor (user: AdminUser)
      ensures this.user == user && history == []
    {
      this.user := user;
      history := [];
    }

    /**
     * AppUserAdmin.save_model: the username becomes the cleaned address,
     * then each of the two checkboxes present in the cleaned data is
     * applied in turn, each logging its own change.
     */
    method SaveModel(editorId: nat, objectId: nat, cleanedEmail: string, cleaned: map<string, bool>)
      modifies this
      ensures var first := Toggle(old(user).perms, StartAllApplications, StartAllApplicationsField, cleaned);
              var second := Toggle(first.0, AccessAppstream, AccessAppstreamField, cleaned);
              && user == old(user).(username := cleanedEmail, perms := second.0)
              && history == old(history) + Changes(editorId, objectId, first.1 + second.1)
    {
      user := user.(username := cleanedEmail);
      var first := Toggle(user.perms, StartAllApplications, StartAllApplicationsField, cleaned);
      user := user.(perms := first.0);
      history := history + Changes(editorId, objectId, first.1);
      var second := Toggle(user.perms, AccessAppstream, AccessAppstreamField, cleaned);
      user := user.(perms := second.0);
      history := history + Changes(editorId, objectId, second.1);
      ChangesAppend(editorId, objectId, first.1, second.1);
    }
  }

  function Changes(editorId: nat, objectId: nat, messages: seq<string>): (r: seq<Change>)
    ensures |r| == |messages|
    ensures forall i :: 0 <= i < |r| ==> r[i] == Change(editorId, objectId, messages[i])
  {
    if messages == [] then [] else [Change(editorId, objectId, messages[0])] + Changes(editorId, objectId, messages[1..])
  }

  lemma ChangesAppend(editorId: nat, objectId: nat, a: seq<string>, b: seq<string>)
    ensures Changes(editorId, objectId, a + b) == Changes(editorId, objectId, a) + Changes(editorId, objectId, b)
  {
    assert forall i :: 0 <= i < |a + b| ==> Changes(editorId, objectId, a + b)[i] == (Changes(editorId, objectId, a) + Changes(editorId, objectId, b))[i];
  }

  /** Each box governs its own permission: after the save the user holds each exactly when its box is ticked. */
  lemma SaveModelFollowsBoxes(perms: set<string>, cleaned: map<string, bool>)
    requires StartAllApplicationsField in cleaned && AccessAppstreamField in cleaned
    ensures var first := Toggle(perms, StartAllApplications, StartAllApplicationsField, cleaned);
            var second := Toggle(first.0, AccessAppstream, AccessAppstreamField, cleaned);
            && (StartAllApplications in second.0 <==> cleaned[StartAllApplicationsField])
            && (AccessAppstream in second.0 <==> cleaned[AccessAppstreamField])
  {
    var first := Toggle(perms, StartAllApplications, StartAllApplicationsField, cleaned);
    var second := Toggle(first.0, AccessAppstream, AccessAppstreamField, cleaned);
    assert StartAllApplications != AccessAppstream;
    assert StartAllApplications in second.0 <==> StartAllApplications in first.0 by {
      assert second.0 - {AccessAppstream} == first.0 - {AccessAppstream};
    }
  }

  /**
   * LocalToolsFilter and AppStreamFilter: 'yes' keeps the holders of the
   * permission, 'no' the others, any other value keeps everyone.
   */
  function PermissionFilter(users: seq<AdminUser>, perm: string, value: Option<string>): (r: seq<AdminUser>)
    ensures value == Some("yes") ==> forall u :: u in r <==> u in users && perm in u.perms
    ensures value == Some("no") ==> forall u :: u in r <==> u in users && perm !in u.perms
    ensures value != Some("yes") && value != Some("no") ==> r == users
  {
    if value == Some("yes") then Collections.Filter(users, (u: AdminUser) => perm in u.perms)
    else if value == Some("no") then Collections.Filter(users, (u: AdminUser) => perm !in u.perms)
    else users
  }

  /** Every user is listed under exactly one of 'yes' and 'no'. */
  lemma FilterYesNoPartition(users: seq<AdminUser>, perm: string)
    ensures |PermissionFilter(users, perm, Some("yes"))| + |PermissionFilter(users, perm, Some("no"))| == |users|
  {
    Collections.FilterPartition(users, (u: AdminUser) => perm in u.perms, (u: AdminUser) => perm !in u.perms);
  }
}
