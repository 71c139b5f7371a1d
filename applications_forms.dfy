/**
 * The forms behind the visualisation pages: the contact fields that take
 * an e-mail address, the eligibility criteria list, its bullet-list widget,
 * the access-type checkbox and the approval checkbox.
 */
module ApplicationsForms {
  import opened Wrappers
  import Collections
  import Text

  // ---------------------------------------------------------------------
  // _NiceEmailValidationModelChoiceField.clean
  // ---------------------------------------------------------------------

  /**
   * `User.objects.get(email=...)` over the users' stored addresses (user id
   * to e-mail): the one user with exactly that address. Django does not
   * make the address unique, so several users give MultipleObjectsReturned;
   * none gives DoesNotExist.
   */
  function UserWithEmail(emails: map<nat, string>, email: string): (r: Result<nat, string>)
    ensures r.Ok? ==> r.value in emails && emails[r.value] == email
                      && forall k :: k in emails && emails[k] == email ==> k == r.value
    ensures r == Err("DoesNotExist") <==> forall k :: k in emails ==> emails[k] != email
    ensures r == Err("MultipleObjectsReturned") <==>
              exists j, k :: j in emails && k in emails && j != k && emails[j] == email && emails[k] == email
    ensures r.Ok? || r == Err("DoesNotExist") || r == Err("MultipleObjectsReturned")
  {
    match Collections.SoleKey(emails, (a: string) => a == email)
    case Ok(k) => Ok(k)
    case Err(e) => if e == "Http404" then Err("DoesNotExist") else Err(e)
  }

  /** A contact field's failure: one of the field's own messages, or the exception the lookup raises. */
  datatype ContactError = FieldError(message: string) | Raised(exception: string)

  /**
   * A contact field: a non-empty value is lower-cased, checked as an
   * e-mail address (`isEmail` stands for Django's EmailValidator) and
   * looked up among the users by e-mail; an empty value is no user, the
   * fields being optional. A missing user is the field's invalid-choice
   * message, while several users with the address raise
   * MultipleObjectsReturned, which ModelChoiceField does not catch.
   */
  function CleanContact(value: string, isEmail: string -> bool, emails: map<nat, string>,
                        invalidEmail: string, invalidChoice: string): (r: Result<Option<nat>, ContactError>)
    ensures value == "" ==> r == Ok(None)
    ensures value != "" ==>
              && (!isEmail(Text.Lower(value)) ==> r == Err(FieldError(invalidEmail)))
              && (isEmail(Text.Lower(value)) && UserWithEmail(emails, Text.Lower(value)) == Err("DoesNotExist")
                  ==> r == Err(FieldError(invalidChoice)))
              && (r == Err(Raised("MultipleObjectsReturned")) <==>
                    isEmail(Text.Lower(value)) && UserWithEmail(emails, Text.Lower(value)) == Err("MultipleObjectsReturned"))
              && (r.Ok? <==> isEmail(Text.Lower(value)) && UserWithEmail(emails, Text.Lower(value)).Ok?)
              && (r.Ok? ==> r.value.Some? && r.value.value in emails && emails[r.value.value] == Text.Lower(value))
  {
    if value == "" then Ok(None)
    else if !isEmail(Text.Lower(value)) then Err(FieldError(invalidEmail))
    else
      match UserWithEmail(emails, Text.Lower(value))
      case Ok(u) => Ok(Some(u))
      case Err(e) => if e == "DoesNotExist" then Err(FieldError(invalidChoice)) else Err(Raised(e))
  }

  lemma LowerLower(s: string)
    ensures Text.Lower(Text.Lower(s)) == Text.Lower(s)
  {
    var l := Text.Lower(s);
    assert forall i :: 0 <= i < |l| ==> Text.LowerChar(l[i]) == l[i];
  }

  /** The letter case of an address never matters: the field answers as for its lower-case form. */
  lemma ContactIgnoresCase(value: string, isEmail: string -> bool, emails: map<nat, string>,
                           invalidEmail: string, invalidChoice: string)
    ensures CleanContact(value, isEmail, emails, invalidEmail, invalidChoice)
            == CleanContact(Text.Lower(value), isEmail, emails, invalidEmail, invalidChoice)
  {
    LowerLower(value);
    assert |Text.Lower(value)| == |value|;
  }

  // ---------------------------------------------------------------------
  // BulletListSplitArrayWidget.get_context
  // ---------------------------------------------------------------------

  datatype Subwidget = Subwidget(name: string, value: string, labelText: string)

  /** The label the widget gives its i-th input, counting from one. */
  function SubwidgetLabel(prefix: string, i: nat): (r: string)
    ensures Text.StartsWith(r, prefix + " #")
  {
    prefix + " #" + Text.NatToString(i + 1)
  }

  /** Two inputs of one widget never share a label. */
  lemma SubwidgetLabelsDistinct(prefix: string, i: nat, j: nat)
    requires SubwidgetLabel(prefix, i) == SubwidgetLabel(prefix, j)
    ensures i == j
  {
    var p := prefix + " #";
    var a := SubwidgetLabel(prefix, i);
    var b := SubwidgetLabel(prefix, j);
    assert a[|p|..] == Text.NatToString(i + 1);
    assert b[|p|..] == Text.NatToString(j + 1);
    Text.NatToStringInjective(i + 1, j + 1);
  }

  /** The loop over the context's subwidgets, labelling each in place. */
  method LabelSubwidgets(subwidgets: array<Subwidget>, prefix: string)
    modifies subwidgets
    ensures forall i :: 0 <= i < subwidgets.Length ==>
              subwidgets[i] == old(subwidgets[i]).(labelText := SubwidgetLabel(prefix, i))
  {
    for i := 0 to subwidgets.Length
      invariant forall k :: 0 <= k < i ==> subwidgets[k] == old(subwidgets[k]).(labelText := SubwidgetLabel(prefix, k))
      invariant forall k :: i <= k < subwidgets.Length ==> subwidgets[k] == old(subwidgets[k])
    {
      subwidgets[i] := subwidgets[i].(labelText := SubwidgetLabel(prefix, i));
    }
  }

  // ---------------------------------------------------------------------
  // DWSplitArrayField.clean
  // ---------------------------------------------------------------------

  predicate NonBlank(x: string) { x != "" }

  function Blanks(n: int): (r: seq<string>)
    ensures |r| == if n < 0 then 0 else n
    ensures forall i :: 0 <= i < |r| ==> r[i] == ""
  {
    if n <= 0 then [] else Blanks(n - 1) + [""]
  }

  /**
   * The list handed on to the split-array field's own cleaning: the
   * non-blank entries in their order, then blanks up to `size`.
   */
  method CompactEntries(value: seq<string>, size: nat) returns (r: seq<string>)
    ensures var kept := Collections.Filter(value, NonBlank);
            && |r| == (if |kept| < size then size else |kept|)
            && r[..|kept|] == kept
            && (forall i :: |kept| <= i < |r| ==> r[i] == "")
    ensures forall x :: x in r && x != "" <==> x in value && x != ""
  {
    r := Collections.Filter(value, NonBlank);
    var kept := r;
    r := r + Blanks(size - |r|);
    assert r[..|kept|] == kept;
  }

  /** Entries with no blank among them pass through, padded only when fewer than `size`. */
  lemma NoBlanksKept(value: seq<string>)
    requires forall i :: 0 <= i < |value| ==> value[i] != ""
    ensures Collections.Filter(value, NonBlank) == value
  {
    Collections.FilterAllPass(value, NonBlank);
  }

  // ---------------------------------------------------------------------
  // The access-type and approval checkboxes
  // ---------------------------------------------------------------------

  const RequiresAuthorization := "REQUIRES_AUTHORIZATION"
  const RequiresAuthentication := "REQUIRES_AUTHENTICATION"

  /** The checkbox starts ticked for an item whose access needs authorisation, and for a new item. */
  function InitialAuthorizationTicked(instanceAccessType: Option<string>): (r: bool)
    ensures r <==> instanceAccessType.None? || instanceAccessType.value == RequiresAuthorization
  {
    if instanceAccessType.Some? then instanceAccessType.value == RequiresAuthorization else true
  }

  /** clean_user_access_type: the checkbox becomes the access type. */
  function CleanUserAccessType(ticked: bool): (r: string)
    ensures r == RequiresAuthorization <==> ticked
    ensures r == RequiresAuthentication <==> !ticked
  {
    if ticked then RequiresAuthorization else RequiresAuthentication
  }

  /** Saving the form untouched keeps an item's access type, and a new item requires authorisation. */
  lemma AccessTypeRoundTrip(accessType: string)
    requires accessType == RequiresAuthorization || accessType == RequiresAuthentication
    ensures CleanUserAccessType(InitialAuthorizationTicked(Some(accessType))) == accessType
    ensures CleanUserAccessType(InitialAuthorizationTicked(None)) == RequiresAuthorization
  {
  }

  const MustConfirmReview := "You must confirm that you have reviewed this visualisation"

  /**
   * clean_approved: a visualisation not yet approved by this approval
   * must have the box ticked; an approved one may be submitted either way
   * (its hidden field starts unticked, to withdraw the approval).
   */
  function CleanApproved(instanceApproved: bool, approved: bool): (r: Result<bool, string>)
    ensures r.Err? <==> !instanceApproved && !approved
    ensures r.Err? ==> r.error == MustConfirmReview
    ensures r.Ok? ==> r.value == approved
  {
    if !instanceApproved && !approved then Err(MustConfirmReview) else Ok(approved)
  }
}
