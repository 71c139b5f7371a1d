/**
 * The tools page and its stop form, and the decisions the visualisation
 * pages take from GitLab's answers: which commit is in production, which
 * release actions are offered, the order and choice of branches, developer
 * access, and the per-user view permission rows.
 *
 * GitLab's replies, the spawner's image tags and Django's email validator
 * are parameters.
 */
module ApplicationsViews {
  import opened Wrappers
  import opened Text
  import Digest
  import opened AppModels
  import ApplicationsRouter
  import ApplicationsRegistry
  import ApplicationsForms

  // ---------------------------------------------------------------------
  // The tools page

  /** The first DNS label of a tool link: host_exact, '-', the user's short SSO hash. */
  function ToolHost(hostExact: string, sha: Digest.Sha256, ssoId: string): string
  {
    hostExact + "-" + Digest.Short(sha, ssoId)
  }

  /** tools_html_GET's link(): `scheme://<tool host>.<root domain>/`. */
  function ToolLink(scheme: string, hostExact: string, sha: Digest.Sha256, ssoId: string, rootDomain: string): (r: string)
    ensures StartsWith(r, scheme + "://" + hostExact + "-") && EndsWith(r, "." + rootDomain + "/")
  {
    scheme + "://" + ToolHost(hostExact, sha, ssoId) + "." + rootDomain + "/"
  }

  /**
   * A tool whose pattern is `<host_exact>-<user>` reads the link's host back
   * as the user's own short hash, so the owner is admitted exactly when they
   * may start applications, and any user with another hash is refused.
   */
  lemma ToolLinkAdmitsOnlyOwner(
    templates: seq<ApplicationsRouter.Template>, t: ApplicationsRouter.Template, d: map<string, string>,
    native: ApplicationsRouter.NativeMatcher, sha: Digest.Sha256, ssoId: string, visitor: string,
    canStartAll: bool, permitted: set<nat>)
    requires t.applicationType == ApplicationsRouter.Tool
    requires t.hostPattern == t.hostExact + "-" + "<user>"
    requires '<' !in t.hostExact && '?' !in t.hostExact
    requires ApplicationsRouter.ResolveHost(templates, ToolHost(t.hostExact, sha, ssoId), native) == Ok((t, d))
    ensures d == map["user" := sha(ssoId)[..8]]
    ensures ApplicationsRouter.ApiIsAllowed(templates, ToolHost(t.hostExact, sha, ssoId), native, sha, visitor,
                                            canStartAll, permitted)
      == Ok(sha(visitor)[..8] == sha(ssoId)[..8] && canStartAll)
  {
    var host := ToolHost(t.hostExact, sha, ssoId);
    var short := Digest.Short(sha, ssoId);
    ApplicationsRouter.ResolveHostSpec(templates, host, native);
    assert '\n' !in short by {
      forall i | 0 <= i < |short| ensures short[i] != '\n' {
        assert Digest.IsHexDigit(short[i]);
      }
    }
    assert host == (t.hostExact + "-") + short;
    assert t.hostPattern == (t.hostExact + "-") + "<user>";
    ApplicationsRouter.UserPlaceholderCaptures(t, t.hostExact + "-", short, native);
  }

  /** One row of the tools listing. */
  datatype ToolEntry = ToolEntry(name: string, niceName: string, link: string, instance: Option<string>)

  /**
   * The user's live instance for a template, from the rows (template id,
   * instance id) of `filter(owner=user, state__in=[RUNNING, SPAWNING])`; the
   * dict comprehension keeps the last row of each template.
   */
  function ActiveInstanceFor(active: seq<(nat, string)>, templateId: nat): (r: Option<string>)
    ensures r.None? <==> forall i :: 0 <= i < |active| ==> active[i].0 != templateId
  {
    if active == [] then None
    else if active[|active| - 1].0 == templateId then Some(active[|active| - 1].1)
    else
      var r := ActiveInstanceFor(active[..|active| - 1], templateId);
      assert forall i :: 0 <= i < |active| - 1 ==> active[..|active| - 1][i] == active[i];
      r
  }

  /** The instance shown is that of the template's last live row. */
  lemma {:induction false} ActiveInstanceIsLast(active: seq<(nat, string)>, templateId: nat)
    requires ActiveInstanceFor(active, templateId).Some?
    ensures var x := ActiveInstanceFor(active, templateId).value;
      exists i :: 0 <= i < |active| && active[i] == (templateId, x)
                  && forall j :: i < j < |active| ==> active[j].0 != templateId
  {
    var x := ActiveInstanceFor(active, templateId).value;
    var n := |active| - 1;
    if active[n].0 == templateId {
      assert active[n] == (templateId, x);
    } else {
      var init := active[..n];
      ActiveInstanceIsLast(init, templateId);
      var i :| 0 <= i < |init| && init[i] == (templateId, x) && forall j :: i < j < |init| ==> init[j].0 != templateId;
      assert active[i] == init[i];
      forall j | i < j < |active|
        ensures active[j].0 != templateId
      {
        if j < n {
          assert active[j] == init[j];
        }
      }
    }
  }

  function EntryFor(t: ApplicationsRouter.Template, scheme: string, rootDomain: string, sha: Digest.Sha256,
                    ssoId: string, active: seq<(nat, string)>): ToolEntry
  {
    ToolEntry(t.name, t.niceName, ToolLink(scheme, t.hostExact, sha, ssoId, rootDomain), ActiveInstanceFor(active, t.id))
  }

  /** The templates the listing keeps, in the query's order. */
  function VisibleTemplates(ordered: seq<ApplicationsRouter.Template>): (r: seq<ApplicationsRouter.Template>)
    ensures forall t :: t in r <==> t in ordered && t.visible
    ensures |r| <= |ordered|
  {
    if ordered == [] then []
    else
      var last := ordered[|ordered| - 1];
      var r := VisibleTemplates(ordered[..|ordered| - 1]) + (if last.visible then [last] else []);
      assert ordered == ordered[..|ordered| - 1] + [last];
      r
  }

  /** The listing: a row for each visible template of `ordered` (the query's order), with its link and live instance. */
  function ToolsListing(ordered: seq<ApplicationsRouter.Template>, scheme: string, rootDomain: string,
                        sha: Digest.Sha256, ssoId: string, active: seq<(nat, string)>): (r: seq<ToolEntry>)
    ensures |r| <= |ordered|
  {
    var vis := VisibleTemplates(ordered);
    seq(|vis|, i requires 0 <= i < |vis| => EntryFor(vis[i], scheme, rootDomain, sha, ssoId, active))
  }

  /** Every row comes from a visible template, and every visible template has its row. */
  lemma ToolsListingExactlyVisible(ordered: seq<ApplicationsRouter.Template>, scheme: string,
                                   rootDomain: string, sha: Digest.Sha256, ssoId: string,
                                   active: seq<(nat, string)>, t: ApplicationsRouter.Template)
    ensures t in ordered && t.visible ==> EntryFor(t, scheme, rootDomain, sha, ssoId, active)
                                          in ToolsListing(ordered, scheme, rootDomain, sha, ssoId, active)
    ensures forall e :: e in ToolsListing(ordered, scheme, rootDomain, sha, ssoId, active) ==>
              exists u :: u in ordered && u.visible && e == EntryFor(u, scheme, rootDomain, sha, ssoId, active)
  {
    var vis := VisibleTemplates(ordered);
    var r := ToolsListing(ordered, scheme, rootDomain, sha, ssoId, active);
    if t in ordered && t.visible {
      var k :| 0 <= k < |vis| && vis[k] == t;
      assert r[k] == EntryFor(t, scheme, rootDomain, sha, ssoId, active);
    }
    forall e | e in r
      ensures exists u :: u in ordered && u.visible && e == EntryFor(u, scheme, rootDomain, sha, ssoId, active)
    {
      var k :| 0 <= k < |r| && r[k] == e;
      assert vis[k] in vis;
    }
  }

  /** Names never decrease along the sequence (the query's `order_by('name')`). */
  predicate SortedByName(ts: seq<ApplicationsRouter.Template>)
  {
    forall i, j :: 0 <= i < j < |ts| ==> !StrLt(ts[j].name, ts[i].name)
  }

  /** Filtering keeps the order: templates listed by name leave visible templates listed by name. */
  lemma {:induction false} VisibleTemplatesSorted(ordered: seq<ApplicationsRouter.Template>)
    requires SortedByName(ordered)
    ensures SortedByName(VisibleTemplates(ordered))
  {
    if ordered != [] {
      var init := ordered[..|ordered| - 1];
      var last := ordered[|ordered| - 1];
      VisibleTemplatesSorted(init);
      var before := VisibleTemplates(init);
      var r := VisibleTemplates(ordered);
      if last.visible {
        assert r == before + [last];
        forall i | 0 <= i < |before|
          ensures !StrLt(last.name, before[i].name)
        {
          assert before[i] in before;
          var k :| 0 <= k < |init| && init[k] == before[i];
          assert ordered[k] == before[i];
        }
      }
    }
  }

  /** The rows appear in name order, one per visible template, named after it. */
  lemma ToolsListingSorted(ordered: seq<ApplicationsRouter.Template>, scheme: string, rootDomain: string,
                           sha: Digest.Sha256, ssoId: string, active: seq<(nat, string)>)
    requires SortedByName(ordered)
    ensures var r := ToolsListing(ordered, scheme, rootDomain, sha, ssoId, active);
      forall i, j :: 0 <= i < j < |r| ==> !StrLt(r[j].name, r[i].name)
  {
    VisibleTemplatesSorted(ordered);
  }

  /** tools.html for users who may start applications or use AppStream, tools-unauthorised.html otherwise. */
  function ToolsTemplateName(canStartAll: bool, canAppstream: bool): (r: string)
    ensures r == "tools.html" <==> canStartAll || canAppstream
  {
    if canStartAll || canAppstream then "tools.html" else "tools-unauthorised.html"
  }

  // ---------------------------------------------------------------------
  // The stop form

  /** A request.POST key that is missing, or a redirect target outside the allowed two. */
  datatype PostError = KeyError(key: string) | BrokerDown

  datatype PostOutcome = PostOutcome(message: string, redirectTo: string)

  predicate AllowedRedirect(target: string)
  {
    target == "root" || target == "applications:tools"
  }

  /** The user's live instances at the host. */
  function OwnedLiveAt(m: map<string, ApplicationsRegistry.Instance>, owner: nat, host: string): set<string>
  {
    set a | a in m && m[a].owner == owner && m[a].publicHost == host && ApplicationsRegistry.Active(m[a])
  }

  /** With the token constraint the user has at most one live instance at a host. */
  lemma OwnedLiveAtMostOne(m: map<string, ApplicationsRegistry.Instance>, owner: nat, host: string, a: string)
    requires ApplicationsRegistry.Consistent(m) && a in OwnedLiveAt(m, owner, host)
    ensures OwnedLiveAt(m, owner, host) == {a}
  {
    forall b | b in OwnedLiveAt(m, owner, host)
      ensures b == a
    {
      ApplicationsRegistry.OneLiveInstancePerHost(m, a, b);
    }
  }

  /**
   * tools_html_POST: read public_host, then map redirect_target through the
   * two-entry dict (anything else raises KeyError), then stop the user's live
   * instance at that host if there is one. 'Stopped' is reported either way.
   */
  method ToolsPost(reg: ApplicationsRegistry.InstanceRegistry, owner: nat, publicHost: Option<string>,
                   redirectTarget: Option<string>, niceName: nat -> string, brokerUp: bool)
    returns (r: Result<PostOutcome, PostError>)
    requires reg.Valid()
    modifies reg
    ensures reg.Valid()
    ensures publicHost.None? ==> r == Err(KeyError("public_host"))
    ensures publicHost.Some? && redirectTarget.None? ==> r == Err(KeyError("redirect_target"))
    ensures publicHost.Some? && redirectTarget.Some? && !AllowedRedirect(redirectTarget.value)
      ==> r == Err(KeyError(redirectTarget.value))
    ensures r.Err? && r.error.KeyError? ==> reg.instances == old(reg.instances) && reg.stopQueue == old(reg.stopQueue)
    ensures publicHost.Some? && redirectTarget.Some? && AllowedRedirect(redirectTarget.value) ==>
      var live := OwnedLiveAt(old(reg.instances), owner, publicHost.value);
      (live == {} ==> r == Ok(PostOutcome("Stopped", redirectTarget.value))
                      && reg.instances == old(reg.instances) && reg.stopQueue == old(reg.stopQueue))
      && (forall a :: a in live ==>
            live == {a}
            && (brokerUp ==> r == Ok(PostOutcome("Stopped " + niceName(old(reg.instances)[a].templateId), redirectTarget.value))
                             && reg.instances == ApplicationsRegistry.StoppedAt(old(reg.instances), a)
                             && reg.stopQueue == old(reg.stopQueue) + [(old(reg.instances)[a].spawner, a)])
            && (!brokerUp ==> r == Err(BrokerDown)
                              && reg.instances == old(reg.instances) && reg.stopQueue == old(reg.stopQueue)))
  {
    if publicHost.None? {
      return Err(KeyError("public_host"));
    }
    if redirectTarget.None? {
      return Err(KeyError("redirect_target"));
    }
    if !AllowedRedirect(redirectTarget.value) {
      return Err(KeyError(redirectTarget.value));
    }
    var live := OwnedLiveAt(reg.instances, owner, publicHost.value);
    if live == {} {
      return Ok(PostOutcome("Stopped", redirectTarget.value));
    }
    var a :| a in live;
    OwnedLiveAtMostOne(reg.instances, owner, publicHost.value, a);
    var name := niceName(reg.instances[a].templateId);
    var ok := reg.StopSpawnerAndApplication(a, brokerUp);
    if !ok {
      return Err(BrokerDown);
    }
    r := Ok(PostOutcome("Stopped " + name, redirectTarget.value));
  }

  // ---------------------------------------------------------------------
  // Which commit is in production

  /** A "--" starts at position k. */
  predicate DashAt(s: string, k: int)
  {
    0 <= k && k + 2 <= |s| && s[k] == '-' && s[k + 1] == '-'
  }

  /** Where `rpartition('--')` splits: the start of the last "--", if any. */
  function LastDoubleDash(s: string): (r: Option<nat>)
    ensures r.Some? ==> DashAt(s, r.value) && forall k :: r.value < k ==> !DashAt(s, k)
    ensures r.None? ==> forall k :: !DashAt(s, k)
    decreases |s|
  {
    if |s| < 2 then None
    else if DashAt(s, |s| - 2) then Some(|s| - 2)
    else
      var r := LastDoubleDash(s[..|s| - 1]);
      assert forall k :: DashAt(s, k) && k != |s| - 2 ==> DashAt(s[..|s| - 1], k);
      r
  }

  /** The commit a tag names: the text after the last "--", when the text before it is non-empty. */
  function CommitOfTag(tag: string): (r: Option<string>)
    ensures r.Some? ==> |r.value| + 2 < |tag| && tag[|tag| - |r.value| - 2..] == "--" + r.value
    ensures (forall k :: !DashAt(tag, k)) ==> r.None?
  {
    match LastDoubleDash(tag)
    case None => None
    case Some(k) => if k == 0 then None else Some(tag[k + 2..])
  }

  /** The first tag that names a commit decides; no such tag means no production commit. */
  function FirstCommit(tags: seq<string>): (r: Option<string>)
    ensures r.None? <==> forall i :: 0 <= i < |tags| ==> CommitOfTag(tags[i]).None?
    ensures r.Some? ==>
              exists i :: 0 <= i < |tags| && CommitOfTag(tags[i]) == r
                          && forall j :: 0 <= j < i ==> CommitOfTag(tags[j]).None?
  {
    if tags == [] then None
    else if CommitOfTag(tags[0]).Some? then CommitOfTag(tags[0])
    else
      var r := FirstCommit(tags[1..]);
      assert forall i :: 1 <= i < |tags| ==> tags[1..][i - 1] == tags[i];
      r
  }

  /** The loop over tags_for_tag's answer, stopping at the first tag with a commit. */
  method ProductionCommitId(tags: seq<string>) returns (commit: Option<string>)
    ensures commit == FirstCommit(tags)
  {
    commit := None;
    var i := 0;
    while i < |tags|
      invariant i <= |tags|
      invariant FirstCommit(tags) == FirstCommit(tags[i..])
      invariant commit.None?
    {
      assert tags[i..][1..] == tags[i + 1..];
      var c := CommitOfTag(tags[i]);
      if c.Some? {
        commit := c;
        return;
      }
      i := i + 1;
    }
  }

  /** `viz--abc1234` is commit abc1234 and `viz` names none. */
  lemma CommitOfTagExamples()
    ensures CommitOfTag("viz--abc1234") == Some("abc1234")
    ensures CommitOfTag("viz") == None
  {
    assert DashAt("viz--abc1234", 3);
    assert !DashAt("viz", 0) && !DashAt("viz", 1);
  }

  /** Text before the last "--" must be non-empty: `--abc` names no commit. */
  lemma LeadingDashesNameNoCommit()
    ensures CommitOfTag("--abc") == None
  {
    assert DashAt("--abc", 0);
  }

  // ---------------------------------------------------------------------
  // Release flags

  datatype ReleaseFlags = ReleaseFlags(mustPreview: bool, canRelease: bool, isReleased: bool)

  /**
   * The three flags of visualisation_branch_html_GET for the branch's latest
   * commit, given whether an image is tagged with it and the production commit.
   */
  function ReleaseFlagsFor(isDefaultBranch: bool, latestTagExists: bool, shortId: string,
                           production: Option<string>): ReleaseFlags
  {
    ReleaseFlags(
      isDefaultBranch && !latestTagExists && Some(shortId) != production,
      isDefaultBranch && latestTagExists && Some(shortId) != production,
      Some(shortId) == production)
  }

  /** At most one flag holds; on the default branch exactly one does. */
  lemma ReleaseFlagsExclusive(isDefaultBranch: bool, latestTagExists: bool, shortId: string, production: Option<string>)
    ensures var f := ReleaseFlagsFor(isDefaultBranch, latestTagExists, shortId, production);
      !(f.mustPreview && f.canRelease) && !(f.mustPreview && f.isReleased) && !(f.canRelease && f.isReleased)
      && (isDefaultBranch ==> f.mustPreview || f.canRelease || f.isReleased)
      && (f.isReleased <==> production == Some(shortId))
  {
  }

  // ---------------------------------------------------------------------
  // Branches

  datatype Branch = Branch(name: string, committedDate: string, shortId: string)

  /** branch_sort_key compared as tuples: (is the default branch, committed date, name). */
  predicate KeyLt(a: Branch, b: Branch, defaultBranch: string)
  {
    var da := a.name == defaultBranch;
    var db := b.name == defaultBranch;
    (!da && db)
    || (da == db && (StrLt(a.committedDate, b.committedDate)
                     || (a.committedDate == b.committedDate && StrLt(a.name, b.name))))
  }

  lemma KeyLtAsymmetric(a: Branch, b: Branch, defaultBranch: string)
    ensures !(KeyLt(a, b, defaultBranch) && KeyLt(b, a, defaultBranch))
  {
    StrLtAsymmetric(a.committedDate, b.committedDate);
    StrLtAsymmetric(a.name, b.name);
  }

  /** Each branch's key is at least the next one's. */
  ghost predicate Descending(bs: seq<Branch>, defaultBranch: string)
  {
    forall i, j :: 0 <= i && j == i + 1 && j < |bs| ==> !KeyLt(bs[i], bs[j], defaultBranch)
  }

  /** Put b before the first branch whose key is not greater than b's. */
  function InsertBranch(b: Branch, bs: seq<Branch>, defaultBranch: string): (r: seq<Branch>)
    ensures multiset(r) == multiset(bs) + multiset{b}
    ensures |r| == |bs| + 1
    ensures r[0] == b || (bs != [] && r[0] == bs[0])
  {
    if bs == [] || !KeyLt(b, bs[0], defaultBranch) then [b] + bs
    else
      assert bs == [bs[0]] + bs[1..];
      [bs[0]] + InsertBranch(b, bs[1..], defaultBranch)
  }

  /** Inserting into a descending list keeps it descending. */
  lemma {:induction false} InsertBranchDescending(b: Branch, bs: seq<Branch>, defaultBranch: string)
    requires Descending(bs, defaultBranch)
    ensures Descending(InsertBranch(b, bs, defaultBranch), defaultBranch)
  {
    if bs != [] && KeyLt(b, bs[0], defaultBranch) {
      var rest := InsertBranch(b, bs[1..], defaultBranch);
      InsertBranchDescending(b, bs[1..], defaultBranch);
      KeyLtAsymmetric(b, bs[0], defaultBranch);
      assert !KeyLt(bs[0], rest[0], defaultBranch);
      var r := [bs[0]] + rest;
      assert r == InsertBranch(b, bs, defaultBranch);
      forall i, j | 0 <= i && j == i + 1 && j < |r| ensures !KeyLt(r[i], r[j], defaultBranch) {
        if i > 0 { assert r[i] == rest[i - 1] && r[j] == rest[j - 1]; }
      }
    }
  }

  /** sorted(branches, key=branch_sort_key, reverse=True): a permutation in descending key order. */
  function SortBranches(bs: seq<Branch>, defaultBranch: string): (r: seq<Branch>)
    ensures multiset(r) == multiset(bs) && |r| == |bs|
    ensures Descending(r, defaultBranch)
  {
    if bs == [] then []
    else
      assert bs == [bs[0]] + bs[1..];
      var sorted := SortBranches(bs[1..], defaultBranch);
      InsertBranchDescending(bs[0], sorted, defaultBranch);
      InsertBranch(bs[0], sorted, defaultBranch)
  }

  /** When the default branch is among them, it is listed first. */
  lemma {:induction false} DefaultBranchFirst(bs: seq<Branch>, defaultBranch: string)
    requires exists b :: b in bs && b.name == defaultBranch
    ensures SortBranches(bs, defaultBranch)[0].name == defaultBranch
  {
    var s := SortBranches(bs[1..], defaultBranch);
    if bs[0].name != defaultBranch {
      assert exists b :: b in bs[1..] && b.name == defaultBranch;
      DefaultBranchFirst(bs[1..], defaultBranch);
      assert s[0].name == defaultBranch;
    }
  }

  datatype BranchError = TooManyMatching | NotFound

  function NamedBranches(bs: seq<Branch>, name: string): (r: seq<Branch>)
    ensures forall b :: b in r <==> b in bs && b.name == name
    ensures |r| <= |bs|
  {
    if bs == [] then []
    else (if bs[0].name == name then [bs[0]] else []) + NamedBranches(bs[1..], name)
  }

  /** The one branch with the requested name: several raise, none is a 404. */
  function MatchBranch(bs: seq<Branch>, name: string): (r: Result<Branch, BranchError>)
    ensures r.Ok? ==> r.value in bs && r.value.name == name && NamedBranches(bs, name) == [r.value]
    ensures r == Err(NotFound) <==> forall b :: b in bs ==> b.name != name
    ensures r == Err(TooManyMatching) <==> |NamedBranches(bs, name)| > 1
  {
    var ms := NamedBranches(bs, name);
    if ms == [] then Err(NotFound)
    else
      assert ms[0] in ms;
      if |ms| > 1 then Err(TooManyMatching) else Ok(ms[0])
  }

  // ---------------------------------------------------------------------
  // Developer access

  /** gitlab.DEVELOPER_ACCESS_LEVEL, '30' read with int(). */
  const DeveloperAccessLevel: int := 30

  datatype Member = Member(id: nat, accessLevel: int)

  datatype GitLabError = UnexpectedStatus(status: int) | TooManyUsers

  /** `True in (...)` over the project members returned for the user. */
  function AnyDeveloper(members: seq<Member>, userId: nat): (r: bool)
    ensures r <==> exists m :: m in members && m.id == userId && m.accessLevel >= DeveloperAccessLevel
  {
    if members == [] then false
    else
      (members[0].id == userId && members[0].accessLevel >= DeveloperAccessLevel)
      || AnyDeveloper(members[1..], userId)
  }

  /**
   * _visualisation_has_developer_access: the /users lookup must answer 200
   * with at most one user; with none the answer is no, with one it is
   * whether that user is a member with developer level or above.
   */
  function HasDeveloperAccess(status: int, gitlabUsers: seq<nat>, membersOf: nat -> seq<Member>): (r: Result<bool, GitLabError>)
    ensures status != 200 ==> r == Err(UnexpectedStatus(status))
    ensures r == Err(TooManyUsers) <==> status == 200 && |gitlabUsers| > 1
    ensures r == Ok(true) <==> (status == 200 && |gitlabUsers| == 1
      && exists m :: m in membersOf(gitlabUsers[0]) && m.id == gitlabUsers[0] && m.accessLevel >= DeveloperAccessLevel)
    ensures status == 200 && gitlabUsers == [] ==> r == Ok(false)
  {
    if status != 200 then Err(UnexpectedStatus(status))
    else if |gitlabUsers| > 1 then Err(TooManyUsers)
    else if gitlabUsers == [] then Ok(false)
    else Ok(AnyDeveloper(membersOf(gitlabUsers[0]), gitlabUsers[0]))
  }

  // ---------------------------------------------------------------------
  // Who may view a visualisation

  /** The give-access refusals; MultipleObjectsReturned is raised, not caught, when users share the address. */
  datatype GrantError = EmptyEmail | MalformedEmail | UnknownUser | MultipleObjectsReturned | AlreadyHasAccess

  /** A LogEntry written by the handlers: acting user, changed user, message. */
  datatype LogLine = LogLine(actor: nat, objectId: nat, message: string)

  /** The address as the form's value is cleaned: stripped, then lowercased. */
  function CleanEmail(raw: string): (r: string)
    ensures forall i :: 0 <= i < |r| ==> !IsUpper(r[i])
    ensures r == [] || (!IsSpace(r[0]) && !IsSpace(r[|r| - 1]))
  {
    Lower(Strip(raw))
  }

  /**
   * The give-access POST's answer, checks in the source's order: empty,
   * malformed, then `User.objects.get(email=...)` over the users' stored
   * addresses (user id to e-mail), where no user is refused and several
   * raise, then the permission row already present.
   */
  function GiveOutcome(granted: set<(nat, nat)>, template: nat, rawEmail: string, validEmail: string -> bool,
                       emails: map<nat, string>): (r: Result<nat, GrantError>)
    ensures r == Err(EmptyEmail) <==> CleanEmail(rawEmail) == ""
    ensures r == Err(MalformedEmail) <==> CleanEmail(rawEmail) != "" && !validEmail(CleanEmail(rawEmail))
    ensures r == Err(UnknownUser) <==> (CleanEmail(rawEmail) != "" && validEmail(CleanEmail(rawEmail))
      && forall k :: k in emails ==> emails[k] != CleanEmail(rawEmail))
    ensures r == Err(MultipleObjectsReturned) <==> (CleanEmail(rawEmail) != "" && validEmail(CleanEmail(rawEmail))
      && exists j, k :: j in emails && k in emails && j != k && emails[j] == CleanEmail(rawEmail) && emails[k] == CleanEmail(rawEmail))
    ensures r.Ok? <==> (CleanEmail(rawEmail) != "" && validEmail(CleanEmail(rawEmail))
      && ApplicationsForms.UserWithEmail(emails, CleanEmail(rawEmail)).Ok?
      && (ApplicationsForms.UserWithEmail(emails, CleanEmail(rawEmail)).value, template) !in granted)
    ensures r.Ok? ==> r.value in emails && emails[r.value] == CleanEmail(rawEmail)
  {
    var email := CleanEmail(rawEmail);
    if email == "" then Err(EmptyEmail)
    else if !validEmail(email) then Err(MalformedEmail)
    else
      match ApplicationsForms.UserWithEmail(emails, email)
      case Err(e) => if e == "DoesNotExist" then Err(UnknownUser) else Err(MultipleObjectsReturned)
      case Ok(user) => if (user, template) in granted then Err(AlreadyHasAccess) else Ok(user)
  }

  /** Giving access a second time with the same address is refused as already granted. */
  lemma GiveTwiceRefused(granted: set<(nat, nat)>, template: nat, rawEmail: string, validEmail: string -> bool,
                         emails: map<nat, string>)
    requires GiveOutcome(granted, template, rawEmail, validEmail, emails).Ok?
    ensures var u := GiveOutcome(granted, template, rawEmail, validEmail, emails).value;
      GiveOutcome(granted + {(u, template)}, template, rawEmail, validEmail, emails) == Err(AlreadyHasAccess)
  {
  }

  /** ApplicationTemplateUserPermission rows and the admin log the two handlers write. */
  class VisualisationGrants {
    /** (user id, template id) rows; the unique constraint makes it a set. */
    var granted: set<(nat, nat)>
    var log: seq<LogLine>

    constructor ()
      ensures granted == {} && log == []
    {
      granted := {};
      log := [];
    }

    /**
     * visualisation_users_give_access_html_POST: on success one row and one
     * 'Added' log entry; every refusal, and the MultipleObjectsReturned that
     * users sharing the address raise, leaves both unchanged.
     */
    method GiveAccess(actor: nat, template: nat, templateName: string, rawEmail: string,
                      validEmail: string -> bool, emails: map<nat, string>) returns (r: Result<nat, GrantError>)
      modifies this
      ensures r == GiveOutcome(old(granted), template, rawEmail, validEmail, emails)
      ensures r.Ok? ==> (granted == old(granted) + {(r.value, template)}
        && log == old(log) + [LogLine(actor, r.value, "Added visualisation " + templateName + " permission")])
      ensures r.Err? ==> granted == old(granted) && log == old(log)
    {
      var email := CleanEmail(rawEmail);
      if email == "" {
        return Err(EmptyEmail);
      }
      if !validEmail(email) {
        return Err(MalformedEmail);
      }
      var found := ApplicationsForms.UserWithEmail(emails, email);
      if found.Err? {
        return if found.error == "DoesNotExist" then Err(UnknownUser) else Err(MultipleObjectsReturned);
      }
      var user := found.value;
      if (user, template) in granted {
        return Err(AlreadyHasAccess);
      }
      granted := granted + {(user, template)};
      log := log + [LogLine(actor, user, "Added visualisation " + templateName + " permission")];
      r := Ok(user);
    }

    /**
     * visualisation_users_with_access_html_POST: an unknown user id raises
     * before anything changes; a missing row is a silent success.
     */
    method RemoveAccess(actor: nat, user: nat, template: nat, templateName: string, userIds: set<nat>)
      returns (found: bool)
      modifies this
      ensures found == (user in userIds)
      ensures found ==> granted == old(granted) - {(user, template)}
      ensures found && (user, template) in old(granted) ==>
        log == old(log) + [LogLine(actor, user, "Removed visualisation " + templateName + " permission")]
      ensures !found || (user, template) !in old(granted) ==> granted == old(granted) && log == old(log)
    {
      if user !in userIds {
        return false;
      }
      found := true;
      if (user, template) in granted {
        granted := granted - {(user, template)};
        log := log + [LogLine(actor, user, "Removed visualisation " + templateName + " permission")];
      }
    }
  }
}
