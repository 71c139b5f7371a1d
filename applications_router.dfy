/**
 * Resolving a public host name to an application template, deciding whether
 * a user may reach that host, and the state the proxy API reports.
 *
 * A template's host pattern either contains `?P<` and is a regular
 * expression of its own (matched by an opaque `native` function), or uses
 * `<name>` placeholders, which become lazy named groups `(?P<name>.*?)`
 * between `^` and `$`.
 */
module ApplicationsRouter {
  import opened Wrappers
  import opened Text
  import Digest
  import AppModels

  datatype ApplicationType = Tool | Visualisation

  datatype UserAccessType = RequiresAuthentication | RequiresAuthorization

  datatype Template = Template(
    id: nat,
    name: string,
    niceName: string,
    applicationType: ApplicationType,
    hostExact: string,
    hostPattern: string,
    userAccessType: UserAccessType,
    visible: bool)

  /** One element of a placeholder pattern: a literal character or a lazy named group. */
  datatype Segment = Chr(c: char) | Group(name: string)

  datatype RouteError = DoesNotExist | TooManyMatching | PatternError

  type NativeMatcher = (string, string) -> Option<map<string, string>>

  predicate HasNamedGroupSyntax(p: string)
  {
    exists i :: 0 <= i && i + 3 <= |p| && p[i] == '?' && p[i + 1] == 'P' && p[i + 2] == '<'
  }

  /**
   * Where the lazy `<(.+?)>` that starts at p[0] == '<' closes: the first '>'
   * from index 2 on, provided no newline comes first ('.' stops at newlines).
   */
  function CloseFrom(p: string, j: nat): (r: Option<nat>)
    ensures r.Some? ==> j <= r.value < |p| && p[r.value] == '>'
    ensures r.Some? ==> forall k :: j <= k < r.value ==> p[k] != '>' && p[k] != '\n'
    decreases |p| - j
  {
    if j >= |p| then None
    else if p[j] == '>' then Some(j)
    else if p[j] == '\n' then None
    else CloseFrom(p, j + 1)
  }

  /** re.sub('<(.+?)>', '(?P<\\1>.*?)', p), read as a sequence of segments. */
  function ParsePattern(p: string): seq<Segment>
    decreases |p|
  {
    if p == [] then []
    else if p[0] == '<' && |p| >= 2 && p[1] != '\n' && CloseFrom(p, 2).Some? then
      var j := CloseFrom(p, 2).value;
      [Group(p[1..j])] + ParsePattern(p[j + 1..])
    else [Chr(p[0])] + ParsePattern(p[1..])
  }

  function Literal(s: string): (segs: seq<Segment>)
    ensures |segs| == |s|
    ensures forall i :: 0 <= i < |s| ==> segs[i] == Chr(s[i])
  {
    if s == [] then [] else [Chr(s[0])] + Literal(s[1..])
  }

  /** A pattern written as literal text followed by one placeholder. */
  lemma {:induction false} ParseLiteralThenGroup(lit: string, name: string)
    requires '<' !in lit
    requires |name| >= 1 && '>' !in name && '\n' !in name
    ensures ParsePattern(lit + "<" + name + ">") == Literal(lit) + [Group(name)]
    decreases |lit|
  {
    var p := lit + "<" + name + ">";
    if lit == [] {
      assert p == "<" + name + ">";
      CloseFromName(p, 2, |name| + 1);
      assert p[1..|name| + 1] == name;
      assert p[|name| + 2..] == [];
    } else {
      assert p[0] == lit[0];
      assert p[1..] == lit[1..] + "<" + name + ">";
      ParseLiteralThenGroup(lit[1..], name);
    }
  }

  lemma {:induction false} CloseFromName(p: string, j: nat, close: nat)
    requires j <= close < |p| && p[close] == '>'
    requires forall k :: j <= k < close ==> p[k] != '>' && p[k] != '\n'
    ensures CloseFrom(p, j) == Some(close)
    decreases close - j
  {
    if j < close {
      CloseFromName(p, j + 1, close);
    }
  }

  function GroupNames(segs: seq<Segment>): seq<string>
  {
    if segs == [] then []
    else if segs[0].Group? then [segs[0].name] + GroupNames(segs[1..])
    else GroupNames(segs[1..])
  }

  predicate IsIdentifier(n: string)
  {
    |n| >= 1 && (IsLetter(n[0]) || n[0] == '_') && forall i :: 1 <= i < |n| ==> IsWordChar(n[i])
  }

  /** re.compile accepts the group names: identifiers, none repeated. */
  predicate NamesCompile(names: seq<string>)
  {
    (forall i :: 0 <= i < |names| ==> IsIdentifier(names[i]))
    && forall i, j :: 0 <= i < j < |names| ==> names[i] != names[j]
  }

  /**
   * re.match of the compiled pattern: the captures, in order. A group tries
   * the shortest text first and never spans a newline; `$` matches at the
   * end or before one final newline.
   */
  function MatchSegs(segs: seq<Segment>, host: string): Option<seq<string>>
    decreases |segs|, 1, 0
  {
    if segs == [] then (if host == "" || host == "\n" then Some([]) else None)
    else match segs[0]
      case Chr(c) => if host != [] && host[0] == c then MatchSegs(segs[1..], host[1..]) else None
      case Group(_) => TryGroup(segs[1..], host, 0)
  }

  function TryGroup(rest: seq<Segment>, host: string, k: nat): Option<seq<string>>
    requires k <= |host|
    decreases |rest|, 2, |host| - k
  {
    if k > 0 && host[k - 1] == '\n' then None
    else match MatchSegs(rest, host[k..])
      case Some(caps) => Some([host[..k]] + caps)
      case None => if k < |host| then TryGroup(rest, host, k + 1) else None
  }

  /** The text a pattern spells with the given captures in its groups. */
  function Render(segs: seq<Segment>, caps: seq<string>): string
  {
    if segs == [] then ""
    else match segs[0]
      case Chr(c) => [c] + Render(segs[1..], caps)
      case Group(_) => (if caps == [] then "" else caps[0]) + Render(segs[1..], if caps == [] then [] else caps[1..])
  }

  /** What a match captures spells the host back (up to the newline `$` lets through). */
  lemma {:induction false} MatchSound(segs: seq<Segment>, host: string)
    requires MatchSegs(segs, host).Some?
    ensures var caps := MatchSegs(segs, host).value;
      host == Render(segs, caps) || host == Render(segs, caps) + "\n"
    decreases |segs|, 1, 0
  {
    if segs != [] {
      match segs[0]
      case Chr(c) =>
        MatchSound(segs[1..], host[1..]);
      case Group(_) =>
        TryGroupSound(segs[1..], host, 0);
    }
  }

  lemma {:induction false} TryGroupSound(rest: seq<Segment>, host: string, k: nat)
    requires k <= |host| && TryGroup(rest, host, k).Some?
    ensures var caps := TryGroup(rest, host, k).value;
      |caps| >= 1 && (host == caps[0] + Render(rest, caps[1..]) || host == caps[0] + Render(rest, caps[1..]) + "\n")
    decreases |rest|, 2, |host| - k
  {
    if MatchSegs(rest, host[k..]).Some? {
      MatchSound(rest, host[k..]);
      assert host == host[..k] + host[k..];
    } else {
      TryGroupSound(rest, host, k + 1);
    }
  }

  /** A lazy group takes the shortest capture after which the rest of the pattern matches. */
  lemma {:induction false} TryGroupShortest(rest: seq<Segment>, host: string, k: nat)
    requires k <= |host| && TryGroup(rest, host, k).Some?
    ensures var caps := TryGroup(rest, host, k).value;
      |caps| >= 1 && k <= |caps[0]| <= |host| && caps[0] == host[..|caps[0]|]
      && forall k' :: k <= k' < |caps[0]| ==> MatchSegs(rest, host[k'..]).None?
    decreases |host| - k
  {
    if MatchSegs(rest, host[k..]).None? {
      TryGroupShortest(rest, host, k + 1);
    }
  }

  /** A literal prefix followed by one placeholder captures the whole remainder. */
  lemma {:induction false} LiteralThenGroupCaptures(lit: string, name: string, x: string)
    requires '\n' !in x
    ensures MatchSegs(Literal(lit) + [Group(name)], lit + x) == Some([x])
    decreases |lit|
  {
    if lit == [] {
      assert Literal(lit) + [Group(name)] == [Group(name)];
      assert lit + x == x;
      GroupTakesRest(x, 0);
    } else {
      assert (Literal(lit) + [Group(name)])[1..] == Literal(lit[1..]) + [Group(name)];
      assert (lit + x)[1..] == lit[1..] + x;
      LiteralThenGroupCaptures(lit[1..], name, x);
    }
  }

  lemma {:induction false} GroupTakesRest(x: string, k: nat)
    requires '\n' !in x && k <= |x|
    ensures TryGroup([], x, k) == Some([x])
    decreases |x| - k
  {
    if k > 0 {
      assert x[k - 1] in x;
    }
    if k < |x| {
      assert x[k] in x;
      assert x[k..] != "" && x[k..] != "\n";
      GroupTakesRest(x, k + 1);
    } else {
      assert x[k..] == "";
      assert MatchSegs([], x[k..]) == Some([]);
      assert x[..k] == x;
      assert [x[..k]] + [] == [x];
    }
  }

  lemma {:induction false} GroupNamesLiteral(lit: string, name: string)
    ensures GroupNames(Literal(lit) + [Group(name)]) == [name]
    decreases |lit|
  {
    if lit != [] {
      assert (Literal(lit) + [Group(name)])[1..] == Literal(lit[1..]) + [Group(name)];
      GroupNamesLiteral(lit[1..], name);
    } else {
      assert Literal(lit) + [Group(name)] == [Group(name)];
    }
  }

  /**
   * A pattern `<literal><user>` matches `<literal>x` for any x without a
   * newline and yields {'user': x}; the factory pattern `testapplication-<user>`
   * on `testapplication-23b40dd9` yields user `23b40dd9`.
   */
  lemma UserPlaceholderCaptures(t: Template, lit: string, x: string, native: NativeMatcher)
    requires t.hostPattern == lit + "<user>"
    requires '<' !in lit && '?' !in lit && '\n' !in x
    ensures TemplateMatch(t, lit + x, native) == Ok(Some(map["user" := x]))
  {
    var p := t.hostPattern;
    assert p == lit + "<" + "user" + ">";
    ParseLiteralThenGroup(lit, "user");
    GroupNamesLiteral(lit, "user");
    LiteralThenGroupCaptures(lit, "user", x);
    assert GroupDict(["user"], [x]) == map["user" := x];
  }

  /** groupdict(): group names paired with their captures. */
  function GroupDict(names: seq<string>, caps: seq<string>): map<string, string>
  {
    if names == [] || caps == [] then map[]
    else GroupDict(names[1..], caps[1..])[names[0] := caps[0]]
  }

  /** The regular expression a template's host pattern stands for, applied to a host. */
  function TemplateMatch(t: Template, host: string, native: NativeMatcher): (r: Result<Option<map<string, string>>, RouteError>)
    ensures r.Err? ==> r.error == PatternError
  {
    if HasNamedGroupSyntax(t.hostPattern) then Ok(native(t.hostPattern, host))
    else
      var segs := ParsePattern(t.hostPattern);
      if !NamesCompile(GroupNames(segs)) then Err(PatternError)
      else match MatchSegs(segs, host)
        case None => Ok(None)
        case Some(caps) => Ok(Some(GroupDict(GroupNames(segs), caps)))
  }

  function FilterExactVisualisations(ts: seq<Template>, host: string): (r: seq<Template>)
    ensures forall t :: t in r <==> t in ts && t.applicationType == Visualisation && t.hostExact == host
  {
    if ts == [] then []
    else
      (if ts[0].applicationType == Visualisation && ts[0].hostExact == host then [ts[0]] else [])
      + FilterExactVisualisations(ts[1..], host)
  }

  function FilterTools(ts: seq<Template>): (r: seq<Template>)
    ensures forall t :: t in r <==> t in ts && t.applicationType == Tool
  {
    if ts == [] then []
    else (if ts[0].applicationType == Tool then [ts[0]] else []) + FilterTools(ts[1..])
  }

  /** Visualisations with host_exact equal to the host, or, when there are none, every tool. */
  function Candidates(templates: seq<Template>, host: string): seq<Template>
  {
    var vis := FilterExactVisualisations(templates, host);
    if vis != [] then vis else FilterTools(templates)
  }

  /** The list comprehension of matching (template, groupdict) pairs; a pattern error propagates. */
  function MatchAll(cands: seq<Template>, host: string, native: NativeMatcher): (r: Result<seq<(Template, map<string, string>)>, RouteError>)
    ensures r.Err? ==> r.error == PatternError
    ensures r.Ok? ==> forall i :: 0 <= i < |r.value| ==>
      (r.value[i].0 in cands && TemplateMatch(r.value[i].0, host, native) == Ok(Some(r.value[i].1)))
  {
    if cands == [] then Ok([])
    else match TemplateMatch(cands[0], host, native)
      case Err(e) => Err(e)
      case Ok(m) =>
        match MatchAll(cands[1..], host, native)
        case Err(e) => Err(e)
        case Ok(rest) => Ok((if m.Some? then [(cands[0], m.value)] else []) + rest)
  }

  function CountMatching(cands: seq<Template>, host: string, native: NativeMatcher): nat
  {
    if cands == [] then 0
    else (if TemplateMatch(cands[0], host, native) == Ok(None) then 0 else 1) + CountMatching(cands[1..], host, native)
  }

  lemma {:induction false} MatchAllCount(cands: seq<Template>, host: string, native: NativeMatcher)
    requires MatchAll(cands, host, native).Ok?
    ensures |MatchAll(cands, host, native).value| == CountMatching(cands, host, native)
  {
    if cands != [] {
      MatchAllCount(cands[1..], host, native);
    }
  }

  /** application_template_and_data_from_host. */
  function ResolveHost(templates: seq<Template>, host: string, native: NativeMatcher)
    : (r: Result<(Template, map<string, string>), RouteError>)
    ensures r.Err? ==> r.error == PatternError || r.error == DoesNotExist || r.error == TooManyMatching
    ensures r.Ok? ==> TemplateMatch(r.value.0, host, native) == Ok(Some(r.value.1))
  {
    match MatchAll(Candidates(templates, host), host, native)
    case Err(e) => Err(e)
    case Ok(ms) =>
      if |ms| == 0 then Err(DoesNotExist)
      else if |ms| > 1 then Err(TooManyMatching)
      else Ok(ms[0])
  }

  /**
   * A resolved template is the one candidate whose pattern matched: a
   * visualisation with that exact host when any exists, otherwise a tool;
   * no match and several matches are both errors.
   */
  lemma ResolveHostSpec(templates: seq<Template>, host: string, native: NativeMatcher)
    ensures var r := ResolveHost(templates, host, native);
      var cands := Candidates(templates, host);
      (r.Ok? ==>
        CountMatching(cands, host, native) == 1
        && TemplateMatch(r.value.0, host, native) == Ok(Some(r.value.1))
        && r.value.0 in templates
        && (if exists t :: t in templates && t.applicationType == Visualisation && t.hostExact == host
            then r.value.0.applicationType == Visualisation && r.value.0.hostExact == host
            else r.value.0.applicationType == Tool))
      && (r == Err(DoesNotExist) ==> CountMatching(cands, host, native) == 0)
      && (r == Err(TooManyMatching) ==> CountMatching(cands, host, native) > 1)
  {
    var cands := Candidates(templates, host);
    var vis := FilterExactVisualisations(templates, host);
    if MatchAll(cands, host, native).Ok? {
      MatchAllCount(cands, host, native);
      if vis != [] {
        assert vis[0] in templates;
      }
    }
  }

  datatype AccessError = RouteFailed(e: RouteError) | MissingUserGroup

  /**
   * application_api_is_allowed: a tool whose `user` group is the requesting
   * user's short hash and who may start applications, a visualisation open to
   * any authenticated user, or a visualisation with a permission row. Reading
   * a tool's missing `user` group raises KeyError; a visualisation never
   * reads it.
   */
  function ApiIsAllowed(
    templates: seq<Template>, host: string, native: NativeMatcher,
    sha: Digest.Sha256, ssoId: string, canStartAll: bool, permittedTemplates: set<nat>): (r: Result<bool, AccessError>)
    ensures ResolveHost(templates, host, native).Err? ==> r == Err(RouteFailed(ResolveHost(templates, host, native).error))
    ensures r == Err(MissingUserGroup) <==>
              ResolveHost(templates, host, native).Ok?
              && ResolveHost(templates, host, native).value.0.applicationType == Tool
              && "user" !in ResolveHost(templates, host, native).value.1
    ensures r == Ok(true) ==> ResolveHost(templates, host, native).Ok?
  {
    match ResolveHost(templates, host, native)
    case Err(e) => Err(RouteFailed(e))
    case Ok((t, hostData)) =>
      if t.applicationType == Tool && "user" !in hostData then Err(MissingUserGroup)
      else Ok(
        (t.applicationType == Tool && hostData["user"] == Digest.Short(sha, ssoId) && canStartAll)
        || (t.applicationType == Visualisation && t.userAccessType == RequiresAuthentication)
        || (t.applicationType == Visualisation && t.userAccessType == RequiresAuthorization && t.id in permittedTemplates))
  }

  /** A visualisation open to every signed-in user admits anyone, whatever their rows. */
  lemma ApiAdmitsOpenVisualisation(
    templates: seq<Template>, host: string, native: NativeMatcher,
    sha: Digest.Sha256, ssoId: string, canStartAll: bool, permittedTemplates: set<nat>)
    requires ResolveHost(templates, host, native).Ok?
    requires ResolveHost(templates, host, native).value.0.applicationType == Visualisation
    requires ResolveHost(templates, host, native).value.0.userAccessType == RequiresAuthentication
    ensures ApiIsAllowed(templates, host, native, sha, ssoId, canStartAll, permittedTemplates) == Ok(true)
  {
  }

  /** A visualisation that requires authorisation admits a user holding a permission row for it. */
  lemma ApiAdmitsPermittedVisualisation(
    templates: seq<Template>, host: string, native: NativeMatcher,
    sha: Digest.Sha256, ssoId: string, canStartAll: bool, permittedTemplates: set<nat>)
    requires ResolveHost(templates, host, native).Ok?
    requires ResolveHost(templates, host, native).value.0.applicationType == Visualisation
    requires ResolveHost(templates, host, native).value.0.userAccessType == RequiresAuthorization
    requires ResolveHost(templates, host, native).value.0.id in permittedTemplates
    ensures ApiIsAllowed(templates, host, native, sha, ssoId, canStartAll, permittedTemplates) == Ok(true)
  {
  }

  /** A user without a permission row for it is refused a visualisation that requires authorisation. */
  lemma ApiRefusesAuthorisationWithoutRow(
    templates: seq<Template>, host: string, native: NativeMatcher,
    sha: Digest.Sha256, ssoId: string, canStartAll: bool, permittedTemplates: set<nat>)
    requires ResolveHost(templates, host, native).Ok?
    requires ResolveHost(templates, host, native).value.0.applicationType == Visualisation
    requires ResolveHost(templates, host, native).value.0.userAccessType == RequiresAuthorization
    requires ResolveHost(templates, host, native).value.0.id !in permittedTemplates
    ensures ApiIsAllowed(templates, host, native, sha, ssoId, canStartAll, permittedTemplates) == Ok(false)
  {
  }

  /** A user who may not start applications is admitted to no tool. */
  lemma ApiRefusesToolWithoutStartPermission(
    templates: seq<Template>, host: string, native: NativeMatcher,
    sha: Digest.Sha256, ssoId: string, permittedTemplates: set<nat>)
    requires ResolveHost(templates, host, native).Ok?
    requires ResolveHost(templates, host, native).value.0.applicationType == Tool
    ensures ApiIsAllowed(templates, host, native, sha, ssoId, false, permittedTemplates) != Ok(true)
  {
  }

  /** Two users admitted to the same tool host share the short hash the host carries. */
  lemma ApiToolHasOneOwnerHash(
    templates: seq<Template>, host: string, native: NativeMatcher,
    sha: Digest.Sha256, a: string, b: string, canStartA: bool, canStartB: bool, permA: set<nat>, permB: set<nat>)
    requires ResolveHost(templates, host, native).Ok?
    requires ResolveHost(templates, host, native).value.0.applicationType == Tool
    requires ApiIsAllowed(templates, host, native, sha, a, canStartA, permA) == Ok(true)
    requires ApiIsAllowed(templates, host, native, sha, b, canStartB, permB) == Ok(true)
    ensures "user" in ResolveHost(templates, host, native).value.1
    ensures sha(a)[..8] == ResolveHost(templates, host, native).value.1["user"]
    ensures sha(a)[..8] == sha(b)[..8]
  {
  }

  /**
   * Whether a visualisation is open does not depend on who asks, beyond
   * their permission row for it: the hash and the start permission play no
   * part.
   */
  lemma ApiVisualisationIgnoresIdentity(
    templates: seq<Template>, host: string, native: NativeMatcher,
    sha: Digest.Sha256, a: string, b: string, canStartA: bool, canStartB: bool, permA: set<nat>, permB: set<nat>)
    requires ResolveHost(templates, host, native).Ok?
    requires ResolveHost(templates, host, native).value.0.applicationType == Visualisation
    requires (ResolveHost(templates, host, native).value.0.id in permA) == (ResolveHost(templates, host, native).value.0.id in permB)
    ensures ApiIsAllowed(templates, host, native, sha, a, canStartA, permA)
            == ApiIsAllowed(templates, host, native, sha, b, canStartB, permB)
  {
  }

  /** More permission rows and the start permission never take access away. */
  lemma ApiAllowedMonotone(
    templates: seq<Template>, host: string, native: NativeMatcher,
    sha: Digest.Sha256, ssoId: string, canStart: bool, perm: set<nat>, canStart': bool, perm': set<nat>)
    requires canStart ==> canStart'
    requires perm <= perm'
    requires ApiIsAllowed(templates, host, native, sha, ssoId, canStart, perm) == Ok(true)
    ensures ApiIsAllowed(templates, host, native, sha, ssoId, canStart', perm') == Ok(true)
  {
  }

  datatype ApiDict = ApiDict(proxyUrl: string, state: string, user: string)

  /** The state the proxy API reports: the stored state only while the spawner says RUNNING. */
  function ApiState(stored: AppModels.InstanceState, spawnerState: string): (r: string)
    ensures spawnerState != "RUNNING" ==> r == spawnerState
    ensures spawnerState == "RUNNING" ==> AppModels.ParseState(r) == Some(stored)
    ensures r == "RUNNING" <==> spawnerState == "RUNNING" && stored == AppModels.Running
  {
    AppModels.StateChoicesRoundTrip(stored);
    if spawnerState == "RUNNING" then AppModels.StateName(stored) else spawnerState
  }

  /** api_application_dict. */
  function ApiApplicationDict(proxyUrl: string, stored: AppModels.InstanceState, spawnerState: string,
                              sha: Digest.Sha256, ownerSso: string): (d: ApiDict)
    ensures d.user == sha(ownerSso)[..8] && |d.user| == 8
    ensures d.proxyUrl == proxyUrl
    ensures spawnerState != "RUNNING" ==> d.state == spawnerState
    ensures spawnerState == "RUNNING" ==> AppModels.ParseState(d.state) == Some(stored)
    ensures d.state == "RUNNING" <==> spawnerState == "RUNNING" && stored == AppModels.Running
  {
    ApiDict(proxyUrl, ApiState(stored, spawnerState), Digest.Short(sha, ownerSso))
  }
}
