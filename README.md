# data-workspace, modelled in Dafny

Data Workspace is a Django platform where analysts find datasets in a catalogue and download
them. They query those datasets through the Data Explorer, or through tools that the platform
runs for each user (each is an *application instance*). The platform also provisions the
database credentials those tools use.

This project models the platform's core logic and proves properties of it:

- **Application instances.** A public host resolves to an application template and its
  instance. Three rules decide API access. A stop rewrites the instance's uniqueness token. The
  idle reaper stops idle Fargate tasks. The backfill fills in only the missing spawner
  timestamps. The sweep revokes and drops temporary database users that nothing uses any more.
  Instances live in a table keyed by id, and the tokens stay pairwise distinct.
- **Credential provisioning.** This covers the names of temporary users, roles and schemas. It
  also covers the ordered statement plan for each database, the ownership rule the event trigger
  enforces, the grouping of source tables, the six-line credential document and its object key,
  and the permission predicates that decide which tables a user or an application may read.
- **The Data Explorer.** This covers pagination and request-parameter parsing. It also covers the
  materialised view each query runs into and the ordered cursor commands of a run. The remaining
  parts are the recently viewed queries, the playground handling and the periodic clean-up tasks.
- **Validators and visibility rules.** This covers the admin forms for reference datasets,
  custom queries and visualisation links, and the dataset search filter. It also covers the
  dataset lookups and downloads of the dataset and catalogue pages, and the admin save hooks. The
  remaining parts are the table-name data migration, the SSO authentication backend, the user
  admin's permission checkboxes and the "create a table from your CSV" flow.

Pure logic is modelled as datatypes and functions. Code that updates state step by step is
modelled as classes whose methods carry `modifies` clauses, and loops carry their invariants.
Most methods are proved against a specification function: their `ensures` tie the result or the
new state to a function of the inputs and the old state. Lemmas then relate those functions to the
promises the code makes.

The following are not modelled as computations. Each one is a parameter of the operation that
uses it:

- the database, S3 and HTTP;
- hashing, the clock and randomness;
- Python's regular expressions where a pattern is an arbitrary regex: a host pattern that
  contains `?P<` is matched by a parameter function.

The fixed patterns are decomposed into explicit character rules instead: the `<name>`
placeholder host patterns, the model and form validators, and the name cleaners.

A table is the sequence of its rows in the database's order, or a map keyed by primary key.


## Model

| member | source | states |
|---|---|---|
| AccountsAdmin.UserTable.CreateUser | dataworkspace/dataworkspace/apps/accounts/admin.py:36-42 | the new user's username is its address and its password unusable; it is written only when commit is set |
| AccountsAdmin.ToggleAsWritten | dataworkspace/dataworkspace/apps/accounts/admin.py:200-209 | one permission checkbox as written: a missing field changes nothing; a ticked box adds a permission the user lacks; a held permission is removed whatever the box says |
| AccountsAdmin.ToggleAsWrittenRemovesTicked | dataworkspace/dataworkspace/apps/accounts/admin.py:200-209 | saving a ticked box for a permission the user holds takes the permission away |
| AccountsAdmin.Toggle | dataworkspace/dataworkspace/apps/accounts/admin.py:200-220 | the intended checkbox: afterwards the user holds the permission exactly when the box is ticked, other permissions are untouched, and a history message is written exactly when something changed, naming the change |
| AccountsAdmin.ToggleIdempotent | dataworkspace/dataworkspace/apps/accounts/admin.py:200-220 | saving again with the same boxes changes nothing and logs nothing |
| AccountsAdmin.ToggleAgreesElsewhere | dataworkspace/dataworkspace/apps/accounts/admin.py:200-220 | the code as written and the intended toggle agree on every input except a ticked box for a held permission |
| AccountsAdmin.UserChange.SaveModel | dataworkspace/dataworkspace/apps/accounts/admin.py:176-222 | with the intended checkbox (see Findings): the username becomes the cleaned address, the two checkboxes are applied in order, and one history entry per change is appended |
| AccountsAdmin.Changes | dataworkspace/dataworkspace/apps/accounts/admin.py:185-189 | one history entry per message, in order, each naming the editor and the edited user |
| AccountsAdmin.ChangesAppend | dataworkspace/dataworkspace/apps/accounts/admin.py:185-189 | logging two batches of messages is logging their concatenation |
| AccountsAdmin.SaveModelFollowsBoxes | dataworkspace/dataworkspace/apps/accounts/admin.py:200-220 | with the intended checkbox (see Findings): after a save with both boxes present, the user holds each permission exactly when its box is ticked |
| AccountsAdmin.PermissionFilter | dataworkspace/dataworkspace/apps/accounts/admin.py:100-109 | 'yes' keeps exactly the holders of the permission, 'no' exactly the others, any other value keeps the whole list |
| AccountsAdmin.FilterYesNoPartition | dataworkspace/dataworkspace/apps/accounts/admin.py:90-131 | every user is listed under exactly one of 'yes' and 'no' |
| AccountsBackends.ReadProfile | dataworkspace/dataworkspace/apps/accounts/backends.py:12-19 | a profile is read exactly when all five headers are present; the related addresses are the header split on ',' |
| AccountsBackends.Addresses | dataworkspace/dataworkspace/apps/accounts/backends.py:30-32 | the lookup addresses include the header's address and every related address |
| AccountsBackends.SyncAsWritten | dataworkspace/dataworkspace/apps/accounts/backends.py:44-64 | as written: the username takes the address the user had before the sync, the address, names and unusable password follow the headers, and changed is set exactly when some comparison differed |
| AccountsBackends.SyncAsWrittenLeavesOldUsername | dataworkspace/dataworkspace/apps/accounts/backends.py:46-52 | a user stored under another address ends with a username that is not their address |
| AccountsBackends.SyncAsWrittenSettlesOnSecondSignIn | dataworkspace/dataworkspace/apps/accounts/backends.py:44-64 | as written, the username equals the header's address after a second sign-in |
| AccountsBackends.Sync | dataworkspace/dataworkspace/apps/accounts/backends.py:44-67 | intended sync: username and address are the header's address, the names follow the headers, the password is unusable, and changed holds exactly when the stored user differs from the result |
| AccountsBackends.SyncIdempotent | dataworkspace/dataworkspace/apps/accounts/backends.py:44-67 | a second sign-in with the same headers changes nothing and saves nothing |
| AccountsBackends.UserDirectory.FindOrCreate | dataworkspace/dataworkspace/apps/accounts/backends.py:27-42 | the result, the users table afterwards and the number of saves are those of the lookup: the user with the SSO id taken as is; otherwise the one user with one of the addresses (or a new one under the header's address) saved and given the SSO id, or, when a concurrent sign-in stored that id first, that user; several matches are MultipleObjectsReturned; primary keys stay below the next one |
| AccountsBackends.LookupTouchesOnlyFound | dataworkspace/dataworkspace/apps/accounts/backends.py:27-42 | the user the lookup returns is in the table, a failed lookup changes nothing, and every other stored user is left as it was |
| AccountsBackends.LookupResult | dataworkspace/dataworkspace/apps/accounts/backends.py:27-42 | the user with the SSO id wins whatever the addresses say; otherwise the concurrent sign-in's user, else the address's owner, else the next new key; MultipleObjectsReturned exactly when the id, or failing it the addresses, match several users |
| AccountsBackends.LookupSaves | dataworkspace/dataworkspace/apps/accounts/backends.py:27-39 | no save when the SSO id settles the lookup or it fails; otherwise three saves for a user get_or_create inserts (the insert, the save that makes the profile, the save of the SSO id) and two for one it finds, one fewer when the save of the SSO id clashes with a concurrent sign-in |
| AccountsBackends.UserDirectory.Authenticate | dataworkspace/dataworkspace/apps/accounts/backends.py:11-69 | a missing header gives no user and changes nothing; otherwise the result, the table afterwards and the saves are those of a sign-in with the intended sync (see Findings) |
| AccountsBackends.SignInSyncsUser | dataworkspace/dataworkspace/apps/accounts/backends.py:44-69 | with the intended sync, the user a sign-in returns is stored with the header's address as username and address, the headers' names and no usable password |
| AccountsBackends.SignInTouchesOnlyFound | dataworkspace/dataworkspace/apps/accounts/backends.py:27-69 | a sign-in writes no stored user but the one it returns; a failed one changes nothing and saves nothing |
| AccountsBackends.SignInBySsoId | dataworkspace/dataworkspace/apps/accounts/backends.py:27-28 | with the intended sync, a user already holding the SSO id is only synced, and saved once exactly when a field changed |
| AppModels.ParseState | app/app/models.py:162-170 | a stored state reads back only as one of the three choices, and reads as the choice whose stored name it is |
| AppModels.StateChoicesRoundTrip | app/app/models.py:162-170 | every state choice reads back as itself, and the default is SPAWNING |
| AppModels.NewDatabase | app/app/models.py:41-44 | a new database is not public by default |
| AppModels.NewPrivilage | app/app/models.py:61-66 | a new privilege's schema defaults to 'public' |
| AppModels.DefaultPrivilageValid | app/app/models.py:61-72 | the default schema passes the schema validator and length limit, so a privilege with a valid table list is valid |
| AppModels.AllTablesAccepted | app/app/models.py:70 | 'ALL TABLES' passes the tables validator |
| AppModels.TrailingCommaRejected | app/app/models.py:70 | a table list ending in a comma never passes the tables validator |
| AppModels.TablesUnanchoredStart | app/app/models.py:70 | the first alternative of the tables validator is not anchored at the start, so '; x' passes |
| AppModels.TemplateNameTrailingNewline | app/app/models.py:94-100 | the name validator accepts a name with one trailing newline and refuses a digit |
| AppModels.MemorableNameSearch | app/app/models.py:35-40 | the memorable-name validator needs only one word character anywhere: '-a-' passes and '--' does not |
| AppModels.InsertPrivilage | app/app/models.py:78 | an insert succeeds exactly when no row has the same user, database and schema; the table then stays unique under that constraint |
| AppModels.Profiles.SaveUserProfile | app/app/models.py:15-21 | an existing profile is kept; otherwise a profile with the new SSO id is created unless that id is taken; SSO ids stay unique |
| ApplicationsRouter.CloseFrom | dataworkspace/dataworkspace/apps/applications/utils.py:52 | the lazy `<(.+?)>` closes at the first '>' from the given index on, with no '>' or newline before it |
| ApplicationsRouter.Literal | dataworkspace/dataworkspace/apps/applications/utils.py:52 | text without placeholders is read as one literal segment per character |
| ApplicationsRouter.ParseLiteralThenGroup | dataworkspace/dataworkspace/apps/applications/utils.py:49-52 | a pattern of literal text followed by one `<name>` is read as that text and one lazy group called name |
| ApplicationsRouter.CloseFromName | dataworkspace/dataworkspace/apps/applications/utils.py:52 | the closing '>' is found wherever the first '>' with no newline before it stands |
| ApplicationsRouter.MatchSound | dataworkspace/dataworkspace/apps/applications/utils.py:52-58 | whenever the anchored pattern matches a host, the captures put back into the pattern spell the host, up to the one final newline `$` lets through |
| ApplicationsRouter.TryGroupSound | dataworkspace/dataworkspace/apps/applications/utils.py:52-58 | a lazy group's capture, followed by what the rest of the pattern spells, is the host |
| ApplicationsRouter.TryGroupShortest | dataworkspace/dataworkspace/apps/applications/utils.py:52 | a lazy group captures a prefix of the host, and the rest of the pattern fails after every shorter prefix |
| ApplicationsRouter.LiteralThenGroupCaptures | dataworkspace/dataworkspace/apps/applications/utils.py:52-58 | a literal prefix followed by one group matches the prefix and any text without a newline, capturing that text |
| ApplicationsRouter.GroupTakesRest | dataworkspace/dataworkspace/apps/applications/utils.py:52 | a final lazy group captures the whole remainder of a host without newlines |
| ApplicationsRouter.GroupNamesLiteral | dataworkspace/dataworkspace/apps/applications/utils.py:52-56 | a literal prefix followed by one group has that group's name as its only group name |
| ApplicationsRouter.UserPlaceholderCaptures | dataworkspace/dataworkspace/apps/applications/utils.py:44-58 | a template pattern `<literal><user>` matches `<literal>x` for any x without a newline and its groupdict is {'user': x} |
| ApplicationsRouter.TemplateMatch | dataworkspace/dataworkspace/apps/applications/utils.py:44-58 | the only error a template's pattern can give is a pattern error |
| ApplicationsRouter.FilterExactVisualisations | dataworkspace/dataworkspace/apps/applications/utils.py:39-41 | keeps exactly the visualisations whose host_exact is the host |
| ApplicationsRouter.FilterTools | dataworkspace/dataworkspace/apps/applications/utils.py:42 | keeps exactly the tools |
| ApplicationsRouter.MatchAll | dataworkspace/dataworkspace/apps/applications/utils.py:55-60 | every pair listed is a candidate with the groupdict its pattern gives the host; a pattern error propagates |
| ApplicationsRouter.MatchAllCount | dataworkspace/dataworkspace/apps/applications/utils.py:55-60 | one pair is listed per candidate whose pattern matches |
| ApplicationsRouter.ResolveHostSpec | dataworkspace/dataworkspace/apps/applications/utils.py:32-66 | a resolved template is the one candidate that matched, with its groupdict: a visualisation with that exact host when one exists, otherwise a tool; no match is DoesNotExist and several are the too-many error |
| ApplicationsRouter.ResolveHost | dataworkspace/dataworkspace/apps/applications/utils.py:32-66 | fails only with a pattern error, DoesNotExist or the too-many error, and a resolved template's pattern matches the host with exactly the returned groupdict |
| ApplicationsRouter.ApiIsAllowed | dataworkspace/dataworkspace/apps/applications/utils.py:100-131 | a routing failure is passed on, a resolved tool whose pattern has no `user` group is the KeyError, and access can be granted only for a host that resolves |
| ApplicationsRouter.ApiAdmitsOpenVisualisation | dataworkspace/dataworkspace/apps/applications/utils.py:112-116 | a visualisation that requires only authentication admits every user, whatever their hash, start permission and permission rows |
| ApplicationsRouter.ApiAdmitsPermittedVisualisation | dataworkspace/dataworkspace/apps/applications/utils.py:118-125 | a visualisation that requires authorisation admits a user who holds a permission row for it |
| ApplicationsRouter.ApiRefusesAuthorisationWithoutRow | dataworkspace/dataworkspace/apps/applications/utils.py:118-125 | a visualisation that requires authorisation refuses a user who holds no permission row for it, whatever their hash and start permission |
| ApplicationsRouter.ApiRefusesToolWithoutStartPermission | dataworkspace/dataworkspace/apps/applications/utils.py:104-110 | a user without the start-all-applications permission is admitted to no tool |
| ApplicationsRouter.ApiToolHasOneOwnerHash | dataworkspace/dataworkspace/apps/applications/utils.py:104-110 | a user admitted to a tool host has the first eight hex digits of their hashed SSO id equal to the host's `user` group, so any two users admitted to the same tool host share that prefix |
| ApplicationsRouter.ApiVisualisationIgnoresIdentity | dataworkspace/dataworkspace/apps/applications/utils.py:112-131 | for a visualisation the answer depends only on whether the user has a permission row for it, never on the user's hash or start permission |
| ApplicationsRouter.ApiAllowedMonotone | dataworkspace/dataworkspace/apps/applications/utils.py:100-131 | adding permission rows or the start permission never takes access away |
| ApplicationsRouter.ApiState | dataworkspace/dataworkspace/apps/applications/utils.py:77-80 | the spawner's state is reported unless it is RUNNING; while it is RUNNING the stored state is reported, and it reads back as that state; RUNNING is reported exactly when both the spawner and the stored state say so |
| ApplicationsRouter.ApiApplicationDict | dataworkspace/dataworkspace/apps/applications/utils.py:69-89 | the dict carries the proxy URL and the owner's first eight hex digits of the hashed SSO id; its state is the spawner's unless the spawner is RUNNING, then the stored state; RUNNING exactly when both say so |
| ApplicationsRegistry.OneLiveInstancePerHost | app/app/models.py:176-183 | under the unique token constraint two spawning or running instances never share a public host |
| ApplicationsRegistry.StopKeepsConsistent | dataworkspace/dataworkspace/apps/applications/utils.py:139-142 | marking an instance stopped with its id as token keeps the unique constraint, and no other row holds that token |
| ApplicationsRegistry.SameIdentityConsistent | app/app/models.py:176-183 | the constraint depends only on the rows' ids, hosts, states and tokens |
| ApplicationsRegistry.ApiVisibleByHost | dataworkspace/dataworkspace/apps/applications/utils.py:92-97 | the lookup returns a spawning or running instance with the host, and DoesNotExist exactly when no such instance exists |
| ApplicationsRegistry.ApiVisibleNeverMultiple | dataworkspace/dataworkspace/apps/applications/utils.py:92-97 | with the token constraint the lookup never raises MultipleObjectsReturned |
| ApplicationsRegistry.ReapedConsistent | dataworkspace/dataworkspace/apps/applications/utils.py:180-213 | whatever the reaper stops, the unique token constraint still holds |
| ApplicationsRegistry.ReaperKeeps | dataworkspace/dataworkspace/apps/applications/utils.py:194-204 | a running instance whose CPU lookup raised or whose maximum CPU is at least 1.0 is left as it was |
| ApplicationsRegistry.ReapedOnlyCandidates | dataworkspace/dataworkspace/apps/applications/utils.py:184-211 | only instances of the query (FARGATE, live, created over two hours ago) that are spawning, or running with CPU below 1.0, are changed, and each becomes STOPPED with its id as token |
| ApplicationsRegistry.EnqueuedExactlyStopped | dataworkspace/dataworkspace/apps/applications/utils.py:134-136 | every backend stop task names a stopped instance with its spawner, and every stopped instance has its task |
| ApplicationsRegistry.BackfillFillsOnlyNulls | dataworkspace/dataworkspace/apps/applications/utils.py:255-290 | one instance's backfill sets a timestamp only when it was null and the Fargate task record has the key, changes nothing else, and a second pass changes nothing |
| ApplicationsRegistry.WindowUntouched | dataworkspace/dataworkspace/apps/applications/utils.py:244-250 | an hour's window sees the rows the earlier windows did not select as they were |
| ApplicationsRegistry.WindowDone | dataworkspace/dataworkspace/apps/applications/utils.py:244-290 | the table after a window is the earlier table with that window's rows backfilled |
| ApplicationsRegistry.BackfillSameIdentity | dataworkspace/dataworkspace/apps/applications/utils.py:277-290 | the backfill changes no id, host, state or token |
| ApplicationsRegistry.BackfilledAll | dataworkspace/dataworkspace/apps/applications/utils.py:241-290 | after the 48 windows every row created in the last 48 hours with a missing timestamp is backfilled and every other row is unchanged |
| ApplicationsRegistry.InstanceRegistry.constructor | app/app/models.py:128-183 | an empty instance table that satisfies the token constraint |
| ApplicationsRegistry.InstanceRegistry.Create | app/app/models.py:141-183 | a new row starts SPAWNING with its host as token; it is refused, changing nothing, exactly when the host is longer than the column's 63 characters or another row holds that token; afterwards every stored host still fits the column and the tokens stay distinct |
| ApplicationsRegistry.InstanceRegistry.SetApplicationStopped | dataworkspace/dataworkspace/apps/applications/utils.py:139-142 | the row becomes STOPPED with its id as token, nothing else changes, and the constraint holds |
| ApplicationsRegistry.InstanceRegistry.StopSpawnerAndApplication | dataworkspace/dataworkspace/apps/applications/utils.py:134-136 | the stop task is enqueued before the row is marked stopped; when the enqueue raises nothing changes |
| ApplicationsRegistry.InstanceRegistry.ReapOne | dataworkspace/dataworkspace/apps/applications/utils.py:189-211 | one pass of the reaper loop; only a raising stop of a spawning instance escapes the loop |
| ApplicationsRegistry.InstanceRegistry.KillIdleFargate | dataworkspace/dataworkspace/apps/applications/utils.py:180-213 | the table and the stop queue after the reaper are those the specification functions give for the handled prefix of the candidates, and the reaper ends early only on a raising stop of a spawning instance |
| ApplicationsRegistry.InstanceRegistry.ReapInOrder | dataworkspace/dataworkspace/apps/applications/utils.py:189-211 | the loop over the candidates in the query's order, with the same outcome |
| ApplicationsRegistry.InstanceRegistry.FillWindow | dataworkspace/dataworkspace/apps/applications/utils.py:252-290 | one window's rows are each backfilled in turn, others untouched |
| ApplicationsRegistry.BackfillEach | dataworkspace/dataworkspace/apps/applications/utils.py:252-290 | the rows a window selects are each backfilled once, whatever the order, and every other row is returned as it was |
| ApplicationsRegistry.InstanceRegistry.PopulateCreatedStoppedFargate | dataworkspace/dataworkspace/apps/applications/utils.py:216-292 | every eligible row is backfilled and every other row is unchanged, keeping the token constraint |
| ApplicationsSweep.SelectUsenames | dataworkspace/dataworkspace/apps/applications/utils.py:305-312 | exactly the logins whose valuntil is not 'infinity' and whose name matches the LIKE pattern `user_%` (whose `_` is itself a wildcard) are selected |
| ApplicationsSweep.UserSchemas | dataworkspace/dataworkspace/apps/applications/utils.py:315-322 | exactly the schemas other than pg_catalog and information_schema are kept |
| ApplicationsSweep.InUse | dataworkspace/dataworkspace/apps/applications/utils.py:330-334 | a selected login is in use exactly when a row of this database ties it to a RUNNING or SPAWNING instance |
| ApplicationsSweep.NotInUse | dataworkspace/dataworkspace/apps/applications/utils.py:335 | exactly the selected logins not in use remain, and never more of them |
| ApplicationsSweep.NotInUseCons | dataworkspace/dataworkspace/apps/applications/utils.py:335 | the filter goes name by name: the first selected name is kept, ahead of what the rest keeps, exactly when it is not in use |
| ApplicationsSweep.NotInUseKeepsOrder | dataworkspace/dataworkspace/apps/applications/utils.py:335 | the filter distributes over concatenation, so the kept names keep their order and multiplicity among the selected ones |
| ApplicationsSweep.Dropped | dataworkspace/dataworkspace/apps/applications/utils.py:350-390 | a login is dropped exactly when its two database revokes and its DROP USER all succeed |
| ApplicationsSweep.SweepNeverDropsInUse | dataworkspace/dataworkspace/apps/applications/utils.py:327-335 | a dropped login was selected by the catalogue filter and no live instance of that database uses it |
| ApplicationsSweep.SchemaRevokesTargets | dataworkspace/dataworkspace/apps/applications/utils.py:366-371 | the schema revokes name only that login and only the listed schemas |
| ApplicationsSweep.AttemptsAppend | dataworkspace/dataworkspace/apps/applications/utils.py:350-386 | what is issued for one login does not depend on the logins before it |
| ApplicationsSweep.DroppedAppend | dataworkspace/dataworkspace/apps/applications/utils.py:385-386 | one login's failure does not change which of the others are dropped |
| ApplicationsSweep.AllSucceedAttempts | dataworkspace/dataworkspace/apps/applications/utils.py:355-384 | with no failure each login receives the two database revokes, seven revokes per schema and the drop |
| ApplicationsSweep.AllSucceedDropped | dataworkspace/dataworkspace/apps/applications/utils.py:350-390 | with no failure every login not in use is dropped |
| ApplicationsSweep.DropComesLast | dataworkspace/dataworkspace/apps/applications/utils.py:355-384 | DROP USER is issued exactly when both database revokes succeed, and then as the login's last statement after all its schema revokes; a failing schema revoke does not stop it |
| ApplicationsSweep.SweepDatabase | dataworkspace/dataworkspace/apps/applications/utils.py:299-390 | the loop over the unused logins issues the statements and drops the logins that the specification function gives |
| ApplicationsSweep.SweepUser | dataworkspace/dataworkspace/apps/applications/utils.py:351-390 | one login's `try`: the statements issued and whether it ended dropped |
| ApplicationsSweep.DeleteUnusedDatasetsUsers | dataworkspace/dataworkspace/apps/applications/utils.py:295-392 | the sweep of all databases in order is the concatenation of each database's sweep |
| ApplicationsViews.ToolLinkAdmitsOnlyOwner | dataworkspace/dataworkspace/apps/applications/views.py:120-122 | the link host of a `<host_exact>-<user>` tool resolves back to that tool with the owner's short hash as its user, and the API admits a visitor exactly when their short hash is the owner's and they may start applications |
| ApplicationsViews.ToolLink | dataworkspace/dataworkspace/apps/applications/views.py:120-122 | the link opens with the scheme, the tool's host_exact and a dash, and ends in the root domain and a slash |
| ApplicationsViews.ActiveInstanceFor | dataworkspace/dataworkspace/apps/applications/views.py:113-118 | a template has no instance shown exactly when the user has no live instance of it |
| ApplicationsViews.ActiveInstanceIsLast | dataworkspace/dataworkspace/apps/applications/views.py:113-118 | the dict comprehension keeps the last live row of each template |
| ApplicationsViews.VisibleTemplates | dataworkspace/dataworkspace/apps/applications/views.py:140-144 | exactly the visible templates are kept |
| ApplicationsViews.ToolsListingExactlyVisible | dataworkspace/dataworkspace/apps/applications/views.py:133-145 | every visible template has its row with its name, link and live instance, and every row comes from a visible template |
| ApplicationsViews.ToolsListing | dataworkspace/dataworkspace/apps/applications/views.py:133-145 | never more rows than templates; which rows, in which order, is stated by ToolsListingExactlyVisible and ToolsListingSorted |
| ApplicationsViews.VisibleTemplatesSorted | dataworkspace/dataworkspace/apps/applications/views.py:140-144 | filtering templates ordered by name keeps them ordered by name |
| ApplicationsViews.ToolsListingSorted | dataworkspace/dataworkspace/apps/applications/views.py:133-145 | the listing's rows are in name order |
| ApplicationsViews.ToolsTemplateName | dataworkspace/dataworkspace/apps/applications/views.py:124-127 | tools.html exactly for users who may start applications or use AppStream |
| ApplicationsViews.OwnedLiveAtMostOne | dataworkspace/dataworkspace/apps/applications/views.py:158-162 | under the token constraint the `get` for the user's live instance at a host never finds two |
| ApplicationsViews.ToolsPost | dataworkspace/dataworkspace/apps/applications/views.py:152-173 | a missing key or a redirect target outside the two allowed ones raises KeyError before anything changes; with no live instance 'Stopped' is reported and nothing changes; otherwise that instance is stopped and 'Stopped' with its nice name is reported |
| ApplicationsViews.LastDoubleDash | dataworkspace/dataworkspace/apps/applications/views.py:312 | rpartition splits at the last "--", or nowhere when there is none |
| ApplicationsViews.FirstCommit | dataworkspace/dataworkspace/apps/applications/views.py:310-315 | the production commit is the first tag's that has non-empty text before its last "--"; none when no tag has |
| ApplicationsViews.CommitOfTag | dataworkspace/dataworkspace/apps/applications/views.py:312-314 | a commit id is what follows the tag's last `--` when something precedes it; a tag without `--` names no commit |
| ApplicationsViews.ProductionCommitId | dataworkspace/dataworkspace/apps/applications/views.py:310-315 | the loop stops at the first tag with a commit and returns the commit the specification function gives |
| ApplicationsViews.CommitOfTagExamples | dataworkspace/dataworkspace/apps/applications/views.py:312-314 | `viz--abc1234` names commit abc1234, and `viz` names none |
| ApplicationsViews.LeadingDashesNameNoCommit | dataworkspace/dataworkspace/apps/applications/views.py:313 | `--abc` names no commit, since the text before the "--" is empty |
| ApplicationsViews.ReleaseFlagsExclusive | dataworkspace/dataworkspace/apps/applications/views.py:321-331 | at most one of must-preview, can-release and is-released holds, exactly one on the default branch, and is-released exactly when the latest commit is the production one |
| ApplicationsViews.KeyLtAsymmetric | dataworkspace/dataworkspace/apps/applications/views.py:620-625 | the tuple order of branch_sort_key is asymmetric |
| ApplicationsViews.InsertBranch | dataworkspace/dataworkspace/apps/applications/views.py:627-631 | inserting gives a permutation of the branches with the new one added |
| ApplicationsViews.InsertBranchDescending | dataworkspace/dataworkspace/apps/applications/views.py:627-631 | inserting into branches with descending keys keeps the keys descending |
| ApplicationsViews.SortBranches | dataworkspace/dataworkspace/apps/applications/views.py:618-631 | the result is a permutation of the branches with descending keys |
| ApplicationsViews.DefaultBranchFirst | dataworkspace/dataworkspace/apps/applications/views.py:619-625 | when the default branch is present it is listed first |
| ApplicationsViews.NamedBranches | dataworkspace/dataworkspace/apps/applications/views.py:278 | exactly the branches with the requested name |
| ApplicationsViews.MatchBranch | dataworkspace/dataworkspace/apps/applications/views.py:278-287 | the only branch with the name; none is a 404 and several raise |
| ApplicationsViews.AnyDeveloper | dataworkspace/dataworkspace/apps/applications/views.py:611-615 | true exactly when some member entry is the user with developer level or above |
| ApplicationsViews.HasDeveloperAccess | dataworkspace/dataworkspace/apps/applications/views.py:586-615 | a non-200 status or several users raise, no user is no access, one user has access exactly when a member entry for them has developer level or above |
| ApplicationsViews.GiveOutcome | dataworkspace/dataworkspace/apps/applications/views.py:511-552 | the stripped, lowercased address is refused as empty, malformed, unknown or already granted, in that order, and several users stored with it raise MultipleObjectsReturned before the grant check; otherwise the one user stored with it is granted |
| ApplicationsViews.CleanEmail | dataworkspace/dataworkspace/apps/applications/views.py:511 | the cleaned address has no upper-case letter and no leading or trailing whitespace |
| ApplicationsViews.GiveTwiceRefused | dataworkspace/dataworkspace/apps/applications/views.py:546-552 | a second grant with the same address is refused as already granted |
| ApplicationsViews.VisualisationGrants.constructor | dataworkspace/dataworkspace/apps/applications/views.py:546-561 | no permission rows and no log entries |
| ApplicationsViews.VisualisationGrants.GiveAccess | dataworkspace/dataworkspace/apps/applications/views.py:505-569 | on success exactly one permission row and one 'Added' log entry are added; every refusal, and the MultipleObjectsReturned of a shared address, changes nothing |
| ApplicationsViews.VisualisationGrants.RemoveAccess | dataworkspace/dataworkspace/apps/applications/views.py:431-468 | an unknown user raises before anything changes; a present row is deleted with a 'Removed' log entry; a missing row is a silent success |
| ApplicationsForms.UserWithEmail | dataworkspace/dataworkspace/apps/applications/views.py:539-542 | the lookup by address yields the one user stored with exactly that address; DoesNotExist exactly when none is, MultipleObjectsReturned exactly when two or more are |
| ApplicationsForms.CleanContact | dataworkspace/dataworkspace/apps/applications/forms.py:21-25 | an empty value is no user; otherwise the lower-cased address must pass the e-mail check (else the field's invalid-email message) and name a user (else its invalid-choice message); several users with it raise MultipleObjectsReturned; a result is the one user stored with that address |
| ApplicationsForms.LowerLower | dataworkspace/dataworkspace/apps/applications/forms.py:24-25 | lower-casing twice is lower-casing once |
| ApplicationsForms.ContactIgnoresCase | dataworkspace/dataworkspace/apps/applications/forms.py:21-25 | a contact field answers the same for an address and for its lower-case form |
| ApplicationsForms.SubwidgetLabel | dataworkspace/dataworkspace/apps/applications/forms.py:41-42 | each input's label starts with the widget's prefix and ' #' |
| ApplicationsForms.SubwidgetLabelsDistinct | dataworkspace/dataworkspace/apps/applications/forms.py:41-42 | two inputs of one widget never share a label |
| ApplicationsForms.LabelSubwidgets | dataworkspace/dataworkspace/apps/applications/forms.py:36-43 | every subwidget, and nothing else about it, is relabelled with its one-based position |
| ApplicationsForms.Blanks | dataworkspace/dataworkspace/apps/applications/forms.py:52 | `[''] * n`: n blank entries, none for a negative n |
| ApplicationsForms.CompactEntries | dataworkspace/dataworkspace/apps/applications/forms.py:47-53 | the non-blank entries come first in their order, followed by blanks up to the field's size; no non-blank entry is lost or invented |
| ApplicationsForms.NoBlanksKept | dataworkspace/dataworkspace/apps/applications/forms.py:51 | entries without blanks pass the filter unchanged |
| ApplicationsForms.InitialAuthorizationTicked | dataworkspace/dataworkspace/apps/applications/forms.py:155-159 | the access checkbox starts ticked exactly for a new item or one that requires authorisation |
| ApplicationsForms.CleanUserAccessType | dataworkspace/dataworkspace/apps/applications/forms.py:161-166 | ticked gives REQUIRES_AUTHORIZATION and unticked REQUIRES_AUTHENTICATION |
| ApplicationsForms.AccessTypeRoundTrip | dataworkspace/dataworkspace/apps/applications/forms.py:155-166 | submitting the form untouched keeps an item's access type, and a new item requires authorisation |
| ApplicationsForms.CleanApproved | dataworkspace/dataworkspace/apps/applications/forms.py:190-195 | the form fails, with the review message, exactly when the visualisation is not yet approved and the box is unticked; otherwise the box's value is kept |
| CoreCredentials.DsnRoundTrip | dataworkspace/dataworkspace/apps/core/utils.py:26-31 | for settings without spaces the connection string splits back on spaces into its six `key=value` fields, in order |
| CoreCredentials.Sanitize | dataworkspace/dataworkspace/apps/core/utils.py:37 | the length is kept, lowercase letters and digits are kept, and every other character becomes '_' |
| CoreCredentials.PostgresUser | dataworkspace/dataworkspace/apps/core/utils.py:34-37 | the login is 'user_', the sanitised lowercased stem, '_' and the five random characters, so it always passes the sweep's `LIKE 'user_%'` filter |
| CoreCredentials.SuffixForUser | dataworkspace/dataworkspace/apps/core/utils.py:40-41 | eight hex characters of the hashed SSO id |
| CoreCredentials.SuffixForApp | dataworkspace/dataworkspace/apps/core/utils.py:44-45 | 'app_' followed by the template's name |
| CoreCredentials.RoleOrSchema | dataworkspace/dataworkspace/apps/core/utils.py:61-64 | the role and the schema are the same name: the stem '_user_' and the suffix |
| CoreCredentials.UserAndAppNamesDisjoint | dataworkspace/dataworkspace/apps/core/utils.py:40-45 | a user's role and schema never coincide with an application's |
| CoreCredentials.SetTableOwner | dataworkspace/dataworkspace/apps/core/utils.py:121-156 | after a CREATE or ALTER on a listed table in a `_user_` schema its owner is the role named like the schema; every other table's owner is unchanged |
| CoreCredentials.SetTableOwnerIdempotent | dataworkspace/dataworkspace/apps/core/utils.py:135-148 | the trigger's own ALTER TABLE fires it again and that second firing changes nothing |
| CoreCredentials.Prologue | dataworkspace/dataworkspace/apps/core/utils.py:70-169 | the eight statements before the table grants |
| CoreCredentials.GrantSelectExactly | dataworkspace/dataworkspace/apps/core/utils.py:171-210 | SELECT is granted exactly on the listed tables that exist, and only to the new login |
| CoreCredentials.GrantUsageExactly | dataworkspace/dataworkspace/apps/core/utils.py:171-204 | USAGE on a schema is granted exactly when some listed table of it exists, and only to the new login |
| CoreCredentials.GetNewCredentials | dataworkspace/dataworkspace/apps/core/utils.py:54-220 | the statements issued are the prologue followed by the count-then-grant sequence of the tables, and the credential carries the database's settings, the login and the password |
| CoreCredentials.GroupRuns | dataworkspace/dataworkspace/apps/core/utils.py:227-229 | groupby gives non-empty runs, no two adjacent runs with the same database |
| CoreCredentials.GroupRunsFlatten | dataworkspace/dataworkspace/apps/core/utils.py:222-230 | laid end to end the runs are the rows again: nothing lost, nothing reordered |
| CoreCredentials.Assign | dataworkspace/dataworkspace/apps/core/utils.py:222-230 | assigning into an insertion-ordered dict adds the key with its value, keeps every entry of another key and adds nothing else |
| CoreCredentials.AssignKeepsDistinct | dataworkspace/dataworkspace/apps/core/utils.py:222-230 | assigning into a dict whose keys are distinct keeps them distinct |
| CoreCredentials.DictOf | dataworkspace/dataworkspace/apps/core/utils.py:222-230 | the dict has each database of the runs once |
| CoreCredentials.DictKeepsLastRun | dataworkspace/dataworkspace/apps/core/utils.py:222-230 | a database's entry is its last run: the tables of its earlier runs are dropped |
| CoreCredentials.NonContiguousKeepsLastRun | dataworkspace/dataworkspace/apps/core/utils.py:222-230 | rows a, b, a give one entry for a with only its last run's table |
| CoreCredentials.OneCredentialPerDatabase | dataworkspace/dataworkspace/apps/core/utils.py:231-236 | with every database known and working there is one credential per dict entry, in the dict's order |
| CoreCredentials.NewPrivateDatabaseCredentials | dataworkspace/dataworkspace/apps/core/utils.py:48-236 | the statements and credentials are those of the grouped dict's entries in order; the first database that is missing or raises aborts the whole call |
| CoreCredentials.ProvisionEntries | dataworkspace/dataworkspace/apps/core/utils.py:231-234 | the loop over the dict's entries gives what the specification function gives |
| CoreCredentials.CredentialsAbort | dataworkspace/dataworkspace/apps/core/utils.py:231-234 | once a database fails the whole result is that failure |
| CoreCredentials.S3Prefix | dataworkspace/dataworkspace/apps/core/utils.py:499-504 | 'user/federated/', the 64-character hash of the SSO id, and '/' |
| CoreCredentials.S3PrefixesSeparate | dataworkspace/dataworkspace/apps/core/utils.py:499-504 | no path in one user's folder lies in another user's folder when their hashes differ |
| CoreCredentials.SplitDocument | dataworkspace/dataworkspace/apps/core/utils.py:253-260 | the newline-terminated document splits back into its lines and an empty tail |
| CoreCredentials.CredentialDocumentRoundTrip | dataworkspace/dataworkspace/apps/core/utils.py:253-260 | reading a written credential object gives back the six values in the written order |
| CoreCredentials.CredentialDocument | dataworkspace/dataworkspace/apps/core/utils.py:253-260 | the object body opens with the `dbuser` line holding the credential's user |
| CoreCredentials.ParseCredentialDocument | dataworkspace/dataworkspace/apps/core/utils.py:253-260 | a body read back gives exactly six values, none holding a newline, or nothing |
| CoreCredentials.CredentialObjects | dataworkspace/dataworkspace/apps/core/utils.py:239-266 | nothing is written without a bucket, and one object per credential otherwise |
| CoreCredentials.CredentialObjectAt | dataworkspace/dataworkspace/apps/core/utils.py:251-266 | the i-th object holds the i-th credential's document under its key in the user's folder |
| CoreCredentials.CredentialKeysDistinct | dataworkspace/dataworkspace/apps/core/utils.py:252 | credentials for databases with different names go to different keys |
| CoreCredentials.WriteCredentialsToBucket | dataworkspace/dataworkspace/apps/core/utils.py:239-266 | the loop puts exactly the objects the specification function gives |
| CoreCredentials.DataStudioImpliesSchemaTable | dataworkspace/dataworkspace/apps/core/utils.py:269-309 | the Data Studio check never admits more than the schema-table check on the same table |
| CoreCredentials.AccessibleTablesProvisioned | dataworkspace/dataworkspace/apps/core/utils.py:269-332 | every table a non-superuser may read by the schema-table check is among the tables provisioned for them |
| CoreCredentials.CanAccessSchemaTable | dataworkspace/dataworkspace/apps/core/utils.py:269-286 | a table that no source table names is refused, and every table is refused while no dataset is both live and published |
| CoreCredentials.CanAccessTableByGoogleDataStudio | dataworkspace/dataworkspace/apps/core/utils.py:289-309 | only an existing source table flagged for Data Studio can be admitted; an unknown id or an unflagged table gives False |
| CoreCredentials.ProvisionedLiveTablesAccessible | dataworkspace/dataworkspace/apps/core/utils.py:269-325 | a provisioned table of a live dataset passes the schema-table check |
| CoreCredentials.SourceTablesForUser | dataworkspace/dataworkspace/apps/core/utils.py:312-332 | every user gets the tables of every published dataset open to all signed-in users, and the external table, in schema public, of every live published reference dataset that has one |
| CoreCredentials.SourceTablesForApp | dataworkspace/dataworkspace/apps/core/utils.py:335-353 | every application gets the external table, in schema public, of every live published reference dataset that has one |
| CoreCredentials.DeletedDatasetStillProvisioned | dataworkspace/dataworkspace/apps/core/utils.py:269-325 | a deleted but published dataset's table is provisioned though the schema-table check refuses it |
| CoreCredentials.AppTablesOfPublishedDatasets | dataworkspace/dataworkspace/apps/core/utils.py:335-356 | an application is given every table of a published dataset open to all signed-in users, whatever its template, and the tables of an authorisation-only published dataset once its template holds a permission row |
| CoreViews.TableDataDecision | dataworkspace/dataworkspace/apps/core/views.py:72-90 | anything but GET is not allowed; a GET without access to the table is forbidden; a table is streamed exactly for a GET with access to a name that is a view or a table |
| CoreViews.NotFoundOnlyWhenMissing | dataworkspace/dataworkspace/apps/core/views.py:87-88 | not found exactly for an accessible GET of a name that is neither view nor table |
| CoreViews.EventLog.constructor | dataworkspace/dataworkspace/apps/core/views.py:77-82 | an empty event log |
| CoreViews.EventLog.TableDataView | dataworkspace/dataworkspace/apps/core/views.py:72-90 | every attempt, refused ones included, logs one table-download event before the checks, and the answer is the decision's |
| CoreViews.Healthcheck | dataworkspace/dataworkspace/apps/core/views.py:44-45 | status 200 and body 'OK' |
| CoreViews.Error500 | dataworkspace/dataworkspace/apps/core/views.py:39-41 | status 500 with error_500.html, showing the request's message exactly when it gives one |
| CatalogueViews.SearchFrom | dataworkspace/dataworkspace/apps/catalogue/views.py:58-69 | the dict lookup with an empty default, from a given entry on: at most one pair, that of the entry with the slug, empty exactly when no later entry has it |
| CatalogueViews.GroupSearch | dataworkspace/dataworkspace/apps/catalogue/views.py:58-69 | a known group gives its one search parameter and value; any other group gives none |
| CatalogueViews.GroupSearchesUnquoted | dataworkspace/dataworkspace/apps/catalogue/views.py:58-66 | the table's parameter names hold no space and its values no '+' |
| CatalogueViews.QuotePlus | dataworkspace/dataworkspace/apps/catalogue/views.py:72 | encoding keeps the length and turns exactly the spaces into '+' |
| CatalogueViews.UnquotePlus | dataworkspace/dataworkspace/apps/catalogue/views.py:72 | decoding keeps the length and turns exactly the '+' into spaces |
| CatalogueViews.QuotePlusRoundTrip | dataworkspace/dataworkspace/apps/catalogue/views.py:72 | decoding the encoded text gives it back when it held no '+' |
| CatalogueViews.UrlEncode | dataworkspace/dataworkspace/apps/catalogue/views.py:72 | the encoded query string is empty exactly when there are no parameters |
| CatalogueViews.GroupRedirect | dataworkspace/dataworkspace/apps/catalogue/views.py:56-73 | always a redirect to the find-datasets page; an unknown group gets a bare '?' |
| CatalogueViews.PairDecodes | dataworkspace/dataworkspace/apps/catalogue/views.py:72 | one encoded pair reads back as its key, '=' and its value |
| CatalogueViews.GroupRedirectDecodes | dataworkspace/dataworkspace/apps/catalogue/views.py:56-73 | a known group's redirect query decodes to the group's search parameter and value |
| CatalogueViews.ReferenceGroupRedirect | dataworkspace/dataworkspace/apps/catalogue/views.py:65-72 | the reference data group redirects with `?use=0` |
| CatalogueViews.FullPathLookup | dataworkspace/dataworkspace/apps/catalogue/views.py:76-79 | the lookup succeeds exactly when one published dataset has the group and slug, and names that dataset; the deleted flag is not looked at |
| CatalogueViews.FullPathMissing | dataworkspace/dataworkspace/apps/catalogue/views.py:76-79 | with no published dataset of the group and slug the full path is the 404 |
| CatalogueViews.FullPathAmbiguous | dataworkspace/dataworkspace/apps/catalogue/views.py:76-79 | with two published datasets of the group and slug the full path is MultipleObjectsReturned |
| CatalogueViews.FullPathFindsDeleted | dataworkspace/dataworkspace/apps/catalogue/views.py:78 | a deleted but published dataset alone under its group and slug is still found |
| CatalogueViews.ReferenceLookup | dataworkspace/dataworkspace/apps/catalogue/views.py:85-92 | the one published, undeleted reference dataset of the group with the slug; a 404 exactly when there is none, and otherwise only the several-objects error |
| CatalogueViews.ReferenceDetail | dataworkspace/dataworkspace/apps/catalogue/views.py:94-95 | a redirect to a published, undeleted reference dataset's page, failing exactly when the lookup does |
| CatalogueViews.FindBySlugsAsWritten | dataworkspace/dataworkspace/apps/catalogue/views.py:161-163 | the downloads' lookup as written never yields a dataset: a group slug that is not a UUID is a validation error, a UUID naming no live dataset is the 404, and a UUID naming a live dataset raises AttributeError because `has_perm` is looked up on the set slug |
| CatalogueViews.FindBySlugs | dataworkspace/dataworkspace/apps/catalogue/views.py:161-163 | the intended lookup yields the one live dataset of the group with the slug that the visibility rule shows the user, and 404 exactly when there is none or the rule hides it |
| CatalogueViews.SlugLookupDiscrepancy | dataworkspace/dataworkspace/apps/catalogue/views.py:161-163 | a published live dataset alone under its group and slug is found by the intended lookup and never by the one as written |
| CatalogueViews.ReferenceDownload | dataworkspace/dataworkspace/apps/catalogue/views.py:98-154 | a format other than json or csv is a 404 and a failed lookup its error, both changing nothing; otherwise one download event and one count are added and the attachment carries the flattened records under the slug-version-format name |
| CatalogueViews.SourceLinkDownload | dataworkspace/dataworkspace/apps/catalogue/views.py:157-204 | with the intended slug lookup (see Findings): lookup, then access (403), then the dataset's link (404); only then is the download logged and counted, and an external link redirects |
| CatalogueViews.SourceViewDownload | dataworkspace/dataworkspace/apps/catalogue/views.py:207-259 | with the intended slug lookup (see Findings): lookup, then the dataset's view (404), access (403) and the view's presence (404); only then logged, counted and streamed |
| CatalogueViews.CustomQueryDownload | dataworkspace/dataworkspace/apps/catalogue/views.py:262-291 | with the intended slug lookup (see Findings): lookup, then access (403), then the dataset's query (404); only then logged, counted and streamed |
| DatasetsAdmin.AccessTypeOf | dataworkspace/dataworkspace/apps/datasets/admin.py:124-128 | the box ticked means REQUIRES_AUTHORIZATION and unticked REQUIRES_AUTHENTICATION |
| DatasetsAdmin.DatasetAdmin.constructor | dataworkspace/dataworkspace/apps/datasets/admin.py:68 | the saved datasets as given, with an empty history |
| DatasetsAdmin.DatasetAdmin.SaveModel | dataworkspace/dataworkspace/apps/datasets/admin.py:122-142 | the dataset is saved with the access type of the box, and a history entry is added exactly when that type differs from the one it had |
| DatasetsAdmin.LogFor | dataworkspace/dataworkspace/apps/datasets/admin.py:131-142 | one entry, by the user on the dataset naming its new type, exactly when the type changed; none otherwise |
| DatasetsAdmin.SaveTwiceLogsOnce | dataworkspace/dataworkspace/apps/datasets/admin.py:122-142 | saving again with the same box writes no second entry |
| DatasetsAdmin.AccessTypeNamesDiffer | dataworkspace/dataworkspace/apps/datasets/admin.py:124-128 | the two access types are saved under different names |
| DatasetsAdmin.PublishedVersionShown | dataworkspace/dataworkspace/apps/datasets/admin.py:242-245 | version '0.0' is shown as ' - ' and any other version as itself |
| DatasetsAdmin.PublishedVersionShownInjective | dataworkspace/dataworkspace/apps/datasets/admin.py:242-245 | the column tells versions apart unless one is spelt ' - ' |
| DatasetsAdmin.ReadonlyFields | dataworkspace/dataworkspace/apps/datasets/admin.py:240-256 | the version is always read-only and the table name exactly when the reference dataset exists |
| DatasetsAdmin.SaveFormset | dataworkspace/dataworkspace/apps/datasets/admin.py:258-263 | every field row is updated by the user and, only when the reference dataset is being added, created by the user; created-by is otherwise kept |
| DatasetsAdmin.LinkedDatasetChoices | dataworkspace/dataworkspace/apps/datasets/admin.py:188-194 | the linked-dataset field of a reference dataset being edited offers exactly every other reference dataset; any other field keeps its default choices |
| DatasetsAdmin.LinkedChoicesDropOne | dataworkspace/dataworkspace/apps/datasets/admin.py:193 | of distinct reference datasets exactly one, the edited one, is left out |
| DatasetsMigration.OriginalName | dataworkspace/dataworkspace/apps/datasets/migrations/0004_auto_20190813_1536.py:9 | 'refdata__' followed by the id in decimal |
| DatasetsMigration.Underscored | dataworkspace/dataworkspace/apps/datasets/migrations/0004_auto_20190813_1536.py:11 | the slug with every '-' made '_' and every other character kept |
| DatasetsMigration.NewName | dataworkspace/dataworkspace/apps/datasets/migrations/0004_auto_20190813_1536.py:11 | 'ref_' and the slug, four longer than the slug, with no '-' left and every other slug character in place |
| DatasetsMigration.NewNameNotOriginal | dataworkspace/dataworkspace/apps/datasets/migrations/0004_auto_20190813_1536.py:9-11 | a new name is never an original name, so the rename never has the same source and target |
| DatasetsMigration.NewNameSeparatesSlugs | dataworkspace/dataworkspace/apps/datasets/migrations/0004_auto_20190813_1536.py:11 | two slugs get the same table name exactly when they agree up to '-' against '_' |
| DatasetsMigration.Migrated | dataworkspace/dataworkspace/apps/datasets/migrations/0004_auto_20190813_1536.py:10-14 | a row with no table name or its original one gets the new name and the next schema version; any other row is unchanged; id and slug always kept |
| DatasetsMigration.MigratedIdempotent | dataworkspace/dataworkspace/apps/datasets/migrations/0004_auto_20190813_1536.py:10-14 | a migrated row needs no further rename |
| DatasetsMigration.AlterTable | dataworkspace/dataworkspace/apps/datasets/migrations/0004_auto_20190813_1536.py:15-19 | the table moves to the new name when it exists and the name is free; otherwise the database refuses and no table changes, which is what skipping the refused rename leaves; the number of tables is kept |
| DatasetsMigration.VisitNext | dataworkspace/dataworkspace/apps/datasets/migrations/0004_auto_20190813_1536.py:8 | one more row visited: its rename and its progress line come after the earlier ones' |
| DatasetsMigration.RenameAllKeepsCount | dataworkspace/dataworkspace/apps/datasets/migrations/0004_auto_20190813_1536.py:15-19 | the migration neither creates nor drops a table |
| DatasetsMigration.RenameAll | dataworkspace/dataworkspace/apps/datasets/migrations/0004_auto_20190813_1536.py:8-19 | a table that no visited row names as its original `refdata__<id>` table survives the migration |
| DatasetsMigration.RenameAllUntouched | dataworkspace/dataworkspace/apps/datasets/migrations/0004_auto_20190813_1536.py:10 | rows that need no rename leave the tables alone and print nothing |
| DatasetsMigration.RenameForMovesTable | dataworkspace/dataworkspace/apps/datasets/migrations/0004_auto_20190813_1536.py:15-17 | a renamed row whose original table exists and whose new name is free has its table under the new name afterwards |
| DatasetsMigration.ReferenceTables.constructor | dataworkspace/dataworkspace/apps/datasets/migrations/0004_auto_20190813_1536.py:7-8 | the rows and tables as given, nothing printed yet |
| DatasetsMigration.ReferenceTables.VisitRow | dataworkspace/dataworkspace/apps/datasets/migrations/0004_auto_20190813_1536.py:9-19 | with the intended skip-and-continue (see Findings), one pass of the loop: the row is saved migrated, its progress line printed and its table renamed, a refused rename leaving the tables alone |
| DatasetsMigration.ReferenceTables.GenerateTableName | dataworkspace/dataworkspace/apps/datasets/migrations/0004_auto_20190813_1536.py:6-19 | with the intended skip-and-continue (see Findings), every row is migrated, the tables are renamed and the lines printed in row order, as the specification functions give |
| DatasetsMigration.RefusedRenameSkipped | dataworkspace/dataworkspace/apps/datasets/migrations/0004_auto_20190813_1536.py:15-19 | under the intended skip-and-continue a rename the database refuses leaves the tables as they were |
| DatasetsMigration.RunAsWritten | dataworkspace/dataworkspace/apps/datasets/migrations/0004_auto_20190813_1536.py:8-19 | the migration as written on PostgreSQL: when it commits, the tables and printed lines are those of the renames in row order; when it is rolled back, only printed lines survive, never more than the full run would print |
| DatasetsMigration.AsWrittenCommitsWithoutRefusal | dataworkspace/dataworkspace/apps/datasets/migrations/0004_auto_20190813_1536.py:8-19 | as written, a migration in which no rename is refused commits exactly the renames and lines of the intended one |
| DatasetsMigration.AsWrittenRollsBackOnRefusal | dataworkspace/dataworkspace/apps/datasets/migrations/0004_auto_20190813_1536.py:15-19 | as written, one rename refused after the earlier rows' renames rolls the whole migration back |
| DatasetsMigration.CollidingSlugsRollBack | dataworkspace/dataworkspace/apps/datasets/migrations/0004_auto_20190813_1536.py:11-19 | slugs 'a-b' and 'a_b' both map to 'ref_a_b': as written the second rename is refused and the migration is rolled back, while the intended one renames the first table and keeps the second |
| DatasetsMigration.MigrationRerunIsNoop | dataworkspace/dataworkspace/apps/datasets/migrations/0004_auto_20190813_1536.py:10 | running the migration again over its own result renames nothing and prints nothing |
| DatasetsUtils.ManagePermission | dataworkspace/dataworkspace/apps/datasets/utils.py:20-25 | the reference, master and datacut types map to their own manage-unpublished permissions; any other type raises KeyError |
| DatasetsUtils.ManagePermissionInjective | dataworkspace/dataworkspace/apps/datasets/utils.py:20-25 | each type has a permission of its own |
| DatasetsUtils.ManagesType | dataworkspace/dataworkspace/apps/datasets/utils.py:11 | whether the user holds the type's permission, raising exactly for a type without one |
| DatasetsUtils.FindDataset | dataworkspace/dataworkspace/apps/datasets/utils.py:8-17 | the live dataset with the id is returned exactly when its type has a permission and it is published or the user holds that permission; the 404 exactly when it is missing, deleted, or unpublished for a user without the permission |
| DatasetsUtils.FindDatasetVisibility | dataworkspace/dataworkspace/apps/datasets/utils.py:8-17 | every user finds a published live dataset; only managers find an unpublished one |
| DatasetsViews.VisibilityClauses | dataworkspace/dataworkspace/apps/datasets/views.py:72-93 | the accumulated filter admits a row exactly when it is published, or unpublished and of a type whose manage permission the user holds and which the uses do not rule out |
| DatasetsViews.AdmitsAppend | dataworkspace/dataworkspace/apps/datasets/views.py:80-93 | a clause added with the in-place or admits what it admits on top of the earlier ones |
| DatasetsViews.FilterDatasets | dataworkspace/dataworkspace/apps/datasets/views.py:66-108 | exactly the live rows that are visible to the user and pass the query, source and use filters that were given |
| DatasetsViews.FindDatasets | dataworkspace/dataworkspace/apps/datasets/views.py:111-131 | an invalid form redirects; otherwise the listing is the filtered datasets, merged with the reference datasets (filtered without uses) exactly when no use is asked for or the reference type is one |
| DatasetsViews.PublishedAlwaysListed | dataworkspace/dataworkspace/apps/datasets/views.py:72-108 | any user finds a published row that the search's filters accept |
| DatasetsViews.UnpublishedNeedsManager | dataworkspace/dataworkspace/apps/datasets/views.py:82-93 | an unpublished dataset is listed only if it is master or data-cut, the user holds its type's permission and the uses allow its type |
| DatasetsViews.EmptySearchListsVisible | dataworkspace/dataworkspace/apps/datasets/views.py:66-108 | with no query, source or use the listing is exactly the visible rows |
| DatasetsViews.DetailObject | dataworkspace/dataworkspace/apps/datasets/views.py:145-165 | a live reference dataset with the uuid is shown when published or to a reference manager; otherwise the lookup is find_dataset's; anything else is the 404 |
| DatasetsViews.ReferenceLookedUpFirst | dataworkspace/dataworkspace/apps/datasets/views.py:149-153 | a live published reference dataset hides a dataset with the same id |
| DatasetsViews.Preview | dataworkspace/dataworkspace/apps/datasets/views.py:171-178 | the record count, the preview limit as the smaller of the count and the configured size, and exactly the first records up to it |
| DatasetsViews.Flatten | dataworkspace/dataworkspace/apps/datasets/views.py:316-329 | a record's row has exactly the keys its fields write |
| DatasetsViews.FlattenField | dataworkspace/dataworkspace/apps/datasets/views.py:318-329 | with separate keys, a plain field's value is under its name and a foreign key's identifier and display name under its two keys, both null without a linked record |
| DatasetsViews.WriteFieldOwn | dataworkspace/dataworkspace/apps/datasets/views.py:322-329 | what one field writes under its own keys |
| DatasetsViews.WriteFieldElsewhere | dataworkspace/dataworkspace/apps/datasets/views.py:318-329 | a field leaves the entries under other keys alone |
| DatasetsViews.FlattenRecords | dataworkspace/dataworkspace/apps/datasets/views.py:315-330 | the nested loops give one row per record, each the record's flattening |
| DatasetsViews.StoredFileResponse | dataworkspace/dataworkspace/apps/datasets/views.py:389-399 | the bucket's object streams under the link's base name; a client error answers its status, or 500 when it carries none |
| DatasetsViews.CountDataset | dataworkspace/dataworkspace/apps/datasets/views.py:383-384 | one more download of that dataset, nothing else changed |
| DatasetsViews.CountReference | dataworkspace/dataworkspace/apps/datasets/views.py:348-349 | one more download of that reference dataset, nothing else changed |
| DatasetsViews.CountDatasetByOne | dataworkspace/dataworkspace/apps/datasets/views.py:383-384 | a download adds exactly one to its own dataset's count and leaves every other count alone |
| DatasetsViews.LinkOf | dataworkspace/dataworkspace/apps/datasets/views.py:375 | a link with the id that belongs to the dataset, none exactly when there is no such link |
| DatasetsViews.ViewOf | dataworkspace/dataworkspace/apps/datasets/views.py:417 | a view with the id that belongs to the dataset, none exactly when there is no such view |
| DatasetsViews.QueryOf | dataworkspace/dataworkspace/apps/datasets/views.py:457 | a query with the id that belongs to the dataset, none exactly when there is no such query |
| DatasetsViews.AttachmentName | dataworkspace/dataworkspace/apps/datasets/views.py:334-336 | the file name starts with the slug and '-' and ends with '.' and the format |
| DatasetsViews.DatasetsSite.constructor | dataworkspace/dataworkspace/apps/datasets/views.py:300 | the catalogue and data links as given, with an empty event log |
| DatasetsViews.DatasetsSite.ReferenceDownload | dataworkspace/dataworkspace/apps/datasets/views.py:300-363 | a bad format or a missing live reference dataset (published unless superuser) is a 404 and changes nothing; otherwise one event and one count are added and the attachment carries the flattened records |
| DatasetsViews.DatasetsSite.SourceLinkDownload | dataworkspace/dataworkspace/apps/datasets/views.py:366-401 | find_dataset, then access (403), then the dataset's link (404), each failure changing nothing; then the download is logged and counted before the link is followed |
| DatasetsViews.DatasetsSite.SourceViewDownload | dataworkspace/dataworkspace/apps/datasets/views.py:404-446 | find_dataset, then the dataset's view (404), access (403), the view's presence (404); then logged, counted and streamed |
| DatasetsViews.DatasetsSite.CustomQueryDownload | dataworkspace/dataworkspace/apps/datasets/views.py:448-473 | find_dataset, access (403), the dataset's query (404), an unreviewed query for a non-superuser (403); then logged, counted and streamed |
| DwAdminForms.FormsetClean | dataworkspace/dataworkspace/apps/dw_admin/forms.py:62-93 | the formset's check either passes or gives one of its five messages |
| DwAdminForms.IdentifierCount | dataworkspace/dataworkspace/apps/dw_admin/forms.py:50-72 | the identifier flags of live forms: none collected exactly when no live form is the identifier, more than one exactly when two are |
| DwAdminForms.ColumnsCheck | dataworkspace/dataworkspace/apps/dw_admin/forms.py:74-77 | the live column names collected are duplicate-free exactly when no two live forms share a non-blank column name |
| DwAdminForms.NamesCheck | dataworkspace/dataworkspace/apps/dw_admin/forms.py:79-86 | the names of all forms, deleted ones included, are duplicate-free exactly when no two named forms share a name |
| DwAdminForms.DisplayNameCount | dataworkspace/dataworkspace/apps/dw_admin/forms.py:88-93 | no display-name flag is collected exactly when no live form is a display name |
| DwAdminForms.FormsetCleanMessages | dataworkspace/dataworkspace/apps/dw_admin/forms.py:62-93 | each of the five messages is given exactly when the earlier checks pass and its own fails; the formset passes exactly when the fields are well formed (one identifier, distinct columns and names, at least one display name) |
| DwAdminForms.DeletedFormStillNamed | dataworkspace/dataworkspace/apps/dw_admin/forms.py:80-84 | adding a deleted, named form to well-formed fields passes exactly when its name differs from every other form's |
| DwAdminForms.DeletedFormKeepsLiveChecks | dataworkspace/dataworkspace/apps/dw_admin/forms.py:56-60 | a form marked for deletion leaves the identifier, column and display-name checks as they were |
| DwAdminForms.DeletedFormNames | dataworkspace/dataworkspace/apps/dw_admin/forms.py:80-86 | a deleted form's name still takes part in the name uniqueness check |
| DwAdminForms.CleanLinkedDataset | dataworkspace/dataworkspace/apps/dw_admin/forms.py:145-193 | a non-foreign-key field keeps its link; for a foreign key each refusal (no link, link to itself, changed link while the column holds data, other external database, circular link) is given exactly when the earlier ones pass and its own condition holds |
| DwAdminForms.AcceptedLink | dataworkspace/dataworkspace/apps/dw_admin/forms.py:145-193 | an accepted foreign key links to another dataset, on the parent's external database when it has one, not circularly, and keeps its saved link while the column holds data |
| DwAdminForms.CleanDataType | dataworkspace/dataworkspace/apps/dw_admin/forms.py:195-229 | a new field takes any type; a saved field is refused leaving or entering the foreign key type, or changing type while its column holds data, each with its message |
| DwAdminForms.SavedFieldType | dataworkspace/dataworkspace/apps/dw_admin/forms.py:199-227 | an accepted saved field is a foreign key after exactly when before, and keeps its type while its column holds data |
| DwAdminForms.CleanIsIdentifier | dataworkspace/dataworkspace/apps/dw_admin/forms.py:231-241 | refused exactly when a foreign key field is flagged as the identifier; otherwise the flag is returned as given |
| DwAdminForms.OtherReserved | dataworkspace/dataworkspace/apps/dw_admin/forms.py:250-252 | the names listed in the message are the reserved names other than the one given |
| DwAdminForms.CleanColumnName | dataworkspace/dataworkspace/apps/dw_admin/forms.py:243-257 | a reserved name is refused with its message; a saved field's non-blank column name may not change; otherwise the name is returned |
| DwAdminForms.ReservedMessageListsOthers | dataworkspace/dataworkspace/apps/dw_admin/forms.py:246-254 | the reserved-name message lists the three other reserved names |
| DwAdminForms.LowerAll | dataworkspace/dataworkspace/apps/dw_admin/forms.py:301 | each header lower-cased, in order |
| DwAdminForms.CleanUploadHeaders | dataworkspace/dataworkspace/apps/dw_admin/forms.py:299-308 | a file without a header row raises; otherwise the upload passes exactly when every editable field's name, lower-cased, is among the lower-cased headers |
| DwAdminForms.LowerIdempotent | dataworkspace/dataworkspace/apps/dw_admin/forms.py:301-302 | lower-casing twice is lower-casing once |
| DwAdminForms.UploadHeadersIgnoreCase | dataworkspace/dataworkspace/apps/dw_admin/forms.py:299-308 | lower-casing the headers first does not change the outcome of the header check |
| DwAdminForms.UploadOwnHeaders | dataworkspace/dataworkspace/apps/dw_admin/forms.py:299-308 | a file whose headers are the editable fields' names is accepted |
| DwAdminForms.CleanIdentifier | dataworkspace/dataworkspace/apps/dw_admin/forms.py:311-330 | an uncleaned identifier column raises KeyError; otherwise the value is refused exactly when another record (any record, for a new one) holds it, and returned otherwise |
| DwAdminForms.IdentifierKeptByItsRecord | dataworkspace/dataworkspace/apps/dw_admin/forms.py:322-330 | with unique identifiers, a record saved with its own identifier is accepted |
| DwAdminForms.NewRecordIdentifierTaken | dataworkspace/dataworkspace/apps/dw_admin/forms.py:322-329 | a new record reusing an existing record's identifier is refused |
| DwAdminForms.Conflicts | dataworkspace/dataworkspace/apps/dw_admin/forms.py:273-277 | a record is a conflict exactly when some linking field's dataset holds it and its link in that field's column points at the target |
| DwAdminForms.ConflictsStep | dataworkspace/dataworkspace/apps/dw_admin/forms.py:274-277 | one more linking field appends that field's pointing records to the conflicts found so far |
| DwAdminForms.CleanRowDelete | dataworkspace/dataworkspace/apps/dw_admin/forms.py:267-285 | the delete form fails exactly when there are conflicts, listing them all in order |
| DwAdminForms.DeleteAllowed | dataworkspace/dataworkspace/apps/dw_admin/forms.py:267-285 | a record may be deleted exactly when no record of any linking field points at it |
| DwAdminForms.QueryInlineForm.constructor | dataworkspace/dataworkspace/apps/dw_admin/forms.py:407-411 | the form holds the cleaned and saved review flags, the changed fields and the dataset's publication |
| DwAdminForms.QueryInlineForm.Clean | dataworkspace/dataworkspace/apps/dw_admin/forms.py:410-434 | an unreviewed query of a published dataset is refused with its message and nothing changes; editing anything but the review of a reviewed query of an unpublished dataset withdraws the review in the cleaned data and on the saved query; a published dataset never ends with an unreviewed query |
| DwAdminForms.CleanVisualisationIdentifier | dataworkspace/dataworkspace/apps/dw_admin/forms.py:528-542 | without a type any identifier is returned; a QuickSight link raises on a missing identifier and is refused exactly when the identifier is not a UUID; otherwise the identifier is returned |
| ExplorerModels.FindFirst | dataworkspace/dataworkspace/apps/explorer/views.py:457-458 | the row found is in the table and satisfies the filter; none is found exactly when no row does |
| ExplorerModels.OwnedQuery | dataworkspace/dataworkspace/apps/explorer/views.py:251-253 | the query found has the id and belongs to the user; none (the 404) exactly when no query of the user has that id |
| ExplorerModels.OwnedLog | dataworkspace/dataworkspace/apps/explorer/views.py:257-259 | the log found has the id and was run by the user; none exactly when no log of the user has that id |
| ExplorerModels.ForeignQueryNotFound | dataworkspace/dataworkspace/apps/explorer/views.py:442 | with distinct ids, another user's query id is answered as a missing one |
| ExplorerModels.PlaygroundForRequest | dataworkspace/dataworkspace/apps/explorer/views.py:454-463 | no lookup without a non-empty play_id; a play_id that is not an integer raises; otherwise the row found is the user's row with that id, and none is found exactly when the user has no such row |
| ExplorerModels.Matching | dataworkspace/dataworkspace/apps/explorer/views.py:297-299 | the rows matched are exactly the user's rows holding that SQL |
| ExplorerModels.MatchingAfterCreate | dataworkspace/dataworkspace/apps/explorer/views.py:297-299 | after a row is created for SQL with no match, the next lookup finds that row alone |
| ExplorerModels.ExplorerStore.constructor | dataworkspace/dataworkspace/apps/explorer/views.py:297-299 | an empty store, whose playground ids are valid |
| ExplorerModels.ExplorerStore.GetOrCreatePlayground | dataworkspace/dataworkspace/apps/explorer/views.py:297-300 | with no matching row a new row with the next id is appended and returned; with one match its id is returned and nothing changes; with several MultipleObjectsReturned is raised; the other tables are untouched and playground ids stay distinct |
| ExplorerUtils.GetTotalPages | dataworkspace/dataworkspace/apps/explorer/utils.py:202-208 | one page when either count is missing or zero; otherwise the least page count whose pages hold every row |
| ExplorerUtils.CeilingBounds | dataworkspace/dataworkspace/apps/explorer/utils.py:205-208 | the quotient plus one for a remainder is the ceiling of rows over page size |
| ExplorerUtils.GetTotalPagesExamples | dataworkspace/dataworkspace/apps/explorer/utils.py:202-208 | the page counts the explorer's tests expect (80 rows in 8 or 16 pages, 81 in 9, 79 in 8, a missing count in 1) |
| ExplorerUtils.WithoutUnderscores | dataworkspace/dataworkspace/apps/explorer/utils.py:50-54 | a literal of digits and underscores leaves only digits once its underscores are removed |
| ExplorerUtils.ParseIntOfDigits | dataworkspace/dataworkspace/apps/explorer/utils.py:50-54 | a string of decimal digits reads as its value |
| ExplorerUtils.NoUnderscoreInDigits | dataworkspace/dataworkspace/apps/explorer/utils.py:50-54 | removing underscores leaves a string of digits as it is |
| ExplorerUtils.GetIntFromRequest | dataworkspace/dataworkspace/apps/explorer/utils.py:57-59 | an empty value gives None; an absent one gives the default, or None for a zero default; otherwise the integer read, or the default when the value is not an integer |
| ExplorerUtils.ShowAndSaveDefaults | dataworkspace/dataworkspace/apps/explorer/utils.py:97-102 | showing is on when show is absent or not a number and off for 0 or an empty value; saving is off when save is absent |
| ExplorerUtils.UrlGetQueryId | dataworkspace/dataworkspace/apps/explorer/utils.py:89-90 | no query_id gives none; a non-empty one gives its int() reading, and none when that does not parse |
| ExplorerUtils.UrlGetLogId | dataworkspace/dataworkspace/apps/explorer/utils.py:93-94 | no querylog_id gives none; a non-empty one gives its int() reading, and none when that does not parse |
| ExplorerUtils.UrlGetShow | dataworkspace/dataworkspace/apps/explorer/utils.py:97-98 | a non-empty show value turns showing off exactly when it reads as the number 0 |
| ExplorerUtils.UrlGetSave | dataworkspace/dataworkspace/apps/explorer/utils.py:101-102 | a non-empty save value turns saving on exactly when it reads as a non-zero number |
| ExplorerUtils.UrlGetNumber | dataworkspace/dataworkspace/apps/explorer/utils.py:75-86 | an absent value gives the default; a value of decimal digits gives its number; anything else gives the default |
| ExplorerUtils.UrlGetNumberAgrees | dataworkspace/dataworkspace/apps/explorer/utils.py:75-86 | wherever the code as written answers, the corrected reading gives the same number |
| ExplorerUtils.VulgarHalfRaises | dataworkspace/dataworkspace/apps/explorer/utils.py:77-86 | the written code raises ValueError for a vulgar half, which isnumeric accepts and int refuses; the corrected reading gives the default |
| ExplorerUtils.UrlGetNumberAsWritten | dataworkspace/dataworkspace/apps/explorer/utils.py:75-86 | as written: nothing posted gives the default, and ValueError is raised only for a posted value that is numeric but not all decimal digits |
| ExplorerUtils.UrlGetNumberExamples | dataworkspace/dataworkspace/apps/explorer/utils.py:75-86 | letters fall back to page 1 and the default row count; digits are read |
| ExplorerUtils.GetParamsFromRequest | dataworkspace/dataworkspace/apps/explorer/utils.py:62-72 | the loop's dict is the one the entries describe, later keys winning, or None when params is absent or an entry has no colon |
| ExplorerUtils.NoneStaysNone | dataworkspace/dataworkspace/apps/explorer/utils.py:67-72 | once an entry without a colon is met the whole answer is None |
| ExplorerUtils.EntrySplits | dataworkspace/dataworkspace/apps/explorer/utils.py:68-69 | an entry key:value splits back into its key and value |
| ExplorerUtils.ParamsRoundTrip | dataworkspace/dataworkspace/apps/explorer/utils.py:62-72 | parameters written as key:value entries joined by a bar, from keys and values free of the separators read back as those pairs, a repeated key keeping its last value |
| ExplorerUtils.ParamsFromEntries | dataworkspace/dataworkspace/apps/explorer/utils.py:66-70 | the entries built from pairs read back as the pairs' dict |
| ExplorerUtils.ParamsExamples | dataworkspace/dataworkspace/apps/explorer/utils.py:62-72 | swap:1234567890 gives one entry; an entry without a colon, or no params, gives None |
| ExplorerUtils.MaterializedViewNameInjective | dataworkspace/dataworkspace/apps/explorer/utils.py:254-256 | two users' views for two queries share a name only for the same query id and the same short hash |
| ExplorerUtils.MaterializedViewName | dataworkspace/dataworkspace/apps/explorer/utils.py:254-256 | the view lies in the user's own schema and its name ends in `_mview` |
| ExplorerUtils.MaterializedViewNameExample | dataworkspace/dataworkspace/apps/explorer/utils.py:254-256 | the test user's view for query 1 is in its own schema |
| ExplorerUtils.CleanSql | dataworkspace/dataworkspace/apps/explorer/utils.py:268 | the SQL run is a prefix of the query's SQL that does not end in a semicolon |
| ExplorerUtils.QueryCommandsShape | dataworkspace/dataworkspace/apps/explorer/utils.py:271-294 | a run issues seven statements, eight with the MOVE past (page-1)*limit rows for a later page; the timeout is set first, the view dropped before it is created, the cursor declared on it, closed after the fetch and before the count |
| ExplorerUtils.QueryCommandsExample | dataworkspace/dataworkspace/apps/explorer/utils.py:271-294 | the statements for page 2 of 100 rows of a plain select |
| ExplorerUtils.MakeHeader | dataworkspace/dataworkspace/apps/explorer/utils.py:246-248 | a header's title has no surrounding whitespace |
| ExplorerUtils.Headers | dataworkspace/dataworkspace/apps/explorer/utils.py:234-240 | one header per described column, stripped; the single header -- when nothing is described |
| ExplorerUtils.PyIndex | dataworkspace/dataworkspace/apps/explorer/utils.py:243 | Python indexing: from the front for a non-negative index, from the end for a negative one, IndexError outside the row |
| ExplorerUtils.Column | dataworkspace/dataworkspace/apps/explorer/utils.py:242-243 | the column exists exactly when every row has the index, and then holds each row's cell in order |
| ExplorerUtils.ExplorerSession.constructor | dataworkspace/dataworkspace/apps/explorer/utils.py:263-264 | a cursor that has issued nothing and no query logs |
| ExplorerUtils.ExplorerSession.Issue | dataworkspace/dataworkspace/apps/explorer/utils.py:271-285 | the statements are sent in order up to and including the one that fails; nothing is logged |
| ExplorerUtils.ExplorerSession.ExecuteQuery | dataworkspace/dataworkspace/apps/explorer/utils.py:259-308 | a statement failing in the try block propagates with only the statements up to it sent and nothing logged; otherwise all statements are sent in order, a query log is created exactly when logging is asked for, and the result carries the query's SQL, paging and the database's answers |
| ExplorerTasks.TruncateQueryLogs | dataworkspace/dataworkspace/apps/explorer/tasks.py:15-20 | exactly the logs run strictly before now minus the given days are deleted, the rest kept in order; no other table changes |
| ExplorerTasks.TruncateTwice | dataworkspace/dataworkspace/apps/explorer/tasks.py:16-19 | truncating again at the same moment deletes nothing more |
| ExplorerTasks.DeleteStep | dataworkspace/dataworkspace/apps/explorer/tasks.py:34-35 | deleting one more row is filtering out one more row |
| ExplorerTasks.DeleteKeepsIds | dataworkspace/dataworkspace/apps/explorer/tasks.py:35 | deleting a row keeps playground ids distinct and below the next id |
| ExplorerTasks.CleanupPlaygroundSqlTable | dataworkspace/dataworkspace/apps/explorer/tasks.py:23-38 | the rows created at or before 14 days ago are deleted and counted; newer rows stay in order; no other table changes |
| ExplorerTasks.PlaygroundCleanupAccounts | dataworkspace/dataworkspace/apps/explorer/tasks.py:24-36 | rows deleted plus rows kept are the whole table, and a second run at the same moment deletes nothing |
| ExplorerTasks.Drops | dataworkspace/dataworkspace/apps/explorer/tasks.py:48-52 | one DROP statement per view, in order |
| ExplorerTasks.DropAt | dataworkspace/dataworkspace/apps/explorer/tasks.py:48-52 | the i-th statement drops the i-th view on its connection |
| ExplorerTasks.DropsStep | dataworkspace/dataworkspace/apps/explorer/tasks.py:48-52 | one more view appends its DROP and adds it to the views dropped |
| ExplorerTasks.DropViews | dataworkspace/dataworkspace/apps/explorer/tasks.py:48-52 | each view is dropped on its connection in order and no longer present; the explorer's tables are untouched |
| ExplorerTasks.CleanupMaterializedViews | dataworkspace/dataworkspace/apps/explorer/tasks.py:41-52 | the views of the queries last run at or before one day ago are dropped, each on its own connection, in query order; an absent view is no error |
| ExplorerTasks.StaleViewsDropped | dataworkspace/dataworkspace/apps/explorer/tasks.py:48-52 | every query last run at or before one day ago gets a DROP of its view |
| ExplorerTasks.OnlyStaleViewsDropped | dataworkspace/dataworkspace/apps/explorer/tasks.py:48-52 | every DROP is of such a query's view, so newer queries keep their views, and dropping again changes nothing |
| ExplorerViews.UserQueryLogs | dataworkspace/dataworkspace/apps/explorer/views.py:83-91 | exactly the user's own logs of saved queries the user created, in table order |
| ExplorerViews.FirstPerQueryCovers | dataworkspace/dataworkspace/apps/explorer/views.py:92-101 | the logs kept are logs of the queryset, one per query, and every query of the queryset has one kept |
| ExplorerViews.FirstPerQueryAreFirst | dataworkspace/dataworkspace/apps/explorer/views.py:98-100 | each log kept is the first log of its query in the queryset |
| ExplorerViews.FirstPerQuery | dataworkspace/dataworkspace/apps/explorer/views.py:98-100 | keeps only logs of the queryset and never more of them |
| ExplorerViews.FirstPerQueryPrefix | dataworkspace/dataworkspace/apps/explorer/views.py:94-100 | reading further through the queryset never changes the logs already kept |
| ExplorerViews.RecentlyViewed | dataworkspace/dataworkspace/apps/explorer/views.py:82-101 | the loop returns the first count logs of the queryset that are each the first of their query |
| ExplorerViews.UserQueryLogsNewestFirst | dataworkspace/dataworkspace/apps/explorer/views.py:89 | filtering logs ordered newest first keeps them newest first |
| ExplorerViews.RecentlyViewedMeaning | dataworkspace/dataworkspace/apps/explorer/views.py:82-101 | at most count logs, all the user's runs of the user's queries, one per query; with the logs newest first each is a latest run of its query; fewer than count only when every such query is there |
| ExplorerViews.RecentlyViewedLatest | dataworkspace/dataworkspace/apps/explorer/views.py:82-101 | with the logs newest first, no run of a returned log's query by the user is later than the returned log |
| ExplorerViews.KeptParams | dataworkspace/dataworkspace/apps/explorer/views.py:322-328 | the GET items kept are exactly those other than sql, querylog_id and play_id, in order |
| ExplorerViews.JoinNonEmpty | dataworkspace/dataworkspace/apps/explorer/views.py:331 | joined parameters starting with a non-empty field are non-empty |
| ExplorerViews.FormAction | dataworkspace/dataworkspace/apps/explorer/views.py:321-334 | the action starts with the request path and is the bare path exactly when no parameter is kept |
| ExplorerViews.FormActionFields | dataworkspace/dataworkspace/apps/explorer/views.py:321-334 | the query string after the path splits back into one encoded field per kept parameter, in order |
| ExplorerViews.QueryViewModel | dataworkspace/dataworkspace/apps/explorer/views.py:466-527 | an empty error text raises; results are shown exactly when the query ran without error, and are then the fetched ones; an error on a POST shows "Query error" with the error on the SQL field; rows, page and title are passed through; the page count follows the total rows |
| ExplorerViews.NotRunShowsNothing | dataworkspace/dataworkspace/apps/explorer/views.py:480-525 | a page not asked to run the query shows no results, one page and the given message |
| ExplorerViews.CreateQueryDispatch | dataworkspace/dataworkspace/apps/explorer/views.py:163-227 | edit and save are handled; any other action is refused with status 200 |
| ExplorerViews.QueryViewDispatch | dataworkspace/dataworkspace/apps/explorer/views.py:386-428 | save and edit are handled; any other action is refused with status 400 |
| ExplorerViews.UnknownActionStatuses | dataworkspace/dataworkspace/apps/explorer/views.py:226-227 | the same unknown action gets the same text with status 200 on the create page, where the status is passed in the content type's place, and 400 on a saved query's page (lines 427-428 of the same file) |
| ExplorerViews.PlayPost | dataworkspace/dataworkspace/apps/explorer/views.py:282-319 | a truthy query_id that is not the user's query answers 404 with nothing changed; save stores the SQL as the user's playground SQL and redirects with its id to the query's or the create page: when no row matches, a new row with the next id and the time is appended after the old rows, when one matches the table is unchanged and its id is used, when several match the answer is MultipleObjectsReturned; run and fetch-page render the playground; anything else answers 200 with a message; on save, on an unknown action and on the 404 only the playground table may change |
| YourFilesUtils.StripExtension | dataworkspace/dataworkspace/apps/your_files/utils.py:90 | the name without its extension is a prefix of it; a name without a dot is kept whole; otherwise the cut is at the last dot |
| YourFilesUtils.LastDot | dataworkspace/dataworkspace/apps/your_files/utils.py:90 | the index found is the last dot of the text; none exactly when the text has no dot |
| YourFilesUtils.Collapse | dataworkspace/dataworkspace/apps/your_files/utils.py:92 | no hyphen or whitespace is left once every run of them becomes one underscore |
| YourFilesUtils.CollapseAlphabet | dataworkspace/dataworkspace/apps/your_files/utils.py:92 | what the collapse leaves is an underscore or a character of the text |
| YourFilesUtils.TableNameAlphabet | dataworkspace/dataworkspace/apps/your_files/utils.py:89-92 | a table name holds only lower-case letters, digits and underscores |
| YourFilesUtils.S3PathToTableName | dataworkspace/dataworkspace/apps/your_files/utils.py:89-92 | no contract of its own: its meaning is stated by TableNameAlphabet, TableNameIdempotent and ExampleTableName |
| YourFilesUtils.StripKeeps | dataworkspace/dataworkspace/apps/your_files/utils.py:91 | stripping keeps only characters of the text |
| YourFilesUtils.LowerNoUpper | dataworkspace/dataworkspace/apps/your_files/utils.py:91 | lower-casing text without capitals changes nothing |
| YourFilesUtils.TableNameIdempotent | dataworkspace/dataworkspace/apps/your_files/utils.py:89-92 | a table name is its own table name |
| YourFilesUtils.PlainNameUnchanged | dataworkspace/dataworkspace/apps/your_files/utils.py:89-92 | text of table-name characters passes every step of the conversion unchanged |
| YourFilesUtils.TableNameCharFacts | dataworkspace/dataworkspace/apps/your_files/utils.py:90-92 | a table-name character is no slash, no dot, no separator, and survives the filter, the strip and the lower-casing |
| YourFilesUtils.SlugCharFacts | dataworkspace/dataworkspace/apps/your_files/utils.py:91 | a slug character survives the filter, the strip and the lower-casing |
| YourFilesUtils.CleanUnchanged | dataworkspace/dataworkspace/apps/your_files/utils.py:91 | text of such characters passes the filter, the strip and the lower-casing unchanged |
| YourFilesUtils.CleanedUnchanged | dataworkspace/dataworkspace/apps/your_files/utils.py:91 | such text is unchanged by the strip and the lower-casing |
| YourFilesUtils.NoSlashBaseName | dataworkspace/dataworkspace/apps/your_files/utils.py:90 | a text without a slash is its own last path segment |
| YourFilesUtils.ExampleTableName | dataworkspace/dataworkspace/apps/your_files/utils.py:89-92 | the file user/federated/abc/a-csv.csv becomes the table a_csv |
| YourFilesUtils.ExampleExtension | dataworkspace/dataworkspace/apps/your_files/utils.py:90 | a-csv.csv without its extension is a-csv |
| YourFilesUtils.ExampleCleaned | dataworkspace/dataworkspace/apps/your_files/utils.py:91-92 | a-csv is cleaned and collapsed to a_csv |
| YourFilesUtils.ExampleCollapse | dataworkspace/dataworkspace/apps/your_files/utils.py:92 | the hyphen of a-csv becomes an underscore |
| YourFilesUtils.CollapsePlain | dataworkspace/dataworkspace/apps/your_files/utils.py:92 | text without separators collapses to itself |
| YourFilesUtils.CollapseOneSeparator | dataworkspace/dataworkspace/apps/your_files/utils.py:92 | a lone separator before another character becomes one underscore |
| YourFilesUtils.CollapseKeeps | dataworkspace/dataworkspace/apps/your_files/utils.py:92 | a character that is no separator is kept |
| YourFilesUtils.BaseNameAfterSlash | dataworkspace/dataworkspace/apps/your_files/utils.py:90 | the last segment of a path ending in a slash and a name is that name |
| YourFilesUtils.PostgresType | dataworkspace/dataworkspace/apps/your_files/utils.py:16-44 | every inferred type maps to a Postgres type a table can have; an unknown one maps to text |
| YourFilesUtils.PostgresTypeKnown | dataworkspace/dataworkspace/apps/your_files/utils.py:16-23 | the six known types and their Postgres types, datetime becoming timestamp and number numeric |
| YourFilesUtils.Lines | dataworkspace/dataworkspace/apps/your_files/utils.py:30-32 | the sample holds at least one character per line |
| YourFilesUtils.SampleLines | dataworkspace/dataworkspace/apps/your_files/utils.py:30-34 | the loop's sample is the first lines, at most eleven, each followed by a newline |
| YourFilesUtils.LinesJoin | dataworkspace/dataworkspace/apps/your_files/utils.py:32 | the sample is the lines joined by newlines with a final newline |
| YourFilesUtils.JoinSnoc | dataworkspace/dataworkspace/apps/your_files/utils.py:32 | appending one line extends the joined sample by that line and a newline |
| YourFilesUtils.SampleSplits | dataworkspace/dataworkspace/apps/your_files/utils.py:30-36 | splitting the sample on newlines gives back the first eleven lines and the empty text after the last newline |
| YourFilesUtils.FieldMap | dataworkspace/dataworkspace/apps/your_files/utils.py:40-44 | every inferred field's name is a column |
| YourFilesUtils.FieldMapKeys | dataworkspace/dataworkspace/apps/your_files/utils.py:40-44 | every column is an inferred field's name |
| YourFilesUtils.FieldMapTypes | dataworkspace/dataworkspace/apps/your_files/utils.py:42-44 | every column's type is a Postgres type a table can have |
| YourFilesUtils.FieldMapLast | dataworkspace/dataworkspace/apps/your_files/utils.py:41-44 | a column takes the type of the last field of its name |
| YourFilesUtils.ColumnMap | dataworkspace/dataworkspace/apps/your_files/utils.py:40-45 | the type loop builds the field map of the inferred fields |
| YourFilesUtils.ColumnTypes | dataworkspace/dataworkspace/apps/your_files/utils.py:26-45 | the column types are the field map of what is inferred from the sample of the object's first lines |
| YourFilesForms.CleanPath | dataworkspace/dataworkspace/apps/your_files/forms.py:17-31 | a path outside the user's own folder is refused for permission; inside it, a path not ending in .csv is refused as the wrong type; a missing object raises; otherwise the path is returned as given |
| YourFilesForms.ForeignPathRefused | dataworkspace/dataworkspace/apps/your_files/forms.py:21-22 | a path in a folder of another user, whose hash differs, is refused for permission whatever its name and whether it exists |
| YourFilesForms.OwnCsvAccepted | dataworkspace/dataworkspace/apps/your_files/forms.py:17-31 | an existing CSV file in the user's own folder is accepted as named |
| YourFilesViews.FileName | dataworkspace/dataworkspace/apps/your_files/views.py:69-111 | the last slash-separated part of the path is its base name: no slash, a suffix of the path, preceded by a slash when shorter |
| YourFilesViews.CreateTableGet | dataworkspace/dataworkspace/apps/your_files/views.py:61-77 | not found with the flag off; a bad request naming path exactly when path is absent; otherwise the page with the path and its file name |
| YourFilesViews.FailedGet | dataworkspace/dataworkspace/apps/your_files/views.py:154-168 | not found with the flag off; a bad request naming filename exactly when it is absent; otherwise the failed page with the file name |
| YourFilesViews.FirstMissing | dataworkspace/dataworkspace/apps/your_files/views.py:134-138 | none exactly when every required parameter is present; otherwise a required parameter the query lacks |
| YourFilesViews.FirstMissingAt | dataworkspace/dataworkspace/apps/your_files/views.py:134-138 | the parameter named is the first one lacking, all before it present |
| YourFilesViews.StatusContext | dataworkspace/dataworkspace/apps/your_files/views.py:126-131 | the context holds exactly the required parameters present, with their values |
| YourFilesViews.StatusPageGet | dataworkspace/dataworkspace/apps/your_files/views.py:117-139 | not found with the flag off; the first missing required parameter named in a bad request; otherwise the status page with all four values |
| YourFilesViews.FormInvalid | dataworkspace/dataworkspace/apps/your_files/views.py:110-114 | a redirect to the failed page with the posted path's file name unencoded; a post without a path raises KeyError |
| YourFilesViews.CleanForm | dataworkspace/dataworkspace/apps/your_files/forms.py:11-31 | an absent or blank path fails as required, a path holding a null character fails by CharField's validator; otherwise the stripped path is cleaned by the form's path check |
| YourFilesViews.UserSchema | dataworkspace/dataworkspace/apps/your_files/views.py:86-88 | the user's schema is the user stem followed by the user's suffix |
| YourFilesViews.ValidatingParams | dataworkspace/dataworkspace/apps/your_files/views.py:100-105 | the redirect's parameters are the four required ones, in order |
| YourFilesViews.ParamsMap | dataworkspace/dataworkspace/apps/your_files/views.py:106-108 | the query read back has exactly the keys of the encoded pairs |
| YourFilesViews.ValidatingRedirectComplete | dataworkspace/dataworkspace/apps/your_files/views.py:100-124 | the redirect after a started import carries every parameter the status pages require |
| YourFilesViews.CreateTableFlow.constructor | dataworkspace/dataworkspace/apps/your_files/views.py:84-108 | no copies made and no imports started |
| YourFilesViews.CreateTableFlow.FormValid | dataworkspace/dataworkspace/apps/your_files/views.py:84-108 | the file is copied under the imports root and one import started with the user's schema, the table name, the sampled column types and a run id of schema, table and time; a refused start goes the way of an invalid form; a started one redirects to the validating page |
| YourFilesViews.CreateTableFlow.Post | dataworkspace/dataworkspace/apps/your_files/views.py:61-114 | not found with the flag off; an invalid form redirects to the failed page and a missing object raises, neither copying nor starting anything; a valid path, in the user's folder and ending in .csv, is copied once under the imports root and one import of its sampled columns is started; the answer is the failed-page redirect when the start is refused and otherwise the validating page's redirect |
| YourFilesViews.ForeignPathNotImported | dataworkspace/dataworkspace/apps/your_files/views.py:84-99 | a path in another user's folder is refused by the form and so never copied or imported |

## Left out

- The spawner backends (`get_spawner`, the asynchronous `stop.delay`, the Fargate task description) are not part of this model. Their answers are parameters: a state string, a task record, or a failure.
- The Prometheus CPU lookup `application_instance_max_cpu` (applications/utils.py:145-177) is HTTP plus floating point. The reaper receives its outcome, "maximum CPU" or "failure", as an input.
- The `gevent.sleep` grace waits in the backfill and the sweep are timing only and are not modelled.
- PostgreSQL itself is not modelled: privileges, event triggers, `LIKE` matching, materialised views and server cursors. Statements are abstract commands in a returned or recorded list. The only server-side rule kept is the ownership rule of the event trigger.
- `view_exists` and `table_exists` (core/utils.py:357-396) query the database. Their answers are parameters.
- `streaming_query_response` and `table_data` (core/utils.py:398-496) stream a CSV through gevent queues. The download is represented by its decision and a `TableStream` result.
- `create_s3_role` (core/utils.py:507-571) is AWS IAM with retries and is not modelled.
- `postgres_password` draws from `secrets`. The 64-character password and the 5-character user suffix are parameters, constrained to the stated alphabets.
- sha256 is a parameter function whose results have the shape of a lowercase 64-character hex digest. Its collision resistance is not assumed; lemmas that need two users apart require their digests to differ.
- The Data Explorer's credential cache and its lock (explorer/utils.py:121-199) are concurrency around `new_private_database_credentials` and are not modelled.
- The Data Explorer's formatting helpers `fmt_sql`, `param` and `safe_login_prompt`, and `get_edit_sql_url`, produce display text only and are not modelled.
- The Data Explorer's CSV/JSON exports, `DownloadFromQuerylogView`, `ListQueryLogView`, `QueryView.get` and the save and edit bodies of `CreateQueryView` render pages or files. Only the action dispatch of these views is modelled.
- ExplorerUtils.ExplorerSession.ExecuteQuery: `query_viewmodel` calls `execute_query` with arguments that `execute_query` in explorer/utils.py at this revision does not take. The model follows `execute_query` as written in explorer/utils.py.
- GitLab, Zendesk, S3 `get`/`put`/`copy`/`head` and the dataflow trigger `trigger_dataflow_dag` (your_files/utils.py:48-86) are HTTP calls. Their answers are parameters; `copy_file_to_uploads_bucket` (your_files/utils.py:95-101) is left out with them.
- The visualisation pages' rendering is left out, because it only shapes GitLab answers into templates. This covers `application_spawning_html_view` (applications/views.py:71-95), `visualisations_html_GET` (186-255), the rest of `visualisation_branch_html_GET` and `_POST` (355-383), `users_with_access_GET` (403-429), `give_access_GET` (489-503), `_visualisation_gitlab_project` (572-584) and `_render_visualisation` (634-656).
- `VisualisationApprovalForm.__init__` (applications/forms.py:176-188) changes the class-level widget table, and `VisualisationsUICatalogueItemForm.__init__` sets field options. Both are form machinery. Only the initial value of the authorisation box (applications/forms.py:155-159) is modelled.
- The dataset pages' `eligibility_criteria`, `request_access` and their success views (datasets/views.py:237-298), `get_context_data` and `get_template_names` build template context only and are not modelled.
- The admin's `clone_dataset`, `get_source_tags`, `get_queryset` overrides and inline declarations in datasets/admin.py are Django admin configuration and are not modelled.
- The core 404 and 403 pages, `about_page`, `SupportView` and the file browser render templates or call Zendesk and are not modelled.
- `CreateTableDAGStatusView` and the your-files browser page call the dataflow API or render templates and are not modelled.
- YourFilesViews.CreateTableFlow.FormValid: `clean_db_identifier` and the `dag_run_id` argument are imported from and passed to helpers that your_files/utils.py at this revision does not define. The identifier cleaner is a parameter, and the run id is not part of the redirect.
- YourFilesViews.FormInvalid: the failure redirect appends the file name to the query string without encoding it, as your_files/views.py:110-114 does. A name holding `&`, `#` or `=` therefore changes the query string in the source and in the model alike.
- YourFilesUtils.ColumnTypes: tableschema's type inference is a parameter. Each line's `str()` of the bytes read is represented by the line's text.
- YourFilesUtils.S3PathToTableName: Python's `\w` and `\s` are taken over ASCII only, and Unicode case folding is not modelled.
- The `waffle` feature flag that guards the file pages is a boolean parameter.
- DatasetsMigration.ReferenceTables.GenerateTableName: models the intended skip-and-continue, not the code as written. As written, on PostgreSQL a refused rename aborts the transaction, leaving the schema editor's savepoint then raises, and the whole migration is rolled back (RunAsWritten, see Findings). The migration's `print` output is the `messages` field. The no-op reverse is not modelled. Dataset ids are natural numbers.
- DatasetsMigration.ReferenceTables.VisitRow: carries on after a refused rename, as intended. The code as written aborts and rolls back the migration there on PostgreSQL (RunAsWritten).
- ORM ordering is the order of the input sequences. Clocks are parameters, and many-to-many rows are sets, so duplicate rows cannot be expressed.
- DatasetsViews.FilterDatasets: full-text search ranking and pagination are not modelled, and whether a row matches the search text is a parameter.
- CSV and JSON serialisation of downloads is not modelled: a download yields its rows as maps from field name to value.
- `uuid.UUID` parsing, Django's `EmailValidator` and the reference datasets' `has_circular_link` are parameters.
- Dataset types are integers, with the constant values of reference (0), master and data-cut datasets. The delete form's id conversion and the parent `clean` of Django's `SplitArrayField` are not modelled.
- An event records its user, its type and the id of its related object. The events' `extra` details are not modelled.
- CatalogueViews.QuotePlus: only the space-to-'+' rule of `quote_plus` is modelled. Percent-encoding of other characters is not.
- AccountsBackends.UserDirectory.FindOrCreate: the concurrent `IntegrityError` on setting `sso_id` is a parameter, because the race that raises it is not modelled.
- ApplicationsRegistry.InstanceRegistry.StopSpawnerAndApplication: a broker failure while enqueueing the stop is a parameter.
- ApplicationsRouter.ResolveHostSpec: host patterns containing `?P<` are full regular expressions, matched by a parameter function. Only `<name>` placeholder patterns are decomposed.
- Logging calls are not modelled, apart from the LogEntry rows and events the code writes.
- AccountsAdmin.UserChange.SaveModel: applies the intended checkbox rule `Toggle`, not the written one. As written, `ToggleAsWritten` removes a held permission whose box is still ticked (see Findings).
- AccountsAdmin.SaveModelFollowsBoxes: holds for the intended checkbox rule only. The written code breaks it for a held permission whose box stays ticked (ToggleAsWrittenRemovesTicked).
- AccountsBackends.UserDirectory.Authenticate: signs in with the intended profile sync `Sync`, which sets the username from the new email. As written, the username keeps the old email (SyncAsWrittenLeavesOldUsername).
- AccountsBackends.SignInSyncsUser: states the intended sync, not the written one (see Findings).
- AccountsBackends.SignInBySsoId: states the intended sync, not the written one (see Findings).
- CatalogueViews.SourceLinkDownload: finds the dataset with the intended `FindBySlugs`. As written, the lookup never yields a dataset (FindBySlugsAsWritten), so every such download fails.
- CatalogueViews.SourceViewDownload: finds the dataset with the intended `FindBySlugs`; as written, every such download fails (FindBySlugsAsWritten).
- CatalogueViews.CustomQueryDownload: finds the dataset with the intended `FindBySlugs`; as written, every such download fails (FindBySlugsAsWritten).
- ExplorerUtils.ParseInt: reads ASCII digits, an ASCII sign and ASCII whitespace only. Python's `int()` also accepts other Unicode decimal digits and Unicode whitespace.
- ExplorerUtils.GetIntFromRequest: inherits ParseInt's ASCII-only reading of `int()`.
- ExplorerModels.PlaygroundForRequest: inherits ParseInt's ASCII-only reading of `int()`.
- ExplorerUtils.UrlGetNumber: accepts ASCII decimal digits only, while Python's `int()` also reads other Unicode decimal digits.
- ExplorerUtils.UrlGetNumberAsWritten: `str.isnumeric()` is modelled over the ASCII digits and the Latin-1 numeric characters only (IsNumericChar). Numeric characters beyond Latin-1 are not modelled.
- CoreCredentials.PostgresUser: `str.lower()` is modelled on ASCII letters only. Any other character becomes `_` in the model. Python lower-cases it first, which differs where its lower case is ASCII (the Kelvin sign becomes `k`) or has another length.
- ApplicationsForms.CleanContact: lower-casing is modelled on ASCII letters only.
- ApplicationsViews.CleanEmail: `strip()` and `lower()` are modelled on ASCII whitespace and ASCII letters only.
- ApplicationsViews.GiveOutcome: inherits CleanEmail's ASCII-only stripping and lower-casing.
- DwAdminForms.CleanUploadHeaders: the headers are lower-cased on ASCII letters only.
- CoreCredentials.DictOf: the keys' first-appearance order that Python's dict keeps is not stated; the contract covers which databases appear and which tables each keeps.
- CoreCredentials.SourceTablesForUser: returns a set, while the source returns a list. The list's order, and a table listed twice as both a source table and a reference table, are not kept.
- CoreCredentials.SourceTablesForApp: returns a set, while the source returns a list, so order and repeats are not kept.
- ApplicationsViews.SortBranches: Python's sort is stable, so branches with equal keys keep their input order. The contract states a descending permutation but not that order among equal keys.
- YourFilesViews.CleanForm: CharField's `strip()` is modelled on ASCII whitespace only. Unicode whitespace such as U+00A0 is not stripped in the model, while Python strips it.
- ExplorerViews.PlayPost: for 'run' and 'fetch-page' the model renders the playground without running the SQL. The source runs it through `render_with_sql` and `query_viewmodel` with `execute_query` when the form is valid, which writes a QueryLog and issues statements. That execution and its log are not modelled, and the contract promises nothing about the logs, views or statements on those two actions.
- CoreCredentials.NewPrivateDatabaseCredentials: on a missing or raising database the result is `Err` with that database's name alone. The statements already issued for the earlier databases run under autocommit and persist, but the model does not return them. A failure partway through one database's statements cannot be expressed either, because `raises` is decided per database.
- CoreCredentials.ProvisionEntries: the same gap. On failure the statements issued for the earlier databases persist under autocommit but are not part of the result, and a failure partway through one database cannot be expressed.
- ApplicationsRouter.TemplateMatch: the literal parts of a `<name>` pattern are compared character by character. In the source they stay regular-expression syntax, so a `.` in them matches any character; the model reads it as a dot.
- ApplicationsSweep.SelectUsenames: a login whose valuntil is NULL is modelled as `validForever`, since `valuntil != 'infinity'` does not select it.
- DatasetsMigration.AlterTable: the refused rename is modelled for its two causes, a missing old table and a taken new name. Any other database error is not modelled. The function gives the tables under the intended skip-and-continue. As written, swallowing the `ProgrammingError` is not harmless on PostgreSQL: the refused rename aborts the transaction and the whole migration is rolled back (RunAsWritten).
- DatasetsMigration.RunAsWritten: models PostgreSQL, where DDL runs inside the migration's transaction. On a database whose schema editor is not atomic, the swallowed error would skip the table as intended.
- DatasetModels.HasPerm: users are taken to be active. Django's `has_perm` refuses every permission to an inactive user, and the model's user record has no active flag.
- DatasetsViews.FilterDatasets: a row that the source's joins would list twice appears once, because rows are filtered and not joined.
- ExplorerUtils.GetTotalPages: uses exact integer division. The source truncates a floating-point quotient, `int(total_rows / page_size)`, which can differ only for counts beyond 2^53.
- ExplorerTasks.TruncateQueryLogs: `now` is one clock shared with the logs' `run_at`. The source compares against the naive local `datetime.now()`, and any time-zone offset is not modelled.
- YourFilesViews.CreateTableFlow.FormValid: `triggers` logs every import request sent to the data pipeline, so a request the pipeline refuses is still recorded. What the pipeline keeps of a refused request is not modelled.

## Findings

| source | as written | input that shows it | evidently intended | confidence | as-written member | corrected member |
|---|---|---|---|---|---|---|
| dataworkspace/dataworkspace/apps/explorer/utils.py:75-86 | `url_get_rows` and `url_get_page` accept a value when `str.isnumeric()` holds and then call `int()` on it | the POSTed value '½' (U+00BD): it is numeric, but `int()` raises ValueError and the request fails | a value `int()` cannot parse falls back to the default | not executed | ExplorerUtils.VulgarHalfRaises | ExplorerUtils.UrlGetNumberAgrees |
| dataworkspace/dataworkspace/apps/accounts/backends.py:46-52 | the username is compared with and set from the user's stored email before the email itself is updated | a user stored with 'a@example.com' signs in with the header 'b@example.com': it ends with username 'a@example.com' and email 'b@example.com' | username and email both become the header's email on the same sign-in | not executed | AccountsBackends.SyncAsWrittenLeavesOldUsername | AccountsBackends.SyncIdempotent |
| dataworkspace/dataworkspace/apps/catalogue/views.py:161-163 | `find_dataset(group_slug, set_slug)` passes the two slugs where `find_dataset` expects a dataset id and a user | any request for a data group's dataset by slugs: the slug is used as an id, and the second slug is used where a user is expected | the dataset is looked up by its group's slug and its own slug, and returned only when it is visible to the user | not executed | CatalogueViews.SlugLookupDiscrepancy | CatalogueViews.FindBySlugs |
| dataworkspace/dataworkspace/apps/accounts/admin.py:200-220 | a ticked box adds the permission only when it is absent; every other case with the permission held falls to the `elif` branch, which removes it | a user who holds the permission, saved with its box still ticked: the permission is removed and 'Removed' is logged | a ticked box leaves a held permission in place | not executed | AccountsAdmin.ToggleAsWrittenRemovesTicked | AccountsAdmin.ToggleIdempotent |
| dataworkspace/dataworkspace/apps/datasets/migrations/0004_auto_20190813_1536.py:15-19 | the `ProgrammingError` of a refused `alter_db_table` is swallowed inside `with connection.schema_editor()`, whose savepoint is then released in a transaction PostgreSQL has already aborted | two reference datasets with slugs 'a-b' and 'a_b', both still on their original tables: both map to 'ref_a_b', the second rename is refused, and leaving the schema editor raises, so the migration fails and is rolled back | a rename the database refuses is skipped and the migration carries on with the other datasets | not executed | DatasetsMigration.CollidingSlugsRollBack | DatasetsMigration.ReferenceTables.GenerateTableName |
