# Sencho backend helpers, modelled and verified

This project models the parts of the Sencho backend helpers whose promises range over
every input, every run or every interleaving, and proves those promises. Docker, the
database, HTTP, the clock and YAML are abstract inputs; every call that can fail may
fail in every way the code distinguishes. Nothing here runs the backend.

| files | what they model |
|---|---|
| `TemplateVocabulary.dfy`, `JsonText.dfy`, `JsonNumber.dfy`, `PayloadTemplate.dfy`, `TemplateBraces.dfy` | notification payload templates: a code-unit JSON parser proved equal to the grammar of sections 2 to 7 of RFC 8259, the template checks and rendering on top of it, and which templates are accepted or refused for what |
| `GuardModel.dfy`, `GuardClosures.dfy`, `EndpointGuard.dfy`, `GuardSafety.dfy`, `GuardChains.dfy`, `GuardLimits.dfy` | one evaluation of the Docker endpoint guard over a fixed snapshot of a node |
| `ComposePaths.dfy`, `PathMeaning.dfy`, `ComposeScript.dfy`, `WalkTrace.dfy`, `WalkPlay.dfy`, `DeclaredInputs.dfy`, `ComposeWalk.dfy`, `ParseInputs.dfy`, `FirstFile.dfy`, `Graph.dfy` | the Compose include/extends walk: its paths and where they lead, what each file asks for, the walk as a function and as the code runs it, its graph, and what the returned lists hold |
| `ProviderReplace.dfy` | replace, verify and roll back the Docker endpoint provider |
| `BuildShare.dfy` | hub builds shared between readers |
| `HistoryPage.dfy` | cursor-based paging of the GitOps history |
| `FleetPlan.dfy`, `FleetPrune.dfy` | fleet prune plans, outcomes, roster, preflight and locks |
| `ComposeMerge.dfy` | merging the layers of a Compose run |
| `Schedule.dfy` | weekly notification schedules |
| `CallHistory.dfy`, `AuthTempDir.dfy` | crash-ordered credential directories |
| `PullReference.dfy` | canonical pull references |
| `Common.dfy`, `Whitespace.dfy` | what several of these share |

Where the code and its own words differ, the model follows the code:

- The header of `endpointProviderReplace.ts` says any failure restores the snapshot. A recreate call that throws
  is answered without a restore (`ProviderReplace.ThrownRecreateIsNotRestored`);
  `ProviderReplace.Helper.ReplaceProvider` states that a failure restores exactly when that call returned.
- A permitted deploy can remove a running, unlabeled sibling of a stopped labeled container although another
  protected service is rendered into their service's namespace (`GuardLimits.SiblingSlips`), because a service that
  is itself protected is never listed as a namespace owner. It can also remove the live owner of a namespace that a
  rendered owner runs in (`GuardLimits.LateOwnerSlips`), because live owners are followed only from what is protected.
  `GuardChains.RenderedOwnersAreSpared` and `GuardChains.ChainsAreSpared` say exactly when neither happens. Both nodes
  need a container of a service that names a namespace to carry the very hash the render has for it, which the code
  says Compose never produces; without such a container `GuardChains.UpSparesEveryChain` excludes both, where inspects
  are consistent.
- `parsePullReference` does not always fix its own output: a digest reference with two tags loses one per pass
  (`PullReference.SecondTagBreaksIt`), and the hub's library prefix turns a leading colon into a tag
  (`PullReference.LeadingColonBreaksIt`). `PullReference.ParseFixesItsOutput` gives the exact condition on the reference
  as it was given, `PullReference.ListIsReproduced` and `PullReference.DiscoverRoundTrip` that on a list of them.
- The sweep of `dockerAuthTempDir.ts` preserves markerless children because they hold no published payload. Any history
  keeps it so exactly unless some removal fails to unlink the payload and unlinks the marker (`AuthTempDir.TrailIsSafe`).

Two further results come with their condition. A settled build is joined only below the maximum age plus the share
window exactly when it settled by its maximum age (`BuildShare.AgeBoundExactly`), which timers that fire on time ensure
(`BuildShare.JoinedAgeBound`). A permitted restart stops nothing protected but Sencho wherever Sencho has a name to be
shown under (`GuardSafety.NamedRootsPass`), and can stop the owner of its namespace where it has none
(`GuardLimits.NamelessOwnerSlips`).

Some definitions and loop invariants are wrapped in a quantifier over a mentioned-or-not term (`Look`, `Peek`, `Touch`, `Unfold`), so that
proofs carry them along without unfolding them.

## Model

| member | source | states |
|---|---|---|
| JsonText.ParseSound | backend/src/helpers/notificationPayloadTemplate.ts:166-175 | what the JSON parser accepts is a well-formed document that prints back to exactly the text read |
| JsonText.ParseComplete | backend/src/helpers/notificationPayloadTemplate.ts:166-175 | the parser reads the text of every well-formed document as that document |
| JsonText.ParseExact | backend/src/helpers/notificationPayloadTemplate.ts:166-175 | the parser returns a document if and only if it is well formed and its text is the input |
| JsonNumber.NumberIs | backend/src/helpers/notificationPayloadTemplate.ts:166-175 | the numbers the parser reads are exactly those of section 6 of RFC 8259: minus, integer, fraction and exponent, the last two only if present |
| PayloadTemplate.EscapeRoundTrip | backend/src/helpers/notificationPayloadTemplate.ts:41-44 | escaping any sequence of code units gives well-formed string content that decodes to it, lone surrogates and control characters included |
| PayloadTemplate.ShortEscapesAre | backend/src/helpers/notificationPayloadTemplate.ts:41-44 | the two-character escapes stand for the characters of section 7 of RFC 8259 |
| PayloadTemplate.TokenExact | backend/src/helpers/notificationPayloadTemplate.ts:33-56 | a token is found at a position if and only if its text stands there, so at most one token matches and the order of the alternatives does not matter |
| PayloadTemplate.FillStep | backend/src/helpers/notificationPayloadTemplate.ts:166-175 | reading one code unit commutes with filling the variables, in every parser state |
| PayloadTemplate.FillStepToken | backend/src/helpers/notificationPayloadTemplate.ts:50-56 | where a token does not fail, its injected value, quoted or bare, leads to the filled successor state, after a backslash too |
| PayloadTemplate.PlaceholderFails | backend/src/helpers/notificationPayloadTemplate.ts:46-48 | where a token fails in the template, the placeholder makes the parser fail as well |
| PayloadTemplate.RenderFillsTree | backend/src/helpers/notificationPayloadTemplate.ts:166-175 | if the placeholder text parses, the template has a tree that prints to it, and rendering gives exactly that tree with its variables filled |
| PayloadTemplate.ParsesIffRenders | backend/src/helpers/notificationPayloadTemplate.ts:69-100 | the placeholder text parses if and only if every assignment renders to valid JSON |
| PayloadTemplate.AcceptedTemplateRenders | backend/src/helpers/notificationPayloadTemplate.ts:69-100 | a template accepted at save time renders to valid JSON for every assignment of values, so rendering never throws |
| PayloadTemplate.ValidationExact | backend/src/helpers/notificationPayloadTemplate.ts:69-100 | past the length check, validation accepts precisely the templates that always render and leave no `{{` in the substituted text |
| TemplateBraces.DocumentOpens | backend/src/helpers/notificationPayloadTemplate.ts:87-92 | in the text of a JSON document two opening braces meet only inside a string or key, so closing braces are never in doubt |
| TemplateBraces.AcceptedExactly | backend/src/helpers/notificationPayloadTemplate.ts:69-100 | on the template itself: past the length check it is accepted, as trimmed, if and only if it is the text of a document with variables for holes none of whose strings, keys included, spells two opening braces |
| TemplateBraces.RefusedExactly | backend/src/helpers/notificationPayloadTemplate.ts:69-100 | every refusal has exactly its reason: too long, a complete token with a name between its braces, other leftover opening braces, or no document |
| TemplateBraces.UnknownNameIsRefused | backend/src/helpers/notificationPayloadTemplate.ts:38-86 | a template that holds a complete token around a name that is no variable is refused as an unknown variable, whatever stands around it |
| TemplateBraces.TrimIs | backend/src/helpers/notificationPayloadTemplate.ts:73-74 | trimming takes all blanks at both ends and nothing else |
| PayloadTemplate.DecodeFilled | backend/src/helpers/notificationPayloadTemplate.ts:33-56 | filling a string's variables replaces each by exactly its value in the decoded text |
| PayloadTemplate.RenderedStringsDecode | backend/src/helpers/notificationPayloadTemplate.ts:166-175 | every string of a rendered document, keys included, decodes to the template string's text with each variable replaced by its value |
| GuardModel.FilterNext | backend/src/helpers/dockerEndpointGuard.ts:493-503 | the containers of a stack, and of any part of it, stay in the order they are listed |
| GuardClosures.NamespaceOwners | backend/src/helpers/dockerEndpointGuard.ts:557-570 | the owners are exactly the services reachable through namespace edges and not given, each mapped to a given service that reaches it; it ends on cyclic wiring |
| GuardClosures.OwnersExact | backend/src/helpers/dockerEndpointGuard.ts:557-570 | once nothing waits, what was recorded is exactly what is reachable |
| GuardClosures.OwnRecreateNo | backend/src/helpers/dockerEndpointGuard.ts:589-625 | a deploy leaves a service alone by itself exactly when nothing pins or may replace its image, its hash is known, and every container of it has that hash, the local image and the running Compose version |
| GuardClosures.OwnRecreateYes | backend/src/helpers/dockerEndpointGuard.ts:589-625 | a recreate is certain exactly when the service is pinned, or its containers decide and one has another hash that can be compared, or, all hashes being equal, another image than the local one |
| GuardClosures.OwnRecreateUnreliable | backend/src/helpers/dockerEndpointGuard.ts:589-625 | a hash is called unreliable exactly when it differs and cannot be compared |
| GuardClosures.OwnRecreateUnknown | backend/src/helpers/dockerEndpointGuard.ts:589-625 | the verdict is unknown exactly when the service is not pinned and its image may be replaced, its hash is not known, or a container with the right hash has an image that is not known locally |
| GuardClosures.WouldRecreate | backend/src/helpers/dockerEndpointGuard.ts:634-662 | the verdict is the highest decision (yes, unreliable, version, unknown, no) over all services reachable through rendered links |
| GuardClosures.TraceEnd | backend/src/helpers/dockerEndpointGuard.ts:634-662 | when the queue is empty the flags seen decide the highest verdict, in whatever order services were visited |
| GuardClosures.NamespaceOwnerRefs | backend/src/helpers/dockerEndpointGuard.ts:1196-1229 | unread exactly when an inspect on the way failed other than by a missing container; otherwise the owners are exactly the references reachable from the target's modes |
| EndpointGuard.InvalidRenderedLabel | backend/src/helpers/dockerEndpointGuard.ts:915-920 | a refusal exactly when some rendered service carries another label value than "true", naming such a service |
| EndpointGuard.RenderedOwners | backend/src/helpers/dockerEndpointGuard.ts:787-798 | the added entries hold exactly the stack's containers whose service owns a rendered namespace of a followed entry |
| EndpointGuard.LiveOwners | backend/src/helpers/dockerEndpointGuard.ts:838-851 | fails exactly when some root is unreadable; otherwise the entries hold exactly the stack's containers that own a live namespace of a root |
| EndpointGuard.JudgeEntry | backend/src/helpers/dockerEndpointGuard.ts:857-911 | no refusal exactly when the mutation is harmless to every container of the entry; a refusal is that of the first container harmed, on a deploy of the first live orphan before any other |
| EndpointGuard.EvaluateGuard | backend/src/helpers/dockerEndpointGuard.ts:681-913 | permission if and only if the snapshot is permitted, stated container by container; a refusal is that of the first cause in the order the guard looks: no list, an unknown Sencho or render, an invalid label, an unreadable root, then the first harmed entry of what is protected by itself, then an owner of a rendered namespace, then one of a live namespace |
| GuardSafety.RootsAreTargets | backend/src/helpers/dockerEndpointGuard.ts:806-837 | the roots whose namespaces are followed are exactly Sencho, the provider and every labeled container of the node |
| GuardSafety.StopPermitted | backend/src/helpers/dockerEndpointGuard.ts:681-913 | a permitted stop or update finds no protected container and no owner, through any rendered or live chain, of a namespace one runs in |
| GuardSafety.UpPermitted | backend/src/helpers/dockerEndpointGuard.ts:857-911 | a permitted deploy finds none of these a live removable orphan, and each one's rendered service has recreate verdict no |
| GuardSafety.RestartPermitted | backend/src/helpers/dockerEndpointGuard.ts:883-885 | a permitted restart endangers nothing that is the provider, labeled by itself or by the rendered file, or the owner of a rendered namespace, and nothing but Sencho itself or an owner taken for it because Sencho has no name at all |
| GuardSafety.ServiceOpPermitted | backend/src/helpers/dockerEndpointGuard.ts:883-885 | a permitted service operation targets an endangered service only as a restart, under the same conditions |
| GuardSafety.NamedRootsPass | backend/src/helpers/dockerEndpointGuard.ts:883-885 | where everything protected has a name to be shown under, only Sencho itself is let through |
| GuardSafety.UnreadableRefused | backend/src/helpers/dockerEndpointGuard.ts:838-847 | on a stack with containers, a failed inspect on the way to a namespace owner of anything protected is never permission |
| GuardSafety.UnidentifiedIsElsewhere | backend/src/helpers/dockerEndpointGuard.ts:681-913 | while Sencho does not know its own container, a permitted mutation of a stack with containers means there are candidate ids and none of them is in that stack |
| GuardSafety.PermittedExactly | backend/src/helpers/dockerEndpointGuard.ts:681-913 | a mutation of a stack with containers is permitted if and only if Sencho cannot be in it unknown, the render is known where needed and well labeled, every namespace of something protected could be read, and everything endangered is spared by that mutation: nothing else is refused |
| GuardSafety.ProtectedExactly | backend/src/helpers/dockerEndpointGuard.ts:716-784 | protected for what it is are exactly Sencho, the provider, whatever carries the label with any value or is labeled by the render, and, while the provider is unknown, what shares a network with Sencho, or anything while Sencho's own networks are unknown |
| GuardSafety.FollowedByName | backend/src/helpers/dockerEndpointGuard.ts:1208-1223 | a protected container whose id is gone is followed under its name, if it has one |
| GuardSafety.OwnerIs | backend/src/helpers/dockerEndpointGuard.ts:1174-1186 | a listed container is the owner a namespace mode refers to exactly when the reference is its id, long or short, or its name, or the container inspected there has its id or name |
| GuardSafety.ProviderIs | backend/src/helpers/dockerEndpointGuard.ts:524-534 | the provider is told by its id, by its name with or without a slash, or by its Compose project and service, and by nothing else |
| GuardSafety.IdsMatch | backend/src/helpers/selfStackGuard.ts:25-30 | two ids match, in either order, exactly when they are equal or hex ids of which one begins the other |
| GuardSafety.HexIdIs | backend/src/helpers/selfStackGuard.ts:25-30 | a hex id has 12 to 64 hex digits |
| GuardSafety.ReportedAs | backend/src/helpers/dockerEndpointGuard.ts:506-513 | a container is reported under its service, else its name, else its id |
| GuardSafety.SpellingsAgree | backend/src/helpers/dockerEndpointGuard.ts:608-623 | image ids are compared without their algorithm and Compose versions without a leading `v` |
| GuardSafety.ReplacingPolicies | backend/src/helpers/dockerEndpointGuard.ts:581-600 | a pull policy may replace the image exactly when it is one of the five named ones or an interval, in any case |
| GuardSafety.ModeNames | backend/src/helpers/dockerEndpointGuard.ts:1213-1216 | a namespace mode names a container exactly by a non-empty reference behind `container:` |
| GuardChains.UpSparesWiring | backend/src/helpers/dockerEndpointGuard.ts:634-662 | a permitted deploy recreates nothing an endangered rendered service is wired to, and no owner of a namespace it is rendered into, at any distance |
| GuardChains.SiblingsAreSpared | backend/src/helpers/dockerEndpointGuard.ts:557-570 | a permitted deploy never recreates a sibling that owns a rendered namespace, and removes it only if every protected container of its service has stopped or is outside the project |
| GuardChains.RenderedOwnersAreSpared | backend/src/helpers/dockerEndpointGuard.ts:787-798 | a permitted deploy recreates no rendered owner, and removes none as a live orphan if and only if no sibling is a live orphan whose service's protected containers are all stopped or outside the project |
| GuardChains.StopLeavesNoChain | backend/src/helpers/dockerEndpointGuard.ts:681-913 | a permitted stop or update finds no container of the stack on a chain of rendered and live namespaces, in any mix |
| GuardChains.ChainsAreSpared | backend/src/helpers/dockerEndpointGuard.ts:787-851 | a permitted deploy spares every container on every mixed chain if and only if each owner the guard did not find is no live orphan, and not recreated where it owns a live namespace |
| GuardChains.NamespaceNeedsEqualHash | backend/src/helpers/dockerEndpointGuard.ts:589-625 | a permitted deploy finds a protected service that names a namespace only with containers that carry exactly the hash rendered for it |
| GuardChains.UpSparesEveryChain | backend/src/helpers/dockerEndpointGuard.ts:681-913 | where no container of a service that names a namespace carries its rendered hash, references answer as the containers they name and the provider is known, a permitted deploy has found and spares every container on every mixed chain |
| GuardLimits.SiblingSlips | backend/src/helpers/dockerEndpointGuard.ts:557-570 | a concrete node, with wiring as the render is read, on which a permitted deploy removes a running sibling that owns a protected service's rendered namespace |
| GuardLimits.LateOwnerSlips | backend/src/helpers/dockerEndpointGuard.ts:838-851 | a concrete node on which a permitted deploy removes the running owner of the network that a protected service's rendered owner runs in |
| GuardLimits.NamelessOwnerSlips | backend/src/helpers/dockerEndpointGuard.ts:883-885 | a concrete node on which a permitted restart stops the owner of the network of a Sencho listed under the name "/" |
| ComposePaths.NormalizedIsClean | backend/src/helpers/composeInputParse.ts:124-131 | a path normalised within its base has no `..` segment, no leading slash and no backslash |
| ComposePaths.ResolvedIsClean | backend/src/helpers/composeInputParse.ts:133-135 | a resolved path is clean whatever the base and the target |
| ComposePaths.DirOfClean | backend/src/helpers/composeInputParse.ts:119-122 | the directory of a clean path is clean |
| ComposePaths.EnvResolves | backend/src/helpers/composeInputParse.ts:593-600 | the default `.env` of any clean project base resolves, so the non-null assertion holds |
| PathMeaning.NormalizeLeads | backend/src/helpers/composeInputParse.ts:124-131 | from every directory a normalised path leads where the path leads: names go down, `..` goes back up, `.` and empty segments stay; an absolute path starts at the root |
| PathMeaning.NormalizeIsIdempotent | backend/src/helpers/composeInputParse.ts:124-131 | normalising twice is normalising once |
| PathMeaning.ResolveIs | backend/src/helpers/composeInputParse.ts:133-135 | a resolved path spells exactly the place the target leads to from its base; there is none exactly when the path starts at a root or climbs above the top |
| PathMeaning.ParentOfBase | backend/src/helpers/composeInputParse.ts:133-135 | below a normalised base, `../t` is `t` below its directory |
| PathMeaning.PlainBelowBase | backend/src/helpers/composeInputParse.ts:133-135 | a path of plain names below a base is the base, a slash and the path |
| PathMeaning.DirOfIs | backend/src/helpers/composeInputParse.ts:119-122 | the directory of a path has all its segments but the last |
| PathMeaning.KeyLeads | backend/src/helpers/composeInputParse.ts:429-431 | the key of a relative path leads where the path leads |
| PathMeaning.KeyOfAbsolute | backend/src/helpers/composeInputParse.ts:429-431 | the key of an absolute path is the place it leads to, without the slash in front |
| PathMeaning.KeyIsIdempotent | backend/src/helpers/composeInputParse.ts:429-431 | taking a key twice is taking it once, if and only if the path does not lead to the root itself |
| WalkTrace.PushWf | backend/src/helpers/composeInputParse.ts:403-427 | entering a file keeps the depth-first invariant: finished files are in topological order and the path is a chain of edges |
| WalkTrace.CycleExact | backend/src/helpers/composeInputParse.ts:403-427 | once nothing is open, the edges have a cycle exactly when an edge into the open path was met |
| ComposeScript.ChildProjectClean | backend/src/helpers/composeInputParse.ts:556-591 | the project bases derived for included files are clean, whatever the includer's |
| ComposeScript.RoutedContextClean | backend/src/helpers/composeInputParse.ts:611-643 | every context handed to a target has clean paths and bases |
| ComposeScript.ScriptVisits | backend/src/helpers/composeInputParse.ts:433-643 | a file's script visits a file in a context exactly where an include or extends routes there and it can be read, with what is read |
| ComposeScript.TargetIsRead | backend/src/helpers/composeInputParse.ts:611-643 | a target that cannot be read is reported |
| ComposeScript.ScriptIsFair | backend/src/helpers/composeInputParse.ts:433-520 | no script reports a cycle, and no input a file can report in any context leaves the two roots |
| ComposeScript.UrlIs | backend/src/helpers/composeInputParse.ts:115-117 | a URL is a letter, characters of a scheme, then `://` |
| DeclaredInputs.DynamicIs | backend/src/helpers/composeInputParse.ts:104-108 | a path holds a variable exactly when a dollar sign stands before a brace, an underscore or a letter |
| DeclaredInputs.HostPathIs | backend/src/helpers/composeInputParse.ts:110-113 | a host path starts with a slash of either kind, a tilde, or a drive letter and a colon |
| DeclaredInputs.LettersAre | backend/src/helpers/composeInputParse.ts:104-117 | the letters and scheme characters, spelled out |
| ComposeWalk.Walk.Enter | backend/src/helpers/composeInputParse.ts:403-427 | a file on the stack is a cycle error, a finished one is skipped, any other is pushed with the context and content it is walked with: the three cases of expanding a file |
| ComposeWalk.Walk.ParseFileInner | backend/src/helpers/composeInputParse.ts:433-520 | it plays the file's script: every report and every visit it asks for, in document order, or the one error that stops it |
| ComposeWalk.Walk.ProcessIncludeEntry | backend/src/helpers/composeInputParse.ts:529-608 | it plays the entry's script: its paths, its project's `.env` or why there is none, its targets, its env files, in this order |
| ComposeWalk.Walk.ReadAndRecurse | backend/src/helpers/composeInputParse.ts:611-643 | a resolved target that can be read is expanded one level deeper in its own context, an unreadable one is reported, any other left alone |
| WalkPlay.PlayGood | backend/src/helpers/composeInputParse.ts:433-520 | playing a file's script keeps the walk's invariant and leaves every report made and every visit an edge |
| WalkPlay.ExpandGood | backend/src/helpers/composeInputParse.ts:403-427 | expanding a file, whichever of the three cases it is, keeps the invariant, records the edge and leaves the file expanded |
| WalkPlay.PlayFinishes | backend/src/helpers/composeInputParse.ts:645-682 | of any play: exactly the files reached from the ordered ones are expanded, each once, each as an ordered file or as one its includer visits; the edges are exactly their visits; cycles apart the reports are exactly those of their scripts; a cycle is reported if and only if the edges are cyclic, and only for a file on a cycle |
| WalkPlay.EdgesAreDeclared | backend/src/helpers/composeInputParse.ts:433-643 | the edges out of a file lead exactly to the declared targets that can be read |
| WalkPlay.NothingIsSkipped | backend/src/helpers/composeInputParse.ts:645-682 | unless an error other than a cycle is reported, every expanded file is walked and every target it declares is readable, followed and expanded |
| DeclaredInputs.FileSays | backend/src/helpers/composeInputParse.ts:433-608 | a file reports exactly what its declarations give: a path with a variable is dynamic, one inside both bases is listed at its place below each, a host path or one that leaves a base under its own spelling, a URL trimmed, and likewise for includes, their env files, project directories and `.env`, extends, placeholders and errors |
| DeclaredInputs.ProjectIs | backend/src/helpers/composeInputParse.ts:556-591 | the bases an included project is walked with are its project directory below each base, or else the directory of its main file |
| DeclaredInputs.RoutesAreHandedDown | backend/src/helpers/composeInputParse.ts:611-643 | a target is walked exactly in the contexts its file hands down: its resolved paths with the project's bases, or its own directory |
| DeclaredInputs.ExpandedFrom | backend/src/helpers/composeInputParse.ts:403-643 | every expanded file is an ordered one, or stands one level below a file that leads to it, in a context that file hands down, with what was read there |
| DeclaredInputs.ReportsAreGiven | backend/src/helpers/composeInputParse.ts:433-608 | cycles apart, a finished walk reports exactly what the declarations of the expanded files give |
| ParseInputs.ParseDeclaredInputs | backend/src/helpers/composeInputParse.ts:645-682 | it ends, and the three lists are those of the play of the ordered files and the project's `.env`, in order and with repetitions; they hold exactly what the declarations of the expanded files give, and the cycles; that play is as `WalkPlay.PlayFinishes` says; every materialised input is clean |
| FirstFile.PlainPathIsListed | backend/src/helpers/composeInputParse.ts:162-182 | without a project root, a plain path `raw` of the first file `d/f`, be it a declaration, an include or an extends, is listed with source `d/raw` and materialised path `raw` |
| FirstFile.HostPathIsListed | backend/src/helpers/composeInputParse.ts:162-182 | one that is a host path, or climbs, is listed under its own spelling and not materialised |
| FirstFile.VariableIsListed | backend/src/helpers/composeInputParse.ts:137-155 | one that holds a variable is listed as dynamic |
| FirstFile.IncludedEnvIsListed | backend/src/helpers/composeInputParse.ts:593-600 | an include of `dir/file` lists the `.env` of `dir`, with source below `d` |
| FirstFile.OrderedFileIsRooted | backend/src/helpers/composeInputParse.ts:645-682 | an ordered file that no file leads to is walked with its own content and path, the primary one at the stack root, below the project root, or else the first file's directory, and below the root at runtime |
| FirstFile.RootedPathIsListed | backend/src/helpers/composeInputParse.ts:645-682 | with a project root, a plain path of such a file is listed below the root, in the repository and at runtime |
| ProviderReplace.Helper.WaitReady | backend/src/helpers/endpointProviderReplace.ts:280-292 | it ends; success exactly when the last inspect found the container ready, and no earlier one did; otherwise the last one was unhealthy, a pause was rejected or the deadline passed, and inspects are made only before it |
| ProviderReplace.Helper.RestoreProvider | backend/src/helpers/endpointProviderReplace.ts:295-311 | restored exactly when the run ends with a ready container, and then every old container was removed and the snapshot created, joined to each of its networks once and started, in order |
| ProviderReplace.Helper.Fail | backend/src/helpers/endpointProviderReplace.ts:347-367 | restores, then tries to remove the marker, then writes the failure with the restore's true result |
| ProviderReplace.Helper.AwaitAck | backend/src/helpers/endpointProviderReplace.ts:419-431 | it ends; the outcome is a failure, with a restore, exactly when the run holds a cause: a failed call, a negative ack of this operation, a rejected pause or a passed deadline; so a positive ack read in time succeeds |
| ProviderReplace.Helper.ReadAck | backend/src/helpers/endpointProviderReplace.ts:419-424 | the ack file confirms or denies exactly by a boolean verdict on this operation; an unreadable file breaks the wait, any other says nothing |
| ProviderReplace.Helper.Conclude | backend/src/helpers/endpointProviderReplace.ts:432-448 | success is returned exactly when its verdict was written; pruning comes after that, and always where the plan asks for it |
| ProviderReplace.Helper.ReplaceProvider | backend/src/helpers/endpointProviderReplace.ts:325-466 | under every combination of failures each call comes only after what it requires, the run fails exactly when something in it is a cause of failure, the outcome matches the only effective verdict, and a failure restored exactly when the recreate call returned; only a rejected first pause leaves a run without an outcome |
| ProviderReplace.AckedRunSucceeds | backend/src/helpers/endpointProviderReplace.ts:419-448 | a finished run that holds its positive ack, and no success verdict that failed to be written, succeeds |
| ProviderReplace.NoCauseAfterAck | backend/src/helpers/endpointProviderReplace.ts:419-448 | in a run with a positive ack nothing is a cause of failure but a success verdict that cannot be written |
| ProviderReplace.SuccessIsAcked | backend/src/helpers/endpointProviderReplace.ts:419-440 | a success verdict is preceded by the recreated provider and then a matching positive ack |
| ProviderReplace.AckFollowsInstall | backend/src/helpers/endpointProviderReplace.ts:389-424 | no ack is read before the provider was recreated and the marker written |
| ProviderReplace.OneVerdict | backend/src/helpers/endpointProviderReplace.ts:340-367 | after an effective outcome write there is no other outcome write, no restore, no marker removal and no ack read |
| ProviderReplace.PruneAfterVerdict | backend/src/helpers/endpointProviderReplace.ts:432-448 | pruning follows a durable success verdict, and a run that prunes never restores |
| ProviderReplace.FailureIsAccounted | backend/src/helpers/endpointProviderReplace.ts:347-367 | a verdict that reports a rollback follows that rollback and its marker removal, and reports how it ended |
| ProviderReplace.ReportedRestoreIsPutBack | backend/src/helpers/endpointProviderReplace.ts:295-311 | in every run a restore is reported as done if and only if its calls removed every container of the service, created the snapshot, joined its networks and started it, all without error, and the last inspect alone found it ready; one that is not done gave up at the first call that failed or in the readiness wait |
| ProviderReplace.RolledBackIsPutBack | backend/src/helpers/endpointProviderReplace.ts:347-367 | in every run a failure verdict says the old container is back exactly when the restore before it put it back |
| ProviderReplace.ThrownRecreateIsNotRestored | backend/src/helpers/endpointProviderReplace.ts:449-466 | a run in which the recreate call throws, which obeys the protocol and fails without a restore |
| BuildShare.LocalFleetBuildShare.JoinBuild | backend/src/helpers/localFleetBuildShare.ts:116-132 | the reader gets the offered build if it is still joinable, otherwise a fresh one that replaces it |
| BuildShare.LocalFleetBuildShare.Drop | backend/src/helpers/localFleetBuildShare.ts:135-138 | the build's timer stops and it is removed only if it is the one offered |
| BuildShare.LocalFleetBuildShare.BeginRead | backend/src/helpers/localFleetBuildShare.ts:87-98 | a read joins or starts a build and becomes its newest reader |
| BuildShare.LocalFleetBuildShare.EndRead | backend/src/helpers/localFleetBuildShare.ts:87-114 | a received answer is no longer offered |
| BuildShare.LocalFleetBuildShare.GiveUp | backend/src/helpers/localFleetBuildShare.ts:99-108 | a timed-out reader reports whether its own build is still the one offered |
| BuildShare.LocalFleetBuildShare.SettleBuild | backend/src/helpers/localFleetBuildShare.ts:42-47 | settling records the time and arms the timer again for the share window, even for a dropped build |
| BuildShare.LocalFleetBuildShare.ExpireBuild | backend/src/helpers/localFleetBuildShare.ts:127-131 | a timer that fires takes its own build off offer and no newer one |
| BuildShare.LocalFleetBuildShare.ClearBuilds | backend/src/helpers/localFleetBuildShare.ts:140-143 | every offered build's timer is cancelled and none is offered |
| BuildShare.InvStep | backend/src/helpers/localFleetBuildShare.ts:87-143 | every step of every interleaving keeps the share's invariant |
| BuildShare.JoinedUntilDue | backend/src/helpers/localFleetBuildShare.ts:116-132 | in every reachable state a build is handed out exactly until its timer is due, whether or not it has fired |
| BuildShare.RejectedIsDropped | backend/src/helpers/localFleetBuildShare.ts:37-58 | a build that is rejected is taken off offer by its failure handler |
| BuildShare.ReaderMayEnd | backend/src/helpers/localFleetBuildShare.ts:87-114 | a reader that joined may give up, and receives as soon as its build has settled, which it can unless it failed |
| BuildShare.OneBuildPerKey | backend/src/helpers/localFleetBuildShare.ts:116-138 | in every run a key has at most one registered build |
| BuildShare.UnregisterCause | backend/src/helpers/localFleetBuildShare.ts:134-138 | a build stops being offered only by its own expiry, failure or receipt, by being found stale, or by a clear: never by a step about an older build |
| BuildShare.ReceivedIsNotJoined | backend/src/helpers/localFleetBuildShare.ts:4-16 | once a reader received a build's answer no later read joins that build |
| BuildShare.KeptIsRegistered | backend/src/helpers/localFleetBuildShare.ts:99-108 | `buildKept` is set exactly when the joined build is still registered |
| BuildShare.WorkIsShared | backend/src/helpers/localFleetBuildShare.ts:64-73 | two builds of a key that both still run below the maximum age are the same build |
| BuildShare.JoinedAgeBound | backend/src/helpers/localFleetBuildShare.ts:18-24 | with timers on time a joined build is younger than the maximum age plus the share window |
| BuildShare.LateTimerBreaksBound | backend/src/helpers/localFleetBuildShare.ts:37-58 | with a late timer a build can be joined at any age |
| BuildShare.AgeBoundExactly | backend/src/helpers/localFleetBuildShare.ts:116-124 | from any state, however the run goes on, a settled build on offer is joined only below the maximum age plus the share window if and only if it settled by its maximum age or can no longer be joined at all |
| HistoryPage.CursorRoundTrip | backend/src/services/gitops/history.ts:391-428 | an encoded cursor decodes to itself |
| HistoryPage.ResumesAt | backend/src/services/gitops/history.ts:538-588 | the rows after the cursor of a row are exactly the rows listed after it |
| HistoryPage.BuildHistoryPage | backend/src/helpers/gitopsHistoryPage.ts:187-259 | the page holds the authorised rows of the examined prefix, stops only when full or exhausted, and its cursor names the last examined row exactly when more may follow |
| HistoryPage.AuthorizedExactly | backend/src/services/gitops/readAuth.ts:136-160 | a row is readable in the scope of the live application that wrote it; otherwise by a grant on its stack while its application is active and the stack is present, and by auditors alone in every other case |
| HistoryPage.ItemsAreAuthorized | backend/src/helpers/gitopsHistoryPage.ts:218-248 | the items are exactly those of the readable rows, with the presence of the stack and the application's lifecycle |
| HistoryPage.ParseLimit | backend/src/helpers/gitopsHistoryPage.ts:169-175 | a usable limit is kept, a larger one becomes the maximum, anything else the default |
| HistoryPage.RespondWithHistory | backend/src/helpers/gitopsHistoryPage.ts:262-290 | a cursor that does not decode is refused; otherwise the page is built from it |
| HistoryPage.PageAdvances | backend/src/helpers/gitopsHistoryPage.ts:177-186 | a page takes the client on by the rows examined, with their authorised rows; one with a cursor examined at least one row, and one without a cursor reached the end |
| HistoryPage.FollowCursors | backend/src/helpers/gitopsHistoryPage.ts:187-259 | following `nextCursor` ends, is never refused, and concatenates to the authorised rows of the whole table, each once and in order, for every limit and scan cap of at least 1 |
| HistoryPage.ReadHistory | backend/src/helpers/gitopsHistoryPage.ts:262-290 | with the routes' scan cap, any `limit` parameter leads through the whole authorised history |
| FleetPlan.IsPrunePlan | backend/src/helpers/fleetPrune.ts:181-213 | accepts exactly the plans of the requested scope and targets, with an integer node id and a creation time, whose bytes add up and whose items are well formed, requested and distinct |
| FleetPlan.KeyInjective | backend/src/helpers/fleetPrune.ts:206-211 | an item key names one target and one id |
| FleetPlan.DryRunAddsUp | backend/src/helpers/fleetPrune.ts:162-171 | the dry-run rows of an accepted plan add up to its reclaimable bytes |
| FleetPlan.PlannedRowTells | backend/src/helpers/fleetPrune.ts:162-171 | each dry-run row is for its own target, with the known sizes of that target's items |
| FleetPlan.ValidateRemoteOutcomes | backend/src/helpers/fleetPrune.ts:301-317 | accepts exactly the lists with one well-formed outcome for each item and no other |
| FleetPlan.OutcomesAddUp | backend/src/helpers/fleetPrune.ts:400-422 | over the target rows removed, skipped and failed add up to the plan's items, and the bytes to everything removed |
| FleetPlan.RowTells | backend/src/helpers/fleetPrune.ts:400-422 | each row counts its own target's outcomes by kind, adds up the known sizes of what was removed, and succeeds exactly when none of them failed, or as the remote reported when there are none |
| FleetPrune.SameIds | backend/src/helpers/fleetPrune.ts:149-153 | comparing sorted id lists position by position decides whether the same ids are listed equally often |
| FleetPrune.ValidateReviewedRoster | backend/src/helpers/fleetPrune.ts:144-160 | passes exactly when the current nodes are the reviewed ones and the plans cover exactly the reachable ones |
| FleetPrune.ParseReviewedNodes | backend/src/helpers/fleetPrune.ts:99-111 | accepts exactly non-empty lists of well-formed entries without a repeated node, and keeps them in order |
| FleetPrune.ComparePreflight | backend/src/helpers/fleetPrune.ts:526-560 | passes exactly when every node is as reachable and every plan as approved; otherwise says how the first differing node differs |
| FleetPrune.FleetPruner.BeginRun | backend/src/helpers/fleetPrune.ts:572-578 | takes the locks of all local nodes or none |
| FleetPrune.FleetPruner.EndRun | backend/src/helpers/fleetPrune.ts:595-597 | frees every lock the run took |
| FleetPrune.FleetPruner.Preflighted | backend/src/helpers/fleetPrune.ts:580-593 | goes on to execute when all nodes agree, ends the run otherwise |
| FleetPrune.InvStep | backend/src/helpers/fleetPrune.ts:562-598 | every step keeps each lock with exactly one holder |
| FleetPrune.LocalNodesAreExclusive | backend/src/helpers/fleetPrune.ts:575-578 | in every interleaving two running prunes never share a local node |
| FleetPrune.LocksAreReleased | backend/src/helpers/fleetPrune.ts:595-597 | in every interleaving a held lock belongs to a run still going or to a single-node prune, whichever way runs ended |
| FleetPrune.ExecutesOnlyAsReviewed | backend/src/helpers/fleetPrune.ts:572-590 | a prune executes only on an unchanged roster with every node as reviewed |
| FleetPrune.ExecutesExactlyReviewed | backend/src/helpers/fleetPrune.ts:589-593 | it executes on exactly the reviewed reachable nodes, which are exactly the planned ones |
| ComposeMerge.EntryIsRead | backend/src/helpers/composeDependencyParse.ts:158-164 | the first equals sign of a list entry ends its key, whatever the value holds |
| ComposeMerge.ReadEnvironment | backend/src/helpers/composeDependencyParse.ts:142-169 | read from a list or a mapping, a key is in the list its last entry puts it in and in no other, each list holds a key once, and the lookup flag is set exactly when some key has no value |
| ComposeMerge.LastEntryDecides | backend/src/helpers/composeDependencyParse.ts:152-157 | the last entry of a key decides: with a value it is set, without one exactly when its variable is, or when there is no lookup |
| ComposeMerge.MergeDeclaredCompose | backend/src/helpers/composeDependencyParse.ts:641-718 | the loops compute the layers merged pairwise in load order, or the first layer that failed |
| ComposeMerge.ServiceAssociative | backend/src/helpers/composeDependencyParse.ts:681-705 | merging three declarations of a service does not depend on the grouping |
| ComposeMerge.MergeAssociative | backend/src/helpers/composeDependencyParse.ts:641-718 | merging layers is associative, failed layers included |
| ComposeMerge.MergeInGroups | backend/src/helpers/composeDependencyParse.ts:641-718 | two runs of layers can be merged first and then together |
| ComposeMerge.LastLayerDecides | backend/src/helpers/composeDependencyParse.ts:690-691 | a key is set in a merged service exactly when the last layer that mentions it sets it, unset when that layer leaves it unset, so the two stay disjoint |
| ComposeMerge.LastLayerReplaces | backend/src/helpers/composeDependencyParse.ts:681-705 | image, network mode, restart, command, entrypoint, Tailscale arguments and project name are those of the last layer that declares them |
| ComposeMerge.ListsAppend | backend/src/helpers/composeDependencyParse.ts:681-705 | the ports and env files of the layers append in load order |
| ComposeMerge.ListsUnite | backend/src/helpers/composeDependencyParse.ts:681-705 | the networks, dependencies, volumes, binds, capabilities and devices of the layers unite |
| ComposeMerge.FlagsAreKept | backend/src/helpers/composeDependencyParse.ts:660-705 | a service is declared, in need of interpolation or undetermined when some layer says so |
| ComposeMerge.ResourcesMerge | backend/src/helpers/composeDependencyParse.ts:653-656 | a network or volume is declared, and external, when some layer says so, and keeps its last name |
| ComposeMerge.LayerFlagsAreKept | backend/src/helpers/composeDependencyParse.ts:656-660 | including, extending and layer tags are kept from any layer |
| Schedule.ParseExact | backend/src/helpers/notificationSchedule.ts:24-73 | a well-typed schedule is accepted exactly when it has days, each once and in range, and two different minutes of the day |
| Schedule.ActiveIsInWindow | backend/src/helpers/notificationSchedule.ts:104-116 | a schedule is active exactly when the minute of the week lies in the half-open window, taken around the week, of a listed day |
| Schedule.ActiveExactly | backend/src/helpers/notificationSchedule.ts:104-116 | a rule without a schedule is always active |
| Schedule.DaysOfKnownDates | backend/src/helpers/notificationSchedule.ts:104-116 | days are counted from Sunday of the civil calendar |
| Schedule.ActiveMinutesPerWeek | backend/src/helpers/notificationSchedule.ts:104-116 | any seven days in a row hold (number of days) times (window length) active minutes |
| AuthTempDir.AuthParent.CreateDockerAuthTempDir | backend/src/helpers/dockerAuthTempDir.ts:63-102 | it records exactly the states it passes through: an empty directory, the marker, the payload, and after a fault those of the removal; success leaves marker and payload, a collision changes nothing |
| AuthTempDir.AuthParent.Cleanup | backend/src/helpers/dockerAuthTempDir.ts:96-101 | it records exactly the states of the removal, and none when the child is gone |
| AuthTempDir.AuthParent.RemoveChildDir | backend/src/helpers/dockerAuthTempDir.ts:49-58 | payload, marker and directory go in this order, each state recorded |
| AuthTempDir.AuthParent.Sweep | backend/src/helpers/dockerAuthTempDir.ts:114-153 | a completed sweep removes exactly the marked typed children, each once, lists the markerless ones as preserved, and records every state of every removal; an unreadable parent is left alone |
| AuthTempDir.SweepClears | backend/src/helpers/dockerAuthTempDir.ts:114-153 | where an unlink fails only for an absent file, no typed child holds a payload after a sweep, and children it does not remove are as they were |
| AuthTempDir.CallEmpties | backend/src/helpers/dockerAuthTempDir.ts:49-102 | where an unlink fails only for an absent file, a removal or a failed creation leaves at most an empty directory |
| AuthTempDir.RemoveIsSafe | backend/src/helpers/dockerAuthTempDir.ts:49-58 | a removal keeps every crash point marked if and only if it does not fail to unlink the payload while unlinking the marker |
| AuthTempDir.UnlinkFailureStrands | backend/src/helpers/dockerAuthTempDir.ts:49-58 | a removal that strands a payload without its marker exists |
| AuthTempDir.TrailIsSafe | backend/src/helpers/dockerAuthTempDir.ts:38-153 | over any history every crash point is marked if and only if no removal in it fails to unlink the payload and unlinks the marker |
| AuthTempDir.ReliableIsSafe | backend/src/helpers/dockerAuthTempDir.ts:38-153 | a history whose unlinks fail only for absent files keeps every crash point marked |
| AuthTempDir.RunActions | backend/src/helpers/dockerAuthTempDir.ts:38-153 | any sequence of creations, cleanups and sweeps adds exactly the states its calls pass through, all of them marked if and only if none of the calls strands a payload |
| PullReference.ParsedIsCanonical | backend/src/helpers/registryPullReference.ts:53-125 | every parsed reference has a normalised host, a non-empty repository with the library prefix on the hub, and a colon-free tag or a valid digest |
| PullReference.ParseFixesItsOutput | backend/src/helpers/registryPullReference.ts:53-125 | parsing fixes its own output if and only if the reference given has no digest, or a repository with at most one tag and no leading colon that the library prefix would be put before |
| PullReference.PinnedTagIsDropped | backend/src/helpers/registryPullReference.ts:96-108 | a tag in front of a digest is dropped and nothing else |
| PullReference.BareNameParses | backend/src/helpers/registryPullReference.ts:53-125 | a bare name is the hub's library image tagged latest |
| PullReference.HubPathParses | backend/src/helpers/registryPullReference.ts:53-125 | a path whose first segment cannot be a host belongs to the hub, tagged latest |
| PullReference.HostedPathParses | backend/src/helpers/registryPullReference.ts:53-125 | a path on a host keeps its repository, with the host normalised and hub aliases given the library prefix |
| PullReference.TaggedNameParses | backend/src/helpers/registryPullReference.ts:53-125 | a bare name with a tag is the hub's library image with exactly that tag, unless the text is a local image id |
| PullReference.ImageIdIs | backend/src/helpers/registryPullReference.ts:36-44 | only the name `sha256`, in any case, with a tag of hex digits is a local image id |
| PullReference.TaggedHubPathParses | backend/src/helpers/registryPullReference.ts:53-125 | a path without a host keeps its tag |
| PullReference.TaggedHostedPathParses | backend/src/helpers/registryPullReference.ts:53-125 | a path on a host keeps its repository and exactly its last tag |
| PullReference.HostsAre | backend/src/helpers/registryPullReference.ts:77-92 | a first segment is a host when it is `localhost`, has a dot or has a numeric port |
| PullReference.RefusedExactly | backend/src/helpers/registryPullReference.ts:53-125 | a text is no pull reference exactly when its name is empty or a local image id, its host has no numeric port or nothing behind it, or its digest is malformed |
| PullReference.DigestIs | backend/src/helpers/registryPullReference.ts:34-34 | a digest is an algorithm, a colon and hex digits |
| PullReference.CharactersAre | backend/src/helpers/registryPullReference.ts:34-43 | the characters of ports, hex digests and algorithms, spelled out |
| PullReference.SecondTagBreaksIt | backend/src/helpers/registryPullReference.ts:96-108 | on every host, the hub included, and for every digest `a/b:1:2` parses to a reference that parsing changes again |
| PullReference.LeadingColonBreaksIt | backend/src/helpers/registryPullReference.ts:96-108 | on the hub a repository `:x` with a digest parses to one that parsing changes again |
| PullReference.NormalizeImageHostIs | backend/src/services/RegistryService.ts:113-121 | the host normaliser is idempotent, keeps the form of a host and fixes the hub |
| PullReference.HostNames | backend/src/services/RegistryService.ts:113-121 | the hub has exactly three other names, any other host is its own spelling in lower case |
| PullReference.SplitPrintsBack | backend/src/helpers/registrySafeProbe.ts:378-390 | splitting a canonical value gives back the host, repository and tag or digest it was printed from |
| PullReference.NormalizePullRefList | backend/src/helpers/registryPullReference.ts:138-157 | the distinct canonical values sorted, or too many when the count or size cap is passed |
| PullReference.ListedIs | backend/src/helpers/registryPullReference.ts:138-157 | the list is sorted, without repeats, within the caps, and holds exactly the canonical values of its input |
| PullReference.ReproducedExactly | backend/src/helpers/registryDeliveryOutbound.ts:214-229 | canonicalising reproduces a list if and only if it is sorted, distinct, within the caps and each of its values is final |
| PullReference.ListIsReproduced | backend/src/helpers/registryDeliveryOutbound.ts:214-229 | canonicalising a canonical list again reproduces it if and only if one pass is enough for every parseable reference it was made from |
| PullReference.AcceptsList | backend/src/helpers/registryDeliveryOutbound.ts:214-229 | the discover check accepts a list exactly when canonicalising it reproduces it |
| PullReference.DiscoverRoundTrip | backend/src/helpers/registryDeliveryOutbound.ts:214-229 | the discover check accepts a list built by the same canonicaliser if and only if one pass is enough for every parseable reference it was built from |

## Left out

- `evaluateDockerEndpointContainer`, the wiring read from rendered YAML, refusal texts and logging: the stack guard's rules repeated, or text only.
- EndpointGuard.EvaluateGuard: rendered services, owners and roots are maps without an order, so which of several invalid labels, or of several harmed owners of one group, is named is not captured; the networks Sencho is attached to are the names and ids its identity answers for.
- GuardSafety.StopPermitted: assumes that Docker lists containers under distinct non-empty ids, as do the other lemmas of that module and of `GuardChains`.
- ParseInputs.ParseDeclaredInputs: a parsed YAML file is a list of declarations; how YAML values are read, and bind mounts and build contexts beyond their path kind, are not modelled.
- PayloadTemplate.AcceptedTemplateRenders: works on UTF-16 code units; the channel-specific key checks and the choice of default template are not modelled.
- ProviderReplace.Helper.ReplaceProvider: an outcome write that throws is taken to have had no effect, the clock does not run backwards, and error texts, the staging phase and the parts of a create request other than its networks are dropped.
- BuildShare.LocalFleetBuildShare.EndRead: deadlines and liveness checks around a read are steps that may happen at any time; builds are known by number instead of by object identity.
- HistoryPage.CursorRoundTrip: a cursor's timestamp is read only in its plain decimal spelling, not in the other spellings a JavaScript number accepts.
- HistoryPage.FollowCursors: the table and the grants stay fixed while the pages are read; only some of the query's filters are modelled, since all of them select rows in the same way.
- FleetPlan.DryRunAddsUp: byte sizes are integers, so the rounding of very large floating-point sums is not captured; an item's name, reason, labels and metadata are one flag, well typed or not.
- FleetPrune.ExecutesExactlyReviewed: what a node does when it executes its plan, and the per-node result, are not modelled.
- ComposeMerge.MergeDeclaredCompose: the order of services and of unioned lists is not captured; reading services, ports and interpolation from YAML is left out.
- Schedule.ActiveMinutesPerWeek: instants are whole milliseconds; stored schedules as JSON text are left out.
- AuthTempDir.AuthParent.Sweep: no other process changes the directory during a sweep; a failed lstat of an existing child and the listing of legacy directories are left out.
- PullReference.NormalizeImageHostIs: only ASCII letters are folded to lower case.
- PullReference.NormalizePullRefList: the byte length of the JSON list is a parameter.
- Registry probing and delivery, JWT attestation, recovery stores, suppression sync and the cache service: they rest on services outside the helpers.
- Startup, HTTP routes, command-line entry points, validators of a single branch and the frontend: they would only add easy members.
