# dotkeeper, modelled and proved in Dafny

dotkeeper keeps directories and git repositories the same on several machines. A reconciler compares a desired state,
found on disk, with what Syncthing and git report, and applies a plan of actions; a router picks a transport by learned
cost; small protocols guard the state file, the config cache and the reconcile trigger. This project models those parts
and proves what they promise over all inputs, all runs and all interleavings.

`dafny verify dfyconfig.toml` checks everything. The modules, in the order to read them:

- **Base, Paths, Dedup** — shared values, sorting, path strings, and the ordered duplicate removal used in several places.
- **Ignore, Syncthing, World, Subscribe, Diff** — the state of one machine (Syncthing's configuration, the directories
  dotkeeper touches), what each action does to it and how it can fail half way, and the plan as a function of a desired
  and an observed state.
- **Convergence, Fixpoint** — the desired state as a set of goals. Every action keeps every met goal, accepted
  subscriptions of desired folders aside; every unmet goal has an action in the plan, and that action meets it. Hence
  the fixpoint and self-stabilisation theorems, with the exact condition on what is accepted on the way.
- **Handlers** — what success of each handler means, field by field of the record, directory or device it is about.
- **Discovery, Onboarding** — the walk that finds repositories, and what becomes of an accepted subscription pass by
  pass, whatever else fails; also of two that collide in one directory.
- **Planner, Reconciler, Resolver** — the loops and in-place edits of the code, proved equal to the functions above. The
  resolver is modelled with Go slices that share backing arrays.
- **Pausing, Upkeep, Backups** — auto-pause, rescans and git backups over whole runs, and as whole passes carry them out.
- **Regression, CostModels, Router** — the decayed least-squares fit over reals, the class that updates it sample by
  sample, and the choice of a transport.
- **StateFile, ConfigCache, TriggerLoop** — three concurrent protocols as state machines over their steps.
- **GitSync** — auto-commit, its deletion safeguard in two implementations, and Syncthing delivery.
- **GitIdent, ConflictName** — identities of git remotes and names of conflict files.

Where the code and its own documentation disagree the model follows the code, and these lemmas say what happens:

- Two transports within 1 ms of each other: the earlier does not always win (`Router.TieRuleCanFail`); the rule is followed
  exactly when some transport can follow it (`Router.TieRuleExactly`).
- A pass that accepts a subscription to a folder which is desired elsewhere ends, with every action successful, with that
  folder at the wrong path and shared with the offering peer alone, and no later pass moves it
  (`Fixpoint.AcceptanceOverridesDesiredFolder`, `Fixpoint.ConfiguredPathIsNeverChanged`). When a successful pass does
  settle is stated exactly (`Fixpoint.SuccessfulPassSettlesExactly`).
- Before anything was transferred the default costs prefer mutagen to Syncthing up to 46 2/3 million bytes, not just for
  small changes (`Router.DefaultPriorsCompare`).
- A crash can leave a temporary file behind: a run ends without one exactly when no process crashed while it had one open
  or failed to remove it after an error (`StateFile.NoOrphanExactly`; the smallest case is `StateFile.CrashLeavesAnOrphan`).
- The deletion safeguard fails open when its second listing or its reset fails, or when git takes the deleted path for
  renamed, and a failing first listing brings staged deletions back (`GitSync.CommittedExactly`). When such a failure is
  harmless, and when rename detection is, is stated exactly (`GitSync.FailuresAreHarmlessExactly`,
  `GitSync.RenamesAreHarmlessExactly`); `GitSync.FailuresDoHarm`, `GitSync.PlainMoveDeletes` and
  `GitSync.MovedThenEditedComesBack` are the smallest cases.
- "Reconciled" after a Syncthing delivery can drop unpushed commits: the fast path resets a branch that has commits
  upstream lacks whenever upstream also has some it lacks (`GitSync.Repo.ReconcileDelivery`, `GitSync.DeliveryDropsACommit`).
- The config cache can return content from before a load began: for a history of the file this happens in some run
  exactly when a version has the (mtime, size) of an earlier one and something else could have been cached under it since
  (`ConfigCache.SafeExactly`). A rewrite that keeps both is enough (`ConfigCache.ReusedKeyServesStaleContent`), and the
  stale content can be that of a version in between (`ConfigCache.StaleContentFromInBetween`).
- A config change can be lost while the reconcile worker still runs: exactly when the trigger goroutine stops while the
  debounce timer is all the change has (`TriggerLoop.NoLostWakeup`, `TriggerLoop.ShutdownLosesAChange`).
- A changed share list loses what the operator added to the device entries of the folder
  (`Fixpoint.DeviceEntriesSurviveExactly`).
- A subscription identity declared twice gets offer lists with repeats, because the second lookup filters an array that
  was already filtered in place (`Resolver.RepeatedListAgreesExactlyWhenKeptComeFirst`); status and acceptance agree.
- Subscriptions are placed in one directory exactly when their last elements or names agree, whatever their hosts
  (`Onboarding.SameDirectoryExactly`, `Onboarding.NestedNamesMeetExactly`). Of the folders accepted for one directory
  exactly the one whose repository file is there settles (`Onboarding.AcceptanceSettlesExactly`); any other is removed
  and accepted again for ever (`Onboarding.LostAcceptanceNeverSettles`).
- An identity with a port, typed back in, names another remote (`GitIdent.IdentityWithPortReadsBackWrong`), and one whose
  path was nothing but `.git` is not accepted back (`GitIdent.IdentityReadsBackExactly`).
- A conflict of a file that would be called "", "." or ".." is not among its own variants
  (`ConflictName.ScannedConflictIsFoundExactly`).

Paths are lists of components, durations and clocks are integers of nanoseconds, and the cost model works over the reals.
Where Go walks a map, the order is a parameter of the specification and any order is allowed.

## Model

| member | source | states |
|---|---|---|
| Dedup.FreshTwice | internal/config/ignore.go:148-169 | removing duplicates from a merged list a second time changes nothing |
| Dedup.KeepFirst | internal/config/ignore.go:148-169 | the loop over a `seen` map keeps exactly the first of each key, in order |
| Ignore.MergeIsIdempotent | internal/config/ignore.go:148-169 | merging an already merged pattern list gives the same list, so a written file can match the wanted one |
| Ignore.BuiltinRulesComeFirst | internal/config/ignore.go:148-169 | every built-in rule survives, ahead of the repository's own |
| Ignore.EveryRuleIsKept | internal/config/ignore.go:148-169 | every non-blank rule of either list is in the merge, trimmed |
| Ignore.RulesExactly | internal/config/ignore.go:148-169 | the merged rules are exactly those of the two lists, trimmed and not blank |
| Ignore.EveryRuleIsALine | internal/config/ignore.go:173-182 | the file is the header and then every merged rule on a line of its own |
| Ignore.ContentOfMerged | internal/config/ignore.go:173-182 | rendering merged patterns and rendering the patterns themselves give the same file |
| Ignore.MergePatterns | internal/config/ignore.go:148-169 | the loop computes the merge |
| Ignore.RenderIgnoreFile | internal/config/ignore.go:173-182 | the builder loop writes the header and one line a pattern |
| Syncthing.AddDeviceKeepsOthers | internal/stclient/client.go:169-210 | the device ends up configured, at most one record is added, and no other record or user field changes |
| Syncthing.AddedDevice | internal/stclient/client.go:169-210 | the first record of the device stops auto-accepting and keeps the rest; a device without one gets a fresh record at the end, under its name |
| Syncthing.WrittenEntries | internal/stclient/client.go:428-506 | the device entries written are fresh, one for each requested device but the local and blank ones, in order |
| Syncthing.LookupAfterUpdate | internal/stclient/client.go:594-615 | an edit of one folder changes what is found under that ID and under no other |
| Syncthing.LookupAfterRemove | internal/reconcile/applier.go:434-460 | after a removal nothing is found under that ID and every other folder is as it was |
| Syncthing.EditFirst | internal/stclient/client.go:594-615 | the find-and-edit loop changes the first record with the ID, or reports that there is none |
| Syncthing.FilterOut | internal/reconcile/applier.go:434-460 | the filter loop keeps exactly the folders with other IDs |
| Syncthing.Client.GetConfig | internal/stclient/client.go:128-149 | the cached answer is always the server's configuration |
| Syncthing.Client.SetConfig | internal/stclient/client.go:154-162 | a successful write replaces the server's configuration and drops the cache, a failed one changes nothing |
| Syncthing.Client.AddDevice | internal/stclient/client.go:169-210 | the server gains the device, or nothing changes; with a reliable API it succeeds |
| Syncthing.Client.AddOrUpdateFolder | internal/stclient/client.go:428-506 | the server's folder is rewritten or appended with the user's fields kept, its device entries replaced by fresh ones, or nothing changes |
| Syncthing.Client.UpdateFolderSchedule | internal/stclient/client.go:627-651 | exactly the three schedule fields of that folder change, or nothing does |
| Syncthing.Client.SetFolderPaused | internal/stclient/client.go:594-615 | exactly the paused flag of that folder changes, or nothing does |
| Syncthing.Client.RemoveFolder | internal/reconcile/applier.go:434-460 | exactly that folder is gone, or nothing changes; an absent folder needs no write |
| Syncthing.Client.CollectDevices | internal/stclient/client.go:428-506 | the device list written is the requested one without the local and blank devices |
| Subscribe.AcceptanceIsSound | internal/subscribe/resolver.go:137-188 | an acceptance is an offer of a folder the machine lacks, wanted by a declared subscription, and unambiguous |
| Subscribe.AcceptanceIsComplete | internal/subscribe/resolver.go:137-188 | every subscription that resolves is accepted, from its first candidate |
| Subscribe.StatusByFields | internal/subscribe/resolver.go:137-188 | with eligible offers those titled with the canonical identity or else `dk:` and the name, of folders not here: pending without one, ambiguous when two name different folders, accepted otherwise |
| Subscribe.AcceptedByFields | internal/subscribe/resolver.go:137-188 | exactly the subscriptions with agreeing eligible offers are accepted, each from such an offer |
| Resolver.Resolve | internal/subscribe/resolver.go:137-188 | with index slices filtered in place, statuses and acceptances are those of a plain nested scan, hence by the fields of offers and subscriptions the right ones, and every offer list handed out still has its content at the end |
| Resolver.FilterInPlace | internal/subscribe/resolver.go:164-172 | the in-place filter leaves the kept offers first and the old tail behind them |
| Resolver.IsAmbiguous | internal/subscribe/resolver.go:195-206 | ambiguous exactly when two candidates name different folders |
| Resolver.ReportsArePrefixes | internal/subscribe/resolver.go:137-188 | whatever later lookups do to a shared array, an earlier report stays a prefix of it |
| Resolver.RepeatedLookupAgrees | internal/subscribe/resolver.go:137-188 | however often an identity is looked up, its status and first candidate are those of the scan |
| Resolver.RepeatedListAgreesExactlyWhenKeptComeFirst | internal/subscribe/resolver.go:164-172 | each lookup after the first reports the scan's list exactly when no kept offer sits behind a dropped one |
| Resolver.RepeatedListCanRepeatAnOffer | internal/subscribe/resolver.go:164-172 | the smallest case in which a repeated identity is offered the same folder twice |
| Convergence.LookupAfter | internal/reconcile/applier.go:212-511 | how any action of a plan, failing or not, changes the record found under one folder ID |
| Convergence.GoalStable | internal/reconcile/applier.go:286-511 | no action undoes a goal that is met, even when it fails half way, but an acceptance: of an unwanted folder its absence, of a desired folder a device list other than the offering device |
| Convergence.GoalServed | internal/reconcile/applier.go:286-511 | a successful action meets the goals it serves |
| Convergence.StaysCompatible | internal/reconcile/applier.go:286-511 | distinct folder IDs and agreeing paths survive every action that accepts no desired folder elsewhere |
| Convergence.WrittenDevices | internal/reconcile/providers.go:484-606 | a share list without local or blank devices is read back as it was written |
| Fixpoint.PlanOrigin | internal/reconcile/diff.go:61-300 | every action of a plan comes from a missing peer, a drifted folder, an acceptance, a foreign folder or a backup |
| Fixpoint.NothingElseAfterAcceptances | internal/reconcile/diff.go:197-300 | after an acceptance a plan holds only further acceptances, removals and backups |
| Fixpoint.PlanIsInOrder | internal/reconcile/diff.go:61-300 | every plan holds peers first, then folders, acceptances, removals and backups |
| Fixpoint.GoalIsAimedAt | internal/reconcile/diff.go:61-254 | every unmet goal has an action other than an acceptance in the plan that serves it |
| Fixpoint.PeerIsAddedExactly | internal/reconcile/diff.go:64-74 | a desired peer is added exactly when it is neither configured nor in the connection table |
| Fixpoint.StructuralActionServesAnUnmetGoal | internal/reconcile/diff.go:61-254 | a device, folder, schedule, marker, ignore or removal action is planned only because a goal is unmet |
| Fixpoint.QuietExactlyWhenSettled | internal/reconcile/diff.go:61-254 | a plan holds no structural action but acceptances if and only if every goal is met |
| Fixpoint.SuccessfulPassSettlesExactly | internal/reconcile/reconciler.go:41-74 | after a pass in which every action succeeds, paths agree and every goal is met but the absence of what was accepted, if and only if paths agreed before it and the last acceptance of each desired folder was for its path and its devices |
| Fixpoint.DesiredFolderIsAddedAndAccepted | internal/reconcile/diff.go:124-240 | a desired folder not configured yet and offered to a subscription is both added and accepted by one plan |
| Fixpoint.AcceptanceOverridesDesiredFolder | internal/reconcile/diff.go:201-240 | a whole successful pass from a fresh machine after which a desired folder is at the subscription's path and shared with the offering peer |
| Fixpoint.ConfiguredPathIsNeverChanged | internal/reconcile/diff.go:124-189 | through any pass, failing or not, a configured desired folder keeps its path and marker name |
| Fixpoint.RunKeeps | internal/reconcile/reconciler.go:41-74 | through any run folder IDs stay distinct, and paths that once disagree disagree for ever |
| Fixpoint.SuccessfulPassSettles | internal/reconcile/reconciler.go:41-74 | a pass in which every action succeeds and no desired folder is accepted meets every goal but the absence of what it accepted |
| Fixpoint.SelfStabilises | internal/reconcile/reconciler.go:41-74 | whatever failed or was accepted in any number of passes, after one successful pass the state is settled if and only if that pass started with agreeing paths and its acceptances were faithful; the next plan then holds only new acceptances and removals of folders that pass accepted and nobody desires |
| Fixpoint.SelfStabilisesInPlace | internal/reconcile/reconciler.go:41-74 | that is so if paths agreed at first and no pass before the last accepted a desired folder away from its path |
| Fixpoint.SelfStabilisesToSilence | internal/reconcile/reconciler.go:41-74 | if the successful pass started with agreeing paths and accepted nothing, and nothing is matched any more, the next plan holds no structural action at all |
| Fixpoint.OnePassReachesTheFixpoint | internal/reconcile/reconciler.go:41-74 | with the desired directories in place and nothing in the way of an acceptance a successful pass exists from any state with distinct folder IDs, and it settles exactly when paths agreed before it and its acceptances are faithful |
| Fixpoint.PassKeepsUserFields | internal/stclient/client.go:428-506 | through any pass, failing or not, the operator's own fields of a desired folder are untouched, its device list aside |
| Fixpoint.DeviceEntriesSurviveExactly | internal/reconcile/applier.go:462-505 | in a successful pass the device entries of a configured folder survive with all they hold exactly when their devices were the wanted ones; otherwise all are fresh |
| Fixpoint.DeviceEntriesThroughAPass | internal/reconcile/applier.go:462-505 | through any pass, failing or not, the entries are the old ones, or fresh ones if the plan rewrites them |
| Fixpoint.LocalOrBlankShareDriftsForever | internal/reconcile/applier.go:481-489 | a share list naming the local or a blank device calls for an action in every plan, whatever the state |
| Fixpoint.PlanIsDeterministic | internal/reconcile/diff.go:44-300 | with distinct folder IDs and repository paths the plan does not depend on the order in which maps are walked |
| Handlers.AppliedIsDone | internal/reconcile/applier.go:123-187 | what each action has done when it succeeded: the one record, directory or device it is about, field by field, and nothing else |
| Handlers.WritesFolder | internal/stclient/client.go:428-506 | title, path, devices, schedule and marker are written, every other key kept, a new folder gets its defaults |
| Handlers.AcceptProvisionsDisk | internal/reconcile/applier.go:212-284 | the directory and those above it exist with the marker, and a new repository file holds folder ID, offering device and, if the title looks like one, canonical identity |
| Planner.ComputePlan | internal/reconcile/diff.go:61-300 | the loops and local maps compute the specified plan for some valid order of the map walks |
| Planner.EmitFolder | internal/reconcile/diff.go:124-189 | the per-folder branch emits exactly the specified repairs, upkeep and ignore action |
| Planner.EmitAcceptances | internal/reconcile/diff.go:197-240 | acceptances are emitted from the resolver's answer and their IDs protected from removal |
| Planner.EmitRemoves | internal/reconcile/diff.go:242-254 | exactly the managed folders neither desired nor accepted are removed |
| Planner.EmitBackups | internal/reconcile/diff.go:256-297 | the backup loop emits the specified commits and pushes |
| Reconciler.QueryFolders | internal/reconcile/providers.go:484-606 | the read-back of Syncthing's folders is the specified observation |
| Reconciler.QueryPeers | internal/reconcile/providers.go:484-606 | the live peers are exactly the configured devices with an ID and the devices of the connection table |
| Reconciler.QueryRepos | internal/reconcile/reconciler.go:76-90 | every desired path is observed, with the ignore file that is on disk |
| Reconciler.Applier.EnsureMarker | internal/reconcile/applier.go:286-309 | the marker directory exists afterwards, or nothing changed |
| Reconciler.Applier.MakeDirs | internal/reconcile/applier.go:212-233 | every ancestor exists afterwards and nothing else changed; a plain file in the way or a failing write stops it with the ancestors above in place |
| Reconciler.Applier.WriteAcceptedConfig | internal/reconcile/applier.go:255-284 | a repository file is written only where there is none |
| Reconciler.Applier.WriteIgnore | internal/reconcile/applier.go:311-333 | the ignore file holds the rendered patterns, or the failure left it old or already new |
| Reconciler.Applier.Accept | internal/reconcile/applier.go:212-233 | an acceptance makes the directory, its file and marker and configures the folder, or stops at a specified intermediate state |
| Reconciler.Applier.Perform | internal/reconcile/applier.go:123-187 | success means what the action is for, field by field (`Handlers.Done`): a pause sets the flag, an unpause clears it, nothing else changes; a failure leaves a specified state, and there is none when nothing external fails and the action is possible |
| Reconciler.Applier.Reconcile | internal/reconcile/reconciler.go:41-74 | every planned action is attempted in order, and no failure is reported exactly when all succeeded |
| Reconciler.Applier.Observe | internal/reconcile/providers.go:382-481 | an observation changes nothing, agrees with the state and passes every signal on as it came |
| Reconciler.Applier.RunPass | internal/reconcile/reconciler.go:41-74 | a pass reporting no failure settles the desired state on disk exactly when it started with agreeing paths and its acceptances are faithful; with nothing in the way and no external failure it reports none |
| Discovery.WalkDir | internal/reconcile/providers.go:219-266 | the recursive walk adds exactly the repositories reachable within the depth, past no excluded directory and into no repository |
| Discovery.DiscoverRepos | internal/reconcile/providers.go:168-201 | the result is what the walk finds from every scan root |
| Discovery.MergeTracked | internal/reconcile/providers.go:71-97 | tracked paths join what was found; an unreadable one not met by the walk aborts the pass |
| Discovery.ProvideDesired | internal/reconcile/providers.go:40-69 | the desired state is the one specified for the files on disk |
| Discovery.ResolveShareList | internal/reconcile/types.go:294-319 | names become device IDs, blanks and repeats go, order is kept |
| Discovery.ShareListsAreClean | internal/reconcile/types.go:294-319 | a share list never repeats a device nor holds a blank one |
| Discovery.ShareListExactly | internal/reconcile/types.go:294-319 | a share list holds exactly the devices its items stand for: the last peer of that name, or a device ID that names no peer; an empty one holds every peer in order |
| Discovery.ShareListGrows | internal/reconcile/types.go:294-319 | one more item adds at most the device it stands for, at the end |
| Discovery.PeersExactly | internal/reconcile/types.go:207-233 | the peers are the named entries with an ID, machine file before state file, the first of each ID |
| Discovery.DesiredByFields | internal/reconcile/types.go:257-290 | each field of a desired repository, from its file or else from the machine file; which files count |
| Discovery.DefaultsOfTheWalk | internal/reconcile/providers.go:168-201 | roots, depth and home directory when the machine file does not say |
| Discovery.FoundByFields | internal/reconcile/providers.go:168-266 | found are exactly the directories with a repository file, decodable or not, within the depth of a scan root, with none in a directory on the way and nothing excluded on it |
| Discovery.TrackedFailsExactly | internal/reconcile/providers.go:71-97 | the pass is aborted exactly by a tracked path the walk did not meet that is no directory or holds an undecodable file |
| Discovery.SubscriptionsAreDistinct | internal/reconcile/types.go:200-292 | merged subscriptions have distinct identities and cover every declared one |
| Discovery.SubscriptionsExactly | internal/config/subscribe.go:20-53 | the merged subscriptions are the first declaration of each identity or, lacking one, name, declarative ones first |
| Onboarding.AcceptProvisions | internal/reconcile/applier.go:212-284 | a successful acceptance of a directory no other repository file claims leaves directory, file, marker and folder record as offered |
| Onboarding.PlannedAcceptanceIsOffered | internal/reconcile/diff.go:197-240 | each planned acceptance takes an offered folder this machine lacks, titled as a declared subscription asks, with its ID, title and device, to the subscription's path or the default one; all such folders agree |
| Onboarding.AvailableFolderIsAccepted | internal/reconcile/diff.go:197-240 | conversely a folder that is the only one available to a subscription is accepted |
| Onboarding.AcceptedSubscriptionSettles | internal/reconcile/diff.go:197-254 | after a successful acceptance that owns its directory, if that is rediscovered, no later pass removes, re-accepts or repairs the folder whatever else fails; its ignore file is written again only while every pass in between tried and failed to write it |
| Onboarding.UnrivalledOwns | internal/reconcile/applier.go:212-284 | a successful acceptance owns its directory if no other repository file claims it and no other acceptance of the pass takes it |
| Onboarding.ProvisionedIsRediscovered | internal/reconcile/types.go:257-318 | a provisioned directory the walk reaches is desired under the accepted ID and shared with the offering device |
| Onboarding.DefaultPlacementIsWalked | internal/reconcile/diff.go:24-42 | a directory placed under the first scan root by default is found by the walk |
| Onboarding.UndiscoveredIsRemoved | internal/reconcile/diff.go:242-254 | a configured folder is removed by the next plan exactly when its ID is not desired |
| Onboarding.OneAcceptanceOwnsTheDirectory | internal/reconcile/applier.go:255-284 | of several acceptances for one directory a single one owns it, and the folder ID found there is its own |
| Onboarding.SameNameSameDirectory | internal/reconcile/diff.go:24-42 | the default directories of dir/name and dir2/name2 coincide exactly when the names do up to `.git` |
| Onboarding.PlacedUnderTheRoot | internal/reconcile/diff.go:24-42 | an ordinary name is placed right under the mirror root, ~/Documents/GitHub by default |
| Onboarding.SameDirectoryExactly | internal/reconcile/diff.go:24-42 | two subscriptions, each by identity or by a name of one element, are placed in one directory exactly when last elements or names agree up to `.git`, blank, `.` and `/` counting as the root itself |
| Onboarding.NameMeetsIdentity | internal/reconcile/diff.go:24-42 | a subscription by name meets one by identity exactly when the name is its last element up to `.git` |
| Onboarding.NestedNamesMeetExactly | internal/reconcile/diff.go:24-42 | names of several elements included, two subscriptions meet exactly when the one that leads further up comes down again to where the other leads |
| Onboarding.LoserIsUnfiled | internal/reconcile/applier.go:255-284 | an acceptance that loses its directory to another ends the pass with no repository file anywhere |
| Onboarding.LostAcceptanceNeverSettles | internal/reconcile/diff.go:197-254 | in every later pass its folder is either configured and removed or not configured and accepted again |
| Onboarding.AcceptanceSettlesExactly | internal/reconcile/diff.go:197-254 | a successfully accepted folder is left alone by a later pass, its ignore file aside, if and only if its repository file is the one in its directory |
| Onboarding.OneOwner | internal/reconcile/applier.go:255-284 | no two accepted folders own one directory |
| Pausing.PauseWaitsADay | internal/reconcile/diff.go:485-508 | in every run a pause comes at least 24 h minus 1 min after an unpause |
| Pausing.UnpauseNeedsNewActivity | internal/reconcile/diff.go:485-508 | every unpause has activity newer than the pause |
| Pausing.StaysPaused | internal/reconcile/diff.go:485-508 | a paused folder stays paused, and is not paused again, until it is unpaused |
| Pausing.RescanIsNeverFarBehind | internal/reconcile/diff.go:406-465 | an unpaused folder with rescan history is at most 7 days and one gap behind |
| Pausing.RescanWithinAWeekPlusGap | internal/reconcile/diff.go:406-465 | in every long enough unpaused run a rescan happens within 7 days plus the longest gap between passes |
| Upkeep.PauseIsPlannedExactly | internal/reconcile/diff.go:485-508 | a pause is planned exactly for an unpaused folder idle for 24 h, an unpause exactly for a paused one active within a minute |
| Upkeep.RescanIsPlannedExactly | internal/reconcile/diff.go:406-465 | a rescan is planned exactly for an unpaused folder after sleep, overflow or a hit watch limit, or 7 days, on an untrusted file system 1 day, after the last |
| Upkeep.FlagAfterPass | internal/reconcile/applier.go:716-736 | after a successful pass the flag is set by a planned pause, cleared by a planned unpause and otherwise as it was |
| Upkeep.FlagFollowsTheDecision | internal/reconcile/applier.go:716-736 | the flag the next observation finds is the one the run model gives, so its results hold of whole passes |
| Backups.BackupsExactly | internal/reconcile/diff.go:256-297 | a commit is planned exactly for a dirty repository whose backup fires, a push exactly for an unpushed head |
| Backups.DeferredBackupFires | internal/reconcile/diff.go:256-297 | a rebase or merge defers a backup and never cancels it |
| Backups.TimerBackupsAreSpaced | internal/reconcile/diff.go:302-346 | with the timer policy nothing is committed or pushed within the interval of a recorded push |
| Backups.OnIdleFiresExactly | internal/reconcile/diff.go:256-322 | on-idle fires exactly when the repository is clean or unchanged for its quiet time, five minutes by default, no workflow is active and the slot is not skipped |
| Backups.TimerFiresExactly | internal/reconcile/diff.go:256-331 | timer fires exactly when no push is recorded or its interval has passed, no workflow is active and the slot is not skipped |
| Backups.IntervalLengths | internal/reconcile/diff.go:333-346 | how long each named interval is, a day when unset, an hour when unreadable |
| Backups.FiringLasts | internal/reconcile/diff.go:302-331 | a backup that fires keeps firing until the observation changes |
| Regression.DecayScalesSum | internal/transport/costmodel.go:169-180 | scaling a running sum by the decay of a gap re-weights every sample of the history |
| Regression.DenominatorIsSpread | internal/transport/costmodel.go:230-235 | n*sumXX - sumX^2 is never negative, and zero exactly when all recorded sizes are equal |
| Regression.FitIsLeastSquares | internal/transport/costmodel.go:236-237 | the intercept and slope before blending are the only line with the least decayed squared error |
| Regression.SparseSamplesAreForgotten | internal/transport/costmodel.go:169-183 | if every gap decays by at most r, fewer than 1/(1-r) samples stay effective |
| Regression.BlendKeepsShareOfError | internal/transport/costmodel.go:245-249 | blending leaves exactly the share w/(n+w) of the prior's error |
| CostModels.PriorExactlyWhenUninformed | internal/transport/costmodel.go:218-235 | the prior is used exactly when fewer than two samples are effective or all sizes agree |
| CostModels.SparseSamplesKeepThePrior | internal/transport/costmodel.go:169-223 | samples a half-life or more apart never move the model off its prior |
| CostModels.ExactDataLeavesShareOfPriorError | internal/transport/costmodel.go:236-249 | on exact linear data each coefficient is off by exactly w/(n+w) of the prior's error |
| CostModels.CostModel.Record | internal/transport/costmodel.go:152-190 | after any sequence of records the running sums are the sums over the history weighted by decay; negative input is dropped |
| CostModels.CostModel.Refit | internal/transport/costmodel.go:218-250 | the fitted coefficients are those of the history: the prior, or the blended regression line |
| CostModels.CostModel.Predict | internal/transport/costmodel.go:120-136 | the fitted line, with a negative intercept or slope replaced by the prior's own, each of the four cases, cut off at zero and rounded down |
| Router.Scan | internal/transport/manager.go:310-318 | the scan with `best` computes the specified winner |
| Router.WinnerIsNearlyCheapest | internal/transport/manager.go:310-318 | the winner is at most 1 ms above the minimum, and every earlier candidate predicts strictly more |
| Router.TieRuleExactly | internal/transport/manager.go:272-318 | the scan follows the documented tie rule exactly when some candidate can |
| Router.TieRuleCanFail | internal/transport/manager.go:272-318 | with 10, 9.5 and 8.9 ms the third wins and no candidate follows the documented rule |
| Router.SlotsHoldTheirTransfers | internal/transport/manager.go:336-346 | each repo's slot and the aggregate are fed exactly the transfers that belong to them, each once |
| Router.SlotsGrow | internal/transport/manager.go:336-346 | a transfer reaches its repo's own slot and the slot of its transport and peer, no other, as bytes and milliseconds |
| Router.Manager.ModelFor | internal/transport/manager.go:351-372 | a slot's model is created once, from its transport's prior, and no prediction changes |
| Router.DefaultPriorsCompare | internal/transport/manager.go:55-117 | mutagen is expected before git over ssh, git before other transports, Syncthing before mutagen exactly above 46 2/3 million bytes |
| Router.Manager.RecordTransfer | internal/transport/manager.go:336-346 | every model's history is exactly the logged transfers that belong to its slot |
| Router.Manager.Route | internal/transport/manager.go:279-320 | the two no-route errors arise exactly when they should; otherwise a reachable transport at most 1 ms above the minimum is chosen, and every earlier reachable one predicts strictly more |
| StateFile.Track | internal/reconcile/applier.go:654-667 | tracking adds the path at the end unless it is there |
| StateFile.Untrack | internal/reconcile/applier.go:671-685 | untracking removes every occurrence and keeps the order |
| StateFile.StepKeepsInv | internal/config/state_v2.go:192-231 | every step of every process, including partial writes and crashes, keeps the invariant, and the order of commits only grows |
| StateFile.FileIsFoldOfCommits | internal/config/state_v2.go:192-231 | over every interleaving and crash the file is the fold of the committed mutations in rename order; success means committed once, an error means not committed |
| StateFile.FileHoldsEveryUpdate | internal/config/state_v2.go:192-231 | over every interleaving and crash the file holds what the committed update callbacks made of the initial state, one after another in rename order, and what the committed tracks and untracks made of the paths; neither kind touches the other's part |
| StateFile.UpdateIsWritten | internal/config/state_v2.go:192-231 | a single update leaves exactly what its callback returned |
| StateFile.FirstState | internal/config/state_v2.go:102-124 | a file without version is read as version 2, a missing one as an empty state |
| StateFile.NoCommitIsLost | internal/config/state_v2.go:192-231 | what was committed stays committed in the rest of the run |
| StateFile.ReadersSeeWholeFiles | internal/config/atomic.go:34-63 | a lock-free reader gets exactly the file as it stood when it was opened |
| StateFile.OrphansAfterStep | internal/config/atomic.go:20-63 | each step adds to the orphan temporaries exactly the one it abandons, and none ever goes |
| StateFile.OrphansExactly | internal/config/atomic.go:20-63 | after any run the orphan temporaries are exactly those of the processes that crashed with one open or failed to remove it |
| StateFile.NoOrphanExactly | internal/config/atomic.go:20-63 | a run leaves no orphan exactly when no process did |
| StateFile.CrashLeavesAnOrphan | internal/config/atomic.go:20-63 | a run of seven steps from a missing file that leaves an orphan |
| StateFile.EveryVersionIsReadable | internal/config/state_v2.go:102-124 | once the file is readable or missing, every committed version is readable and has a schema version |
| StateFile.TrackedStaysDuplicateFree | internal/reconcile/applier.go:654-685 | tracked paths stay free of duplicates through every sequence of commits |
| StateFile.TrackedIffLastSaysSo | internal/reconcile/applier.go:654-685 | a path is tracked exactly when the last commit naming it tracked it |
| ConfigCache.HitIsCurrent | internal/reconcile/cache.go:67-130 | a cache hit answers with the file's content at or after the load's begin, unless the key it found names an older version too and another content was cacheable under it |
| ConfigCache.EveryLoadIsOfItsOwnTime | internal/reconcile/cache.go:67-157 | however loads and writers overlap, every load returns the content at some instant within the call, unless a version current in that time has the key of an older one under which another content was cacheable |
| ConfigCache.UndisturbedLoadIsExact | internal/reconcile/cache.go:67-157 | a load during which the file does not change returns what the file says, unless an older version had its key and another content was cacheable under it |
| ConfigCache.StillFileIsReadExactly | internal/reconcile/cache.go:67-157 | every load of a file that never changes returns its value, an error when malformed, and when missing nothing or, for the machine file, an error |
| ConfigCache.SafeExactly | internal/reconcile/cache.go:67-157 | every load of every run with a given history of the file is of its own time if and only if no version has the key of an earlier one with another cacheable content since |
| ConfigCache.HarmfulHistoryServesStaleContent | internal/reconcile/cache.go:67-157 | any other history has a run with an undisturbed load that returns content gone before it began |
| ConfigCache.ReusedKeyServesStaleContent | internal/reconcile/cache.go:67-130 | a run in which a rewrite keeps (mtime, size) and the load after it returns the old content |
| ConfigCache.StaleContentFromInBetween | internal/reconcile/cache.go:67-157 | a run whose last load returns the content of a version that had another key |
| TriggerLoop.ConfigFilesAreNoticed | cmd/dotkeeper/cmds_v5.go:785-790 | a file passes the filter exactly when its last element is one of the three config names |
| TriggerLoop.LogTellsTheRun | cmd/dotkeeper/cmds_v5.go:645-797 | the log of a run is the initial trigger and each step's event: a tick and a debounced change ask for a reconcile and fill the slot, a config change arms the timer |
| TriggerLoop.NoLostWakeup | cmd/dotkeeper/cmds_v5.go:645-760 | in every run the slot is full exactly when a trigger waits for a reconcile; a waiting change is without timer, callback and slot exactly when the trigger goroutine stopped while the timer was all it had, so never while that goroutine lives; no two reconciles overlap |
| TriggerLoop.DebounceFollowsLastChange | cmd/dotkeeper/cmds_v5.go:792-797 | the debounce timer is always due one second after the last config change |
| TriggerLoop.InternalStepsMakeProgress | cmd/dotkeeper/cmds_v5.go:645-760 | every timer, callback, start or finish step leaves less to do |
| TriggerLoop.SomethingCanHappen | cmd/dotkeeper/cmds_v5.go:645-760 | while something is left to do and the worker lives, one of those steps can be taken |
| TriggerLoop.NothingLeftMeansAllServed | cmd/dotkeeper/cmds_v5.go:645-760 | when nothing is left to do, every trigger has been followed by a reconcile, and every change exactly when none was lost that way |
| TriggerLoop.ShutdownLosesAChange | cmd/dotkeeper/cmds_v5.go:645-760 | a run of four steps that loses a change while the worker lives |
| GitSync.SafeguardedExactly | internal/reconcile/applier.go:528-573 | without rename detection the committed tree is the worktree plus the old blob of every missing path not staged for deletion beforehand |
| GitSync.SafeguardedAgain | internal/reconcile/applier.go:528-573 | committing again at once changes nothing |
| GitSync.CommittedExactly | internal/gitsync/sync.go:58-94 | for every path whether it is committed and with which content, given which commands failed and which paths git takes for renamed: when an unasked deletion is lost, when a staged one is undone |
| GitSync.FailuresAreHarmlessExactly | internal/gitsync/sync.go:58-94 | the failures of the two listings and the reset leave the safeguarded tree exactly under the stated condition |
| GitSync.FailuresDoHarm | internal/gitsync/sync.go:58-94 | one file removed unasked is deleted when the reset fails, one removed with `git rm` comes back when the first listing fails |
| GitSync.RenamesAreHarmlessExactly | internal/gitsync/sync.go:272-279 | whatever rename detection pairs, the safeguard is what it is without it exactly when no vanished path is taken for renamed afterwards and no staged deletion only beforehand |
| GitSync.PlainMoveDeletes | internal/gitsync/sync.go:272-279 | with rename detection a plain move deletes the old path unasked |
| GitSync.MovedThenEditedComesBack | internal/gitsync/sync.go:272-279 | with rename detection a staged move followed by an edit brings the old path back |
| GitSync.Repo.ApplyGitCommitDirty | internal/reconcile/applier.go:528-573 | on success HEAD is the tree specified for the commands that worked, the safeguarded tree when all do; on failure HEAD is unchanged |
| GitSync.Repo.SyncRepo | internal/gitsync/sync.go:58-105 | the second implementation commits the same tree from the same state |
| GitSync.Repo.ReconcileDelivery | internal/gitsync/sync.go:164-241 | the fast path leaves the worktree unchanged, and drops commits exactly when it runs on a branch that has some upstream lacks; the slow path removes or restages exactly the files that already have upstream's content, and a second run would find none |
| GitSync.DeliveryByFields | internal/gitsync/sync.go:164-241 | by contents: when everything counts as delivered, which untracked files go, which tracked ones are restaged |
| GitSync.DeliveryDropsACommit | internal/gitsync/sync.go:164-190 | one call on two branches with the same files that drops the commit only this one has |
| GitIdent.EverySpellingIsKnown | internal/gitident/canonical.go:68-145 | every URL, SCP-style or bare spelling of a plain host and path, padded or not, has the identity lower-case host, non-default port, cleaned path |
| GitIdent.SameIdentityExactly | internal/gitident/canonical.go:68-145 | two spellings have the same identity exactly when hosts and cleaned paths agree |
| GitIdent.GitSuffixIsIgnored | internal/gitident/canonical.go:141-145 | a trailing `.git` makes no difference exactly when the path does not already end in one |
| GitIdent.DefaultPortsAreDropped | internal/gitident/canonical.go:113-139 | with its scheme's own port a URL is the same remote as the bare and the SCP-style spelling |
| GitIdent.OtherPortsAreKept | internal/gitident/canonical.go:113-139 | two ssh remotes on one host are the same exactly when their ports are |
| GitIdent.IdentityReadsBackExactly | internal/gitident/canonical.go:68-145 | an identity without a port is its own identity exactly when its path is not empty and has no `.git` or slash left at the end; the bare host is unparseable |
| GitIdent.IdentityWithPortReadsBackWrong | internal/gitident/canonical.go:78-84 | an identity with a port, given back as input, becomes another identity |
| ConflictName.RoundTripExactly | internal/conflict/parser.go:68-104 | parsing a composed conflict name recovers name, time, device and extension exactly when the stem has no newline and no whole marker at its end or before a dot |
| ConflictName.OnlyRealTimesAreAccepted | internal/conflict/parser.go:68-104 | a well-formed name is a conflict exactly when its date and time exist, and otherwise a bad timestamp |
| ConflictName.ParsedIsComposed | internal/conflict/parser.go:66-104 | a name that parses is the original's stem, the marker, eight digits, six digits, seven base32 characters and the extension it was parsed into |
| ConflictName.YearHasItsDays | internal/conflict/parser.go:68-104 | which dates exist: 365 or 366 a year |
| ConflictName.FindVariants | internal/conflict/resolver_manual.go:114-139 | the loop lists exactly the regular entries that are conflicts of the file, in order |
| ConflictName.ScannedConflictIsFoundExactly | internal/conflict/resolver.go:39-41 | the variants of a conflict's local file include that conflict exactly when the local file's name is not empty, `.` or `..` |

## Left out

- Running git, Syncthing's REST API, HTTP, fsnotify and the file system themselves: commands and requests succeed or fail as a whole.
- TOML text: loading what was written is the identity on the modelled fields, and the sanitising of TOML keys is not modelled.
- The header and built-in table of the ignore file are parameters, so results hold for any table.
- `time.ParseDuration` text: a git interval is one of the named ones or a number of nanoseconds.
- `~name` paths, symbolic links and per-file permissions on the walk.
- `git/info/exclude`: writing it can fail after the ignore file was written, and its content is not modelled.
- `Subscriptions` in state.toml: `WriteStateV2` does not write them and `subscribe` writes without the lock.
- The Syncthing client's cache under concurrent use: a stale fetch can be stored after an invalidation, so use is sequential.
- Connections, offers, activity, health and git state are arbitrary inputs; the settling theorems take from Syncthing that
  only configured devices have connections.
- The wake and overflow flags as signals that are never lost.
- Values returned by the config cache are shared pointers; what callers do to them is not modelled.
- Discovery probes of the router and the transports themselves: the routes table is an input.
- Floating-point rounding, overflow of durations, and the NaN and infinity branch of the fit: the model is over reals.
- Percent-escapes, IPv6 hosts, queries and fragments in remote URLs, and case folding outside ASCII: such URLs are `NotPlain`.
- git's clean filters, file modes, quoting of unusual path names, and submodules.
- The three-way merge and `Keep`/`Accept` of conflict resolution, and the scanner's own walk.
- Benchmarks, health, doctor, service installation, profiling and command-line formatting.
- GitSync.Repo.SyncRepo: models staging and commit only; fetch, pull and push around them are left out.
- CostModels.CostModel.Record: the clock is an input, and the decay is any function with the laws of exp(-t ln 2).
