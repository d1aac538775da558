# Verified model of test-infra-definitions

A Dafny model of the parts of the repository that carry arithmetic, state or ordering, with proofs of what
they promise. Everything else in the repository is wiring between infrastructure SDKs.

| module | models |
|---|---|
| `Line`, `Namer` | length-bounded resource names: a line walk shares out the bytes, a hash is appended |
| `NamerSlices` | the prefix lists of namers as Go slices with shared backing arrays |
| `Engine` | a deployment engine that starts any resource whose dependencies have finished |
| `Serialisation`, `PackageManagers` | the runner and the package managers that never run in parallel |
| `YamlTree`, `AgentConfig` | the deep merge of YAML documents and the configurations built with it |
| `AgentRestart` | which changes of the Agent's files the Agent has loaded after a deployment |
| `MoveFile` | copying a file over another on a remote host, and undoing it |
| `Providers` | the lazily filled provider registry under any interleaving of threads |
| `Text`, `Images`, `Descriptors`, `Packages` | image references, OS descriptors, the choice of a local package |

Code that changes things step by step is a method or a class proved against a specification function; the
properties are lemmas about that function. `Wrappers.Outcome` stands for a Go call that returns a value,
returns an error or panics. Decisions taken elsewhere (the engine refusing a resource, a factory failing, the
order in which Go visits a map) are parameters or arbitrary choices, so the results hold for all of them.

## Where the code does less than it says

Each of these is a lemma with the exact condition under which the code does meet the expectation, and a lemma with
inputs on which it does not.

- The fuzz test of the namer demands that a truncated name has exactly the maximal length, and also draws negative
  limits. The demand fails on every negative limit, where the function panics unless there are no tokens; when only a
  16-character hash is returned for a longer limit; and when a token after the first is empty: the walk then drops
  everything behind it (`OutputOkIff`; `EmptyTokenIsTooShort`, `HashAloneIsTooShort`, `EmptyTokenHidesTheRest`).
- Package managers serialise their commands unless an `Ensure` issued the database update, then failed, and an
  uninstall follows before the next successful `Ensure` (`NeverInParallel`; `FailedThenUninstalledOverlaps`).
- The Agent is restarted after every change that a trigger shows. A change that shows only in the merged
  configuration, such as a new API key, is not one of them; nor are two sets of files whose concatenations
  agree (`LoadedIff`; `RotatedKeyHappens`, `CollidingTriggersAreMissed`). Conversely the trigger depends on the order in
  which Go visits a map, so files that do not change can restart the Agent (`ListingOrderShows`).
- `MergeMaps` is associative and repeatable only on some documents (`AssociativeIff`, `MergeTwice`;
  `NotAssociative`, `ListsAppendTwice`). A document that holds something other than a map above a path makes the merge
  forget what earlier documents said about the path, list items included (`LookupMergeAll`; `ScalarForgetsList`).
- A core configuration of comments only makes the merge panic (`FoldIff`; `CommentsOnlyPanic`).
- Removing a copied file restores the host exactly when nothing was at the backup path (`UndeployRestoresIff`;
  `UndeployLeaves`, `StaleBackupIsRestored`).
- Parsing an image reference, building it and parsing again can give other parts (`ParseIsStableIff`;
  `ThreeColonsAreUnstable`).
- Windows client descriptors do not parse back from their text (`DescriptorRoundTripIff`; `WindowsClientIsRefused`).
- The documentation of `GetPackagePath` places SUSE packages in `pkg/suse`; the code reads `suse/pkg`, and so
  does the model.

## Model

| member | source | states |
|---|---|---|
| Line.PointsFollowLine | common/namer/namer.go:145-159 | The walk visits every column once, in order, from one end to the other, at the rounded height of the ideal line, climbing by at most one per column |
| Line.RiseEnds | common/namer/namer.go:145-159 | The walk starts at height zero and ends exactly at the requested height |
| Line.RiseMono | common/namer/namer.go:145-159 | Heights never fall and never rise faster than columns advance, which is why no token is cut beyond its end |
| Namer.Bresenham | common/namer/namer.go:145-159 | The incremental loop calls the callback at exactly the points of the rounded line, in order, and leaves the state that these calls produce |
| Namer.TokenPlot.Plot | common/namer/namer.go:116-126 | One call of the closure: what it writes and remembers, given that its indexes and slices are in range |
| Namer.NextWrites | common/namer/namer.go:116-126 | At the end of a token, and only there, the callback writes a prefix of that token as long as the walk has risen, and a separator |
| Namer.WalkWritesPieces | common/namer/namer.go:111-126 | No call of the walk indexes or slices out of range; the result is the pieces of the tokens up to the first empty one after the head. What the pieces are is said by TruncatedNameReads |
| Namer.BeforeStep | common/namer/namer.go:116-126 | Invariant of the callback between two columns: the pieces written so far, the next token end it waits for, or that it has missed it for good |
| Namer.PiecesAreProportional | common/namer/namer.go:111-126 | The first k pieces weigh the rounded proportional share of the first k tokens, and each piece is strictly within one byte of its own share |
| Namer.PiecesLength | common/namer/namer.go:111-126 | Total length of the first k pieces with their separators |
| Namer.JoinWithMaxLength | common/namer/namer.go:73-135 | The method with its loop and callback computes the bounded name: the join if it fits, the hash alone if there are too many tokens, else the pieces and the cut hash; a panic only on a negative limit |
| Namer.KindOfName | common/namer/namer.go:73-107 | The join if it is not longer than the limit; a prefix of the hash if two bytes per token and the bytes for the hash (a fifth of the limit, at most sixteen) exceed the limit; otherwise a truncated name |
| Namer.TruncatedNameReads | common/namer/namer.go:109-134 | In a truncated name every token up to the first empty one after the head shows a prefix as long as its share, in its place, followed by a separator |
| Namer.TruncatedNameEnds | common/namer/namer.go:128-134 | Behind the last separator stands a prefix of the hash, of a fifth of the limit and at most sixteen bytes; without the hash the last separator is missing |
| Namer.FiveTokens | common/namer/namer_test.go:33-37 | The case of the unit test: foo, bar, baz, qux and quux cut to nineteen bytes |
| Namer.ResourceNamesAreWhole | common/namer/namer.go:49-55 | Resource names are joined in full: no string reaches their limit |
| Namer.NameIsBounded | common/namer/namer.go:73-135 | For every token list and limit, with or without the hash: never longer than the limit, and a panic exactly on the negative limits that do not fit |
| Namer.TruncatedLength | common/namer/namer.go:102-134 | A truncated name has exactly the maximal length if and only if no token after the first is empty |
| Namer.OutputOkIff | common/namer/namer_test.go:161-185 | The demand of the fuzz test holds exactly when the limit is not negative and the name fits, or only the hash is returned and the limit is at most its size, or no token after the first is empty |
| Namer.EmptyTokenIsTooShort | common/namer/namer_test.go:161-185 | Ten bytes, an empty token and ten bytes, cut to fifteen, give a name that the fuzz test refuses |
| Namer.HashAloneIsTooShort | common/namer/namer_test.go:161-185 | Eight tokens of three bytes, cut to seventeen, give the sixteen digits of the hash, which the fuzz test refuses |
| Namer.EmptyTokenHidesTheRest | common/namer/namer.go:116-123 | Token lists that agree up to an empty token, in count and in size give names that can differ in the hash only |
| Namer.Hash | common/namer/namer.go:137-143 | The hash reads the concatenated tokens and has sixteen digits |
| Namer.HashIsDigest | common/namer/namer.go:137-143 | Reading the sixteen digits of the hash gives the digest of the concatenated tokens |
| Namer.ConcatHolds | common/namer/namer.go:137-143 | Every token stands in what is hashed, in full and in order |
| NamerSlices.NamerValue.WithPrefix | common/namer/namer.go:40-47 | A new namer with one more prefix and no spare capacity, on a fresh array; nothing that existed is modified |
| NamerSlices.NamerValue.ResourceName | common/namer/namer.go:49-55 | Panics without parts; otherwise the bounded name of prefixes and parts, and no existing array is written |
| NamerSlices.NamerValue.DisplayName | common/namer/namer.go:57-71 | The bounded name of the stack, the prefixes and the parts, and no existing array is written |
| NamerSlices.NewNamer | common/namer/namer.go:27-38 | No prefix for the empty string, one otherwise, without spare capacity |
| NamerSlices.Serve | common/namer/namer.go:40-55 | Any sequence of derivations and names on namers derived from one another: every namer keeps its prefixes, as if they were plain values |
| NamerSlices.SpareCapacityAliases | common/namer/namer.go:40-47 | Two appends to a shared slice with room left overwrite each other, which the explicit copy prevents |
| Engine.OrderIsKept | components/os/generic_packagemanager.go:78-79 | In every schedule a resource starts only after everything that precedes it in the graph has finished |
| Engine.ExclusiveIffOrdered | components/os/generic_packagemanager.go:78-79 | Two resources can run at the same time in some schedule if and only if the graph does not order them |
| Engine.Progress | components/os/generic_packagemanager.go:78-79 | As long as something is not done, some step is possible; when all is done, none is |
| Engine.SchedulesEnd | components/os/generic_packagemanager.go:78-79 | Every schedule ends: its length counts the starts and finishes, at most two per resource |
| Serialisation.StepSerial | components/os/generic_packagemanager.go:47-149 | Every call keeps the invariant, and keeps all commands of the package manager ordered unless it is the unsafe call |
| Serialisation.RunSerial | components/os/generic_packagemanager.go:47-149 | After any sequence of calls, failing ones included, the commands are totally ordered if and only if no call was unsafe |
| Serialisation.CallRegisters | components/os/generic_packagemanager.go:47-149 | What a call registers depends on all that its caller named and the runner adds, and otherwise only on commands of the package manager; a successful call hands out a command of the kind asked for, a failed one leaves at most the DB update |
| Serialisation.StartsAfterWhatWasAsked | components/os/generic_packagemanager.go:47-149 | After any calls, in every schedule, whatever a call registered starts only after everything that its caller named is done |
| Serialisation.NeverInParallel | components/os/generic_packagemanager.go:47-149 | No two commands, DB update included, run at the same time in any schedule if and only if no uninstall followed a failed Ensure that had issued the update |
| Serialisation.FailedThenUninstalledOverlaps | components/os/generic_packagemanager.go:47-149 | From every initial world with a DB update, an Ensure whose install fails and then an EnsureUninstalled leave an update and an uninstall that run at the same time in some schedule |
| Serialisation.ErrorFreeIsSafe | components/os/linux_zypper_packagemanager.go:27-104 | Error-free calls, and managers without a DB update, are always safe |
| Serialisation.UpdateOnceAndFirst | components/os/generic_packagemanager.go:90-97 | After any calls from a new package manager the DB update is issued at most once, and every schedule finishes it before any install starts |
| PackageManagers.GenericPackageManager.Ensure | components/os/generic_packagemanager.go:83-130 | The step of the abstract manager with its error cases; the command returned is an install and depends on what the runner adds and on everything the caller named |
| PackageManagers.GenericPackageManager.EnsureUninstalled | components/os/generic_packagemanager.go:47-82 | Likewise for an uninstall, with the error for a missing uninstall command |
| PackageManagers.GenericPackageManager.UpdateDB | components/os/generic_packagemanager.go:132-149 | Issues the update once, remembers it only on success, and returns it from then on |
| PackageManagers.GenericPackageManager.Serve | components/os/generic_packagemanager.go:47-149 | Any requests to the object, mixed with resources registered elsewhere, take it through the abstract run; starting from a new object, its commands never run in parallel if and only if no request was unsafe, and the DB update comes once and first |
| PackageManagers.ZypperPackageManager.Ensure | components/os/linux_zypper_packagemanager.go:27-67 | The step of the abstract manager with its error cases; the command returned is an install and depends on what the runner adds and on everything the caller named, without a DB update |
| PackageManagers.ZypperPackageManager.EnsureUninstalled | components/os/linux_zypper_packagemanager.go:69-104 | Likewise for an uninstall, which always has a command |
| PackageManagers.ZypperPackageManager.Serve | components/os/linux_zypper_packagemanager.go:27-104 | Any requests take the object through the abstract run, and the commands of a new object never run in parallel |
| PackageManagers.RemoteRunner.Command | components/command/runner.go:214-231 | Registers one resource that depends on the options of the runner and of the caller; refuses local arguments |
| PackageManagers.NewRemoteRunner | components/command/runner.go:168-196 | The ready function issues any commands on the runner under construction and names any of them, or an earlier resource, as the wait command; only that becomes a dependency of everything issued later. An error leaves what was issued |
| PackageManagers.ReadyBeforeCommands | components/command/runner.go:186-193 | In every schedule no command of the runner starts before the wait command has finished, whatever options were added |
| YamlTree.MergeMaps | common/utils/yaml.go:54-80 | The in-place loop computes the pointwise merge whatever order the keys are visited in |
| YamlTree.LookupMerge | common/utils/yaml.go:54-80 | At every path: what the second document says wins, merges with maps and, if asked, lists of the first, and leaves alone what it does not touch |
| YamlTree.AssociativeIff | common/utils/yaml.go:54-80 | Merging is associative if and only if, wherever the outer documents would merge but the middle one replaces, the first adds nothing to the last |
| YamlTree.AbsorbedIff | common/utils/yaml.go:54-80 | The structural condition for one document to add nothing to another |
| YamlTree.NotAssociative | common/utils/yaml.go:54-80 | A map, a scalar and a map at one key merge differently in the two groupings |
| YamlTree.MergeTwice | common/utils/yaml.go:54-80 | Merging a document again changes nothing if and only if lists are not merged or the document has no list items |
| YamlTree.ListsAppendTwice | common/utils/yaml.go:66-76 | Merging a one-item list twice appends it twice |
| YamlTree.LookupMergeAll | common/utils/yaml.go:54-80 | Looking up a path in the merge of any documents is merging what they say about the path since a document last held something other than a map above it |
| YamlTree.ListsConcatenate | common/utils/yaml.go:66-76 | A path at which everything said since it was last blocked is a list ends with all those items, in order |
| YamlTree.ScalarForgetsList | common/utils/yaml.go:54-80 | A scalar between two documents makes the merge forget the list items of the first |
| YamlTree.LastWriterWins | common/utils/yaml.go:54-80 | A scalar stays until a later document says something about its path |
| YamlTree.LastSaidWins | common/utils/yaml.go:54-80 | Without merging lists, the last thing said about a path since it was last blocked replaces what was said before, unless it is a map |
| AgentConfig.MergeYaml | common/utils/yaml.go:24-52 | Empty texts pass the other through undecoded; malformed ones are errors; keys merged into no map panic |
| AgentConfig.MergedLists | common/utils/yaml.go:16-52 | Merging two texts: a list of the second is appended to a list of the first if slices are merged, and otherwise replaces what is there |
| AgentConfig.UpdateCoreAgentConfig | components/datadog/agent/host.go:178-222 | The loop folds the documents and the key into the base, stops at the first failure, and hands back the unmerged base |
| AgentConfig.KeyAlwaysWins | components/datadog/agent/host.go:204-218 | Unless skipped, the key of the environment ends up at the top level of the file |
| AgentConfig.ExtrasAreKept | components/datadog/agent/host.go:178-222 | Off the API key the written file holds what the base and the extra documents say, with or without the key |
| AgentConfig.FoldIff | components/datadog/agent/host.go:208-217 | With and without merging slices: the fold succeeds exactly on mergeable documents, and then yields their merge; it panics exactly when the first text is only comments and the second has keys, and returns an error otherwise |
| AgentConfig.CommentsOnlyPanic | components/datadog/agent/host.go:204-217 | A base of comments only panics when the API key is added |
| AgentConfig.ConfigFileHolds | components/datadog/agent/host.go:208-217 | What the result holds at any path, with and without merging slices, whenever the fold succeeds on any text: the merge of what the documents said there since the path was last blocked |
| AgentConfig.ExportersReportToFakeintake | components/datadog/agent/kubernetes_helm.go:854-878 | All three exporter endpoints are the given URL, for every user configuration |
| AgentConfig.UserConfigIsKept | components/datadog/agent/kubernetes_helm.go:854-878 | Every path that neither leads to nor passes an endpoint holds what the user said |
| AgentRestart.UpdateReachesDisk | components/datadog/agent/host.go:152-176 | Every schedule of an update leaves exactly the files that the new program asks for |
| AgentRestart.HostHolds | components/datadog/agent/host.go:125-156 | After every schedule of an update the three configuration files and every listed file hold the text meant for them, and other paths what they held before |
| AgentRestart.LoadedIff | components/datadog/agent/host.go:152-176 | In every schedule the Agent ends up having loaded what is on the host if and only if the triggers showed the change |
| AgentRestart.LoadedOnNewHash | components/datadog/agent/host.go:258-298 | When the hash changes, the restart on delete comes after the last write and the last delete |
| AgentRestart.LoadedOnOtherTrigger | components/datadog/agent/host.go:157-174 | With the same hash, the restart on create is enough exactly when no removed file made a difference |
| AgentRestart.UpgradeRestarts | components/datadog/agent/host.go:165-174 | A new version is installed and the Agent restarted after that |
| AgentRestart.CommandsAreOrdered | components/datadog/agent/host.go:124-176 | On a first deployment directories, files, permissions and the restart are created in this order after the installation, and deletes run in reverse |
| AgentRestart.ChangedFileShows | components/datadog/agent/host.go:249-256 | The text behind the trigger changes with the content of any one file |
| AgentRestart.ChangedFileIsLoaded | components/datadog/agent/host.go:249-298 | With a digest that tells the two texts apart, the Agent loads the change of any one file in every schedule |
| AgentRestart.UpToDateThroughout | components/datadog/agent/host.go:152-176 | Over any history of deployments whose triggers tell changes apart, the Agent always has what is on the host |
| AgentRestart.RotatedKeyIsNotLoaded | components/datadog/agent/host.go:170-221 | A new API key is written to the host but not loaded, in every schedule |
| AgentRestart.RotatedKeyHappens | components/datadog/agent/host.go:170-221 | Whatever else a program asks for, with an empty base and no other documents a new key gives an update with a schedule that leaves the Agent without it |
| AgentRestart.CollidingTriggersAreMissed | components/datadog/agent/host.go:249-256 | Moving characters from the content of a file to its path keeps the trigger, so the change is not loaded |
| AgentRestart.ListingOrderShows | components/datadog/agent/host.go:249-256 | Listing the same files in another order gives another text |
| AgentRestart.SomeSchedule | components/datadog/agent/host.go:157-163 | The ordering rules never contradict each other: every update has a schedule |
| AgentRestart.InstallIntegrationConfigsAndFiles | components/datadog/agent/host.go:241-334 | The trigger of some enumeration of the files; for every file a directory command, a copy that depends on it and on the restart on removal, and a permission command if it has permissions; the files they write; errors exactly for relative paths and for two files at one path |
| AgentRestart.InstallAgent | components/datadog/agent/host.go:113-176 | What an installation writes, what it puts in the triggers, exactly when it succeeds, and that its commands are the resources, dependencies and restarts of the model |
| MoveFile.RemoteHost.Create | components/command/unixOSCommand.go:108-114 | The create command on the files of the host; a missing source leaves the destination moved away |
| MoveFile.RemoteHost.Delete | components/command/unixOSCommand.go:108-114 | The delete command on the files of the host; it never leaves a backup |
| MoveFile.RemoteHost.Deploy | components/command/unixOSCommand.go:108-114 | A creation and any number of replacements, each deleting first |
| MoveFile.DeployedState | components/command/unixOSCommand.go:108-114 | After any history the destination holds the latest content, the backup exactly the original, and other paths are unchanged |
| MoveFile.UndeployRestoresIff | components/command/unixOSCommand.go:108-114 | The final delete restores all files, for any history, if and only if the backup path was free |
| MoveFile.UndeployLeaves | components/command/unixOSCommand.go:108-114 | What the final delete leaves on any host and for any history: a file at the backup path ends up at the destination, or is lost if there was one at the destination |
| MoveFile.StackedRestoresIff | components/command/unixOSCommand.go:113 | Why replacing deletes first: after any number of creations on top of one another a delete restores the original only if there was a single one, or if the content before the last happens to equal it |
| MoveFile.MissingSource | components/command/unixOSCommand.go:108-114 | When the source is missing the destination is only moved away, and a delete puts it back |
| Providers.ProviderRegistry.GetProvider | common/config/providers.go:103-122 | The statements are steps of the interleaving model; the call succeeds exactly if a provider is stored or can be made, returns what every earlier event for the id since its last registration says, stores a new provider once, and leaves the lock free and the thread crashed on a panic |
| Providers.ProviderRegistry.RegisterProvider | common/config/providers.go:96-101 | The statements are steps of the interleaving model that add one registration to its log and leave the lock free, so that the lemmas about its runs hold of the object |
| Providers.Serve | common/config/providers.go:96-122 | In any sequence of calls on one object every get returns what the last registration of its id, or any earlier get since then, determined; the first panic is a get of an id without a provider |
| Providers.StepKeepsInv | common/config/providers.go:96-122 | Every step of any thread keeps mutual exclusion, the agreement of the map with the events, and their lawfulness |
| Providers.MadeOnce | common/config/providers.go:103-119 | In every interleaving the factory of an id succeeds at most once, and never after a registration |
| Providers.GetsAgree | common/config/providers.go:103-119 | Two gets of an id without a registration in between return the same provider |
| Providers.GetsSeeRegistrations | common/config/providers.go:96-108 | A get returns the last registered provider |
| Providers.HolderReleases | common/config/providers.go:96-122 | From every reachable state, whatever its factory does, the holder of the lock releases it within four steps of its own |
| Providers.NoDeadlock | common/config/providers.go:96-122 | As long as some call is under way, some thread can take a step |
| Providers.CloudsMustBeRegistered | common/config/providers.go:18-66 | All providers but those of AWS and Azure are made on demand |
| Images.ParseBuiltIff | common/utils/docker.go:8-30 | Parsing a built reference returns its parts exactly for the listed repositories and versions |
| Images.ParseByText | common/utils/docker.go:12-30 | A reference that is a path, a colon and a tag without colon or slash parses to the two; any other is a path and gets the tag latest; one final colon of the path is dropped; no text panics |
| Images.PortIsNoTag | common/utils/docker_test.go:27-30 | The colon before a port does not start a tag |
| Images.ParseIsStableIff | common/utils/docker.go:12-30 | Parse, build and parse again is stable exactly if the path that was parsed is not empty and does not end in a colon |
| Images.ThreeColonsAreUnstable | common/utils/docker.go:8-30 | A reference with three colons in a row is parsed differently after it was parsed and built |
| Images.SplitImagePathRejoins | components/datadog/agent/kubernetes_helm.go:249-256 | Registry and image name make the path again, and the name has no slash |
| Descriptors.DescriptorRoundTripIff | components/os/descriptor.go:22-63 | Parsing what a descriptor prints gives it back, family included, exactly when its version has no colon and its architecture is canonical |
| Descriptors.ParseTwo | components/os/descriptor.go:32-50 | A flavor and a version give a descriptor of that flavor, its family and x86_64, or a panic for an unknown flavor |
| Descriptors.ParseOne | components/os/descriptor.go:32-40 | No text gives the fallback; a text without a colon panics |
| Descriptors.FlavorRoundTrip | components/os/const.go:61-137 | Every known flavor is recognised by the name it prints |
| Descriptors.Aliases | components/os/const.go:15-91 | The other names of flavors and architectures |
| Descriptors.CaseDoesNotMatter | components/os/const.go:15-63 | Capital letters do not matter |
| Descriptors.FamilyByName | components/os/const.go:93-104 | The family of a recognised flavor shows in its name |
| Descriptors.WindowsClientIsRefused | components/os/windows_descriptors.go:12-20 | The text of a Windows client descriptor makes the parser panic |
| Packages.GetPackagePath | components/datadog/agent/package.go:34-164 | The loop over the directory computes the choice, with its errors and its panic |
| Packages.FoundIffOneEligible | components/datadog/agent/package.go:137-163 | A package is found exactly when one entry is eligible, and it is that one |
| Packages.PickedFits | components/datadog/agent/package.go:78-163 | A package that is picked is an entry of the wanted kind, FIPS or not as asked, for the architecture, and not a debug, upgrade-test or foreign pipeline package |
| Packages.OnlyFitIsPicked | components/datadog/agent/package.go:78-163 | The only entry that fits is picked: nothing else is asked of it |
| Packages.WantedIn | components/datadog/agent/package.go:34-75 | Which extension is wanted for each flavor, and which folder is read |
| Packages.OrderDoesNotMatter | components/datadog/agent/package.go:78-163 | The order in which the directory is listed does not matter |
| Packages.FipsSplitsPackages | components/datadog/agent/package.go:120-134 | The entries selected for FIPS and not for FIPS are disjoint and together are all that pass the other filters |

## Left out

- Pulumi itself: resources are numbers with dependencies; engine failures in the middle of a deployment are not modelled.
- The order of one update: taken from the comment at components/datadog/agent/host.go:157-165, with steps that take effect at once. The model requires only what holds both when creates and replaces are one phase and when they are two.
- Hash functions: any function from text to a 64-bit word (or to text) stands for FNV.
- JoinWithMaxLength: integers are unbounded. The error term of the walk stays within twice the total size of the tokens, so 64-bit arithmetic cannot overflow on strings that fit in memory.
- Strings: a character stands for a byte; file names without line breaks are assumed where the source uses regular expressions.
- MergeMaps: Go's sharing of map and slice storage between the inputs and the result is not modelled; every caller encodes the result at once.
- YAML text: documents start decoded; maps with keys that are not strings count as scalars, and an API key is taken to be a plain scalar. A user configuration that decodes to no map is not part of the OTel model.
- AgentRestart.InstallAgent: what the install, upload, directory and permission commands do, `UseSudo`, and the options that callers add are not modelled. Any steps of these commands may happen in an update, at any time that their dependencies allow.
- MoveFile: shell quoting, permissions and the Windows variant are left out; the uploaded source is at a path of its own.
- PackageManagers: command lines, environments, package name mappings and transformers do not affect the order and are left out.
- LocalRunner and the copy commands of the runners: they only pass options on.
- The tag helpers of common/config/helpers.go and the environment defaults: each looks up or formats one value, without state or order between calls.
- Scenarios and the Helm value tables: constants handed to Pulumi, whose meaning lies in the cloud and in the charts.
