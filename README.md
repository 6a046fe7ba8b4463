# Package manager resolution layer, modelled in Dafny

This project models the in-memory resolution layer of arduino-cli's
`PackageManager` (`cores/packagemanager/package_manager.go`). The manager
owns a registry: a map from package name to package. A package holds
platforms (keyed by architecture) and tools (keyed by name). A platform may
have an installed release, and that release holds boards and tool
dependencies. A tool holds releases keyed by version. On top of this
registry the manager provides:

- a fluent lookup chain `Package(p).Tool(t).Release(v).Get()`, plus
  `IsInstalled()`. Each stage either resolves the next entity or carries the
  first error forward unchanged;
- board locators over installed platform releases: by USB id, by board id,
  and by fully-qualified board name (FQBN, `packager:arch:boardId[:options]`);
- the tool-requirement resolver `FindToolsRequiredForBoard`. It takes the
  latest installed release of every tool, then overrides those entries with
  the exact releases the board's platform declares, keyed by the tool
  identity "packager:tool";
- manager state: `Clear` and single-handler registration.

Files and modules:

- `wrappers.dfy` (`Wrappers`): `Option` and `Result`, standing in for Go's
  nil pointers and `(value, error)` pairs.
- `text.dfy` (`Text`): Go's `strings.Split` and `strings.Join` for a
  one-character separator, with their round-trip lemmas.
- `cores.dfy` (`Cores`): the registry entities, which are read-only here.
  Back-references (from a board to its platform release, from a tool release
  to its tool) are value summaries. The module also holds the registry's
  well-formedness invariant `WellFormed`, simple definitions of the helpers
  the manager calls on entities, and `GetLatestInstalled`.
- `errors.dfy` (`Errors`): one error constructor per message the manager
  formats, and `Message()`, which renders the text the source produces.
- `resolution.dfy` (`Resolution`): the fluent chain, `IsInstalled` and
  `FindToolDependency`, as total functions of the registry value.
- `locator.dfy` (`Locator`): a key-lookup reference definition of the FQBN
  search and the per-release search loops the locators use.
- `requirements.dfy` (`Requirements`): reference definitions for tool
  resolution. `Pinned` is the ordered overlay of the declared dependencies.
  `IsDefaults` describes the default map. `ListsValues` says a list holds a
  map's values once each. The lemmas connect these to the listed properties.
- `package_manager.dfy` (`Manager`): the class `PackageManager`. Its fields
  are `packages` and `eventHandler`. Its searches are methods whose loops
  walk the Go maps' key sets in an arbitrary order, chosen with `:|`.

In the source, Go map iteration order is unspecified. The methods therefore
state their results independently of that order. Where the result does
depend on the order, the model states it for a well-formed registry. A
registry is well-formed when every entity is stored under its own name,
back-references name the owner that stores them, and package names contain
no `:`. In such a registry the order cannot matter, and the contracts give
the exact result as `WellFormed(packages) ==> ...`.

Behaviour of the code worth stating explicitly:

- An FQBN whose package is unknown ends in "board not found". The code has
  no separate outcome for an unknown package: the search loop only skips
  packages that do not match (package_manager.go:133-154).
- FQBN segments are not required to be non-empty. Only the segment count is
  checked (package_manager.go:125).
- `GetEventHandlers` always returns exactly one entry. In the source it is a
  reference to the handler slot; the model returns the slot's value, which
  may be empty (package_manager.go:168-170).
- A second `RegisterEventHandler` panics in the source. Here it returns an
  error and leaves the first handler in place.
- The release error reads `release <v> not found for tool <packager>:<tool>`
  (package_manager.go:270).
- A declared tool dependency resolves as soon as its packager, tool and version
  are registry keys; whether that release is installed is not checked
  (package_manager.go:340-346). So `FindToolsRequiredForBoard` can list a
  declared release that is not installed. Only the default picks are
  guaranteed installed (`Requirements.DefaultsAreInstalled`).

## Model

| member | source | states |
|---|---|---|
| `Text.Split` | cores/packagemanager/package_manager.go:124 | the FQBN split has one more piece than the string has `:` characters, and no piece contains `:` |
| `Text.JoinSplit` | cores/packagemanager/package_manager.go:124 | joining the pieces of a split with the separator gives back the original string |
| `Text.SplitJoin` | cores/packagemanager/package_manager.go:124-130 | splitting a join of separator-free pieces gives back exactly those pieces |
| `Cores.ToolStringInjective` | cores/packagemanager/package_manager.go:310-319 | two "packager:tool" identities are equal only for the same packager and tool, provided packager names contain no `:` |
| `Cores.Tool.GetRelease` | cores/packagemanager/package_manager.go:268 | a release is found exactly when the version is a key of the tool's releases, and it is the release stored there |
| `Cores.ToolStringReadsBack` | cores/packagemanager/package_manager.go:319 | for a colon-free packager, splitting a "packager:tool" identity at `:` gives back the packager, and the text after the colon is the tool name |
| `Cores.Board.HasUsbID` | cores/packagemanager/package_manager.go:95 | a board matches (vid, pid) exactly when one of its declared USB ids has that vid and that pid, compared exactly with no normalisation |
| `Cores.Platform.GetInstalled` | cores/packagemanager/package_manager.go:93 | gives a release exactly when the platform has an installed release, and then gives that release |
| `Cores.ToolRelease.IsInstalled` | cores/packagemanager/package_manager.go:257 | a tool release counts as installed exactly when its installation flag is set |
| `Cores.ToolRelease.ToolKey` | cores/packagemanager/package_manager.go:319 | the identity of the tool a release belongs to is as long as packager, colon and tool name together, with the colon right after the packager; `Cores.ToolStringReadsBack` gives both parts back |
| `Cores.Tool.String` | cores/packagemanager/package_manager.go:270 | a tool's identity is as long as packager, colon and tool name together, with the colon right after the packager; `Cores.ToolStringReadsBack` gives both parts back |
| `Cores.GetLatestInstalled` | cores/packagemanager/package_manager.go:317 | returns a release exactly when some release is installed; that release is installed, belongs to the tool, and no installed release has a higher version |
| `Cores.LatestInstalledUnique` | cores/packagemanager/package_manager.go:317 | a well-formed tool has at most one latest installed release, so the default pick is determined |
| `Errors.Error.Message` | cores/packagemanager/package_manager.go:126-328 | the text of each error as the manager formats it; every name an error carries (package, tool, version, dependency parts) appears in its text |
| `Errors.KindFromText` | cores/packagemanager/package_manager.go:126-328 | every message starts with fixed wording (for example "package '" or "tool release not found: ") from which the kind of error is read back |
| `Errors.MessageDeterminesKind` | cores/packagemanager/package_manager.go:126-328 | two errors of different kinds never have the same message, whatever names they carry |
| `Resolution.Package` | cores/packagemanager/package_manager.go:190-201 | the handle carries an error exactly when the name is not a registry key, and the error is "package '<name>' not found"; otherwise it holds that package |
| `Resolution.Tool` | cores/packagemanager/package_manager.go:214-228 | an errored handle passes its error on unchanged; otherwise the tool is found exactly when it is a key of the package's tools, and the error names the tool and the package |
| `Resolution.Release` | cores/packagemanager/package_manager.go:264-273 | an errored handle passes its error on unchanged; otherwise the release is found exactly when the version is a release key, and the error names the version and "packager:tool" |
| `Resolution.Handle.Get` | cores/packagemanager/package_manager.go:242-248 | returns the entity without error exactly on a resolved handle, and otherwise returns the latched error |
| `Resolution.IsInstalled` | cores/packagemanager/package_manager.go:251-262 | on a valid handle: true exactly when some release of the tool is installed, and never an error; on an errored handle: false with that error |
| `Resolution.FindToolDependency` | cores/packagemanager/package_manager.go:340-346 | a release is returned exactly when packager, tool and version all resolve, and it is the release stored under them |
| `Resolution.ErrorLatches` | cores/packagemanager/package_manager.go:214-289 | once a handle carries an error, `Tool`, `Release`, `Get` and `IsInstalled` all report that same error |
| `Resolution.ChainOutcome` | cores/packagemanager/package_manager.go:190-289 | the whole chain reports the first stage that fails, with that stage's error; when P has tool T with release V, it returns that release with no error |
| `Resolution.ChainMessages` | cores/packagemanager/package_manager.go:195-270 | in a well-formed registry, each stage's message names the missing key and its scope: "package 'p' not found", "tool 't' not found in package 'p'", "release v not found for tool p:t" |
| `Resolution.ResolvedDependencyMatches` | cores/packagemanager/package_manager.go:340-346 | in a well-formed registry, a resolved dependency has the dependency's packager, tool and version, so its identity is "packager:tool" of the dependency |
| `Resolution.IsInstalledMatchesRegistry` | cores/packagemanager/package_manager.go:251-262 | in a well-formed registry, `IsInstalled` on `Package(p).Tool(t)` is true exactly when the registry's installed releases include one of tool t of package p |
| `Locator.FqbnLookup` | cores/packagemanager/package_manager.go:122-155 | reference outcome of the FQBN search; it is "incorrect format for fqbn" exactly when the FQBN has fewer than 2 or more than 3 `:` characters |
| `Locator.FqbnFindsBoard` | cores/packagemanager/package_manager.go:124-154 | with three segments, or four with menu options: an installed board is found by its package, architecture and id; a non-installed platform gives "platform not installed"; a missing id gives "board not found" |
| `Locator.FqbnResultIdentifiesBoard` | cores/packagemanager/package_manager.go:128-150 | in a well-formed registry, a board found by FQBN is an installed board, and its id, packager and architecture are the FQBN's first three segments |
| `Locator.BoardsOfRelease` | cores/packagemanager/package_manager.go:94-98 | lists exactly the boards of one release that satisfy the filter |
| `Locator.FindBoardWithId` | cores/packagemanager/package_manager.go:147-151 | returns a board of the release with the requested id, and returns none exactly when no board has that id |
| `Locator.InstalledReleasesOf` | cores/packagemanager/package_manager.go:295-299 | lists exactly the installed releases of one tool |
| `Requirements.FirstUnresolved` | cores/packagemanager/package_manager.go:325-329 | gives the index of a dependency that does not resolve, such that every earlier one does |
| `Requirements.FirstUnresolvedAt` | cores/packagemanager/package_manager.go:325-329 | when every earlier dependency resolves and dependency i does not, i is the first unresolved one |
| `Requirements.Pinned` | cores/packagemanager/package_manager.go:324-331 | every entry of the dependency overlay is stored under its own "packager:tool" identity |
| `Requirements.PinnedFromDeclared` | cores/packagemanager/package_manager.go:325-331 | every overlay entry is the exact release of some declared dependency |
| `Requirements.PinnedLastWins` | cores/packagemanager/package_manager.go:325-331 | a resolved dependency that no later dependency on the same tool overrides is in the overlay, with its exact release |
| `Requirements.PinnedStep` | cores/packagemanager/package_manager.go:330 | taking one more dependency stores its release under its tool identity |
| `Requirements.RequiredTools` | cores/packagemanager/package_manager.go:305-338 | a listed release whose tool the platform declares is the last declared release for it, so overridden defaults and earlier declarations are gone; each declared release that no later one overrides is listed; in a well-formed registry the latest installed release of every undeclared tool is listed; nothing else is listed |
| `Requirements.DefaultsAreInstalled` | cores/packagemanager/package_manager.go:291-322 | every default pick is among the registry's installed tool releases |
| `Requirements.ValuesOf` | cores/packagemanager/package_manager.go:333-336 | the copied list holds each value of the map exactly once, one per tool identity |
| `Manager.PackageManager.constructor` | cores/packagemanager/package_manager.go:67-71 | a new manager has an empty registry and no event handler |
| `Manager.PackageManager.Clear` | cores/packagemanager/package_manager.go:73-75 | the registry becomes empty and the event handler is kept |
| `Manager.PackageManager.GetPackages` | cores/packagemanager/package_manager.go:85-87 | returns the manager's own registry |
| `Manager.PackageManager.RegisterEventHandler` | cores/packagemanager/package_manager.go:159-165 | the first registration installs the handler; any later one is refused with an error, and the first handler and the registry stay unchanged |
| `Manager.PackageManager.GetEventHandlers` | cores/packagemanager/package_manager.go:168-170 | always exactly one entry: the handler slot, which is empty while no handler is registered |
| `Manager.PackageManager.CollectInstalledBoards` | cores/packagemanager/package_manager.go:89-119 | lists exactly the boards of installed platform releases, across all packages, that satisfy the filter |
| `Manager.PackageManager.FindBoardsWithVidPid` | cores/packagemanager/package_manager.go:89-103 | a board is listed exactly when it belongs to an installed platform release and declares (vid, pid); the list is empty, not an error, when nothing matches |
| `Manager.PackageManager.FindBoardsWithID` | cores/packagemanager/package_manager.go:105-119 | a board is listed exactly when it belongs to an installed platform release and has the id; matches from several packages are all listed |
| `Manager.PackageManager.FindBoardWithFQBN` | cores/packagemanager/package_manager.go:122-155 | "incorrect format for fqbn" exactly when the FQBN does not split into 3 or 4 pieces; a returned board is installed and has the third piece as its id; on a well-formed registry the outcome is `FqbnLookup` |
| `Manager.PackageManager.GetAllInstalledToolsReleases` | cores/packagemanager/package_manager.go:291-303 | a release is listed exactly when it is an installed release of some tool of some package |
| `Manager.PackageManager.LatestInstalledTools` | cores/packagemanager/package_manager.go:315-322 | each entry is, under its own identity, some tool's latest installed release; in a well-formed registry every tool with an installed release has its entry |
| `Manager.LatestInstalledToolsOf` | cores/packagemanager/package_manager.go:316-321 | every entry stays a latest installed pick stored under its own identity, and no entry is dropped; in a well-formed registry it records the latest installed release of every tool of the package, and adds or changes only entries whose packager is that package |
| `Manager.RecordingKeepsOthers` | cores/packagemanager/package_manager.go:315-322 | in a well-formed registry, recording one package's tools leaves the entries of every other package intact |
| `Manager.KeyOfLatest` | cores/packagemanager/package_manager.go:317-319 | in a well-formed registry, a tool's latest installed release is keyed by "packager:tool" of that tool |
| `Manager.PackageManager.FindToolsRequiredForBoard` | cores/packagemanager/package_manager.go:305-338 | fails exactly when some declared dependency does not resolve, naming the first such dependency; otherwise lists, once per tool identity, the default map overlaid in order by the declared dependencies' exact releases |

## Left out

- `LoadPackageIndex` (package_manager.go:173-186) reads a cached file for a URL and parses the index with a foreign package. That is file I/O and code outside this model.
- `EnableDebugOutput`, `DisableDebugOutput` and the debug print inside the FQBN search only produce log output. They have no behaviour to state.
- `EventHandler.OnDownloadingSomething` and the parallel download progress handler concern concurrent downloads, which are external. A handler is modelled only by its identity.
- Manager.PackageManager.RegisterEventHandler: the source panics on a second registration; the model returns an error. Registering a nil handler, which leaves the slot empty, is not modelled.
- The `cores` package is not part of this model, so its helpers get simple definitions. `GetInstalled` is a stored optional release. `HasUsbID` is membership of the exact (vid, pid) pair, with no normalisation of the ids. `GetRelease` is a map lookup. `IsInstalled` is a flag. `Tool.String` is `packager + ":" + tool`.
- Cores.ToolRelease.ToolKey: its own contract states only the length and the colon position. Reading the parts back is the separate lemma `Cores.ToolStringReadsBack`, which keeps the contract cheap wherever identities are compared. The same holds for `Cores.Tool.String`.
- Cores.GetLatestInstalled: the source's version ordering is not part of this model. Lexicographic order stands in for it, and the proofs use only its total-order laws. No semantic-version rules are claimed. The stand-in order is antisymmetric, so the latest installed release is unique (`Cores.LatestInstalledUnique`). Under an order with distinct but equal-ranking versions, such as semantic versions that differ only in build metadata, the source's pick among them would depend on map order.
- Manager.PackageManager.FindBoardsWithVidPid: the result is stated by membership, so order and multiplicity are not stated. Order comes from Go map iteration.
- Manager.PackageManager.FindBoardsWithID: the result is stated by membership; order and multiplicity are not stated.
- Manager.PackageManager.GetAllInstalledToolsReleases: the result is stated by membership; order and multiplicity are not stated.
- Manager.PackageManager.FindBoardWithFQBN: the exact outcome is stated only for a well-formed registry. Otherwise the source's answer can depend on map iteration order, and only the shape check and the facts about a returned board are stated.
- Manager.PackageManager.FindToolsRequiredForBoard: that every undeclared tool contributes its latest installed release is stated only for a well-formed registry. With colliding tool identities, the source's result depends on map iteration order. A board without a platform release, which would crash the source, is not modelled.
- Errors.Error.Message: the source renders the unresolved dependency with `%s`, using a method of a type outside this model. The model writes it as `packager:tool@version`.
- Go pointers and aliasing are not modelled. `GetPackages` returns the registry as a value, and boards and releases are compared as values.
- Index merging and installation change the registry, but they are outside this model. So the model does not show how `WellFormed` is maintained: it is a hypothesis of the exact-result contracts.
