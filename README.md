# Manifest updater model

`scripts/update_manifest.py` keeps the `manifest.yaml` of a binary repository up to date.
It is given a batch of updates and works on a deep copy of the loaded manifest:

- Every package payload (group key → version → payload) is checked for a checksum, a version, a
  build date and a build. The `libtorrent21`, `libtorrent22` and `libtorrent24` ids are folded
  onto `libtorrent`. The record at `packages[<id>][<version>]` is then replaced by a fresh record
  whose distribution is always `['bookworm']`.
- Every application update then replaces the record at `applications[<id>]`.
- The file is saved only when the updated copy differs from the original.

This project models that transform in Dafny:

- `documents.dfy` (module `Documents`) holds the loaded YAML/JSON values. Mappings are keyed by
  values, as Python dicts are. It also holds Python's truthiness, the hashability of keys and
  `dict.get`.
- `update_manifest.dfy` (module `ManifestUpdate`) holds the two entry updaters in two forms:
  - the functions `PutPackage` and `PutApplication`, which give the effect of one update;
  - the class `Manifest`, whose methods update its `entries` field in place as the source does.

  It also holds the payload checks, the batch as a fold over the payloads, and the save decision.
  The method `UpdateManifest` is the body of `main`. Its two `for` statements are the methods
  `UpdatePackages` (the nested group and version loops) and `UpdateApplications`, each proved
  against the fold it implements. `UpdateManifest` is proved to return exactly `Run(original, batch)`.
- `manifest_properties.dfy` (module `ManifestProperties`) proves:
  - the last payload for a (package, version) or an application wins;
  - everything else is left alone;
  - an invalid payload aborts the run without a save;
  - the group keys play no part;
  - a batch that changes nothing is not saved, and one that changes a record is.
- `manifest_rerun.dfy` (module `ManifestRerun`) proves two things:
  - a completed batch is saved exactly when the last update for some (package, version) or some
    application differs from the stored record;
  - running a completed batch again on the manifest it produced changes nothing and saves nothing.

A Python crash (a `TypeError`) and `sys.exit(1)` both end the run before the save step. The model
treats them as the same thing, an `Aborted(failure)` result, with one `Failure` variant per cause.

Points where the code behaves in a way that is easy to misread, which the model keeps as written:

- An application record's `dependencies` and `packages` come from `info.get(key, default)`
  (lines 68-69). The default is used only when the key is absent: a payload that holds an explicit
  `null` keeps that `null`.
- `applications` is not type-checked. A non-mapping `applications` slot is not reset the way
  `packages` is, and the item assignment then fails (`ApplicationsNotMapping`).
- A payload's `package_id` is never validated. A payload without one is stored under the `null`
  key, and a list or mapping id fails on the membership test (`UnhashablePackageId`).

## Model

| member | source | states |
|---|---|---|
| ManifestUpdate.PutPackage | scripts/update_manifest.py:39-54 | succeeds exactly when the id is hashable and any existing entry for it is a mapping, with the matching error otherwise; afterwards `packages` is a mapping, the target (id, version) holds exactly the new record and every other record is unchanged, an existing version mapping is kept apart from the one version, no package is dropped, and every other top-level key is unchanged |
| ManifestUpdate.PutApplication | scripts/update_manifest.py:62-70 | succeeds exactly when `applications` is absent or a mapping, with `ApplicationsNotMapping` otherwise; afterwards the target holds the new record, every other application and every other top-level key (`packages` included) is unchanged, and the id set gains just the target id |
| ManifestUpdate.NormalizeId | scripts/update_manifest.py:118-119 | the result is `libtorrent` exactly for the three variants and `libtorrent` itself, is never a variant, and is the id itself for every non-variant |
| ManifestUpdate.CheckPayload | scripts/update_manifest.py:120-131 | no failure exactly when checksum, version, build date and build are all truthy; a failure is one of the four missing-field kinds, and a falsy checksum is reported first |
| ManifestUpdate.Manifest.constructor | scripts/update_manifest.py:101 | the working copy starts equal to the loaded manifest |
| ManifestUpdate.Manifest.UpdatePackageEntry | scripts/update_manifest.py:28-55 | mutates the manifest in place to exactly the document `PutPackage` gives for the record built from its arguments; on a crash the `packages` slot has already been made a mapping and nothing else changed |
| ManifestUpdate.Manifest.UpdateApplicationEntry | scripts/update_manifest.py:57-71 | mutates the manifest in place to exactly the document `PutApplication` gives; on a crash the manifest is unchanged |
| ManifestUpdate.UpdatePackages | scripts/update_manifest.py:103-141 | the nested group and version loops, calling `UpdatePackageEntry` in place, leave the manifest exactly as the fold of `ApplyPackageItem` over the payloads in visiting order gives it, or report that fold's first failure |
| ManifestUpdate.UpdateApplications | scripts/update_manifest.py:143-154 | the application loop, calling `UpdateApplicationEntry` in place, leaves the manifest exactly as the fold of `ApplyApplicationItem` gives it, or reports that fold's first failure |
| ManifestUpdate.UpdateManifest | scripts/update_manifest.py:100-156 | the deep copy, the package updates and then the application updates end with exactly `Run(original, batch)`; a completed run is written exactly when the result differs from the original |
| Documents.Truthy | scripts/update_manifest.py:120-131 | defines Python's truth value as `not x` tests it: `null`, the empty string, the empty list and the empty mapping are false |
| Documents.Hashable | scripts/update_manifest.py:43 | defines which values may be dict keys: lists and mappings raise `TypeError` in a membership test |
| Documents.Get | scripts/update_manifest.py:112-117 | defines `payload.get(key)`: the stored value, or `null` when the key is absent |
| Documents.GetOr | scripts/update_manifest.py:68-69 | defines `payload.get(key, default)`: the default only when the key is absent, so a stored `null` is kept |
| ManifestUpdate.PackageRecord | scripts/update_manifest.py:47-54 | defines the six-field record a package version is replaced by, with `distribution` fixed to `['bookworm']` |
| ManifestUpdate.ApplicationRecord | scripts/update_manifest.py:66-70 | defines the three-field record an application is replaced by, with the `.get` defaults `[]` and `{}` |
| ManifestUpdate.ApplyPackageItem | scripts/update_manifest.py:112-141 | defines one iteration of the inner package loop: the four checks in order, then the entry update under the normalised id |
| ManifestUpdate.ApplyApplicationItem | scripts/update_manifest.py:147-154 | defines one iteration of the application loop, with the build date read by `.get` |
| ManifestUpdate.ApplyBatch | scripts/update_manifest.py:103-154 | defines the whole transform: every package payload in visiting order, then every application update, stopping at the first failure |
| ManifestUpdate.ShouldWrite | scripts/update_manifest.py:20 | defines the save decision: the updated copy differs structurally from the original |
| ManifestUpdate.Run | scripts/update_manifest.py:100-156 | defines one invocation: an abort on the first failure, otherwise the updated manifest and the save decision |
| ManifestUpdate.PackagesOf | scripts/update_manifest.py:39 | defines the `packages` mapping as the `isinstance(..., dict)` test sees it: empty when absent or not a mapping |
| ManifestUpdate.VersionsOf | scripts/update_manifest.py:43-47 | defines the version mapping of one package: empty when absent or not a mapping |
| ManifestUpdate.EntryAt | scripts/update_manifest.py:47 | defines the record at `packages[<id>][<version>]`, if that path exists |
| ManifestUpdate.WithPackagesSlot | scripts/update_manifest.py:39-40 | defines the manifest after the reset at line 40: `packages` made a mapping and nothing else touched; this is the state `UpdatePackageEntry` leaves on a crash |
| ManifestUpdate.ApplicationsOf | scripts/update_manifest.py:62-66 | defines the `applications` mapping: empty when absent or not a mapping |
| ManifestUpdate.ApplicationAt | scripts/update_manifest.py:66 | defines the record at `applications[<id>]`, if `applications` is a mapping holding it |
| ManifestUpdate.StorageId | scripts/update_manifest.py:113-119 | defines the key a payload is stored under: its `package_id` read by `.get`, then normalised; the group key plays no part |
| ManifestUpdate.PackageRecordOf | scripts/update_manifest.py:112-141 | defines the record a payload produces: its fields read by `.get` and passed to `update_package_entry` |
| ManifestUpdate.Fold | scripts/update_manifest.py:108-154 | defines a `for` loop over updates: each step in order, the first failure ending the loop |
| ManifestUpdate.PackageItems | scripts/update_manifest.py:108-110 | defines the visiting order of package payloads: group by group, version by version |
| ManifestUpdate.PackageLoopAborts | scripts/update_manifest.py:120-131 | when the payload at version `i` of group `g` fails after the earlier payloads succeeded, the whole package loop fails with that failure |
| ManifestUpdate.FoldStopsAtFailure | scripts/update_manifest.py:120-131 | once a prefix of the payloads fails, the whole loop fails with that same failure: nothing after an exit is applied |
| ManifestUpdate.PackageItemsPrefix | scripts/update_manifest.py:108-110 | the payloads visited before version `i` of group `g`, followed by that version, are a prefix of all payloads in visiting order |
| ManifestProperties.PackageUpdatesLastWins | scripts/update_manifest.py:108-141 | after the package loop, each (package, version) holds the record of the last payload aimed at it, or its old record when none was |
| ManifestProperties.PackageUpdatesKeepOtherKeys | scripts/update_manifest.py:39-54 | the package loop leaves every top-level key other than `packages` present or absent, and valued, as before |
| ManifestProperties.FoldFailsAt | scripts/update_manifest.py:120-131 | a payload that fails whatever the manifest holds makes the loop that reaches it fail |
| ManifestProperties.NoRecordUnderVariant | scripts/update_manifest.py:118-119 | no payload is ever aimed at a libtorrent variant id |
| ManifestProperties.PackageItemsIgnoreKeys | scripts/update_manifest.py:108-110 | the payloads visited depend only on the version lists of the groups, not on the group keys |
| ManifestProperties.ApplicationUpdatesLastWins | scripts/update_manifest.py:147-154 | after the application loop, each application holds the record of its last update, or its old record |
| ManifestProperties.ApplicationUpdatesKeepOtherKeys | scripts/update_manifest.py:62-70 | the application loop leaves every top-level key other than `applications` as before |
| ManifestProperties.BatchPackageEntry | scripts/update_manifest.py:103-154 | after a completed batch each package record is the last payload's record or the original one; application updates never touch `packages` |
| ManifestProperties.BatchApplicationEntry | scripts/update_manifest.py:143-154 | after a completed batch each application record is the last update's record or the original one |
| ManifestProperties.BatchKeepsOtherKeys | scripts/update_manifest.py:103-154 | a completed batch leaves every top-level key other than `packages` and `applications` as it was |
| ManifestProperties.InvalidPayloadAborts | scripts/update_manifest.py:120-131 | a package payload that fails a presence check anywhere in the batch aborts the run, so the manifest is not saved |
| ManifestProperties.VariantsNeverStored | scripts/update_manifest.py:118-119 | a completed batch never changes the record at a libtorrent variant id |
| ManifestProperties.GroupKeysIgnored | scripts/update_manifest.py:108-110 | two batches that differ only in their group keys have the same outcome |
| ManifestProperties.FoldUnchanged | scripts/update_manifest.py:108-154 | a loop whose every step leaves the manifest as it is completes with the manifest unchanged |
| ManifestProperties.PutPackageSame | scripts/update_manifest.py:47-54 | storing the record a (package, version) already holds leaves the manifest equal to itself |
| ManifestProperties.PutApplicationSame | scripts/update_manifest.py:66-70 | storing the record an application already holds leaves the manifest equal to itself |
| ManifestProperties.NoOpBatchNotWritten | scripts/update_manifest.py:18-26 | a batch whose every payload passes its checks and carries the record already stored completes, with the original manifest and no write (no prior completion assumed) |
| ManifestProperties.ChangedEntryIsWritten | scripts/update_manifest.py:18-26 | a completed batch whose last payload for some (package, version) differs from the stored record is written |
| ManifestProperties.ChangedApplicationIsWritten | scripts/update_manifest.py:18-26 | a completed batch whose last update for some application differs from the stored record is written |
| ManifestProperties.LibtorrentExample | scripts/update_manifest.py:103-141 | a `libtorrent22` payload on an empty manifest is stored under `libtorrent` with the full record, and the result is written |
| ManifestRerun.LastRecordOfMember | scripts/update_manifest.py:108-141 | every payload of the package loop leaves a record under its own storage key and version |
| ManifestRerun.PackageUpdatesShape | scripts/update_manifest.py:39-47 | after a non-empty package loop `packages` is a mapping whose ids are the old ids plus the storage keys of the payloads, and the untouched packages are unchanged |
| ManifestRerun.TouchedAreMappings | scripts/update_manifest.py:43-47 | after the package loop, every package a payload was aimed at holds a version mapping |
| ManifestRerun.PackageUpdatesAllAccepted | scripts/update_manifest.py:120-131 | a completed package loop passed every presence check and met no unhashable id |
| ManifestRerun.PackageUpdatesSucceed | scripts/update_manifest.py:39-47 | the package loop completes when every payload is accepted and every package it touches is absent or a mapping |
| ManifestRerun.ApplicationUpdatesShape | scripts/update_manifest.py:62-66 | after a non-empty application loop `applications` is a mapping whose ids are the old ids plus the updated ids |
| ManifestRerun.ApplicationItemShape | scripts/update_manifest.py:62-66 | one application update leaves a mapping under `applications` that has gained the update's id |
| ManifestRerun.ApplicationUpdatesSucceed | scripts/update_manifest.py:62-66 | the application loop completes when `applications` is absent or a mapping |
| ManifestRerun.PackageRerunSucceeds | scripts/update_manifest.py:108-141 | the package loop run again on its own result completes |
| ManifestRerun.PackageRerunKeepsPackage | scripts/update_manifest.py:43-54 | a package touched by the loop holds the same version mapping after the loop runs again |
| ManifestRerun.PackageUpdatesIdempotent | scripts/update_manifest.py:108-141 | the package loop run again on its own result gives that result back |
| ManifestRerun.ApplicationUpdatesIdempotent | scripts/update_manifest.py:147-154 | the application loop run again on its own result gives that result back |
| ManifestRerun.PackageItemIgnoresOtherKeys | scripts/update_manifest.py:39-54 | one package payload neither reads nor writes a top-level key other than `packages` |
| ManifestRerun.PackageUpdatesIgnoreOtherKeys | scripts/update_manifest.py:39-54 | the package loop neither reads nor writes a top-level key other than `packages` |
| ManifestRerun.RerunPackageLoop | scripts/update_manifest.py:103-154 | when the package loop leaves a manifest unchanged, it also leaves that manifest unchanged after the application loop |
| ManifestRerun.LastApplicationOfMember | scripts/update_manifest.py:147-154 | every application update leaves a record under its own id |
| ManifestRerun.PackagesUnchanged | scripts/update_manifest.py:108-141 | a completed package loop whose last payload for each (package, version) carries the stored record gives the manifest back, even when earlier payloads for that key differ |
| ManifestRerun.ApplicationsUnchanged | scripts/update_manifest.py:147-154 | a completed application loop whose last update for each id carries the stored record gives the manifest back |
| ManifestRerun.UnchangedRecordsNotWritten | scripts/update_manifest.py:18-26 | a completed batch whose last update for every key carries the record already stored there completes with the original manifest and no write |
| ManifestRerun.WrittenExactlyWhenARecordChanges | scripts/update_manifest.py:18-26 | a completed batch is written if and only if the last update for some (package, version) or some application differs from the stored record |
| ManifestRerun.RerunWritesNothing | scripts/update_manifest.py:18-26 | running a completed batch again on the manifest it produced completes with that manifest and does not write |

## Left out

- Argument parsing and `json.loads` of the update string (lines 75-91). The batch is a typed
  `Batch` value: a sequence of package groups and a sequence of application updates, each kept in
  the JSON object's order.
- A batch whose `package_updates` or `application_updates` value, a group or a payload is not a
  JSON object (for example `"package_updates": null`). The source crashes there on `.items()`
  (lines 108, 110, 147) or `.get` (lines 112-117, 148); the typed `Batch` cannot express such input.
- The file-existence check, reading the file, `yaml.safe_load` and `yaml.dump(..., sort_keys=False)`
  (lines 10-16, 22-23, 93-96). These are file I/O and a foreign library. Only the decision to
  write is modelled, as the `written` flag of a completed run.
- A manifest whose root is not a mapping (for example, an empty file loads as `None`). The manifest
  is always a `Doc`.
- Key order in mappings. Dafny maps have none, so the order in which `yaml.dump` writes keys is not
  modelled. Python's dict `!=` ignores key order too.
- Numbers, booleans, dates and YAML's implicit typing of scalars. Scalars are strings or `null`, so
  Python's `1 == True` and a YAML key `1.0` loaded as a float are not modelled.
- YAML anchors and aliases, and shared objects in general. Values are trees, so a node that the
  loaded manifest shares between several places (an anchor and its aliases) is modelled as
  independent copies. `copy.deepcopy` (line 101) keeps such a node shared inside the working copy.
  In the source, an update written under a shared node also shows up under every alias of it. For
  such a manifest the "every other record / every other top-level key is unchanged" clauses of
  PutPackage, PutApplication, BatchKeepsOtherKeys and the lemmas built on them do not describe the
  source. Dafny values do give the separation between the original and the working copy that
  `copy.deepcopy` provides.
- The `dependencies` and `packages` objects of an application update are stored by reference
  (lines 68-69), so the manifest and the batch share them. Nothing later mutates them, so the
  model's copies lead to the same saved document.
- All `print` logging.
- Process exit codes. `sys.exit(1)` and a crash both become `Aborted(failure)`, and no save happens.
- The variant list and the `bookworm` distribution are constants, as in the source; they are not
  configurable.
