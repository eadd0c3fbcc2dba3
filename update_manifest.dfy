/**
 * The manifest update transform: package and application update records are
 * merged into a copy of the manifest, and the copy is saved only when it
 * differs from the original.
 *
 * The pure functions below specify each step; the class `Manifest` and the
 * methods `UpdatePackages`, `UpdateApplications` and `UpdateManifest` perform
 * the same steps in place and are proved against them.
 */
module ManifestUpdate {
  import opened Documents

  const PackagesKey: Value := Str("packages")
  const ApplicationsKey: Value := Str("applications")

  /** Runtime-library variants that are all stored under one canonical id. */
  const LibtorrentVariants: seq<Value> := [Str("libtorrent21"), Str("libtorrent22"), Str("libtorrent24")]
  const Libtorrent: Value := Str("libtorrent")

  /** Every package build record targets this one distribution. */
  const Distribution: Value := List([Str("bookworm")])

  /** Why a run stops before the save step. */
  datatype Failure =
    | MissingChecksum         // falsy `checksum_sha256` in a package payload
    | MissingVersion          // empty version key
    | MissingBuildDate        // falsy `build_date` in a package payload
    | MissingBuild            // falsy `build` in a package payload
    | UnhashablePackageId     // a list or mapping used as a package id (TypeError)
    | PackageEntryNotMapping  // `packages[id]` holds something other than a mapping (TypeError)
    | ApplicationsNotMapping  // `applications` holds something other than a mapping (TypeError)

  /** One `<version>: <payload>` pair of a package group. */
  datatype VersionUpdate = VersionUpdate(version: string, info: Payload)

  /** One `<group_key>: {<version>: <payload>, ...}` entry of `package_updates`. */
  datatype PackageGroup = PackageGroup(key: string, versions: seq<VersionUpdate>)

  /** One `<application_id>: <payload>` entry of `application_updates`. */
  datatype ApplicationUpdate = ApplicationUpdate(id: string, info: Payload)

  /**
   * The update batch, with each JSON object as a sequence in its insertion
   * order. An absent group is the empty sequence.
   */
  datatype Batch = Batch(packageUpdates: seq<PackageGroup>, applicationUpdates: seq<ApplicationUpdate>)

  /** What one invocation ends with: a fatal failure, or the updated manifest and whether it is saved. */
  datatype RunResult = Aborted(failure: Failure) | Completed(manifest: Doc, written: bool)

  // ---------------------------------------------------------------------------
  // Package entries

  /** The record written for one package version; every field is replaced. */
  function PackageRecord(checksum: Value, buildDate: Value, build: Value, category: Value, tag: Value): Value
  {
    Dict(map[
      Str("checksum_sha256") := checksum,
      Str("build_date") := buildDate,
      Str("build") := build,
      Str("category") := category,
      Str("tag") := tag,
      Str("distribution") := Distribution])
  }

  /** The `packages` mapping as the updater sees it: empty when absent or not a mapping. */
  function PackagesOf(doc: Doc): map<Value, Value>
  {
    if PackagesKey in doc && doc[PackagesKey].Dict? then doc[PackagesKey].entries else map[]
  }

  /** The version mapping of `packageId`: empty when absent or not a mapping. */
  function VersionsOf(doc: Doc, packageId: Value): map<Value, Value>
  {
    var packages := PackagesOf(doc);
    if packageId in packages && packages[packageId].Dict? then packages[packageId].entries else map[]
  }

  /** The record stored for `packageId` at `version`, if the path through the manifest exists. */
  function EntryAt(doc: Doc, packageId: Value, version: Value): Option<Value>
  {
    var versions := VersionsOf(doc, packageId);
    if version in versions then Some(versions[version]) else None
  }

  /** `doc` after the first step of an entry update: `packages` made a mapping if it was not one. */
  function WithPackagesSlot(doc: Doc): Doc
  {
    doc[PackagesKey := Dict(PackagesOf(doc))]
  }

  /**
   * The effect of `update_package_entry`: the record at `packages[packageId][version]`
   * is replaced, creating the `packages` mapping and the package's version mapping
   * when they are missing.
   */
  function PutPackage(doc: Doc, packageId: Value, version: string, record: Value): (r: Result<Doc, Failure>)
    ensures r.Ok? <==>
      Hashable(packageId) && (packageId in PackagesOf(doc) ==> PackagesOf(doc)[packageId].Dict?)
    ensures r.Err? ==> r.error == (if Hashable(packageId) then PackageEntryNotMapping else UnhashablePackageId)
    // the target now holds exactly the new record, and no other record changed
    ensures r.Ok? ==> forall p, v {:trigger EntryAt(r.value, p, v)} ::
      EntryAt(r.value, p, v) == if p == packageId && v == Str(version) then Some(record) else EntryAt(doc, p, v)
    // `packages` is a mapping holding the package; the other packages are untouched
    ensures r.Ok? ==> PackagesKey in r.value && r.value[PackagesKey] == Dict(PackagesOf(r.value))
    ensures r.Ok? ==> PackagesOf(r.value).Keys == PackagesOf(doc).Keys + {packageId}
    ensures r.Ok? ==> forall p :: p in PackagesOf(doc) && p != packageId ==> PackagesOf(r.value)[p] == PackagesOf(doc)[p]
    // an existing version mapping of the package is kept, only the one version is set
    ensures r.Ok? ==> PackagesOf(r.value)[packageId] == Dict(VersionsOf(doc, packageId)[Str(version) := record])
    // every other top-level key is untouched
    ensures r.Ok? ==> r.value.Keys == doc.Keys + {PackagesKey}
    ensures r.Ok? ==> forall k :: k in doc && k != PackagesKey ==> r.value[k] == doc[k]
  {
    var packages := PackagesOf(doc);
    if !Hashable(packageId) then Err(UnhashablePackageId)
    else if packageId in packages && !packages[packageId].Dict? then Err(PackageEntryNotMapping)
    else
      var versions := VersionsOf(doc, packageId);
      Ok(doc[PackagesKey := Dict(packages[packageId := Dict(versions[Str(version) := record])])])
  }

  // ---------------------------------------------------------------------------
  // Application entries

  /** The record written for one application; absent fields take their defaults. */
  function ApplicationRecord(buildDate: Value, info: Payload): Value
  {
    Dict(map[
      Str("build_date") := buildDate,
      Str("dependencies") := GetOr(info, "dependencies", List([])),
      Str("packages") := GetOr(info, "packages", Dict(map[]))])
  }

  /** The `applications` mapping as the updater sees it: empty when absent or not a mapping. */
  function ApplicationsOf(doc: Doc): map<Value, Value>
  {
    if ApplicationsKey in doc && doc[ApplicationsKey].Dict? then doc[ApplicationsKey].entries else map[]
  }

  /** The record stored for `applicationId`, if `applications` is a mapping holding it. */
  function ApplicationAt(doc: Doc, applicationId: Value): Option<Value>
  {
    var applications := ApplicationsOf(doc);
    if applicationId in applications then Some(applications[applicationId]) else None
  }

  /**
   * The effect of `update_application_entry`: `applications[applicationId]` is
   * replaced. Unlike `packages`, an `applications` slot that exists but is not
   * a mapping is not reset, and the item assignment fails.
   */
  function PutApplication(doc: Doc, applicationId: string, buildDate: Value, info: Payload): (r: Result<Doc, Failure>)
    ensures r.Ok? <==> (ApplicationsKey in doc ==> doc[ApplicationsKey].Dict?)
    ensures r.Err? ==> r.error == ApplicationsNotMapping
    // the target now holds exactly the new record, and no other application changed
    ensures r.Ok? ==> forall a {:trigger ApplicationAt(r.value, a)} ::
      ApplicationAt(r.value, a) == if a == Str(applicationId) then Some(ApplicationRecord(buildDate, info)) else ApplicationAt(doc, a)
    ensures r.Ok? ==> ApplicationsKey in r.value && r.value[ApplicationsKey].Dict?
    ensures r.Ok? ==> (r.value[ApplicationsKey].entries.Keys ==
      (if ApplicationsKey in doc then doc[ApplicationsKey].entries.Keys else {}) + {Str(applicationId)})
    // every other top-level key, `packages` included, is untouched
    ensures r.Ok? ==> r.value.Keys == doc.Keys + {ApplicationsKey}
    ensures r.Ok? ==> forall k :: k in doc && k != ApplicationsKey ==> r.value[k] == doc[k]
  {
    var record := ApplicationRecord(buildDate, info);
    if ApplicationsKey !in doc then Ok(doc[ApplicationsKey := Dict(map[Str(applicationId) := record])])
    else if !doc[ApplicationsKey].Dict? then Err(ApplicationsNotMapping)
    else Ok(doc[ApplicationsKey := Dict(doc[ApplicationsKey].entries[Str(applicationId) := record])])
  }

  // ---------------------------------------------------------------------------
  // One update record of the batch

  /** The storage key for a payload's `package_id`: the libtorrent variants collapse to `libtorrent`. */
  function NormalizeId(packageId: Value): (r: Value)
    ensures r == Libtorrent <==> packageId in LibtorrentVariants || packageId == Libtorrent
    ensures r !in LibtorrentVariants
    ensures packageId !in LibtorrentVariants ==> r == packageId
  {
    if packageId in LibtorrentVariants then Libtorrent else packageId
  }

  /** The key a package payload is stored under; the group key plays no part. */
  function StorageId(info: Payload): Value
  {
    NormalizeId(Get(info, "package_id"))
  }

  /** The record a package payload produces. */
  function PackageRecordOf(info: Payload): Value
  {
    PackageRecord(Get(info, "checksum_sha256"), Get(info, "build_date"), Get(info, "build"),
                  Get(info, "category"), Get(info, "tag"))
  }

  /** The fail-fast presence checks on a package payload, in the order the updater runs them. */
  function CheckPayload(version: string, info: Payload): (r: Option<Failure>)
    ensures r.None? <==>
      Truthy(Get(info, "checksum_sha256")) && version != "" && Truthy(Get(info, "build_date")) && Truthy(Get(info, "build"))
    ensures r.Some? ==> r.value in {MissingChecksum, MissingVersion, MissingBuildDate, MissingBuild}
    ensures !Truthy(Get(info, "checksum_sha256")) ==> r == Some(MissingChecksum)
  {
    if !Truthy(Get(info, "checksum_sha256")) then Some(MissingChecksum)
    else if version == "" then Some(MissingVersion)
    else if !Truthy(Get(info, "build_date")) then Some(MissingBuildDate)
    else if !Truthy(Get(info, "build")) then Some(MissingBuild)
    else None
  }

  /** One iteration of the package loop: check the payload, then update the entry. */
  function ApplyPackageItem(doc: Doc, u: VersionUpdate): Result<Doc, Failure>
  {
    match CheckPayload(u.version, u.info)
    case Some(f) => Err(f)
    case None => PutPackage(doc, StorageId(u.info), u.version, PackageRecordOf(u.info))
  }

  /** One iteration of the application loop. */
  function ApplyApplicationItem(doc: Doc, u: ApplicationUpdate): Result<Doc, Failure>
  {
    PutApplication(doc, u.id, Get(u.info, "build_date"), u.info)
  }

  // ---------------------------------------------------------------------------
  // The whole batch

  /** Applies `step` to each item in order, stopping at the first failure. */
  function Fold<T>(doc: Doc, items: seq<T>, step: (Doc, T) -> Result<Doc, Failure>): Result<Doc, Failure>
    decreases |items|
  {
    if items == [] then Ok(doc)
    else match Fold(doc, items[..|items| - 1], step)
      case Err(f) => Err(f)
      case Ok(d) => step(d, items[|items| - 1])
  }

  /** The package payloads in iteration order: group by group, version by version. */
  function PackageItems(groups: seq<PackageGroup>): seq<VersionUpdate>
    decreases |groups|
  {
    if groups == [] then [] else PackageItems(groups[..|groups| - 1]) + groups[|groups| - 1].versions
  }

  /** All package updates, then all application updates. */
  function ApplyBatch(doc: Doc, batch: Batch): Result<Doc, Failure>
  {
    match Fold(doc, PackageItems(batch.packageUpdates), ApplyPackageItem)
    case Err(f) => Err(f)
    case Ok(d) => Fold(d, batch.applicationUpdates, ApplyApplicationItem)
  }

  /** The save step writes exactly when the updated copy differs structurally from the original. */
  predicate ShouldWrite(original: Doc, updated: Doc)
  {
    original != updated
  }

  /** What one invocation does with a loaded manifest and a parsed batch. */
  function Run(original: Doc, batch: Batch): RunResult
  {
    match ApplyBatch(original, batch)
    case Err(f) => Aborted(f)
    case Ok(d) => Completed(d, ShouldWrite(original, d))
  }

  // ---------------------------------------------------------------------------
  // Facts about Fold and PackageItems used by the loops

  /** Once a prefix of the items has failed, the rest is never applied. */
  lemma {:induction false} FoldStopsAtFailure<T>(doc: Doc, items: seq<T>, step: (Doc, T) -> Result<Doc, Failure>, n: nat)
    requires n <= |items| && Fold(doc, items[..n], step).Err?
    ensures Fold(doc, items, step) == Fold(doc, items[..n], step)
    decreases |items|
  {
    if n == |items| {
      assert items[..n] == items;
    } else {
      var prefix := items[..|items| - 1];
      assert prefix[..n] == items[..n];
      FoldStopsAtFailure(doc, prefix, step, n);
    }
  }

  /** Appending one item to the processed prefix is one more step. */
  lemma FoldSnoc<T>(doc: Doc, items: seq<T>, x: T, step: (Doc, T) -> Result<Doc, Failure>)
    ensures Fold(doc, items + [x], step) ==
      match Fold(doc, items, step) case Err(f) => Err(f) case Ok(d) => step(d, x)
  {
    assert (items + [x])[..|items|] == items;
  }

  /** Extending the processed part `done + items[..i]` by the next item is one more step. */
  lemma FoldExtend<T>(doc: Doc, done: seq<T>, items: seq<T>, i: nat, step: (Doc, T) -> Result<Doc, Failure>, d: Doc)
    requires i < |items| && Fold(doc, done + items[..i], step) == Ok(d)
    ensures Fold(doc, done + items[..i + 1], step) == step(d, items[i])
  {
    assert done + items[..i + 1] == (done + items[..i]) + [items[i]];
    FoldSnoc(doc, done + items[..i], items[i], step);
  }

  /** A slice up to the length is the whole sequence. */
  lemma WholeSlice<T>(xs: seq<T>, i: nat)
    requires i == |xs|
    ensures xs[..i] == xs
  {
  }

  /** The payloads of the first `g + 1` groups are those of the first `g` followed by group `g`'s. */
  lemma PackageItemsSnoc(groups: seq<PackageGroup>, g: nat)
    requires g < |groups|
    ensures PackageItems(groups[..g + 1]) == PackageItems(groups[..g]) + groups[g].versions
  {
    assert groups[..g + 1][..g] == groups[..g];
  }

  /** The payloads seen before and at version `i` of group `g` are a prefix of all payloads. */
  lemma {:induction false} PackageItemsPrefix(groups: seq<PackageGroup>, g: nat, i: nat)
    requires g < |groups| && i <= |groups[g].versions|
    ensures |PackageItems(groups[..g]) + groups[g].versions[..i]| <= |PackageItems(groups)|
    ensures PackageItems(groups)[..|PackageItems(groups[..g]) + groups[g].versions[..i]|] ==
      PackageItems(groups[..g]) + groups[g].versions[..i]
    decreases |groups|
  {
    var prefix := groups[..|groups| - 1];
    if g < |groups| - 1 {
      assert prefix[..g] == groups[..g];
      PackageItemsPrefix(prefix, g, i);
    } else {
      assert prefix == groups[..g];
    }
  }

  // ---------------------------------------------------------------------------
  // The manifest, updated in place

  /** The in-memory manifest copy that the updater mutates. */
  class Manifest {
    var entries: Doc

    /** A deep copy of the loaded manifest: later updates never reach the original. */
    constructor (document: Doc)
      ensures entries == document
    {
      entries := document;
    }

    /** `update_package_entry`: replaces the record at `packages[packageId][packageVersion]`. */
    method UpdatePackageEntry(packageId: Value, checksum: Value, buildDate: Value, packageVersion: string,
                              category: Value, tag: Value := Null, build: Value := Null)
      returns (failure: Option<Failure>)
      modifies this
      ensures var expected := PutPackage(old(entries), packageId, packageVersion,
                                         PackageRecord(checksum, buildDate, build, category, tag));
        match expected
        case Ok(d) => failure == None && entries == d
        // the slot reset of the first step has already happened when the TypeError is raised
        case Err(f) => failure == Some(f) && entries == WithPackagesSlot(old(entries))
    {
      if PackagesKey !in entries || !entries[PackagesKey].Dict? {
        entries := entries[PackagesKey := Dict(map[])];
      }
      var packages := entries[PackagesKey].entries;
      assert packages == PackagesOf(old(entries));
      assert entries == WithPackagesSlot(old(entries));
      if !Hashable(packageId) {
        return Some(UnhashablePackageId);
      }
      if packageId !in packages {
        packages := packages[packageId := Dict(map[])];
        entries := entries[PackagesKey := Dict(packages)];
      }
      var versions := packages[packageId];
      if !versions.Dict? {
        return Some(PackageEntryNotMapping);
      }
      var record := PackageRecord(checksum, buildDate, build, category, tag);
      var updatedPackages := packages[packageId := Dict(versions.entries[Str(packageVersion) := record])];
      assert updatedPackages == PackagesOf(old(entries))[packageId := Dict(versions.entries[Str(packageVersion) := record])];
      entries := entries[PackagesKey := Dict(updatedPackages)];
      assert entries == old(entries)[PackagesKey := Dict(updatedPackages)];
      failure := None;
    }

    /** `update_application_entry`: replaces the record at `applications[applicationId]`. */
    method UpdateApplicationEntry(applicationId: string, buildDate: Value, applicationInfo: Payload)
      returns (failure: Option<Failure>)
      modifies this
      ensures match PutApplication(old(entries), applicationId, buildDate, applicationInfo)
        case Ok(d) => failure == None && entries == d
        case Err(f) => failure == Some(f) && entries == old(entries)
    {
      if ApplicationsKey !in entries {
        entries := entries[ApplicationsKey := Dict(map[])];
      }
      var applications := entries[ApplicationsKey];
      if !applications.Dict? {
        return Some(ApplicationsNotMapping);
      }
      var record := ApplicationRecord(buildDate, applicationInfo);
      entries := entries[ApplicationsKey := Dict(applications.entries[Str(applicationId) := record])];
      failure := None;
    }
  }

  /** The package loop has reached payload `i` of group `g` and that payload fails: the whole loop fails. */
  lemma PackageLoopAborts(doc: Doc, groups: seq<PackageGroup>, g: nat, i: nat, d: Doc, f: Failure)
    requires g < |groups| && i < |groups[g].versions|
    requires Fold(doc, PackageItems(groups[..g]) + groups[g].versions[..i], ApplyPackageItem) == Ok(d)
    requires ApplyPackageItem(d, groups[g].versions[i]) == Err(f)
    ensures Fold(doc, PackageItems(groups), ApplyPackageItem) == Err(f)
  {
    PackageItemsPrefix(groups, g, i + 1);
    FoldFailsInside(doc, PackageItems(groups[..g]), groups[g].versions, i, PackageItems(groups), ApplyPackageItem, d, f);
  }

  /** A failure at item `i` of `items`, reached after `done`, is the failure of any fold that extends them. */
  lemma FoldFailsInside<T>(doc: Doc, done: seq<T>, items: seq<T>, i: nat, all: seq<T>,
                           step: (Doc, T) -> Result<Doc, Failure>, d: Doc, f: Failure)
    requires i < |items| && Fold(doc, done + items[..i], step) == Ok(d) && step(d, items[i]) == Err(f)
    requires |done + items[..i + 1]| <= |all| && all[..|done + items[..i + 1]|] == done + items[..i + 1]
    ensures Fold(doc, all, step) == Err(f)
  {
    FoldExtend(doc, done, items, i, step, d);
    FoldStopsAtFailure(doc, all, step, |done + items[..i + 1]|);
  }

  /**
   * The package updates of the entry point: group by group, version by
   * version, each payload checked and then stored; the first failure stops.
   */
  method UpdatePackages(updated: Manifest, groups: seq<PackageGroup>) returns (failure: Option<Failure>)
    modifies updated
    ensures match Fold(old(updated.entries), PackageItems(groups), ApplyPackageItem)
      case Ok(d) => failure.None? && updated.entries == d
      case Err(f) => failure == Some(f)
  {
    ghost var original := updated.entries;
    var g := 0;
    while g < |groups|
      invariant 0 <= g <= |groups|
      invariant Fold(original, PackageItems(groups[..g]), ApplyPackageItem) == Ok(updated.entries)
    {
      var versions := groups[g].versions;
      ghost var done := PackageItems(groups[..g]);
      var i := 0;
      assert done + versions[..0] == done;
      while i < |versions|
        invariant 0 <= i <= |versions|
        invariant Fold(original, done + versions[..i], ApplyPackageItem) == Ok(updated.entries)
      {
        var packageVersion := versions[i].version;
        var packageInfo := versions[i].info;
        var checksum := Get(packageInfo, "checksum_sha256");
        var packageId := Get(packageInfo, "package_id");
        var buildDate := Get(packageInfo, "build_date");
        var tag := Get(packageInfo, "tag");
        var category := Get(packageInfo, "category");
        var build := Get(packageInfo, "build");
        if packageId in LibtorrentVariants {
          packageId := Libtorrent;
        }
        ghost var before := updated.entries;
        if !Truthy(checksum) {
          failure := Some(MissingChecksum);
        } else if packageVersion == "" {
          failure := Some(MissingVersion);
        } else if !Truthy(buildDate) {
          failure := Some(MissingBuildDate);
        } else if !Truthy(build) {
          failure := Some(MissingBuild);
        } else {
          failure := updated.UpdatePackageEntry(packageId, checksum, buildDate, packageVersion, category, tag, build);
        }
        if failure.Some? {
          assert ApplyPackageItem(before, versions[i]) == Err(failure.value);
          PackageLoopAborts(original, groups, g, i, before, failure.value);
          return;
        }
        assert ApplyPackageItem(before, versions[i]) == Ok(updated.entries);
        FoldExtend(original, done, versions, i, ApplyPackageItem, before);
        // the invariant, stated before and after the index moves on
        assert Fold(original, done + versions[..i + 1], ApplyPackageItem) == Ok(updated.entries);
        i := i + 1;
        assert Fold(original, done + versions[..i], ApplyPackageItem) == Ok(updated.entries);
      }
      WholeSlice(versions, i);
      PackageItemsSnoc(groups, g);
      g := g + 1;
    }
    assert groups[..g] == groups;
    failure := None;
  }

  /** The application updates of the entry point, in order; the first failure stops. */
  method UpdateApplications(updated: Manifest, applications: seq<ApplicationUpdate>) returns (failure: Option<Failure>)
    modifies updated
    ensures match Fold(old(updated.entries), applications, ApplyApplicationItem)
      case Ok(d) => failure.None? && updated.entries == d
      case Err(f) => failure == Some(f)
  {
    ghost var original := updated.entries;
    var a := 0;
    while a < |applications|
      invariant 0 <= a <= |applications|
      invariant Fold(original, applications[..a], ApplyApplicationItem) == Ok(updated.entries)
    {
      var applicationId := applications[a].id;
      var applicationInfo := applications[a].info;
      var buildDate := Get(applicationInfo, "build_date");
      ghost var before := updated.entries;
      failure := updated.UpdateApplicationEntry(applicationId, buildDate, applicationInfo);
      assert [] + applications[..a] == applications[..a] && [] + applications[..a + 1] == applications[..a + 1];
      FoldExtend(original, [], applications, a, ApplyApplicationItem, before);
      if failure.Some? {
        FoldStopsAtFailure(original, applications, ApplyApplicationItem, a + 1);
        return;
      }
      a := a + 1;
    }
    assert applications[..a] == applications;
    failure := None;
  }

  /**
   * The body of the updater's entry point, from the deep copy to the save
   * decision: package updates, then application updates, each failure
   * ending the run before anything is saved.
   */
  method UpdateManifest(original: Doc, batch: Batch) returns (r: RunResult)
    ensures r == Run(original, batch)
    ensures r.Completed? ==> (r.written <==> r.manifest != original)
  {
    var updated := new Manifest(original);
    var failure := UpdatePackages(updated, batch.packageUpdates);
    if failure.Some? {
      return Aborted(failure.value);
    }
    failure := UpdateApplications(updated, batch.applicationUpdates);
    if failure.Some? {
      return Aborted(failure.value);
    }
    r := Completed(updated.entries, ShouldWrite(original, updated.entries));
  }
}
