/**
 * What a batch does to the manifest as a whole: which record each
 * (package, version) and each application ends up with, when a run aborts,
 * and when the save step writes.
 */
module ManifestProperties {
  import opened Documents
  import opened ManifestUpdate

  // ---------------------------------------------------------------------------
  // Reference definitions: the last update aimed at a key wins

  /** The record of the last payload in `items` stored under (`packageId`, `version`), if any. */
  function LastPackageRecord(items: seq<VersionUpdate>, packageId: Value, version: Value): Option<Value>
    decreases |items|
  {
    if items == [] then None
    else
      var u := items[|items| - 1];
      if StorageId(u.info) == packageId && Str(u.version) == version then Some(PackageRecordOf(u.info))
      else LastPackageRecord(items[..|items| - 1], packageId, version)
  }

  /** The record of the last application update in `apps` for `applicationId`, if any. */
  function LastApplicationRecord(apps: seq<ApplicationUpdate>, applicationId: Value): Option<Value>
    decreases |apps|
  {
    if apps == [] then None
    else
      var u := apps[|apps| - 1];
      if Str(u.id) == applicationId then Some(ApplicationRecord(Get(u.info, "build_date"), u.info))
      else LastApplicationRecord(apps[..|apps| - 1], applicationId)
  }

  /** `latest` if some update was aimed at the key, the original record otherwise. */
  function Overriding(latest: Option<Value>, original: Option<Value>): Option<Value>
  {
    if latest.Some? then latest else original
  }

  // ---------------------------------------------------------------------------
  // The package loop

  /**
   * After the package loop, each (package, version) holds the record of the
   * last payload stored under it, or what it held before when no payload was.
   */
  lemma {:induction false} PackageUpdatesLastWins(doc: Doc, items: seq<VersionUpdate>, packageId: Value, version: Value)
    requires Fold(doc, items, ApplyPackageItem).Ok?
    ensures EntryAt(Fold(doc, items, ApplyPackageItem).value, packageId, version) ==
      Overriding(LastPackageRecord(items, packageId, version), EntryAt(doc, packageId, version))
    decreases |items|
  {
    if items != [] {
      var prefix := items[..|items| - 1];
      PackageUpdatesLastWins(doc, prefix, packageId, version);
    }
  }

  /** The package loop leaves every top-level key other than `packages` as it was. */
  lemma {:induction false} PackageUpdatesKeepOtherKeys(doc: Doc, items: seq<VersionUpdate>, k: Value)
    requires Fold(doc, items, ApplyPackageItem).Ok? && k != PackagesKey
    ensures k in Fold(doc, items, ApplyPackageItem).value <==> k in doc
    ensures k in doc ==> Fold(doc, items, ApplyPackageItem).value[k] == doc[k]
    decreases |items|
  {
    if items != [] {
      PackageUpdatesKeepOtherKeys(doc, items[..|items| - 1], k);
    }
  }

  /** A payload that fails its presence checks aborts the run wherever it appears in the batch. */
  lemma {:induction false} FoldFailsAt<T>(doc: Doc, items: seq<T>, step: (Doc, T) -> Result<Doc, Failure>, n: nat)
    requires n < |items|
    requires forall d :: step(d, items[n]).Err?
    ensures Fold(doc, items, step).Err?
    decreases |items|
  {
    var prefix := items[..|items| - 1];
    if n < |items| - 1 {
      FoldFailsAt(doc, prefix, step, n);
    } else if Fold(doc, prefix, step).Ok? {
      assert step(Fold(doc, prefix, step).value, items[n]).Err?;
    }
  }

  /** No libtorrent variant id ever has a payload stored under it. */
  lemma {:induction false} NoRecordUnderVariant(items: seq<VersionUpdate>, variant: Value, version: Value)
    requires variant in LibtorrentVariants
    ensures LastPackageRecord(items, variant, version) == None
    decreases |items|
  {
    if items != [] {
      NoRecordUnderVariant(items[..|items| - 1], variant, version);
    }
  }

  /** The payloads seen do not depend on the group keys. */
  lemma {:induction false} PackageItemsIgnoreKeys(groups1: seq<PackageGroup>, groups2: seq<PackageGroup>)
    requires |groups1| == |groups2|
    requires forall i :: 0 <= i < |groups1| ==> groups1[i].versions == groups2[i].versions
    ensures PackageItems(groups1) == PackageItems(groups2)
    decreases |groups1|
  {
    if groups1 != [] {
      PackageItemsIgnoreKeys(groups1[..|groups1| - 1], groups2[..|groups2| - 1]);
    }
  }

  // ---------------------------------------------------------------------------
  // The application loop

  /** After the application loop, each application holds the record of its last update, or its old one. */
  lemma {:induction false} ApplicationUpdatesLastWins(doc: Doc, apps: seq<ApplicationUpdate>, applicationId: Value)
    requires Fold(doc, apps, ApplyApplicationItem).Ok?
    ensures ApplicationAt(Fold(doc, apps, ApplyApplicationItem).value, applicationId) ==
      Overriding(LastApplicationRecord(apps, applicationId), ApplicationAt(doc, applicationId))
    decreases |apps|
  {
    if apps != [] {
      ApplicationUpdatesLastWins(doc, apps[..|apps| - 1], applicationId);
    }
  }

  /** The application loop leaves every top-level key other than `applications`, `packages` included, as it was. */
  lemma {:induction false} ApplicationUpdatesKeepOtherKeys(doc: Doc, apps: seq<ApplicationUpdate>, k: Value)
    requires Fold(doc, apps, ApplyApplicationItem).Ok? && k != ApplicationsKey
    ensures k in Fold(doc, apps, ApplyApplicationItem).value <==> k in doc
    ensures k in doc ==> Fold(doc, apps, ApplyApplicationItem).value[k] == doc[k]
    decreases |apps|
  {
    if apps != [] {
      ApplicationUpdatesKeepOtherKeys(doc, apps[..|apps| - 1], k);
    }
  }

  // ---------------------------------------------------------------------------
  // The whole batch

  /** The record each (package, version) holds after a completed batch. */
  lemma BatchPackageEntry(doc: Doc, batch: Batch, packageId: Value, version: Value)
    requires ApplyBatch(doc, batch).Ok?
    ensures EntryAt(ApplyBatch(doc, batch).value, packageId, version) ==
      Overriding(LastPackageRecord(PackageItems(batch.packageUpdates), packageId, version), EntryAt(doc, packageId, version))
  {
    var items := PackageItems(batch.packageUpdates);
    var packaged := Fold(doc, items, ApplyPackageItem).value;
    PackageUpdatesLastWins(doc, items, packageId, version);
    ApplicationUpdatesKeepOtherKeys(packaged, batch.applicationUpdates, PackagesKey);
  }

  /** The record each application holds after a completed batch. */
  lemma BatchApplicationEntry(doc: Doc, batch: Batch, applicationId: Value)
    requires ApplyBatch(doc, batch).Ok?
    ensures ApplicationAt(ApplyBatch(doc, batch).value, applicationId) ==
      Overriding(LastApplicationRecord(batch.applicationUpdates, applicationId), ApplicationAt(doc, applicationId))
  {
    var items := PackageItems(batch.packageUpdates);
    var packaged := Fold(doc, items, ApplyPackageItem).value;
    PackageUpdatesKeepOtherKeys(doc, items, ApplicationsKey);
    assert ApplicationAt(packaged, applicationId) == ApplicationAt(doc, applicationId);
    ApplicationUpdatesLastWins(packaged, batch.applicationUpdates, applicationId);
  }

  /** A completed batch leaves every top-level key other than `packages` and `applications` as it was. */
  lemma BatchKeepsOtherKeys(doc: Doc, batch: Batch, k: Value)
    requires ApplyBatch(doc, batch).Ok? && k != PackagesKey && k != ApplicationsKey
    ensures k in ApplyBatch(doc, batch).value <==> k in doc
    ensures k in doc ==> ApplyBatch(doc, batch).value[k] == doc[k]
  {
    var items := PackageItems(batch.packageUpdates);
    PackageUpdatesKeepOtherKeys(doc, items, k);
    ApplicationUpdatesKeepOtherKeys(Fold(doc, items, ApplyPackageItem).value, batch.applicationUpdates, k);
  }

  /**
   * A package payload with a falsy checksum, build date or build, or an empty
   * version, aborts the run, so nothing is saved, whatever was applied before it.
   */
  lemma InvalidPayloadAborts(doc: Doc, batch: Batch, n: nat)
    requires n < |PackageItems(batch.packageUpdates)|
    requires CheckPayload(PackageItems(batch.packageUpdates)[n].version, PackageItems(batch.packageUpdates)[n].info).Some?
    ensures Run(doc, batch).Aborted?
  {
    var items := PackageItems(batch.packageUpdates);
    FoldFailsAt(doc, items, ApplyPackageItem, n);
  }

  /** A libtorrent variant id never gains a record: its payloads are stored under `libtorrent`. */
  lemma VariantsNeverStored(doc: Doc, batch: Batch, variant: Value, version: Value)
    requires variant in LibtorrentVariants && ApplyBatch(doc, batch).Ok?
    ensures EntryAt(ApplyBatch(doc, batch).value, variant, version) == EntryAt(doc, variant, version)
  {
    NoRecordUnderVariant(PackageItems(batch.packageUpdates), variant, version);
    BatchPackageEntry(doc, batch, variant, version);
  }

  /** Two batches that differ only in their group keys have the same effect. */
  lemma GroupKeysIgnored(doc: Doc, batch1: Batch, batch2: Batch)
    requires |batch1.packageUpdates| == |batch2.packageUpdates|
    requires forall i :: 0 <= i < |batch1.packageUpdates| ==>
      batch1.packageUpdates[i].versions == batch2.packageUpdates[i].versions
    requires batch1.applicationUpdates == batch2.applicationUpdates
    ensures Run(doc, batch1) == Run(doc, batch2)
  {
    PackageItemsIgnoreKeys(batch1.packageUpdates, batch2.packageUpdates);
  }

  // ---------------------------------------------------------------------------
  // The save decision

  /** Folding steps that each leave the document as it is leaves it as it is. */
  lemma {:induction false} FoldUnchanged<T>(doc: Doc, items: seq<T>, step: (Doc, T) -> Result<Doc, Failure>)
    requires forall u :: u in items ==> step(doc, u) == Ok(doc)
    ensures Fold(doc, items, step) == Ok(doc)
    decreases |items|
  {
    if items != [] {
      var prefix := items[..|items| - 1];
      assert forall u :: u in prefix ==> u in items;
      FoldUnchanged(doc, prefix, step);
      assert items[|items| - 1] in items;
    }
  }

  /** Storing the record a (package, version) already holds leaves the manifest equal to itself. */
  lemma PutPackageSame(doc: Doc, packageId: Value, version: string, record: Value)
    requires Hashable(packageId) && EntryAt(doc, packageId, Str(version)) == Some(record)
    ensures PutPackage(doc, packageId, version, record) == Ok(doc)
  {
    var packages := doc[PackagesKey].entries;
    var versions := packages[packageId].entries;
    assert versions[Str(version) := record] == versions;
    assert packages[packageId := Dict(versions)] == packages;
    assert doc[PackagesKey := Dict(packages)] == doc;
  }

  /** Storing the record an application already holds leaves the manifest equal to itself. */
  lemma PutApplicationSame(doc: Doc, applicationId: string, buildDate: Value, info: Payload)
    requires ApplicationAt(doc, Str(applicationId)) == Some(ApplicationRecord(buildDate, info))
    ensures PutApplication(doc, applicationId, buildDate, info) == Ok(doc)
  {
    var applications := doc[ApplicationsKey].entries;
    assert applications[Str(applicationId) := ApplicationRecord(buildDate, info)] == applications;
    assert doc[ApplicationsKey := Dict(applications)] == doc;
  }

  /** A batch whose every record already equals the stored one completes without a write. */
  lemma NoOpBatchNotWritten(doc: Doc, batch: Batch)
    requires forall u :: u in PackageItems(batch.packageUpdates) ==>
      && CheckPayload(u.version, u.info).None?
      && Hashable(StorageId(u.info))
      && EntryAt(doc, StorageId(u.info), Str(u.version)) == Some(PackageRecordOf(u.info))
    requires forall u :: u in batch.applicationUpdates ==>
      ApplicationAt(doc, Str(u.id)) == Some(ApplicationRecord(Get(u.info, "build_date"), u.info))
    ensures Run(doc, batch) == Completed(doc, false)
  {
    var items := PackageItems(batch.packageUpdates);
    forall u | u in items
      ensures ApplyPackageItem(doc, u) == Ok(doc)
    {
      PutPackageSame(doc, StorageId(u.info), u.version, PackageRecordOf(u.info));
    }
    FoldUnchanged(doc, items, ApplyPackageItem);
    forall u | u in batch.applicationUpdates
      ensures ApplyApplicationItem(doc, u) == Ok(doc)
    {
      PutApplicationSame(doc, u.id, Get(u.info, "build_date"), u.info);
    }
    FoldUnchanged(doc, batch.applicationUpdates, ApplyApplicationItem);
  }

  /** A completed batch that changes some package record is written. */
  lemma ChangedEntryIsWritten(doc: Doc, batch: Batch, packageId: Value, version: Value)
    requires ApplyBatch(doc, batch).Ok?
    requires LastPackageRecord(PackageItems(batch.packageUpdates), packageId, version) != EntryAt(doc, packageId, version)
    requires LastPackageRecord(PackageItems(batch.packageUpdates), packageId, version).Some?
    ensures Run(doc, batch).Completed? && Run(doc, batch).written
  {
    BatchPackageEntry(doc, batch, packageId, version);
  }

  /** A completed batch that changes some application record is written. */
  lemma ChangedApplicationIsWritten(doc: Doc, batch: Batch, applicationId: Value)
    requires ApplyBatch(doc, batch).Ok?
    requires LastApplicationRecord(batch.applicationUpdates, applicationId) != ApplicationAt(doc, applicationId)
    requires LastApplicationRecord(batch.applicationUpdates, applicationId).Some?
    ensures Run(doc, batch).Completed? && Run(doc, batch).written
  {
    BatchApplicationEntry(doc, batch, applicationId);
  }

  /**
   * A libtorrent22 payload applied to an empty manifest creates `packages`,
   * is stored under `libtorrent`, and the result is written.
   */
  lemma LibtorrentExample()
    ensures
      var info := map[
        "checksum_sha256" := Str("abc123"), "package_id" := Str("libtorrent22"),
        "build_date" := Str("2024-01-01"), "build" := Str("7"), "category" := Str("runtime"), "tag" := Null];
      var batch := Batch([PackageGroup("lt", [VersionUpdate("2.0.9", info)])], []);
      Run(map[], batch) == Completed(
        map[PackagesKey := Dict(map[Libtorrent := Dict(map[
          Str("2.0.9") := PackageRecord(Str("abc123"), Str("2024-01-01"), Str("7"), Str("runtime"), Null)])])],
        true)
  {
    var info := map[
      "checksum_sha256" := Str("abc123"), "package_id" := Str("libtorrent22"),
      "build_date" := Str("2024-01-01"), "build" := Str("7"), "category" := Str("runtime"), "tag" := Null];
    var u := VersionUpdate("2.0.9", info);
    var groups := [PackageGroup("lt", [u])];
    assert groups[..0] == [];
    assert PackageItems(groups) == [u];
    assert [u][..0] == [];
    assert StorageId(info) == Libtorrent;
  }
}
