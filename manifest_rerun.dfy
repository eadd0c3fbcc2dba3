/**
 * When the save step writes: a completed batch is written exactly when the
 * last update for some key changes the stored record, and re-running a
 * completed batch on the manifest it produced changes nothing, so the save
 * step does not write a second time.
 */
module ManifestRerun {
  import opened Documents
  import opened ManifestUpdate
  import opened ManifestProperties

  /** The storage keys the package payloads are aimed at. */
  function TouchedPackages(items: seq<VersionUpdate>): set<Value>
  {
    set u | u in items :: StorageId(u.info)
  }

  /** A non-empty sequence is its prefix followed by its last element. */
  lemma SplitLast<T>(xs: seq<T>)
    requires xs != []
    ensures xs == xs[..|xs| - 1] + [xs[|xs| - 1]]
  {
  }

  /** The application ids the application updates are aimed at. */
  function TouchedApplications(apps: seq<ApplicationUpdate>): set<Value>
  {
    set u | u in apps :: Str(u.id)
  }

  /** The storage keys of a non-empty batch are those of its prefix plus that of its last payload. */
  lemma TouchedSnoc(items: seq<VersionUpdate>)
    requires items != []
    ensures TouchedPackages(items) == TouchedPackages(items[..|items| - 1]) + {StorageId(items[|items| - 1].info)}
  {
    var prefix, u := items[..|items| - 1], items[|items| - 1];
    assert items == prefix + [u];
    assert forall w :: w in items <==> w in prefix || w == u;
  }

  /** Every payload of the package loop leaves a record under its own key. */
  lemma {:induction false} LastRecordOfMember(items: seq<VersionUpdate>, u: VersionUpdate)
    requires u in items
    ensures LastPackageRecord(items, StorageId(u.info), Str(u.version)).Some?
    decreases |items|
  {
    if items[|items| - 1] != u {
      var prefix := items[..|items| - 1];
      assert items == prefix + [items[|items| - 1]];
      LastRecordOfMember(prefix, u);
    }
  }

  /**
   * The shape of `packages` after the package loop: it is a mapping that
   * gains the touched packages, and every untouched package is as it was.
   */
  lemma {:induction false} PackageUpdatesShape(doc: Doc, items: seq<VersionUpdate>)
    requires Fold(doc, items, ApplyPackageItem).Ok?
    ensures var d := Fold(doc, items, ApplyPackageItem).value;
      && (items == [] ==> d == doc)
      && (items != [] ==> PackagesKey in d && d[PackagesKey] == Dict(PackagesOf(d)))
      && PackagesOf(d).Keys == PackagesOf(doc).Keys + TouchedPackages(items)
      && (forall p :: p in PackagesOf(doc) && p !in TouchedPackages(items) ==> PackagesOf(d)[p] == PackagesOf(doc)[p])
    decreases |items|
  {
    if items != [] {
      var prefix, u := items[..|items| - 1], items[|items| - 1];
      PackageUpdatesShape(doc, prefix);
      TouchedSnoc(items);
      var s := Fold(doc, prefix, ApplyPackageItem).value;
      assert ApplyPackageItem(s, u) == Fold(doc, items, ApplyPackageItem);
      assert CheckPayload(u.version, u.info).None?;
    }
  }

  /** After the package loop, every package a payload was aimed at holds a version mapping. */
  lemma TouchedAreMappings(doc: Doc, items: seq<VersionUpdate>, u: VersionUpdate)
    requires Fold(doc, items, ApplyPackageItem).Ok? && u in items
    ensures var d := Fold(doc, items, ApplyPackageItem).value;
      StorageId(u.info) in PackagesOf(d) && PackagesOf(d)[StorageId(u.info)].Dict?
  {
    LastRecordOfMember(items, u);
    PackageUpdatesLastWins(doc, items, StorageId(u.info), Str(u.version));
  }

  /** A completed package loop passed every presence check and met no unhashable id. */
  lemma PackageUpdatesAllAccepted(doc: Doc, items: seq<VersionUpdate>)
    requires Fold(doc, items, ApplyPackageItem).Ok?
    ensures forall u :: u in items ==> CheckPayload(u.version, u.info).None? && Hashable(StorageId(u.info))
  {
    forall u | u in items
      ensures CheckPayload(u.version, u.info).None? && Hashable(StorageId(u.info))
    {
      var n :| 0 <= n < |items| && items[n] == u;
      if !(CheckPayload(u.version, u.info).None? && Hashable(StorageId(u.info))) {
        FoldFailsAt(doc, items, ApplyPackageItem, n);
      }
    }
  }

  /** The package loop completes when every payload is accepted and every package it touches is a mapping. */
  lemma {:induction false} PackageUpdatesSucceed(doc: Doc, items: seq<VersionUpdate>)
    requires forall u :: u in items ==> CheckPayload(u.version, u.info).None? && Hashable(StorageId(u.info))
    requires forall u :: u in items && StorageId(u.info) in PackagesOf(doc) ==> PackagesOf(doc)[StorageId(u.info)].Dict?
    ensures Fold(doc, items, ApplyPackageItem).Ok?
    decreases |items|
  {
    if items != [] {
      var prefix, u := items[..|items| - 1], items[|items| - 1];
      assert forall w :: w in prefix ==> w in items;
      PackageUpdatesSucceed(doc, prefix);
      var s := Fold(doc, prefix, ApplyPackageItem).value;
      var p0 := StorageId(u.info);
      PackageUpdatesShape(doc, prefix);
      if p0 in TouchedPackages(prefix) {
        var w :| w in prefix && StorageId(w.info) == p0;
        TouchedAreMappings(doc, prefix, w);
      } else {
        assert u in items;
      }
      assert PutPackage(s, p0, u.version, PackageRecordOf(u.info)).Ok?;
    }
  }

  /** The shape of `applications` after the application loop, as for `packages`. */
  lemma {:induction false} ApplicationUpdatesShape(doc: Doc, apps: seq<ApplicationUpdate>)
    requires Fold(doc, apps, ApplyApplicationItem).Ok?
    ensures var d := Fold(doc, apps, ApplyApplicationItem).value;
      && (apps == [] ==> d == doc)
      && (apps != [] ==> ApplicationsKey in d && d[ApplicationsKey] == Dict(ApplicationsOf(d)))
      && ApplicationsOf(d).Keys == ApplicationsOf(doc).Keys + TouchedApplications(apps)
    decreases |apps|
  {
    if apps != [] {
      var prefix, u := apps[..|apps| - 1], apps[|apps| - 1];
      ApplicationUpdatesShape(doc, prefix);
      SplitLast(apps);
      FoldSnoc(doc, prefix, u, ApplyApplicationItem);
      var s, d := Fold(doc, prefix, ApplyApplicationItem).value, Fold(doc, apps, ApplyApplicationItem).value;
      ApplicationItemShape(s, u, d);
      TouchedApplicationsSnoc(prefix, u);
      calc {
        ApplicationsOf(d).Keys;
        ApplicationsOf(s).Keys + {Str(u.id)};
        ApplicationsOf(doc).Keys + TouchedApplications(prefix) + {Str(u.id)};
        ApplicationsOf(doc).Keys + TouchedApplications(apps);
      }
    }
  }

  /** The application ids of a batch grown by one update gain that update's id. */
  lemma TouchedApplicationsSnoc(apps: seq<ApplicationUpdate>, u: ApplicationUpdate)
    ensures TouchedApplications(apps + [u]) == TouchedApplications(apps) + {Str(u.id)}
  {
    assert forall w :: w in apps + [u] <==> w in apps || w == u;
  }

  /** One application update leaves a mapping under `applications` that gained the update's id. */
  lemma ApplicationItemShape(s: Doc, u: ApplicationUpdate, d: Doc)
    requires ApplyApplicationItem(s, u) == Ok(d)
    ensures ApplicationsKey in d && d[ApplicationsKey] == Dict(ApplicationsOf(d))
    ensures ApplicationsOf(d).Keys == ApplicationsOf(s).Keys + {Str(u.id)}
  {
  }

  /** The application loop completes when `applications` is a mapping or absent. */
  lemma {:induction false} ApplicationUpdatesSucceed(doc: Doc, apps: seq<ApplicationUpdate>)
    requires ApplicationsKey in doc ==> doc[ApplicationsKey].Dict?
    ensures Fold(doc, apps, ApplyApplicationItem).Ok?
    decreases |apps|
  {
    if apps != [] {
      ApplicationUpdatesSucceed(doc, apps[..|apps| - 1]);
      ApplicationUpdatesShape(doc, apps[..|apps| - 1]);
    }
  }

  /** Two manifests that agree on `packages` and on every other top-level key are equal. */
  lemma EqualByPackages(d: Doc, d2: Doc)
    requires PackagesKey in d && d[PackagesKey] == Dict(PackagesOf(d))
    requires PackagesKey in d2 && d2[PackagesKey] == Dict(PackagesOf(d2))
    requires PackagesOf(d).Keys == PackagesOf(d2).Keys
    requires forall p :: p in PackagesOf(d) ==> PackagesOf(d2)[p] == PackagesOf(d)[p]
    requires forall k :: k != PackagesKey ==> (k in d <==> k in d2) && (k in d ==> d2[k] == d[k])
    ensures d2 == d
  {
    assert PackagesOf(d2) == PackagesOf(d);
  }

  /** A second package loop on the result of the first completes. */
  lemma PackageRerunSucceeds(doc: Doc, items: seq<VersionUpdate>)
    requires Fold(doc, items, ApplyPackageItem).Ok?
    ensures Fold(Fold(doc, items, ApplyPackageItem).value, items, ApplyPackageItem).Ok?
  {
    PackageUpdatesAllAccepted(doc, items);
    forall u | u in items
      ensures var d := Fold(doc, items, ApplyPackageItem).value;
        StorageId(u.info) in PackagesOf(d) ==> PackagesOf(d)[StorageId(u.info)].Dict?
    {
      TouchedAreMappings(doc, items, u);
    }
    PackageUpdatesSucceed(Fold(doc, items, ApplyPackageItem).value, items);
  }

  /** A touched package holds the same version mapping after the second package loop. */
  lemma PackageRerunKeepsPackage(doc: Doc, items: seq<VersionUpdate>, u: VersionUpdate, d: Doc, d2: Doc)
    requires Fold(doc, items, ApplyPackageItem) == Ok(d) && Fold(d, items, ApplyPackageItem) == Ok(d2)
    requires u in items
    ensures StorageId(u.info) in PackagesOf(d) && StorageId(u.info) in PackagesOf(d2)
    ensures PackagesOf(d2)[StorageId(u.info)] == PackagesOf(d)[StorageId(u.info)]
  {
    var p := StorageId(u.info);
    TouchedAreMappings(doc, items, u);
    TouchedAreMappings(d, items, u);
    forall v
      ensures EntryAt(d2, p, v) == EntryAt(d, p, v)
    {
      PackageUpdatesLastWins(doc, items, p, v);
      PackageUpdatesLastWins(d, items, p, v);
    }
    SamePackageFromEntries(d, d2, p);
  }

  /** A package that is a version mapping in both manifests, with the same records, is the same. */
  lemma SamePackageFromEntries(d: Doc, d2: Doc, p: Value)
    requires p in PackagesOf(d) && PackagesOf(d)[p].Dict?
    requires p in PackagesOf(d2) && PackagesOf(d2)[p].Dict?
    requires forall v :: EntryAt(d2, p, v) == EntryAt(d, p, v)
    ensures PackagesOf(d2)[p] == PackagesOf(d)[p]
  {
    var versions, versions2 := VersionsOf(d, p), VersionsOf(d2, p);
    forall v | v in versions ensures v in versions2 && versions2[v] == versions[v] {
      assert EntryAt(d2, p, v) == EntryAt(d, p, v);
    }
    forall v | v in versions2 ensures v in versions {
      assert EntryAt(d2, p, v) == EntryAt(d, p, v);
    }
    assert versions2 == versions;
  }

  /** The package loop applied a second time to its own result gives that result back. */
  lemma PackageUpdatesIdempotent(doc: Doc, items: seq<VersionUpdate>)
    requires Fold(doc, items, ApplyPackageItem).Ok?
    ensures var d := Fold(doc, items, ApplyPackageItem).value;
      Fold(d, items, ApplyPackageItem) == Ok(d)
  {
    var d := Fold(doc, items, ApplyPackageItem).value;
    if items != [] {
      PackageRerunSucceeds(doc, items);
      var d2 := Fold(d, items, ApplyPackageItem).value;
      PackageUpdatesShape(doc, items);
      PackageUpdatesShape(d, items);
      forall p | p in PackagesOf(d)
        ensures PackagesOf(d2)[p] == PackagesOf(d)[p]
      {
        if p in TouchedPackages(items) {
          var u :| u in items && StorageId(u.info) == p;
          PackageRerunKeepsPackage(doc, items, u, d, d2);
        }
      }
      forall k | k != PackagesKey
        ensures (k in d <==> k in d2) && (k in d ==> d2[k] == d[k])
      {
        PackageUpdatesKeepOtherKeys(d, items, k);
      }
      EqualByPackages(d, d2);
    }
  }

  /** Two manifests that agree on `applications` and on every other top-level key are equal. */
  lemma EqualByApplications(d: Doc, d2: Doc)
    requires ApplicationsKey in d && d[ApplicationsKey] == Dict(ApplicationsOf(d))
    requires ApplicationsKey in d2 && d2[ApplicationsKey] == Dict(ApplicationsOf(d2))
    requires ApplicationsOf(d).Keys == ApplicationsOf(d2).Keys
    requires forall a :: a in ApplicationsOf(d) ==> ApplicationsOf(d2)[a] == ApplicationsOf(d)[a]
    requires forall k :: k != ApplicationsKey ==> (k in d <==> k in d2) && (k in d ==> d2[k] == d[k])
    ensures d2 == d
  {
    assert ApplicationsOf(d2) == ApplicationsOf(d);
  }

  /** The application loop applied a second time to its own result gives that result back. */
  lemma ApplicationUpdatesIdempotent(doc: Doc, apps: seq<ApplicationUpdate>)
    requires Fold(doc, apps, ApplyApplicationItem).Ok?
    ensures var d := Fold(doc, apps, ApplyApplicationItem).value;
      Fold(d, apps, ApplyApplicationItem) == Ok(d)
  {
    var d := Fold(doc, apps, ApplyApplicationItem).value;
    if apps != [] {
      ApplicationUpdatesShape(doc, apps);
      ApplicationUpdatesSucceed(d, apps);
      var d2 := Fold(d, apps, ApplyApplicationItem).value;
      ApplicationUpdatesShape(d, apps);
      assert forall u :: u in apps ==> Str(u.id) in TouchedApplications(apps);
      forall a | a in ApplicationsOf(d)
        ensures ApplicationsOf(d2)[a] == ApplicationsOf(d)[a]
      {
        ApplicationUpdatesLastWins(doc, apps, a);
        ApplicationUpdatesLastWins(d, apps, a);
        assert ApplicationAt(d, a) == Some(ApplicationsOf(d)[a]);
      }
      forall k | k != ApplicationsKey
        ensures (k in d <==> k in d2) && (k in d ==> d2[k] == d[k])
      {
        ApplicationUpdatesKeepOtherKeys(d, apps, k);
      }
      EqualByApplications(d, d2);
    }
  }

  /** One package payload neither reads nor writes a top-level key other than `packages`. */
  lemma PackageItemIgnoresOtherKeys(s: Doc, u: VersionUpdate, k: Value, x: Value)
    requires k != PackagesKey && ApplyPackageItem(s, u).Ok?
    ensures ApplyPackageItem(s[k := x], u) == Ok(ApplyPackageItem(s, u).value[k := x])
  {
    var p0 := StorageId(u.info);
    var slot := Dict(PackagesOf(s)[p0 := Dict(VersionsOf(s, p0)[Str(u.version) := PackageRecordOf(u.info)])]);
    assert PackagesOf(s[k := x]) == PackagesOf(s);
    assert VersionsOf(s[k := x], p0) == VersionsOf(s, p0);
    assert ApplyPackageItem(s, u) == Ok(s[PackagesKey := slot]);
    assert ApplyPackageItem(s[k := x], u) == Ok(s[k := x][PackagesKey := slot]);
    assert s[k := x][PackagesKey := slot] == s[PackagesKey := slot][k := x];
  }

  /** The package loop neither reads nor writes a top-level key other than `packages`. */
  lemma {:induction false} PackageUpdatesIgnoreOtherKeys(doc: Doc, items: seq<VersionUpdate>, k: Value, x: Value)
    requires k != PackagesKey && Fold(doc, items, ApplyPackageItem).Ok?
    ensures Fold(doc[k := x], items, ApplyPackageItem) == Ok(Fold(doc, items, ApplyPackageItem).value[k := x])
    decreases |items|
  {
    if items != [] {
      var prefix, u := items[..|items| - 1], items[|items| - 1];
      PackageUpdatesIgnoreOtherKeys(doc, prefix, k, x);
      var s := Fold(doc, prefix, ApplyPackageItem).value;
      assert Fold(doc, items, ApplyPackageItem) == ApplyPackageItem(s, u);
      PackageItemIgnoresOtherKeys(s, u, k, x);
      assert Fold(doc[k := x], items, ApplyPackageItem) == ApplyPackageItem(s[k := x], u);
    }
  }

  /**
   * Running a batch again on the manifest its first run produced completes
   * with the same manifest and does not write it.
   */
  lemma RerunWritesNothing(doc: Doc, batch: Batch)
    requires Run(doc, batch).Completed?
    ensures Run(Run(doc, batch).manifest, batch) == Completed(Run(doc, batch).manifest, false)
  {
    var items := PackageItems(batch.packageUpdates);
    var apps := batch.applicationUpdates;
    assert Fold(doc, items, ApplyPackageItem).Ok?;
    var packaged := Fold(doc, items, ApplyPackageItem).value;
    assert Fold(packaged, apps, ApplyApplicationItem).Ok?;
    var d := Fold(packaged, apps, ApplyApplicationItem).value;
    assert Run(doc, batch).manifest == d;
    PackageUpdatesIdempotent(doc, items);
    RerunPackageLoop(packaged, items, apps, d);
    ApplicationUpdatesIdempotent(packaged, apps);
    assert ApplyBatch(d, batch) == Ok(d);
  }

  /** A manifest that agrees with `s` away from key `k` is `s` with `k` set to its own value there. */
  lemma SameExceptAt(d: Doc, s: Doc, k: Value)
    requires k in d
    requires forall j :: j != k ==> (j in d <==> j in s) && (j in d ==> d[j] == s[j])
    ensures d == s[k := d[k]]
  {
  }

  /** The package loop leaves the result of the application loop as it is. */
  lemma RerunPackageLoop(packaged: Doc, items: seq<VersionUpdate>, apps: seq<ApplicationUpdate>, d: Doc)
    requires Fold(packaged, items, ApplyPackageItem) == Ok(packaged)
    requires Fold(packaged, apps, ApplyApplicationItem) == Ok(d)
    ensures Fold(d, items, ApplyPackageItem) == Ok(d)
  {
    if apps != [] {
      ApplicationUpdatesShape(packaged, apps);
      forall k | k != ApplicationsKey
        ensures (k in d <==> k in packaged) && (k in d ==> d[k] == packaged[k])
      {
        ApplicationUpdatesKeepOtherKeys(packaged, apps, k);
      }
      SameExceptAt(d, packaged, ApplicationsKey);
      PackageUpdatesIgnoreOtherKeys(packaged, items, ApplicationsKey, d[ApplicationsKey]);
    }
  }

  // ---------------------------------------------------------------------------
  // A batch is written exactly when it changes some record

  /** Every application update leaves a record under its own id. */
  lemma {:induction false} LastApplicationOfMember(apps: seq<ApplicationUpdate>, u: ApplicationUpdate)
    requires u in apps
    ensures LastApplicationRecord(apps, Str(u.id)).Some?
    decreases |apps|
  {
    if Str(apps[|apps| - 1].id) != Str(u.id) {
      var prefix := apps[..|apps| - 1];
      SplitLast(apps);
      LastApplicationOfMember(prefix, u);
    }
  }

  /** A package loop whose last payload for each key carries the stored record gives the manifest back. */
  lemma PackagesUnchanged(doc: Doc, items: seq<VersionUpdate>, d: Doc)
    requires Fold(doc, items, ApplyPackageItem) == Ok(d)
    requires forall p, v :: LastPackageRecord(items, p, v).Some? ==> LastPackageRecord(items, p, v) == EntryAt(doc, p, v)
    ensures d == doc
  {
    if items != [] {
      PackageUpdatesShape(doc, items);
      forall p | p in TouchedPackages(items)
        ensures p in PackagesOf(doc) && PackagesOf(doc)[p].Dict?
      {
        var u :| u in items && StorageId(u.info) == p;
        LastRecordOfMember(items, u);
      }
      assert StorageId(items[0].info) in TouchedPackages(items);
      forall p | p in PackagesOf(doc)
        ensures PackagesOf(d)[p] == PackagesOf(doc)[p]
      {
        if p in TouchedPackages(items) {
          var u :| u in items && StorageId(u.info) == p;
          TouchedAreMappings(doc, items, u);
          forall v
            ensures EntryAt(d, p, v) == EntryAt(doc, p, v)
          {
            PackageUpdatesLastWins(doc, items, p, v);
          }
          SamePackageFromEntries(doc, d, p);
        }
      }
      forall k | k != PackagesKey
        ensures (k in doc <==> k in d) && (k in doc ==> d[k] == doc[k])
      {
        PackageUpdatesKeepOtherKeys(doc, items, k);
      }
      EqualByPackages(doc, d);
    }
  }

  /** An application loop whose last update for each id carries the stored record gives the manifest back. */
  lemma ApplicationsUnchanged(doc: Doc, apps: seq<ApplicationUpdate>, d: Doc)
    requires Fold(doc, apps, ApplyApplicationItem) == Ok(d)
    requires forall a :: LastApplicationRecord(apps, a).Some? ==> LastApplicationRecord(apps, a) == ApplicationAt(doc, a)
    ensures d == doc
  {
    if apps != [] {
      ApplicationUpdatesShape(doc, apps);
      forall a | a in TouchedApplications(apps)
        ensures a in ApplicationsOf(doc)
      {
        var u :| u in apps && Str(u.id) == a;
        LastApplicationOfMember(apps, u);
      }
      LastApplicationOfMember(apps, apps[0]);
      forall a | a in ApplicationsOf(doc)
        ensures ApplicationsOf(d)[a] == ApplicationsOf(doc)[a]
      {
        ApplicationUpdatesLastWins(doc, apps, a);
        assert ApplicationAt(d, a) == Some(ApplicationsOf(d)[a]);
      }
      forall k | k != ApplicationsKey
        ensures (k in doc <==> k in d) && (k in doc ==> d[k] == doc[k])
      {
        ApplicationUpdatesKeepOtherKeys(doc, apps, k);
      }
      EqualByApplications(doc, d);
    }
  }

  /**
   * A completed batch in which the last update for every key carries the
   * record already stored there gives the manifest back, and nothing is written.
   */
  lemma UnchangedRecordsNotWritten(doc: Doc, batch: Batch)
    requires ApplyBatch(doc, batch).Ok?
    requires forall p, v :: LastPackageRecord(PackageItems(batch.packageUpdates), p, v).Some? ==>
      LastPackageRecord(PackageItems(batch.packageUpdates), p, v) == EntryAt(doc, p, v)
    requires forall a :: LastApplicationRecord(batch.applicationUpdates, a).Some? ==>
      LastApplicationRecord(batch.applicationUpdates, a) == ApplicationAt(doc, a)
    ensures Run(doc, batch) == Completed(doc, false)
  {
    var items := PackageItems(batch.packageUpdates);
    PackagesUnchanged(doc, items, Fold(doc, items, ApplyPackageItem).value);
    ApplicationsUnchanged(doc, batch.applicationUpdates, ApplyBatch(doc, batch).value);
  }

  /** A completed batch is written exactly when its last update for some key differs from the stored record. */
  lemma WrittenExactlyWhenARecordChanges(doc: Doc, batch: Batch)
    requires ApplyBatch(doc, batch).Ok?
    ensures Run(doc, batch).Completed?
    ensures Run(doc, batch).written <==>
      || (exists p, v :: LastPackageRecord(PackageItems(batch.packageUpdates), p, v).Some? &&
            LastPackageRecord(PackageItems(batch.packageUpdates), p, v) != EntryAt(doc, p, v))
      || (exists a :: LastApplicationRecord(batch.applicationUpdates, a).Some? &&
            LastApplicationRecord(batch.applicationUpdates, a) != ApplicationAt(doc, a))
  {
    var items := PackageItems(batch.packageUpdates);
    if p, v :| LastPackageRecord(items, p, v).Some? && LastPackageRecord(items, p, v) != EntryAt(doc, p, v) {
      ChangedEntryIsWritten(doc, batch, p, v);
    } else if a :| (LastApplicationRecord(batch.applicationUpdates, a).Some? &&
                    LastApplicationRecord(batch.applicationUpdates, a) != ApplicationAt(doc, a)) {
      ChangedApplicationIsWritten(doc, batch, a);
    } else {
      UnchangedRecordsNotWritten(doc, batch);
    }
  }
}
