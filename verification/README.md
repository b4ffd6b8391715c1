# Mind Meld: publication protocol and its small crash-safe protocols

Mind Meld keeps files of several machines in step through one shared folder. Each device
publishes encrypted blobs, one manifest naming them and tombstones for deletions; other
tools (a cloud client, an editor, another `mm`) may change any file between any two reads.
This project models the parts that must survive that and proves what they promise.

- **Push and collection** (`PushStages`, `PushRun`, `PushSafety`, `PushTombstones`, `PushVerdicts`,
  `PushLooks`, `PushExposure`, `PushCheckouts`, `PushHistory`, `PushExample`, `BlobCollection`, `PushRuns`).
  The state is one device's `Store`: blobs by digest, own manifest, sidecar. A push is a
  function of what it observes, `Observations`, and every observation is arbitrary, so each
  read may return another revision, nothing or an error. `PushStages` gives the decisions; `PushRun` runs
  them as the program does, updating the manifest and the store in place, and ties each
  method to them; `PushVerdicts` says what each decision is by the fields of the reads alone,
  and the other modules prove what the decisions guarantee.
- **Fetch, merge and recovery** (`RemoteFetch`, `FetchMeaning`, `MergeCopies`,
  `Manifests`, `TextOrder`).
- **Spool rotation, lock file, durable JSON** (`Spool`, `LockFile`, `DurableJson`): state
  machines whose steps are single system calls of any number of processes, each of which
  may fail or die at any step. `SpoolRun`, `LockRun` and `DurableRun` run the program's own
  control flow on them, call by call, while other processes do what they like in between,
  and show that every such execution is a run of the machine, and what it comes to when
  nobody interferes.
- **Key header** (`KeyHeader`, `HeaderMeaning`, `KeyRepair`): byte format, choice between conflict copies,
  and the repair under interference, with every step logged beside the folder it saw.
- **Affected-test selection** (`AffectedTests`, `RecordMeaning`, `TestImports`, `AffectedPlan`,
  `PlanMeaning`, `ImportExample`).
- **Run-evidence log** (`RunLog`, `RunText`).

The hypotheses of the push theorems can be met: `PushExample` gives a first push that
publishes, the same disk seen again, and a checkout whose push freezes what it covers.
`PushLooks.LookPublishes` builds an accepted push to order, for any configuration and any
fetched or recovered prior; the exactness theorems take from it the pushes that break a
property.

Foreign functions are parameters: content digest, ISO time parsing, glob and allowlist
matching, path validity, decryption and JSON decoding, the import-time skeleton, the import statements and
the `__all__` of a Python file. Where a proof needs a digest or a hash to tell contents apart,
that is a stated hypothesis.

## What turned out not to hold

Seven promises fail for inputs the code accepts. The code is modelled as it is; each failure
is shown by an input, and the exact condition is proved.

1. *A tombstone is minted only after a probe found no regular file.* It holds for every push
   over a prior manifest, fetched or recovered, if and only if no in-scope path of an available
   source is on the absence proof's skip list or, outside recovery, is both published and
   tombstoned by that manifest and in reach of the walk (`PushExposure.JustifiedExactly`;
   `PushExposure.BreakingMints` gives the push for each such path). The skip list
   (src/mind_meld/core.py:914-924) holds the walker's junk names, which the prior filter keeps,
   and paths the proof will not join; a fetched manifest was loaded and has none of those
   (`PushExposure.FetchedExposure`), but the sidecar is read without that check
   (src/mind_meld/sidecar.py:87-100). A path that is both published and tombstoned comes from
   merged conflict copies; an upload that holds it removes it
   (src/mind_meld/cli.py:2349-2355) and, once the old tombstone has expired, generates a fresh
   one (src/mind_meld/cli.py:2386-2392).
2. *A path the prior published is published again or tombstoned, and a disabled source keeps
   its tombstones.* Source names may contain a colon (src/mind_meld/config.py:635-687 refuses
   only other types, duplicates and reserved names), and then two paths can share a tombstone
   key (src/mind_meld/manifest.py:2799) and a key is split at the wrong colon
   (src/mind_meld/core.py:689-690). With sources `x` and `x:old`, an accepted push loses
   `f` of `x:old` without a tombstone while `x` has `old:f`
   (`PushExample.ColonNamesLoseAPath`), and drops the tombstone of a disabled `x:old` because
   `x` excludes `old:f` (`PushExample.ColonNamesLoseATombstone`). A path is conserved by every
   push if and only if no other available source may publish a path with its key, by a walk or
   under a checkout (`PushLooks.ConservedExactly`). A tombstone of a disabled source survives
   every push that spares it if and only if that holds of its key and, besides, the source the
   key's first colon names is unavailable, or selects the rest as a path no link can lead to
   (`PushHistory.DisabledExactly`).
3. *While a checkout covers published entries they are republished.* That holds for
   checkouts of the first walk (`PushCheckouts.CoveredIsRepublished`). A checkout that only
   the mm-events rescan finds keeps exactly the entries one of the walks held
   (`PushCheckouts.LateRootExactly`), and for every selected entry of an internal source that a
   checkout can cover there is an accepted push whose rescan finds one over it and which
   tombstones it (`PushCheckouts.LateRootLosesAnEntry`).
4. *Collection keeps every blob the canonical manifest names.* It does if and only if each
   such listed blob is the blob of some path's winner among the copies the two fetches loaded
   (`BlobCollection.CollectionSafeExactly`; stopped midway, each one among the keys it had
   dealt with, `BlobCollection.StoppedSafeExactly`): a copy later than the canonical takes over
   its paths, and blobs only the canonical names are deleted
   (`BlobCollection.ConflictCopyCostsABlob`).
5. *An observed copy that cannot be read is never a first push.* That holds once a copy has
   passed its validator; one unreadable at validation is ignored
   (`RemoteFetch.UnreadableAtValidationIsMissing`), and `RemoteFetch.MissingExactly` says
   exactly when the fetch reports missing.
6. *A narrow test run leaves out no test whose imported test module changed.* The selector
   does not follow names taken from a one-dot module, as in `from .benchmarks import
   test_kdf_timing` (`ImportExample.OneDotNameIsMissed`), imports with two or more dots
   (`ImportExample.TwoDotsAreMissed`), or submodules that only `__all__` names;
   `TestImports.FollowedExactly` says which forms it follows. Every narrow plan over a recorded
   tree leaves a test out safely if and only if, for every test module its file really runs, the
   followed imports lead there from that file, or from a file that is no test module; or the
   tree has no source file, so that no record of it loads
   (`AffectedPlan.SoundExactlyWhenBridged`). A tree that keeps to the followed forms is bridged
   for every test (`TestImports.FollowedFormsBridge`).
7. *What a walk publishes, a fetch will load.* Loading refuses a manifest with one invalid path
   and takes honest writers never to produce one (src/mind_meld/manifest.py:2549-2561), but a
   walk publishes any name it may report, and a file named `C:f` reads as a drive letter
   (`PushExample.DriveLetterIsUnloadable`). Every push over a prior publishes only valid paths if
   and only if no walk may report, and no checkout keep, another (`PushLooks.LoadableExactly`).

## Model

| member | source | states |
|---|---|---|
| `TextOrder.TextLessIsOrder` | src/mind_meld/core.py:1056-1059 | the string comparison behind copy and tombstone order is a strict total order |
| `TextOrder.SortedTextMeaning` | bin/_check.py:1497 | the sort by that comparison gives the same strings, each as often, in order |
| `Manifests.KeyOwnerOfKey` | src/mind_meld/core.py:685-692 | with a colon-free source name a tombstone key splits back into exactly its source and path |
| `Manifests.UnclaimedExactly` | src/mind_meld/manifest.py:2795-2813 | a key belongs to one path only among the files of the given sources if and only if no other of their names, followed by a colon, begins it |
| `Manifests.TombstoneMeaning` | src/mind_meld/manifest.py:2734-2813 | a key is in the generated tombstones if and only if no local file has it and it is a prior tombstone dated less than thirty days before the clock, kept unchanged, or the key of a path the prior published and the local manifest lost, stamped with this clock and device |
| `MergeCopies.MergeManifests` | src/mind_meld/core.py:1020-1091 | the update loops over the sorted copies compute the specified merge |
| `MergeCopies.MergeMeaning` | src/mind_meld/core.py:1020-1091 | the merge publishes exactly the union of all paths, each with the entry of a copy that no copy having the path is later than, and exactly the union of tombstones, each with the latest deletion time |
| `MergeCopies.MergeKeepsHeader` | src/mind_meld/core.py:1020-1091 | the merged manifest's own fields are those of a latest copy, and each source keeps the base path of the earliest copy that has it |
| `MergeCopies.MergeIgnoresListing` | src/mind_meld/core.py:1008-1091 | with a hash that tells copies apart, copies listed in any order and with any duplicates merge to the same manifest |
| `RemoteFetch.FetchRemoteManifest` | src/mind_meld/core.py:388-533 | the phased reads - canonical, noted copies, validators, canonical again, final copies - return the specified classification and log exactly the reads it depends on |
| `RemoteFetch.NewerBytesBlock` | src/mind_meld/core.py:417-459 | a reserved-version byte in any observed read gives corrupt with a newer version that was observed, and nothing else does |
| `RemoteFetch.MissingExactly` | src/mind_meld/core.py:490-516 | missing if and only if nothing newer was seen, no canonical was there or it vanished, and every validated copy vanished |
| `RemoteFetch.SeenUnreadableIsNotMissing` | src/mind_meld/core.py:490-516 | a canonical seen and not seen to vanish, or a validated copy that reads badly, is never reported missing |
| `RemoteFetch.UnreadableAtValidationIsMissing` | src/mind_meld/core.py:444-471 | the counterexample: a copy unreadable at validation leaves a plain missing |
| `RemoteFetch.OkMeaning` | src/mind_meld/core.py:490-533 | ok if and only if something loaded and nothing newer was seen; the manifest is the merge of what loaded, and the copies-only flag says whether the canonical was among it |
| `FetchMeaning.ReportsExactly` | src/mind_meld/core.py:388-533 | the whole report by the reads: blocked if and only if some read of the canonical, a listed copy, a validator, or a final read of a copy taken has a first byte from 3 to 15; else ok if and only if the second canonical read or a taken copy loads; missing if and only if no canonical was there or it went away and every taken copy did; copies-only and vanished as they happened |
| `FetchMeaning.LoadedExactly` | src/mind_meld/core.py:461-533 | what is merged is exactly what loading made of the second canonical read and of the final reads of the copies whose validator found current-format bytes that parse |
| `FetchMeaning.NamesVersion` | src/mind_meld/core.py:417-459 | a blocked fetch names the greatest version of the first reads, else the greatest the validators saw, else the canonical's at its second read, else the first among the final reads |
| `RemoteFetch.FetchIgnoresListing` | src/mind_meld/core.py:461-533 | two ok fetches that load the same copies agree on the manifest |
| `RemoteFetch.NoPriorExactly` | src/mind_meld/core.py:1506-1538 | a push starts from no prior if and only if nothing newer was seen, no canonical was there and no copy validated |
| `RemoteFetch.RecoveryKeepsDeletions` | src/mind_meld/core.py:1513-1592 | when recovery is needed and a sidecar is readable, each of its deletions is in the recovered prior with the same or a later time |
| `RemoteFetch.RecoveryKeepsCopies` | src/mind_meld/core.py:1506-1537 | an ok fetch keeps all its paths and tombstones in the recovered prior; held only by conflict copies, it gains exactly the sidecar's |
| `PushRun.LocalManifest.FreezeNestedCheckoutEntries` | src/mind_meld/core.py:814-849 | the in-place insertion loop leaves the manifest at the specified frozen sources and returns exactly the frozen paths |
| `PushRun.LocalManifest.ValidateCandidates` | src/mind_meld/cli.py:1740-1776 | true if and only if every candidate that is neither held nor excluded probes as gone and has no published path below it |
| `PushRun.LocalManifest.InjectHeldEntries` | src/mind_meld/cli.py:1673-1737 | resolves held files in place: the new manifest, the surviving holds and the refusal are the specified ones |
| `PushRun.LocalManifest.ApplyUploaded` | src/mind_meld/cli.py:2343-2361 | patches and holds are applied to one source exactly as specified, other sources untouched |
| `PushRun.ProveOmittedPathsAbsent` | src/mind_meld/core.py:882-969 | true if and only if every published root is accessible and every omitted, valid, unexcluded prior path probes as gone, a link or not a regular file |
| `PushRun.Device.UploadChangedBlobs` | src/mind_meld/cli.py:485-623 | the two passes put only verified revisions under their own digest, return the patches and holds that `PushSafety.UploadSplits` gives by the reads, and read every file once and then each deferred file once, all second reads after all first ones |
| `PushRun.Device.PreparePush` | src/mind_meld/cli.py:2017-2108 | recovery, filters, freeze, holds, absence proof and first tombstones build the draft or refuse, as `PushVerdicts.PreparesExactly` says by the reads |
| `PushRun.RescanInternal` | src/mind_meld/cli.py:2219-2280 | the rescan of internal sources, with carried frozen and held entries, a second proof and new tombstones, builds the specified draft or refuses |
| `PushRun.Device.UploadSources` | src/mind_meld/cli.py:2284-2364 | uploads source by source, growing the blob set only by verified revisions; on success every one is stored and the manifest is the specified one; it is interrupted only at a put, after fewer than twice as many as there are files to upload |
| `PushRun.Device.Push` | src/mind_meld/cli.py:1801-2458 | one push, stopped at any put or not, is a step of the store: idle changes nothing, refused and stopped only add blobs, accepted puts exactly the final manifest with all its blobs; a push stops only at a put |
| `PushRun.Device.CollectGarbage` | src/mind_meld/cli.py:3048-3188 | one collection, stopped at any deletion or not, removes only listed blobs of this device that neither of two complete fetches references, counts them, and stops only at the deletion that fails |
| `PushSafety.FreezeFiles` | src/mind_meld/core.py:814-849 | freezing adds exactly the frozen paths, at the prior's entries, untombstoned and below a root, and changes no scanned entry |
| `PushSafety.InjectFiles` | src/mind_meld/cli.py:1673-1737 | injection adds exactly the surviving held paths the prior has, at its entries, none frozen or tombstoned |
| `PushSafety.PriorByReads` | src/mind_meld/core.py:1473-1592 | the prior a push starts from by the reads of its fetch and the sidecar: loaded copies merged, with the sidecar when the canonical was not among them; no prior when nothing was seen; else the sidecar, the peers' tombstones over no files, or a refusal |
| `PushSafety.DraftFiles` | src/mind_meld/cli.py:2029-2092 | what the draft publishes for one path, in every case: the scanned entry, the scoped prior's when frozen, the compared prior's when held, or nothing |
| `PushSafety.InsideRescan` | src/mind_meld/cli.py:2219-2272 | what the rescan leaves of one internal source: the carried and read entries and the surviving holds, with the entries each has |
| `PushSafety.DraftIsLastWalk` | src/mind_meld/cli.py:2029-2272 | outside the frozen and held paths the draft has exactly the files of each source's last walk, with the entries that walk recorded |
| `PushSafety.UploadedExactly` | src/mind_meld/cli.py:2343-2361 | the published files by what the upload did: held goes back to the fetched entry or out, patched has its second read's entry, every other stays as drafted |
| `PushSafety.PublishedOrigin` | src/mind_meld/cli.py:2284-2458 | every published entry is the one the last walk of its source recorded, of a path neither frozen nor held, with its digest, size and mtime read again at upload or its digest already fetched; or a settled second read; or an accepted prior entry |
| `PushSafety.UploadSplits` | src/mind_meld/cli.py:589-623 | by the two reads, a file is neither patched nor held if and only if its first read is a revision with the scanned digest and size and the scanned mtime as text or instant; a patched one has its second read's digest, size and mtime; a held one did not settle and holding is allowed |
| `PushSafety.FatalExactly` | src/mind_meld/cli.py:485-623 | the upload refuses if and only if some file's first read fails, or it does not read as scanned and its second read fails or, where nothing may be held, does not settle |
| `PushSafety.PutsAreVerified` | src/mind_meld/cli.py:562-623 | everything put is the revision some unheld file is published at, under its digest; nothing is put for a held file |
| `PushSafety.PublishedIsBacked` | src/mind_meld/cli.py:2284-2458 | if every fetched entry has its blob stored, so has every entry of the manifest the push puts |
| `PushTombstones.FinalComparison` | src/mind_meld/cli.py:2106-2392 | whatever was held, the published tombstones are one comparison of what is published with the scoped prior |
| `PushTombstones.ComparedPublishes` | src/mind_meld/core.py:596-759 | the prior a push compares with publishes a path if and only if the recovered one does, it is in scope and it was not set aside |
| `PushTombstones.ComparedTombstones` | src/mind_meld/core.py:680-759 | and carries exactly the tombstones that are neither excluded nor behind a link, unchanged |
| `PushTombstones.KeyConserved` | src/mind_meld/cli.py:2029-2108 | whatever the source names, the key of every in-scope path the prior published is live or tombstoned, never both and never neither, unless the path was set aside under a checkout or a link |
| `PushTombstones.PublishedMayPublish` | src/mind_meld/manifest.py:1067-1111 | an accepted push publishes only paths its sources' walks may report - named by the walk, not excluded - and prior entries a checkout may keep |
| `PushTombstones.Conserved` | src/mind_meld/cli.py:2029-2108 | so every such path whose key no other available source may publish is published again or tombstoned, never both and never neither |
| `PushTombstones.MintedMeaning` | src/mind_meld/core.py:882-969 | each minted tombstone is for a path of an available source that the prior published and nothing excludes, and the last probe found no regular file unless the path is skipped by the proof or was held over a tombstone |
| `PushTombstones.NarrowingMintsNothing` | src/mind_meld/cli.py:2029-2056 | disabling a source, narrowing its patterns or allowlist, adding a skip prefix, or a path never published: none mints a tombstone for a path whose key no other available source's name begins |
| `PushTombstones.LostRootNeverPublishes` | src/mind_meld/core.py:901-908 | a published source whose root is gone or unreadable makes the push refuse |
| `PushVerdicts.PriorPathsExactly` | src/mind_meld/core.py:596-759 | the compared prior publishes a path, with its entry, if and only if the recovered one does, its source is selected or available and not retired, it is no conflict copy, marker or unselected path, no link leads to it, and no checkout is over it unless it is frozen |
| `PushVerdicts.PriorTombstonesExactly` | src/mind_meld/core.py:680-759 | it carries a tombstone, unchanged, if and only if the path its key names passes the same filter and no link leads to it |
| `PushVerdicts.FrozenPathsExactly` | src/mind_meld/core.py:814-849 | a path is frozen if and only if the prior published it, it passes the filters, a checkout the walk found is over it, the walk did not read it, it is not tombstoned and, unless the canonical was read, its blob is stored |
| `PushVerdicts.HeldPathsExactly` | src/mind_meld/cli.py:1673-1737 | a path is held if and only if the walk held it or named it a candidate, selects it and did not read it, and it is neither frozen nor tombstoned |
| `PushVerdicts.PreparesExactly` | src/mind_meld/cli.py:2017-2108 | a push with a prior gets to its draft if and only if nothing newer was fetched, no selected source that published files is gone, the walk ended and in recovery settled, links could be probed, every selected candidate is gone and was no published directory, every published root is there, and no loss probes as a regular file or fails to probe |
| `PushVerdicts.FirstPreparesExactly` | src/mind_meld/cli.py:1673-1776 | a first push gets to its draft if and only if the walk ended and every selected candidate is gone |
| `PushVerdicts.RescansExactly` | src/mind_meld/cli.py:2219-2280 | the internal rescan goes on under the same demands on its own walk, probes and roots, where carried and waiting paths are no losses |
| `PushVerdicts.PublishesExactly` | src/mind_meld/cli.py:2284-2414 | a draft with something to publish is published if and only if the rescan goes on, no uploaded file's reads fail, none vanished from a published source whose root is gone, and nothing newer came in at the end |
| `PushVerdicts.RefusesBeforeUploads` | src/mind_meld/cli.py:1896-1955 | without a prior state or a draft the push refuses; with no source to push it refuses only for a newer format, no prior state, or a selected source that published files |
| `PushVerdicts.VanishedCandidateRefuses` | src/mind_meld/cli.py:1740-1776 | one selected candidate that is still there, or below which the prior published a path, makes the whole push refuse |
| `PushExample.VanishedDirectoryRefuses` | src/mind_meld/cli.py:1710-1716 | the input: `c/a` was published and the walk names `c` a candidate; the push refuses although every probe finds nothing |
| `PushExample.SavedAgainIsPublishedAnew` | src/mind_meld/cli.py:545-561 | the input: the same bytes saved again at another time are read twice and published with the time that was read |
| `PushLooks.LookPublishes` | src/mind_meld/cli.py:2029-2458 | over any fetched or recovered prior, a push whose walks report what walks may, that finds every provable path it neither sees nor covers absent or behind a link, and no fatal read, is accepted and publishes what it saw and froze |
| `PushLooks.MintableExactly` | src/mind_meld/cli.py:2029-2108 | a key can be minted over this prior if and only if it is the key of a path the prior published, of an available source, that no exclusion, skip prefix or allowlist removes |
| `PushLooks.ConservedExactly` | src/mind_meld/manifest.py:2734-2813 | every accepted push over this prior publishes a path or its tombstone if and only if no other available source may publish a path with the same key |
| `PushLooks.PublishableExactly` | src/mind_meld/manifest.py:1067-1111 | some accepted push over this prior publishes a path if and only if a walk may report it or a checkout keep its prior entry |
| `PushLooks.LoadableExactly` | src/mind_meld/manifest.py:2520-2605 | every accepted push over this prior publishes only paths that a fetch will load if and only if every path it may publish is valid |
| `PushExample.DriveLetterIsUnloadable` | src/mind_meld/manifest.py:2549-2553 | the counterexample: an accepted push publishes a file named `C:f`, which loading refuses |
| `PushExample.ColonNamesLoseAPath` | src/mind_meld/manifest.py:2795-2813 | the counterexample: an accepted push with sources `x` and `x:old` publishes neither a path the prior published nor its tombstone |
| `PushExposure.BreakingMints` | src/mind_meld/core.py:914-924 | for every exposed path, over any fetched or recovered prior, observations under which the push publishes and tombstones it while a regular file is in its place |
| `PushExposure.JustifiedExactly` | src/mind_meld/core.py:882-969 | every push over this prior, however it was recovered, mints only probed tombstones if and only if no in-scope path is skipped by the proof or, outside recovery, both published and tombstoned and in reach of the walk |
| `PushExposure.FetchedExposure` | src/mind_meld/manifest.py:2604-2605 | over a fetched prior the exposed paths are exactly the selected ones with junk names and those both published and tombstoned in reach of the walk, since loading lets in no path the proof will not join |
| `PushCheckouts.CoveredIsRepublished` | src/mind_meld/cli.py:2050-2072 | below a checkout root, an unread path is published if and only if the checkout covers it, then with its old entry, not uploaded and not tombstoned |
| `PushCheckouts.LateRootExactly` | src/mind_meld/cli.py:2219-2272 | below a checkout that only the rescan found, an unread path is published if and only if the compared prior has it and one of the walks held it, then with its old entry, not uploaded and not tombstoned; a compared path's key is otherwise tombstoned unless live |
| `PushCheckouts.LateRootLosesAnEntry` | src/mind_meld/cli.py:2219-2272 | the counterexample, for any selected entry of an internal source that a checkout below the source root can cover: an accepted push whose rescan finds one over it and which tombstones it |
| `PushCheckouts.GoneIsTombstoned` | src/mind_meld/cli.py:2050-2108 | a published in-scope path that no walk read, held or covered and whose key no other available source may publish is tombstoned by the next accepted push |
| `PushCheckouts.FrozenThenGone` | src/mind_meld/core.py:814-849 | what one push froze, over a fetched or recovered prior, the next one tombstones once checkout and files are gone |
| `PushHistory.RecoveryIsTransparent` | src/mind_meld/core.py:1473-1592 | with the sidecar at the last manifest and its blobs stored, a settled push from a corrupt canonical builds the same draft, or refuses in the same cases, as from the intact one |
| `PushHistory.RecoveryPublishesSame` | src/mind_meld/cli.py:1909-2458 | if both publish over settled reads they put the same manifest |
| `PushHistory.AcceptedPushIsRecoverable` | src/mind_meld/cli.py:2458-2510 | after any accepted push whose sidecar was written, losing the canonical does not change what the next push builds |
| `PushHistory.FiltersAgree` | src/mind_meld/core.py:762-811 | the readers' disabled-source filter equals the push's selected-source filter and keeps every tombstone |
| `PushHistory.DisabledStep` | src/mind_meld/cli.py:316-329 | while a source is disabled and no available source claims the key, an accepted push drops its files, keeps each of its tombstones unchanged if and only if what follows the key's first colon is not conflict-named or a marker and it is unexpired, and adds none |
| `PushHistory.DisabledExactly` | src/mind_meld/core.py:686-759 | a disabled source's tombstone survives every push that spares it if and only if no available source may publish a path with its key and the source its first colon names is unavailable, or selects the rest as a path no link can lead to |
| `PushExample.ColonNamesLoseATombstone` | src/mind_meld/core.py:686-695 | the counterexample: an accepted push drops an unexpired tombstone of the disabled source `x:old` |
| `PushHistory.DisabledTombstoneSurvives` | src/mind_meld/cli.py:316-329 | over any number of accepted pushes such a tombstone survives, unchanged, exactly as long as each push spares it |
| `PushHistory.CoveredEntrySurvives` | src/mind_meld/core.py:814-849 | over any number of accepted pushes under a checkout a published entry stays published, unchanged and untombstoned |
| `PushHistory.CheckoutLifetime` | src/mind_meld/core.py:814-849 | and the first push after that finds checkout and file gone tombstones it |
| `PushHistory.IdlesExactly` | src/mind_meld/cli.py:2110-2157 | a push that is not refused stays idle if and only if it is not recovering, no catch-up is pending, the sources are the advertised ones and no file differs in presence, bytes or a newer mtime; otherwise it publishes unless the rescan, the upload or a newer format refuses |
| `PushHistory.PushQuiesces` | src/mind_meld/cli.py:2106-2199 | after an accepted push that held nothing, a push over the same disk, configuration and selection puts no blob and no manifest |
| `BlobCollection.CollectsExactly` | src/mind_meld/cli.py:3137-3169 | a completed collection removes exactly the listed unreferenced blobs of the device |
| `BlobCollection.StopsExactly` | src/mind_meld/cli.py:3137-3169 | a stopped one removes exactly those among the keys it had dealt with, and stops at an unreferenced blob of the device |
| `BlobCollection.ReportsPlaces` | src/mind_meld/cli.py:3161-3167 | the reported number is the number of places in the listing that name an unreferenced blob of the device |
| `BlobCollection.CollectsOnlyTrusted` | src/mind_meld/cli.py:3075-3135 | a collection goes through the listing if and only if both fetches read the canonical manifest whole and saw no newer format; it skips if and only if the first is missing, or the second after a trusted first; otherwise it refuses, and then, or in a dry run, nothing changes |
| `BlobCollection.ReferencesAreWinners` | src/mind_meld/cli.py:3116-3135 | a complete fetch references a blob if and only if some path's winner among the copies it loaded names it |
| `BlobCollection.CollectionSafeExactly` | src/mind_meld/cli.py:3048-3188 | a completed collection keeps the canonical manifest backed if and only if each listed blob it names is the blob of some path's winner among the copies either fetch loaded |
| `BlobCollection.StoppedSafeExactly` | src/mind_meld/cli.py:3140-3168 | one stopped at a failing deletion keeps it backed if and only if that holds of the listed keys dealt with before |
| `BlobCollection.CollectionKeeps` | src/mind_meld/cli.py:3117-3169 | stopped or not, a collection that finds it so keeps the manifest backed |
| `BlobCollection.LostIsOverridden` | src/mind_meld/core.py:1020-1091 | where the fetch loaded the canonical, a blob of it is no winner's only if at every path where it names the blob some strictly later copy has the path |
| `BlobCollection.UnoverriddenIsSafe` | src/mind_meld/cli.py:3075-3135 | a fetch that loaded the canonical and no later copy of any of its paths makes collection safe for it |
| `BlobCollection.CanonicalAloneIsComplete` | src/mind_meld/cli.py:3075-3135 | a fetch that loaded the canonical alone references everything it names |
| `BlobCollection.CanonicalAloneIsSafe` | src/mind_meld/cli.py:3075-3169 | and collection over it deletes nothing the canonical names, whatever the second fetch saw |
| `BlobCollection.ConflictCopyCostsABlob` | src/mind_meld/cli.py:3075-3169 | the counterexample: a newer conflict copy makes a collection delete a blob the canonical names |
| `PushRuns.FetchedIsBacked` | src/mind_meld/core.py:490-533 | a fetch of copies that all have their blobs stored gives a manifest that has its blobs stored |
| `PushRuns.EveryRunStaysBacked` | src/mind_meld/cli.py:1801-2458 | over every run of pushes and collections, however each ended, the canonical manifest has all its blobs after every step if and only if no collection of the run, completed or stopped, went through a listed blob of it that no winner names |
| `PushRuns.UnoverriddenRunsStayBacked` | src/mind_meld/cli.py:3048-3188 | so in every run whose collections find the canonical manifest alone, or with copies that override none of its paths |
| `Spool.StepKeepsInv` | src/mind_meld/fsutil.py:675-764 | every system call of every writer and rotator keeps the invariant tying program counters, lock owners, names and returned rows |
| `Spool.CheckedHoldsTheSpool` | src/mind_meld/fsutil.py:696-702 | whoever is past the inode check holds the flock on the inode the path names, alone |
| `Spool.RenamedIsFrozen` | src/mind_meld/fsutil.py:722-764 | a file renamed away keeps its name and bytes for the rest of the run |
| `Spool.ReturnedRowsStand` | src/mind_meld/fsutil.py:675-719 | each row whose append returned is one whole line of a file with one name, apart from every other returned row, at every later step |
| `Spool.ReturnsIntoTheSpool` | src/mind_meld/fsutil.py:696-716 | an append returns only while the path still names the file its row went to |
| `Spool.NoStepOverflows` | src/mind_meld/fsutil.py:703-709 | no step leaves a file above the ceiling unless it was already that long |
| `Spool.OnlyTheHolderWrites` | src/mind_meld/fsutil.py:696-718 | while a process holds a file's lock no other process changes the file |
| `Spool.ShortAppendIsUndone` | src/mind_meld/fsutil.py:709-711 | a short write followed by the truncation leaves the file as it was |
| `SpoolRun.Filesystem.Append` | src/mind_meld/fsutil.py:675-719 | the retrying append, interleaved with anything, is a run of the machine, closes its descriptor, and returns only with its row among the landed ones; when the row does not land, a call failed or was hindered, or the spool was rotated away at every one of the eight attempts; undisturbed, the row lands on its own line if it fits and is written whole, and otherwise the spool is as it was |
| `SpoolRun.Filesystem.Rotate` | src/mind_meld/fsutil.py:722-764 | the few-tries rotation, interleaved with anything, is a run of the machine and reports success only when the file the path named at its start has the new name; undisturbed, it succeeds if and only if there is a spool, its lock and the new name are free, and no call fails |
| `LockFile.AtMostOneOwner` | src/mind_meld/lockfile.py:75-164 | over every interleaving with failures and crashes at most one process owns the never-unlinked lock |
| `LockFile.UnlinkingBreaksIt` | src/mind_meld/lockfile.py:143-151 | a run in which unlinking on release would leave two owners, the reason given for not doing it |
| `LockRun.Machine.Acquire` | src/mind_meld/lockfile.py:75-134 | acquiring, interleaved with anything, succeeds only as the sole owner; a holder's second acquire fails and keeps the lock; any failure leaves nothing held; undisturbed, it succeeds if and only if its calls do, nobody owns the lock and not both flock calls are interrupted |
| `LockRun.Machine.Release` | src/mind_meld/lockfile.py:137-164 | releasing leaves the process without the lock, and is a no-op for one that has none; undisturbed, nobody owns it afterwards |
| `DurableJson.StepKeepsInv` | src/mind_meld/lockedjson.py:66-124 | every step of writers and lock-free readers keeps the invariant |
| `DurableJson.VisibleVersionsChain` | src/mind_meld/lockedjson.py:66-124 | the visible file is the last version and each version is one mutator applied to the document visible just before it, also after a failed flush |
| `DurableJson.OneWriter` | src/mind_meld/lockedjson.py:81-124 | at most one process works on the store, and only while it owns the lock |
| `DurableJson.ReaderSeesOneVersion` | src/mind_meld/lockedjson.py:70-79 | until it closes, a lock-free reader keeps the complete bytes of the version visible at its open |
| `DurableRun.Store.Update` | src/mind_meld/lockedjson.py:66-124 | one read-modify-write, interleaved with anything, is a run of the machine, leaves no work behind, and reports a write, confirmed or not, only with its mutator in the history; a success replaces the file just once, was wanted and follows no failing call, anything else never replaces it; undisturbed, it is contended if somebody holds the lock, and else refused, skipped or written as the file parses, the caller wants it and the result fits, with exactly the mutator applied to the visible document |
| `DurableRun.Store.Publish` | src/mind_meld/fsutil.py:550-574 | the atomic write: a temp file filled chunk by chunk and renamed, where a failure after the rename still counts as visible; undisturbed, the file then has the whole new version |
| `KeyHeader.BigEndianRoundTrip` | src/mind_meld/crypto.py:370-394 | decoding the big-endian field gives back every value that fits its width |
| `KeyHeader.ParseOfSerialize` | src/mind_meld/crypto.py:357-394 | a serialized well-formed header parses back to the same cost, salt and keycheck |
| `KeyHeader.SerializeOfParse` | src/mind_meld/crypto.py:357-394 | whatever parses is well formed and serializes back to the same bytes |
| `KeyHeader.ParsesExactly` | src/mind_meld/crypto.py:357-383 | the accepted blobs are exactly the serialized well-formed headers |
| `KeyHeader.WinnerMeaning` | src/mind_meld/crypto.py:431-492 | missing, newer and found exactly as documented; the winner is the first readable valid copy, canonical first, with the least salt |
| `KeyHeader.NewestVersionReported` | src/mind_meld/crypto.py:457-466 | a blocked fetch names the greatest newer version any readable copy carries |
| `KeyHeader.CountsSplit` | src/mind_meld/crypto.py:472-503 | the planned deletions are exactly the copies identical to a readable canonical; the rest are preserved |
| `HeaderMeaning.ParsesByBytes` | src/mind_meld/crypto.py:357-383 | the parser byte by byte: newer if and only if the header, or the keycheck of a current header, begins with 3 to 15; accepted if and only if both begin with 2, the big-endian cost is in range and there are at least 51 bytes; the fields are the bytes in their places |
| `HeaderMeaning.SerializesExactly` | src/mind_meld/crypto.py:386-394 | serializing fails only for a salt that is not 16 bytes or a cost beyond four, and otherwise puts every field in its place |
| `HeaderMeaning.FetchesByContents` | src/mind_meld/crypto.py:431-492 | by the folder's contents: missing without any name, blocked when some content is newer and then with the greatest version, found when none is and some is valid, and then the winner has the least salt; corrupt otherwise |
| `HeaderMeaning.PlansByContents` | src/mind_meld/crypto.py:472-503 | the plan has every copy's name and digest, and deletes exactly those with the bytes of a readable canonical |
| `HeaderMeaning.CountsExactly` | src/mind_meld/crypto.py:495-503 | a found fetch counts as many deletions as the repair removes and as many preserved as it leaves; any other counts none |
| `KeyHeader.RepairKeepsContents` | src/mind_meld/crypto.py:506-569 | removing the redundant copies keeps the set of distinct contents |
| `KeyHeader.RepairKeepsWinner` | src/mind_meld/crypto.py:506-569 | and the winner and header, and a second repair has nothing to delete |
| `KeyRepair.Storage.Repair` | src/mind_meld/crypto.py:506-569 | with the folder changing between any two steps, every removal directly follows reads of that copy and of the canonical that hash the same; refusals remove nothing; undisturbed, it is refused for a newer format or as changed exactly when a fresh fetch says so, the winner is another or the canonical is not the planned one, and else, with the plan of this folder, leaves exactly the folder without redundant copies; nothing follows a removal the storage refuses, which is the one way to fail, or a later read of the canonical with other bytes |
| `KeyRepair.StepsTouchOneName` | src/mind_meld/crypto.py:550-569 | no step writes or removes the canonical, and a removal leaves every other name alone |
| `KeyRepair.RemovedBytesWereCanonical` | src/mind_meld/crypto.py:550-569 | under an injective hash the removed copy held the canonical's bytes when both were last read |
| `AffectedTests.BuildRecord` | bin/_check.py:1482-1538 | the recorded tests are the collected ones in order, the index says of each exactly what some part said of it, and every index is in range |
| `RecordMeaning.RefusedExactly` | bin/_check.py:1482-1496 | a record is refused if and only if there is no part, some part was filtered, the first part collected nothing, or some part collected other tests than the first |
| `RecordMeaning.RecordsExactly` | bin/_check.py:1189-1209 | a record holds what is there of the watched Python files and the configuration files, and every changed path outside the selection directory, as missing when it is not there; exactly the source files that are there have a skeleton |
| `RecordMeaning.WatchedExactly` | bin/_check.py:1194-1198 | the watched files are exactly the `.py` paths under the three roots with no cache directory on the way |
| `RecordMeaning.CacheDirExactly` | bin/_check.py:1197 | a path is below a cache directory exactly when one of its directories has that name |
| `RecordMeaning.TestModulesExactly` | bin/_check.py:1337-1343 | a test module is exactly a path under `tests/` whose last segment is `test_*.py` or `*_test.py` |
| `RecordMeaning.FilePartExactly` | bin/_check.py:1435-1441 | the file of a test id is what stands before its first double colon, or all of an id without one |
| `RecordMeaning.SlashedJoins` | bin/_check.py:1363-1378 | a dotted module's path has one slash between any two parts, and none elsewhere that a part does not bring |
| `RecordMeaning.NamesExactly` | bin/_check.py:1360-1378 | the files one import statement leads the selector to, name by name: below `tests` for an absolute form, below the file's package for one dot, none for more |
| `AffectedTests.ReverseImports` | bin/_check.py:1350-1378 | the reverse map holds exactly what the followed statement forms of the test tree name |
| `AffectedTests.ClosureMeaning` | bin/_check.py:1346-1387 | the importer closure contains the initial files, is closed under who imports whom, and is inside every other set that is both |
| `AffectedTests.ExpandTestImporters` | bin/_check.py:1346-1387 | the worklist ends with the least set that contains the changed test modules and is closed under reverse imports |
| `TestImports.FollowedExactly` | bin/_check.py:1360-1378 | of the test modules an import statement runs, the selector follows exactly: every plain import, an absolute from-import's module and names, a one-dot import's module or, without a module, its names |
| `TestImports.FollowedFormsBridge` | bin/_check.py:1346-1387 | in a tree whose imports of test modules are all of those forms, the selector sees the way from every file to every test module it really runs, or sees that module shared |
| `AffectedPlan.PlanSelection` | bin/_check.py:1390-1443 | the loop over touched paths, the closure and the failed tests compute the plan that `PlanMeaning` gives by the record, the worktree and the earlier failures |
| `PlanMeaning.ClosureIsReaching` | bin/_check.py:1346-1387 | the worklist ends with exactly the files from which the followed imports lead to one of the files it started from |
| `PlanMeaning.TouchedExactly` | bin/_check.py:1394-1399 | a path is planned for if and only if git reports it, or it was recorded and is not inventoried with the recorded digest, or it is inventoried and was not recorded |
| `PlanMeaning.FullRunExactly` | bin/_check.py:1405-1434 | the whole suite is run if and only if a touched path is configuration, a conftest file, not Python, neither test module nor source, or source whose skeleton is in doubt, or a shared file of the test tree imports a touched test module |
| `PlanMeaning.PlannedExactly` | bin/_check.py:1405-1442 | a narrow plan's files are exactly the existing ones from which imports lead to a touched test module; its tests, all of existing files, are exactly those that opened a touched file or executed a touched source file, the opaque ones when source was touched, and the earlier failures that are recorded or in a planned file |
| `AffectedPlan.DifferingIsTouched` | bin/_check.py:1099-1399 | every unignored path that differs from the recorded run, and every inventoried Python file, has drifted and is planned for |
| `AffectedPlan.NarrowSource` | bin/_check.py:1446-1466 | in a narrow plan a differing source file kept the recorded import-time skeleton |
| `AffectedPlan.UnselectedAgrees` | bin/_check.py:1390-1466 | an unselected test whose file is bridged agrees with the recorded run in skeletons, executed and opened files, every test-tree file that running its own file runs, and all source if opaque |
| `AffectedPlan.SelectionIsSafe` | bin/_check.py:1390-1466 | so, if its outcome depends only on those, it keeps its recorded outcome |
| `AffectedPlan.MissedImportIsUnsafe` | bin/_check.py:1350-1387 | for every recorded test and test module that the followed imports do not bridge, a record that loads and an edit over which the plan is narrow and leaves the test out although that module changed |
| `AffectedPlan.SoundExactlyWhenBridged` | bin/_check.py:1318-1443 | every narrow plan over a recorded tree finds a left-out test's test-tree files unchanged if and only if the test's file is bridged, or the tree has no source file and no record of it loads |
| `ImportExample.OneDotNameIsMissed` | bin/_check.py:1367-1371 | the counterexample `from .benchmarks import test_kdf_timing`, with the narrow plan that loses its test |
| `ImportExample.TwoDotsAreMissed` | bin/_check.py:1361-1378 | the counterexample of a two-dot import, with the narrow plan that loses its test |
| `AffectedPlan.PlannedFilesAreTests` | bin/_check.py:1426-1442 | a narrow plan's files are the importer closure restricted to existing files, all of them test modules |
| `RunLog.EmptyDetailsFit` | src/mind_meld/attemptlog.py:496-504 | two valid records without details always fit the ceiling |
| `RunLog.TrimMeaning` | src/mind_meld/attemptlog.py:495-504 | trimming terminates at or below 16,384 bytes and changes only trailing details, which it counts up to the cap |
| `RunLog.Log.TrimInPlace` | src/mind_meld/attemptlog.py:495-504 | the loop always succeeds on valid records, so the oversize error is unreachable, and computes the specified trim |
| `RunLog.Log.WriteRun` | src/mind_meld/attemptlog.py:470-506 | rejected, contended, kept, failed and done writes each leave the file exactly as specified: a failing truncation leaves the log, a later failure loses it, and none is refused for its size |
| `RunText.SizeIsLength` | src/mind_meld/attemptlog.py:496 | the size the loop measures is the length of the log's JSON text: sorted keys, ASCII escapes, two-byte separators |
| `RunText.EscapedIsAscii` | src/mind_meld/attemptlog.py:496 | every escaped string is ASCII, as many bytes as characters |
| `RunText.KeptTextFits` | src/mind_meld/attemptlog.py:495-504 | the text of the log a write leaves is at most 16,384 bytes |
| `RunText.TakesFromLongest` | src/mind_meld/attemptlog.py:497-500 | the record that loses a detail is the one with the longest text of details, of two equally long ones the one that was in the log first |
| `RunText.WritesExactly` | src/mind_meld/attemptlog.py:470-506 | one write in every case: rejected, contended, kept when the verb has this very record, failed as the file system fails, else done with the record, or the later one marked unknown, and every other record still there but for counted details |
| `RunText.AcceptsExactly` | src/mind_meld/attemptlog.py:304-349 | the records a write accepts, rule by rule, and the instant it compares |
| `RunLog.WriteMeaning` | src/mind_meld/attemptlog.py:470-506 | one write keeps the later completion, marks or replaces it as the order requires, and leaves every other record all but dropped details |
| `RunLog.DetailsAreConserved` | src/mind_meld/attemptlog.py:501-504 | below the cap kept details plus omitted ones stay constant |
| `RunLog.WriteMovesRegister` | src/mind_meld/attemptlog.py:484-494 | one write moves its verb to the later completion, sets the order flag exactly for a differing record that is not newer, and leaves the other verb's |
| `RunLog.RegisterIsMaximum` | src/mind_meld/attemptlog.py:470-506 | for any writes in any order the log holds per verb the maximum completion seen |
| `RunLog.OrderDoesNotMatter` | src/mind_meld/attemptlog.py:470-506 | the order in which writers get the lock does not change the kept completions |
| `RunLog.UnknownSticks` | src/mind_meld/attemptlog.py:485-494 | once set, the order flag stays until a strictly newer record of the verb |

## Left out

- Console output, prompts, progress, dry runs, breadcrumbs and the wording of refusals.
- Source resolution, retained default sources and the prior-host inclusion (src/mind_meld/cli.py:363-421): a push starts from its resolved `Config`.
- The activity tail, host-usage capture and retro catch-up: their effect on the internal sources is whatever the rescan observes; a pending catch-up is a flag.
- The walker itself and confinement of a read to its base (src/mind_meld/manifest.py:1255-1445): a scan and each read are observations. What a source's walk can name, and where it can meet a checkout, are parameters of its configuration.
- Collection of peer tombstones: what it returns is an input of the recovery.
- Encryption, key derivation and keyring; a blob is its plaintext under its digest.
- Cleanup of conflict copies after an accepted push, pull, apply, `mm resolve` and the LCS merge.
- Iteration order: where the program walks a dictionary or a sorted list and the result does not depend on the order, the methods pick elements arbitrarily.
- What Python does to resolve a module beyond the files of the test tree: `sys.path` is the repository root, and a name taken from a package is its submodule when there is a file for it.
- `PushRun.Device.Push`: a crash is modelled between two blob puts, not inside a put.
- `Spool`: the reader that consumes a renamed file, and `flock_append_jsonl`, whose file is never renamed.
- `Spool.RenamedIsFrozen`: rotation targets are unused names, as its callers make them; a rename onto an existing file is not a step.
- `LockFile`: the PID hint's text and forked descriptors.
- `DurableJson`: the in-place `locked_json_rmw` and its contention modes; `RunLog.Log.WriteRun` models one use of it.
- `AffectedTests`: environment and configuration fingerprints and the cache directory checks, each of which only falls back to a full run; git itself, whose reports are an observation; unreadable files.
- `AffectedPlan.UnselectedAgrees`: a test that depends on a module absent from the recorded tree and added later, as a guarded import in a form the selector does not follow may, is outside its hypotheses.
- `AffectedPlan.SelectionIsSafe`: that skeletons capture import-time behaviour is a hypothesis, as is that no ignored file outside the inventory changes under a test that reads it.
- `RunLog`: the selection of retainable detail phrases and the shape checks of JSON types; errno names are taken to be at most 64 characters.
