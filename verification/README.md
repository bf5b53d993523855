# Release evidence, modelled and proved

This project models the decisions of a release-evidence harness in Dafny and proves what they promise. One module
models one concern:

- `PaxMetadata`, `TarScan`, `OciAdmission` and `OciWalk`: admission of a candidate image archive, from the bytes of a
  tar header ("ustar Interchange Format" and "pax Extended Header", IEEE Std 1003.1) up to the contents of an OCI image
  layout ("oci-layout file" and "index.json file", OCI Image Layout Specification; `rootfs.diff_ids`, OCI Image
  Configuration), and the walk through it written out as one relation.
- `CandidateStore` and `CandidateExport`: loading, binding and cleaning up a candidate in a Docker tag store that may
  fail at every step, and reading its configuration back from an exported archive.
- `CandidateSbom`: the candidate's CycloneDX inventory.
- `SuiteCompose` and `Lanes`: the launcher of three Compose projects and the four lanes that drive it, over every
  pattern of exit codes, partial effects, and exceptions inside and past their handlers.
- `VariantSelection`, `PlanCoverage` and `PlanOrder`: binding an exported conformance plan to the live one, in whatever
  order either comes, and rechecking the record later. `FailureDiagnostics`: the public view of a failure in the same
  file.
- `ReviewPaths`, `ReviewDelivery` and `ReviewOpening`: member names, packing private review inputs, and opening them
  again. `ReviewNames` and `ReviewCount`: what the check of names refuses, and that nothing counts the members.
- `ReleaseLineage` and `ReleaseAbsent`: whether a tag lies on protected main, and whether a release is absent.
- `ComposeSources` and `RunnerHosts`: the `extends` closure with its placeholder environment, and the hosts file.
- `Bytes` and `Text`: byte strings, outcomes, Python's string order, and the parts of a path.

An exception is an outcome value. SHA-256, JSON, gzip, the tar library's own listing and its number fields, and age are
function parameters with the laws a proof needs written out as predicates (`Injective`, `HexHash`, `Faithful`,
`Thrifty`, `Names`). An external command is a nondeterministic step on a small world: any exit code, any partial effect
its contract allows. What the world does is followed in ghost state that the contracts speak of: `SuiteCompose.Read`
tells what a log of it shows, `CandidateStore.Follow` how far a run has come in which every answer is the needed one.
Loops that update variables are methods proved against specification functions, and what the code promises is proved
about those functions.

Where the code does less than one might expect, the model follows the code:

- The launcher unwinds after an exit code that is not zero and after the exceptions its handlers name. After any other
  one it leaves what is up: an `up` that cannot be spawned, a wait for EUDI that raises no `ValueError` (a CA file that
  is no PEM raises an `OSError`), diagnostics that raise. `SuiteCompose.Stranded` is the exact condition, read from the
  log of what the world did; `Lanes.UnhandledWaitStrands` exhibits a run of the launcher's whole script.
- In the lanes the same holds of what stands between the suite and its `down`: log capture, diagnostics, and the last
  attestation of a local issuer, whose handler names some exceptions only. `Lanes.Left` is the exact condition, again
  read from the log.
- `docker image tag` may fail after taking effect. Its flag is set only after the command returns, so this one binding
  is not undone; `CandidateStore` states it as the exact condition `late`, and `LateTagStays` exhibits a run.
- Evidence at the top of its directory can never be delivered, because its receipt's name is not safe
  (`ReviewPaths.ReceiptExact`; the exact condition of the whole check is `ReviewNames.ContentsSheltered`). A delivery of
  more than 1025 members with its manifest can be made, as long as it fits into 64 MiB, but not opened
  (`ReviewCount.TooManyDelivered`).
- A single `.` passes for a safe path, and booleans pass for integers in `FailureDiagnostics`, as they do in Python.

## Model

| member | source | states |
|---|---|---|
| PaxMetadata.Validate | scripts/credentials_verifier_artifact.py:799-822 | The validator returns normally on exactly the payloads that are admissible records, each counting its own length, followed by nothing or by zero bytes only |
| PaxMetadata.ReadLength | scripts/credentials_verifier_artifact.py:804-808 | The length field ends at the first space after at least one digit and nothing but digits; Python's limit of 4300 digits for `int` is part of the grammar |
| PaxMetadata.CheckRecord | scripts/credentials_verifier_artifact.py:812-821 | A record is accepted iff it ends in a newline and splits at its first `=` into a non-empty key that is neither `size` nor `GNU.sparse.*`, and a value |
| PaxMetadata.ReadRecord | scripts/credentials_verifier_artifact.py:804-822 | One pass succeeds iff an admissible record stands at the position, and moves exactly past it |
| PaxMetadata.ParseExact | scripts/credentials_verifier_artifact.py:799-822 | Reading computes the grammar: a payload has at most one list of records, and it is found iff there is one |
| PaxMetadata.AcceptsIsParse | scripts/credentials_verifier_artifact.py:799-822 | A payload is in the grammar iff the reader gets through it |
| PaxMetadata.FirstComplete | scripts/credentials_verifier_artifact.py:804-822 | An admissible record in front of anything is read back as itself |
| PaxMetadata.FirstSound | scripts/credentials_verifier_artifact.py:804-822 | Whatever the reader takes off the front is an admissible record that is really there |
| PaxMetadata.RecordsAdvance | scripts/credentials_verifier_artifact.py:810-810 | Every admissible record is at least five bytes long, so the loop advances by five each time |
| PaxMetadata.LengthAlwaysSolvable | scripts/credentials_verifier_artifact.py:806-809 | The self-counting length equation always has a solution, found in two guesses |
| PaxMetadata.LengthNotUnique | scripts/credentials_verifier_artifact.py:806-809 | It need not have only one: 97 bytes of content fit both 99 and 100 |
| PaxMetadata.PrintThenParse | scripts/credentials_verifier_artifact.py:799-822 | Any list of keys and values printed with solved lengths, in front of any zero padding, reads back whole iff every key is allowed and every length has at most 4300 digits |
| TarScan.ScanTarHeaders | scripts/credentials_verifier_artifact.py:825-895 | The scan returns normally iff the file is as long as declared and the declared prefix is admitted: padded members with every budget held at every prefix, then at least two zero blocks and only zeros |
| TarScan.ScanBlock | scripts/credentials_verifier_artifact.py:842-894 | One turn of the loop either ends with the right verdict or reduces the question to the rest of the stream with the counts charged |
| TarScan.ScanTail | scripts/credentials_verifier_artifact.py:847-859 | The zero tail is judged by its bytes alone, however the reads chunk it and even if the file ends early |
| TarScan.CheckMember | scripts/credentials_verifier_artifact.py:865-894 | A header passes iff its size, type and PAX payload are admissible and the padded member ends inside the stream; the next offset is just past it |
| TarScan.Padded | scripts/credentials_verifier_artifact.py:886-888 | The payload takes the least whole number of 512-byte blocks that holds it: none for an empty one |
| TarScan.CheckPax | scripts/credentials_verifier_artifact.py:890-893 | A PAX payload passes iff all of it can be read and the validator accepts it |
| TarScan.MemberIsFirst | scripts/credentials_verifier_artifact.py:865-894 | The checks made at an offset accept exactly the first member of what is left, and skip exactly its encoding |
| TarScan.AdmitsStep | scripts/credentials_verifier_artifact.py:842-894 | What is left is admitted iff its first member can be charged within the budgets and the rest is admitted |
| TarScan.AdmitsEnd | scripts/credentials_verifier_artifact.py:846-859 | At a zero block the stream is admitted iff another zero block follows and nothing but zeros after that |
| TarScan.AdmitsAligned | scripts/credentials_verifier_artifact.py:833-836 | Only a whole number of 512-byte blocks is ever admitted |
| TarScan.WithinEveryPrefix | scripts/credentials_verifier_artifact.py:860-879 | Keeping the budgets at the end means having kept them at every prefix, because every count only grows |
| TarScan.ReadExact | scripts/credentials_verifier_artifact.py:825-895 | The member list is a function of the stream: it is read back iff it describes the stream |
| TarScan.WriterAdmitted | scripts/credentials_verifier_artifact.py:825-895 | A writer of admissible members with a zero tail of two or more blocks is read back identically, and admitted iff the budgets hold |
| OciAdmission.InspectOciArchive | scripts/credentials_verifier_artifact.py:927-1194 | The archive is accepted iff the declarative admission predicate holds, and the digests reported are the pinned ones |
| OciAdmission.InspectMembers | scripts/credentials_verifier_artifact.py:1039-1188 | Collected members pass iff they are one pinned image: the walk succeeds, every layer is admitted, and nothing unreferenced remains |
| OciAdmission.CollectMembers | scripts/credentials_verifier_artifact.py:1018-1038 | The member loop succeeds iff names are safe, distinct and within both caps and only files and directories occur; it yields exactly those |
| OciAdmission.MembersStep | scripts/credentials_verifier_artifact.py:1023-1038 | One more member keeps the list admissible iff it passes the checks of one pass |
| OciAdmission.NormalizedExact | scripts/credentials_verifier_artifact.py:947-953 | A member is entered without one leading `./`; its name is refused iff it is absolute, has a part `..`, or has no part but empty ones and `.` |
| OciAdmission.Inspection.DescriptorBlob | scripts/credentials_verifier_artifact.py:961-997 | A blob is returned iff it is a member whose size and digest match its descriptor within the limit; it is then marked as needed |
| OciAdmission.Inspection.ReadDescriptor | scripts/credentials_verifier_artifact.py:999-1007 | A metadata blob is read iff it matches its descriptor and is a JSON object |
| OciAdmission.Inspection.FindWalk | scripts/credentials_verifier_artifact.py:1039-1124 | The walk from layout and index over an optional nested index to manifest, configuration and layers succeeds iff every link checks out, and marks just what it read |
| OciWalk.WalkExact | scripts/credentials_verifier_artifact.py:1039-1124 | There is a walk iff layout, index, at most one nested index, manifest and configuration read as documents that name each other and the pin, with the k-th layer of the manifest going with the k-th diff ID of the configuration |
| OciWalk.LayersExact | scripts/credentials_verifier_artifact.py:1089-1124 | The layers are those of the manifest in order, each with the diff ID of the same position, as many of the one as of the other, each of at most 128 MiB and together of at most 512 MiB; and any such manifest and configuration have layers |
| OciWalk.AcceptedLayers | scripts/credentials_verifier_artifact.py:1127-1151 | In an accepted archive the k-th layer of the manifest expands to bytes with the k-th diff ID of the configuration |
| OciAdmission.ExpandLayer | scripts/credentials_verifier_artifact.py:1133-1151 | However the decompressor chunks a layer, it is written whole iff it decodes completely within 256 MiB for the layer and 1 GiB for the image; no write ever passes either limit |
| OciAdmission.Sink.Write | scripts/credentials_verifier_artifact.py:1138-1148 | A write may only be made within both budgets, and the total grows by exactly the chunk |
| OciAdmission.CountLayerMembers | scripts/credentials_verifier_artifact.py:1161-1171 | Members are counted against the layer's cap and the image's, and the total afterwards is exact |
| OciAdmission.Inspection.InspectLayer | scripts/credentials_verifier_artifact.py:1127-1177 | A layer passes iff its blob matches, it expands within the budgets to its own diff ID, its tar headers scan, and its members fit |
| OciAdmission.InspectLayers | scripts/credentials_verifier_artifact.py:1125-1177 | All layers pass iff each is admitted and the running totals stay within the caps; the totals are the sums over the layers |
| OciAdmission.LayersPrefix | scripts/credentials_verifier_artifact.py:1127-1171 | Totals admitted for all layers were admitted for every prefix of them |
| OciAdmission.AcceptedContents | scripts/credentials_verifier_artifact.py:1178-1188 | An accepted archive has as regular members exactly `oci-layout`, `index.json` and the blobs on the walk, each of the size and with the digest its descriptor states, and as directories only ancestors of these |
| OciAdmission.ContentsExact | scripts/credentials_verifier_artifact.py:1178-1188 | A name is a regular member of an accepted archive iff it is one of the two fixed names or a blob of some descriptor on the walk |
| OciAdmission.DirectoriesExact | scripts/credentials_verifier_artifact.py:1182-1188 | Every directory of an accepted archive is a proper ancestor of something reachable |
| OciAdmission.PinDeterminesImage | scripts/credentials_verifier_artifact.py:927-1194 | With a collision-free hash, any two archives accepted for one pin hold the same manifest, configuration, compressed layers and expanded layers, whatever their order, wrapping or chunking |
| OciAdmission.SameExpansion | scripts/credentials_verifier_artifact.py:1151-1151 | Admitted layers with one diff ID expand to the same bytes |
| OciAdmission.SameLayers | scripts/credentials_verifier_artifact.py:1089-1115 | The same manifest and configuration bytes name the same layers with the same diff IDs |
| CandidateStore.LoadCandidateArchive | scripts/credentials_verifier_artifact.py:1645-1704 | Ends with just the verified tag added and bound to the pinned image, or with the store as it was, or with an error of its own cleanup after every reference was attempted; a tag command that fails after taking effect is exactly what it leaves behind. It returns the verified reference iff every answer on the way is the one needed: the staged archive checks out, all three references are free, and load, identity, binding and removal succeed |
| CandidateStore.LateTagStays | scripts/credentials_verifier_artifact.py:1678-1704 | Such a run exists: a load, a tag command that reports failure after binding, and a cleanup of the archive's tag alone leave the verified tag in a store that was empty |
| CandidateStore.RunCandidate | scripts/credentials_verifier_artifact.py:4564-4594 | The whole command succeeds iff validation, load, the end of staging, the evidence run and the removal of both references do. It leaves the tags as it found them unless a cleanup error is raised (or that late tag happened), and never touches other tags; before a cleanup error the archive's reference, and any verified one still bound, was attempted |
| CandidateStore.RunEvidence | scripts/credentials_verifier_artifact.py:4582-4594 | Both references are removed however the evidence run ends, and it succeeds iff the evidence run and both removals do |
| CandidateStore.ReferencesFree | scripts/credentials_verifier_artifact.py:1650-1660 | The load goes on iff neither reference is bound and the pinned manifest selects nothing, and changes no tag until then |
| CandidateStore.LoadIdentified | scripts/credentials_verifier_artifact.py:1664-1677 | The archive is loaded and identified iff load, selection, export and inspection give the pinned image; at most its own tag is bound |
| CandidateStore.LoadAndBind | scripts/credentials_verifier_artifact.py:1663-1696 | Between load and return only the two scoped tags change; success means the verified tag alone is new and pinned |
| CandidateStore.ConfirmBinding | scripts/credentials_verifier_artifact.py:1683-1696 | The bound tag is inspected again before the archive tag goes, and nothing else is removed |
| CandidateStore.RemoveCandidateImages | scripts/credentials_verifier_artifact.py:1634-1642 | Every reference is attempted whatever happened to the ones before; success means all are gone and nothing else has changed |
| CandidateStore.RemoveCandidateImage | scripts/credentials_verifier_artifact.py:1619-1631 | It succeeds iff the removal could be made and the reference was then seen to be gone |
| CandidateStore.AssertLoadedInspection | scripts/credentials_verifier_artifact.py:1378-1396 | An inspection passes iff manifest and configuration are bound to the pin and platform and runtime configuration conform |
| CandidateStore.ExportedConfigDigest | scripts/credentials_verifier_artifact.py:1399-1474 | Succeeds iff the identifier is the pinned configuration, or is the pinned manifest and the saved archive is a readable export of that manifest with the configuration it names; then the pinned manifest does name the pinned configuration |
| CandidateExport.ReadExport | scripts/credentials_verifier_artifact.py:1411-1474 | An export is read iff size, tar headers, members and both identity members check out: hashed to the pinned digests, and the manifest stating type, digest and size of the configuration |
| CandidateExport.ExportNameExact | scripts/credentials_verifier_artifact.py:1424-1425 | An identity member is looked for where an image layout keeps the blob of its digest |
| CandidateExport.SelectMembers | scripts/credentials_verifier_artifact.py:1427-1453 | The member loop succeeds iff members are within both caps, distinct after dropping `./`, files or directories only, and the wanted ones within 16 MiB; it returns exactly the wanted ones |
| CandidateExport.ExportDetermines | scripts/credentials_verifier_artifact.py:1455-1474 | With a collision-free hash, no two exports of one manifest digest pass with different configuration digests |
| CandidateStore.Docker.InspectOptional | scripts/credentials_verifier_artifact.py:1595-1616 | When inspection answers, it answers truthfully whether the reference exists |
| CandidateStore.Docker.Load | scripts/credentials_verifier_artifact.py:1665-1669 | A load, even a failing one, binds at most the archive's own tag |
| CandidateStore.Docker.Tag | scripts/credentials_verifier_artifact.py:1678-1681 | A tag command, even a failing one, changes at most its target |
| CandidateStore.Docker.Remove | scripts/credentials_verifier_artifact.py:1619-1629 | A removal, whatever its exit code, removes at most its reference |
| CandidateSbom.ValidateSbom | scripts/credentials_verifier_artifact.py:2110-2219 | The candidate branch returns normally iff the declarative predicate holds of components, metadata, dependencies and labels together |
| CandidateSbom.CheckComponents | scripts/credentials_verifier_artifact.py:2119-2133 | The component loop succeeds iff every component is well formed and all references are distinct, and collects exactly those references |
| CandidateSbom.CheckDependencies | scripts/credentials_verifier_artifact.py:2165-2190 | The dependency loop succeeds iff each entry's source is known and used once, its edges are closed and distinct and within the per-entry cap, and all edges together within the total cap |
| CandidateSbom.CheckEdges | scripts/credentials_verifier_artifact.py:2175-2184 | Comparing the size of a list with the size of its set accepts exactly the lists without repetition; every edge leads to a known reference |
| CandidateSbom.CollectProperties | scripts/credentials_verifier_artifact.py:2200-2210 | The property loop succeeds iff every property is well formed and names are unique, and its dictionary says what the list says |
| CandidateSbom.CheckProperties | scripts/credentials_verifier_artifact.py:2195-2219 | The labels pass iff names are unique and the three pinned labels are among them |
| CandidateSbom.CheckMetadata | scripts/credentials_verifier_artifact.py:2134-2157 | The metadata passes iff Syft is among the tools, the root is the pinned image without contradictory identity, and the labels pass |
| CandidateSbom.DependencyGraph | scripts/credentials_verifier_artifact.py:2167-2190 | Accepted dependencies are a graph over the known references with exactly as many edges as are listed, so the cap bounds the graph |
| CandidateSbom.LabelLookup | scripts/credentials_verifier_artifact.py:2216-2219 | Looking a label up in the dictionary finds a value iff the list holds that very property |
| SuiteCompose.Execute | scripts/official_suite_compose.py:695-813 | A start follows its script of commands and work some way or to the end, and if it fails does exactly what is then due: diagnostics, and a `down` for everything started, last first, unless it retains or an exception was not caught. Its outcome is the first exception or else the code of its last `up`. OIDF and EUDI come up only on a ready Marty, and the EUDI refusal never blocks an unwind. As long as every `down` can be spawned, a start that exits with a code leaves nothing, and one that raises leaves something iff work raised what its handler does not name, or an `up` could not be spawned, after an `up` that left something of Marty |
| SuiteCompose.ExecuteUp | scripts/official_suite_compose.py:741-813 | The same for the start path alone, from the checks of images and certificates to the last wait |
| SuiteCompose.RetainTakesNothingDown | scripts/official_suite_compose.py:741-813 | A retaining start gives no `down` to any project, however it ends |
| SuiteCompose.CheckFirst | scripts/official_suite_compose.py:741-753 | Images and an external certificate are checked before anything is started; a failed check ends the launch with 1 or its exception, and nothing to undo |
| SuiteCompose.StartCertifiedMarty | scripts/official_suite_compose.py:754-792 | The two-phase certified start ends with Marty ready after exactly start, lookups, certificate and second start; it is unwound after a code, an `OSError` or a `ValueError`, and after no other exception |
| SuiteCompose.StageCertificate | scripts/official_suite_compose.py:580-605 | Staging succeeds only with material and an answer that was read as an identity, and is refused without material; its first exception is the one reported, and it counts as caught iff its handler names it |
| SuiteCompose.Lookup | scripts/official_suite_compose.py:551-577 | The identity is asked for once or more, until it can be read, asking fails or time is up; it is found iff an answer was read, and nothing else is done |
| SuiteCompose.StartRemaining | scripts/official_suite_compose.py:794-813 | The start loop ends with every selected project up on a ready Marty after exactly its moves, or part of the way with exactly the diagnostics and the unwind that are due |
| SuiteCompose.Unwind | scripts/official_suite_compose.py:762-770 | Unwinding takes down all that was started, and a retaining launch issues nothing at all |
| SuiteCompose.StopStarted | scripts/official_suite_compose.py:672-692 | Exactly the started projects get a `down`, last first, each attempted though others cannot be started, with Marty last and EUDI never refused |
| SuiteCompose.ExecuteOther | scripts/official_suite_compose.py:733-739 | Every command but `up` is run on every component backwards, exactly once, and the first non-zero code is returned |
| SuiteCompose.RunEach | scripts/official_suite_compose.py:734-739 | The loop reports the first failure and what it leaves equals the sweep over its order |
| SuiteCompose.TearDownReversed | scripts/official_suite_compose.py:667-669 | Backwards, a teardown reaches everything unless Marty's bridge was gone from the start |
| SuiteCompose.TearDownForwardStrands | scripts/eudi_reference_compose.py:77-79 | Forwards, taking Marty down first always strands EUDI: its helper refuses even `down` without the bridge |
| SuiteCompose.Docker.Run | scripts/official_suite_compose.py:379-383 | Any exit code with any partial effect its action allows; a process that cannot be started raises `OSError` or `ValueError` and changes nothing |
| SuiteCompose.StartNext | scripts/official_suite_compose.py:794-812 | One pass brings its project up, and waits for EUDI, or fails with exactly the diagnostics and the unwind that are due for it |
| SuiteCompose.AwaitEudi | scripts/official_suite_compose.py:806-812 | Waiting for EUDI succeeds, or raises what it met: a `ValueError` after the full unwind (unless retained), anything else without a single `down` |
| SuiteCompose.AbandonStart | scripts/official_suite_compose.py:798-805 | A failed `up` is diagnosed, unless it is OIDF's, and then unwound unless retained, returning its code; if diagnosing raises, that is reported and nothing is taken down |
| Lanes.RunLane | scripts/official_interoperability_lane.py:2055-2069 | For all lanes and every pattern of exit codes and exceptions: the suite runs unless something raised, an `up` or a check before it exited with a code, or the environment is not fit; and it begins with all of the lane's projects up, after exactly the start script, the fixtures and any renewal of the certificate, none of which failed. As long as every `down` can be spawned, what the lane started is down at its end iff its launcher did not strand it and no work between suite and `down` raised past its handler. If nothing raised, logs were captured, a failed suite was diagnosed, and the outcome is the suite's own; an exit code is never anything but that, or 1 if the suite never ran. A launch, suite or work of the lane's own that raises makes it raise, and only what was raised is raised, or an error about a failed command; every lane but EUDI's looks at its checkout in the end |
| Lanes.UnhandledWaitStrands | scripts/official_suite_compose.py:794-813 | Such a run exists: the EUDI launch follows its whole script, every process exits with 0, the wait raises an `OSError`, that is its outcome, and both projects stay up |
| Lanes.RunOidf | scripts/official_interoperability_lane.py:1466-1694 | The lane that retains a failed start takes it down itself; something is left iff log capture or diagnostics after the suite raised |
| Lanes.RunOid4vciIssuer | scripts/official_interoperability_lane.py:1722-1837 | A failed start of a local binding ends in its own teardown, any other is left to the launcher; something is left iff the launcher stranded it, or the last attestation of a local binding, or log capture or diagnostics of any other, raised past their handlers |
| Lanes.FinishLocalIssuer | scripts/official_interoperability_lane.py:1795-1837 | A local binding is torn down after any suite, whatever log capture and diagnostics do, iff its last attestation raises nothing but what its handler names; it reports its suite iff nothing raised and every `down` exited with 0 |
| Lanes.FinishSuite | scripts/official_interoperability_lane.py:1829-1837 | Log capture, diagnostics after a failure, and teardown, in that order; the teardown takes place iff the first two do not raise |
| Lanes.CaptureLogs | scripts/official_interoperability_lane.py:1623-1634 | Logs are captured, and diagnosed iff asked for; an exception is reported iff one of the two raised or the launcher could not be started |
| Lanes.AbandonOid4vciIssuer | scripts/official_interoperability_lane.py:1728-1740 | After a failed start a local binding is torn down whatever the diagnostics do, and nothing else is touched |
| Lanes.RunEudi | scripts/official_interoperability_lane.py:1914-1994 | Teardown meets Marty's bridge and is never refused; something is left iff the launcher's start stranded it, or log capture or diagnostics raised after the suite |
| Lanes.RunW3c | scripts/official_interoperability_lane.py:1840-1911 | The stack script is taken down whatever the start and the suite did, unless the diagnostics of a failure raise |
| Lanes.DownLocalNativeIssuer | scripts/official_interoperability_lane.py:1717-1719 | It raises nothing iff every project was given its `down` and all of them exited with 0, and a teardown that could be spawned leaves nothing |
| Lanes.Launch | scripts/official_interoperability_lane.py:1146-1180 | A lane sees only the launcher's exit code: that of its script, or 2 or 1 for an exception by its kind; what the launcher guarantees carries over to the projects the lane's own flags select |
| Lanes.RefreshCertificate | scripts/official_interoperability_lane.py:1289-1337 | The certificate refresh starts only Marty again and takes nothing down |
| Lanes.Body | scripts/official_interoperability_lane.py:1500-1512 | The suite runs unless the fixtures or the renewal raise or its `up` fails, and never if one of them does, after exactly those moves and with the projects as the start left them; they are left like that for the teardown, and the result is the suite's own |
| VariantSelection.ParseExact | scripts/oidf_conformance.py:534-539 | Find all groups, reprint and compare accepts exactly a bracket-free name followed by well-formed groups with distinct keys, and returns that name and dictionary |
| VariantSelection.LabelRoundTrip | scripts/oidf_conformance.py:534-539 | The parser undoes the sorted label printer for every bracket-free name and every variant of admissible characters |
| VariantSelection.MapSize | scripts/oidf_conformance.py:537-537 | Comparing the sizes of dictionary and list rejects exactly the repeated keys |
| VariantSelection.FindAllGroups | scripts/oidf_conformance.py:536-536 | The greedy search splits printed groups back into themselves |
| VariantSelection.SortedPairsMap | scripts/oidf_conformance.py:583-585 | The sorted pairs of a variant carry it whole and without repetition |
| VariantSelection.SortedPairsIncrease | scripts/oidf_conformance.py:583-585 | The keys of a label increase strictly, by the first character at which two of them differ or a prefix before what is longer |
| PlanCoverage.ComparePlanCoverage | scripts/oidf_conformance.py:542-613 | Succeeds iff plan, modules and export bind to each other; the record is then the one the plan determines, sorted and with its missing modules |
| PlanCoverage.BindModules | scripts/oidf_conformance.py:555-586 | The module loop succeeds iff every module is well formed with one instance and all names differ; a variant is the plan's overridden by the module's own |
| PlanCoverage.BindExport | scripts/oidf_conformance.py:589-602 | The export loop succeeds iff every exported instance is the expected one of its plan, none twice |
| PlanCoverage.SelectPlan | scripts/oidf_conformance.py:544-554 | The plan passes iff it is the selected one with a well-formed identity and at least one module |
| PlanCoverage.IdentityCount | scripts/oidf_conformance.py:587-588 | Comparing sizes rejects exactly the plans that reuse an instance identity |
| PlanCoverage.SortRowsSorted | scripts/oidf_conformance.py:611-611 | Sorting rows with distinct names gives them in strictly increasing order |
| PlanCoverage.RowsUnique | scripts/oidf_conformance.py:611-611 | There is only one sorted list of a set of rows |
| PlanCoverage.RecordUnique | scripts/oidf_conformance.py:606-613 | A covered plan and an export have exactly one record |
| PlanOrder.RecordIncreases | scripts/oidf_conformance.py:603-611 | Expected, missing and recorded module names all increase strictly in that order |
| Text.LessExact | scripts/oidf_conformance.py:584-611 | One string comes before another iff, where they first differ, it ends or has the smaller character |
| PlanOrder.RecordForgetsOrder | scripts/oidf_conformance.py:555-613 | For every reordering of the plan's modules and of the export, coverage is the same and so is the record |
| PlanOrder.ExpectedAlike | scripts/oidf_conformance.py:576-586 | The expected map does not depend on the order of distinct modules |
| PlanOrder.ExportAlike | scripts/oidf_conformance.py:589-605 | Whether the export is bound, and which names it has, do not depend on its order |
| PlanCoverage.RecordedPlanCoverage | scripts/oidf_conformance.py:616-644 | The recheck succeeds with a record iff the plan rebuilt from the stored rows covers the export and gives that same record again |
| PlanCoverage.RebuildModules | scripts/oidf_conformance.py:631-639 | Rows are rebuilt iff every label parses and names its own module |
| PlanCoverage.PlanIdIsUnique | scripts/oidf_conformance.py:624-626 | The set of plan identities has one element iff the export is not empty and all agree |
| PlanCoverage.RebuildRow | scripts/oidf_conformance.py:632-639 | Storing a checked module as a row and rebuilding it gives the module back, through its printed label |
| PlanCoverage.RecordRoundTrip | scripts/oidf_conformance.py:542-644 | Whenever comparison succeeds on a non-empty export, rechecking that record against the same export and selection succeeds and reproduces it exactly, whatever the original module order |
| ReviewDelivery.Packing.Add | scripts/official_review_delivery.py:91-99 | An addition is made iff its name is safe, its digest as bound, no different member has its name, and the total stays within 64 MiB; no member is ever replaced |
| ReviewDelivery.Packing.AddAll | scripts/official_review_delivery.py:91-99 | A list of additions is made iff each one fits after those before it |
| ReviewDelivery.Packing.AddRequest | scripts/official_review_delivery.py:103-131 | One request packs iff its evidence, receipt, exports, re-export and pictures are all there, bound and fit in turn |
| ReviewDelivery.Packing.AddRequests | scripts/official_review_delivery.py:103-131 | All requests pack iff each does after those before it |
| ReviewDelivery.UniqueExport | scripts/official_review_delivery.py:122-125 | A re-export is used iff exactly one has the bound digest |
| ReviewDelivery.HashNames | scripts/official_review_delivery.py:122-131 | Exports and pictures are packed under the hexadecimal digits of their digest |
| ReviewDelivery.PutAllExact | scripts/official_review_delivery.py:91-99 | After any packing that succeeds every addition is there with its bytes and digest, nothing earlier has changed, nothing else has come in, and the total is within the limit |
| ReviewDelivery.ContentsPacked | scripts/official_review_delivery.py:89-131 | Packed members hold the exact summary, only safe names that a tar stores unchanged, never the manifest's own name, and stay within the limit |
| ReviewDelivery.ContentsBound | scripts/official_review_delivery.py:126-131 | Every module row has its picture among the members, under its digest and with a PNG signature |
| ReviewDelivery.RequestPlaced | scripts/official_review_delivery.py:103-131 | Everything a request binds is packed under its own name with the bytes read for it |
| ReviewDelivery.ContentsOnly | scripts/official_review_delivery.py:101-131 | Nothing is packed but the summary and what some request names |
| ReviewPaths.ReceiptExact | scripts/official_review_delivery.py:115-118 | Beside safely named evidence the receipt's name is safe iff the evidence lies in a directory: at the top, `raw/./` makes it unsafe |
| ReviewPaths.BesideExact | scripts/official_review_delivery.py:115-121 | The same of any file of the evidence's directory, iff besides its own name is plain |
| ReviewPaths.SafePathExact | scripts/official_review_delivery.py:38-44 | A name is safe iff it is `.`, or has no back slash and no colon and slashes only between parts that are neither empty nor `.` nor `..` |
| ReviewNames.ContentsSheltered | scripts/official_review_delivery.py:91-131 | The check of names refuses exactly the requests with evidence at the top of its directory or an export without a plain name beside it; all others pack precisely as they would without that check |
| ReviewNames.ShelteredPacks | scripts/official_review_delivery.py:91-131 | Sheltered requests that pass every other check are packed |
| ReviewCount.AnyNumberPacks | scripts/official_review_delivery.py:91-131 | Packing has no limit on members: for every number there is a one-module request that packs with at least as many |
| ReviewCount.TooManyDelivered | scripts/official_review_delivery.py:80-201 | With a tar library that adds a bounded amount per member and an age that seals what is not too large, at least 1025 members besides the manifest are packed and sealed like any others, and that delivery does not open |
| ReviewDelivery.Encrypt | scripts/official_review_delivery.py:80-183 | A delivery is made iff the origin is admitted, there is something to review, the destination is free, everything packs and the archive seals; receipt and ciphertext are those of the packed members |
| ReviewDelivery.SealMembers | scripts/official_review_delivery.py:132-183 | Sealing succeeds iff archive and ciphertext are within their limits and the ciphertext is native age; the receipt then binds it |
| ReviewOpening.Unpack | scripts/official_review_delivery.py:186-201 | Unpacking succeeds iff all members are regular, safe, distinct, at most 1025 and of their declared sizes, with the running total within the limit; it returns exactly them |
| ReviewOpening.AdmissibleStep | scripts/official_review_delivery.py:191-200 | One more member is admitted iff it passes the checks of one pass |
| ReviewOpening.OpenReview | scripts/official_review_delivery.py:204-274 | Opening succeeds iff receipt, ciphertext, manifest, members, summary and every picture bind to each other and there is at least one; it shows exactly the bound pictures |
| ReviewOpening.ShowRequests | scripts/official_review_delivery.py:250-268 | The nested loops succeed iff every module's picture is bound, and count one card for each |
| ReviewOpening.ShowModule | scripts/official_review_delivery.py:252-259 | The path and digest checks on opening accept exactly what the checks on packing admit |
| ReviewOpening.ImagesExact | scripts/official_review_delivery.py:250-260 | What is shown is named by some module, and every module's picture is shown |
| ReviewOpening.ItemsOfSorted | scripts/official_review_delivery.py:146-149 | Listing the members that a sorted list fills in gives the list back |
| ReviewOpening.UnsealedDelivery | scripts/official_review_delivery.py:132-201 | Over any tar library that keeps sorted lists of storable names, a delivery unseals and unpacks to exactly its members and manifest, unless they are more than 1025 |
| ReviewOpening.DeliveryRoundTrip | scripts/official_review_delivery.py:80-274 | Opening a delivery with the same summary succeeds iff it has at most 1025 members with its manifest and at least one module, and recovers exactly the packed members |
| ReviewOpening.SummaryDeterminesImages | scripts/official_review_delivery.py:226-260 | With a collision-free hash, any two deliveries that open for one summary show the same pictures |
| ReleaseLineage.AncestorExact | scripts/check_release_lineage.py:138-171 | Over any acyclic history with honestly reported counts and any best common ancestor, the decision is exactly whether the tagged commit is in the history of main |
| ReleaseLineage.LineageExact | scripts/check_release_lineage.py:174-200 | A release passes iff its tag names the expected commit, main is protected, and main's history holds that commit; the captured main is returned |
| ReleaseLineage.TagExact | scripts/check_release_lineage.py:76-115 | The tag resolves iff it names the expected commit directly or through one annotated tag object of the same name |
| ReleaseLineage.AnnotatedExact | scripts/check_release_lineage.py:97-108 | An annotated tag resolves iff it is the requested one and points straight at the commit |
| ReleaseLineage.MainExact | scripts/check_release_lineage.py:118-135 | Main is captured iff it is protected |
| ReleaseLineage.DecisionIs | scripts/check_release_lineage.py:152-171 | On well-formed counts the decision is that the merge base is the tagged commit and nothing is behind |
| ReleaseLineage.AncestorComparison | scripts/check_release_lineage.py:169-170 | For an ancestor the only best common ancestor is the commit itself, and nothing is behind |
| ReleaseLineage.IdenticalIsEqual | scripts/check_release_lineage.py:169-169 | The status `identical` with nothing ahead is exactly the case of equal commits |
| ReleaseLineage.HistoryAntisymmetric | scripts/check_release_lineage.py:138-171 | Two commits in each other's history are one commit |
| FailureDiagnostics.ErrorCategories | scripts/oidf_conformance.py:287-301 | The stack-driven walk ends and returns the union of categories over the whole tree |
| FailureDiagnostics.CategoriesExact | scripts/oidf_conformance.py:287-301 | A category is in that union iff some description at some depth falls under it |
| FailureDiagnostics.PushFields | scripts/oidf_conformance.py:292-298 | One object moves its descriptions into the result and its children onto the stack, losing and repeating nothing |
| FailureDiagnostics.SafeDetails | scripts/oidf_conformance.py:303-321 | The dictionary agrees with the lookup for every key at once |
| FailureDiagnostics.LookupExact | scripts/oidf_conformance.py:303-321 | A key is held iff some node at some depth carries an admissible value under that allow-listed key, and what is held is such a value |
| FailureDiagnostics.OnlySafeValues | scripts/oidf_conformance.py:307-316 | Only integers, lists of integers and short lower-case tokens ever leave a tree, under four names |
| FailureDiagnostics.LookupStep | scripts/oidf_conformance.py:306-317 | A later own field replaces a nested value, a nested value never replaces anything |
| FailureDiagnostics.FirstItemIs | scripts/oidf_conformance.py:318-321 | In a list the detail comes from the first item that holds it |
| FailureDiagnostics.LastOwn | scripts/oidf_conformance.py:306-316 | Of several own fields with the key the last admissible one stands |
| FailureDiagnostics.FirstFieldIs | scripts/oidf_conformance.py:317-321 | Without an own value the detail comes from the first field that holds it inside |
| ComposeSources.Sources | scripts/official_kms_bootstrap.py:210-219 | The worklist ends, cycles or not, with exactly the files reached from the `--file` arguments through `extends`; it fails iff one cannot be read |
| ComposeSources.ClosedHoldsWalk | scripts/official_kms_bootstrap.py:213-218 | A set with the roots that is closed under `extends` holds everything reached |
| ComposeSources.FrontierVisit | scripts/official_kms_bootstrap.py:214-218 | Visiting a file keeps found and pending together closed, and reached |
| ComposeSources.VisitCloses | scripts/official_kms_bootstrap.py:214-218 | What is found or pending after a visit holds every `extends` target of what is found |
| ComposeSources.FileArgumentsExact | scripts/official_kms_bootstrap.py:211-211 | The roots are exactly the arguments that follow a `--file` |
| ComposeSources.PlaceholderEnvironment | scripts/official_kms_bootstrap.py:222-239 | Every required variable of every reached file is bound, supplied values stay but for the Keycloak digest, defaults fill in the rest, and nothing else is bound |
| ComposeSources.SuppliedExact | scripts/official_kms_bootstrap.py:224-224 | A name is supplied by the material, else by the image references, else by the process; the project name overrides all |
| ComposeSources.AfterAtExact | scripts/official_kms_bootstrap.py:232-232 | The digest of an image reference is what follows its last `@`, and there is one iff it has an `@` |
| ComposeSources.PlaceholderExact | scripts/official_kms_bootstrap.py:228-231 | A required variable whose name ends in `_FILE` gets the placeholder file, every other one a word |
| ComposeSources.FillRequired | scripts/official_kms_bootstrap.py:228-231 | In whatever order the files are walked, exactly the required names are added, each as its placeholder |
| ComposeSources.OfferDefaults | scripts/official_kms_bootstrap.py:233-238 | A default is taken iff nothing has bound its name, the first one winning |
| RunnerHosts.AppendConverges | scripts/official_runner_hosts.py:50-73 | For any existing text without a conflict, appending the pending aliases leaves nothing missing and nothing in conflict |
| RunnerHosts.AppendAddsExactly | scripts/official_runner_hosts.py:23-23 | Appending adds exactly the new associations and keeps every old one, though the text lacks a final newline or ends in a comment |
| RunnerHosts.MissingAliases | scripts/official_runner_hosts.py:50-59 | Fails iff some alias has another address, and otherwise returns the aliases that have none, in order |
| RunnerHosts.MissingExact | scripts/official_runner_hosts.py:53-58 | An alias is pending iff no line gives it an address |
| RunnerHosts.HostsLineRecord | scripts/official_runner_hosts.py:23-23 | The appended line reads back as its address and its aliases |
| RunnerHosts.LabelsAreWords | scripts/official_runner_hosts.py:13-19 | An admissible host name is one word without a comment sign, so writing cannot change its meaning |
| RunnerHosts.HostExact | scripts/official_runner_hosts.py:13-13 | A host name is admissible iff it is dot-separated labels of letters, digits and inner hyphens |
| RunnerHosts.CommentStripped | scripts/official_runner_hosts.py:51-51 | A comment starts at the first `#` of a line |
| RunnerHosts.LinesBreak | scripts/official_runner_hosts.py:51-51 | A line ends at every character that ends one, whatever stands around it |
| RunnerHosts.HostsFile.AppendHostAliases | scripts/official_runner_hosts.py:16-25 | It succeeds iff there are aliases, all of them host names, and the writer reports success, and then has appended exactly the line; a failing or late writer leaves some first part of it, and inadmissible aliases leave the text alone |
| RunnerHosts.BegunKeeps | scripts/official_runner_hosts.py:20-25 | Whatever part of the line was written, every old association stands and every new one has the added address |
| RunnerHosts.RetryConverges | scripts/official_runner_hosts.py:20-25 | After any such failure the next complete install leaves nothing missing and nothing in conflict |
| RunnerHosts.HostsFile.Install | scripts/official_runner_hosts.py:71-73 | It succeeds iff nothing conflicts and either nothing is missing or the writer reports success. Then nothing is missing, the old associations and the pending ones stand, and a second install changes nothing; after a failure the old ones stand and only loopback ones are new; a conflict changes nothing |
| ReleaseAbsent.EnsureReleaseAbsent | scripts/check_release_absent.py:131-148 | Returns normally iff the listing had to be consulted with drafts visible and was exhausted without the tag; reports a draft or a published release iff the service shows one with the tag |
| ReleaseAbsent.LoadRelease | scripts/check_release_absent.py:66-128 | Absence is reported iff the tagged lookup found nothing, drafts were visible and the search was exhausted; a release is returned iff the lookup answers with it or the search comes upon it |
| ReleaseAbsent.SearchListing | scripts/check_release_absent.py:106-121 | The search reports absence iff some page is short and everything up to it is valid and without the tag; it finds a release iff it is the first with the tag on a valid page and everything before it is full, valid and without the tag |
| ReleaseAbsent.SearchPage | scripts/check_release_absent.py:110-118 | A page is passed iff every item is valid and none carries the tag; a release is found iff it carries the tag and all items before it are valid and do not |
| ReleaseAbsent.ExhaustedSawAll | scripts/check_release_absent.py:106-121 | An exhausted search has seen every release, and there are fewer than ten thousand |
| ReleaseAbsent.AbsenceExact | scripts/check_release_absent.py:93-148 | Over any listing served in pages of a hundred, the search is exhausted iff no release carries the tag and there are fewer than ten thousand |
| ReleaseAbsent.FoundExact | scripts/check_release_absent.py:93-148 | Over such a listing, what the search finds is the first release with the tag, if it is among the first ten thousand |

## Left out

- Sockets, `git`, `gh`, `curl`, HTTP, Playwright and the mechanics of Docker and Compose: each is an oracle value or a
  nondeterministic step.
- The verification service that `_run_artifact_test` exercises, and its database: one long script of assertions.
- X.509, JWK, KMS, keytool and the inside of age: library calls without a visible algorithm. File modes, timestamps,
  file identities and Windows branches.
- Field-by-field shape checks: pins, attestations, evidence comparison, stack metadata, the runtime configuration of an
  image (one field of the inspected document), `material_aliases`, `actions_write_context`, and the regular expressions
  that classify logs (`error_category` is a parameter).
- The wording of errors, and which of several failing checks is reported.
- SuiteCompose.Docker.Run: a `down` whose precondition holds is taken to have its effect whatever its exit code, an `up`
  never removes a network, and the bridge goes with Marty; what Compose leaves behind after a failed `down` is not
  modelled.
- SuiteCompose.Execute: what is left after a failure is stated for runs in which every `down` can be spawned; the
  environment is judged once for all commands of a run, a KMS that was started beforehand is not modelled, and nothing
  is said of projects no `up` was issued for.
- SuiteCompose.Lookup: whether an answer can be read as an identity, and when time is up, are left open.
- Lanes.RunLane: log capture is one launcher command and the writing of its log, and all diagnostics of a lane are one
  piece of work that may raise. Nothing is promised when a `down` cannot be spawned. The first look at an official
  checkout, before a lane starts, is left out.
- Lanes.Body: a suite is one step of the world with any code or exception, the fixtures before it are one piece of work,
  and what the fixtures pass to the suite is not modelled.
- CandidateStore.RunCandidate: validation with attestation, the look at the staged archive, the end of staging and the
  evidence run are one step each, with an outcome and without an effect on tags.
- CandidateStore.Docker.InspectSelector: a digest selects some tagged image with that manifest, or nothing; untagged
  images are not part of the store.
- CandidateStore.Docker.Valid: manifests with one digest name one configuration (`Names`), the collision-freeness that
  content addressing rests on. What `docker image save` writes is any archive or none.
- TarScan.ScanTarHeaders: `tarfile.nti` is a parameter, a partial function from a field to an integer.
- OciAdmission.InspectOciArchive: the tar library's listing of members, JSON and gzip decoding are parameters; an
  archive with symbolic links is refused by kind only.
- PaxMetadata.PrintThenParse: a length of more than 4300 digits is outside the grammar, because Python refuses it.
- CandidateSbom.ValidateSbom: white space in names is ASCII only.
- ReviewOpening.UnsealedDelivery: of names outside sorted lists of storable ones nothing is asked of the tar library; it
  drops a trailing slash of a long name and cuts a name at a NUL.
- ReviewCount.TooManyDelivered: the size of the one manifest it needs is a hypothesis (16 MiB), not a law of the JSON
  writer.
- ReviewDelivery.Encrypt: reading files is an oracle; creating the output directory and writing into it do not fail.
- ReviewOpening.OpenReview: schema and state of a receipt are taken as right, and the written viewer page is reduced to
  the images it shows.
- RunnerHosts.HostsFile.Install: text is ASCII; a carriage return and line feed end two lines, of which one is empty.
  Files are written by nobody else meanwhile.
- ComposeSources.Sources: the two regular expressions are parameters of a file, and resolving a path is a function.
- ReleaseLineage.LineageExact: the service answers truthfully about one unchanging repository.
