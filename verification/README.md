# Assurance engine: a Dafny model

The repository is an assurance engine. It rolls test, scanner and manual evidence up into
statuses, edits reviewed configuration, carries test packs from build to build, and issues
hash-committed manifests, claims and proof bundles. This project models seven of its
components and proves what they promise over whole runs.

* **Status resolver** (`status_resolver.dfy`, `status_theorems.dfy`, `status_order.dfy`,
  `status_rows.dfy`, `scanner_selectors.dfy`): evidence to TBT, TBT to FR and TBT to compliance row, with waivers,
  compensating controls and scanner blockers.
* **Configuration updates** (`keyed_list.dfy`, `catalog_updates.dfy`, `instance_updates.dfy`,
  `instance_editor.dfy`, `instance_requirements.dfy`, `instance_evidence.dfy`,
  `native_mapping.dfy`, `update_selection.dfy`, `two_phase_commit.dfy`): lists edited in place through dictionaries that hold the list
  entries themselves, and the commit of several files in two phases.
* **Ignore globs and filters** (`glob.dfy`, `ignore_matcher.dfy`, `ignore_filters.dfy`).
* **Token cipher** (`token_cipher.dfy`, `base64.dfy`, `utf8.dfy`).
* **Test-pack life cycle** (`test_pack.dfy`, `test_pack_lifecycle.dfy`).
* **Commitments and their checkers** (`review_summary.dfy`, `graph_manifest.dfy`,
  `payload_check.dfy`, `assurance_claims.dfy`, `proof_bundles.dfy`, `board_state.dfy`).
* **Counting and gating** (`release_gate.dfy`, `ruleset_projection.dfy`, `ruleset_summary.dfy`).

`wrappers.dfy`, `sequences.dfy`, `grouping.dfy`, `sorting.dfy`, `text.dfy`, `json.dfy` and `hashing.dfy`
hold what they share.

Code that fills dictionaries, sets and lists in loops is modelled as methods with the same
loops; each is proved equal to a function of its inputs, and the theorems are about that
function. Objects that are edited through aliasing dictionaries are classes. Hash functions,
canonical JSON, schema validation and the printing of values are function-typed parameters,
so every theorem holds for all of them; where two hashes must differ, a hypothesis says so.

Where the code and what one would expect of it part, the code is modelled, the exact
condition is proved, and a lemma gives the input:

* An approved control whose `status_effect` is `passed`, `out_of_scope` or unlisted does create
  a pass; controls are safe exactly when their effect ranks below `passed`
  (`StatusTheorems.EffectIsSafeIffBelowPassed`, `HighEffectManufactures`). The instance schema
  (`backend/resources/schemas/assurance-instance.schema.json:106,129`) pins the effect to
  `waived` and `compensating_control`; it is applied whenever `jsonschema` is installed, so such
  an input needs a run without that validator.
* A directory pattern `test/` also ignores `latest/x`: it matches any segment that ends with it
  (`IgnoreMatcher.DirectoryPatternMeaning`, `DirectoryPatternOverreaches`).
* The regular-expression branch of the matcher can be left out, whatever character classes
  hold, exactly for patterns that it does not look at, that have no class, or that have a
  backslash (`IgnoreMatcher.RegexBranchIsIdleIff`, `RegexBranchCanDecide`).
* Merging a previous pack twice may differ from merging it once when a key that the build
  lacks is carried twice; a third merge never changes anything
  (`TestPack.MergingAgainChangesNothingIff`, `MergingAgainCanChange`, `MergingSettlesInTwo`).
* A bundle built from a manifest without the three input hashes does not verify
  (`ProofBundles.BuildThenVerify`, `MissingInputHashesAreReported`).
* A listed scanner blocker behind a signal with the same mapping does not count, and its row
  may stay missing (`RulesetProjection.UnblockedRowKeepsItsStatus`,
  `ShadowedBlockerLeavesTheRowMissing`).
* The four native-test counters partition the tests exactly when no test ends mapped that was
  ever marked (`NativeMapping.CountersPartitionIff`, `MappingAMarkedTestCountsItTwice`).
* `decrypt` is documented to give nothing for any altered token, but the tag does not say
  where the nonce ends: a token with the tag of an issued one is accepted exactly when its
  nonce and cipher together are the issued bytes and the text decodes
  (`TokenCipher.SameTagAcceptedIff`, `BoundaryIsNotTagged`). Nor does the decoder look at
  characters outside its alphabet: but for dots and pads, put anywhere into a token they leave
  its secret as it is
  (`ForeignCharactersAreOverlooked`).
* Appended requirements never repeat an identity, but a replacing list may
  (`InstanceRequirements.RunDistinctIff`, `RepeatingRunIsAccepted`).
* Proposed fields with an `id` of their own rename an entry behind the dictionary's back
  (`CatalogUpdates.ApplyEdit`, `RenamedEntryKeepsItsOldPlace`, `RenamingHappens`).
* READY does not mean that no scanner failed. It does so only where a first-level scanner is
  skipped, so that READY is out of reach, where fewer than ten scanners run, or where none that
  runs can hide a failure. For the listed scanners: where a first-level one is skipped or fewer
  than three second-level ones run (`ReleaseGate.ReadyRulesOutFailuresIff`, `ListedScannersIff`,
  `SilentButReady`).
* A satisfied scope does not mean that every claim in it is, nor the other way round
  (`AssuranceClaims.ScopeLeavesOnly`, `EachSatisfiedIsScopeIff`, `ScopeAndClaimsDiffer`).

## Model

| member | source | states |
|---|---|---|
| StatusResolver.AssuranceControlEffects | backend/scripts/resolve-assurance-status.py:205-229 | The loop over waivers and controls files each effect under its target key, in order; a record without a usable target files nothing |
| StatusResolver.BuildRowIndex | backend/scripts/resolve-assurance-status.py:398-431 | The loop over declared rows computes the row index: rows in first-declaration order, with duplicate-free TBT and FR references |
| StatusResolver.ScannerBlockersByRow | backend/scripts/resolve-assurance-status.py:472-499 | Blockers of the evidence bundle filed under every row each record names |
| ScannerSelectors.FindingsForMapping | backend/scripts/resolve-assurance-status.py:136-142 | The loop keeps the findings of the scanner that some selector matches, in order |
| ScannerSelectors.BlockersOfFindings | backend/scripts/resolve-assurance-status.py:502-547 | Blockers by row, from packs with selectors and raw findings, at most twenty findings of a mapping each |
| ScannerSelectors.FindingsBlockIff | backend/scripts/resolve-assurance-status.py:502-547 | A row gets a blocker from the packs if and only if an accepted, direct, row-level mapping names it and a finding of its scanner matches one of its selectors |
| ScannerSelectors.MoreFindingsBlockMore | backend/scripts/resolve-assurance-status.py:502-547 | More findings never free a row |
| ScannerSelectors.RunFromFindings | backend/scripts/resolve-assurance-status.py:564-616 | The whole run of the resolver from packs and raw findings |
| ScannerSelectors.MoreFindingsNeverHelp | backend/scripts/resolve-assurance-status.py:564-616 | More findings change no TBT and no FR and raise the rank of no row |
| ScannerSelectors.KindsAreOrdered | backend/scripts/resolve-assurance-status.py:117-133 | For one value an exact selector is stricter than a prefix, and a prefix than a category |
| ScannerSelectors.GlobsOfLiterals | backend/scripts/resolve-assurance-status.py:117-133 | A glob of literal characters is an exact selector, with a star behind it a prefix, with stars on both sides a category |
| StatusResolver.MergeBlockers | backend/scripts/resolve-assurance-status.py:550-561 | Merging the two sources keeps, per row, the first blocker of each marker in order |
| StatusResolver.GroupByProducer | backend/scripts/resolve-assurance-status.py:583-585 | Evidence grouped by the TBT that produced it, in order of arrival |
| StatusResolver.ResolveTbts | backend/scripts/resolve-assurance-status.py:299-342 | Every TBT gets the verdict of its own records under its own controls |
| StatusResolver.ResolveFrs | backend/scripts/resolve-assurance-status.py:345-388 | Every FR gets the worst status of the TBTs that prove it, under its own controls |
| StatusResolver.ResolveCompliance | backend/scripts/resolve-assurance-status.py:432-469 | Every declared row gets its blockers, its TBTs and its controls in the order the resolver applies them |
| StatusResolver.RunResolver | backend/scripts/resolve-assurance-status.py:564-616 | The whole run over dictionaries filled in loops computes the three-level rollup that the theorems below are about |
| StatusTheorems.ControlsNeverManufactureAPass | backend/scripts/resolve-assurance-status.py:205-255 | If every effect ranks below passed, then whatever TBT, FR or row is reported passed is also passed when all waivers and controls are removed |
| StatusTheorems.EffectIsSafeIffBelowPassed | backend/scripts/resolve-assurance-status.py:243-255 | An effect can never create a pass if and only if it ranks below passed; a declared effect of passed, out_of_scope or an unlisted status creates one for some input |
| StatusTheorems.HighEffectManufactures | backend/scripts/resolve-assurance-status.py:243-255 | For each effect that ranks at passed or above, a concrete report in which it alone turns a missing test into a pass |
| StatusTheorems.HighStatusIsUncontrolled | backend/scripts/resolve-assurance-status.py:232-255 | A status at rank passed or above that survives the controls was not given by a control |
| StatusTheorems.BlockersIffBlocked | backend/scripts/resolve-assurance-status.py:472-561 | A row has a merged blocker exactly when one of the two sources files one for it |
| StatusTheorems.MergedBlockersAreDistinct | backend/scripts/resolve-assurance-status.py:550-561 | No row keeps two blockers with one marker |
| StatusOrder.BadEvidenceNeverHelps | backend/scripts/resolve-assurance-status.py:299-318 | Adding failed or missing records, anywhere and in any number, raises the rank of no TBT, FR or row |
| StatusOrder.OrderDoesNotMatter | backend/scripts/resolve-assurance-status.py:564-616 | With known statuses and only the two default effects, the report depends only on the sets of records, waivers and controls |
| StatusOrder.PermutingEvidenceAndControls | backend/scripts/resolve-assurance-status.py:564-616 | Permuting evidence records or controls changes no status |
| StatusRows.RowIndexIsExact | backend/scripts/resolve-assurance-status.py:391-431 | With distinct TBT ids each row appears once and exactly when declared; its TBT references are its declarers in catalog order and its FR references what they prove, both duplicate-free |
| StatusRows.BlockedRowIsFailed | backend/scripts/resolve-assurance-status.py:432-445 | A blocked row is failed whatever its TBTs say unless an approved control covers it; an unblocked row takes the worst of its TBTs |
| KeyedLists.KeyedList.Append | backend/scripts/apply-config-update-proposal.py:232-235 | Appending an entry and filing it keeps every key on which index and linear scan agreed, and the new key exactly when the entry carries it |
| KeyedLists.KeyedList.Overwrite | backend/scripts/apply-config-update-proposal.py:174-176 | Editing through the dictionary edits the list entry itself; agreement survives when the key is kept |
| CatalogUpdates.ApplyEdit | backend/scripts/apply-config-update-proposal.py:217-262 | One add or update through the dictionary does what the same edit does over a scan of the list, and keeps the two in agreement if and only if it keeps the id; where they disagree, it does what the edit does at the places the dictionary holds |
| CatalogUpdates.FrCatalog.Apply | backend/scripts/apply-config-update-proposal.py:217-264 | One FR or TBT update has the outcome of the step over the two lists, and keeps both dictionaries in agreement if and only if its proposed fields carry no foreign id |
| CatalogUpdates.ApplyFrUpdates | backend/scripts/apply-config-update-proposal.py:209-268 | A whole proposal over a copy, foreign ids or not, equals the fold of its updates over lists and dictionary places and shares no entry with the input; without foreign ids it equals the fold over the lists, and both dictionaries still denote them |
| CatalogUpdates.PlacedEditIsEdit | backend/scripts/apply-config-update-proposal.py:209-262 | While the dictionary holds the last entry of each id, an edit through it is the edit over a scan, and it goes on holding them if and only if the edit keeps the id |
| CatalogUpdates.PlacedRunIsRun | backend/scripts/apply-config-update-proposal.py:209-268 | So without foreign ids the two folds are one |
| CatalogUpdates.RenamedEntryKeepsItsOldPlace | backend/scripts/apply-config-update-proposal.py:226-233 | An entry that an update renames stays filed under its old id: updates of the new id are refused, and adding the new id is accepted and lists it twice |
| CatalogUpdates.RenamingHappens | backend/scripts/apply-config-update-proposal.py:252-258 | The input: a TBT `a` and an update of `a` that proposes the id `b` |
| CatalogUpdates.ApplyComplianceUpdates | backend/scripts/apply-config-update-proposal.py:383-426 | The same for a compliance mapping pack, unconditionally over the list alone, since an update cannot change a mapping id |
| CatalogUpdates.EditsKeepIds | backend/scripts/apply-config-update-proposal.py:174-176 | Updates whose proposed fields carry no id are edits that keep ids |
| CatalogUpdates.RunSplits | backend/scripts/apply-config-update-proposal.py:209-268 | An accepted proposal runs each of the two lists' own edits on that list and no others |
| CatalogUpdates.RunKeepsTheList | backend/scripts/apply-config-update-proposal.py:209-268 | Over any accepted run nothing is deleted or reordered, additions go last, ids stay distinct, and entries no update names are unchanged |
| CatalogUpdates.RunRefines | backend/scripts/apply-config-update-proposal.py:209-268 | Running on list and dictionary refines running on one ordered map: the same runs are accepted, with the same errors and corresponding results |
| CatalogUpdates.MappingRunIsARun | backend/scripts/apply-config-update-proposal.py:383-426 | An accepted mapping-pack update is a run of id-keeping edits, so all of the above applies to it |
| InstanceUpdates.Upsert | backend/scripts/apply-config-update-proposal.py:721-751 | Find or create through the dictionary, then edit: agreement with the scan survives at every other key, and at the key itself when a new entry carries it; the outcome is that of the scan |
| InstanceUpdates.UpsertKeepsKeys | backend/scripts/apply-config-update-proposal.py:721-751 | Distinct keys stay distinct, nothing is lost or moved, and only the entry under the key may change |
| InstanceUpdates.AppendUniqueRequirement | backend/scripts/apply-config-update-proposal.py:577-595 | A requirement is appended exactly when no present one has its five-field identity |
| InstanceUpdates.AppendingKeepsIdentities | backend/scripts/apply-config-update-proposal.py:577-595 | Appending any requirements keeps identities distinct, keeps what was there in place, and leaves every requested identity present |
| InstanceUpdates.AppendingIsIdempotent | backend/scripts/apply-config-update-proposal.py:577-595 | Appending requirements that are already present changes nothing |
| InstanceEditors.ApplyCriterion | backend/scripts/apply-config-update-proposal.py:721-738 | A criterion update through its dictionary keeps it in agreement at every named criterion and has the outcome of the step over a scan; a mapping for the empty criterion is found where the run put it |
| InstanceEditors.ApplyRole | backend/scripts/apply-config-update-proposal.py:739-751 | The same for a role update and its (gate, role) dictionary |
| InstanceEditors.ApplyDecision | backend/scripts/apply-config-update-proposal.py:752-771 | The same for a decision update and its id dictionary, with the gate dictionary only a fallback for updates |
| InstanceEditors.ApplyException | backend/scripts/apply-config-update-proposal.py:772-811 | The same for a waiver or compensating-control update and its id dictionary |
| InstanceEditors.Instance.Apply | backend/scripts/apply-config-update-proposal.py:676-815 | One update of the instance, whatever it names: all five indexes keep agreeing with linear scans, and the outcome is that of the step over scans |
| InstanceEditors.ApplyAll | backend/scripts/apply-config-update-proposal.py:676-815 | The loop over the updates has the outcome of the run over scans, and stops at the first refused one with its error |
| InstanceEditors.ApplyInstanceUpdates | backend/scripts/apply-config-update-proposal.py:676-815 | A whole proposal over a copy: every index agrees with its list at the end, and the result is the run over scans |
| InstanceEditors.StepKeepsKeysDistinct | backend/scripts/apply-config-update-proposal.py:676-815 | One accepted update keeps the keys of all five lists distinct |
| InstanceEditors.RunKeepsKeysDistinct | backend/scripts/apply-config-update-proposal.py:676-815 | So does any accepted run |
| InstanceRequirements.RunKeepsDistinct | backend/scripts/apply-config-update-proposal.py:721-738 | Over any accepted run, if criteria begin with distinct requirement identities and no replacing list repeats one, every criterion keeps them distinct |
| InstanceRequirements.RunDistinctIff | backend/scripts/apply-config-update-proposal.py:721-738 | After an accepted run a named criterion has distinct identities if and only if the last list that replaced them repeats none or, if none did, they were distinct before |
| InstanceRequirements.NewRequirementsAreDistinctIff | backend/scripts/apply-config-update-proposal.py:730-737 | One update leaves distinct identities if and only if its replacing list has them or, when it appends, they were distinct before |
| InstanceRequirements.RepeatingRunIsAccepted | backend/scripts/apply-config-update-proposal.py:721-738 | The input: an accepted run of one update whose replacing list names a requirement twice, and which leaves it twice |
| InstanceEvidence.ApplyInstanceEvidence | backend/scripts/apply-config-update-proposal.py:818-875 | Manual evidence applied through the criterion and role dictionaries equals the run over linear scans |
| InstanceEvidence.ManualRequirementIsComplete | backend/scripts/apply-config-update-proposal.py:563-574 | Manual evidence always yields a requirement with a type and a reference; it is an approval if and only if the evidence type or an approval reference says so, otherwise it names its evidence |
| InstanceEvidence.RunKeepsTidy | backend/scripts/apply-config-update-proposal.py:818-875 | Over any accepted run keys stay distinct and no criterion repeats a requirement identity |
| TwoPhaseCommit.Stage | backend/scripts/apply-config-update-proposal.py:42-51 | Phase one writes and validates outputs under fresh names up to the first one that a step fails on, which it reports; it succeeds if and only if no step fails; no target changes |
| TwoPhaseCommit.RenameAll | backend/scripts/apply-config-update-proposal.py:52-53 | Phase two puts the outputs in place one by one up to the first rename that fails, and succeeds if and only if none does; a failure leaves exactly the outputs before it |
| TwoPhaseCommit.Commit | backend/scripts/apply-config-update-proposal.py:41-60 | It succeeds if and only if no step of either phase fails. Until all outputs are written and validated no target changes; success leaves each target with its last plan and changes nothing else; a failure leaves exactly the outputs renamed before the first failing step, none if phase one failed, and at most one leftover |
| TwoPhaseCommit.CommittedHoldsTheLastPlan | backend/scripts/apply-config-update-proposal.py:41-60 | After a commit a path holds the last content planned for it, and a path nobody planned holds what it held |
| UpdateSelection.SelectorMap | backend/scripts/apply-config-update-proposal.py:63-83 | The loop over selectors builds the dictionary of picks or reports the first selector that does not read |
| UpdateSelection.SelectedUpdates | backend/scripts/apply-config-update-proposal.py:86-97 | The loop over sections collects the picked updates or reports a section whose positions are out of range |
| UpdateSelection.SelectorsMean | backend/scripts/apply-config-update-proposal.py:63-83 | Selectors are accepted if and only if each reads; a section is picked whole if and only if a wildcard names it, otherwise at exactly the positions asked for |
| UpdateSelection.CutAtFirstColon | backend/scripts/apply-config-update-proposal.py:66-68 | A selector is cut if and only if it has a colon, and at its first one |
| UpdateSelection.OrderOfSelectorsIsFree | backend/scripts/apply-config-update-proposal.py:63-83 | Reordering or repeating selectors changes neither acceptance nor what is picked |
| UpdateSelection.PickedInProposalOrder | backend/scripts/apply-config-update-proposal.py:86-97 | Picked updates come in proposal order, each once, and picking fails exactly when a position lies outside the section |
| NativeMapping.ApplyUpdate | backend/scripts/apply-config-update-proposal.py:454-505 | One native-test mapping edits the entry it names in place; a refused one changes nothing |
| NativeMapping.ApplyNativeMappings | backend/scripts/apply-config-update-proposal.py:454-519 | A whole proposal over a copy of the pack, with the four counters of the result |
| NativeMapping.RunKeepsNames | backend/scripts/apply-config-update-proposal.py:441-505 | No run adds, drops, reorders or renames an entry |
| NativeMapping.UnnamedEntryStays | backend/scripts/apply-config-update-proposal.py:441-505 | An entry that no update names is unchanged |
| NativeMapping.LastUpdateDecides | backend/scripts/apply-config-update-proposal.py:462-500 | The last update that names an entry decides whether and where it is mapped and how it is marked |
| NativeMapping.RunMapsAndMarks | backend/scripts/apply-config-update-proposal.py:462-500 | After an accepted run a test is mapped as its last update says, but marked if any update ever marked it: no update takes a mark away |
| NativeMapping.CountersCover | backend/scripts/apply-config-update-proposal.py:506-517 | The four counters add up to the native tests plus those both mapped and marked as no evidence |
| NativeMapping.CountersPartitionIff | backend/scripts/apply-config-update-proposal.py:441-517 | After an accepted run the counters partition the native tests if and only if there is no native test that both ends mapped (its last naming update maps it, or none names it and it was mapped) and was ever marked (before the run, or by any update that names it) |
| NativeMapping.MappingAMarkedTestCountsItTwice | backend/scripts/apply-config-update-proposal.py:462-485 | A concrete run that marks a test and maps it later, so that it is counted twice |
| Glob.MatchIffDenotes | backend/scripts/apply-scannerignore.py:68-97 | The backtracking matcher accepts exactly the strings that split into parts the tokens denote |
| Glob.RegexTextIsRendered | backend/scripts/apply-scannerignore.py:91-96 | Escaping a pattern and replacing doubled and single stars in the text yields exactly the regular expression of its token sequence |
| IgnoreMatcher.MatchesAny | backend/scripts/apply-scannerignore.py:68-97 | The scan over the patterns returns true exactly when some pattern matches by one of its tests |
| IgnoreMatcher.RegexImpliesShell | backend/scripts/apply-scannerignore.py:84-96 | Without a character class, whatever the regular expression of a pattern accepts the shell pattern accepts |
| IgnoreMatcher.RegexBranchIsRedundant | backend/scripts/apply-scannerignore.py:84-96 | Without a character class the regular-expression branch changes no answer |
| IgnoreMatcher.RegexBranchIsIdleIff | backend/scripts/apply-scannerignore.py:68-97 | The regular-expression branch changes the answer for no path, whatever classes hold, if and only if the pattern ends with a slash, has no doubled star, has no character class, or has a backslash, which no normalised path has |
| IgnoreMatcher.NoBracketNoClass | backend/scripts/apply-scannerignore.py:84-96 | A pattern without an opening bracket has no character class |
| IgnoreMatcher.RegexBranchCanDecide | backend/scripts/apply-scannerignore.py:84-96 | A concrete pattern with a class and a path on which only the regular expression accepts |
| IgnoreMatcher.ThirdDirectoryTestIsRedundant | backend/scripts/apply-scannerignore.py:74-83 | The third test of a directory pattern adds nothing to the second |
| IgnoreMatcher.DirectoryPatternMeaning | backend/scripts/apply-scannerignore.py:74-83 | A plain directory pattern matches exactly when it is the last segment or some earlier segment ends with it |
| IgnoreMatcher.DirectoryPatternOverreaches | backend/scripts/apply-scannerignore.py:74-83 | The pattern `test/` ignores `latest/x`, which has no segment `test` |
| IgnoreMatcher.IgnoredByParts | backend/scripts/apply-scannerignore.py:68-97 | A list of two parts ignores what either part ignores |
| IgnoreFilters.FilterSemgrep | backend/scripts/apply-scannerignore.py:104-125 | Each run keeps exactly the results not ignored at every location, in order; counts before and after are exact |
| IgnoreFilters.FilterGitleaks | backend/scripts/apply-scannerignore.py:128-136 | Exactly the findings outside the ignored paths are kept, in order; counts are exact |
| IgnoreFilters.FilterTrivyConfig | backend/scripts/apply-scannerignore.py:139-156 | Ignored targets lose their misconfigurations, everything else stays; counts are exact |
| IgnoreFilters.FilterTrivy | backend/scripts/apply-scannerignore.py:159-177 | Ignored targets lose their whole result; counts are exact |
| IgnoreFilters.FilterGrype | backend/scripts/apply-scannerignore.py:180-194 | Exactly the matches not ignored at every location are kept, in order; counts are exact |
| IgnoreFilters.KeptIsSubsequence | backend/scripts/apply-scannerignore.py:104-194 | Filtering adds, repeats and reorders nothing |
| IgnoreFilters.WeightSplits | backend/scripts/apply-scannerignore.py:104-194 | Kept and dropped add up to what was there |
| IgnoreFilters.KeptIsIdempotent | backend/scripts/apply-scannerignore.py:104-194 | Filtering again drops nothing more |
| IgnoreFilters.OnePathPassesCompose | backend/scripts/apply-scannerignore.py:128-177 | For Gitleaks and Trivy one pass with two lists equals a pass with each |
| IgnoreFilters.ManyPathPassesDropMore | backend/scripts/apply-scannerignore.py:104-194 | For Semgrep and Grype one pass with two lists leaves a subsequence of what the two passes leave |
| IgnoreFilters.DropsMoreIff | backend/scripts/apply-scannerignore.py:104-194 | It drops a finding the passes keep exactly when each of its paths is on one of the lists but neither list has them all |
| TokenCipher.Keystream | backend/app/secrets.py:15-21 | The loop computes the stream whose byte i comes from block i / 32 |
| TokenCipher.StreamPrefix | backend/app/secrets.py:15-21 | A longer stream begins with the shorter one |
| TokenCipher.XorTwice | backend/app/secrets.py:28-51 | Combining twice with the same stream gives the bytes back |
| TokenCipher.Encrypt | backend/app/secrets.py:24-35 | The token of a secret under a key and nonce |
| TokenCipher.Decrypt | backend/app/secrets.py:38-55 | The secret of an accepted token, nothing for any other value |
| TokenCipher.PartsOfToken | backend/app/secrets.py:24-43 | A token splits at its dots into exactly its three parts |
| TokenCipher.RoundTrip | backend/app/secrets.py:24-55 | Decrypting what was encrypted under the same key gives the secret back, for every encodable secret and every nonce |
| TokenCipher.SameTagAcceptedIff | backend/app/secrets.py:38-55 | A value that carries the tag of an accepted one is accepted if and only if nonce and cipher together are the same bytes, cut anywhere, and the text of that cut is UTF-8; with a nonce of the same length, only if both are the same, and then as the same secret; for a tag function that separates the two inputs |
| TokenCipher.BoundaryIsNotTagged | backend/app/secrets.py:34-48 | For every hash, key, nonce and non-empty secret, the token whose cipher has been moved into the nonce is another token and is accepted as the empty secret |
| TokenCipher.ForeignCharactersAreOverlooked | backend/app/secrets.py:38-51 | A character outside the Base64 alphabet, put anywhere into a value, makes another value that decrypts to the same |
| Base64.UrlRoundTrip | backend/app/secrets.py:30-45 | URL-safe Base64 decodes what it encodes, for all bytes (sections 4 and 5 of RFC 4648) |
| Base64.ForeignIsSkipped | backend/app/secrets.py:43-45 | A foreign character may stand anywhere without changing what is decoded |
| Base64.StrictRoundTrip | backend/scripts/assurance_proof_bundles.py:61-63 | Standard Base64 with validation decodes what it encodes |
| Base64.EncodedText | backend/app/secrets.py:30-41 | Encoded text is ASCII without a dot |
| Utf8.DecodeEncode | backend/app/secrets.py:26-51 | UTF-8 decodes what it encodes |
| TestPack.MergePrevious | backend/scripts/generate-assurance-test-pack.py:324-363 | The four loops of the merge compute the merged pack; without a previous manifest the entries stay as they are |
| TestPack.MergedKeysAreExact | backend/scripts/generate-assurance-test-pack.py:324-363 | Merged keys are distinct and usable, are exactly the keys of current and carried entries, and begin with the current ones in first-occurrence order |
| TestPack.MergedEntry | backend/scripts/generate-assurance-test-pack.py:333-362 | A current key shows the carried entries folded over the last current one; a key of the previous pack alone shows its first carried entry as it was |
| TestPack.MergingAgainChangesNothingIff | backend/scripts/generate-assurance-test-pack.py:324-363 | Merging the output again with the same manifest changes nothing if and only if, under each key the build lacks, the first carried entry absorbs the others |
| TestPack.MergingAgainCanChange | backend/scripts/generate-assurance-test-pack.py:324-363 | A concrete previous pack that carries a key twice: the first merge shows the first entry, the second changes it |
| TestPack.MergingIsIdempotent | backend/scripts/generate-assurance-test-pack.py:324-363 | With distinct carried keys the merge is idempotent |
| TestPack.MergingSettlesInTwo | backend/scripts/generate-assurance-test-pack.py:324-363 | Whatever is repeated, the second merge is the last to change anything |
| TestPack.CarriedEntrySurvives | backend/scripts/generate-assurance-test-pack.py:293-363 | The only entry carried under a key is the only entry of the next pack under it, up to filled fields |
| TestPack.RunsKeepCarriedEntries | backend/scripts/generate-assurance-test-pack.py:293-397 | So over any run of builds, each merging with the manifest before it |
| TestPackLifecycle.PlannedEntries | backend/scripts/generate-assurance-test-pack.py:137-208 | The loop over the catalog plans an entry for each TBT with an id and an FR in scope |
| TestPackLifecycle.PlannedExactly | backend/scripts/generate-assurance-test-pack.py:137-208 | The planned entries are exactly those, each filed under its TBT |
| TestPackLifecycle.CollectRows | backend/scripts/generate-assurance-test-pack.py:151-162 | Complete compliance rows, each once, in order of first mention |
| TestPackLifecycle.CollectGates | backend/scripts/promote-assurance-specs.py:90-96 | Assurance gates of the FRs, each once, in order of first mention |
| TestPackLifecycle.Promote | backend/scripts/promote-assurance-specs.py:213-285 | Promotion keeps the unsuperseded tests, adds the scaffolds, and lists the last entry of each pack id in order; it fails when nothing selected is in the catalog |
| TestPackLifecycle.PromotedInOrder | backend/scripts/promote-assurance-specs.py:280-280 | Pack ids of the new manifest are distinct and in code-point order |
| TestPackLifecycle.PromotionLeavesTheScaffold | backend/scripts/promote-assurance-specs.py:265-280 | The scaffold of a promoted TBT is alone under its pack id, and no planned or generated entry of the TBT is left beside it |
| TestPackLifecycle.ScaffoldAloneCarried | backend/scripts/promote-assurance-specs.py:265-280 | When nothing else is carried under the TBT beforehand, the scaffold is the only entry carried forward under it |
| TestPackLifecycle.PromotedTestSurvivesRebuilds | backend/scripts/generate-assurance-test-pack.py:324-397 | After promotion and any positive number of rebuilds the pack holds exactly one entry for the TBT: the scaffold up to filled fields, with no planned entry beside it |
| ReviewSummary.Collector.Visit | backend/scripts/generate_dashboard.py:263-287 | The recursive visit adds to the counters and sets what each object of the tree contributes, once |
| ReviewSummary.ConfigReviewSummary | backend/scripts/generate_dashboard.py:254-305 | The summary of a whole configuration tree |
| ReviewSummary.FoundMembers | backend/scripts/generate_dashboard.py:272-283 | A reviewer or signature is collected exactly when some object of the tree names it |
| ReviewSummary.CheckReviewSummary | backend/scripts/load_target_artifacts.py:524-539 | The loader's check reports nothing if and only if totals equal counters and every list is strictly increasing |
| ReviewSummary.SummaryIsConsistent | backend/scripts/generate_dashboard.py:287-305 | For every configuration tree the produced summary passes the check, with lists and totals exactly those of the tree |
| GraphManifest.MakeCommitment | backend/scripts/generate_dashboard.py:308-346 | The commitment of an existing file, none for a missing one |
| GraphManifest.CollectCommitments | backend/scripts/generate_dashboard.py:407-418 | The loop keeps the first commitment of each role and content and sorts them |
| GraphManifest.CommitmentsAreExact | backend/scripts/generate_dashboard.py:349-418 | The list is in order, repeats no role with the same content, holds nothing but candidates and misses none that exists |
| GraphManifest.ClaimReadiness | backend/scripts/generate_dashboard.py:559-576 | The readiness table over the committed roles |
| GraphManifest.SupportedIff | backend/scripts/generate_dashboard.py:550-576 | A claim is supported if and only if every configuration it needs is committed |
| GraphManifest.UnsupportedSaysWhy | backend/scripts/generate_dashboard.py:563-571 | Each other claim is listed with exactly the roles it misses; together they are all claims |
| GraphManifest.WriteGraphManifest | backend/scripts/generate_dashboard.py:610-725 | The manifest that a dashboard run writes |
| GraphManifest.CheckGraphManifest | backend/scripts/load_target_artifacts.py:456-497 | The loader's check reports nothing if and only if the manifest agrees with itself |
| GraphManifest.ErrorsIff | backend/scripts/load_target_artifacts.py:456-497 | Both directions of that equivalence |
| GraphManifest.WrittenManifestIsAccepted | backend/scripts/generate_dashboard.py:610-725 | For all files, all configuration trees and every hash function the written manifest gives the checker nothing to report |
| GraphManifest.WrittenManifestDescribesTheFiles | backend/scripts/generate_dashboard.py:349-719 | The written manifest describes the files it was made from: each entry has the path, hash and size of an existing candidate, the content of every existing candidate is listed, and a claim is offered if and only if a file of each role it needs exists |
| GraphManifest.ReplacedSectionIsReported | backend/scripts/load_target_artifacts.py:470-478 | Putting another configuration or planning section with another hash into a written manifest is reported |
| PayloadCheck.CheckUnique | backend/scripts/load_target_artifacts.py:542-552 | One report for every repetition of an id |
| PayloadCheck.RepeatsAreCounted | backend/scripts/load_target_artifacts.py:542-552 | Reports and distinct ids together number the ids |
| PayloadCheck.UniqueIff | backend/scripts/load_target_artifacts.py:542-552 | Nothing is reported if and only if the ids are distinct |
| PayloadCheck.CheckDashboardPayload | backend/scripts/load_target_artifacts.py:555-590 | The graph check reports nothing if and only if the graph is well formed |
| PayloadCheck.WellFormedIff | backend/scripts/load_target_artifacts.py:555-590 | Both directions: distinct ids and edges, known kinds, edges between known nodes |
| AssuranceClaims.FindTargetNode | backend/scripts/assurance_claims.py:32-60 | The target by candidate id, otherwise the first node whose metadata names it |
| AssuranceClaims.PrefixIsOptional | backend/scripts/assurance_claims.py:32-41 | The prefix of an FR or TBT target may be left out without changing the candidates |
| AssuranceClaims.EvidenceRefs | backend/scripts/assurance_claims.py:63-80 | The references of evidence nodes that an edge ties to the target, sorted and without repetition |
| AssuranceClaims.ScannerBlockers | backend/scripts/assurance_claims.py:97-126 | The blockers of the target and, for FR targets, of the rows tied to it |
| AssuranceClaims.SelectedScopeBlockers | backend/scripts/assurance_claims.py:138-146 | The blockers recorded on any row |
| AssuranceClaims.EvaluateClaim | backend/scripts/assurance_claims.py:160-226 | The evaluation of a claim |
| AssuranceClaims.UnblockedIff | backend/scripts/assurance_claims.py:97-126 | The list of blockers is empty if and only if neither the target nor a row it looks at records one |
| AssuranceClaims.SatisfiedIff | backend/scripts/assurance_claims.py:191-226 | A claim about one target is satisfied if and only if the target exists, nothing blocks it and its status is satisfied, or merely not failed for a scanner-evidence claim |
| AssuranceClaims.ScopeSatisfiedIff | backend/scripts/assurance_claims.py:161-189 | The scope claim is satisfied if and only if no FR or row is unsatisfied and no row records a blocker |
| AssuranceClaims.ScopeLeavesOnly | backend/scripts/assurance_claims.py:161-226 | In a satisfied scope the claim about an FR or row is satisfied if and only if an FR records no blocker of its own and, unless the claim is about scanner evidence, the status is a satisfied one |
| AssuranceClaims.EachSatisfiedIsScopeIff | backend/scripts/assurance_claims.py:161-226 | When the claim of every FR and row is satisfied, the scope claim is satisfied if and only if no status behind an evidence status is unsatisfied and no row lists a blocker |
| AssuranceClaims.ScopeAndClaimsDiffer | backend/scripts/assurance_claims.py:161-226 | Two concrete graphs: an FR whose claim is satisfied in an unsatisfied scope, and one whose claim is not in a satisfied scope |
| AssuranceClaims.RefSetMembers | backend/scripts/assurance_claims.py:70-80 | A reference is collected if and only if an edge ties its evidence node to the target |
| ProofBundles.BuildClaim | backend/scripts/assurance_claims.py:244-273 | The claim made from a report, or the fault that is raised |
| ProofBundles.VerifyClaim | backend/scripts/verify_assurance_claim.py:16-65 | The errors of checking a claim against a report |
| ProofBundles.EvidenceCommitments | backend/scripts/assurance_proof_bundles.py:16-49 | The evidence commitments of a claim, with sorted artifact hashes |
| ProofBundles.EvidenceIsExact | backend/scripts/assurance_proof_bundles.py:33-49 | They are those of exactly the records the claim refers to, or of all records when it refers to none |
| ProofBundles.BuildProofBundle | backend/scripts/assurance_proof_bundles.py:52-92 | The bundle for a claim that verifies, with its openings |
| ProofBundles.VerifyProofBundle | backend/scripts/assurance_proof_bundles.py:95-146 | The errors of checking a bundle, alone or against a report |
| ProofBundles.BuiltOpeningsVerify | backend/scripts/assurance_proof_bundles.py:52-64 | Openings can be built exactly when all paths exist, and decode to content of the stated hash and size |
| ProofBundles.BuiltClaimIsPacked | backend/scripts/assurance_proof_bundles.py:67-92 | A bundle can be built for a built claim if and only if every opening exists |
| ProofBundles.BuildThenVerify | backend/scripts/assurance_proof_bundles.py:67-146 | On an unchanged report a built bundle verifies, with and without the report, if and only if the manifest has the three commitment keys it repeats |
| ProofBundles.MissingInputHashesAreReported | backend/scripts/assurance_proof_bundles.py:78-126 | A concrete report without the three input hashes, whose claim verifies and whose bundle is packed and then reported with exactly three errors |
| ProofBundles.VerifiedIff | backend/scripts/assurance_proof_bundles.py:95-146 | A bundle verifies against a report if and only if it is consistent, its openings open, its claim is what the report's graph gives, and its evidence is the report's |
| ProofBundles.OneVerdictPerReport | backend/scripts/assurance_proof_bundles.py:95-146 | Beside a bundle that verifies against a report, another for the same claim type and target verifies if and only if it carries the same claim up to its time, the same evidence, and is sound in itself |
| BoardState.Load | backend/scripts/generate_dashboard.py:2448-2464 | The loop indexes saved cards by id, TBT and native path |
| BoardState.Merge | backend/scripts/generate_dashboard.py:2716-2752 | The loop merges saved review fields into the derived cards |
| BoardState.BoardIsAFixpoint | backend/scripts/generate_dashboard.py:2416-2464 | With distinct non-empty card ids, writing the merged board, loading it and merging again writes the same board, whatever the file held before |
| BoardState.EveryRunWritesTheSame | backend/scripts/generate_dashboard.py:2755-2775 | So does every further run |
| BoardState.MergeRespectsTheManifest | backend/scripts/generate_dashboard.py:2716-2752 | Only the five reviewable fields change; a ready non-destructive card keeps its derived lane, a recommended one is never put back to mapping, any other valid saved lane is kept |
| BoardState.RenamedCardKeepsItsReview | backend/scripts/generate_dashboard.py:2727-2732 | A card whose id is unknown takes over the review of the first card written for its TBT |
| ReleaseGate.CountSeverities | backend/scripts/generate-evidence-bundle.py:145-170 | The counting loop counts each finding under its severity, unknown ones together |
| ReleaseGate.CountsConserve | backend/scripts/generate-evidence-bundle.py:145-170 | The severity counts add up to the findings |
| ReleaseGate.AddCounts | backend/scripts/generate-evidence-bundle.py:313-318 | Counts over the reports of a scanner are summed per severity |
| ReleaseGate.ClassifyHealth | backend/scripts/generate-evidence-bundle.py:346-410 | The status of a scanner from its reports |
| ReleaseGate.CollectHealth | backend/scripts/generate-evidence-bundle.py:883-941 | The health loop with the part of the findings summary the gate reads |
| ReleaseGate.Assess | backend/scripts/generate-evidence-bundle.py:943-997 | Both scores, the critical count and the recommendation |
| ReleaseGate.RoundIsNearest | backend/scripts/generate-evidence-bundle.py:947-948 | The rounded percentage is the nearest integer, the even one of two equally near |
| ReleaseGate.RoundIsMonotone | backend/scripts/generate-evidence-bundle.py:947-948 | Rounding is monotone |
| ReleaseGate.ScoresArePercentages | backend/scripts/generate-evidence-bundle.py:943-962 | Both scores lie between 0 and 100 |
| ReleaseGate.NoCriticalIsLost | backend/scripts/generate-evidence-bundle.py:964-984 | Summing critical findings over failed scanners only equals summing over all that ran |
| ReleaseGate.ReadyIff | backend/scripts/generate-evidence-bundle.py:986-997 | READY if and only if no scanner that ran reports a critical finding or a secret, the score reaches 90 and every first-level scanner ran without failing |
| ReleaseGate.ReadyRulesOutFailuresIff | backend/scripts/generate-evidence-bundle.py:943-997 | For scanners with distinct names READY says that none failed, whatever the reports, if and only if a first-level scanner is skipped, fewer than ten run, or every one is skipped, first-level, or osv-scanner without package sources |
| ReleaseGate.ListedScannersIff | backend/scripts/generate-evidence-bundle.py:36-53 | For the scanners the script lists: if and only if a first-level one is skipped or fewer than three second-level ones run |
| ReleaseGate.SilentButReady | backend/scripts/generate-evidence-bundle.py:943-997 | The input: with ten scanners running and no findings anywhere, a second-level scanner that leaves no report fails, and the recommendation is READY |
| ReleaseGate.InfectedButReadyIff | backend/scripts/generate-evidence-bundle.py:964-997 | Beside scanners that all pass, a second-level virus scan that fails leaves the recommendation READY if and only if at least nine pass |
| ReleaseGate.HealthImproves | backend/scripts/generate-evidence-bundle.py:346-410 | Fewer findings never worsen a scanner's status |
| ReleaseGate.FewerFindingsNeverHurt | backend/scripts/generate-evidence-bundle.py:943-997 | With the scanners that run fixed, fewer findings never lower a score, never add criticals and never turn READY into NOT READY |
| RulesetProjection.GroupEvidence | backend/scripts/graph_projection.py:201-219 | Scanner evidence filed by row, from the fields of the evidence and from the edges |
| RulesetProjection.CollectEvidence | backend/scripts/graph_projection.py:224-252 | The evidence of a row: the first item of each key |
| RulesetProjection.RowCountsConserve | backend/scripts/graph_projection.py:279-302 | The row counts of the rulesets sum to the number of row nodes |
| RulesetSummary.CountersConserve | backend/scripts/graph_projection.py:280-292 | Status counts and display-state counts of a ruleset each sum to its row count |
| RulesetSummary.CountTags | backend/scripts/graph_projection.py:281-290 | The counting loop gives each string the number of its occurrences, listed by name |
| RulesetSummary.SummariseRuleset | backend/scripts/graph_projection.py:279-295 | The counters of a ruleset: rows, statuses, display states, evidence, blockers, and the rows that have either |
| RulesetSummary.SummariseProjection | backend/scripts/graph_projection.py:194-302 | The whole projection: every ruleset by name with its counters and sorted rows |
| RulesetSummary.OverviewConserves | backend/scripts/graph_projection.py:278-302 | The row counts of the summary sum to the number of row nodes |
| RulesetSummary.StatesGroupStatuses | backend/scripts/graph_projection.py:176-192 | Each display state is counted exactly as often as the statuses shown as it are together |
| RulesetSummary.StatusCountIsExact | backend/scripts/graph_projection.py:222-290 | The count of a status is the number of row nodes of the ruleset given it, without the unresolved ones that a counting blocker turns into failed ones, which `failed` gains; so no row with a counting blocker is counted missing or unaddressed |
| RulesetSummary.BlockersAndRows | backend/scripts/graph_projection.py:283-293 | A ruleset counts no blocker if and only if no row has one, and no more rows than blockers |
| RulesetSummary.RowsAreListedInOrder | backend/scripts/graph_projection.py:294-294 | The rows of a ruleset are listed by row name, each as often as it has them |
| RulesetProjection.RowEvidenceIsFair | backend/scripts/graph_projection.py:249-274 | A row counts each key once, shows at most eight items, and a non-blocker only beside every blocker |
| RulesetProjection.ShownKeysAreDistinct | backend/scripts/graph_projection.py:249-273 | No two shown items share a key |
| RulesetProjection.BlockedRowIsNeverUnresolved | backend/scripts/graph_projection.py:253-256 | A row with a derived blocker is never missing, unaddressed or not observed |
| RulesetProjection.UnblockedRowKeepsItsStatus | backend/scripts/graph_projection.py:253-256 | A row's status changes if and only if it was unresolved and an item that is the first of its key blocks |
| RulesetProjection.ShadowedBlockerLeavesTheRowMissing | backend/scripts/graph_projection.py:249-256 | A concrete row that stays missing although a listed blocker stands behind a signal with the same mapping |
| Grouping.GroupedStep | backend/scripts/graph_projection.py:201-219 | One step of filing into a dictionary of lists keeps it exact |
| Grouping.GroupsConserve | backend/scripts/graph_projection.py:200-277 | Grouping neither loses nor repeats a value |
| Sorting.SoonerIsTaken | backend/scripts/graph_projection.py:257-273 | Whatever sorts before a shown item is shown |

## Left out

* File, JSON, Git, Docker and HTTP input and output: files are maps from paths to contents, and clocks, random nonces and new temporary names are parameters.
* SHA-256, HMAC, canonical JSON and JSON Schema validation are function parameters; no cryptographic strength is modelled.
* Prompt, Markdown, HTML and message wording: errors and reasons are constructors that carry what the message prints.
* Field values of the wrong JSON type (a number as an id, a list as a status) where the scripts read strings; a missing field and an empty one are told apart only where the code does.
* Objects of type `Fields` are maps: the order of their keys is not modelled; dictionaries whose order shows in an output are ordered.
- IgnoreFilters.FilterSemgrep: the Syft filter beside it, which looks a component's paths up among its properties, is not modelled.
- IgnoreMatcher.MatchesAny: what a character class contains is a parameter, and only POSIX paths are modelled, because the class syntax of the host's library is not part of the repository.
- TwoPhaseCommit.Commit: temporary names are assumed fresh and distinct, as the host's temporary-file function provides them; the directory of a target always exists.
- TestPackLifecycle.PromotedTestSurvivesRebuilds: a TBT whose id is only white space has no TBT key and is excluded; the scaffold's file content and the copying of pack files are not modelled.
- TestPack.MergePrevious: the fields `runner`, `cases` and `rationale`, which are carried like the others, are not modelled, nor are the summary counters of the pack.
- GraphManifest.WriteGraphManifest: the enumeration of candidate files, the toolchain section and the plain fields copied from a configuration file (review status, version, project and the like) are not modelled; the candidates are a parameter.
- ProofBundles.VerifyProofBundle: the optional size, format and media type of an artifact are one opaque field.
- ReleaseGate.CountSeverities: the severities of a report are given; the parsers that extract them from the raw scanner reports are not modelled.
- ReleaseGate.CollectHealth: the item counts of a report are given too, and of the findings summary only what the gate reads is modelled.
- ReleaseGate.Assess: percentages are exact rationals, not floating point.
- ScannerSelectors.BlockersOfFindings: reading packs from files and the default pack are not modelled; lower-casing and the contents of character classes are parameters.
- AssuranceClaims.EvaluateClaim: the printing of a blocker record without any identifying field is a parameter.
* Manual evidence for the FR catalog (`apply-config-update-proposal.py:271-342`), which edits an expected-evidence list of one TBT, would add only an easy member beside the instance's manual evidence.
* FastAPI wiring, authentication, configuration loading, the database and the planning studio.
