# Verification of the ERP's guards, backfills and step machines

A Dafny model of the parts of the ERP in which one mistake costs data or
authority: the identity cutover, the role-authority gate, the ledger backfills,
the migration guards, the log pipeline, the bank matcher and the source patcher.
`dafny verify dfyconfig.toml` checks everything.

## What is modelled

* **Identity cutover.** `PersistencePlanes` and `PrivilegeManifest` hold the
  data; `ManifestGenerator` turns a census into a manifest; `GrantScript`
  renders it; `CutoverGuard` judges a snapshot. Dictionaries are built from
  sequences and the last entry of a key wins, as in the code.
  `GuardReading` states which answers the guard reads, `GuardExactness` what
  acceptance means, and `GuardMembers`, `GuardOrder` and `GuardVerdict` which
  refusals come, and in which order, when several things are wrong at once;
  `CleanSnapshot`, `CleanContents`, `Sensitivity`, `ColumnSensitivity`,
  `AnswerSensitivity`, `RoleSensitivity` and `NegativeControl` that the guard speaks
  up once per defect; `GeneratorFacts`, `ManifestContents` and `ManifestRefusals`
  what generation keeps, what stands in the rows and why a census is refused;
  `CutoverEndToEnd` what the generated grants do to a database seen as a set of
  (role, identity, privilege), with one such database in `CutoverExample`.
  `Signatures` is the function-signature parser, `SignatureReading` what it reads
  and refuses, `ManifestPayload` the serialized form, `RuntimeAdmission` the
  start-up gate that uses the same declarations, `AdmissionVerdict` its refusals.
* **Role authority.** `RoleAuthority` runs the recursive membership query as a
  fixpoint and evaluates both policies on one observation.
* **Backfills.** `Sessions` is a database session with committed and pending
  writes and a savepoint. `InventoryBackfill` uses savepoints, `GlBackfill`
  rolls the pending block back, `GlChunkLoop` repeats it and `GlChunkRun` follows
  the records through the chunks; `FiscalPeriods` opens and restores period
  objects in place. `IdempotentOps` and `RerunConvergence` are the migration
  guards. Whether a posting succeeds, refuses or raises, and whether a commit
  succeeds, is a parameter over which every result quantifies.
* **Step machines and searches.** `LogPipeline`, `InvoiceSearch`,
  `CustomerMatch`, and the patcher in `FilterPatcher`, whose lines are what its
  patterns see of them: `PatchPlaces` states where things go, `GrownLines` follows
  a file's own lines through a run, `PatchedLines`, `PatchOrder` and `ApartMethods`
  compare the run with all edits at their original positions, `SecondPatch` runs
  it twice.

Methods carry the loops of the original and are proved against functions; the
lemmas are about those functions. Totals, allowlist, executor declarations,
settled schemas and plane declarations are parameters (`Contract`, `Sources`).
Commits and posting functions do not touch period statuses, and releasing a
savepoint does not fail.

## Where the code and its documentation differ

The model follows the code. Each point below has a lemma.

* `scripts/backfill_gl_postings.py:467-469` says one failure never cascades; a
  failure rolls back earlier successes of its block of fifty, which stay in the
  reported count (`GlBackfill.NothingLostExactly`, `GlBackfill.FailureCascades`).
* `scripts/backfill_gl_postings.py:848-856` stops to avoid a loop only when every
  record failed; a full chunk whose successes are rolled back, or whose records
  answer false, repeats for ever (`GlChunkLoop.OneFailureLoopsForever`,
  `GlChunkLoop.QuietTerminatesExactly`).
* `scripts/backfill_gl_postings.py:197-202` also opens soft-closed periods, which
  come back hard-closed (`FiscalPeriods.GeneralRoundTripExact`).
* `alembic/idempotent_ops.py:1-7` promises idempotent re-runs; a script that
  drops a part before creating its table does not converge
  (`RerunConvergence.RerunConvergesExactly`).
* `app/monitoring.py:228-229` raises `2.0` to the number of failures in a row,
  which overflows at 1024 and ends the listener with a record in its hands
  (`LogPipeline.ListenerDiesExactly`).
* `scripts/bank_match_suggestions.py:8-14` speaks of ratios of the gross total,
  also for sums; the code applies ratios to the subtotal of single invoices only,
  and searches a window rather than the two or three oldest
  (`InvoiceSearch.WindowIsCompleteExactly`).
* `scripts/add_active_filters.py:330-346` puts the import after the last one; a
  file whose first line is a class, function or logger line gets it behind that
  line (`PatchPlaces.ImportStandsAboveExactly`).
* `scripts/add_active_filters.py:453-457` adds the key to a dictionary; a
  dictionary that closes on its first line gets it on the line above
  (`PatchedLines.EntryLandsInsideExactly`).
* `scripts/add_active_filters.py:551-552` goes from the last method to the first
  so that line numbers stay true; yet the search for an entry's indent looks eight
  lines ahead, and the brace search a hundred, into methods that were edited
  already (`ApartMethods.SearchReadsOn`, `ApartMethods.PatchedIsAtOnceExactly`).
* `scripts/add_active_filters.py:536-541` skips methods that call the builder, so a
  second run should have nothing to do; but a dictionary whose braces close in a
  later method can put its comma behind a bare `return`, which then counts as no
  return, and the second run finds a place in that method
  (`SecondPatch.SecondRunCanPatch`, `SecondPatch.SecondRunExactly`).

## Model

| member | source | states |
|---|---|---|
| PersistencePlanes.Construct | app/persistence_planes.py:438-458 | construction fails exactly when some two declarations of one relation name disagree about its plane, although each is compared with the latest stored one only, and names the relation of the first declaration to disagree |
| PersistencePlanes.LatestSpeaksForAll | app/persistence_planes.py:438-458 | without a disagreement the stored declaration speaks for every declaration of the name |
| PersistencePlanes.DeclarationDecides | app/persistence_planes.py:480-517 | a declared relation has its declared plane in whatever schema it is observed, and over any schema declaration |
| PersistencePlanes.DeclarationOrderIsIrrelevant | app/persistence_planes.py:438-517 | reordering the declarations moves no relation to another plane and creates no disagreement |
| PersistencePlanes.RefusesExactlyTheUncovered | app/persistence_planes.py:480-517 | resolution refuses exactly when neither a relation nor a schema declaration covers the relation; a schema declaration decides only then |
| PersistencePlanes.VerdictSettled | app/persistence_planes.py:480-517 | plane, declarer, permitted principals, declared schema and the mark of a moved schema are those of the latest declaration of the relation name, failing any those of the latest declaration of the schema |
| PersistencePlanes.DeclarationsExactly | app/persistence_planes.py:378-427 | a declaration is made exactly when some module has the table: tenant tables with no principal named, platform tables for the two operating roles, each under the name of the module |
| PersistencePlanes.ModuleRelationPlanes | app/persistence_planes.py:378-432 | the loop over the composed modules yields the declarations of all their tenant and platform tables |
| PersistencePlanes.ModulesAgree | app/persistence_planes.py:378-458 | the declarations of the modules disagree exactly when one table stands on both a tenant and a platform half |
| RuntimeAdmission.AdmissionViolations | app/runtime_admission.py:578-610 | the report of identity, posture, grant and isolation refusals, module by module, in order |
| RuntimeAdmission.TableViolations | app/runtime_admission.py:471-528 | the privileges of one table that are missing: a privilege that was not probed is one refusal and the next is asked, a table that does not exist ends the questions about it |
| RuntimeAdmission.ModuleSilent | app/runtime_admission.py:471-575 | one module is silent exactly when schema usage, every table-privilege pair and both isolation counts are clean; the early break hides nothing |
| RuntimeAdmission.EmptyVerdictMeansAdmitted | app/runtime_admission.py:405-610 | with a known module active the verdict is empty exactly when identity and posture are clean and every active module is known and admitted |
| AdmissionVerdict.VerdictMembers | app/runtime_admission.py:405-610 | however many things are wrong at once, a refusal is in the verdict exactly when the fact it names holds: an unknown code, an identity or attribute finding, a schema finding, a privilege question reached and answered badly, an isolation count |
| AdmissionVerdict.VerdictInOrder | app/runtime_admission.py:578-610 | the parts of the verdict come in order, and when no code, schema, table or role is named twice every refusal comes once |
| AdmissionVerdict.TableMembers | app/runtime_admission.py:499-528 | the questions about one table are answered each for itself up to the first answer that there is no such table |
| AdmissionVerdict.AnswerRead | app/runtime_admission.py:471-482 | of several answers to one privilege question the latest counts |
| RuntimeAdmission.ProbePower | app/runtime_admission.py:336-369 | over any table and policy the probe is clean exactly when no foreign row shows in the own context and no own row in the other; a policy ignoring its context that shows an own row is always refused |
| CutoverGuard.BaselineViolations | app/privilege_manifest.py:1895-1936 | section counts against the reviewed totals, then denial counts over the sections either side names |
| CutoverGuard.ObjectViolations | app/privilege_manifest.py:2053-2106 | each identity judged once, at its first row: missing, vanished, or with a moved kind, signature or uniqueness |
| CutoverGuard.PrivilegeViolations | app/privilege_manifest.py:2109-2197 | missing and indirect privileges, skipping vanished objects and denied identities, then the unlisted ones |
| CutoverGuard.ExtraViolations | app/privilege_manifest.py:2167-2197 | unlisted privileges outside preserved scopes, and preserved scopes whose count moved; a key that names no schema raises |
| CutoverGuard.EscalationViolations | app/privilege_manifest.py:2200-2255 | memberships, role attributes and moved owners, each identity once |
| CutoverGuard.LegacyViolations | app/privilege_manifest.py:2342-2362 | legacy-role access to module storage outside the allowlist |
| CutoverGuard.DenialViolations | app/privilege_manifest.py:2258-2339 | per denied relation every table privilege probed and not held, and every column-level privilege probed and held on no column |
| CutoverGuard.FunctionDenialViolations | app/privilege_manifest.py:1939-2050 | per denied function the tenant role, PUBLIC and the declared executor, each with an effective answer the right way round; an unknown section raises |
| CutoverGuard.CutoverViolations | app/privilege_manifest.py:2365-2396 | the whole guard: all refusals in order, or the error of the first part that raises |
| GuardExactness.BaselineExact | app/privilege_manifest.py:1895-1936 | no baseline refusal exactly when every total matches |
| GuardExactness.ObjectExact | app/privilege_manifest.py:2053-2106 | no object refusal exactly when every manifest object is seen intact and uniquely |
| GuardExactness.ExpectedExact | app/privilege_manifest.py:2109-2165 | no privilege refusal on listed rows exactly when each is held directly, given intact objects |
| GuardExactness.ExtraExact | app/privilege_manifest.py:2167-2197 | no refusal on unlisted privileges exactly when all lie in preserved scopes whose counts match |
| GuardExactness.RoleExact | app/privilege_manifest.py:2200-2237 | no escalation refusal exactly when no forbidden membership or attribute was seen |
| GuardExactness.OwnershipExact | app/privilege_manifest.py:2238-2255 | no ownership refusal exactly when every recorded owner is still the owner |
| GuardExactness.LegacyExact | app/privilege_manifest.py:2342-2362 | no legacy refusal exactly when the legacy role holds nothing in module storage outside the allowlist |
| GuardExactness.DenialExact | app/privilege_manifest.py:2258-2339 | no denial refusal exactly when every denied relation is probed and unreachable at table and column level |
| GuardExactness.FunctionExact | app/privilege_manifest.py:1939-2050 | no function refusal exactly when every denied function is sealed against tenant role and PUBLIC and open to its executor |
| GuardExactness.GuardDecidesAdmissible | app/privilege_manifest.py:1895-2396 | the guard returns no refusal exactly when every declarative fact above holds, for every manifest and snapshot |
| GuardExactness.SkipsHideNothing | app/privilege_manifest.py:2109-2165 | in an accepted snapshot every granted row is directly held and its object present in the last observation, so neither skip hides a failure; a manifest that both grants and denies one identity is never accepted |
| GuardReading.ObjectRead | app/privilege_manifest.py:2053-2063 | an object is judged by the latest entry that names it |
| GuardReading.PrivilegeRead | app/privilege_manifest.py:2109-2135 | of the answers about the target the latest counts, and none about an object some denied row names |
| GuardReading.TableAnswerRead | app/privilege_manifest.py:2258-2292 | of the answers about a denied relation the latest of the target role counts |
| GuardReading.ColumnAnswerRead | app/privilege_manifest.py:2258-2292 | the same for its columns |
| GuardReading.ExecuteAnswerRead | app/privilege_manifest.py:1939-1990 | of the answers about one function and role the latest counts |
| GuardReading.ScopeRead | app/privilege_manifest.py:2167-2197 | a preserved schema counts as the latest exclusion of the preserving kind records |
| GuardMembers.BaselineMembers | app/privilege_manifest.py:1895-1936 | every section total and every denial total that moved is reported, the count of the rows and the reviewed number each in its place, and nothing else is |
| GuardMembers.ObjectMembers | app/privilege_manifest.py:2053-2106 | every wrong object is reported at its first row, with everything that is wrong with it, and nothing else is |
| GuardMembers.ExpectedMembers | app/privilege_manifest.py:2109-2165 | every listed privilege of an object that is there is reported when it has no answer, is not held or not held directly, and nothing else is |
| GuardMembers.PrivilegeMembers | app/privilege_manifest.py:2109-2197 | an unlisted privilege that names no schema stops the guard, the first one in order; else the listed ones, the unlisted ones outside preserved schemas and the preserved counts are all judged |
| GuardMembers.RoleMembers | app/privilege_manifest.py:2200-2237 | every escalating membership and every attribute of either role is reported, and nothing else is |
| GuardMembers.OwnerMembers | app/privilege_manifest.py:2238-2255 | an object is reported exactly when the first of its rows that records an owner records another than the one seen |
| GuardMembers.LegacyMembers | app/privilege_manifest.py:2342-2362 | every privilege of the retired role in module storage outside the allowlist is reported, and nothing else is |
| GuardMembers.DenialMembers | app/privilege_manifest.py:2258-2339 | for any manifest and snapshot a refusal is among the denial refusals exactly when some denied relation has a table privilege unanswered or held, or a column privilege unprobed or held on a column, table and column checks judged independently |
| GuardMembers.FunctionMember | app/privilege_manifest.py:1939-2050 | for every denied function and wanted role the refusal drawn by its answer, and nothing else |
| GuardOrder.DenialsOrdered | app/privilege_manifest.py:2258-2339 | the denial refusals come by relation, tables before columns, in the order of the privileges, each once |
| GuardOrder.ObjectsOrdered | app/privilege_manifest.py:2053-2106 | the object refusals come in the order of the first rows, each once |
| GuardOrder.BaselineOrdered | app/privilege_manifest.py:1895-1936 | section totals in section order, then denial totals by name, each once |
| GuardVerdict.VerdictStops | app/privilege_manifest.py:2365-2396 | the guard raises exactly for an unlisted privilege that names no schema or a denied function in an unknown section, the former first |
| GuardVerdict.VerdictMembers | app/privilege_manifest.py:2365-2396 | however many things are wrong at once, the verdict holds exactly the refusals they draw |
| GuardVerdict.VerdictInOrder | app/privilege_manifest.py:2365-2396 | the parts of the verdict come in order, and when nothing was observed twice every refusal comes once |
| CleanSnapshots.BuildCleanSnapshot | app/privilege_manifest.py:2403-2547 | the loops build the synthetic clean observation; an undeclared executor raises |
| CleanSnapshots.PaddedInjective | app/privilege_manifest.py:2403-2547 | the zero-padded names of preserved privileges differ for different numbers, beyond 999 too |
| CleanSnapshots.CleanUnlisted | app/privilege_manifest.py:2403-2547 | in each preserved scope exactly the counted synthetic privileges are unlisted |
| CleanSnapshots.CleanIsSound | app/privilege_manifest.py:2403-2547 | the clean snapshot of a well-formed manifest meets every fact besides the baselines |
| CleanSnapshots.CleanSnapshotIsClean | app/privilege_manifest.py:2365-2547 | the guard on it returns exactly the baseline refusals |
| CleanContents.ObjectsHeld | app/privilege_manifest.py:2411-2427 | the clean observation holds every object once, as its first row describes it |
| CleanContents.PrivilegesHeld | app/privilege_manifest.py:2428-2456 | it holds directly what the rows list that are not denied, and the synthetic privileges of the preserved schemas up to their counts |
| CleanContents.RolesHeld | app/privilege_manifest.py:2536-2541 | both roles are observed without attributes and without memberships |
| CleanContents.LegacyHeld | app/privilege_manifest.py:2457-2471 | the retired role holds what the rows of module storage list |
| CleanContents.DenialsHeld | app/privilege_manifest.py:2472-2492 | every table privilege of every denied relation is answered: not held |
| CleanContents.ColumnsHeld | app/privilege_manifest.py:2493-2503 | every column privilege of it is probed and held on no column |
| CleanContents.ExecutesHeld | app/privilege_manifest.py:2504-2536 | the target and PUBLIC may not execute a denied function, its executor may |
| Sensitivity.GrantedAnswerSeenOnce | app/privilege_manifest.py:2109-2197 | withdrawing a granted privilege, or giving it another origin, adds exactly one refusal to any otherwise accepted snapshot |
| Sensitivity.PreservedLossSeenOnce | app/privilege_manifest.py:2167-2197 | losing one preserved privilege adds exactly the refusal that its scope counts one less |
| Sensitivity.OwnerMoveSeenOnce | app/privilege_manifest.py:2238-2255 | a moved owner adds exactly one refusal |
| Sensitivity.VanishSeenOnce | app/privilege_manifest.py:2053-2165 | a vanished object adds exactly one refusal, however many privileges are listed on it |
| Sensitivity.DeniedHeldSeenOnce | app/privilege_manifest.py:2258-2339 | any one denied table privilege held adds exactly one refusal |
| Sensitivity.ExecuteFlipSeenOnce | app/privilege_manifest.py:1939-2050 | turning one effective EXECUTE answer round adds exactly one refusal |
| RoleSensitivity.MembershipSeenOnce | app/privilege_manifest.py:2208-2223 | a membership gained by the tenant role, or by the retired one in either, adds exactly one refusal |
| RoleSensitivity.AttributeSeenOnce | app/privilege_manifest.py:2224-2236 | a role found to bypass row security, or to be a superuser, adds exactly one refusal |
| RoleSensitivity.LegacyGainSeenOnce | app/privilege_manifest.py:2342-2362 | a module privilege gained by the retired role outside the allowlist adds exactly one refusal |
| RoleSensitivity.KindChangeSeenOnce | app/privilege_manifest.py:2053-2106 | an object of another kind adds exactly one refusal |
| AnswerSensitivity.MissingAnswerSeenOnce | app/privilege_manifest.py:2109-2165 | a listed privilege without an answer adds exactly one refusal |
| AnswerSensitivity.MissingObjectSeenOnce | app/privilege_manifest.py:2053-2106 | an object nobody looked at adds exactly one refusal |
| AnswerSensitivity.MissingDenialSeenOnce | app/privilege_manifest.py:2258-2339 | a table privilege of a denied relation without an answer adds exactly one refusal |
| AnswerSensitivity.MissingExecuteSeenOnce | app/privilege_manifest.py:1939-2050 | a wanted role without an EXECUTE answer adds exactly one refusal |
| AnswerSensitivity.AddedPrivilegeSeenOnce | app/privilege_manifest.py:2167-2197 | a privilege nobody listed adds exactly one refusal: its own, or that its preserved schema counts one more |
| NegativeControl.LostPrivilegeIsCaught | app/privilege_manifest.py:2365-2547 | on the clean snapshot a lost privilege is one refusal more |
| NegativeControl.IndirectPrivilegeIsCaught | app/privilege_manifest.py:2365-2547 | on the clean snapshot an origin other than direct is one refusal more |
| NegativeControl.LostPreservedPrivilegeIsCaught | app/privilege_manifest.py:2365-2547 | on the clean snapshot each synthetic preserved privilege, lost, is one refusal more |
| NegativeControl.MovedOwnerIsCaught | app/privilege_manifest.py:2365-2547 | on the clean snapshot a moved owner is one refusal more |
| NegativeControl.VanishedObjectIsCaught | app/privilege_manifest.py:2365-2547 | on the clean snapshot a vanished object is one refusal more |
| NegativeControl.DeniedAccessIsCaught | app/privilege_manifest.py:2365-2547 | on the clean snapshot a denied privilege held is one refusal more |
| NegativeControl.TurnedExecuteIsCaught | app/privilege_manifest.py:2365-2547 | on the clean snapshot a turned EXECUTE answer is one refusal more |
| RoleSensitivity.MembershipIsCaught | app/privilege_manifest.py:2365-2547 | on the clean snapshot a membership gained is one refusal more |
| RoleSensitivity.AttributeIsCaught | app/privilege_manifest.py:2365-2547 | on the clean snapshot an attribute gained is one refusal more |
| RoleSensitivity.LegacyGainIsCaught | app/privilege_manifest.py:2365-2547 | on the clean snapshot a module privilege of the retired role is one refusal more |
| RoleSensitivity.KindChangeIsCaught | app/privilege_manifest.py:2365-2547 | on the clean snapshot a moved kind is one refusal more |
| AnswerSensitivity.MissingAnswerIsCaught | app/privilege_manifest.py:2365-2547 | on the clean snapshot a missing answer for a granted row is one refusal more |
| AnswerSensitivity.MissingObjectIsCaught | app/privilege_manifest.py:2365-2547 | on the clean snapshot a missing object is one refusal more |
| AnswerSensitivity.MissingDenialIsCaught | app/privilege_manifest.py:2365-2547 | on the clean snapshot a missing answer on a denied relation is one refusal more |
| AnswerSensitivity.MissingExecuteIsCaught | app/privilege_manifest.py:2365-2547 | on the clean snapshot a missing EXECUTE answer is one refusal more |
| AnswerSensitivity.AddedPrivilegeIsCaught | app/privilege_manifest.py:2365-2547 | on the clean snapshot an unlisted privilege is one refusal more |
| ColumnSensitivity.DeniedColumnsSeenOnce | app/privilege_manifest.py:2258-2339 | columns held on a denied relation, or no column probed, adds exactly one refusal |
| ColumnSensitivity.DeniedColumnsAreCaught | app/privilege_manifest.py:2365-2547 | the same on the clean snapshot |
| Signatures.Normalize | app/privilege_manifest.py:554-561 | whitespace, case, array suffixes and the length modifier are normalized as specified |
| Signatures.Split | app/privilege_manifest.py:564-580 | the depth-counting loop splits at top-level commas only |
| Signatures.ReduceArgument | app/privilege_manifest.py:583-621 | one argument is reduced to its known type, with or without a leading name |
| Signatures.NameAndIdentityArguments | app/privilege_manifest.py:583-621 | name and type list, or the refusal of the first argument that is no known type |
| Signatures.SplitOfJoin | app/privilege_manifest.py:564-580 | splitting joined balanced pieces gives the pieces back |
| Signatures.ArgumentParsesBack | app/privilege_manifest.py:554-621 | a printed argument with any mode, name, modifier, single spaces inside it included, and array suffix reduces to its type |
| Signatures.SignatureParsesBack | app/privilege_manifest.py:583-621 | a printed signature of any number of arguments parses back to its name and type list |
| Signatures.IdentityIsTheTypeList | app/privilege_manifest.py:583-637 | two signatures of one name get one identity exactly when their type lists agree |
| Signatures.KnownTypesAreSound | app/privilege_manifest.py:519-551 | the shipped type names meet the condition this rests on: none is a proper token suffix of another or begins with a mode |
| SignatureReading.SplitExactly | app/privilege_manifest.py:564-580 | for every text the arguments are what stands between the commas outside all parentheses, stripped, in order, less what is empty |
| SignatureReading.ArgumentExactly | app/privilege_manifest.py:583-621 | an argument of plain words is its words behind the mode, or less the first of these, whichever is a known type, and unknown otherwise |
| SignatureReading.BracketsDoNotMatter | app/privilege_manifest.py:554-561 | for every text array brackets behind it, glued or apart, leave the normalized type as it was |
| SignatureReading.SpacedModifierGoes | app/privilege_manifest.py:554-561 | a length modifier behind a space goes like one that is glued on |
| SignatureReading.ParseExactly | app/privilege_manifest.py:583-621 | a signature is read exactly when it ends in a parenthesis, has a name before the first one and every argument is a known type; one unknown argument refuses the whole |
| ManifestGenerator.ManifestFromCensus | app/privilege_manifest.py:919-1193 | the generator: its refusals in order, then the sorted rows and the exclusions |
| ManifestGenerator.CollectRows | app/privilege_manifest.py:960-1170 | usage, relation, sequence and function rows gathered with the first refusal kept |
| GeneratorFacts.AcceptanceExact | app/privilege_manifest.py:919-1193 | generation succeeds exactly when grants are direct, schemas settled, kinds unique, planes declared, sequences off the control plane, and functions definer, parseable and declared |
| ManifestRefusals.RefusalExactly | app/privilege_manifest.py:919-1193 | a census that is refused is refused for the first reason in the order of the steps: a grant that is not direct, all unsettled schemas, the least relation with two kinds or no plane, the first sequence, the first function |
| ManifestContents.RelationsKept | app/privilege_manifest.py:984-1085 | identity, schema, name, privilege, kind and owner of the relation rows are, as a multiset, those of the census entries |
| ManifestContents.SequencesKept | app/privilege_manifest.py:1086-1116 | the same for the sequences, with their own privilege |
| ManifestContents.FunctionsKept | app/privilege_manifest.py:1117-1185 | the same for the functions: the name and argument types of the signature, EXECUTE and the owner |
| ManifestContents.SchemasKept | app/privilege_manifest.py:960-983 | every distinct usage schema once, with USAGE, and no other |
| ManifestContents.RowsDecided | app/privilege_manifest.py:984-1185 | plane, declarer and permitted principals of a row are those the declarations give, the permitted executor of a function that of the contract, and section and disposition follow from the plane |
| ManifestContents.RowsInOrder | app/privilege_manifest.py:919-1193 | the rows come by section, identity and privilege |
| ManifestContents.ExclusionsKept | app/privilege_manifest.py:1196-1232 | one preserving exclusion for each entry of the reverse gap with its own count, by schema |
| GeneratorFacts.RowsAreConserved | app/privilege_manifest.py:919-1193 | each distinct usage schema and each relation, sequence and function entry becomes exactly one manifest row, and nothing else does |
| GeneratorFacts.RowsAreImages | app/privilege_manifest.py:919-1193 | a row is in the manifest exactly when it is the image of a census entry |
| GeneratorFacts.OrderIsIrrelevant | app/privilege_manifest.py:919-1193 | reordering the census lists gives the same manifest when sort keys tell rows apart |
| GeneratorFacts.DenialsFollowThePlane | app/privilege_manifest.py:776-800 | a relation is denied exactly when the resolver says control plane, a function always, nothing else ever: each denial has exactly one guard |
| GrantScript.RenderGrantSql | app/privilege_manifest.py:1545-1690 | the grant file line by line, or the refusal: the first row of an unknown section, else all denied identities together, else the first row in order that cannot be stated |
| GrantScript.AppliedExactly | app/privilege_manifest.py:1552-1571 | running statements adds exactly the named privileges to the rows' own roles |
| GrantScript.GrantOrderIsIrrelevant | app/privilege_manifest.py:127-143 | two scripts with the same rows, in any order and number, reach one state |
| GrantScript.ScriptGrantsItsRows | app/privilege_manifest.py:1653-1690 | running the rendered file in a database with transactions commits exactly the grants of its rows |
| GrantScript.OneTransaction | app/privilege_manifest.py:1669-1690 | one begin precedes and one commit follows all statements, of which there is one for each row, in the order of the rows |
| GrantScript.NothingBeforeTheCommit | app/privilege_manifest.py:1669-1690 | run in a database with transactions, no proper prefix of the file changes what is committed |
| GrantScript.FileTellsItsRows | app/privilege_manifest.py:1669-1690 | headings and statements together give section, identity and kind of every row back: a section is named where it begins and an object where it begins |
| CutoverEndToEnd.GeneratedDispositions | app/privilege_manifest.py:919-1193 | with no dot or parenthesis in schema names no generated identity is both granted and denied |
| CutoverEndToEnd.DottedSchemasCollide | app/privilege_manifest.py:628-629 | with a dot in a schema name two relations can share an identity, so that condition is needed |
| CutoverEndToEnd.GrantsReachEquivalence | app/privilege_manifest.py:127-143 | when the census entries are exactly the difference between the roles, then after the routine rows in any order and number the target holds what it held plus what the source holds less exactly the denied rows, and no other role changes |
| CutoverEndToEnd.RenderedFileGrants | app/privilege_manifest.py:802-804 | the rendered file of the routine rows reaches the same state |
| CutoverEndToEnd.GeneratedSurvivesPayload | app/privilege_manifest.py:1491-1532 | every generated manifest is read back from its payload unchanged |
| CutoverEndToEnd.GeneratedIsWellFormed | app/privilege_manifest.py:919-1193 | a generated manifest meets what the negative control asks, under conditions on census and contract only |
| CutoverEndToEnd.CutoverIsAccepted | app/privilege_manifest.py:2365-2396 | end to end: census of the exact difference, generated, granted, faithfully observed, and the guard has nothing to say beyond the baseline counts |
| CutoverExample.CutoverCanSucceed | app/privilege_manifest.py:919-2396 | one census, database and observation, with a grant, a denied relation, a denied function and a preserved privilege, meet every condition of that result at once |
| ManifestPayload.JoinedSections | app/privilege_manifest.py:733-734 | joining the sections of ordered rows in section order gives the rows back |
| ManifestPayload.PayloadRoundTripExact | app/privilege_manifest.py:1491-1532 | a manifest comes back from its payload exactly when its rows are in key order and in known sections |
| ManifestPayload.SectionsTell | app/privilege_manifest.py:1491-1507 | each section of the payload holds exactly its rows in their order, and counts them |
| ManifestPayload.ReadingSettles | app/privilege_manifest.py:1510-1532 | whatever a well-sectioned payload held, what is read round-trips from then on |
| RoleAuthority.Closure | app/migration_authority.py:383-396 | the recursive query ends on every finite graph, cycles included, with exactly the pairs some membership walk connects |
| RoleAuthority.Scan | app/migration_authority.py:378-459 | the statement returns exactly the session, system-user, subject and membership rows of the catalog, ordered by kind, subject and target and, role names being unique, none twice |
| RoleAuthority.ObservationFromRows | app/migration_authority.py:466-510 | rows become one observation, later rows winning; no session row is an error and nothing else is |
| RoleAuthority.ScanIsRead | app/migration_authority.py:378-510 | every ordering of the scan is read back as the catalog says |
| RoleAuthority.AuthenticationViolations | app/migration_authority.py:548-610 | identity and system-user findings, skipped as the policy says |
| RoleAuthority.DirectAttributeViolations | app/migration_authority.py:613-642 | required attributes of the present subjects in sorted order |
| RoleAuthority.MembershipViolations | app/migration_authority.py:645-680 | forbidden edges in sorted order with their reasons |
| RoleAuthority.RoleAuthorityViolations | app/migration_authority.py:526-545 | the three parts in order |
| RoleAuthority.MembershipExact | app/migration_authority.py:378-459 | the membership refusals name exactly the forbidden roles a walk from a policy subject reaches, with reasons, and direct exactly when one grant does it |
| RoleAuthority.MembershipOnce | app/migration_authority.py:645-680 | the membership refusals ascend by subject and target, and each forbidden pair is reported exactly once |
| RoleAuthority.DirectExactly | app/migration_authority.py:613-642 | a direct finding is reported exactly for a policy subject that was observed and a required attribute whose value differs, with the required value, several per subject included; each once, by subject and then attribute |
| RoleAuthority.DirectOverCatalog | app/migration_authority.py:378-642 | the same said of the catalog the observation was read from |
| RoleAuthority.ReasonsExactly | app/migration_authority.py:645-680 | the reasons of a forbidden edge are its forbidden attributes in order and the forbidden role, each once |
| RoleAuthority.AuthenticationExactly | app/migration_authority.py:548-610 | which identity and system-user findings are reported, both at once included |
| RoleAuthority.VerdictMembers | app/migration_authority.py:526-680 | a finding is in the verdict exactly when one of the three parts calls for it |
| RoleAuthority.VerdictInOrder | app/migration_authority.py:526-545 | authentication before attributes before memberships |
| RoleAuthority.RefusalTellsThePair | app/migration_authority.py:645-680 | two membership refusals that read the same are of one pair |
| RoleAuthority.VerdictExact | app/migration_authority.py:526-680 | the verdict is empty exactly when authentication matches, every present subject has the required attributes, and no walk reaches a forbidden role |
| RoleAuthority.OneReadingTwoPolicies | app/migration_authority.py:309-352 | when both policies accept one reading no runtime role reaches the migration executor by any walk |
| FiscalPeriods.VisitMonth | scripts/backfill_inventory_gl_postings.py:181-238 | one month: leave, open and record, or create, whichever covering period the query returns |
| FiscalPeriods.PrepareOrganization | scripts/backfill_inventory_gl_postings.py:177-238 | the month counters visit each month of the range once and end |
| FiscalPeriods.PreparePeriods | scripts/backfill_inventory_gl_postings.py:143-248 | over all organizations: every change is a recorded opening with the true status, each period recorded at most once, missing months created once, fiscal years with them |
| FiscalPeriods.PrepareInventoryFiscalPeriods | scripts/backfill_inventory_gl_postings.py:143-248 | the same for every status that does not accept postings |
| FiscalPeriods.PrepareFiscalPeriods | scripts/backfill_gl_postings.py:149-255 | the same for the two closed statuses, remembering identifiers only |
| FiscalPeriods.RestoreInventoryFiscalPeriods | scripts/backfill_inventory_gl_postings.py:251-264 | each period gets the status of the last record about it |
| FiscalPeriods.RestoreFiscalPeriods | scripts/backfill_gl_postings.py:258-269 | each named period that is still open becomes hard-closed |
| FiscalPeriods.EveryMonthIsPostable | scripts/backfill_inventory_gl_postings.py:184-202 | after the inventory preparation every month has a covering period that accepts postings |
| FiscalPeriods.FutureMonthIsNotPostable | scripts/backfill_gl_postings.py:195-202 | after the general preparation a month may be left with a future period only |
| FiscalPeriods.MonthlyPeriodIsItsMonth | scripts/backfill_inventory_gl_postings.py:181-183 | a created period holds exactly the days of its month |
| FiscalPeriods.MonthsMeet | scripts/backfill_inventory_gl_postings.py:181-183 | counted in days of the Gregorian calendar, every month ends on the day before the next begins, February included |
| FiscalPeriods.InventoryRoundTrip | scripts/backfill_inventory_gl_postings.py:143-264 | restoring gives every initial period its first status back, whatever happened to the recorded ones meanwhile |
| FiscalPeriods.InventoryPeriodsAroundBackfill | scripts/backfill_inventory_gl_postings.py:431-449 | prepare then restore leaves every initial status as it was |
| FiscalPeriods.GeneralRestoresExactly | scripts/backfill_gl_postings.py:149-269 | the general backfill restores a status exactly unless it opened a soft-closed period |
| FiscalPeriods.OpenedExactly | scripts/backfill_gl_postings.py:187-202 | without overlapping periods a closed period is opened exactly when it covers a month of the range |
| FiscalPeriods.GeneralRoundTripExact | scripts/backfill_gl_postings.py:149-269 | all statuses come back exactly when no soft-closed period covers a month of the range |
| InventoryBackfill.Attempt | scripts/backfill_inventory_gl_postings.py:280-309 | one transaction under its savepoint: its writes if it succeeds, no trace otherwise |
| InventoryBackfill.ProcessBatch | scripts/backfill_inventory_gl_postings.py:267-337 | durable are exactly the successes whose next commit point succeeds, a zero-cost fiftieth item being none; the totals count what was reported |
| InventoryBackfill.EveryTransactionIsCounted | scripts/backfill_inventory_gl_postings.py:332-337 | posted, failed and skipped add up to the total |
| InventoryBackfill.TotalsExactly | scripts/backfill_inventory_gl_postings.py:276-337 | posted and failed count the transactions that cost something by their outcome, skipped those without a cost or with cost zero |
| InventoryBackfill.DurableExactly | scripts/backfill_inventory_gl_postings.py:276-330 | a transaction is durable exactly when it costs something, succeeded, and the first commit due behind it succeeds: behind a fiftieth transaction that was attempted, or at the end |
| InventoryBackfill.SuccessesAreDurable | scripts/backfill_inventory_gl_postings.py:267-337 | when commits succeed the durable writes are exactly those of the reported successes |
| InventoryBackfill.FailureDisturbsNothing | scripts/backfill_inventory_gl_postings.py:280-309 | however one transaction fails the others keep exactly what they had |
| InventoryBackfill.RefusedCommitLosesItsBlock | scripts/backfill_inventory_gl_postings.py:276-330 | a refused commit takes along exactly its block, wherever skipped boundaries moved that |
| InventoryBackfill.SelectAcrossOrganizations | scripts/backfill_inventory_gl_postings.py:377-393 | all organizations together select the smaller of the budget and what is open, earlier ones first |
| GlBackfill.ProcessBatch | scripts/backfill_gl_postings.py:458-510 | durable are exactly the records that did not raise, with no raise after them before the next fiftieth record, whose commit succeeds |
| GlBackfill.DurableAtMostReported | scripts/backfill_gl_postings.py:458-510 | the ledger never holds more posts than reported |
| GlBackfill.TotalsExactly | scripts/backfill_gl_postings.py:458-510 | only a record that raises counts as failed; one that answers false counts neither way |
| GlBackfill.DurableExactly | scripts/backfill_gl_postings.py:458-510 | the writes of a record are durable exactly when nothing raises from it up to the first commit due behind it, and that succeeds |
| GlBackfill.NothingLostExactly | scripts/backfill_gl_postings.py:467-469 | with successful commits no success is lost exactly when no record raises later in the block of a success; the docstring claims it always |
| GlBackfill.FailureCascades | scripts/backfill_gl_postings.py:467-469 | a success followed by a failure is counted and lost |
| GlChunkLoop.RunChunks | scripts/backfill_gl_postings.py:808-859 | the first chunks of any run, however many, ending or not, with commits that fail and records that change their behaviour from chunk to chunk: what is committed, what stays missing, and whether the loop has ended |
| GlChunkRun.ChunkLeaves | scripts/backfill_gl_postings.py:808-859 | a chunk leaves the queue in its order less exactly the records of the chunk whose posts it made durable, whatever commits and records do |
| GlChunkRun.EndsExactly | scripts/backfill_gl_postings.py:848-859 | the loop ends behind a chunk exactly when that is empty or short or every record of it raised |
| GlChunkRun.NoRecordIsLost | scripts/backfill_gl_postings.py:808-859 | over any number of chunks each record is still missing or was taken out, once |
| GlChunkRun.OrderIsKept | scripts/backfill_gl_postings.py:808-859 | and what is still missing stands in its old order |
| GlChunkLoop.LoopEndsExactly | scripts/backfill_gl_postings.py:808-859 | with steady records and commits some number of chunks ends that loop exactly when it never gets stuck, and as many chunks as records are missing, and one, then suffice |
| GlChunkLoop.TerminatesExactly | scripts/backfill_gl_postings.py:808-859 | the loop ends exactly when it never meets a chunk that continues it without a durable post, and then within as many chunks as records are missing |
| GlChunkLoop.QuietTerminatesExactly | scripts/backfill_gl_postings.py:808-859 | when nothing raises it ends exactly when fewer records than a chunk answer false, and then leaves only those missing |
| GlChunkLoop.BatchLoss | scripts/backfill_gl_postings.py:458-510 | a batch leaves at most the records that answer false missing, and fifty more for each one that raises |
| GlChunkLoop.FewHoldupsTerminate | scripts/backfill_gl_postings.py:808-859 | the loop ends when a chunk holds more records than the queue has answering false plus fifty for each that raises |
| GlChunkLoop.HoldupsThatFillLoopForever | scripts/backfill_gl_postings.py:808-859 | it never ends when the records that never post fill a chunk and one in the first chunk answers false |
| GlChunkLoop.OneFailureLoopsForever | scripts/backfill_gl_postings.py:848-856 | a success followed by a failure in a full chunk loops for ever |
| GlChunkLoop.DurablePostsEndTheLoop | scripts/backfill_gl_postings.py:808-859 | with failing commits and changing outcomes too, durable progress in every continuing chunk ends the loop |
| IdempotentOps.RunGuarded | alembic/idempotent_ops.py:65-92 | one guarded operation: swallowed or raised, the transaction is never left aborted and a failed operation changes nothing |
| IdempotentOps.RunMigration | alembic/idempotent_ops.py:65-92 | a script of guarded operations up to the first that raises |
| IdempotentOps.GuardedMeans | alembic/idempotent_ops.py:24-92 | a guarded operation is create-if-absent or drop-if-present, native form or not, and raises exactly when it adds to a missing table |
| IdempotentOps.SwallowedExactly | alembic/idempotent_ops.py:24-62 | an exception is swallowed exactly when the driver reports a duplicate to a create or a missing object to a drop, by SQLSTATE or, without one, by the older code |
| RerunConvergence.CellFollows | alembic/idempotent_ops.py:65-92 | a script acts on each part of each table on its own |
| RerunConvergence.CellRejoinsExactly | alembic/idempotent_ops.py:1-7 | a part comes back as in a clean run exactly when the script is no trap for it |
| RerunConvergence.RerunConvergesExactly | alembic/idempotent_ops.py:1-7 | running a script after any prefix of itself reaches the clean run's schema exactly when no part is trapped: dropped before its new table is created and never settled again |
| RerunConvergence.RerunRaisesExactly | alembic/idempotent_ops.py:1-7 | the second run raises exactly when it adds to a table the first run dropped and nothing creates in between |
| RerunConvergence.DropBeforeCreateDiverges | alembic/idempotent_ops.py:1-7 | two guarded statements whose second run differs from the first |
| LogPipeline.Pipeline.Submit | app/monitoring.py:256-263 | a full queue drops the record, otherwise it is queued; the producer never waits |
| LogPipeline.Pipeline.BeginEmit | app/monitoring.py:197-205 | inside the delay the record is dropped without an attempt |
| LogPipeline.Pipeline.HandleFailure | app/monitoring.py:227-239 | the delay doubles up to the cap; computing it overflows from the 1024th failure in a row |
| LogPipeline.Pipeline.FinishEmit | app/monitoring.py:207-239 | success resets the failures; an error reply handled inside the try block is handled again when the delay overflows |
| LogPipeline.NothingIsLost | app/monitoring.py:197-263 | over every interleaving submitted = queued + in flight + sent + dropped as multisets, and what was sent keeps its order |
| LogPipeline.AttemptedExactlyWhenDue | app/monitoring.py:197-239 | over every run a record in hand is attempted exactly when no failure came since the last success or the time of the last failure plus min(2^n, 120) seconds for n failures in a row has passed |
| LogPipeline.DroppedExactly | app/monitoring.py:197-263 | over every run the dropped records are exactly those submitted to a full queue, those whose turn came before that time, and those of a failed attempt that did not end the listener |
| LogPipeline.FailuresAreSpaced | app/monitoring.py:197-239 | no attempt before its time, and the n-th failed attempt in a row at least the sum of the first n - 1 delays after the first |
| LogPipeline.DelaysInClosedForm | app/monitoring.py:121-122 | that sum is 126 + 120 (n - 7) seconds from the seventh attempt on |
| LogPipeline.ListenerDiesExactly | app/monitoring.py:227-230 | the listener dies exactly with the 1024th failure in a row, at least 122166 seconds after the first |
| LogPipeline.DeadForGood | app/monitoring.py:287-292 | after that nothing is sent: the queue fills and the rest is dropped |
| InvoiceSearch.FindSingle | scripts/bank_match_suggestions.py:361-364 | first single invoice by gross total |
| InvoiceSearch.FindWithheld | scripts/bank_match_suggestions.py:366-371 | first single invoice by subtotal times ratio, ratio by ratio |
| InvoiceSearch.FindPair | scripts/bank_match_suggestions.py:372-378 | first pair inside the window |
| InvoiceSearch.FindTriple | scripts/bank_match_suggestions.py:380-396 | first triple inside the window |
| InvoiceSearch.FindInvoiceMatches | scripts/bank_match_suggestions.py:355-398 | the first hit under tier and iteration order with its label, or no match exactly when the window holds none |
| InvoiceSearch.FirstHitIsUnique | scripts/bank_match_suggestions.py:355-398 | there is only one such hit |
| InvoiceSearch.HitMeansItsLabel | scripts/bank_match_suggestions.py:343-398 | whatever answer is given its label holds of the invoices it names: gross total, subtotal times the ratio of that label, or the sum of two or three gross totals, within a hundred |
| InvoiceSearch.WindowIsCompleteExactly | scripts/bank_match_suggestions.py:372-398 | no match rules out every one to three invoices by gross total exactly when there are at most five |
| InvoiceSearch.SixInvoicesAreNot | scripts/bank_match_suggestions.py:380-396 | for every six invoices or more a paying triple can be missed |
| InvoiceSearch.PairFoundExactly | scripts/bank_match_suggestions.py:372-378 | among any number of invoices with one paying pair the pair is found exactly when its places are at most five apart |
| InvoiceSearch.TripleFoundExactly | scripts/bank_match_suggestions.py:380-396 | and one paying triple exactly when it begins among the first eight, goes on within four places and ends within three more |
| InvoiceSearch.HitPaysInOrder | scripts/bank_match_suggestions.py:355-398 | an answer by gross totals names invoices in order whose totals add up |
| CustomerMatch.FindLongestNamed | scripts/bank_match_suggestions.py:284-295 | first of the longest names the text contains |
| CustomerMatch.FindHinted | scripts/bank_match_suggestions.py:296-304 | first hint and first customer that match |
| CustomerMatch.FindLargestOverlap | scripts/bank_match_suggestions.py:310-316 | first customer with the largest token overlap |
| CustomerMatch.FindCustomerMatch | scripts/bank_match_suggestions.py:271-326 | each stage is reached only when the earlier ones find nothing; no customer exactly when no stage has a candidate; confidence by overlap |
| CustomerMatch.NamedExactly | scripts/bank_match_suggestions.py:284-295 | a name of more than seven characters counts exactly when the text is something, the name, and something |
| CustomerMatch.HintedExactly | scripts/bank_match_suggestions.py:296-304 | a mentioned hint takes two tokens of the name, or one of a name with at most three |
| FilterPatcher.FindMethodBounds | scripts/add_active_filters.py:351-383 | start and end of the first method of the name |
| FilterPatcher.FindInsertionPoint | scripts/add_active_filters.py:386-426 | the last return, or the dictionary given to the template behind it |
| FilterPatcher.AddToDict | scripts/add_active_filters.py:453-506 | the key once, before the closing brace, with a comma on the line above |
| FilterPatcher.AddImport | scripts/add_active_filters.py:324-348 | the import after the last import unless some form of it is there |
| FilterPatcher.PatchFile | scripts/add_active_filters.py:509-581 | the file after a run; nothing is written, not even the import, when no method is patched |
| PatchPlaces.ImportGoesBehind | scripts/add_active_filters.py:324-348 | without the import a file gains it right behind the last import above the first class, function or logger line, or behind the first line when no import stands there; with it, nothing |
| PatchPlaces.ImportStandsAboveExactly | scripts/add_active_filters.py:330-346 | it stands above that line exactly when the very first line of the file is none |
| PatchPlaces.BoundsExactly | scripts/add_active_filters.py:351-383 | the method is found exactly when some line defines the name: from the first such line up to the next function, class or decorator not deeper than it |
| PatchPlaces.PointExactly | scripts/add_active_filters.py:386-426 | a place is offered exactly when the last return gives a dictionary, or gives a template and one of the lines before it, nearest first and less than forty away, gives that one |
| PatchPlaces.EntryGoesIn | scripts/add_active_filters.py:453-506 | the dictionary gains the entry on its closing line exactly when it closes within a hundred lines and the key is not in it |
| PatchPlaces.CallNamesItsArguments | scripts/add_active_filters.py:429-450 | the lines of a call: parameters first, then labels and options as given |
| PatchPlaces.TargetExactly | scripts/add_active_filters.py:524-549 | a patch has something to do exactly when its method calls no builder yet and offers a place |
| SecondPatch.ImportAndCallsArrive | scripts/add_active_filters.py:509-581 | a file in which some method is patched has the import afterwards and the call of every planned patch |
| GrownLines.LinesSurvive | scripts/add_active_filters.py:509-581 | for any file and any patches all original lines survive in order, each at most gaining a comma, and every other line is the import, an inserted entry or a line of an inserted call |
| PatchedLines.EditInPlace | scripts/add_active_filters.py:453-567 | the insertions of one edit put every line where it belongs |
| PatchedLines.EntryLandsInsideExactly | scripts/add_active_filters.py:479-504 | the entry lands inside the dictionary exactly when its first line leaves a brace open; a one-line dictionary gets it above itself, and the line above gains the comma unless it needs none |
| PatchOrder.InOrderIsAtOnceExactly | scripts/add_active_filters.py:552-567 | for methods that lie apart, editing in place from the last method to the first is applying every edit at its original position exactly when every dictionary that gets an entry closes above the calls of all later methods and the search for its indent finds the same among the lines these were given |
| ApartMethods.PatchedIsAtOnceExactly | scripts/add_active_filters.py:509-581 | the same for the whole run over a file, the import included |
| ApartMethods.OwnIndentIsUndisturbed | scripts/add_active_filters.py:469-504 | that condition holds for a method whose dictionary closes above the later calls and which has a key line of its own there, or eight lines |
| ApartMethods.SearchReadsOn | scripts/add_active_filters.py:467-477 | a file whose methods lie apart and in which the search for the indent reads on into the next, already edited method |
| SecondPatch.BoundsMove | scripts/add_active_filters.py:351-383 | a method of the patched file is the original method, moved |
| SecondPatch.CallFound | scripts/add_active_filters.py:536-541 | a call of the builder found in a method of the patched file was there before, or was put there by the run |
| SecondPatch.PlaceMoves | scripts/add_active_filters.py:386-426 | a method of the patched file offers a place exactly when one is left of its own lines, bare returns that gained a comma not counting |
| SecondPatch.SecondRunExactly | scripts/add_active_filters.py:509-581 | for any file and any patches a second run leaves the file as the first one left it exactly when the first reopened no method: one without a call, old or planned, in which a place is left once bare returns that gained a comma no longer count |
| SecondPatch.SpoiledByAComma | scripts/add_active_filters.py:492-501 | a method is spoiled only by a comma the run put behind a bare return in it |
| SecondPatch.NoBareReturnNothingSpoiled | scripts/add_active_filters.py:509-581 | in a file without a bare return a second run changes nothing |
| SecondPatch.SecondRunCanPatch | scripts/add_active_filters.py:492-501 | a file in which the run puts a comma behind a bare return, so that the second run patches one more method |
| ApartMethods.SpoiledByRunningOn | scripts/add_active_filters.py:480-501 | when the methods lie apart only a dictionary that runs over a bare return below its own method spoils one |
| ApartMethods.SecondRunChangesNothing | scripts/add_active_filters.py:509-581 | when the methods lie apart and no dictionary runs over a bare return below its method, a second run changes nothing |

## Left out

- Refusal wording, operator advice, the `authority` text of declarations and the `reason`, `category`, `notes`, `origin`, `signature` and `denial_reason` texts of rows: a refusal is a tag with identity, privilege and role.
- JSON and SQL as text, and the quoting of identifiers: payloads are trees and statements are records; only the error conditions of quoting are kept.
- Exclusions other than the reverse-gap ones (`app/privilege_manifest.py:1196-1375`): text carried along, with no effect on a verdict.
- CutoverGuard.CutoverViolations: a total or denial count missing from the contract reads as zero, where the code would look it up in constants that name every section.
- ManifestGenerator.ManifestFromCensus: the census is typed, so a missing field or an unreadable file is not modelled.
- CutoverEndToEnd.CutoverIsAccepted: what the census does not record is a hypothesis: no role attribute or membership escalates, denied identities carry no table or column privilege, and the legacy role has no module access outside the allowlist.
- Signatures.NameAndIdentityArguments: letters are folded and spaces recognised for ASCII and the ASCII control separators, not for all of Unicode.
- `app/runtime_admission.py:292-309` and `613-640`: reading the flags from the environment and rendering the report.
- RoleAuthority.Scan: rows are ordered by code points, where the server uses the collation of the database; every result holds for every order.
- The unverified-authentication notice and the parsing of the expected authentication (`app/migration_authority.py:683-728`): one-step texts.
- FiscalPeriods.PreparePeriods: creating a period succeeds, so the uniqueness constraint on fiscal year and period number cannot be violated; identifiers are drawn from a counter.
- InventoryBackfill.ProcessBatch: a transaction's writes are given, not computed; the posting adapter is not part of this model.
- GlChunkLoop.RunChunks: the number of chunks to follow is given, since a method that need not end cannot be stated here; records that start to be missing while the loop runs are not modelled.
- GlChunkLoop.TerminatesExactly: with raising records the exact condition replays the loop, because which successes are lost depends on how the blocks of fifty fall in every chunk; FewHoldupsTerminate and HoldupsThatFillLoopForever read the queue alone, each in one direction.
- IdempotentOps.RunMigration: offline mode without a bind, non-database exceptions of an operation, dependencies between parts of a table, index names shared by tables, and primary keys, whose repetition the server reports under a code that is neither duplicate nor missing.
- LogPipeline.Pipeline.FinishEmit: failures inside the counters, the session reset or the payload formatting count as the push failing or do not occur; health reporting is left out.
- InvoiceSearch.FindInvoiceMatches: amounts are exact reals, so decimal context rounding does not arise.
- CustomerMatch.FindCustomerMatch: tokens, stripped names and acronym mentions are given; the regular expressions and stop words behind them are not modelled.
- FilterPatcher.PatchFile: what a pattern sees of a line is part of the line; reading and writing files, and the dry run, are left out. The parameters, labels and options of a patch are single lines with balanced braces that none of the patcher's patterns match, as those in `scripts/add_active_filters.py:23-320` are.
- Fetching rows, running SQL, argument parsing, logging, CSV output, the web application, and the remaining scripts.
- `app/bill_of_materials.py` and `app/accounting_adoption.py`: finite inventories.
- `app/migration_credential_custody.py`, `app/migration_database_roles.py`, `app/net.py`, `app/rls.py`, `app/tenancy.py`: field-by-field comparisons that would add only easy members.
