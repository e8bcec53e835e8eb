# Verified model of the Lightspeed core

This project models the parts of the Lightspeed stack whose guarantees no single function shows, and proves them.

* **Dependency resolver** (`PyText`, `Versions`, `VersionShapes`, `VersionLaws`, `SpecifierLaws`, `ConstraintLaws`,
  `Packages`, `Indexes`, `WheelLaws`, `IndexLaws`, `Resolution`, `ResolutionInvariant`, `ResolutionTheorems`,
  `Resolver`). The worklist loop over two package indexes is a transition system `Step` with a run `Run`; the class
  `DependencyResolver` runs it on its own fields and on index objects with caches. Soundness, termination, tightening,
  exact provenance of constraints and the meaning of each error are proved about all runs, for texts: versions,
  constraints and wheel tags are parsed here as the script parses them, and what every operator and tag means is proved
  from the text on.
* **Configuration synthesis** (`Yaml`, `DeepMerge`, `VectorIo`, `Enrichment`, `PassLaws`, `PassOrder`, `HighLevel`,
  `HighLevelLaws`, `VectorStores`, `Pipelines`, `ModeEquivalence`, `ByokLaws`, `SolrLaws`, `VectorStoreLaws`, `Writes`,
  `VectorStoreTwice`, `Existence`, `Integrity`, `SynthesisLaws`, `EntryLaws`, `Counterexamples`, `OgxConfig`). Each
  pass is a function from a config tree to a tree or an exception; the class `Config` carries the passes out in place.
  Proved: migration is faithful; library and service mode agree exactly under a stated condition; the Azure and MCP
  passes are idempotent, and the vector_store, BYOK, Solr and high-level passes exactly under stated conditions; each
  pass leaves alone what it does not own; after the whole synthesis providers, models and backends exist exactly as
  stated, and so do those that added rows and defaults refer to; and the algebra of the deep merge. For each of the
  passes a concrete config shows that the condition can fail.
* **Conversation cache** (`Tables`, `ConversationCache`, `CacheLog`). Three keyed tables refine what the log says.
* **PII anonymizer** (`Anonymizer`, `AnonymizerLaws`). Recasing and the merging of the two passes.
* **Prompts** (`Template`, `TemplateLaws`, `PromptStore`, `PromptLog`). Scanning, validation and rendering; all
  reachable states of the store.
* **Reranker** (`Reranker`). Normalisation, blending and stable sorting over the reals.

Where code and documentation disagree the model follows the code:

* After a conflict the log says "falling back to PyPI"; the code asks RHOAI again first (`scripts/konflux_resolve.py:842-853`).
* `~=` departs from PEP 440 for pre-releases of the next series and for prefixes of four or more segments. For versions
  written shorter than the prefix it pads with zeros as the standard does; there it is `==P.*`, matching written segments,
  that departs. `VersionLaws` says exactly how.
* The docstring of `render_template` speaks of rejecting unknown keys; the code ignores them (`src/prompts/template.py:100-127`).
* The module text of the reranker denies blending with original scores; the code blends 30 to 70 (`src/knowledge/reranker.py:83-98`).
* Provider ids are documented as `byok_<vector_db_id>`; the code builds `byok_<rag_id>` (`src/ogx_configuration.py:463-529`).
* BYOK providers name their backend by the stripped rag_id, while backends are stored under the raw one
  (`src/ogx_configuration.py:237-282,463-529`).

The invariant of the resolver speaks of every run, `Resolver.DependencyResolver.Resolve` ties the loop to it, and
`Resolver.BucketsReflectTheIndexes` carries it through classification. The in-place methods of `OgxConfig.Config` are tied to the
pass functions in the same way, so that every law about those functions is a law about the methods.

## Model

| member | source | states |
|---|---|---|
| Versions.VersionSatisfies | scripts/konflux_resolve.py:154-174 | The early-exit loop over the comma-separated specifiers returns the conjunction of all of them, left to right, including which exception comes first; what each of them means is `SpecifierLaws.OperatorsCompareRows` and its neighbours. |
| ConstraintLaws.ClausesOfMerge | scripts/konflux_resolve.py:177-181 | The specifiers of a merged constraint are those of the first part followed by those of the second, whatever blanks and empty parts either text has. |
| ConstraintLaws.MergeIsConjunction | scripts/konflux_resolve.py:154-181 | Checking a merged constraint is checking the first part and then the second, results and exceptions alike, exactly unless the version is unreadable and both parts are blank with the first not empty: then the joined text raises where neither part would. |
| ConstraintLaws.EntailsMeets | scripts/konflux_resolve.py:154-174 | A version that meets a constraint meets every constraint whose specifiers are among its specifiers. |
| ConstraintLaws.MergeTightens | scripts/konflux_resolve.py:177-181 | The merged constraint entails the old constraint and the new specifier. |
| PyText.SplitOfConcat | scripts/konflux_resolve.py:166-172 | Splitting a concatenation around a separator is the concatenation of the splits, for all texts. |
| PyText.AsciiSpaces | scripts/konflux_resolve.py:68-102 | The ASCII characters that `strip` removes are blank, tab, line feed, carriage return, vertical tab, form feed and the four separators. |
| PyText.LowerIsAscii | scripts/konflux_resolve.py:188-193 | Lowering puts the small letter for each of the 26 capitals and leaves every other character. |
| VersionShapes.ParsesExactly | scripts/konflux_resolve.py:40-93 | For every text: it is read as a version exactly if it consists of numbers with dots between them, perhaps a label in any letter case with a separator and a number, perhaps a post mark with its number, and around this blanks, a wildcard and a local suffix; and then it is the version those parts name, labels ranked dev, alpha, beta, candidate, release, missing numbers zero, segments behind the third ignored. |
| VersionLaws.ParseOfText | scripts/konflux_resolve.py:43-93 | `parse_version` inverts the canonical printer for every release, pre-release and post-release: parsing the printed text gives back the three segments, rank, number and post number. |
| SpecifierLaws.OperatorsCompareRows | scripts/konflux_resolve.py:96-174 | From the specifier text on, for every version and bound written out, with any blanks and parentheses around: `<`, `<=`, `>`, `>=`, `==`, `!=` and a bare version hold exactly if the rows of three padded segments, tag rank, tag number and post part stand in that lexicographic relation. |
| SpecifierLaws.OperatorsMean | scripts/konflux_resolve.py:96-174 | The same for every version and bound that can be read, in whatever form they are written. |
| SpecifierLaws.CompatibleMeans | scripts/konflux_resolve.py:96-151 | `~=P.z` from its text on: at most three segments in `P`, the version's row not below that of the bound, and either the padded segments of `P` or a pre-release of `P` with its last segment one up. |
| SpecifierLaws.WildcardMeans | scripts/konflux_resolve.py:96-151 | `==P.*` from its text on: the version is written with the segments of `P`, none of them with a tag right behind it. |
| SpecifierLaws.CompatibleNeedsTwo | scripts/konflux_resolve.py:140-145 | `~=` with a bound of one segment raises an index error, whatever the version. |
| SpecifierLaws.UnknownOperatorRaises | scripts/konflux_resolve.py:96-110 | A specifier that starts with neither an operator nor a digit raises. |
| VersionLaws.CompatibleRelease | scripts/konflux_resolve.py:122-151 | For every canonical version, pre-releases and post-releases included: `~=P.z` holds exactly if `P` has at most three segments, the version is at least the bound, and it either agrees with `P` after padding with zeros or is a pre-release of `P` with its last segment one up. |
| VersionLaws.WildcardPrefix | scripts/konflux_resolve.py:134-137 | For every canonical version: `==P.*` holds exactly if the written segments begin with `P` and none of those carries an alpha, beta or candidate tag right behind it. |
| VersionLaws.CompatibleReleaseIsRangeAndPrefix | scripts/konflux_resolve.py:122-151 | The rule of PEP 440, section "Compatible release" (`~=P.z` is `>=P.z, ==P.*`) holds of the code, on every canonical version and prefix, exactly unless the version is at least the bound and: `P` has more than three segments and is written out in it, or it matches only by padding, or it is a pre-release of the next prefix. |
| VersionLaws.CompatibleAdmitsNextPreRelease | scripts/konflux_resolve.py:122-151 | For all `A`, `B`, `z`, `n`: `A.(B+1)rcn` satisfies `~=A.B.z` though it does not match `==A.B.*`; here the code departs from PEP 440. |
| Packages.NormalizeIsIdempotent | scripts/konflux_resolve.py:188-193 | A normalized name is its own normal form. |
| Packages.NormalizeOfWoven | scripts/konflux_resolve.py:188-193 | A name of words with runs of `-`, `_` and `.` between them becomes the words in lower case with one hyphen for each run. |
| Packages.PinKeyInjective | scripts/konflux_resolve.py:895-898 | The text `name==version` determines name and version when names contain no equals sign, so the visited set tells pins apart. |
| Indexes.BestOfIsHighest | scripts/konflux_resolve.py:550-570 | The version found satisfies the constraint and no listed satisfying version is above it; none is found exactly if none satisfies. |
| Indexes.FittingWheelHasArch | scripts/konflux_resolve.py:483-544 | A wheel judged compatible always matches one of the target architectures, so it is never filed nowhere. |
| WheelLaws.WheelFitsExactly | scripts/konflux_resolve.py:359-416 | For all tags and every target of two written numbers: a wheel fits exactly if some dotted part of its Python tag is `cp` or `py` with the target's major version, or with major and minor version, or its ABI tag has a part `abi3` and some part `cp`, digit, minor version is not newer than the target; and its platform is `any` or `none`, or some part is the Linux tag of one of the architectures or ends in one after an underscore. |
| WheelLaws.BadTargetRaises | scripts/konflux_resolve.py:390-393 | Judging a wheel raises exactly if the target is not written as two whole numbers with a dot between them. |
| WheelLaws.RhoaiOffersTheUsable | scripts/konflux_resolve.py:483-527 | A loaded package has exactly the versions of which its page lists a wheel that fits in this sense. |
| IndexLaws.RhoaiHoldsTheLast | scripts/konflux_resolve.py:483-544 | Under a version and a platform key stands the file name and hash of the last fitting wheel listed for it, and there is one exactly if such a wheel is listed; the key is `any`, or the Linux tag of the first architecture the wheel names. |
| IndexLaws.RhoaiOrder | scripts/konflux_resolve.py:506-527 | RHOAI versions are kept in the order in which fitting wheels first bring them. |
| IndexLaws.PypiTellsTheFiles | scripts/konflux_resolve.py:715-733 | The information on a PyPI version holds the given hashes of its wheels, those of its other files, and the names of its wheels, each in the order of the page. |
| IndexLaws.PypiOrder | scripts/konflux_resolve.py:715-736 | PyPI versions are kept in the order in which the page first lists them. |
| IndexLaws.BestOfIsFirst | scripts/konflux_resolve.py:565-570 | Among equal highest versions the one listed first is found: every satisfying version before it is strictly lower. |
| Indexes.RhoaiVersionsAreTheCompatible | scripts/konflux_resolve.py:483-527 | A version is in the loaded index exactly if the listing knows the package and some wheel of that version fits the target; each such version has a wheel for some architecture. Which wheels fit is `WheelLaws.WheelFitsExactly`. |
| Indexes.PypiVersionsAreTheListed | scripts/konflux_resolve.py:700-736 | The package information lists exactly the versions on the page, and `has_sdist` is set exactly if some listed file of the version is not a wheel. |
| Indexes.RhoaiIndex.EnsureLoaded | scripts/konflux_resolve.py:483-527 | The loop over the page leaves the cache as it was, with the fitting wheels of this package filed under its name if there are any; a target Python version that cannot be read raises and leaves the cache alone, while wheel tags never raise. |
| Indexes.RhoaiIndex.FindBest | scripts/konflux_resolve.py:550-570 | Through the cache the answer is the one a fresh read of the site would give; what that is follows from `WheelLaws.RhoaiOffersTheUsable` and `Indexes.BestOfIsHighest`. |
| Indexes.PypiClient.GetPackageInfo | scripts/konflux_resolve.py:700-736 | Through the cache the answer is the one a fresh fetch would give. |
| Indexes.PypiClient.FindBest | scripts/konflux_resolve.py:774-788 | The best version in the fetched information, independent of what was cached before. |
| Indexes.PypiClient.GetRequiresDist | scripts/konflux_resolve.py:738-772 | The requirements of a release, or nothing if the fetch failed; caching is not visible. |
| Resolution.ChosenIsInUniverse | scripts/konflux_resolve.py:851-893 | Whatever is picked is a name and version that one of the two indexes lists for that name. |
| Resolution.StepDecreases | scripts/konflux_resolve.py:836-919 | One turn of the loop either visits a pin not visited before or leaves the visited set alone and shortens the queue; so `resolve` terminates on every finite pair of indexes. |
| ResolutionInvariant.StartHasInv | scripts/konflux_resolve.py:825-834 | The invariant holds before the first turn, for every list of direct dependencies. |
| ResolutionInvariant.StepKeepsInv | scripts/konflux_resolve.py:836-919 | Every turn keeps the invariant: pins are highest under a constraint weaker than the current one, a pin that violates its constraint is still queued, requirements of every visited version are demanded, and a visited version that is not the pin violates its package's constraint. |
| ResolutionInvariant.ChoiceIsJustified | scripts/konflux_resolve.py:851-893 | A pick is the highest satisfying version of its index, and from PyPI only if no RHOAI version satisfies the constraint. |
| ResolutionInvariant.ChoiceIsUnvisited | scripts/konflux_resolve.py:895-898 | A version that was visited is never picked again, so the early `continue` on the visited set is dead code. |
| ResolutionTheorems.ResolutionIsSound | scripts/konflux_resolve.py:811-921 | When the run ends well: exactly the demanded packages are pinned; each pin is highest in its index under the final constraint; a PyPI pin has no RHOAI version under the final constraint and a fallback reason; every direct dependency and every listed requirement of every pin is met. |
| ResolutionTheorems.RunKeepsPypiPin | scripts/konflux_resolve.py:836-849 | From the moment a package is pinned from PyPI its pin does not change for the rest of the run. |
| ResolutionTheorems.RunTightens | scripts/konflux_resolve.py:906-917 | The constraint of every package at any point is entailed by its constraint at the end of the run. |
| ResolutionTheorems.AbandonedStaysAbandoned | scripts/konflux_resolve.py:836-919 | A version that was pinned and given up is not the pin at the end. |
| ResolutionTheorems.ConstraintsAreWhatWasAsked | scripts/konflux_resolve.py:825-919 | The final packages and specifiers are exactly those asked for by a direct dependency or by a requirement of some version that was pinned at some time; retracted pins still count. |
| ResolutionTheorems.ReasonsAreTrue | scripts/konflux_resolve.py:842-884 | After a run of a fresh resolver every PyPI package has a fallback reason and every reason recorded is true: not listed by RHOAI; listed but with no version meeting the named constraint, which the final one entails; or an RHOAI version given up that violates the named constraint. |
| ResolutionTheorems.ChoiceFailure | scripts/konflux_resolve.py:851-868 | The error for an unresolvable package is raised only if neither index has a version satisfying the named constraint. |
| ResolutionTheorems.StepFailure | scripts/konflux_resolve.py:836-868 | Each error names the offending package, constraint and version truthfully: for a conflict the pin is from PyPI, violates the constraint, and no RHOAI version satisfies it either. |
| ResolutionTheorems.RunFailure | scripts/konflux_resolve.py:811-921 | A failed run fails at a state it reaches in finitely many turns, from which it would fail the same way; that state satisfies the invariant and explains the error. |
| Resolver.DependencyResolver.Pick | scripts/konflux_resolve.py:851-893 | RHOAI is asked first and PyPI only if RHOAI has nothing; the first fallback of a package records why. |
| Resolver.DependencyResolver.HandleFirst | scripts/konflux_resolve.py:836-919 | The loop body on the resolver's own fields computes one step of the transition system, errors included. |
| Resolver.DependencyResolver.Resolve | scripts/konflux_resolve.py:811-921 | The loop returns the pins of the finished run, which are sound, or raises what the run raises; fallback reasons are kept across calls. |
| Resolver.ClassifyPackages | scripts/konflux_resolve.py:929-965 | Each package is in exactly one bucket, unchanged: the RHOAI bucket exactly if RHOAI-sourced, the PyPI wheel bucket exactly if wheel-only or without a source distribution. |
| Resolver.BucketsReflectTheIndexes | scripts/konflux_resolve.py:811-965 | Composition of resolving and classifying: a package is an RHOAI wheel exactly if RHOAI has a version meeting its final constraint, and a PyPI sdist exactly if it is none, is not wheel-only and PyPI lists an sdist of the pinned version. |
| DeepMerge.DeepMergeListReplace | src/ogx_configuration.py:1052-1076 | The recursive loop computes the merge: maps key by key, everything else replaced. |
| DeepMerge.LookupAfterMerge | src/ogx_configuration.py:1052-1076 | What stands at any path after a merge, in terms of what stands there in base and overlay and of whether something that is not a map cuts or covers the path. |
| DeepMerge.MergeIdentity | src/ogx_configuration.py:1052-1076 | The empty mapping is a left and a right identity. |
| DeepMerge.AbsorbedExactly | src/ogx_configuration.py:1052-1076 | Merging `c` over `a` gives `c` exactly if, wherever both are maps, `c` has every key of `a`. |
| DeepMerge.ReapplyIsNoOp | src/ogx_configuration.py:1052-1076 | Applying the same overlay a second time changes nothing, and the result absorbs it: laying the result over the overlay gives the result. |
| DeepMerge.AssociativeExactly | src/ogx_configuration.py:1052-1076 | Merging three trees is associative exactly if no path has maps on both outer sides and something else in the middle, unless the right one has every key of the left one there. |
| SynthesisLaws.AssemblyIsLayered | src/ogx_configuration.py:1487-1545 | For every config: what is assembled before enrichment starts from the profile, from nothing, or from the shipped baseline, without the conditional OpenAI row for `byo-llm`, as the unified section says; it is deduplicated, expanded, and given the MCP runtime unless it started from nothing; and over that lies the native override, path by path: its value where it cuts or covers a path or the base has nothing, the base's where it has nothing, and a mapping where both have one. |
| SynthesisLaws.OverrideReachesTheResult | src/ogx_configuration.py:1455-1571 | In the synthesized config, outside the five sections enrichment writes to: where the native override cuts a path stands what it says, and where it has nothing and leaves the path alone stands what was built from the baseline. |
| SynthesisLaws.EnrichmentKeepsRest | src/ogx_configuration.py:1541-1571 | Enrichment leaves every other top-level section as it was. |
| SynthesisLaws.InputsAreRead | src/ogx_configuration.py:1558-1568 | The passes get their inputs from `azure_entra_id`, `rag.byok.stores`, `rag.retrieval.inline.sources`, `rag.retrieval.tool.sources` and `rag.okp`, with empty ones for those missing. |
| SynthesisLaws.InputsAreReadable | src/ogx_configuration.py:1558-1568 | Reading them raises exactly where something that is no mapping stands on the way. |
| VectorIo.DedupeVectorIoList | src/ogx_configuration.py:205-224 | The loop keeps the first entry of each stripped provider id, keeps entries without an id, and drops what is not a mapping. |
| VectorIo.DedupeLaws | src/ogx_configuration.py:205-224 | The result has distinct ids and the same set of ids, deduplicating again changes nothing, and a list is unchanged exactly if it has distinct ids. |
| Yaml.ScalarTexts | src/ogx_configuration.py:205-224 | `str()` of an id that is no text: `None`, `True`, `False`, and decimal digits with a sign if negative. |
| Yaml.FalsyValues | src/ogx_configuration.py:1487-1543 | The values that count as missing are null, false, zero, and the empty text, list and mapping. |
| Yaml.ContainsExactly | src/ogx_configuration.py:860-868 | Sources given as a text hold `okp` exactly if it stands somewhere in that text. |
| PassOrder.DedupeTwice | src/ogx_configuration.py:227-234 | Deduplicating a config twice is deduplicating it once, errors included. |
| PassOrder.DedupeThenByok | src/ogx_configuration.py:532-571 | A deduplication right before the BYOK pass has no effect on its outcome. |
| PassLaws.ByokIsBlind | src/ogx_configuration.py:532-571 | The BYOK pass neither reads nor writes `providers.inference`: replacing that section before or after it comes to the same. |
| PassLaws.SolrIsBlind | src/ogx_configuration.py:846-1027 | The Solr pass neither reads nor writes `providers.inference`. |
| PassLaws.AzureCommutes | src/ogx_configuration.py:165-197 | The Azure pass commutes with every pass that neither reads nor writes `providers.inference`. |
| VectorStoreLaws.AzureOwnsInference | src/ogx_configuration.py:165-197 | Only `providers.inference` changes; in it, entries of type `remote::azure` get `config.model_validation: false` and nothing else, all others stay as and where they were. |
| VectorStoreLaws.AzureTwice | src/ogx_configuration.py:165-197 | The Azure pass is idempotent. |
| VectorStoreLaws.McpInstalls | src/ogx_configuration.py:1392-1431 | Afterwards the API is listed and the provider is present, nothing is lost from either list, and no other section changes. |
| VectorStoreLaws.McpTwice | src/ogx_configuration.py:1392-1431 | The MCP pass is idempotent. |
| EntryLaws.McpEntryReads | src/ogx_configuration.py:1392-1431 | The provider added has the id, the type and the empty config of the MCP runtime. |
| ByokLaws.ByokSections | src/ogx_configuration.py:532-571 | On success each of the four sections is its rewrite of what the config had there, independent of the other three; every other section, the neighbours of these four inside `storage`, `providers` and `registered_resources` included, is as before. |
| ByokLaws.ByokTwiceExactly | src/ogx_configuration.py:532-571 | Repeating the BYOK pass changes nothing exactly if every declared store id is, as written, among the expanded ids the config had, or is the expansion of a declared id that was not, all expansions of new ids being hashable. |
| ByokLaws.ByokTwice | src/ogx_configuration.py:532-571 | In particular the pass is idempotent where environment substitution leaves the declared store ids alone. |
| ByokLaws.EnvIdIsAddedTwice | src/ogx_configuration.py:318-345 | A store id that is an environment reference is added to an empty config, and added again when the pass is repeated. |
| ByokLaws.AddedBackendExists | src/ogx_configuration.py:237-282 | The storage backend an added faiss provider names exists exactly if it existed before or some store writes as its rag_id, with its blanks, the stripped rag_id in question: names are built from the stripped id on one side and the raw id on the other. |
| ByokLaws.AddedProvidersResolve | src/ogx_configuration.py:463-529 | With trimmed rag_ids every provider the pass adds persists to the shared default or to a backend that exists; the list has distinct ids and begins with the previous entries. |
| Existence.ByokRowsRefer | src/ogx_configuration.py:285-417 | Earlier rows stay. For every vector store row the pass adds: the provider it names exists exactly if the first entry under the stripped id has the id, or there is none and the id is that of some store; the model it names is registered exactly if it was, or some store brings the name. |
| EntryLaws.ByokProvidersAreDeclared | src/ogx_configuration.py:420-529 | Behind the deduplicated earlier entries every provider is one a store declares: of the faiss or the pgvector type by the store's backend, with its persistence, and for pgvector with the store's connection fields or, where these are missing or blank, the environment's. |
| EntryLaws.ByokBackendsAreDeclared | src/ogx_configuration.py:237-282 | Each backend afterwards is that of the last store to name it, with the store's path or one made of its id; any other is as before. |
| EntryLaws.ByokRowsAreDeclared | src/ogx_configuration.py:285-352 | Earlier vector store rows stay, and every row behind them has a store's id, provider, embedding model and dimension. |
| EntryLaws.ByokModelsAreDeclared | src/ogx_configuration.py:355-417 | Earlier model rows stay, and every row behind them is the embedding model of a store: under the name its vector store row uses, with its path without the library prefix, the default one where it names none. |
| SolrLaws.SolrSections | src/ogx_configuration.py:846-1027 | On success each nested section the pass owns is its rewrite of what the config had there; every other one, neighbours included, is as before, `chunk_retrieval_params` too unless a search mode is given; `external_providers_dir` is set if it was missing. |
| SolrLaws.SolrRegistersAll | src/ogx_configuration.py:884-1005 | Afterwards the provider and the vector store are present and no list has lost or moved a row; the model name the store uses is registered exactly if it was before or no row had the bare path of the model. |
| EntryLaws.SolrAddsTheDeclared | src/ogx_configuration.py:884-1005 | Each of the three lists is as before or has exactly the pass's own row more at its end. |
| EntryLaws.SolrRunsIfListed | src/ogx_configuration.py:860-870 | The pass runs exactly if `okp` is among the inline or the tool sources, and otherwise changes nothing. |
| EntryLaws.SolrReads | src/ogx_configuration.py:884-947 | The provider entry has the declared address and the chunk filter with the operator's addition, persists to the shared default, and leaves the rest to the environment. |
| EntryLaws.SolrRowsRead | src/ogx_configuration.py:950-1005 | The vector store row names the provider and the model the pass registers; the model row has its path inside an environment expression. |
| EntryLaws.SolrSetsTheMode | src/ogx_configuration.py:1007-1027 | With a search mode declared, `lexical` is set as keyword, `semantic` as vector, and any other mode as it is. |
| SolrLaws.SolrModeExactly | src/ogx_configuration.py:1007-1027 | With a search mode declared the pass succeeds exactly if it does without one, the mode is neither a list nor a mapping, and the place it is written to is a mapping or missing. |
| SolrLaws.SolrTwiceExactly | src/ogx_configuration.py:977-1005 | Repeating the Solr pass always succeeds and changes nothing exactly if the config had the embedding model registered under its bare path; otherwise the model is registered a second time, because the check looks for the bare path and the row holds an environment expression. |
| VectorStoreLaws.VectorStoreOwns | src/ogx_configuration.py:788-838 | The pass writes three nested sections and two keys of `vector_stores`; everything else, neighbouring sections and keys included, is as before, except that a `vector_stores` section that is no mapping is replaced. |
| Existence.DeclaredProvidersResolve | src/ogx_configuration.py:684-838 | After the pass ids are distinct, and a declared provider is in force, under exactly its id and with a backend that exists, exactly if no other entry came first under the stripped id; if one did, it stays and no provider has the declared id. |
| EntryLaws.PlanIsDeclared | src/ogx_configuration.py:642-682 | The planned entry of a declaration is of its type, with its persistence or connection; a faiss one brings the backend with the declared path and must give one. |
| EntryLaws.WritesAreDeclared | src/ogx_configuration.py:603-711 | A declaration writes its entry under its stripped id, and its backend and model row under the names made of that id; the model row has the declared path and dimension and is written only if both are given. |
| Existence.BlankIdHidesDeclared | src/ogx_configuration.py:684-711 | With an entry written `" a "` in the list, declaring `a` has no effect: afterwards no provider has that id. |
| Existence.DefaultsResolve | src/ogx_configuration.py:579-736 | The designated provider is a declared one and becomes the default; it exists exactly if its id was not shadowed. The default embedding model is written if the declaration names one, and is registered exactly if it was or an entry declared with this id gives a model with a dimension. |
| Writes.SettledStays | src/ogx_configuration.py:579-736 | Where the last write of every name is in place, writing everything once more, repeated names included, changes nothing: for backends by key, model rows by `model_id`, and provider entries by id. |
| VectorStoreTwice.VectorStoreTwiceExactly | src/ogx_configuration.py:788-838 | For every config and every list of declarations, repeated ids included: applying the pass to its own result succeeds and changes nothing exactly if no declared id is blank or the config had an entry whose id is made of blanks. |
| Counterexamples.BlankIdRepeats | src/ogx_configuration.py:684-711 | A vector store declared with a blank id gets one more entry from every run. |
| Existence.EnrichedFirst | src/ogx_configuration.py:1541-1571 | What is in force under a stripped id after the whole enrichment: an entry of the config not written exactly so stays; else the last entry declared with the id; else the entry of the config; else whatever a store or Solr brings. |
| Existence.ProviderExistsExactly | src/ogx_configuration.py:1541-1571 | A provider with exactly a given id exists after the whole enrichment exactly if the first entry under the stripped id has it, or there was none and a store, Solr or a declaration brings it. |
| Existence.BackendExistsExactly | src/ogx_configuration.py:1541-1571 | A storage backend exists afterwards exactly if it did, or a store that needs one, or a declared faiss provider, brings it. |
| Existence.ModelExistsExactly | src/ogx_configuration.py:1541-1571 | A model name is registered afterwards exactly if it was, or a store or a declared provider with a dimension brings it, or it is Solr's and Solr did not find its model under the bare path in the config or among the stores' models. |
| Integrity.SolrIsSound | src/ogx_configuration.py:846-1027 | If every provider entry from some place on persists to a backend that exists, so does every one after the Solr pass. |
| Integrity.VectorStoreIsSound | src/ogx_configuration.py:788-838 | If every provider entry from some place on persists to a backend that exists, so does every one from there on after the vector_store pass. |
| Integrity.EnrichmentPersists | src/ogx_configuration.py:1541-1571 | After the whole enrichment provider ids are distinct and, with trimmed rag_ids, every provider entry beyond those given persists to a backend that exists. |
| Integrity.EnrichmentRefers | src/ogx_configuration.py:1541-1571 | Every vector store row the whole enrichment adds, Solr's included, names a provider that exists and a model that is registered exactly under stated conditions on the config before: for a trimmed rag_id and for Solr the provider exists exactly if its id is not shadowed; the model is registered exactly if it was, or some store with the rag_id gives one, respectively Solr did not find the bare path. |
| Integrity.DeclaredResolve | src/ogx_configuration.py:1541-1571 | After the whole enrichment a declared provider is in force under exactly its id, and persists to a backend that exists, exactly if the config did not shadow the id; otherwise no provider has it. |
| Integrity.DefaultsResolveExactly | src/ogx_configuration.py:579-736 | After the whole enrichment the designated provider is the default and exists exactly if its id is not shadowed; the default embedding model is registered exactly if it was or an entry declared with this id gives a model with a dimension. |
| Integrity.SynthesisResolves | src/ogx_configuration.py:1455-1571 | The statements on persistence, added rows, declared providers and the two defaults hold of every synthesized config, relative to what was assembled before enrichment. |
| Counterexamples.BlankRagIdDangles | src/ogx_configuration.py:237-529 | With rag_id `" docs "` the provider added to an empty config names a backend that does not exist. |
| Counterexamples.BlankRagIdRowDangles | src/ogx_configuration.py:285-352 | With the same store, the vector store row added to an empty config names a provider that does not exist. |
| Counterexamples.SolrModelIsLeftOut | src/ogx_configuration.py:950-1005 | With a model row that serves Solr's path under another name, Solr adds its vector store and the model that this store names is not registered. |
| Counterexamples.SolrOnEmptyRepeats | src/ogx_configuration.py:977-1005 | On an empty config the Solr pass succeeds, and repeating it gives a different config. |
| HighLevel.LoopIsExpansionExactly | src/ogx_configuration.py:1126-1151 | For distinct ids the loop yields the baseline list with each first match replaced where it stands, the conditional OpenAI row counting as `openai`, and the unmatched entries appended in order, exactly unless an entry whose id is the conditional text precedes one with `openai` and no baseline row matches `openai`. |
| HighLevelLaws.ConditionalProviderIsLost | src/ogx_configuration.py:1287-1389 | From the declaration on: a provider declared with the conditional text as its id is lost when a plain openai provider follows. |
| HighLevel.ExpansionTwiceExactly | src/ogx_configuration.py:1126-1151 | Installing the same entries again changes nothing exactly if no id is the conditional text. |
| Counterexamples.ConditionalProviderRepeats | src/ogx_configuration.py:1287-1389 | From the declaration on: a provider declared with the conditional text as its id is in the list after one expansion of an empty config, and a second expansion changes the config. |
| HighLevelLaws.RegisterAllLaws | src/ogx_configuration.py:1216-1270 | Registration only appends; each appended row is new, by provider and model id, among all rows before it; every requested model is registered. |
| HighLevelLaws.RegisterAllKnown | src/ogx_configuration.py:1216-1270 | Registering models that are all registered adds nothing. |
| HighLevelLaws.EmitAllCarryIds | src/ogx_configuration.py:1173-1284 | Every emitted entry carries its own provider id, the explicit one or the type with underscores replaced by hyphens. |
| EntryLaws.AllEmittedAreDeclared | src/ogx_configuration.py:1154-1214 | Every expanded entry has the provider type listed for its declared type, and a config that holds, key by key, the backends of the allowed models, the key expression in the field of its type, and the extra fields, in this order of precedence; the models to register are the allowed ones, none for embedding providers. |
| EntryLaws.RegisteredAreDeclared | src/ogx_configuration.py:1216-1270 | Earlier model rows stay, and every row behind them is that of a model some expanded provider registers, with its name, backend and provider. |
| EntryLaws.RegisteringExactly | src/ogx_configuration.py:1216-1270 | Registering succeeds exactly if the models section is a list or missing, no mapping in it has a list or mapping for its provider or model id, and every model to register has a name that is neither. |
| HighLevelLaws.ExpansionOfConfig | src/ogx_configuration.py:1287-1389 | The whole expansion on a config: the inference list is the expansion exactly unless an entry is evicted; the models list only gains new rows and has all requested ones; other sections, neighbours included, are untouched; a second application changes nothing exactly if no id is the conditional text. |
| Pipelines.EarlyDedupeIsRedundant | src/ogx_configuration.py:1719-1735 | Deduplicating before Azure, BYOK and Solr makes no difference to the outcome. |
| Pipelines.ServiceIsUnified | src/ogx_configuration.py:1541-1742 | Service order and synthesis order, without declared vector stores, have the same outcome on every config, errors included. |
| Pipelines.MigrationIsFaithful | src/ogx_configuration.py:1619-1692 | For every run.yaml and every Lightspeed config without high-level providers, synthesizing the migrated config has the same outcome as legacy generation, errors included. |
| SynthesisLaws.MigratedConfig | src/ogx_configuration.py:1619-1692 | The migrated config has the run.yaml as the override of an empty baseline, no deprecated section and no client config path; whatever else stood in the section or beside it stays. |
| ModeEquivalence.ByokLeavesClean | src/ogx_configuration.py:532-571 | After the BYOK pass the provider list is deduplicated and the first entry under the Solr id is the original one. |
| ModeEquivalence.SolrLeavesClean | src/ogx_configuration.py:884-947 | The Solr pass leaves a deduplicated list deduplicated exactly unless it is enabled and its id is shadowed by an entry that differs by blanks. |
| ModeEquivalence.LibraryMatchesServiceExactly | src/client/ogx.py:159-184 | Library order and service order fail on the same configs, and otherwise give equal trees exactly unless Solr is enabled and its id is shadowed by an entry that writes it with surrounding blanks. |
| Counterexamples.BlankSolrIdSeparatesModes | src/client/ogx.py:159-184 | With an entry written `" okp_solr "` and Solr enabled, both modes succeed and give different trees. |
| OgxConfig.ConstructStorageBackends | src/ogx_configuration.py:237-282 | The loop over stores builds the backends section specified. |
| OgxConfig.ConstructVectorIoProviders | src/ogx_configuration.py:463-529 | The loop appends one entry for each new provider id, tracking the ids as it goes. |
| OgxConfig.ConstructVectorStores | src/ogx_configuration.py:285-352 | The loop appends one row for each new store id, tracking the ids as it goes. |
| OgxConfig.ConstructModels | src/ogx_configuration.py:355-417 | The loop registers each embedding model not registered yet. |
| OgxConfig.ReplaceOrAppendInference | src/ogx_configuration.py:1126-1151 | The search loop with its early return replaces the first match or appends. |
| OgxConfig.Config.DedupeProvidersVectorIo | src/ogx_configuration.py:227-234 | In place: the new config is the deduplicated old one, or an exception is raised. |
| OgxConfig.Config.EnrichAzure | src/ogx_configuration.py:165-197 | In place: the new config is the specified function of the old one. |
| OgxConfig.Config.EnrichByokRag | src/ogx_configuration.py:532-571 | In place: the new config is the specified function of the old one. |
| OgxConfig.Config.EnrichSolr | src/ogx_configuration.py:846-1027 | In place: the new config is the specified function of the old one. |
| OgxConfig.Config.EnrichVectorStore | src/ogx_configuration.py:788-838 | In place: the new config is the specified function of the old one. |
| OgxConfig.Config.ApplyHighLevelInference | src/ogx_configuration.py:1287-1389 | In place: the new config is the specified function of the old one. |
| OgxConfig.Config.EnsureMcpToolRuntime | src/ogx_configuration.py:1392-1431 | In place: the new config is the specified function of the old one. |
| OgxConfig.Config.EnrichLibrary | src/client/ogx.py:159-184 | The passes in library order have the outcome that the equivalence theorem is about. |
| OgxConfig.Config.GenerateConfiguration | src/ogx_configuration.py:1700-1742 | The passes in legacy order have the outcome that the migration theorem is about. |
| OgxConfig.SynthesizeConfiguration | src/ogx_configuration.py:1455-1571 | Baseline selection, expansion, override and enrichment in order have the outcome that the layering, migration and integrity theorems are about. |
| ConversationCache.SQLiteCache.Get | src/cache/sqlite_cache.py:287-381 | The rows of one key, each of those in the table once, by strictly ascending time. |
| ConversationCache.SQLiteCache.InsertOrAppend | src/cache/sqlite_cache.py:384-480 | One row is added, which reads back field by field as the entry given, and the conversation's time is set while its topic is kept; a second row with the same key and time is refused and nothing changes. |
| ConversationCache.SQLiteCache.DeleteConversation | src/cache/sqlite_cache.py:483-528 | All rows of the key leave the three tables, other keys are untouched, and the result says whether there were history rows. |
| ConversationCache.SQLiteCache.SetTopicSummary | src/cache/sqlite_cache.py:568-595 | The topic and time of the conversation are replaced. |
| ConversationCache.SQLiteCache.AppendSummary | src/cache/sqlite_cache.py:598-637 | One summary row is added, or refused if its key and time are taken. |
| ConversationCache.SQLiteCache.ReplaceAllSummaries | src/cache/sqlite_cache.py:682-727 | All summaries of the key are replaced by the folded one; other keys are untouched. |
| ConversationCache.SQLiteCache.GetSummaries | src/cache/sqlite_cache.py:640-679 | The summaries of one key, each of those in the table once, by strictly ascending stamp. |
| ConversationCache.SQLiteCache.List | src/cache/sqlite_cache.py:531-565 | Exactly the user's conversations, each once, most recent first. |
| CacheLog.HistoryRefines | src/cache/sqlite_cache.py:287-528 | If the insertions of a conversation since its last deletion took increasing clock readings, reading it gives the entries as they were inserted, field by field and in order, except that an empty optional list comes back absent; nothing is asked of other conversations. |
| CacheLog.TickingHistory | src/cache/sqlite_cache.py:287-528 | Under a clock that strictly increases, every conversation reads back whole and in order. |
| CacheLog.ConversationsRefine | src/cache/sqlite_cache.py:384-595 | In every run, whatever the clock does, the conversations table holds exactly the live conversations, each with the topic last set and the time of the last activity that was not refused, an insertion being refused exactly if it repeats a clock reading of one since the last deletion; with distinct readings that is the last activity of all. |
| CacheLog.SummariesRefine | src/cache/sqlite_cache.py:598-727 | If the summaries of a conversation are stamped increasingly, reading them gives the last fold followed by what was stored after it. |
| CacheLog.HistoryHasConversation | src/cache/sqlite_cache.py:384-528 | In every run every history row belongs to a conversation in the table; no assumption on the clock. |
| CacheLog.NoneLostExactly | src/cache/sqlite_cache.py:384-528 | In every run, whatever the clock does: no insertion of a conversation since its last deletion is lost exactly if their clock readings are pairwise distinct. |
| CacheLog.FirstIsKept | src/cache/sqlite_cache.py:384-480 | Of several insertions of a conversation with one clock reading, the first is the one kept, field by field as it was given. |
| CacheLog.ActiveIsListedFirst | src/cache/sqlite_cache.py:384-565 | The conversation just written to is listed first, with its time, if the clock then reads later than ever before. |
| Anonymizer.NormalizeCase | src/pii_redaction_engine/anonymizer.py:252-280 | The scan keeps the length and every character outside recased words; inside, it writes the title-cased word; each position is decided by the word around it alone. |
| Anonymizer.Analyze | src/pii_redaction_engine/anonymizer.py:347-399 | The result is the structural filter of the first pass followed by all accepted second-pass matches; each of these is compared with everything found before it. |
| Anonymizer.AcceptedAreGuesses | src/pii_redaction_engine/anonymizer.py:371-397 | Every accepted match is a reported location outside the allow list that overlaps no first-pass match, and accepted matches do not overlap each other. |
| Anonymizer.AcceptedStay | src/pii_redaction_engine/anonymizer.py:283-399 | Filtering after the second pass equals filtering the first pass alone and appending: accepted matches are never dropped and drop nothing. |
| Anonymizer.DroppedExactly | src/pii_redaction_engine/anonymizer.py:283-318 | A match is dropped exactly if it is an NER guess and overlaps a structural match. |
| Anonymizer.StructuralWins | src/pii_redaction_engine/anonymizer.py:283-318 | No surviving NER match overlaps a structural one, and every structural match survives. |
| AnonymizerLaws.WordsAreRecased | src/pii_redaction_engine/anonymizer.py:252-280 | A whole word is put in title case exactly if it has three characters or more, none of them a-z, a digit or an underscore, is all capitals and keeps its length; otherwise it stays. |
| AnonymizerLaws.OthersStay | src/pii_redaction_engine/anonymizer.py:252-280 | Characters outside words stay. |
| AnonymizerLaws.OverlapIsSharing | src/pii_redaction_engine/anonymizer.py:308-317 | Two spans that are not empty overlap exactly if they share a position; an empty one exactly if it lies inside the other. |
| AnonymizerLaws.SliceIs | src/pii_redaction_engine/anonymizer.py:385-397 | The term checked is the text between the two offsets, as far as the text goes. |
| AnonymizerLaws.AcceptedOneByOne | src/pii_redaction_engine/anonymizer.py:320-397 | Of the second-pass matches one is accepted exactly if it overlaps neither a first-pass match nor one accepted before it and the text there is no term the caller wants kept. |
| AnonymizerLaws.GuessesGiveWay | src/pii_redaction_engine/anonymizer.py:283-318 | Of the first pass everything stays except locations, organizations and persons that overlap an e-mail address, host name, IP address or URL. |
| AnonymizerLaws.SecondPassAsks | src/pii_redaction_engine/anonymizer.py:365-376 | The second pass asks for locations only, and only if these were asked for and recasing is on. |
| Template.ValidateVariables | src/prompts/template.py:22-46 | Accepts exactly lists of distinct well-formed names and returns them as a set. |
| Template.ExtractPlaceholders | src/prompts/template.py:49-70 | Returns the names of all placeholders, or rejects exactly if one is malformed. |
| Template.ValidateTemplate | src/prompts/template.py:73-97 | Accepts exactly non-blank templates with well-formed placeholders all of which are declared. |
| Template.RenderTemplate | src/prompts/template.py:100-127 | The left-to-right substitution equals filling the scanned pieces; missing declared variables are reported exactly. |
| Template.ScanCovers | src/prompts/template.py:17-70 | Literals and placeholder texts joined are the template: nothing is lost or moved. |
| Template.ScannedNamesAreTrimmed | src/prompts/template.py:17-127 | Placeholder names come out of the pattern without surrounding blanks, so the strip before the lookup changes nothing. |
| TemplateLaws.ScanOfWritten | src/prompts/template.py:17-70 | Scanning a text written from characters other than opening braces and from placeholders, with any blanks around any trimmed one-line name without a closing brace, gives those pieces back. |
| TemplateLaws.ValidExactly | src/prompts/template.py:22-97 | Such a text may be stored with given variables exactly if it is not blank, the variables are distinct allowed names, and every placeholder has an allowed name that is among them. |
| TemplateLaws.RenderedPieceByPiece | src/prompts/template.py:100-127 | Rendering such a text goes piece by piece: a character stays, a placeholder becomes the value of its name, and a name without a value raises. |
| TemplateLaws.MissingAreReported | src/prompts/template.py:118-123 | If declared variables have no value, exactly those are reported; otherwise declarations have no effect on the rendered text. |
| TemplateLaws.NamesAllowed | src/prompts/template.py:19-22 | A name is allowed exactly if it consists of letters, digits, underscores and hyphens, starts with a letter or an underscore, and ends with at most one line break. |
| Template.ValidTemplatesRender | src/prompts/template.py:73-127 | Rendering a valid template succeeds exactly if every declared variable has a value; no lookup misses. |
| PromptStore.Store.CreatePrompt | src/prompts/store.py:15-49 | A new prompt has version 1 as its default; an invalid template changes nothing. |
| PromptStore.Store.GetPrompt | src/prompts/store.py:52-91 | The given version, or the default one, or an error when the prompt or the version is missing. |
| PromptStore.Store.UpdatePrompt | src/prompts/store.py:106-166 | A version one beyond the highest is added and becomes the default only on request; nothing else changes. |
| PromptStore.Store.DeletePrompt | src/prompts/store.py:169-188 | The prompt and all its versions are removed and no others. |
| PromptStore.StepKeepsConsistent | src/prompts/store.py:15-188 | Every operation keeps: live prompts have versions 1 to n without gaps and a default among them, other ids have none, and every stored version is a valid template. |
| PromptStore.ReachableIsConsistent | src/prompts/store.py:15-188 | So does every sequence of operations, failed ones included. |
| PromptStore.VersionsAreImmutable | src/prompts/store.py:106-166 | A stored version never changes as long as its prompt is not deleted. |
| PromptLog.StoreRefinesLog | src/prompts/store.py:15-188 | After every sequence of operations, read off the operations alone: a prompt is live exactly if it was created and not deleted since; version k has the template and variables of the k-th successful creation or revision since; the default is the version of the last successful revision that asked for it, else 1; the name is the one given at creation. |
| PromptLog.OperationsAnswer | src/prompts/store.py:15-188 | In every reachable state each operation succeeds or fails as the operations before it say, an invalid template being reported before anything else. |
| PromptLog.ReadingAnswers | src/prompts/store.py:52-91 | In every reachable state reading gives the text the operations put under the number asked for, or under the default; anything else is not found. |
| PromptStore.StoredVersionsRender | src/prompts/store.py:52-91 | In every reachable state every stored version is found by its number, and renders exactly if every declared variable has a value. |
| PromptStore.DefaultIsStored | src/prompts/store.py:52-91 | In every reachable state the default version of a live prompt is a stored one, so it is found and renders likewise. |
| PromptStore.FoundExactly | src/prompts/store.py:52-91 | In every reachable state a given version is found exactly if the prompt is live and the number is in 1 to n. |
| Reranker.RerankExactly | src/knowledge/reranker.py:83-105 | A list is the outcome exactly if it is in descending order and has, for each score, the rescored matches of that score in their given order; this determines it. |
| Reranker.ScoreSpelledOut | src/knowledge/reranker.py:39-98 | The new score of a match is 0.3 times where its prediction lies between the least and the greatest prediction plus 0.7 times where its given score lies between those given, a missing one counting as 0; equal scores lie in the middle and a single one at the top. |
| Reranker.RerankFallsBack | src/knowledge/reranker.py:41-98 | Without matches or without a prediction the matches come back as they are; a prediction of the wrong length raises. |
| Reranker.RerankedScoresInUnit | src/knowledge/reranker.py:54-105 | The outcome is a permutation of the rescored matches, every score between 0 and 1. |
| Reranker.CombinedIsMonotone | src/knowledge/reranker.py:54-98 | An item at least as good on both scores never scores lower, and scores equal only if both are equal. |
| Reranker.SafeLeadExactly | src/knowledge/reranker.py:54-98 | A lead in normalized original scores survives every possible cross-encoder exactly if it exceeds three sevenths. |
| Reranker.LeaderStaysInFront | src/knowledge/reranker.py:54-105 | With such a lead the match stands before the other in the outcome, whatever was predicted. |
| Reranker.RerankIgnoresScale | src/knowledge/reranker.py:26-105 | Scaling the cross-encoder scores by a positive factor and shifting them does not change the outcome. |

## Left out

- The resolver is not complete: it does not backtrack, and no theorem says that it finds a solution when there is one.
- Fetching, retries, HTML and JSON parsing, lock files, containers and pipelines of `scripts/konflux_resolve.py`: indexes, pages and requirements are given, and a page serves the same content throughout a run. A fetch that fails is an absent page.
- `uv_resolve`, `reclassify_with_rhoai`, `main` and the writers: they wrap an external solver or do I/O and do not use the resolver.
- `_parse_dep_string` and `_eval_marker`: requirements come parsed and filtered; names contain no equals sign, as the parser guarantees.
- Texts of the resolver are ASCII: Unicode digits and case folding, and underscores in `int()` arguments, are not modelled.
- The wheel-only field of the resolver object is never read by `resolve`; classification takes its own argument, as in the code.
- Exceptions of the configuration code are one fault; which one is raised, and what a pass leaves half-done when it raises, is not modelled.
- YAML floats, dates and keys that are not texts; Python's equality of `1`, `1.0` and `True`.
- Iterating over a mapping where a list is expected keeps only the number of elements: the model has no order on keys. This matters only where `allowed_models` is a mapping, whose keys the code would register.
- Environment substitution, `str()` of lists and mappings and URL joining are parameters without laws; they do not raise.
- Reading and writing YAML files, file modes, the profile path, secrets and logging.
- `extra` fields of an inference provider given as a list of pairs, which `dict.update` would accept.
- Integrity.EnrichmentPersists: states persistence for trimmed rag_ids, because backend names are built from raw ids; `ByokLaws.AddedBackendExists` and `Existence.BackendExistsExactly` state for all ids exactly when a backend exists.
- Integrity.SynthesisResolves: the entries and rows the baseline or the override brings are not checked for their own references, as the code does not check them.
- HighLevel.LoopIsExpansionExactly: asks for distinct ids, which the code itself enforces by raising.
- The PostgreSQL, in-memory and no-op caches: the first repeats the SQLite statements, the others store nothing.
- Serialization of stored values and its failures, connection errors, and the check that skips user ids.
- CacheLog.ActiveIsListedFirst: asks that the last clock reading is the latest; conversations of equal time may be listed in any order.
- CacheLog.SummariesRefine: asks that summaries of one conversation are stamped increasingly; stamps come from callers and order the rows.
- Row order among equal timestamps in the list of conversations is left open, as in SQL.
- Presidio and spaCy: the analyzer is a parameter that reports only requested entity types; character classes and title casing are parameters.
- Replacing the detected spans by placeholders, which Presidio does.
- Prompt ids are parameters instead of random UUIDs; sessions, timestamps, display fields and listing of prompts.
- Floating point in the reranker: scores are real numbers, so rounding and NaN are not modelled.
- Authentication, access rules, quota, metrics, MCP registry, routers and validators: plumbing or one-branch checks.
