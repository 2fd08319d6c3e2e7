# ZoneRoute, verified

ZoneRoute is a Kubernetes controller. It decides which ZoneRoutes are accepted, prints one
CoreDNS fragment for the accepted ones, publishes it as the key `zoneroute.server` of ConfigMap
`kube-system/coredns-custom`, and writes two conditions into every route's status. This project
models that controller in Dafny 4.11 and proves what it is relied on for. Check it with
`dafny verify dfyconfig.toml`.

The model has three layers, and the main results connect them.

- **Resolution** (`DnsName`, `Conflict`, `ConflictTheorems`, `OldestClaim`). The resolver keeps its maps, loops
  and sorts; it is proved equal to a function, the function's output is proved to be a sorted list
  of correct decisions, and there is proved to be only one such list. "Correct" is stated without
  a processing order, by the unique fixed point `Wins`. `OldestClaim` says the same once more in
  terms of the input alone: creation times, names, zones and listeners.
- **Text** (`Caddyfile`, `Corefile`, `Render`, `RoundTrip` and their companions). The lexer, the
  block grammar, the inspector with its in-place blanking of import lines, and the printer.
  Printing then inspecting gives back exactly what was printed. `ServerKeys` has every way of
  writing the key of a server block. `Openings` says what a text opens when CoreDNS loads it, with
  snippets spliced in for their imports, apart from the inspector, which blanks the import lines.
  `ScanTheorems` describes the scan for imports token by token, `FragmentLines` the published text
  line by line.
- **The controller** (`Plans`, `MergePatch`, `Reconciler`, `Protocol`, `Convergence`, `Safety`,
  `PatchSafety`, `StaleText`, `SnippetCluster`, `Quiescence`, `StillCluster`, `RestTheorems`,
  `Reasons`).
  `Reconciler.Controller` is an object over the cluster state whose `Reconcile` has the code's
  reads, failures and writes. `Protocol` splits the same run at every API call, lets
  anyone edit the cluster between any two calls, filters events by the predicates and queues them
  in one slot. An invariant over every interleaving gives convergence; an uninterrupted run of the
  steps is proved to be one call of `Reconcile`.

A method is proved equal to a function where the code uses a loop or changes state; the meaning of
that function is then proved in lemmas. Map iteration and list order are arbitrary choices in the
methods, so equality with a function is determinism.

## What came out

- The text says of the printer that "an error means a rendering bug, never a user error"
  (`internal/render/render.go:53-54`). In this model that is not so: a zone `import` is admitted by
  the API, and a block beginning with it is read as an import statement. Rendering admitted routes
  fails exactly when some route's least canonical zone is `import` (`RoundTrip.RenderingSucceeds`),
  and one accepted such route keeps everything from being published
  (`Disjointness.ImportZoneBlocksPublishing`). This rests on the parser not resolving an import
  statement that reaches it; see the library's note under "Left out".
- For the same reason the published text is not always safe. While such a route is accepted the
  run still succeeds, and whatever text the managed key held stays there, with the zones of routes
  that were rejected or deleted since. A run of the system is exhibited that comes to rest with one
  listener opened by both the managed key and the Corefile (`StaleText.StaleTextCollides`). The
  managed key then also shows the history of runs (`Safety.HistoryShowsOnlyWithImport`).
- A second way to collide: the documentation says that snippet imports are resolved by the
  controller (`docs/troubleshooting.md:179-180`), and the code skips a top-level import of a
  snippet as resolved from the same text (`internal/corefile/corefile.go:148-151`), but nothing
  resolves it. The import line is blanked and the snippet definition is no server, so a block that
  the snippet opens there is neither found nor reported. The smallest such text is exhibited
  (`SnippetText.NothingFound`, `SnippetText.AbOpened`), and a run of the system that comes to rest
  with the managed key and that Corefile opening the same listener
  (`SnippetCluster.SnippetImportCollides`). The inspector sees all that a text opens if its import
  statements are tidy, that is each has its line to itself and cuts no quoted token, and no
  top-level import names a snippet with contents (`Openings.ClearIsSeen`).
- Exactly when the published text is safe: for given inputs with both ConfigMaps there, every state
  of rest is free of collisions if and only if no accepted route has `import` for its least zone
  and no text opens a zone of an accepted route (`Safety.SafeExactlyIf`). Where the inspector sees
  everything the second part always holds (`Safety.SafeIffNoImport`), and given texts are safe in
  this sense for all routes if and only if the inspector misses no zone in them
  (`Safety.TextsDecide`).
- A cluster that is left alone does not always come to rest. When the Corefile or another server
  key cannot be inspected, or the Corefile key is missing, every run fails and is queued again. A
  waiting request is worked off for good if and only if its inputs are readable
  (`RestTheorems.WaitingRestsExactlyIf`); the one other way to rest is a run that works with an
  empty Corefile key removed since (`RestTheorems.OnlyIfKeyRemoved`).
- Removing an empty `Corefile` key raises no event although the next run would fail closed.
  Convergence is therefore stated for all runs with that case in it: at rest a further run writes
  nothing, and it succeeds if and only if the key is there (`Convergence.QuiescentRunIsQuiet`); a
  run of the system that ends in the failing case is exhibited
  (`Quiescence.EmptyCorefileRemovalUnnoticed`).
- The resolver's promise of the same result for any permutation (`internal/conflict/conflict.go:91-92`)
  holds for routes with distinct names, which is what the API server guarantees for a
  cluster-scoped resource.
- The mapping to conditions never looks at acceptance, so a route without a decision would read as
  accepted (`PlanTheorems.MissingDecisionReadsAsAccepted`). That every listed route has exactly one
  decision is proved (`PlanTheorems.DecisionOfItem`).

## Model

| member | source | states |
|---|---|---|
| Convergence.QuiescentIsSettled | internal/controller/reconciler.go:91-208 | after any run of the system (edits by others between any two API calls, any calls refused, any number of runs), if nothing is queued or running then the managed key and every route's status are as a recompute from the current objects wants them |
| Convergence.QuiescentRunIsQuiet | internal/controller/reconciler.go:91-154 | from such a state a further run writes nothing at all, and succeeds if and only if the Corefile key exists |
| Convergence.RunKeepsInvariant | internal/controller/reconciler.go:73-154 | the invariant behind it holds after every step of every allowed run: with no request waiting, nothing the run in progress depends on has changed since it was read |
| Convergence.EnvironmentKeepsInvariant | internal/controller/predicates.go:17-61 | any edit by others keeps the invariant: it either queues a request or is one no run can tell |
| Convergence.ControllerKeepsInvariant | internal/controller/reconciler.go:91-208 | every step of a run keeps the invariant, whether the API call succeeds or not |
| Safety.QuiescentNeverCollides | internal/controller/reconciler.go:123-187 | at rest, unless an accepted route has `import` for its least zone, the managed key holds the fragment of the current objects; each listener it opens is an accepted zone on dns/53 outside the cluster domain that the inspector finds in no other text, and where the inspector sees everything no other text opens it |
| Safety.SafeExactlyIf | internal/controller/reconciler.go:123-187 | for given routes, Corefile and other server keys, with both ConfigMaps there and a domain past the startup gate: every reachable state of rest with them is free of collisions if and only if no accepted route has `import` for its least zone and no text, loaded with its snippet imports, opens a zone of an accepted route |
| Safety.TextsDecide | internal/corefile/corefile.go:121-162 | two ConfigMaps that can be inspected open no zone of an accepted route, whatever the routes, if and only if they open no zone outside the cluster domain that the inspector misses |
| PatchSafety.PatchNeverCollides | internal/controller/reconciler.go:123-187 | in every reachable state, at rest or not: what a run is about to patch opens only dns/53 zones outside the cluster domain, none found by the inspector in the texts this run read, and none they open where the inspector sees everything |
| Safety.SafeIffNoImport | internal/controller/reconciler.go:166-172 | for given routes, and Corefile and other server keys in which the inspector sees everything, with both ConfigMaps there and a domain past the startup gate: every reachable state of rest with them is free of collisions if and only if no accepted route has `import` for its least zone |
| Safety.StaleTextStays | internal/controller/reconciler.go:170-172 | while such a route is accepted and both ConfigMaps are there, the system can come to rest with any text whatever still under the managed key |
| Safety.HistoryShowsOnlyWithImport | internal/controller/reconciler.go:91-154 | on readable inputs, after any failed runs, a run without faults leaves the managed key that a run from no history leaves, if and only if no such route is accepted or the key was absent |
| StaleText.StaleTextCollides | internal/controller/reconciler.go:170-172 | one route with the zone `import`, and a managed key naming what the Corefile serves: a run of the system comes to rest with both opening dns, ab., 53 |
| SnippetCluster.SnippetImportCollides | internal/corefile/corefile.go:147-151 | one route with the zone `ab`, and a Corefile that imports its own snippet with a block `ab`: a run of the system comes to rest with nothing reported and both the managed key and the Corefile opening dns, ab., 53 |
| Quiescence.UninterruptedRun | internal/controller/reconciler.go:91-208 | the steps of a run that nobody interferes with, under any faults, change the cluster as one call of Reconcile does; the request waits again iff the run failed or patched |
| Quiescence.TwoRunsAtMost | internal/controller/predicates.go:53-58 | with nobody else acting and inputs that can be read and inspected, a waiting request leads to one run that settles everything and, only if it patched, a second that writes nothing; then the queue is empty |
| Quiescence.ControllerOnlyOwnWrites | internal/controller/reconciler.go:164-187 | in any state, a step of the controller leaves ConfigMap coredns, all route specs and every other key of coredns-custom alone and neither creates nor removes coredns-custom |
| Quiescence.EmptyCorefileRemovalUnnoticed | internal/controller/predicates.go:51-52 | a run of the system comes to rest after an empty Corefile key was removed, with nothing scheduled although the next run would fail |
| StillCluster.MeasureFalls | internal/controller/reconciler.go:91-208 | once nobody else acts and no call is refused, in any reachable state whose inputs can be read and inspected a measure of runs and steps left falls with every step |
| StillCluster.ComesToRest | internal/controller/predicates.go:53-58 | from any reachable state whose inputs can be read and inspected, whatever stale data the run in progress holds, the controller comes to rest settled, and at most two more runs begin |
| RestTheorems.RestsExactlyIf | internal/controller/reconciler.go:91-154 | from any reachable state, with nobody else acting and no call refused, the controller comes to rest if and only if its inputs can be read and inspected, or the run in progress has read them, finds the fragment in place and has no stale status to write |
| RestTheorems.WaitingRestsExactlyIf | internal/controller/reconciler.go:91-131 | with a request waiting it comes to rest if and only if the Corefile key is there and everything can be inspected |
| RestTheorems.UnreadableNeverRests | internal/controller/reconciler.go:123-126 | when the Corefile or a server key cannot be inspected, a system not at rest never gets there |
| RestTheorems.OnlyIfKeyRemoved | internal/controller/predicates.go:51-52 | rest on unreadable inputs comes about only with the Corefile key gone: the run in progress has read it as empty, or if already writing works by the plan that an empty Corefile gives |
| RunTheorems.FaultsAreForgotten | internal/controller/reconciler.go:91-154 | on readable inputs, after any sequence of runs that failed in any way, one run without faults gives the statuses that a run from fresh status and no managed key gives, and the same managed key if and only if the fragment renders or there was no such key |
| RunTheorems.UnreadableRunsWriteNothing | internal/controller/reconciler.go:91-131 | on unreadable inputs every run, under any faults, fails and writes nothing |
| RunTheorems.RunsOnlyOwnWrites | internal/controller/reconciler.go:164-187 | over any sequence of runs under any faults only the managed key and statuses ever change |
| RunTheorems.PlanReads | internal/controller/reconciler.go:91-141 | a plan depends on route specs, names, ages and generations, the Corefile and the other server keys, never on status or the managed key |
| RunTheorems.CleanRunSettles | internal/controller/reconciler.go:91-154 | a run without faults on readable inputs succeeds, puts the fragment in place and gives every route its wanted status |
| RunTheorems.SecondRunIsQuiet | internal/controller/reconciler.go:173-208 | the next run patches nothing and writes no status |
| RunTheorems.PublishedOnlyIfInPlace | internal/controller/status.go:66-100 | under any faults of writing, a run wants Published=True only for an accepted route, with the fragment in the ConfigMap when the run ends and the Corefile wired |
| RunTheorems.WriteFails | internal/controller/reconciler.go:148-153 | the status writes of a run fail iff a needed one was refused |
| Reconciler.Controller.Reconcile | internal/controller/reconciler.go:91-154 | lists, reads, decides, publishes and writes statuses as the run function says, with its failures and its counts of writes |
| Reconciler.Controller.Publish | internal/controller/reconciler.go:164-187 | missing ConfigMap, invalid fragment, fragment already in place, refused patch, or a patch of one key |
| Reconciler.Controller.UpdateStatus | internal/controller/reconciler.go:189-208 | both conditions and the generation are written only if something changed, and refused if the object is gone or has changed |
| Reconciler.Controller.List | internal/controller/reconciler.go:92-97 | whatever order the routes are listed in, they end sorted by name |
| Reconciler.Index | internal/controller/reconciler.go:132-139 | the two maps give each name its decision and exactly the accepted names |
| Reconciler.Recompute | internal/controller/reconciler.go:123-141 | inspect, resolve and render, with the error of whichever fails |
| Disjointness.FragmentNeverCollides | internal/controller/reconciler.go:123-141 | on the text itself: what the fragment opens is dns/53 outside the cluster domain, is found by the inspector in no other text, and is opened by none in which the inspector sees everything |
| Disjointness.FragmentOpens | internal/controller/reconciler.go:140-141 | loading the fragment opens exactly the zones of the accepted routes |
| Disjointness.FragmentNamesZonesOnce | internal/controller/reconciler.go:131-141 | every key of the fragment belongs to exactly one block and stands there once |
| Disjointness.AcceptedZonesArePublished | internal/controller/convert.go:53-73 | every zone of an accepted route is a listener of the fragment |
| Disjointness.AcceptedZonesOnce | internal/conflict/conflict.go:158-174 | accepted routes that name the same zone, however spelled, are the same route |
| Disjointness.ImportZoneBlocksPublishing | internal/controller/reconciler.go:170-172 | one accepted route whose least zone is `import` leaves the ConfigMap untouched and gives every accepted route reason FragmentInvalid |
| PlanTheorems.StatusDecisionFragmentAgree | internal/controller/status.go:15-100 | Accepted is true iff the resolver accepted iff the route's block at its generation is rendered; Published is true iff moreover the fragment is in place and the Corefile wired |
| PlanTheorems.DecisionOfItem | internal/controller/reconciler.go:132-139 | every listed route has exactly one decision, and it is the correct one |
| PlanTheorems.MissingDecisionReadsAsAccepted | internal/controller/status.go:58-61 | the zero decision would be reported as accepted |
| Disjointness.FragmentRenders | internal/render/render.go:74-92 | the fragment of a plan for admitted routes renders if and only if no accepted route has `import` for its least zone |
| MergePatch.PatchSetsOneKey | internal/controller/reconciler.go:177-185 | by section 2 of RFC 7396 the patch sets one key of the data and leaves every other member of the object and of the data alone |
| MergePatch.NullRemoves | internal/controller/reconciler.go:177-185 | by section 2 of RFC 7396 a null in a patch removes the member; the controller sends none |
| Plans.Patched | internal/controller/reconciler.go:177-185 | the data read back after merging the controller's patch is the old data with the managed key set; every publishing step of the model goes through it |
| OldestClaim.DecisionExactly | internal/conflict/conflict.go:76-174 | a route's reserved zones are its zones in the cluster domain; failing those, its served zones are the ones some dns/53 listener has, with the least source; failing those, it conflicts on a zone with a route exactly if that route is accepted, was created earlier (or at the same time, with the lesser name) and has the zone; it is accepted exactly if there is nothing of these |
| OldestClaim.OldestOfTwo | internal/conflict/conflict.go:82-87 | of two unreserved, unserved routes with a zone in common the one created earlier is accepted and the other rejected with conflicts naming it |
| OldestClaim.DecisionsInOrder | internal/conflict/conflict.go:176-177 | the decisions are those of the routes, in ascending order of name |
| Reasons.ItemDecided | internal/controller/convert.go:14-23 | the decision about a listed ZoneRoute is the one for its own name, creation time and zones |
| Reasons.AcceptedReasons | internal/controller/status.go:15-64 | each of the five reasons of the Accepted condition, exactly if: a zone in the cluster domain; else a zone that the Corefile or another server key has on dns/53; else an accepted route created earlier with a zone in common; else accepted with or without unresolved imports |
| Reasons.PublishedReasons | internal/controller/status.go:66-100 | each of the six reasons of the Published condition, exactly if: not accepted; else coredns-custom missing; else the fragment invalid; else a needed patch refused; else the Corefile not wired; else published |
| PatchSafety.PublishStepExactly | internal/controller/reconciler.go:164-187 | what publishing comes to and changes in a run that others interfere with, refused patches and a ConfigMap deleted meanwhile included |
| ConflictTheorems.FixedPointUnique | internal/conflict/conflict.go:82-87 | the winners are the only set in which a candidate is in iff it shares no zone with an earlier member |
| ConflictTheorems.WinnersAreFixedPoint | internal/conflict/conflict.go:82-87 | the winners are such a set |
| ConflictTheorems.WinnersDisjointAndMaximal | internal/conflict/conflict.go:82-87 | no two winners share a zone, and every loser shares one with an earlier winner |
| ConflictTheorems.GreedyOwners | internal/conflict/conflict.go:158-174 | after any prefix of the greedy pass the owner map holds exactly the zones of the winners so far, each under its winner |
| ConflictTheorems.DecisionsCorrect | internal/conflict/conflict.go:93-178 | the output is one correct decision for each route, sorted by name: reserved, then owned, then conflicts with every taken zone once in order, else accepted |
| ConflictTheorems.ResolutionUnique | internal/conflict/conflict.go:63-71 | there is only one list of correct decisions |
| ConflictTheorems.ResolutionOrderIndependent | internal/conflict/conflict.go:89-92 | any permutation of routes and any reordering or repetition of listeners gives the identical result, sources and winners included |
| ConflictTheorems.EarlierDecisionsStable | internal/conflict/conflict.go:123-174 | adding or deleting a route changes no decision about an earlier route |
| ConflictTheorems.RejectedRouteIrrelevant | internal/conflict/conflict.go:80-87 | deleting a rejected route changes no other decision |
| ConflictTheorems.RejectionNamesWinner | internal/conflict/conflict.go:57-61 | each reported conflict names an accepted, earlier route that has the zone |
| ConflictTheorems.ServedSpec | internal/conflict/conflict.go:100-113 | a zone is served iff some dns/53 listener names it, and the source reported is the least |
| ConflictTheorems.CanonicalZonesSpec | internal/conflict/conflict.go:180-194 | the zones of a route are its canonical forms, each once, in order |
| Conflict.Resolve | internal/conflict/conflict.go:93-178 | the loops over maps compute the resolution function, a blank domain being an error |
| Conflict.ComputeVerdicts | internal/conflict/conflict.go:158-174 | the ownership loop computes the verdicts of the greedy pass |
| Conflict.ComputeServed | internal/conflict/conflict.go:104-113 | the loop over existing listeners computes the served map |
| Conflict.ComputeCanonicalZones | internal/conflict/conflict.go:182-194 | the loop with its seen map computes the canonical zones |
| DnsName.InsideIsSubdomain | internal/conflict/conflict.go:97-130 | the textual reserved check is the subdomain relation of section 3.1 of RFC 1034: the domain's labels end the zone's |
| DnsName.CanonicalIdentifies | internal/dnsname/dnsname.go:7-14 | canonical forms agree iff the names are equal up to ASCII case and one trailing dot |
| DnsName.CanonicalIdempotent | internal/dnsname/dnsname.go:7-14 | the canonical form is its own canonical form |
| ClusterDomain.GateExactly | internal/controller/reconciler.go:55-68 | a flag passes exactly if, without surrounding blanks and one trailing dot and in lower case, it is at most 253 letters, digits, hyphens and dots with a letter or digit at both ends and around every dot; it comes out as that with a dot at the end |
| ClusterDomain.BlankRefused | internal/conflict/conflict.go:94-96 | the gate and the resolver refuse a domain of nothing but blanks; the resolver refuses no other |
| ClusterDomain.GateOpens | internal/controller/reconciler.go:55-68 | a domain that passes the startup gate is canonical and never makes the resolver fail |
| RoundTrip.RenderedThenInspected | internal/render/render.go:47-79 | inspecting the rendered text finds exactly the routes' zones as dns/53 listeners, no wiring, no unresolved import |
| RoundTrip.FragmentDecodes | internal/render/render.go:55-106 | parsing the rendered text gives back every route's zones and its upstreams, address and effective port, in their order |
| RoundTrip.FragmentInspected | internal/corefile/corefile.go:121-162 | in any place among the sources the fragment adds its routes' listeners under its own name and nothing else |
| RoundTrip.RenderingSucceeds | internal/render/render.go:74-92 | rendering admitted routes fails exactly if some block begins with `import` |
| RoundTrip.ImportZoneCannotBeRendered | api/v1alpha1/types.go:57-57 | the zone `import` is admitted, yet no list with a route whose least zone it is can be rendered |
| FragmentLines.LinesOfFragment | internal/render/render.go:55-72 | every line of the text: the header, then for each route in ascending order of name an empty line, the comment with its name and generation, its zones, its upstreams, the policy and the braces |
| FragmentLines.AcceptedRouteIsPrinted | internal/controller/convert.go:53-73 | an accepted ZoneRoute has such lines with its own name, generation, zones and upstreams |
| RoundTrip.DestinationExactly | internal/render/render.go:108-120 | port 53, given or implied, is left out, any other port is printed, with an IPv6 address in brackets |
| RoundTrip.ZoneKeysAscend | internal/render/render.go:94-106 | the zones of a block ascend in their dotted form |
| RoundTrip.DestinationDecodes | internal/render/render.go:108-120 | a printed destination reads back as the address and its effective port, for IPv4 and IPv6 |
| RoundTrip.DestinationsInjective | internal/render/render.go:108-120 | different destinations never print alike |
| RenderTheorems.FragmentTokens | internal/render/render.go:60-72 | the tokens of the rendered text, with their line numbers, are those of its blocks |
| RenderOrder.RenderingOrderIndependent | internal/render/render.go:49-58 | the bytes do not depend on the order of routes or the order and spelling of zones |
| RenderOrder.RespelledZones | internal/render/render.go:94-106 | zones respelled in case or trailing dot have the same canonical forms |
| Render.Render | internal/render/render.go:55-79 | the nested writing loops produce the fragment text, validated |
| Render.ComputeZoneKeys | internal/render/render.go:96-106 | the array rewritten in place holds the canonical names sorted with their dots and only then stripped of them |
| Openings.ClearIsSeen | internal/corefile/corefile.go:121-134 | a text with tidy import statements, none at top level naming a snippet with contents, opens exactly the listeners that the inspector finds |
| Openings.MissedBySnippetImport | internal/corefile/corefile.go:148-151 | a listener that a text with tidy import statements opens without the inspector finding it goes back to a top-level import of a snippet with contents |
| Openings.SnippetImportMissed | internal/corefile/corefile.go:148-151 | a top-level import between blocks of a snippet that is itself blocks opens their listeners, is not reported, and unless a listener is defined elsewhere it is not found |
| SnippetText.NothingFound | internal/corefile/corefile.go:65-68 | in the text exhibited the inspector finds no listener and reports no import |
| SnippetText.AbOpened | internal/corefile/corefile.go:148-151 | loading that text opens dns, ab., 53 |
| CorefileTheorems.BlankingKeepsStructure | internal/corefile/corefile.go:121-134 | for text whose import lines cut no quoted token, the parser sees the original tokens without the import lines, line numbers kept, and no import statement; if the import lines carry no braces, brace depths and snippets are kept too |
| CorefileTheorems.ListenersAttributed | internal/corefile/corefile.go:57-60 | a listener is found iff the Corefile or a server key other than the managed one has a block for it once its import lines are blanked; it is attributed to the Corefile first and else to the least key |
| CorefileTheorems.InspectionSucceeds | internal/corefile/corefile.go:84-111 | inspection succeeds iff every source it reads is well formed |
| CorefileTheorems.ImportsClassified | internal/corefile/corefile.go:147-160 | each top-level import is exactly one of named like a snippet of the text, wiring, or reported; reports come in strictly increasing lines |
| CorefileTheorems.ReportExactly | internal/corefile/corefile.go:147-160 | an import is reported exactly if it stands at top level and names no snippet of its text, in the Corefile with any pattern but `custom/*.server`, or in another server key with any pattern; the Corefile is wired exactly if it has that pattern so |
| ScanTheorems.ScanExactly | internal/corefile/corefile.go:167-192 | the scan finds exactly the words `import` at the start of a line with an argument, each with line, argument and open braces, and exactly the names in parentheses at the start of a line outside all braces |
| CorefileTheorems.UnresolvedOrdered | internal/corefile/corefile.go:65-68 | the report is the Corefile's, then each key's in key order; wired iff the Corefile has the top-level wiring import |
| CorefileTheorems.ImportsIncrease | internal/corefile/corefile.go:167-192 | the scan finds import statements on strictly increasing lines |
| ServerKeys.KeyRefused | internal/corefile/corefile.go:194-224 | a key is refused if and only if its transport is unknown, or its port is not a number from 1 to 65535, or it has a colon that neither separates a port nor is inside brackets |
| ServerKeys.KeyWithoutPort | internal/corefile/corefile.go:72-82 | without a port, a name or a bracketed IPv6 address stands for the default port of its transport: 53, 853, 443, or 0 for unix |
| ServerKeys.DnsIsImplied | internal/corefile/corefile.go:194-203 | a key without a scheme means what it means under dns |
| ServerKeys.FullKeyParses | internal/corefile/corefile.go:194-224 | a key written with transport, host and port reads back as that listener exactly for ports 1 to 65535 |
| CorefileTheorems.InspectionReads | internal/corefile/corefile.go:86-103 | only the Corefile and the server keys other than the managed one are inputs |
| Corefile.Inspect | internal/corefile/corefile.go:89-111 | whatever order the keys are taken from the map in, the result is that of the sorted keys |
| Corefile.InspectSource | internal/corefile/corefile.go:121-162 | scanning, blanking, parsing and classifying one source, with its errors |
| Corefile.BlankLines | internal/corefile/corefile.go:126-129 | exactly the import lines are emptied, in place and in bounds |
| Corefile.ScanImports | internal/corefile/corefile.go:167-192 | the token loop computes the import statements with their depths and the snippet names |
| CaddyfileTheorems.LexWithin | internal/corefile/corefile.go:126-129 | every token's line number lies in the text, so looking lines up never goes out of bounds |
| Strings.AtoiSigned | internal/corefile/corefile.go:208-212 | a port written with a sign is read as the signed number, so a negative one is out of range |
| Strings.AtoiRefuses | internal/corefile/corefile.go:208-212 | an empty port, a lone sign, or one with any other character is no number |
| Strings.DecimalReads | internal/render/render.go:64 | the printed generation reads back as the number, negative ones included |
| Strings.LessExactly | internal/conflict/conflict.go:151-156 | names are compared by the first byte in which they differ, a proper prefix coming first |
| Net.SplitJoinHostPort | internal/corefile/corefile.go:207-221 | splitting undoes joining a host and a port |
| Net.SplitExact | internal/corefile/corefile.go:207-221 | splitting succeeds exactly on `host:port` and `[host]:port` without stray brackets or colons, and gives both back |
| EventTheorems.CreationPassesExactly | internal/controller/predicates.go:17-40 | a creation or deletion passes exactly for kube-system/coredns and kube-system/coredns-custom |
| EventTheorems.UpdatePassesExactly | internal/controller/predicates.go:40-74 | an update passes exactly if it is of coredns and changed the Corefile text read, or of coredns-custom and added, removed or changed a key ending in `.server` |
| EventTheorems.RoutePassesExactly | internal/controller/reconciler.go:76-78 | an event of a ZoneRoute passes exactly if the route comes or goes or its generation changed |
| EventTheorems.CustomFilterSound | internal/controller/predicates.go:53-58 | a filtered update of coredns-custom changes neither any plan nor what publishing does |
| EventTheorems.CoreDNSFilterSound | internal/controller/predicates.go:51-52 | a filtered update of coredns leaves what is read the same, exactly unless the Corefile goes between absent and empty |
| EventTheorems.OwnPatchPasses | internal/controller/predicates.go:53-58 | the controller's own patch starts a run iff it changed the published text |
| Events.ComputeServerEntries | internal/controller/predicates.go:63-74 | the copying loop keeps exactly the server entries |
| Convert.ExistingSpec | internal/controller/convert.go:25-36 | every listener found is passed on with its transport, zone, port and source, and nothing else is |
| Convert.ConvertExisting | internal/controller/convert.go:25-51 | whatever order the listeners are taken from the map in, the slice is the same |
| Convert.ConvertRenderRoutes | internal/controller/convert.go:53-73 | exactly the accepted routes, in order, with their upstreams in order |
| Convert.RenderRoutesSpec | internal/controller/convert.go:53-73 | a route is passed to the renderer iff it is listed and accepted, with its name, generation, zones and upstreams |
| Convert.ByListenerIsOrder | internal/controller/convert.go:37-49 | the sorting order of listeners is a strict total order |
| Conditions.ComputeAcceptedCondition | internal/controller/status.go:15-64 | the loops build the Accepted condition with its sorted message parts |

## Left out

- The Caddyfile library is not part of the repository. `Caddyfile` models its lexer (blanks,
  newlines, comments, quotes with escapes, line numbers) and its block grammar (keys on a line or
  carried on by a comma, a balanced body, snippets, a single server without braces). An import
  statement in key position is an error there, since there is no file system to resolve it
  against; import statements inside bodies, environment substitution and globbing are not modelled.
- CorefileTheorems.BlankingKeepsStructure: is stated for text whose import lines cut no quoted token, because blanking works on lines and such a token is not one.
- Openings.ClearIsSeen: says nothing of a text with an import line that cuts a quoted token or carries more than the statement; emptying such a line can hide or unbalance what is around it. `Safety.SafeExactlyIf` and `Safety.TextsDecide` hold for those texts too.
- Loading in `Openings` takes each text by itself. An import of files adds nothing, a snippet does not import itself, and an import with more than one argument, which the library refuses, is read with its first one, so that more is taken as open rather than less. The library counts the line breaks inside a quoted token when it asks whether a line begins; the model asks for a different line number.
- Names are ASCII: case folding and white space outside ASCII are not modelled.
- Transition times of conditions, and conditions of other types that someone else might add.
- Edits of a route's status by anyone but the controller: the event filter drops them by design, so convergence is stated with the controller as the only writer of status.
- Informer caches: every API call in the model sees the current store, and events arrive one by one. The one-slot queue with its waiting request is kept; back-off times are not.
- The API server's own rules beyond those used: `Api` has the zone pattern, the uniqueness of zones and the shape of addresses, ports and names; reserved names such as `localhost` are not needed.
- CoreDNS itself: whether it loads the fragment, and whether upstreams answer.
- Leader election, health probes, metrics, flags other than the cluster domain, manifests and the website.
- The text of parser and API errors is a parameter or a fixed string; the wording of conditions is modelled but nothing is proved about it beyond being a function of sorted inputs.
