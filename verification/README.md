# Verified model of the L3 correlation engine

This project models the deterministic core of the L3 correlation engine and proves what it promises: how
a causal graph is assembled from correlations, how root causes and blast radii are read off it, how onsets
are detected, and what the persistent memory keeps over every run of passes. It also covers the Gini index
of the API and the time alignment of the correlation service.

`dafny verify dfyconfig.toml` checks the whole project.

## Layout

| file | what it models |
|---|---|
| `Digraph.dfy`, `Reach.dfy`, `RootCauses.dfy`, `BlastRadius.dfy` | `correlation/engine/ranking.py`: the graph, `_forward_impact`, `rank_root_causes`, `blast_radius` |
| `Cusum.dfy` | `correlation/engine/detectors.py`: `cusum_onsets` and `_backtrack` over a z sequence |
| `Gate.dfy`, `EdgeAssembly.dfy` | `correlation/engine/gate.py` and the edge-forming part of `correlation/engine/pipeline.py` |
| `RunPass.dfy` | `correlation/engine/pipeline.py`: `run_pass` from the edges on, and what the memory files of its output |
| `EdgeMemory.dfy`, `Baselines.dfy`, `Similarity.dfy`, `CaseLibrary.dfy`, `Incidents.dfy`, `Render.dfy` | the tables of `correlation/engine/state.py`, row by row |
| `GraphMemory.dfy` | the class `GraphMemory`, whose methods update the tables in loops |
| `MemoryRuns.dfy`, `Restart.dfy`, `Reorder.dfy` | what holds after every run of `observe`, and what restarts leave unchanged |
| `Fairness.dfy` | `api/main.py`: `_gini` and `_fairness` |
| `Resample.dfy` | `correlation/service.py`: `build_inputs.to_vectors` |
| `Names.dfy`, `Sorting.dfy`, `Permutations.dfy`, `Basics.dfy`, `Config.dfy` | pod names, stable sorting, counting, small helpers, parameters |

Code that updates things step by step is a method with loops, proved equal to a function or against a
definition that does not mention the loop: walks for the worklist, window sums for the recurrence, pair
sums for the sorted formula, a search per grid point for the two-pointer loop. The results are then
theorems about those definitions.

## Conventions

- Floats are `real`, and every value is the one before `round(..., 3)`; where the source sorts by a rounded
  value, the rounding is a parameter.
- The SQLite tables are maps from primary key to row. `cases` is a sequence in insertion order, because
  ties in similarity go to the first row. A sorted JSON list of a set is that set, and the sorted motif is a
  multiset of links. The case id is a hash of the key that is injective and never empty.
- `Config.ValidConfig` holds the assumptions on the parameters: `0 <= prior <= alpha <= 1`, `prior < show`,
  `0 <= hide <= show`, decay, floor fraction and baseline alpha in `[0, 1]`,
  `0 < tau_family <= tau_merge <= 1`. `Config.DefaultsAreValid` shows that the shipped values meet them.
- The alarm level `h` of the detector is not negative.
- Graph weights lie in `[0, 1]`, which `|r| <= 1` gives (`Digraph.CorrelationsGiveUnitWeights`).
- Time stamps, correlations, lag profiles, onset times and the z sequence are inputs.

## Where code and expectation differ

- `_backtrack` is described as walking to the first sample that contributes to the shift, but the alarm
  sample itself need not contribute: drift built up while the detector is disarmed fires at the re-arming
  sample even when that sample is quiet (`Cusum.RearmFiresOnQuietSample`). A sample can raise an alarm only
  by contributing exactly when no window was above `h` before it (`Cusum.OnlyByRisingIff`), which fails for
  an alarm at most when it comes exactly three samples after its predecessor (`Cusum.AlarmContributes`).
- A victim can outrank its cause when a symptom is so faint at the cause that it falls under `CUT`; three
  accepted edges in a chain are enough (`RootCauses.FaintSymptomBlamesVictim`). A cause with nothing upstream
  and a strong arc to its victim is never outranked, whatever the symptoms, exactly when it reaches everything
  the victim reaches (`RootCauses.NeverOutrankedIff`).
- A workload-keeping renaming of pods leaves all runs unchanged exactly when it neither names nor empties a
  pod name: `_promote_case` skips an empty blast entry, but not a pod whose workload name is empty
  (`Restart.RestartSafeIff`; pass by pass `Restart.StepKeptIff`).
- The `disturbed` test of `run_pass` subsumes the two `active` tests beside it; the model keeps all three.

## Model

| member | source | states |
|---|---|---|
| Digraph.AddEdge | correlation/engine/ranking.py:19-20 | adding an edge keeps the graph well formed, adds missing endpoints and sets exactly that arc's data |
| Digraph.BuildGraph | correlation/engine/ranking.py:17-21 | nodes are exactly the endpoints and each node's successors exactly its targets, both by first appearance; arcs are exactly the pairs that occur, each with the data of its last edge |
| Digraph.CorrelationsGiveUnitWeights | correlation/engine/ranking.py:20 | correlations with abs(r) at most 1 give weights in [0, 1] |
| Digraph.FiveHops | correlation/engine/ranking.py:12-13 | no walk that still carries CUT has more than five hops, cycles or not |
| Digraph.WalkPrepend | correlation/engine/ranking.py:31 | prepending an arc to a walk multiplies its value by weight and decay |
| Reach.ForwardImpact | correlation/engine/ranking.py:24-36 | on every finite digraph each node gets the maximum over non-empty walks from root of the decayed product among walks carrying CUT, nodes with no such walk are omitted, and at most (degree+1)^5 entries are expanded |
| Reach.Expand | correlation/engine/ranking.py:30-35 | expanding one entry relaxes all its arcs, keeps every label handled, and pays for re-queued nodes out of the entry's own potential |
| Reach.ClosedIsComplete | correlation/engine/ranking.py:28-36 | an empty frontier means the recorded impacts dominate every walk that carries CUT |
| Reach.ChildrenWorthLess | correlation/engine/ranking.py:27-35 | the potential argument for termination on cyclic graphs: all children of an entry are together worth less than it |
| Reach.ImpactUnique | correlation/engine/ranking.py:24-36 | the walk definition determines the impact map |
| RootCauses.ScoreNode | correlation/engine/ranking.py:51-57 | a node's score from its best impacts on the seeds, its own symptom and the upstream penalty |
| RootCauses.Explain | correlation/engine/ranking.py:53 | the loop sums the impacts over exactly the reached seeds |
| RootCauses.ScoreAll | correlation/engine/ranking.py:50-59 | exactly the nodes with a positive score are listed, each once, in node order |
| RootCauses.RankRootCauses | correlation/engine/ranking.py:39-70 | nothing without edges; otherwise the top rows of all positive scores, sorted by score and then onset, and in node order where both tie |
| RootCauses.RankOrder | correlation/engine/ranking.py:63-66 | in the full ranking a higher score comes first, then an earlier onset, a known onset before an unknown one, and then the earlier node |
| RootCauses.UnexplainedSymptomRanked | correlation/engine/ranking.py:47-59 | a symptom that no arc leads into is always in the full ranking with score at least 1, and exactly 1 when it is the only one; symptoms are the seeds on the graph, or all nodes when there are none |
| RootCauses.LoneSymptomRanked | correlation/engine/ranking.py:50-59 | with a lone symptom the ranking lists exactly the nodes that explain it, each with the value of its best walk to it, halved when something leads into the node |
| RootCauses.ScoreAdds | correlation/engine/ranking.py:53 | the score for several symptoms is the sum of the scores for each, which with the lone scores fixes it for all |
| RootCauses.LoneSymptomScore | correlation/engine/ranking.py:51-57 | the score of any node for a lone symptom, by walks alone |
| Sorting.SortByIsStable | correlation/engine/ranking.py:63-66 | a sort orders by its key and keeps elements that tie as they stood |
| Sorting.StableSortUnique | correlation/engine/ranking.py:63-66 | the order and the order within ties determine the sorted list, whatever the algorithm |
| Sorting.TiesKeepOrder | correlation/engine/ranking.py:63-66 | of two elements that tie, the one listed first stood first |
| RootCauses.Normalise | correlation/engine/ranking.py:62-70 | each row's share times the total is its score, and the onset is the pod's own |
| RootCauses.ImpactThroughArc | correlation/engine/ranking.py:30-35 | an impact of v reaches u through an arc, scaled, unless the extra hop takes it under CUT |
| RootCauses.VictimScoresNoMore | correlation/engine/ranking.py:47-59 | an unexplained cause with a strong arc to a victim, reaching the symptoms its victim reaches by whatever path, scores at least as much, strictly more when the victim is a seed |
| RootCauses.NeverOutrankedIff | correlation/engine/ranking.py:30-59 | such a cause is outranked by its victim for no symptom set exactly when it reaches every node its victim reaches |
| RootCauses.CauseRankedFirst | correlation/engine/ranking.py:63-70 | in the ranking a seed with a cause that reaches its symptoms never appears without the cause ahead of it |
| RootCauses.FaintSymptomBlamesVictim | correlation/engine/ranking.py:32 | on the graph of any chain of three accepted edges with r = 1, 0.6 and 0.6 the victim outranks its cause, because the symptom falls under CUT at the cause |
| BlastRadius.BlastRadius | correlation/engine/ranking.py:73-90 | distinct pods other than root, each with impact and ETA of one same simple path, no arc that carries CUT escapes, worst rounded impact first, and in breadth-first order of discovery where that ties |
| BlastRadius.WorstFirst | correlation/engine/ranking.py:90 | a greater rounded impact comes first, and where they tie the pod found first |
| BlastRadius.Search | correlation/engine/ranking.py:77-89 | the queue finds pods visit by visit and within a visit in arc order, each one hop beyond the visited pod |
| BlastRadius.BreadthFirst | correlation/engine/ranking.py:77-89 | pods are found level by level, none before one that is fewer hops away along its path |
| BlastRadius.Expand | correlation/engine/ranking.py:82-89 | expanding one entry keeps reports sound, the frontier exactly the visits still to come, level by level, and every handled node contained |
| BlastRadius.ReportKeepsSearching | correlation/engine/ranking.py:86-89 | reporting one more pod extends its predecessor's simple path and keeps the whole search state |
| BlastRadius.BlastWithinImpact | correlation/engine/ranking.py:83-88 | a reported impact is at least CUT and at most the best forward impact |
| Cusum.CusumOnsets | correlation/engine/detectors.py:50-63 | the one-pass recurrence reports exactly the alarms of the window definition, nothing on short input |
| Cusum.OnsetMeans | correlation/engine/detectors.py:56-71 | an onset has its alarm's direction and z-score, and starts the longest stretch beyond 0.5 in that direction that ends just before the alarm |
| Cusum.AlarmDirection | correlation/engine/detectors.py:55-59 | an alarm is raised by a window that sums above h in its direction, upward if there is any such window |
| Cusum.Backtrack | correlation/engine/detectors.py:66-71 | the loop returns the onset of the backward walk |
| Cusum.DriftStep | correlation/engine/detectors.py:53-54 | gp and gn are the largest window sum since the last reset, the empty window included |
| Cusum.DriftDecides | correlation/engine/detectors.py:55-59 | a drift above h means exactly that some window since the reset sums above h |
| Cusum.OnsetStretch | correlation/engine/detectors.py:66-71 | every sample from the onset up to the alarm contributes, and the one before the onset does not |
| Cusum.AlarmsApart | correlation/engine/detectors.py:51-62 | alarms come in order, only when armed, and at least three samples apart |
| Cusum.AlarmsExact | correlation/engine/detectors.py:52-62 | between two alarms no sample fires, and each alarm fires in the reported direction |
| Cusum.RisesFromQuiet | correlation/engine/detectors.py:53-59 | when no window was above h before a sample, only a sample above k takes one there |
| Cusum.OnlyByRisingIff | correlation/engine/detectors.py:53-59 | while armed, a sample can raise an alarm only by exceeding k itself, exactly when no window that ends before it is above h |
| Cusum.AlarmContributes | correlation/engine/detectors.py:51-71 | an alarm sample contributes unless a window was above h before it, which takes an alarm exactly three samples after its predecessor; the same state decides whether it had to contribute |
| Cusum.RearmFiresOnQuietSample | correlation/engine/detectors.py:55-58 | a concrete sequence whose second alarm sample is quiet |
| Gate.Witness.CouplingMeans | correlation/engine/gate.py:49-63 | only a shared disk or network dependency couples; same-node residence couples a source only |
| Gate.Witness.KindsSymmetric | correlation/engine/gate.py:37-47 | witness kinds do not depend on direction |
| Gate.AcceptedEdge | correlation/engine/gate.py:66-94 | an edge is accepted iff it is strong, a neighbouring lag is too, the pods share a disk or a network dependency, and the onsets allow it; it has the given direction, r and lag, lists exactly its evidence, and is never write-marked |
| Gate.Peak | correlation/engine/pipeline.py:36 | the peak is the first point of the profile that no point exceeds |
| Gate.SourceEdgeShape | correlation/engine/pipeline.py:25-44 | a writer edge exists iff coupled, positively correlated with support and not late; it is write-marked, has r and lag of the profile's first peak, and lists exactly the source witnesses |
| EdgeAssembly.PsiEdges | correlation/engine/pipeline.py:151-167 | the loops form exactly the correlation edges, at most one per unordered pair, in visiting order |
| EdgeAssembly.SourceEdges | correlation/engine/pipeline.py:172-192 | the loops form exactly the source edges, writer by writer and pod by pod |
| EdgeAssembly.Dedup | correlation/engine/pipeline.py:195-199 | each pair keeps the first of its edges that no other of the pair is preferred to |
| EdgeAssembly.FormEdges | correlation/engine/pipeline.py:148-200 | the output is all source edges plus the correlation edges of pairs without one, one edge per pair, in endpoint order, or in visiting order when there is no write signal |
| EdgeAssembly.UnmarkedEdge | correlation/engine/pipeline.py:151-167 | every unmarked edge of the output leads in the stronger direction between two pods, with its correlation, lag and evidence, and the pair is coupled, strong, supported and timely while something is anomalous |
| EdgeAssembly.UnmarkedIff | correlation/engine/pipeline.py:151-199 | conversely such a pair is joined by a correlation edge exactly when no source edge joins it |
| EdgeAssembly.MarkedIff | correlation/engine/pipeline.py:172-192 | the output has a source edge from w to v exactly when w deviated, out-writes v, is coupled to it, drives it and did not start late, and v is anomalous; the edge reads off the peak |
| EdgeAssembly.EndpointOrder | correlation/engine/pipeline.py:200 | sorted output goes by source name and then by target name |
| EdgeAssembly.SourceShape | correlation/engine/pipeline.py:174-192 | a source edge leads from a deviating writer to a finding that writes less, and does not start late |
| EdgeAssembly.OneSourcePerPair | correlation/engine/pipeline.py:188-192 | at most one direction of a pair can be a source edge |
| EdgeAssembly.OnePsiPerPair | correlation/engine/pipeline.py:151-167 | at most one correlation edge per unordered pair |
| EdgeAssembly.BestIsAssembled | correlation/engine/pipeline.py:20-22 | preference picks the source edge of a pair if there is one, else its correlation edge |
| EdgeAssembly.SourceKeepsPair | correlation/engine/pipeline.py:193-199 | an accepted source edge is kept and displaces every other edge of its pair |
| EdgeAssembly.SourceEdgesAcyclic | correlation/engine/pipeline.py:188-200 | write activity falls strictly along source edges, so they form no cycle |
| EdgeAssembly.SameNodeOnly | correlation/engine/gate.py:20-25 | with only same-node residence known every edge is a source edge into a finding |
| RunPass.RunPass | correlation/engine/pipeline.py:148-212 | edges, graph, ranking and blast radius fit together: the graph is that of the assembled edges with weights in [0, 1], the roots are the top of its ranking for the breached or anomalous pods, and the blast radius is that of the first root |
| RunPass.VictimExplained | correlation/engine/state.py:496-504 | every victim of the incident filed of a pass lies at the end of a simple path of at most five hops from the top root that carries CUT, or is an edge target while the blast radius names nothing but the root |
| RunPass.FiledIff | correlation/engine/state.py:479-506 | with one pod per workload an incident is filed exactly when the top root owns a source edge; then every victim is explained by such a path, and the anomalous target of each of its source edges is a victim |
| RunPass.AssemblyCarried | correlation/engine/pipeline.py:193-202 | every assembled edge is an arc of its own weight, and a source edge is a strong arc into an anomalous pod |
| RunPass.EdgeBounded | correlation/engine/pipeline.py:36-44 | assembled edges carry correlations of the pass, so the ranking gets weights in [0, 1] |
| Names.StableWorkloadDropsSuffixes | correlation/engine/state.py:32-35 | two dash-free suffixes are dropped and nothing else |
| Names.StableWorkloadShape | correlation/engine/state.py:32-35 | conversely every longer name is its workload and two dash-free suffixes |
| Names.LessMeans | correlation/engine/pipeline.py:200 | name order: the first difference decides, and a proper prefix comes first |
| EdgeMemory.PassAt | correlation/engine/state.py:263-267 | within a pass each key evolves on its own |
| EdgeMemory.RunAt | correlation/engine/state.py:263-267 | over a run each key evolves on its own |
| EdgeMemory.ConfirmKeeps | correlation/engine/state.py:337-352 | a confirmation restores base <= confidence, and lowers neither |
| EdgeMemory.SeedKeeps | correlation/engine/state.py:309-326 | seeding lifts the floor to the prior, possibly over the confidence |
| EdgeMemory.DecayKeeps | correlation/engine/state.py:386-390 | decay restores base <= confidence and keeps the floor |
| EdgeMemory.PassKeeps | correlation/engine/state.py:263-326 | a pass keeps 0 <= base <= confidence <= 1, the visibility bounds and the displayed state, although seeding lifts base over confidence mid-pass |
| EdgeMemory.RunKeepsTable | correlation/engine/state.py:263-398 | the same after every run, and floors never fall |
| EdgeMemory.SchmittTrigger | correlation/engine/state.py:342-388 | an edge appears only at show, disappears only below hide, and keeps its visibility in between |
| EdgeMemory.StateShown | correlation/engine/state.py:352-388 | a row changes only in a pass that confirms it or finds both workloads present without an edge, and its state says which, whether it is visible and whether it rests on its floor |
| EdgeMemory.RowTellsHistory | correlation/engine/state.py:309-397 | after every run a row counts its confirmations, shows the last edge that confirmed it, or the witnessed disk if none did, and dates its first, last and latest change |
| EdgeMemory.WitnessedPass | correlation/engine/state.py:304-320 | a witnessed pair of present workloads always has a row; a new one holds exactly the prior, hidden and without hits, or grows from the prior if confirmed at once |
| EdgeMemory.SeedsMeans | correlation/engine/state.py:304-307 | exactly the name-ordered pairs of present workloads that some witnessed pair spans are seeded |
| EdgeMemory.StaysVisible | correlation/engine/state.py:386-390 | a visible edge whose floor reached hide stays visible in every future run |
| EdgeMemory.PassBase | correlation/engine/state.py:322-351 | one pass takes the floor to the maximum of itself, the prior if seeded, and the share of the confidence if confirmed |
| EdgeMemory.BaseIsPeak | correlation/engine/state.py:349-351 | the floor is the maximum of the prior, if ever seeded, and floor_frac times the peak confirmed confidence |
| EdgeMemory.GrowthClosedForm | correlation/engine/state.py:309-345 | n confirmations over passes with at least one each take the confidence to 1-(1-s)(1-alpha)^n, from s the row's confidence, the prior for a new key seeded in the first pass, or 0 |
| EdgeMemory.DecayClosedForm | correlation/engine/state.py:386-387 | k quiet passes from c give max(base, c(1-decay)^k) |
| Similarity.JaccardRange | correlation/engine/state.py:51-56 | symmetric, in [0, 1], and 1 exactly for equal sets |
| Similarity.JaccardTriangle | correlation/engine/state.py:51-56 | 1 - Jaccard obeys the triangle inequality |
| Similarity.SimRange | correlation/engine/state.py:587-600 | symmetric, in [0, 1], and 1 exactly for the same type and shape |
| Similarity.FeatureWorth | correlation/engine/state.py:598-600 | victims and motif are worth 0.4 each and stressors 0.2 |
| Similarity.TypesApart | correlation/engine/state.py:593-594 | fingerprints of different signal or witness kind have similarity 0, those of one type that share anything more |
| Similarity.JaccardCounts | correlation/engine/state.py:51-56 | the overlap is the common share of the union |
| Similarity.SimTriangle | correlation/engine/state.py:587-600 | 1 - similarity obeys the triangle inequality within a type |
| Similarity.FoldedAreClose | correlation/engine/state.py:544-559 | two incidents within tau of one prototype are within 2 tau - 1 of each other |
| CaseLibrary.NearestIsBest | correlation/engine/state.py:538-542 | the search finds the first case of greatest similarity, none when all are 0 |
| CaseLibrary.RecurrenceMeans | correlation/engine/state.py:544-559 | an incident within tau_merge of its nearest case is a recurrence of it, and changes that case's counter, last time and lead alone |
| CaseLibrary.VariantMeans | correlation/engine/state.py:560-576 | one within tau_family only opens a case of its own in that family |
| CaseLibrary.NovelMeans | correlation/engine/state.py:560-576 | one near no case opens a case that founds a family |
| CaseLibrary.SameToLibrary | correlation/engine/state.py:526-532 | similarity 1 means the same root, victims, signal, witness kind and links |
| CaseLibrary.DifferenceCosts | correlation/engine/state.py:598-600 | another root costs 0.2, other victims or other links 0.4 |
| CaseLibrary.NeverIgnored | correlation/engine/state.py:560-576 | INSERT OR IGNORE never ignores |
| CaseLibrary.SameKeyFolds | correlation/engine/state.py:544-559 | an incident whose key is stored folds into exactly that case with similarity 1 |
| CaseLibrary.LeadStep | correlation/engine/state.py:548-552 | the lead stays known iff some lead is, within their range, and their mean when all are known |
| CaseLibrary.PromotionKeeps | correlation/engine/state.py:534-583 | every incident keeps the library separated, grouped into founded families, counted and logged |
| CaseLibrary.PrototypesFixed | correlation/engine/state.py:553-559 | a promotion changes no stored id, key or family |
| CaseLibrary.NoDrift | correlation/engine/state.py:553-559 | incidents filed under one case have similarity at least 2 tau_merge - 1 |
| Incidents.FiledIsSourceRooted | correlation/engine/state.py:484-506 | only a verdict whose root owns a source edge is filed, and the root is not its own victim |
| Incidents.DominantIsMostFrequent | correlation/engine/state.py:602-611 | the witness kind is the most frequent physical evidence, first by name among equals |
| Incidents.IncidentMeans | correlation/engine/state.py:478-532 | a pass is filed exactly when its top root's workload owns a source edge and there is a victim; the incident records the root, the victims, the signal, the witness kind listed most often, how often each link occurs, and the mean ETA or else the mean positive lag |
| Incidents.RecordUnique | correlation/engine/state.py:503-532 | these facts determine the incident |
| Baselines.MedianIsHalfway | correlation/engine/state.py:631-632 | the median is the interpolated 50th percentile |
| Baselines.MedianBelowP90 | correlation/engine/state.py:631-644 | no window's median exceeds its interpolated 90th percentile |
| Baselines.MedianCounts | correlation/engine/state.py:631 | at least half of a window lies at the median or below, and at least half at it or above |
| Baselines.QuantileCounts | correlation/engine/state.py:644 | a percentile parts the window at its position |
| Baselines.SpreadCounts | correlation/engine/state.py:632 | at least half of a window lies within the learned spread of the median, and at least half at that distance or beyond |
| Baselines.ConstantWindow | correlation/engine/state.py:631-632 | a window of one value has that value as median and no spread |
| Baselines.ShiftKeepsSpread | correlation/engine/state.py:631-632 | moving a window moves its median with it and leaves its spread alone |
| Baselines.WindowLearned | correlation/engine/state.py:627-650 | a window of at least twelve samples is learned into its workload's row and nothing else: taken as it is at first, ignored when it is a storm, and else moving median and spread to between the row's and its own |
| Baselines.LearningClosedForm | correlation/engine/state.py:646-650 | n equal windows that are not storms leave the share (1-a)^n of the way to their median and spread, and count n |
| Baselines.ThresholdMeans | correlation/engine/state.py:653-662 | the threshold of a mature row lies dev_k spreads above its median, or dev_k floors if the spread is below the floor |
| Baselines.MedianRise | correlation/engine/state.py:643-650 | once mature, a window raises the median by at most base_alpha times the band |
| Baselines.StormsSkipped | correlation/engine/state.py:644-645 | windows above a mature threshold leave the row as it was |
| Baselines.CountsGrow | correlation/engine/state.py:637-650 | rows never disappear and their counts never fall |
| GraphMemory.GraphMemory.constructor | correlation/engine/state.py:79-87 | a new memory is empty |
| GraphMemory.GraphMemory.UpdateBaselines | correlation/engine/state.py:620-651 | the loop updates the table as the fold over the windows |
| GraphMemory.GraphMemory.SeedStructural | correlation/engine/state.py:298-326 | in whatever order pairs are visited, exactly the eligible keys are seeded |
| GraphMemory.GraphMemory.SeedPair | correlation/engine/state.py:304-326 | one pair seeds at most one key, in name order |
| GraphMemory.GraphMemory.ConfirmEdge | correlation/engine/state.py:328-376 | confirming rewrites exactly the edge's own row |
| GraphMemory.GraphMemory.DecayAbsentEdges | correlation/engine/state.py:378-398 | exactly the rows of this signal that are not live and have both workloads present decay |
| GraphMemory.GraphMemory.FindNearest | correlation/engine/state.py:538-542 | the loop finds the nearest case |
| GraphMemory.GraphMemory.FoldInto | correlation/engine/state.py:544-559 | folding changes counters and lead of one row only |
| GraphMemory.GraphMemory.PromoteCase | correlation/engine/state.py:478-585 | files the incident, if any, and logs it; otherwise changes nothing |
| GraphMemory.GraphMemory.BaselineThreshold | correlation/engine/state.py:653-662 | none while immature, otherwise median plus the band |
| GraphMemory.GraphMemory.Observe | correlation/engine/state.py:250-281 | one pass takes all tables through the specified step and renders live edges and backbone |
| GraphMemory.SeedOneMore | correlation/engine/state.py:309-326 | seeding a key again changes nothing |
| Render.CurrentPod | correlation/engine/state.py:402-404 | none iff the workload runs nowhere, otherwise a pod of that workload |
| Render.GroupByPair | correlation/engine/state.py:431-441 | each pair that is eligible and not live keeps a most confident row |
| Render.RenderLive | correlation/engine/state.py:405-426 | every live edge is shown in order with its own row |
| Render.RenderHeld | correlation/engine/state.py:428-464 | exactly one held edge per eligible, running, not live pair, the most confident of both directions |
| Render.NoGhosts | correlation/engine/state.py:443-447 | a held edge joins pods that run now and whose pair is not live |
| Render.HeldShowsRow | correlation/engine/state.py:428-464 | every held edge shows a remembered row that is not live, from the last listed pod of its first workload to that of its second, with what the row remembers, and no row between the two is more confident |
| Render.RowIsHeld | correlation/engine/state.py:428-447 | conversely every remembered row that is not live and whose workloads run is shown by an edge between them |
| Render.CurrentPodIsLast | correlation/engine/state.py:404 | a workload's current pod is the last one listed |
| MemoryRuns.RunKeeps | correlation/engine/state.py:250-281 | after every run every edge row obeys its bounds and the library its invariants |
| MemoryRuns.RunKeepsLibrary | correlation/engine/state.py:534-576 | after every run cases are below tau_merge of each other, founders below tau_family, variants near an earlier case of their family |
| MemoryRuns.BackboneSeeded | correlation/engine/state.py:254-326 | two running pods on one disk always have a row after the pass; a new one holds exactly the prior, or grows from it when confirmed in the same pass |
| MemoryRuns.RowUnconfirmed | correlation/engine/state.py:257-398 | a row decays when both its workloads run without an edge between them, and is left alone when one does not run |
| MemoryRuns.RowConfirmed | correlation/engine/state.py:258-376 | every edge of a pass has a row that shows the last edge between the two workloads and counts them all |
| MemoryRuns.RowIsHistory | correlation/engine/state.py:250-398 | after every run from empty a row counts, shows and dates its history |
| MemoryRuns.PassLearns | correlation/engine/state.py:254-254 | a pass learns exactly the windows of each workload, in order |
| MemoryRuns.OnlyPodTeaches | correlation/engine/state.py:620-650 | the only pod of a workload teaches it its window |
| MemoryRuns.DifferentCouplingsNeverFold | correlation/engine/state.py:593-594 | two filed passes whose dominant physical evidence differs are never filed under one case, in any run |
| MemoryRuns.CasesAreDated | correlation/engine/state.py:553-576 | after every run each case was first seen at its first observation and last seen at its last |
| MemoryRuns.FloorsNeverFall | correlation/engine/state.py:349-351 | over every run rows stay and their floors never fall |
| MemoryRuns.FloorIsHistory | correlation/engine/state.py:298-351 | after every run from empty a floor is the peak of its history |
| MemoryRuns.BackboneStaysVisible | correlation/engine/state.py:386-390 | over every run a visible edge with floor at hide stays visible |
| MemoryRuns.PrototypesNeverChange | correlation/engine/state.py:553-559 | over every run cases are only appended and prototypes never change |
| MemoryRuns.NoDriftEver | correlation/engine/state.py:544-600 | any two incidents one case absorbed in any run have similarity at least 2 tau_merge - 1 |
| MemoryRuns.OccurrencesConserved | correlation/engine/state.py:547-583 | occurrences add up to the passes that held an incident |
| MemoryRuns.RecurrenceFolds | correlation/engine/state.py:544-559 | after any run a stored prototype's incident folds into its own case |
| MemoryRuns.MaturityIsPermanent | correlation/engine/state.py:653-662 | a workload that has a threshold keeps having one |
| MemoryRuns.StormLeavesBaseline | correlation/engine/state.py:620-650 | a storm of any length is not learned |
| Restart.StepKeptIff | correlation/engine/state.py:254-269 | renaming the pods of a pass changes nothing the memory stores, exactly when no nameless victim comes or goes |
| Restart.RestartInvariance | correlation/engine/state.py:250-281 | runs whose passes differ by such renamings, and by any reordering that keeps the order within each workload and pair of workloads, end with equal tables |
| Restart.IncidentKeptIff | correlation/engine/state.py:483-526 | a renamed pass holds the same incident exactly when no nameless victim comes or goes |
| Restart.FirstCasesKeptIff | correlation/engine/state.py:496-576 | the cases that a first pass stores are the same under the same condition |
| Restart.RestartSafeIff | correlation/engine/state.py:250-281 | a workload-keeping renaming leaves every run of every memory, and the cases of every run from empty, unchanged exactly when it neither names nor empties a pod name |
| Reorder.StepReordered | correlation/engine/state.py:250-281 | a pass has the same effect in whatever order its workloads and pairs of workloads come |
| Reorder.IncidentShuffled | correlation/engine/state.py:483-526 | the incident does not depend on the order of edges or of the blast radius |
| Baselines.UpdatedAt | correlation/engine/state.py:625-650 | a baseline row depends on its own workload's windows only, in their order |
| Reorder.OrderMatters | correlation/engine/state.py:353-375 | within one pair of workloads the order counts: two confirmations commute only when they read the same |
| Fairness.GiniIsPairwise | api/main.py:220-228 | the sorted formula is the sum of all pairwise differences over twice n times the sum |
| Fairness.SortedPairSum | api/main.py:227-228 | for ascending values the rank sum yields the pair sum |
| Fairness.GiniPermuted | api/main.py:222 | the index does not depend on the order of the values |
| Fairness.GiniRange | api/main.py:220-228 | in [0, 1 - 1/n], and 0 exactly when all counted values are equal |
| Fairness.NonNegativeMeans | api/main.py:222 | every value that is not negative counts as often as it occurs, and no other |
| Fairness.GroupByNamespace | api/main.py:232-234 | the loop collects exactly each namespace's values in order |
| Fairness.Fairness | api/main.py:231-235 | one row per namespace in name order, over exactly its values |
| Fairness.RowsByName | api/main.py:235 | rows are listed by name, each namespace once |
| Resample.HeldIsLast | correlation/service.py:139-141 | the held sample is the last one no later than the limit, or the first |
| Resample.FillColumns | correlation/service.py:138-143 | the two-pointer loop equals a search per grid point |
| Resample.ToVectors | correlation/service.py:133-146 | exactly the fresh, covered pods are kept, with gaps as zero |
| Resample.FilledColumnIsHeld | correlation/service.py:142-143 | a column is filled exactly when the last sample up to half a step ahead lies within step, and with that sample |
| Resample.KeptMeans | correlation/service.py:136-145 | a pod is kept exactly when its last sample is at most two steps old and at least twelve grid points show one |
| Resample.VectorMeans | correlation/service.py:142-146 | a kept vector holds what the samples show at each grid point, and 0 where they show nothing |
| Resample.GridMeans | correlation/service.py:131 | the grid ends at the latest sample and goes back step by step |
| Resample.NearSampleFills | correlation/service.py:139-143 | a sample within half a step always fills the column |
| Config.DefaultsAreValid | correlation/engine/state.py:59-73 | the shipped parameters meet the assumptions, and 2 tau_merge - 1 exceeds tau_family |

## Left out

- Rounding to three digits, wall-clock time, threads, locks, JSON, SQLite and schema migration.
- `run_pass` before edge forming: onset filtering, the event centre, findings and their classes; their results are inputs.
- The correlation numerics of `lagcorr.py`, `robust_sigma`, `ewma`, `classify` and `forecast_to_limit`: library statistics.
- The columns `lag_structure_json`, `scenario_label`, `remediation` and `source`, and the snapshot, model-version and mistake tables: written and not read by the engine core.
- The graph stored with a case observation is represented by the incident read off it.
- The gathering of samples by signal in `build_inputs`, the rest of `api/main.py`, `merge.py`, `forecast.py` and the aggregator.
- GraphMemory.GraphMemory.Observe: the re-ranking of the rendered graph, the snapshot row and the counters of `stats` are not part of the result.
- Render.GroupByPair: which of two equally confident rows of a pair is kept follows the table's row order in the source and is left open.
- Render.RenderHeld: the order of held edges, and which of two equally confident rows of a pair is shown, follow the table's row order in the source and are left open.
- Restart.RestartInvariance: two pods of one workload that change places in a pass may change what is learned (`Reorder.OrderMatters`); the source then depends on their order too.
