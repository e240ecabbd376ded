# Verified model of the algorithms of POWSYS365

POWSYS365 is a C++ application for power system studies. This project models the self-contained
algorithms in it and proves what they promise, for all inputs and all runs. To verify it, run
`dafny verify dfyconfig.toml`.

Loops that change variables, arrays and objects are methods with the same loops; each is proved
against a function of its input or of the old state, and the theorems are lemmas about these
functions. Where std::map or QSet fixes or leaves open an order, so does the model.

| component | files |
|---|---|
| Islands, validation and import of networks | `NetworkData`, `NetworkGraph`, `PostImportValidator`, `ValidationCodes`, `ImportEngine` |
| Harmonic admittance matrix | `HarmonicYbus`, `HarmonicLaws` |
| Flicker filter, percentiles and severity | `Flicker`, `FlickerSeverity` |
| GeoJSON parser and exporter | `GeoJsonParser`, `GeoJsonLexemes`, `GeoJsonExporter`, `GeoJsonCoordinates`, `GeoJsonProperties`, `GeoJsonFeatures`, `GeoJsonStandard`, `GeoJsonMembers`, `GeoJsonText`, `GeoJsonName`, `GeoJsonReadable`, `GeoJsonQuotes`, `GeoJsonRoundTrip`, `GeoJsonBackslash` |
| Line drawing | `LineDrawing` |
| LRU icon cache | `IconCache` |
| Edit distance and fuzzy search | `EditDistance`, `GlossarySearch` |
| Inverted index and search | `HelpTokens`, `HelpIndex`, `HelpSearch`, `HelpEngine`, `Ranking` |
| JSON strings of the configuration | `JsonString` |
| Audio voices | `AudioVoices`, `AudioEngine` |
| Navigation history | `HelpHistory` |
| Shared | `Common`, `Numbers` |

## Where the code does not do what it seems to

- Points and polygons are read as RFC 7946 lays them out (`GeoJsonStandard.PointIsRead`,
  `GeoJsonStandard.PolygonIsRead`) but printed otherwise, so exported ones do not come back (`GeoJsonCoordinates.PointIsMerged`,
  `GeoJsonCoordinates.PolygonIsLost`), a collection named "features" loses its features
  (`GeoJsonRoundTrip.FeaturesAreHidden`), and strings come back escaped, names only up to their first
  quote (`GeoJsonRoundTrip.ExportIsRead`). A property value with a quote is not read back, even if
  the strings around it are made to repair it (`GeoJsonQuotes.QuotesNeverReturn`), and a type that
  ends in a backslash can lose the feature list (`GeoJsonBackslash.BackslashTypeIsLost`).
  `GeoJsonRoundTrip.UnchangedComesBack` and `GeoJsonRoundTrip.RoundTripIff` say for which collections
  parsing undoes exporting.
- The stemming rules for "es" and "ies" never apply (`HelpTokens.DeadRules`).
- A search without tokens is said to return all documents and returns none
  (`HelpSearch.NoTokensNoHits`, which says when that is the same; `HelpEngine.NoStemsInStar`).
- Indexing a changed document again without an update leaves stale postings
  (`HelpIndex.StalePosting`; exactly when: `HelpIndex.IndexedIsExactIff`).
- Updating a document before the engine is initialized removes it (`HelpEngine.Engine.UpdateDocument`).
- The report of the validator leaves out tertiary windings and can count more islands than the
  validation (`PostImportValidator.ReportCanCountMore`; exactly when:
  `PostImportValidator.ReportCountsSameIff`).
- A network without buses is never reported for what it refers to (`PostImportValidator.ErrorsIff`).
- Generating the system sounds again while one plays leaves a voice with an old buffer
  (`AudioVoices.AlarmKeepsOldBuffer`; exactly when: `AudioVoices.UpToDateIff`).
- Painting a translucent colour over a translucent pixel can wrap around to black
  (`LineDrawing.BlendWraps`); over opaque and empty pixels it does what it should
  (`LineDrawing.PutOverPixel`).
- A blank behind a bare literal in a configuration file is read as a part of it
  (`JsonString.LiteralKeepsBlank`).
- A line drawn from the other end can differ where the ideal line lies between two pixels
  (`LineDrawing.KnightMoveDiffers`; exactly when: `LineDrawing.ReverseVisitsSameIff`).

## Model

| member | source | states |
|---|---|---|
| NetworkGraph.DfsConnectivity | io/post_import_validator.cpp:164-182 | The stack loop terminates although buses are pushed more than once, and adds to the set it is given exactly the buses joined to the start by a path that avoids that set. |
| NetworkGraph.FindIslands | io/post_import_validator.cpp:184-198 | Every island is the full component of one of the buses and every bus lies in an island; no island is empty; the islands are pairwise disjoint as soon as the adjacency is symmetric, although each search starts from an empty set. |
| NetworkGraph.SameIslandIffJoined | io/post_import_validator.cpp:184-198 | Two buses lie in one island if and only if a path joins them. |
| NetworkGraph.ManyIslandsIffApart | io/post_import_validator.cpp:135-144 | There is more than one island if and only if two buses are not joined. |
| NetworkGraph.IslandsRefine | io/post_import_validator.cpp:184-198 | With fewer edges, every island lies inside one island of the larger graph. |
| NetworkGraph.IslandCountGrows | io/post_import_validator.cpp:184-198 | With fewer edges there are at least as many islands. |
| NetworkGraph.SameCountIffSameJoins | io/post_import_validator.cpp:184-198 | With fewer edges there are equally many islands if and only if the same buses are joined. |
| PostImportValidator.LinksSymmetric | io/post_import_validator.cpp:51-73 | The graph built from in-service branches and windings is symmetric, self-loops and dangling ends included. |
| PostImportValidator.BuildAdjacency | io/post_import_validator.cpp:51-73 | The adjacency loops give exactly the edges of in-service branches and windings (with or without tertiary windings) and an entry for every bus. |
| PostImportValidator.ValidateConnectivity | io/post_import_validator.cpp:38-162 | The findings, in order: no buses; one error per missing reference; one warning for several islands; one warning for every bus without edges, generators and loads. |
| PostImportValidator.ValidateConsistency | io/post_import_validator.cpp:204-253 | One error per repeated bus id, found by counting, then the warnings for voltages, ratings and statuses. |
| PostImportValidator.ValidateElectrical | io/post_import_validator.cpp:260-322 | The warnings for impedances, winding ratios and generator limits, element by element. |
| PostImportValidator.ValidateTopology | io/post_import_validator.cpp:328-381 | The warnings for self-loops, for bus pairs with two branches of one circuit id (found through a table of circuit ids), and for three-winding transformers. |
| PostImportValidator.Validate | io/post_import_validator.cpp:16-32 | The four lists of findings one after the other. |
| PostImportValidator.ConnectedIff | io/post_import_validator.cpp:135-144 | No island warning if and only if every two buses are joined by in-service branches or windings. |
| PostImportValidator.ConnectivityIff | io/post_import_validator.cpp:38-162 | No connectivity finding if and only if there are buses, every reference names a bus, all buses are joined and none is isolated. |
| PostImportValidator.ConsistencyIff | io/post_import_validator.cpp:204-253 | No consistency finding if and only if bus ids are distinct and all checked values are in range. |
| PostImportValidator.ElectricalIff | io/post_import_validator.cpp:260-322 | No electrical finding if and only if all impedances, winding ratios and generator limits are in range. |
| PostImportValidator.TopologyIff | io/post_import_validator.cpp:328-381 | No topology finding if and only if there is no self-loop, no repeated circuit between the same two buses in either direction, and no incomplete tertiary winding. |
| PostImportValidator.NothingToReportIffClean | io/post_import_validator.cpp:16-32 | The whole validation reports nothing if and only if the network meets every condition above. |
| PostImportValidator.ErrorsIff | io/post_import_validator.cpp:38-133 | Some finding is an error if and only if there are buses and a reference is missing or a bus id repeats; what a network without buses refers to is never reported. |
| ValidationCodes.CodesAreCounted | io/post_import_validator.cpp:38-381 | Every code is reported exactly as often as the network calls for it: once for each branch, winding, generator, load, shunt or bus with the fault of that code, each repeated id and each pair of buses with parallel branches of one circuit; nothing that refers to buses if there are none. |
| ValidationCodes.SeveritiesAre | io/post_import_validator.cpp:38-381 | Missing references and repeated ids are errors, a missing importer is fatal, everything else is a warning. |
| ValidationCodes.ConnectionsAre | io/post_import_validator.cpp:51-73 | Two buses are connected directly if and only if a branch or two windings of a transformer, with status 1, have them as ends; for the report tertiary windings do not count. |
| PostImportValidator.ReportIslands | io/post_import_validator.cpp:442-460 | The report's own adjacency, which leaves out tertiary windings, gives disjoint islands that cover the buses. |
| PostImportValidator.ReportRefinesValidation | io/post_import_validator.cpp:442-460 | Every island of the report lies inside one island of the validator. |
| PostImportValidator.ReportCountsMore | io/post_import_validator.cpp:442-460 | The report counts at least as many islands as the validator, and equally many if and only if the same buses are joined without tertiary windings, so whenever no in-service transformer has a tertiary bus. |
| PostImportValidator.ReportCountsSameIff | io/post_import_validator.cpp:442-460 | Where all references hold, the counts are equal if and only if every in-service tertiary bus is joined to the first bus of its transformer without tertiary windings. |
| PostImportValidator.ReportCanCountMore | io/post_import_validator.cpp:442-460 | For three buses and one transformer with three windings the report counts more islands than the validator. |
| ImportEngine.ImportFile | io/import_export_engine.cpp:35-102 | The result in every case: no importer, fatal findings before loading, and otherwise the loaded result after cancellation, validation and the final status rule. |
| ImportEngine.ValidatedOutcome | io/import_export_engine.cpp:80-100 | A validated import keeps a status that is no success; a success stays one if and only if loading found nothing but information and the network is clean, and becomes a warning otherwise. The network and the findings of the loader are kept, those of the validator follow. |
| ImportEngine.FindingsNeverFail | io/import_export_engine.cpp:73-100 | What is found in a loaded network never turns the import into an error, and never loses the network. |
| ImportEngine.FatalIffNoImporter | io/import_export_engine.cpp:36-42 | Of the codes of the validator and the engine only the missing importer is fatal. |
| ImportEngine.SuccessIffClean | io/import_export_engine.cpp:80-100 | A validated import succeeds if and only if loading succeeded with nothing but information and the network is clean. |
| ImportEngine.SuccessUnvalidated | io/import_export_engine.cpp:80-100 | Without validation or data, a success with anything but information among its findings becomes a warning, and nothing else changes. |
| ImportEngine.CancelledNeverSucceeds | io/import_export_engine.cpp:73-100 | A cancelled import stays cancelled, whatever validation and the final rule would say, and keeps its network and its findings. |
| ImportEngine.SuccessMeansSoundNetwork | io/import_export_engine.cpp:69-101 | A successful, validated import has buses, all references resolved, distinct bus ids, and every two buses joined by an in-service path. |
| EditDistance.LevenshteinDistance | help/glossary_manager.cpp:12-39 | The two rows that are overwritten and swapped hold the distance of the prefixes, so the last cell is the recursive distance of the two strings. |
| EditDistance.LevIsLeastEditCount | help/glossary_manager.cpp:12-39 | The distance is the least number of single-character insertions, deletions and substitutions that lead from one string to the other. |
| EditDistance.LevIsReached | help/glossary_manager.cpp:12-39 | Some sequence of exactly that many edits exists. |
| EditDistance.LevIsLowerBound | help/glossary_manager.cpp:12-39 | No shorter sequence of edits exists, whatever strings it passes through. |
| EditDistance.LevIdentity | help/glossary_manager.cpp:12-39 | The distance is zero if and only if the strings are equal. |
| EditDistance.LevSymmetric | help/glossary_manager.cpp:12-39 | The distance is the same in both directions. |
| EditDistance.LevTriangle | help/glossary_manager.cpp:12-39 | The triangle inequality. |
| EditDistance.LevBounds | help/glossary_manager.cpp:12-39 | The lengths differ by at most the distance. |
| GlossarySearch.FuzzySearch | help/glossary_manager.cpp:231-273 | The terms and abbreviations within the limit, each once with its relevance, greatest relevance first; nothing for an empty query. Entries are stored under their terms in lower case, so the search for an equal result never finds one. |
| GlossarySearch.FoundIff | help/glossary_manager.cpp:243-264 | A term or non-empty abbreviation is found if and only if at most the given number of edits turns the query into it, letters compared in lower case. |
| GlossarySearch.FullRelevanceIff | help/glossary_manager.cpp:243-259 | The relevance is 100 if and only if the query is the term up to case; no abbreviation reaches it. |
| GlossarySearch.RelevanceCountsEdits | help/glossary_manager.cpp:245-264 | Where n is the least number of edits between query and word, the relevance is 100 - 20 n for a term and 90 - 20 n for an abbreviation. |
| GlossarySearch.ResultsAreNear | help/glossary_manager.cpp:240-270 | Nearer words come first, terms before abbreviations at the same distance, and any two words found lie within twice the limit of each other. |
| IconCache.Cache.constructor | icon_engine/IconRenderer.cpp:112 | An empty cache of the given size. |
| IconCache.Cache.Insert | icon_engine/IconRenderer.cpp:114-134 | List and map stay a bijection and become the old recency list without the key, with the new pair in front, cut to the capacity. |
| IconCache.Cache.Get | icon_engine/IconRenderer.cpp:136-155 | Returns the value of the key and moves its cell to the front by splicing; a miss changes nothing. |
| IconCache.Cache.EvictOverCapacity | icon_engine/IconRenderer.cpp:128-133 | The eviction loop removes the least recently used pairs until the capacity holds, from list and map alike. |
| IconCache.Cache.Invalidate | icon_engine/IconRenderer.cpp:157-165 | The key goes, everything else keeps its order. |
| IconCache.Cache.Clear | icon_engine/IconRenderer.cpp:167-171 | Nothing remains, in list and map. |
| IconCache.Cache.SetMaxSize | icon_engine/IconRenderer.cpp:198-206 | The new capacity holds at once; the most recently used pairs stay. |
| IconCache.Cache.Size | icon_engine/IconRenderer.h:124 | The number of pairs, never above the capacity. |
| IconCache.RunWellFormed | icon_engine/IconRenderer.cpp:114-171 | After any run of operations no key repeats and the capacity holds. |
| IconCache.Inclusion | icon_engine/IconRenderer.cpp:114-171 | The inclusion property of LRU: after the same run, the contents of a smaller cache are a subsequence of those of a larger one, and there are at most as many fewer as the capacities differ by. |
| IconCache.HitInclusion | icon_engine/IconRenderer.cpp:136-155 | Every hit in the smaller cache is a hit in the larger one with the same value. |
| IconCache.Retention | icon_engine/IconRenderer.cpp:114-155 | An inserted value is found as long as it is not removed and fewer other keys than the capacity are used after it. |
| IconCache.RetentionAfterHit | icon_engine/IconRenderer.cpp:136-155 | A lookup that finds a key counts as its last use: from then on the key is found as long as it is not removed and fewer other keys than the capacity are used. |
| IconCache.Eviction | icon_engine/IconRenderer.cpp:114-134 | A key that is not used while as many other keys as the capacity are inserted, and not removed again, is gone. |
| IconCache.FoundIsLastStored | icon_engine/IconRenderer.cpp:114-171 | Whatever is found is the value the key was given last, and the key was not removed and the cache not cleared since. |
| HarmonicYbus.InverseIsInverse | harmonics/harmonic_load_flow.cpp:157 | The series admittance is the inverse of the impedance. |
| HarmonicYbus.HarmonicLoadFlow.SetNumBuses | harmonics/harmonic_load_flow.cpp:27-29 | The number of buses is set as given; the model stays consistent exactly if all elements fit. |
| HarmonicYbus.HarmonicLoadFlow.AddHarmonicSource | harmonics/harmonic_load_flow.cpp:35-38 | Adds the source and raises the number of buses to its bus number plus one if it was lower. |
| HarmonicYbus.HarmonicLoadFlow.AddLineModel | harmonics/harmonic_load_flow.cpp:40-43 | Adds the line and raises the number of buses to its larger bus number plus one if it was lower; bus numbers that were below it stay below it. |
| HarmonicYbus.HarmonicLoadFlow.AddTransformerModel | harmonics/harmonic_load_flow.cpp:45-48 | Adds the transformer and raises the number of buses to its larger bus number plus one if it was lower; bus numbers that were below it stay below it. |
| HarmonicYbus.HarmonicLoadFlow.AddLoadModel | harmonics/harmonic_load_flow.cpp:50-53 | Adds the load and raises the number of buses to its bus number plus one if it was lower; bus numbers that were below it stay below it. |
| HarmonicYbus.HarmonicLoadFlow.AddCapacitorModel | harmonics/harmonic_load_flow.cpp:55-58 | Adds the capacitor and raises the number of buses to its bus number plus one if it was lower; bus numbers that were below it stay below it. |
| HarmonicYbus.SetFromTriplets | harmonics/harmonic_load_flow.cpp:197 | Each coefficient of the matrix is the sum of the triplets at its place. |
| HarmonicYbus.HarmonicLoadFlow.BuildYbusHarmonic | harmonics/harmonic_load_flow.cpp:142-199 | The coefficients of the assembled matrix are the sums of the contributions of all lines, transformers, loads and capacitors; no buses give an empty matrix. |
| HarmonicYbus.YbusOrderIndependent | harmonics/harmonic_load_flow.cpp:147-198 | The matrix does not depend on the order in which components were added. |
| HarmonicYbus.YbusSymmetric | harmonics/harmonic_load_flow.cpp:147-198 | The matrix is symmetric, also with lines and transformers that start and end at one bus. |
| HarmonicYbus.RowSumIsShunt | harmonics/harmonic_load_flow.cpp:147-198 | Each row sums to the shunt terms at its bus: half the charging of each line end, the loads and the capacitors. |
| HarmonicYbus.PowerIsConserved | harmonics/harmonic_load_flow.cpp:142-198 | For every voltage vector the complex quadratic form of the matrix is the sum of the powers of the elements: series admittance times squared voltage difference, and shunt admittance times squared voltage. |
| HarmonicYbus.YbusPassive | harmonics/harmonic_load_flow.cpp:78-120 | With non-negative resistances, charging or not, non-negative loads and positive ratings, the real power drawn is non-negative for every voltage vector and every order. |
| HarmonicLaws.MatricesAddUp | harmonics/harmonic_load_flow.cpp:147-198 | The matrix of two networks on the same buses is the sum of their matrices, so that those of single elements decide it. |
| HarmonicLaws.LoneLine | harmonics/harmonic_load_flow.cpp:78-168 | A single line with r = r1 h^skin and x = h x1: the entry between its buses times r + jx is -1, either bus has its negation and half of h b1, and all other entries are zero. |
| HarmonicLaws.NegligibleLine | harmonics/harmonic_load_flow.cpp:152 | A line whose impedance is below 1e-12 is left out, with its charging. |
| HarmonicLaws.LoneTransformer | harmonics/harmonic_load_flow.cpp:89-183 | A single transformer: r is the copper loss over the rating, but not negative, and grows with the root of the order; x completes it to the short-circuit voltage, where that is larger, and grows with the order; the entry between the buses times this impedance is -1. |
| HarmonicLaws.LoneLoad | harmonics/harmonic_load_flow.cpp:110-189 | A single load is p - jq/h at its bus. |
| HarmonicLaws.LoneCapacitor | harmonics/harmonic_load_flow.cpp:188-195 | A single capacitor is jh/xC1 at its bus, and nothing if xC1 is zero. |
| HarmonicLaws.LoneReactance | harmonics/harmonic_load_flow.cpp:78-168 | A single lossless line without charging has the entry j/(h x1) between its buses. |
| HarmonicLaws.ReactancesShrink | harmonics/harmonic_load_flow.cpp:78-168 | The matrix of lossless lines without charging at order h is that at order 1 divided by h. |
| HarmonicLaws.CapacitorsGrow | harmonics/harmonic_load_flow.cpp:188-195 | The matrix of capacitors at order h is h times that at order 1. |
| HarmonicLaws.LoadsShrink | harmonics/harmonic_load_flow.cpp:110-189 | The matrix of loads at order h has the real part of that at order 1 and its imaginary part divided by h. |
| HarmonicLaws.ShuntsGrow | harmonics/harmonic_load_flow.cpp:147-198 | Without loads, all row sums, that is charging and capacitors, at order h are h times those at order 1. |
| HarmonicLaws.PowerInData | harmonics/harmonic_load_flow.cpp:142-198 | The power the matrix draws, in r1, x1, b1, p, q and xC1: a line draws |va - vb|^2 r/(r^2 + x^2) and delivers |va - vb|^2 x/(r^2 + x^2), its charging draws (|va|^2 + |vb|^2) h b1/2, a load |v|^2 (p - jq/h), a capacitor j |v|^2 h/xC1, transformers as in LoneTransformer. |
| LineDrawing.SetPixel | gis/map_renderer.cpp:208-221 | Changes the four bytes of a pixel inside the image by the integer blending of the source, and nothing outside the image or for another pixel. |
| LineDrawing.DrawRow | gis/map_renderer.cpp:248-250 | One row of the square around a point is painted, in order. |
| LineDrawing.DrawStamp | gis/map_renderer.cpp:247-251 | The whole square of the given thickness is painted around the point. |
| LineDrawing.DrawLineSegment | gis/map_renderer.cpp:235-257 | The loop ends for all integer end points and paints the squares around the points of the digital line, one after the other. |
| LineDrawing.LoopVisitsLine | gis/map_renderer.cpp:239-256 | After k steps the loop stands at the point given by rounding the minor axis, and its error term measures the distance from the ideal line. |
| LineDrawing.LineEnds | gis/map_renderer.cpp:252 | The line starts at the first and ends at the second point after max(dx, dy) steps. |
| LineDrawing.LineSteps | gis/map_renderer.cpp:253-255 | Every step moves, by at most one on each axis and only towards the end point. |
| LineDrawing.LineInBox | gis/map_renderer.cpp:253-255 | No point overshoots the end points on either axis. |
| LineDrawing.HalfPixel | gis/map_renderer.cpp:253-255 | No point is more than half a pixel off the ideal line on the minor axis. |
| LineDrawing.ReverseAgreesIffNoTie | gis/map_renderer.cpp:235-257 | Drawn from the other end, the line passes through the same point if and only if the ideal line is not exactly between two pixels there. |
| LineDrawing.ReverseVisitsSameIff | gis/map_renderer.cpp:235-257 | Drawn from the other end, the line covers the same centre points if and only if the ideal line never passes midway between two pixels. |
| LineDrawing.KnightMoveDiffers | gis/map_renderer.cpp:235-257 | From (0, 0) to (2, 1) the line passes (1, 0), and back it passes (1, 1). |
| LineDrawing.PaintElsewhere | gis/map_renderer.cpp:208-221 | Pixels that are not painted keep their colour. |
| LineDrawing.PaintHere | gis/map_renderer.cpp:208-221 | A pixel painted with an opaque colour has that colour, however often it is painted. |
| LineDrawing.OpaqueLineShows | gis/map_renderer.cpp:235-257 | After drawing an opaque line exactly the pixels of the image within the thickness of some point of the line have its colour. |
| LineDrawing.PixelBytes | gis/map_renderer.cpp:211 | The four bytes of pixel (x, y) start at 4 (y w + x). |
| LineDrawing.ThicknessIsWidth | gis/map_renderer.cpp:246-247 | The square is as wide as the thickness, or one pixel more if that is even; a thickness of -2 and below paints nothing. |
| LineDrawing.ClearPaint | gis/map_renderer.cpp:208-221 | Painting with a fully transparent colour changes nothing. |
| LineDrawing.PutOverPixel | gis/map_renderer.cpp:208-221 | On an opaque pixel the colour is mixed in with its alpha as the weight, each channel rounded down and between the old and the new one; on an empty pixel it stands alone. |
| LineDrawing.AlphaGrows | gis/map_renderer.cpp:213-215 | Painting makes no pixel more transparent than it was, or than the colour is. |
| LineDrawing.BlendWraps | gis/map_renderer.cpp:216-220 | Where both are nearly transparent the mixture may not fit into a byte: 255 over 2, both with alpha 1, gives 0. |
| Flicker.ReferenceLampModel.FilterSample | harmonics/flicker_analyzer.cpp:57-70 | The state-space step outputs the value of the documented difference equation and moves the state on. |
| Flicker.ReferenceLampModel.Process | harmonics/flicker_analyzer.cpp:72-88 | Starting from rest, the series of outputs is the response of the filter; an empty series leaves the object alone. |
| Flicker.ReferenceLampModel.Reset | harmonics/flicker_analyzer.cpp:52-55 | The state is at rest. |
| Flicker.StateSpaceIsDirectForm | harmonics/flicker_analyzer.cpp:57-70 | For every input series the state-space form gives the same output as b0 x[n] + b1 x[n-1] + b2 x[n-2] - a1 y[n-1] - a2 y[n-2]. |
| Flicker.RecurrenceIs | harmonics/flicker_analyzer.cpp:40-70 | The difference equation written out, from rest: the first output is b0 x[0], and from the third sample on all five terms count. |
| Flicker.FilterLinear | harmonics/flicker_analyzer.cpp:57-70 | The response to a combination of two series is the same combination of their responses. |
| Flicker.BilinearNumerator | harmonics/flicker_analyzer.cpp:29-49 | The numerator of the digital filter is the bilinear image of k omega1 s. |
| Flicker.BilinearDenominator | harmonics/flicker_analyzer.cpp:29-49 | The denominator of the digital filter is the bilinear image of s^2 + 2 lambda omega1 s + omega1^2. |
| Flicker.TransferFunction | harmonics/flicker_analyzer.cpp:57-70 | The recurrence has the transfer function of its coefficients: a sequence that grows by z from sample to sample comes out with the numerator at z in place of the denominator. |
| Flicker.LampResonance | harmonics/flicker_analyzer.cpp:28-37 | The analog filter is most sensitive at 8.8 Hz and nowhere else, with the gain 1.74802 / 0.5. |
| Flicker.FilterJuryStable | harmonics/flicker_analyzer.cpp:36-49 | For every positive sampling rate the absolute values of a2 and a1 are below 1 and 1 + a2. |
| Flicker.JuryRootsInside | harmonics/flicker_analyzer.cpp:36-49 | Under these conditions every complex root of z^2 + a1 z + a2 lies inside the unit circle. |
| Flicker.FilterPolesInside | harmonics/flicker_analyzer.cpp:28-50 | So the poles of the filter lie inside the unit circle at every sampling rate. |
| FlickerSeverity.SortedCopy | harmonics/flicker_analyzer.cpp:134-135 | Any ascending permutation of the samples is the sorted copy, so std::sort leaves no choice. |
| FlickerSeverity.PercentilePermuted | harmonics/flicker_analyzer.cpp:129-148 | Percentiles do not depend on the order of the samples. |
| FlickerSeverity.PercentileInRange | harmonics/flicker_analyzer.cpp:129-148 | Percentiles lie between any bounds of the samples. |
| FlickerSeverity.PercentileMonotone | harmonics/flicker_analyzer.cpp:129-148 | A higher percentile is never lower, also across the interpolation cells. |
| FlickerSeverity.PercentileDominated | harmonics/flicker_analyzer.cpp:129-148 | Raising samples never lowers a percentile. |
| FlickerSeverity.PercentileInterpolates | harmonics/flicker_analyzer.cpp:129-148 | Exactly: with the sorted samples at equal distances from 0 to 100, a percentile is read off the line between neighbours; above 100 it is the greatest sample. |
| FlickerSeverity.SeverityDominated | harmonics/flicker_analyzer.cpp:154-176 | Raising samples never lowers the squared severity. |
| FlickerSeverity.SeverityReadsRanks | harmonics/flicker_analyzer.cpp:162-174 | For 1001 ascending samples the squared severity is 0.0314 s[1] + 0.0525 s[10] + 0.0657 s[30] + 0.28 s[100] + 0.08 s[500]. |
| FlickerSeverity.CalculatePinst | harmonics/flicker_analyzer.cpp:101-123 | The sensation is twice the square of the lamp response, sample by sample. |
| FlickerSeverity.PinstNonNegative | harmonics/flicker_analyzer.cpp:101-123 | The sensation is twice the square of the lamp response at every sample, so it is never negative. |
| FlickerSeverity.SeverityNonNegative | harmonics/flicker_analyzer.cpp:154-176 | For a series without negative samples the value under the square root is not negative. |
| FlickerSeverity.PinstScaled | harmonics/flicker_analyzer.cpp:101-123 | Scaling the voltage fluctuation scales the sensation by the square of the factor. |
| FlickerSeverity.SeverityProportional | harmonics/flicker_analyzer.cpp:154-176 | Scaling the voltage fluctuation scales the squared severity by the square of the factor. |
| JsonString.JsonEscape | config/config_manager.cpp:58-75 | The loop appends the escape of every character. |
| JsonString.JSONParser.SkipWhitespace | config/config_manager.cpp:101-104 | Stops at the first character that is no blank. |
| JsonString.JSONParser.Match | config/config_manager.cpp:106-110 | Takes the character after blanks if it is the expected one. |
| JsonString.JSONParser.ParseString | config/config_manager.cpp:112-136 | What the string parser returns and where it stops, for every text, also without a closing quote. |
| JsonString.JSONParser.ParseValue | config/config_manager.cpp:138-152 | What the value parser returns and where it stops, for strings, literals and numbers. |
| JsonString.JSONParser.ExtractField | config/config_manager.cpp:155-175 | The field search as a function of the text alone, starting again from its beginning. |
| JsonString.StringRoundTrip | config/config_manager.cpp:112-136 | Wherever a quoted, escaped string stands in a text, the parser returns the original string and stops exactly after it (section 7 of RFC 8259). |
| JsonString.EscapeInjective | config/config_manager.cpp:58-75 | Different strings have different escapes. |
| JsonString.EscapesAre | config/config_manager.cpp:58-75 | The seven escapes (section 7 of RFC 8259); every other character stands for itself. |
| JsonString.ObjectFieldRoundTrip | config/config_manager.cpp:155-175 | In a flat object, with blanks around all its parts, the field search returns the value of the first field with the name: strings, whatever quotes, braces and commas they contain, numbers, and literals that a delimiter follows at once. |
| JsonString.LiteralKeepsBlank | config/config_manager.cpp:145-148 | A blank behind true is returned with it. |
| JsonString.BareIsLongest | config/config_manager.cpp:143-151 | A literal ends at the next delimiter, another bare value at the first character that no number has. |
| JsonString.ValueIsBare | config/config_manager.cpp:138-152 | A value without a quote is a literal if it begins with t, f or n, and a number otherwise. |
| JsonString.OpenStringIsRead | config/config_manager.cpp:112-136 | A string without a closing quote and without escapes is everything to the end of the text. |
| JsonString.OtherEscapes | config/config_manager.cpp:117-129 | A backslash before a character without an escape is dropped. |
| GeoJsonParser.ExtractBlock | gis/geojson_parser.cpp:21-46 | The block from a position to the bracket that closes it, or nothing. |
| GeoJsonParser.SplitFeatures | gis/geojson_parser.cpp:48-71 | The blocks of a list, one after the other. |
| GeoJsonParser.SplitCoordinatePairs | gis/geojson_parser.cpp:73-107 | The blocks at depth one of a list. |
| GeoJsonParser.ParseCoordinates | gis/geojson_parser.cpp:248-275 | The numbers between commas; pieces that are no numbers are left out. |
| GeoJsonParser.ParseProperties | gis/geojson_parser.cpp:277-324 | The names and values, later ones replacing earlier ones. |
| GeoJsonParser.ParseFeature | gis/geojson_parser.cpp:193-246 | Type, coordinates and properties of a feature, each found by its first key; GeoJsonStandard says what that is for standard points, line strings and polygons. |
| GeoJsonParser.ParseFeatures | gis/geojson_parser.cpp:176-191 | The features that have a type. |
| GeoJsonParser.Parse | gis/geojson_parser.cpp:151-174 | Name and features of a text, with the default name. |
| GeoJsonLexemes.FindKey | gis/geojson_parser.cpp:155-206 | On a text of lexemes the search for a quoted key finds the first string equal to it, never a part of another string or of two. |
| GeoJsonLexemes.PassLexemes | gis/geojson_parser.cpp:32-45 | Over whole lexemes the scanner's depth follows the brackets, and brackets inside strings do not count. |
| GeoJsonLexemes.BlockIsRead | gis/geojson_parser.cpp:21-46 | A balanced block is extracted whole. |
| GeoJsonExporter.Exporter.constructor | gis/geojson_parser.cpp:438 | Pretty printing with six decimals by default. |
| GeoJsonExporter.Exporter.SetPrettyPrint | gis/geojson_parser.cpp:440-442 | Changes the layout of later exports only. |
| GeoJsonExporter.Exporter.SetPrecision | gis/geojson_parser.cpp:444-446 | Changes the number format of later exports only. |
| GeoJsonExporter.Exporter.CoordsToString | gis/geojson_parser.cpp:471-485 | The nested list of positions, in order. |
| GeoJsonExporter.Exporter.PropertiesToString | gis/geojson_parser.cpp:487-500 | All properties in the order of std::map, escaped. |
| GeoJsonExporter.Exporter.FeatureToString | gis/geojson_parser.cpp:502-532 | Type, geometry and properties of a feature. |
| GeoJsonExporter.Exporter.GenerateBbox | gis/geojson_parser.cpp:643-663 | The bounds of all positions, starting from the inverted world. |
| GeoJsonExporter.Exporter.ExportToString | gis/geojson_parser.cpp:588-626 | The text of the whole collection, as a list of lexemes, in both modes. |
| GeoJsonExporter.BoxHoldsPositions | gis/geojson_parser.cpp:643-655 | The bounding box holds every position with two numbers, and no smaller box that contains the inverted world does. |
| GeoJsonExporter.BoxIsAttained | gis/geojson_parser.cpp:643-655 | Each side of the bounding box goes through a position, or is the one of the inverted world. |
| GeoJsonExporter.FirstIsUnique | gis/geojson_parser.cpp:491-497 | The order of the property names leaves no choice. |
| GeoJsonCoordinates.LineStringIsRead | gis/geojson_parser.cpp:214-219 | A line string comes back with its non-empty positions, numbers rounded to the printed precision. |
| GeoJsonCoordinates.PolygonIsLost | gis/geojson_parser.cpp:220-229 | A polygon always comes back without coordinates: its first position is taken for the first ring. |
| GeoJsonCoordinates.PointIsMerged | gis/geojson_parser.cpp:212-213 | A point comes back as one position made of all numbers but the first of each position. |
| GeoJsonCoordinates.FaithfulIsMet | gis/geojson_parser.cpp:265-265 | What the round trip assumes of printing and reading numbers can be met, by a rounding that keeps all whole numbers. |
| GeoJsonProperties.PropertiesAreRead | gis/geojson_parser.cpp:277-324 | A printed property map whose names and values have no quotes comes back with exactly its names and values, escaped. |
| GeoJsonProperties.EscapeLength | gis/geojson_parser.cpp:452-469 | Escaping never shortens, and changes nothing if and only if no character has an escape. |
| GeoJsonReadable.ParsedIsReadable | gis/geojson_parser.cpp:145-324 | Whatever the text, every parsed feature has a type without quotes, property names without quotes, values that have no quotes or no commas, and coordinates only if it is a point, line string or polygon. |
| GeoJsonName.EscapedShowsKeyIff | gis/geojson_parser.cpp:452-469 | An escaped name is a key, or ends with a quote and a key, if and only if the name itself does. |
| GeoJsonName.SearchAtName | gis/geojson_parser.cpp:160-164 | Within an exported name the search for a key can only find it at the very end, and does so if and only if the name is the key or ends with a quote and the key. |
| GeoJsonQuotes.EnoughLeft | gis/geojson_parser.cpp:286-321 | A property scan that ends with given properties, in step with the printed entries or not, still needs no more names than the entries ahead can give it, where an entry with a colon and a comma in its name can give two; it needs one more if a value it has is wrong. |
| GeoJsonQuotes.QuotesNeverReturn | gis/geojson_parser.cpp:277-324 | Where no property string ends in a backslash, properties with a quote in some value never come back: the value is cut at the quote, and nothing that the scan reads afterwards repairs all of it. |
| GeoJsonRoundTrip.FeatureIsRead | gis/geojson_parser.cpp:193-246 | A printed feature whose type has no quote and whose strings do not end in a backslash comes back with its type, what is left of its coordinates, even if its type is called like a key, and what the parser makes of its printed properties: the escaped ones if they have no quotes. |
| GeoJsonRoundTrip.FeaturesAreSplit | gis/geojson_parser.cpp:48-71 | The printed list of features, with types without quotes and no strings that end in a backslash, is split into exactly the printed features, whatever quotes and brackets the property strings have. |
| GeoJsonRoundTrip.PropertiesComeBackIff | gis/geojson_parser.cpp:277-324 | Properties whose strings do not end in a backslash come back if and only if no character of a name or value has an escape. |
| GeoJsonRoundTrip.FeaturesAreHidden | gis/geojson_parser.cpp:160-170 | A collection named "features", or with a name that ends with a quote and this word, loses all its features: the parser goes on with the bounding box. |
| GeoJsonRoundTrip.NameSurvivesIff | gis/geojson_parser.cpp:155-165 | For every name whatsoever, the name comes back if and only if it is not empty and has no character with an escape. |
| GeoJsonRoundTrip.EmptyNameIsReplaced | gis/geojson_parser.cpp:155-158 | An empty name comes back as the default. |
| GeoJsonRoundTrip.ExportIsRead | gis/geojson_parser.cpp:145-171 | What comes back from an export, in pretty and compact mode, for every name, if no type has a quote and no type or property string ends in a backslash: the escaped name up to its first quote, and, unless the name hides them, the features in order, without those that have no type (section 3.1.4 of RFC 7946 for line strings). |
| GeoJsonRoundTrip.RoundTripIff | gis/geojson_parser.cpp:588-626 | Parsing undoes exporting if and only if name and properties need no escape, the name is not empty and does not hide the features, every feature has a type without quotes and closing backslash, line strings have exact non-empty positions and other types have none. Decided for every collection in which no type or property string ends in a backslash, and for every one with another name or with a feature that no text is parsed to. |
| GeoJsonRoundTrip.UnchangedComesBack | gis/geojson_parser.cpp:588-626 | The condition of RoundTripIff is enough for every collection, whatever its strings. |
| GeoJsonBackslash.BackslashTypeIsLost | gis/geojson_parser.cpp:21-49 | A single feature without properties and with a type that ends in a backslash is lost: the closing quote of the type is taken for an escaped one, and the feature list has no end. |
| GeoJsonFeatures.FeatureAroundIsRead | gis/geojson_parser.cpp:193-246 | From a printed feature with any list of coordinates the parser reads type, coordinates and properties each from their own place, even if its type is called like a key. |
| GeoJsonFeatures.ListIsSplit | gis/geojson_parser.cpp:48-71 | A printed list of objects with matching brackets is split into exactly these objects. |
| GeoJsonStandard.PolygonIsRead | gis/geojson_parser.cpp:220-229 | A polygon printed as a list of rings (section 3.1.6 of RFC 7946) comes back as the non-empty positions of its first ring, rounded, however many rings there are. |
| GeoJsonStandard.PointIsRead | gis/geojson_parser.cpp:212-213 | A point printed as a flat position (section 3.1.2 of RFC 7946) comes back as this position, rounded. |
| GeoJsonStandard.NumbersPart | gis/geojson_parser.cpp:257-271 | In any text a comma parts the numbers before it from those after it. |
| GeoJsonStandard.OnePieceIsRead | gis/geojson_parser.cpp:257-271 | Between commas there is at most one number, read without the white space around it; anything else is ignored. |
| GeoJsonStandard.ObjectIsRead | gis/geojson_parser.cpp:193-246 | A standard point, line string or polygon feature comes back with its type, these coordinates and its properties, escaped if they have no quotes. |
| GeoJsonStandard.StandardIsRead | gis/geojson_parser.cpp:151-191 | A standard feature collection comes back with all its features in order, in both layouts. |
| GeoJsonMembers.MembersAreRead | gis/geojson_parser.cpp:277-324 | An object of strings without quotes and of bare values without commas is read with all its members, in order, whatever white space is around their parts. |
| GeoJsonMembers.LastValueCounts | gis/geojson_parser.cpp:316-318 | Of several values under one name the last one counts. |
| GeoJsonText.ExportIs | gis/geojson_parser.cpp:471-626 | The export of every collection character by character, in both layouts: keys, separators, indents, positions, escaped strings and the bounding box. |
| HelpTokens.TokenizeWithStemming | help/help_engine.cpp:28-54 | The matches of the word pattern in the lower-cased text, stemmed one by one. |
| HelpTokens.SeparatorParts | help/help_engine.cpp:29-37 | Any character outside the pattern parts a text: its tokens are those before it followed by those after it. |
| HelpTokens.OuterHyphens | help/help_engine.cpp:29-37 | A hyphen at either end of a text changes no token. |
| HelpTokens.WordIsToken | help/help_engine.cpp:29-37 | Two or more characters of the pattern that begin and end with a word character are one token, in lower case. |
| HelpTokens.SingleIsNoToken | help/help_engine.cpp:30 | A single character is no token. |
| HelpTokens.PatternIs | help/help_engine.cpp:30 | The characters of the pattern: letters, digits, underscore and hyphen, all but the hyphen being word characters. |
| HelpTokens.WordIsFound | help/help_engine.cpp:28-54 | Every word that stands between separators in a text is among its tokens, and its stem among the stems. |
| HelpTokens.StemCuts | help/help_engine.cpp:43-50 | The suffixes ing, ed, s, ly, ment and tion are cut exactly where at least three characters remain. |
| HelpTokens.StemKeeps | help/help_engine.cpp:43-51 | A token with none of these suffixes is its own stem. |
| HelpTokens.StemIsPrefix | help/help_engine.cpp:43-50 | Every stem is a prefix of its token of at least two characters, and of a longer token that ends in s only this letter is cut. |
| HelpTokens.DeadRules | help/help_engine.cpp:43-50 | Without the rules for "es" and "ies" every stem would be the same: the rule for "s" comes first. |
| HelpTokens.StemIsInText | help/help_engine.cpp:28-54 | Every stem stands in the lower-cased text and has no blank. |
| HelpIndex.RunKeepsOrder | help/help_engine.cpp:189-202 | After any run of indexing, removing, updating and clearing, no document is missing from the postings of its stems, and no posting set is empty or names a document that is gone. |
| HelpIndex.DocumentIsLast | help/help_engine.cpp:189-202 | After any run each id has the document that it was indexed or updated to last, and none if it was removed since. |
| HelpIndex.StemSetIsUnion | help/help_engine.cpp:192-195 | A document has the stems of its title, content, section, category and tags, and no others. |
| HelpIndex.WordIsPosted | help/help_engine.cpp:189-202 | After any run every document is posted under the stem of every word in any of its fields and tags. |
| HelpIndex.IndexedIsExactIff | help/help_engine.cpp:189-202 | Indexing leaves an exact index exact if and only if the id is new or no stem of the old document is lost. |
| HelpIndex.StalePosting | help/help_engine.cpp:189-202 | A document indexed under the title "ab" and again under "cd" leaves an index that is not the one of its documents. |
| HelpIndex.CarefulRunIsExact | help/help_engine.cpp:176-202 | If ids are indexed again through updates only, the index is the one that would be built from the documents. |
| HelpEngine.Engine.IndexDocument | help/help_engine.cpp:538-556 | An initialized engine indexes the document; any other changes nothing and answers false. |
| HelpEngine.Engine.IndexInMemory | help/help_engine.cpp:189-202 | The document replaces the one of its id and its id joins the postings of its stems. |
| HelpEngine.Engine.RemoveDocument | help/help_engine.cpp:567-581 | The id leaves the documents and all postings; emptied entries go. |
| HelpEngine.Engine.UpdateDocument | help/help_engine.cpp:593-597 | Removal followed by indexing; an engine that is not initialized only removes, and answers false. |
| HelpEngine.Engine.ClearIndex | help/help_engine.cpp:599-604 | Nothing is indexed. |
| HelpEngine.Engine.Shutdown | help/help_engine.cpp:489-500 | Nothing is indexed, and the engine takes no documents. |
| HelpEngine.Engine.BuildInvertedIndex | help/help_engine.cpp:176-187 | From any postings, the exact index of the documents. |
| HelpEngine.Engine.FindCandidates | help/help_engine.cpp:275-300 | The documents with all indexed query tokens or, if there are none, those with any. |
| HelpEngine.Engine.CalculateRelevance | help/help_engine.cpp:56-90 | The weighted sum over tokens and fields, raised for documents changed lately. |
| HelpEngine.Engine.PassesFilters | help/help_engine.cpp:309-321 | Section, category and one of the tags, where given. |
| HelpEngine.Engine.SearchInMemory | help/help_engine.cpp:262-368 | The best results of the scored candidates, in falling order: only ties are open, nothing better is left out, and fewer than the maximum are returned only if there are no more. |
| HelpSearch.RelevancePositiveIff | help/help_engine.cpp:56-90 | A document scores if and only if some query token is a piece of some of its fields. |
| HelpSearch.TokenScoreIs | help/help_engine.cpp:64-83 | A token scores 10 in the title, 5 more at its start, 1 for each place in the content, 8 for each tag that has it, and 3 each in section and category. |
| HelpSearch.RelevanceAddsUp | help/help_engine.cpp:56-90 | The scores of tokens add up; a document changed within a week counts 1.32 times, one changed within 30 days 1.1 times. |
| HelpSearch.StemIsMentioned | help/help_engine.cpp:192-195 | Every stem of the indexed text lies within a single field or tag. |
| HelpSearch.CandidatesAreScanned | help/help_engine.cpp:275-300 | On an exact index the lookup finds exactly the documents that a scan of all documents finds. |
| HelpSearch.CandidateScores | help/help_engine.cpp:323-324 | No candidate is dropped by the test for a positive score. |
| HelpSearch.SearchIsScan | help/help_engine.cpp:276-324 | On an exact index the scored results are the candidates of a scan that pass the filters, with their relevance. |
| HelpSearch.CarefulSearchIsScan | help/help_engine.cpp:262-368 | The same after every run that re-indexes documents by updates only. |
| HelpSearch.MatchingIsHitIff | help/help_engine.cpp:262-355 | After any run, a document that has all query tokens is a hit if and only if it has the section, the category and one of the tags asked for, the tag in any case. |
| Common.SameLettersIff | help/help_engine.cpp:309-321 | Two strings are equal in lower case if and only if they differ at most in the case of their letters; the lower case has no capitals. |
| HelpSearch.HeldWordIsHit | help/help_engine.cpp:262-355 | After any run, a search for a word finds every document that has it in some field or tag and passes the filters. |
| HelpSearch.NoTokensNoHits | help/help_engine.cpp:270-273 | A query without tokens finds nothing, unlike its comment says: it finds all documents that pass the filters if and only if none does. |
| HelpEngine.NoStemsInStar | help/help_engine.cpp:270-273 | The star that is searched for instead has no tokens either. |
| Ranking.SortByRelevance | help/help_engine.cpp:356-359 | The same results in falling order of their scores. |
| Ranking.FirstAreTop | help/help_engine.cpp:361-364 | The first results of the sorted list are the best ones. |
| Ranking.TopScoresAgree | help/help_engine.cpp:356-366 | Two lists of the best results have the same length and the same scores at the same places: only ties are open. |
| AudioVoices.RunIsConsistent | audio/audio_engine.cpp:375-615 | After any run of loading, generating, playing, stopping, unloading, clearing and shutting down, the lists of sources are a partition of the active sources by their sound, without duplicates and empty lists, and every active sound is loaded. |
| AudioVoices.PlayKeepsLimit | audio/audio_engine.cpp:528-574 | A sound that is played is active afterwards, and at most the maximum number of voices is. |
| AudioVoices.VoicesAfter | audio/audio_engine.cpp:375-665 | For every operation: a voice plays afterwards if and only if it played before and is not ended by the operation, or is begun by it, which takes a loaded sound, fewer voices that play on than the limit, and a source from OpenAL. |
| AudioVoices.BuffersAfter | audio/audio_engine.cpp:375-512 | For every operation the buffer that each sound has afterwards; only loading, generating, unloading and shutting down change any. |
| AudioVoices.UpToDateIff | audio/audio_engine.cpp:193-232 | Every voice keeps playing the buffer its sound has now, except if and only if a system sound is generated again while it plays. |
| AudioVoices.AlarmKeepsOldBuffer | audio/audio_engine.cpp:915-936 | Generated, played and generated again, the alarm goes on with the buffer that is no longer its own. |
| AudioVoices.AllGeneratedLoaded | audio/audio_engine.cpp:915-991 | Generating all sounds leaves the voices alone and, if none fails, loads exactly these sounds besides the ones before. |
| AudioVoices.SilencedTwice | audio/audio_engine.cpp:165-191 | Taking sources away in two rounds is taking them away at once. |
| AudioEngine.Engine.Initialize | audio/audio_engine.cpp:329-373 | Once, if the device opens, the system sounds are generated; a second call changes nothing. |
| AudioEngine.Engine.LoadSystemSounds | audio/audio_engine.cpp:915-991 | All sounds are generated in order, also after one fails; false if one fails or the engine is not initialized. |
| AudioEngine.Engine.Shutdown | audio/audio_engine.cpp:375-407 | No sound and no voice remains. |
| AudioEngine.Engine.LoadSound | audio/audio_engine.cpp:413-450 | On an initialized engine, a sound of the same name is unloaded with its voices first, even if loading fails; otherwise nothing changes. |
| AudioEngine.Engine.UnloadSound | audio/audio_engine.cpp:490-512 | The sound and exactly its voices go; false if it was not loaded. |
| AudioEngine.Engine.PlaySound | audio/audio_engine.cpp:528-574 | Clears finished sources, then adds a voice if the sound is loaded, a voice is free and OpenAL agrees; the tables stay consistent in every case. An engine that is not initialized has no sounds, so it plays none. |
| AudioEngine.Engine.StopSound | audio/audio_engine.cpp:576-592 | Exactly the voices of the sound go; false if it had none. |
| AudioEngine.Engine.StopSoundInstance | audio/audio_engine.cpp:594-615 | Exactly the given source goes, and with the last one the list of its sound. |
| AudioEngine.Engine.CleanupFinishedSources | audio/audio_engine.cpp:165-191 | Exactly the stopped sources go from both tables, though the one table is changed while the other is walked through. |
| AudioEngine.Engine.StopAllSounds | audio/audio_engine.cpp:654-665 | All voices go, the sounds stay loaded. |
| AudioEngine.Engine.SetMaxVoices | audio/audio_engine.cpp:1021-1023 | At least one voice. |
| HelpHistory.RunIsNamed | help/help_browser.cpp:571-698 | In every run the stacks hold only pages with an id. |
| HelpHistory.BackKeepsTimeline | help/help_browser.cpp:571-597 | Going back leaves the timeline of all pages as it is, also from a page without an id. |
| HelpHistory.ForwardKeepsTimeline | help/help_browser.cpp:599-625 | Going forward leaves the timeline as it is. |
| HelpHistory.ForwardUndoesBackIff | help/help_browser.cpp:571-625 | Going forward undoes going back if and only if the page that was left has an id. |
| HelpHistory.BackUndoesForwardIff | help/help_browser.cpp:571-625 | Going back undoes going forward if and only if the page that was left has an id. |
| HelpHistory.VisitTruncates | help/help_browser.cpp:682-698 | A visit forgets the pages ahead and appends the new one, which becomes the current one; visiting the current page appends nothing, and neither does a page without an id. |
| HelpHistory.ClearKeepsPage | help/help_browser.cpp:636-642 | Clearing forgets all pages but the current one. |
| HelpHistory.MovesKeepTimeline | help/help_browser.cpp:571-625 | Any run of back and forward leaves the timeline as it is and ends where counting the moves, stopped at both ends, says, also from a page without an id, which stands between two others. |
| HelpHistory.SamePlaceSameState | help/help_browser.cpp:571-625 | Two runs of moves end in the same state if and only if they end at the same place. |
| HelpHistory.Browser.PushHistory | help/help_browser.cpp:682-698 | The step of a visit. |
| HelpHistory.Browser.GoBack | help/help_browser.cpp:571-597 | The step back, or nothing at the oldest page. |
| HelpHistory.Browser.GoForward | help/help_browser.cpp:599-625 | The step forward, or nothing at the newest page. |
| HelpHistory.Browser.ClearHistory | help/help_browser.cpp:636-642 | Both stacks are empty, the page stays. |

## Left out

- GeoJsonRoundTrip.ExportIsRead: takes features whose types have no quote and whose types and property strings do not end in a backslash; such strings can break the scan of the text around them, so that what comes back depends on all later strings.
- GeoJsonRoundTrip.FeatureIsRead: has the same condition on the strings.
- GeoJsonRoundTrip.FeaturesAreSplit: has the same condition on the strings.
- GeoJsonProperties.PropertiesAreRead: takes names and values without quotes; what the rest of a cut value is taken for is not stated, only that all together never comes back.
- GeoJsonRoundTrip.RoundTripIff: that its condition is necessary is open where a type, property name or value ends in a backslash, the name is usable and all features are readable; that it is sufficient is proved there too.
- GeoJsonRoundTrip.PropertiesComeBackIff: is about names and values that do not end in a backslash.
- GeoJsonQuotes.QuotesNeverReturn: is about names and values that do not end in a backslash.
- GeoJsonParser.ParseCoordinates: std::stod is a parameter; the round trip uses that a printed number reads back as its rounded value, also before a closing bracket, and that text starting with a bracket is no number. Numbers outside the range of double are not modelled.
- GeoJsonStandard.StandardIsRead: is about the features; a collection without a name takes the first string property called so for its name, which is not stated.
- HarmonicYbus.HarmonicLoadFlow.BuildYbusHarmonic: pow and sqrt are parameters, complex numbers are pairs of reals without rounding, the order is positive, ratings are not zero and bus numbers are not negative; solving the system is not part of this model.
- FlickerSeverity.SeverityProportional: is about the square of the severity; square and cube roots are not modelled.
- FlickerSeverity.PercentileInRange: percentiles are not negative and sampling rates positive, as all callers pass them.
- LineDrawing.PutOverPixel: is about opaque and empty pixels; for others the mixture is computed as in the source, with bytes cut to their width, but no property of it is stated beside the alpha. Overflow of machine integers is not modelled, here or elsewhere.
- IconCache.Cache.Get: access counts are kept but nothing is stated about them; time stamps of the entries and warming the cache are left out. That the key of an icon describes its rendering is not part of this model.
- PostImportValidator.Validate: findings are severities and codes; the texts of messages are left out.
- ImportEngine.ImportFile: the registry, the file information and the duration are left out; what an importer returns, and when the token is cancelled, are parameters.
- GlossarySearch.FuzzySearch: results are taken to be equal if entry, relevance and match type are, an equality that the source uses but does not define; other fields of an entry, and the other searches of the glossary, are left out.
- HelpTokens.TokenizeWithStemming: lower case and word characters are those of ASCII.
- HelpEngine.Engine.SearchInMemory: returns ids and scores; snippets and the other fields of a result are left out, and the current day is a parameter. SQLite and MeiliSearch are not part of this model.
- HelpEngine.Engine.UpdateDocument: the answers of the other backends are one parameter.
- AudioEngine.Engine.PlaySound: OpenAL is a parameter that never hands out a source in use; volumes, positions, pausing, the states of voices, the samples of generated sounds and the listener are left out.
- HelpHistory.Browser.PushHistory: entries are document ids without titles.
- JsonString.JSONParser.ExtractField: the objects written by the settings export, which put a backslash before their quotes, are not read by this parser; only objects with plain quotes are in the round trip. Characters of \u escapes are not decoded by the source.
- The escape function that the configuration store and the GeoJSON exporter each have is modelled once.
- Mutexes, which some methods take twice: each method is one step.
- Files, the network, Qt widgets, timers and signals.
- Coordinate conversion, map tiles, other drawing, KML, tables of limits, sounds, texts and translations.
- Conversion between GeoJSON collections and power systems.
