# Verified models of a strategy game engine's bookkeeping

Dafny models of eight parts of the engine under `rts/`, each proved against the property its code is
there for. Floating-point numbers are reals, pointers are ids, and code outside these parts (terrain,
quad field, plugins, network) enters as an oracle or as a finite tree of what it will do.

* **Build-site search** (`SearchOffsets`, `SearchHistory`, `BuildSite`): one static, growing offset table serves
  every radius by prefix. The closest site found does not depend on earlier requests.
* **Explosions** (`Falloff`, `Explosions`, `DamageWheel`, `DamageOnTime`, `DamageLedger`, `GameHelper`): nested
  explosions share two object lists; delayed hits wait in a ring of 128 slots. No run loses or repeats a hit. Every
  run applies the hits an ideal schedule by absolute due frame applies, in the same frames and order, exactly as long
  as hits stay within the ring's reach. The slot, the low seven bits of a frame number, is written as the remainder
  by 128.
* **Unit queries** (`UnitQuery`): stamps make every unit of overlapping quads count once.
* **Yard maps** (`YardMap`): two rotations in two files, inverse to each other.
* **AI libraries** (`Versions`, `VersionOrder`, `KeyResolution`, `LibraryLoading`, `LibraryUse`): a base-4 weighted
  sum stands in for lexicographic comparison, selection relies on set order, loading is reference counted on two
  levels, and a library stays loaded exactly while some running AI has it.
* **AI commands** (`UnitCommands`, `CommandWriting`): classify, decode and re-encode unit commands.
* **Timed jobs** (`JobDispatcher`): a priority queue whose loop puts jobs back.
* **AI instances** (`SkirmishAIHandler`, `SkirmishAIProtocol`, `SkirmishAIWrapper`, `EngineOutHandler`): which calls
  reach an AI library during one life of an AI, and the lists of running AIs.
* **View frustum** (`Vectors`, `Frustum`, `Culling`, `Camera`): six planes built from eight corners cut out exactly
  the view volume.

State that the engine updates in place is a class here; each method is tied to a function on values, and the
properties are lemmas about those functions. `Arithmetic`, `MapTotals` and `Wrappers` hold shared helpers.
`dafny verify dfyconfig.toml` checks everything.

## Where the code does less than it seems to

Each item is a lemma that says exactly when the code is right.

* A search of radius r depends on earlier requests unless something acceptable lies closer than r or r is the largest
  radius ever asked for: with requests up to a limit, history can be ignored below squared distance q if and only if
  q <= r^2 or r is the limit (`SearchHistory.HistoryThresholdIsExact`). Requests are clamped to 128, so a search of
  radius 128 never depends on history (`BuildSite.LargestSearchIgnoresHistory`).
* The ring keeps the due frames of all runs whose deferred hits meet a condition if and only if that condition
  implies a positive explosion speed and a distance below 131 times the speed (`DamageOnTime.PunctualityIsReach`); any
  other deferred hit is applied in a wrong frame (`DamageOnTime.OutOfReachIsMistimed`). At speed 0 the source divides
  by zero; that speed is excluded by type.
* The best-fitting interface is found among all versions whose part characters start at a given one, with or without
  empty parts, if and only if that character is at least '0' and empty parts are ruled out, for versions of at most
  15 parts (`KeyResolution.ServedVersions`). Wrong choices: `KeyResolution.WrongChoice` for a low character,
  `KeyResolution.EmptyPartMisleads` for two dots in a row.
* Copying a raw command copies as many bytes as there are parameters, so the classification sees a garbled first
  parameter. It matters exactly when a feature is reclaimed by id (`UnitCommands.GarblingMatters`); rewriting the
  command still preserves it.
* Loading three or more units, building definition 0, reclaiming ids on the wrong side of the unit range and custom
  ids that mean something else are the only orders not classified back (`UnitCommands.ClassificationInvertsEncoding`).
  An order's options are 16 bits wide but only eight are written; executing gives the order back only if they fit
  (`UnitCommands.ExecutingInvertsEncoding`).
* An AI sees an event before INIT if and only if the first thing its own init function does is to provoke one; an AI
  that dies first is blocked (`SkirmishAIProtocol.EventsBeforeInit`).
* Slots, id map and counter of the registry stay in agreement exactly when added data is valid, which is only
  asserted (`SkirmishAIHandler.AddNeedsValidData`). Kill flags are saved but wiped when a saved game is loaded
  (`SkirmishAIHandler.SkirmishAIHandler.PostLoad`).
* A list of running AIs stays free of duplicates exactly when the created id is new
  (`EngineOutHandler.PushNeedsNewId`), and destroying an AI indexes a team list exactly while the AI is active
  (`EngineOutHandler.EngineOutHandler.TeamIsListed`). Neither is checked by the code, so both are preconditions here.

## Model

| member | source | states |
|---|---|---|
| `SearchOffsets.StableSortContract` | rts/Game/GameHelper.cpp:1085 | the sort used: sorted by distance, a permutation, equal distances keep their order |
| `SearchOffsets.TableIsGrid` | rts/Game/GameHelper.cpp:1069-1086 | the table built for radius R holds exactly the cells of [-R,R)^2, nearest first, ties by row then column |
| `SearchOffsets.StableSortOrders` | rts/Game/GameHelper.cpp:1075-1085 | stably sorting the row-by-row raster yields a total order without ties |
| `SearchOffsets.OrderedIsUnique` | rts/Game/GameHelper.cpp:1065-1067 | two tables in that order with the same cells are the same sequence |
| `SearchHistory.SearchOffsetCache.BuildTable` | rts/Game/GameHelper.cpp:1073-1085 | the in-place resize, fill and sort leave the table of the radius |
| `SearchHistory.SearchOffsetCache.GetSearchOffsetTable` | rts/Game/GameHelper.cpp:1059-1089 | after every call the vector is what the requests so far account for |
| `SearchHistory.RequestGrows` | rts/Game/GameHelper.cpp:1069-1072 | comparing sizes is comparing radii |
| `SearchHistory.CacheIsLargestTable` | rts/Game/GameHelper.cpp:1064-1088 | after any sequence of requests the cache is the table of the largest radius so far |
| `SearchHistory.DiscIsEarly` | rts/Game/GameHelper.cpp:1085-1114 | an entry closer than r stands among the first (2r-1)^2 of any table (pigeonhole) |
| `SearchHistory.PrefixCoversDisc` | rts/Game/GameHelper.cpp:1114 | the first (2r)^2 entries of any large enough table contain every offset closer than r |
| `SearchHistory.DiscPartIsShared` | rts/Game/GameHelper.cpp:1064-1088 | below r^2 any two large enough tables agree entry for entry |
| `SearchHistory.SearchFindsNearest` | rts/Game/GameHelper.cpp:1107-1183 | if anything acceptable is closer than r, the scan returns the nearest acceptable offset of the unbounded grid |
| `SearchHistory.SearchIgnoresHistory` | rts/Game/GameHelper.cpp:1107-1183 | then two runs with different earlier requests return the same offset |
| `SearchHistory.HistoryMattersOnTheRim` | rts/Game/GameHelper.cpp:1107-1183 | with only (r,0) acceptable a fresh cache fails and a grown one succeeds |
| `SearchHistory.LargestRequestForgets` | rts/Game/GameHelper.cpp:1064-1088 | with requests up to a limit, a request of the limit leaves the same table after any history |
| `SearchHistory.RimDependsOnHistory` | rts/Game/GameHelper.cpp:1107-1183 | a single earlier request of r + 1 changes the result of a search of r |
| `SearchHistory.HistoryThresholdIsExact` | rts/Game/GameHelper.cpp:1107-1183 | with requests up to a limit, history can be ignored below q if and only if q <= r^2 or r is the limit |
| `BuildSite.SnapShifts` | rts/Game/GameHelper.cpp:983-1003 | snapping commutes with moving by whole build squares |
| `BuildSite.SnapIsNearAndStable` | rts/Game/GameHelper.cpp:983-1003 | snapping moves by at most half a build square and is idempotent |
| `BuildSite.SnapIsOnGrid` | rts/Game/GameHelper.cpp:983-1003 | a snapped position is the only one within half a build square from which the footprint starts on a build-square border |
| `BuildSite.IsClear` | rts/Game/GameHelper.cpp:1139-1179 | the nested scan with its inner break decides whether any square of the box blocks |
| `BuildSite.TestSite` | rts/Game/GameHelper.cpp:1115-1182 | a loop turn accepts exactly the offsets whose sites are free |
| `BuildSite.AcceptableIsFree` | rts/Game/GameHelper.cpp:1123-1179 | the clipped boxes accept an offset if and only if its own test passes, no immobile object is within minDistance of the turned footprint and no open yard within two squares more |
| `BuildSite.AroundIsSquaresApart` | rts/Game/GameHelper.cpp:1134-1137 | being in the widened footprint is being at most that many squares apart from some square of it |
| `BuildSite.RadiusIsClamped` | rts/Game/GameHelper.cpp:1108-1109 | the radius in whole build squares, at least 1 and at most 128 |
| `BuildSite.ScanOffsets` | rts/Game/GameHelper.cpp:1114-1185 | the loop returns the site of the first acceptable offset, or none; a site returned is free |
| `BuildSite.ClosestBuildPos` | rts/Game/GameHelper.cpp:1092-1186 | for every request history: any site returned is free, and it is the closest free site of the whole grid if anything free is within the radius; missing definition included |
| `BuildSite.SiteIsShiftedOrigin` | rts/Game/GameHelper.cpp:1115-1119 | the site of an offset is the snapped request moved by that offset |
| `BuildSite.TableKeyIsSiteDistance` | rts/Game/GameHelper.cpp:1056-1119 | the table's key is the squared distance of the site from the snapped request |
| `BuildSite.ClosestSiteIgnoresHistory` | rts/Game/GameHelper.cpp:1092-1186 | two histories return the same closest acceptable site |
| `BuildSite.LargestSearchIgnoresHistory` | rts/Game/GameHelper.cpp:1107-1114 | a search clamped to 128 returns the same site, or none, after any two histories of clamped requests |
| `Falloff.FactorInUnit` | rts/Game/GameHelper.cpp:139-150 | the damage factor lies in (0, 1] |
| `Falloff.FactorIsExact` | rts/Game/GameHelper.cpp:147-150 | the factor is 1 exactly below distance 1 or at full edge effectiveness, else the stated quotient; at the rim 1 / (1 + 1000 r (1 - edge)) |
| `Falloff.FactorFallsWithDistance` | rts/Game/GameHelper.cpp:147-150 | it never increases with distance, also across the switch at distance 1 |
| `Falloff.FactorRisesWithEdge` | rts/Game/GameHelper.cpp:147-150 | it never decreases with edge effectiveness |
| `Explosions.AllDefersAtMost` | rts/Game/GameHelper.cpp:165-171 | deferring only postpones part of an explosion tree, so draining is finite |
| `Explosions.DelayFitsWheel` | rts/Game/GameHelper.cpp:165-171 | a deferred delay is in 1..127 if and only if 0 < speed and dist < 131 * speed |
| `Explosions.DelayIsTravelTime` | rts/Game/GameHelper.cpp:171 | at positive speed the delay is the travel time in whole frames, less three |
| `GameHelper.GameHelper.DamageUnit` | rts/Game/GameHelper.cpp:107-172 | exactly the private-list effects of one unit; a late hit goes only to the slot of the frame its distance calls for |
| `GameHelper.GameHelper.DamageFeature` | rts/Game/GameHelper.cpp:174-211 | the same for a feature |
| `GameHelper.GameHelper.DamageObjectsInExplosionRadius` | rts/Game/GameHelper.cpp:215-248 | for any tree of nested calls: every object reached adds exactly one hit to those applied or waiting, objects that set nothing off are hit units first, each list in order, and both shared lists come back as they were |
| `GameHelper.GameHelper.Explosion` | rts/Game/GameHelper.cpp:250-318 | area and impact-only explosions have the effects of the private-list version and add exactly the hits they owe |
| `GameHelper.GameHelper.ApplyWaitingDamage` | rts/Game/GameHelper.cpp:72-80 | a due hit and all it sets off, or nothing if its target is gone |
| `GameHelper.GameHelper.Update` | rts/Game/GameHelper.cpp:62-84 | drains one slot even while it grows, then clears it; it terminates and neither loses nor repeats a hit |
| `GameHelper.GameHelper.SimFrame` | rts/Game/GameHelper.cpp:62-84 | one frame of explosions, drain and more explosions is one frame of the value model |
| `DamageLedger.AllAreHitOnce` | rts/Game/GameHelper.cpp:107-318 | the effects of any tree of explosions hold exactly one hit, with its own id, attacker and factor, for each object reached under a reached parent, late ones included |
| `DamageLedger.LateHitIsFiled` | rts/Game/GameHelper.cpp:165-171 | a unit four frames or more away is filed with the delay its distance calls for, and nothing else happens |
| `DamageLedger.DrainKeepsLedger` | rts/Game/GameHelper.cpp:62-84 | draining a frame keeps the hits applied and waiting, whatever the hits set off |
| `DamageLedger.NoHitIsLost` | rts/Game/GameHelper.cpp:62-318 | in every run from an empty ring the hits applied, with those still waiting, are exactly those the explosions owe, on time or not |
| `DamageLedger.AreaIsInOrder` | rts/Game/GameHelper.cpp:215-248 | an area whose objects set nothing off stamps its hits in list order, units before features |
| `DamageWheel.DrainStepShrinks` | rts/Game/GameHelper.cpp:67-81 | each step of the drain lowers what is left, though it may append |
| `DamageWheel.DrainRefines` | rts/Game/GameHelper.cpp:62-84 | draining a slot is running the schedule's due frame, and moves the window on |
| `DamageWheel.RunRefines` | rts/Game/GameHelper.h:266 | over any run the wheel shows exactly the next 128 frames of a schedule filed by slot |
| `DamageWheel.WheelIsSchedule` | rts/Game/GameHelper.h:266 | for every explosion, in reach or not: a hit is applied in the next frame that drains its slot, in filing order |
| `DamageWheel.DueOnTime` | rts/Game/GameHelper.cpp:165-171 | a hit falls due at the wanted frame exactly when that is one of the next 128 undrained frames |
| `DamageWheel.DeferredHitIsOnTime` | rts/Game/GameHelper.cpp:165-171 | for one hit: its slot is next drained in its due frame, filed before or after the drain, if and only if 0 < speed and dist < 131 * speed |
| `DamageOnTime.FiledHitIsApplied` | rts/Game/GameHelper.cpp:62-84 | the ideal schedule applies every hit in the very frame it is filed under, unless its target is gone |
| `DamageOnTime.AllAreTimely` | rts/Game/GameHelper.cpp:165-171 | within reach, every deferred hit of an explosion tree, later ones included, waits 1 to 127 frames |
| `DamageOnTime.WheelIsPunctual` | rts/Game/GameHelper.cpp:62-84 | within reach, every run of the ring has the trace of the ideal schedule by absolute frame |
| `DamageOnTime.WindowAndReachSuffice` | rts/Game/GameHelper.cpp:165-171 | delays of 1 to 127 frames, or speed and distance, both suffice for that |
| `DamageOnTime.EveryTreeMeets` | rts/Game/GameHelper.cpp:165-171 | a condition on deferred hits rules out nothing else: one that holds of them all is met by every explosion tree |
| `DamageOnTime.OutOfReachIsMistimed` | rts/Game/GameHelper.cpp:165-171 | for every hit out of reach a run that applies it although the ideal schedule does not |
| `DamageOnTime.PunctualityIsReach` | rts/Game/GameHelper.cpp:62-84 | all runs meeting a condition on their deferred hits are on time if and only if the condition implies reach |
| `DamageOnTime.DrainLeavesSlot` | rts/Game/GameHelper.cpp:67-81 | within reach a drain never appends to the slot it reads from |
| `DamageOnTime.OwnSlotIsMultiple` | rts/Game/GameHelper.cpp:67-81 | a hit goes to the slot being drained if and only if its delay is a multiple of 128 |
| `UnitQuery.VisitedOnce` | rts/Game/GameHelper.cpp:389-403 | each unit passing the filter and not yet stamped is added exactly once, nothing else; all visited units are stamped |
| `UnitQuery.ScopeMembers` | rts/Game/GameHelper.cpp:385-392 | the walk reaches exactly the units of accepted teams in some quad |
| `UnitQuery.QueryUnits` | rts/Game/GameHelper.cpp:379-405 | stamps and query object after the three nested loops, with stamps left from before |
| `UnitQuery.ClosestUnit.AddUnit` | rts/Game/GameHelper.cpp:537-543 | keeps a closest unit within the radius, the last of equally close ones |
| `UnitQuery.KeptIsClosest` | rts/Game/GameHelper.cpp:527-546 | the kept unit is a closest eligible one, or none if there is none |
| `UnitQuery.GetClosestUnit` | rts/Game/GameHelper.cpp:379-405 | with a stamp no unit carries the whole query returns such a unit, stamps exactly the units reached and changes no other stamp |
| `YardMap.GetYardMapIndex` | rts/Game/GameHelper.cpp:1019-1051 | the swaps and mirrors compute the index of the source cell |
| `YardMap.RotationsAreInverse` | rts/Game/GameHelper.cpp:1027-1050 | source cell to rotated cell and back, for every footprint and facing |
| `YardMap.RotationsAreInverseBack` | rts/ExternalAI/SSkirmishAICallbackImpl.cpp:2901-2928 | rotated cell to source cell and back |
| `YardMap.FrontLooksAtFacing` | rts/ExternalAI/SSkirmishAICallbackImpl.cpp:2901-2926 | the front row of the definition lies on the south, east, north or west edge for facing 0 to 3 |
| `YardMap.FacingsAreQuarterTurns` | rts/ExternalAI/SSkirmishAICallbackImpl.cpp:2901-2926 | each facing is one more quarter turn the same way, four of them closing the circle |
| `YardMap.TargetIsRotatedCell` | rts/ExternalAI/SSkirmishAICallbackImpl.cpp:2933-2935 | direction vectors, row width and start index address the rotated cell |
| `YardMap.TargetsInBounds` | rts/ExternalAI/SSkirmishAICallbackImpl.cpp:2936 | every write is inside the buffer, as the source asserts |
| `YardMap.TargetsDistinct` | rts/ExternalAI/SSkirmishAICallbackImpl.cpp:2931-2939 | no cell is written twice |
| `YardMap.CopiedAllIsRotation` | rts/ExternalAI/SSkirmishAICallbackImpl.cpp:2931-2939 | once all cells are copied, each buffer cell holds the source cell GetYardMapIndex names |
| `YardMap.GetYardMap` | rts/ExternalAI/SSkirmishAICallbackImpl.cpp:2877-2943 | the buffer afterwards is the rotation, cells behind it untouched; null buffer and missing map only report the size |
| `Versions.SplitLoop` | rts/System/FileSystem/SimpleParser.cpp:113-132 | the tokenising loop returns the non-empty parts between dots |
| `Versions.VersionsArePreordered` | rts/ExternalAI/AILibraryManager.cpp:486-502 | version comparison is antisymmetric in sign and transitive |
| `Versions.WeightDominates` | rts/ExternalAI/AILibraryManager.cpp:493-498 | all lower weights together stay below the next weight |
| `Versions.SumSignIsLexicographic` | rts/ExternalAI/AILibraryManager.cpp:493-501 | the sign of the weighted sum is lexicographic comparison of zero-padded parts |
| `Versions.AccumulateDiff` | rts/ExternalAI/AILibraryManager.cpp:493-498 | the loop computes the sum and never leaves 32 bits with at most 15 parts |
| `Versions.SignBitsIsSign` | rts/ExternalAI/AILibraryManager.cpp:501 | the final bit expression is the sign of every 32-bit number |
| `Versions.VersionCompare` | rts/ExternalAI/AILibraryManager.cpp:486-502 | returns -1, 0 or 1 by lexicographic comparison of the parts |
| `VersionOrder.DifferentPartsDecide` | rts/ExternalAI/AIInterfaceKey.cpp:35-42 | two different parts decide the string order, whatever follows them |
| `VersionOrder.StringOrderIsMonotone` | rts/ExternalAI/AIInterfaceKey.cpp:35-42 | over versions without part characters below '0' string order never contradicts version order |
| `VersionOrder.LowCharacterBreaksOrder` | rts/ExternalAI/AIInterfaceKey.cpp:35-42 | any lower character makes the two orders disagree |
| `KeyResolution.LessThanIsTotalOrder` | rts/ExternalAI/AIInterfaceKey.cpp:27-42 | the key order is a strict total order, so a set of keys has one iteration order |
| `KeyResolution.FindFittingInterfaceKey` | rts/ExternalAI/AILibraryManager.cpp:385-407 | the loop returns the first equal version, else the first higher one in set order |
| `KeyResolution.EqualVersionWins` | rts/ExternalAI/AILibraryManager.h:146-154 | an equal version is never passed over |
| `KeyResolution.FittingKeyIsLeast` | rts/ExternalAI/AILibraryManager.h:146-154 | over regular versions the choice is the least fitting one, and none only when none fits |
| `KeyResolution.WrongChoice` | rts/ExternalAI/AILibraryManager.cpp:385-407 | a concrete key set with a low character for which the choice is not the least |
| `KeyResolution.EmptyPartMisleads` | rts/ExternalAI/AILibraryManager.cpp:385-407 | for every character from '0' on, versions of that character alone with an empty part for which the choice is not the least |
| `KeyResolution.ServedVersions` | rts/ExternalAI/AILibraryManager.cpp:385-407 | all comparable key sets over an alphabet, with or without empty parts, are served correctly if and only if it starts at '0' or above and empty parts are ruled out |
| `KeyResolution.FittingSkirmishAIKeys` | rts/ExternalAI/AILibraryManager.cpp:268-290 | the matching keys in order: those registered under the wanted name and, if given, version; none for an empty name |
| `KeyResolution.MatchingKeysMembers` | rts/ExternalAI/AILibraryManager.cpp:277-287 | exactly the registered keys with the wanted name and, if given, version |
| `KeyResolution.HighestVersion` | rts/ExternalAI/AILibraryManager.cpp:438-445 | the loop finds the first of the highest versions |
| `KeyResolution.ResolveSkirmishAIKey` | rts/ExternalAI/AILibraryManager.cpp:429-448 | the first matching key of highest version, no other match being higher; the unspecified key exactly when none matches |
| `LibraryLoading.AIInterfaceLibrary.GetLoadCount` | rts/ExternalAI/AIInterfaceLibrary.cpp:154-161 | the loop sums all counts, in whatever order the map is walked |
| `LibraryLoading.AIInterfaceLibrary.FetchSkirmishAILibrary` | rts/ExternalAI/AIInterfaceLibrary.cpp:183-213 | loads on the first hold only; a library is present exactly while its count is positive |
| `LibraryLoading.AIInterfaceLibrary.ReleaseSkirmishAILibrary` | rts/ExternalAI/AIInterfaceLibrary.cpp:215-230 | unloads on the last hold only; releasing what is not held does nothing |
| `LibraryLoading.RunsAreAccounted` | rts/ExternalAI/AIInterfaceLibrary.cpp:183-230 | over any run, load and unload calls of a library alternate starting with load, and holds are fetches minus effective releases |
| `LibraryLoading.MapKeysAreNames` | rts/ExternalAI/SkirmishAIKey.h:48-55 | two keys share a map entry exactly if name and version agree, whatever their interfaces |
| `LibraryLoading.AILibraryManager.PresentWhileFetched` | rts/ExternalAI/AILibraryManager.cpp:294-326 | in every reachable state a library is present exactly while its fetches exceed its effective releases |
| `LibraryLoading.AILibraryManager.FetchInterface` | rts/ExternalAI/AILibraryManager.cpp:345-367 | loads a known interface once; a failed one is remembered as absent |
| `LibraryLoading.AILibraryManager.ReleaseInterface` | rts/ExternalAI/AILibraryManager.cpp:369-382 | the interface stays exactly if something is held from it |
| `LibraryLoading.AILibraryManager.FetchSkirmishAILibrary` | rts/ExternalAI/AILibraryManager.cpp:294-313 | when a library is handed out, which one, and that this counts as one fetch |
| `LibraryLoading.AILibraryManager.ReleaseSkirmishAILibrary` | rts/ExternalAI/AILibraryManager.cpp:315-326 | gives one hold back and keeps the interface exactly while something is held from it |
| `LibraryUse.FetchKeepsUsers` | rts/ExternalAI/SkirmishAIWrapper.cpp:126 | a fetch that succeeds keeps every library held as often as wrappers have it |
| `LibraryUse.ReleaseKeepsUsers` | rts/ExternalAI/SkirmishAIWrapper.cpp:159 | so does the release of a wrapper that has its library |
| `LibraryUse.LibraryUse.LoadedWhileUsed` | rts/ExternalAI/SkirmishAIWrapper.cpp:120-175 | after any run of initialisations and kills a library is loaded exactly while some wrapper has it |
| `LibraryUse.LibraryUse.InitLibrary` | rts/ExternalAI/SkirmishAIWrapper.cpp:126 | a fetch, failing or not, keeps holds and users equal |
| `LibraryUse.LibraryUse.Kill` | rts/ExternalAI/SkirmishAIWrapper.cpp:159 | the release made even after a failed fetch keeps them equal: it takes no other wrapper's hold |
| `LibraryUse.LibraryUse.IsLoadSupported` | rts/ExternalAI/SkirmishAIWrapper.cpp:108-118 | fetching and releasing for one question changes no wrapper's hold |
| `UnitCommands.WrittenIdIsInternal` | rts/ExternalAI/AISCommands.cpp:463-767 | the two tables agree: the id newCommand writes for an order is the one toInternalUnitCommandTopic names for its topic |
| `UnitCommands.ClassificationInvertsEncoding` | rts/ExternalAI/AISCommands.cpp:244-461 | the topic is recovered from the written command if and only if the order is recognisable |
| `UnitCommands.OwnIdIsRecognised` | rts/ExternalAI/AISCommands.cpp:9-241 | every topic with an id of its own is recovered from it, whatever the parameters |
| `UnitCommands.PickedTopicHasId` | rts/ExternalAI/AISCommands.cpp:244-461 | a topic is only picked for its own engine id |
| `UnitCommands.GarblingMatters` | rts/Sim/Units/CommandAI/Command.h:245-262 | the bytewise copy changes the topic exactly for reclaiming by one or two parameters at or above the unit range |
| `UnitCommands.CanonicalParams` | rts/ExternalAI/SSkirmishAICallbackImpl.cpp:291-639 | for every id: which raw commands can be decoded, which are passed on, and the parameters they then have |
| `UnitCommands.SharedIdsKeepPositions` | rts/ExternalAI/AISCommands.cpp:297-441 | an order with a shared id is for a position exactly from three parameters on, not five for reclaim and capture; the first three are kept |
| `UnitCommands.PayloadReadsBack` | rts/ExternalAI/SSkirmishAICallbackImpl.cpp:310-636 | parameters written for a decoded payload decode to it again, for lists of any length |
| `UnitCommands.CanonicalKeepsMeaning` | rts/ExternalAI/SSkirmishAICallbackImpl.cpp:291-639 | decoding and re-encoding keeps id, options, timeout and topic |
| `UnitCommands.CanonicalIsIdempotent` | rts/ExternalAI/SSkirmishAICallbackImpl.cpp:291-639 | doing it twice changes nothing more, whatever bytes the two classifications saw |
| `UnitCommands.ExecutingInvertsEncoding` | rts/ExternalAI/AISCommands.cpp:463-767 | executing an order's own engine command gives the order back if and only if it round-trips and its options fit a byte |
| `CommandWriting.Command.PushParam` | rts/Sim/Units/CommandAI/Command.cpp:61-83 | appends one parameter to the list the command stands for, inline or moved to the pool |
| `CommandWriting.Command.GetParam` | rts/Sim/Units/CommandAI/Command.cpp:42-49 | reads it back from wherever it is kept; zero past the end |
| `CommandWriting.NewCommand` | rts/ExternalAI/AISCommands.cpp:463-767 | whatever the command held before, it afterwards holds the encoding, its options cut to a byte |
| `JobDispatcher.RunPaysOne` | rts/Game/GameJobDispatcher.h:25 | each run lowers what a job is owed by one: the termination measure |
| `JobDispatcher.OwedRunsAreMade` | rts/Game/GameJobDispatcher.h:50-59 | a job is lost if and only if one of its owed calls answers false; otherwise it gets floor((now-t)/p)+1 of them, or one |
| `JobDispatcher.CatchUpRunsEveryPeriod` | rts/Game/GameJobDispatcher.h:25 | run i of a catching-up job is due at t + i*p |
| `JobDispatcher.LeftIsRescheduled` | rts/Game/GameJobDispatcher.h:25 | what is left of a job: unchanged if not due, else one period after now, or moved by one period for each run |
| `JobDispatcher.StaysIfAllAgree` | rts/Game/GameJobDispatcher.h:54-59 | a job stays exactly if each call it gets answers true, and a false answer is its last |
| `JobDispatcher.StepKeepsTrack` | rts/Game/GameJobDispatcher.h:47-60 | running the top job leaves every job on the course it would take alone |
| `JobDispatcher.StepKeepsOrder` | rts/Game/GameJobDispatcher.h:47-60 | due times run so far are in order and nothing queued is earlier |
| `JobDispatcher.JobDispatcher.Top` | rts/Game/GameJobDispatcher.h:64-65 | a job of smallest time |
| `JobDispatcher.JobDispatcher.Update` | rts/Game/GameJobDispatcher.h:44-61 | terminates, runs in order of due time, each job as if it were alone; survivors are those that always agreed, due later than now by their own frequency |
| `SkirmishAIHandler.AddNeedsValidData` | rts/ExternalAI/SkirmishAIHandler.cpp:182-197 | adding keeps slots, map and counter in agreement if and only if the data is valid |
| `SkirmishAIHandler.RemoveAgrees` | rts/ExternalAI/SkirmishAIHandler.cpp:199-213 | removing keeps them in agreement |
| `SkirmishAIHandler.RemoveUndoesAdd` | rts/ExternalAI/SkirmishAIHandler.cpp:182-213 | removing what was added restores the registry |
| `SkirmishAIHandler.CountFits` | rts/ExternalAI/SkirmishAIHandler.h:188-205 | the 8-bit counter cannot wrap |
| `SkirmishAIHandler.SkirmishAIHandler.AddSkirmishAI` | rts/ExternalAI/SkirmishAIHandler.cpp:182-197 | new registry; a taken id is refused |
| `SkirmishAIHandler.SkirmishAIHandler.RemoveSkirmishAI` | rts/ExternalAI/SkirmishAIHandler.cpp:199-213 | new registry and kill flags; an unknown id is refused |
| `SkirmishAIHandler.SkirmishAIHandler.ResetState` | rts/ExternalAI/SkirmishAIHandler.cpp:69-83 | everything empty, all three in agreement |
| `SkirmishAIHandler.SkirmishAIHandler.PostLoad` | rts/ExternalAI/SkirmishAIHandler.cpp:55-66 | map and counter are rebuilt from the loaded slots; kill flags are lost |
| `SkirmishAIHandler.SkirmishAIHandler.GetSkirmishAIsInTeam` | rts/ExternalAI/SkirmishAIHandler.cpp:141-163 | exactly the team's AIs of that host, ascending |
| `SkirmishAIProtocol.ReactKeepsPhase` | rts/ExternalAI/SkirmishAIWrapper.cpp:457-465 | whatever a library does during a call, deaths and nested events included, keeps the protocol where it was |
| `SkirmishAIProtocol.CreationReachesRest` | rts/ExternalAI/SkirmishAIWrapper.cpp:120-145 | however library and AI answer, the flags afterwards say where the protocol stands |
| `SkirmishAIProtocol.EventKeepsRest` | rts/ExternalAI/SkirmishAIWrapper.cpp:457-465 | so they do after any event |
| `SkirmishAIProtocol.KillFlagKeepsRest` | rts/ExternalAI/SkirmishAIHandler.cpp:258-270 | and after a kill flag |
| `SkirmishAIProtocol.UnloadingEndsLife` | rts/ExternalAI/SkirmishAIWrapper.cpp:147-187 | RELEASE goes to exactly the AIs that acknowledged INIT, the library's release to those it initialised |
| `SkirmishAIProtocol.EveryLifeFollows` | rts/ExternalAI/SkirmishAIWrapper.cpp:59-187 | every life, with any answers, events and deaths, follows the protocol automaton |
| `SkirmishAIProtocol.InitOnce` | rts/ExternalAI/SkirmishAIWrapper.cpp:190-203 | a trace that follows sends INIT at most once |
| `SkirmishAIProtocol.ReleaseNeedsInit` | rts/ExternalAI/SkirmishAIWrapper.cpp:177-187 | RELEASE comes only after an acknowledged INIT |
| `SkirmishAIProtocol.NothingAfterTheEnd` | rts/ExternalAI/SkirmishAIWrapper.cpp:177-203 | after RELEASE or a refused INIT no event is sent |
| `SkirmishAIProtocol.OnlyReleaseWhenBlocked` | rts/ExternalAI/SkirmishAIWrapper.cpp:457-465 | once blocked only RELEASE passes |
| `SkirmishAIProtocol.EventsBeforeInit` | rts/ExternalAI/EngineOutHandler.cpp:539-544 | an event precedes INIT if and only if the library's init function begins by provoking one |
| `SkirmishAIProtocol.ReactionBlocks` | rts/ExternalAI/SkirmishAIHandler.cpp:258-270 | a reaction gets an AI blocked if and only if the AI dies in it, at any depth |
| `SkirmishAIProtocol.EventsArrive` | rts/ExternalAI/SkirmishAIWrapper.cpp:457-465 | each event sent to a living AI enters its trace right after what it saw before, until it is blocked; then nothing is added |
| `SkirmishAIProtocol.CreatedIsTold` | rts/ExternalAI/EngineOutHandler.cpp:523-558 | a created AI that is never blocked acknowledges INIT and is then told all its news in order |
| `SkirmishAIWrapper.SkirmishAIWrapper.PreInit` | rts/ExternalAI/SkirmishAIWrapper.cpp:59-95 | a new life: flags down, no library, id and team set |
| `SkirmishAIWrapper.SkirmishAIWrapper.HandleEvent` | rts/ExternalAI/SkirmishAIWrapper.cpp:457-465 | the protocol's delivery step; its precondition, met at every call, is that no null library is called |
| `SkirmishAIWrapper.SkirmishAIWrapper.CallLibrary` | rts/ExternalAI/SkirmishAIWrapper.cpp:126-127 | fetch and library init, either failing |
| `SkirmishAIWrapper.SkirmishAIWrapper.InitLibrary` | rts/ExternalAI/SkirmishAIWrapper.cpp:120-137 | succeeds if and only if no kill flag is set afterwards, and blocks the AI otherwise |
| `SkirmishAIWrapper.SkirmishAIWrapper.SendInitEvent` | rts/ExternalAI/SkirmishAIWrapper.cpp:190-203 | initialised if and only if INIT was acknowledged, else killed |
| `SkirmishAIWrapper.SkirmishAIWrapper.InitAI` | rts/ExternalAI/SkirmishAIWrapper.cpp:140-145 | the whole initialisation, ending where the flags describe it |
| `SkirmishAIWrapper.SkirmishAIWrapper.ReleaseAI` | rts/ExternalAI/SkirmishAIWrapper.cpp:177-187 | RELEASE at most once and only to initialised AIs |
| `SkirmishAIWrapper.SkirmishAIWrapper.Kill` | rts/ExternalAI/SkirmishAIWrapper.cpp:147-175 | RELEASE, the library's release if it was initialised, then inactive |
| `EngineOutHandler.PushNeedsNewId` | rts/ExternalAI/EngineOutHandler.cpp:541-542 | pushing keeps a list free of duplicates if and only if the id is new |
| `EngineOutHandler.WithoutIsOneLess` | rts/ExternalAI/EngineOutHandler.cpp:575-580 | find and erase removes exactly that id |
| `EngineOutHandler.EngineOutHandler.ListsPartition` | rts/ExternalAI/EngineOutHandler.h:110-119 | in every state the active list is the disjoint union of the team lists, each id under its wrapper's team |
| `EngineOutHandler.EngineOutHandler.TeamIsListed` | rts/ExternalAI/EngineOutHandler.cpp:573-576 | destroying an id indexes a team list if and only if the AI is active |
| `EngineOutHandler.EngineOutHandler.RunningAIsFollow` | rts/ExternalAI/EngineOutHandler.h:110-119 | in every state the trace of every running AI follows the protocol |
| `EngineOutHandler.EngineOutHandler.CreateSkirmishAI` | rts/ExternalAI/EngineOutHandler.cpp:523-558 | lists and all hosts afterwards, other AIs told of what the new one provokes; Lua AIs change nothing; no news to an AI that is to be killed |
| `EngineOutHandler.EngineOutHandler.SetLocalKillFlag` | rts/ExternalAI/SkirmishAIHandler.cpp:258-270 | stores the reason and blocks the AI, keeping the invariant |
| `EngineOutHandler.EngineOutHandler.DestroySkirmishAI` | rts/ExternalAI/EngineOutHandler.cpp:569-589 | off both lists, then released; the finished trace follows the protocol; other AIs told of what it provokes |
| `EngineOutHandler.EngineOutHandler.Kill` | rts/ExternalAI/EngineOutHandler.h:38-43 | terminates with every list empty, and every host is what the releases leave of it |
| `EngineOutHandler.EachIsReleasedOnce` | rts/ExternalAI/EngineOutHandler.h:38-41 | that is: told of what earlier releases provoked, released once, then left alone; no other host touched |
| `EngineOutHandler.EngineOutHandler.Send` | rts/ExternalAI/EngineOutHandler.cpp:85-88 | events in order, each noticed by its AI alone and only if it is listed |
| `EngineOutHandler.EngineOutHandler.Update` | rts/ExternalAI/EngineOutHandler.cpp:128-131 | every active AI is told in turn, and other AIs of what its handling provokes at them |
| `EngineOutHandler.EngineOutHandler.SendToTeam` | rts/ExternalAI/EngineOutHandler.cpp:189-195 | the same for exactly the AIs whose wrapper is in the team |
| `EngineOutHandler.BroadcastTellsOnce` | rts/ExternalAI/EngineOutHandler.cpp:85-88 | with no side events each AI of a duplicate-free list gets the event exactly once, no other notices |
| `Vectors.TripleAlong` | rts/Game/Camera.cpp:193-204 | determinants in camera coordinates, times the axes' own, give the engine's triple products |
| `Vectors.UnitDotBound` | rts/Game/Camera.cpp:788-806 | a unit normal sees no more of a vector than its length |
| `Frustum.AxesAreHanded` | rts/Game/Camera.cpp:560-566 | up normalised from right x forward makes the axes independent and of the needed orientation |
| `Frustum.PlaneDeterminant` | rts/Game/Camera.cpp:184-211 | each of the six vertex triples yields minus a fixed multiple of the distance to its bound |
| `Frustum.NormalIsPositive` | rts/Game/Camera.cpp:198-203 | no plane degenerates, so normalising is safe |
| `Frustum.PlaneIsUnit` | rts/Game/Camera.cpp:201 | the stored normals have length one |
| `Frustum.PlaneIsBound` | rts/Game/Camera.cpp:184-211 | a point is inside a constructed plane if and only if its coordinates keep that bound |
| `Frustum.PlanesCutOutVolume` | rts/Game/Camera.cpp:175-211 | the six planes cut out the view volume and nothing else, perspective and orthographic |
| `Frustum.ShownIsInsidePlanes` | rts/Game/Camera.cpp:175-211 | the same for points given without coordinates |
| `Frustum.ShownIsInVolume` | rts/Game/Camera.cpp:175-211 | a point given by coordinates is shown if and only if they keep the bounds: no other coordinates stand for it |
| `Culling.SphereTestIsExact` | rts/Game/Camera.cpp:795-798 | a plane passes a sphere if and only if some point of the ball is on its inner side |
| `Culling.BoxTestIsExact` | rts/Game/Camera.cpp:873-875 | a plane passes a box if and only if some point of the box is on its inner side |
| `Culling.BoxInBall` | rts/Game/Camera.cpp:373-377 | a box lies in the ball InView tests first |
| `Culling.CornersAreOnBall` | rts/Game/Camera.cpp:373-377 | and it is the least such ball around the middle: corners lie on its border |
| `Culling.SphereCullingIsSound` | rts/Game/Camera.cpp:788-806 | no sphere sharing a point with the view volume is culled, for any plane mask |
| `Culling.BoxCullingIsSound` | rts/Game/Camera.cpp:866-882 | no box sharing a point with it is culled, for any plane mask |
| `Culling.PointCullingIsExact` | rts/Game/Camera.cpp:788-806 | with all planes a point is kept if and only if it is shown |
| `Camera.Camera.SetFrustumPlane` | rts/Game/Camera.cpp:193-204 | writes one plane and leaves the other five |
| `Camera.Camera.UpdateFrustum` | rts/Game/Camera.cpp:167-211 | corners and planes afterwards belong to the current view |
| `Camera.Camera.SeenIsShown` | rts/Game/Camera.cpp:175-191 | the view shows what the camera's own fields say: up to z times the vertical tangent, and that times the aspect ratio to the sides |
| `Camera.Camera.IntersectSphere` | rts/Game/Camera.cpp:788-806 | the loop decides the test of every masked plane |
| `Camera.Camera.IntersectAABB` | rts/Game/Camera.cpp:866-882 | the same for boxes |
| `Camera.Camera.InView` | rts/Game/Camera.cpp:367-371 | a sphere with a point seen by the camera's own fields is in view; with all planes a point is in view if and only if it is seen |
| `Camera.Camera.InViewBox` | rts/Game/Camera.cpp:373-377 | a box with a point seen by the camera's own fields is in view |

## Left out

- SearchHistory.SearchOffsetCache.GetSearchOffsetTable: radii from 32768 on, where the unsigned size would wrap; the only caller asks for at most 128.
- BuildSite.ClosestBuildPos: the height of the site; terrain and occupancy are a fixed oracle of the site, and refreshing blocked squares during a search is not part of this model.
- Explosions.DelayFitsWheel: explosion speed 0, for which the source converts an infinite quotient to int.
- DamageWheel.WheelIsSchedule: due frames; they are the subject of `DamageOnTime.WheelIsPunctual`.
- DamageWheel.DeferredHitIsOnTime: runs; they are the subject of `DamageOnTime.PunctualityIsReach`.
- GameHelper.GameHelper.DamageUnit: impulse, damage arrays, weapon and projectile ids.
- GameHelper.GameHelper.DamageFeature: impulse, damage arrays, weapon and projectile ids.
- GameHelper.GameHelper.Update: the reference the source holds into the slot while hits may append to it; the model reads a copy, and `DamageOnTime.DrainLeavesSlot` says when nothing is appended.
- GameHelper.GameHelper.Explosion: impulse, damage arrays, weapon and projectile ids, ground deformation, effects, sound and script hooks.
- GameHelper.GameHelper.DamageObjectsInExplosionRadius: the quad-field query, which is taken to append what it finds.
- YardMap.GetYardMap: a buffer smaller than the map, which the source excludes by assertion.
- Versions.VersionCompare: more than 15 parts, where the shift or the sum leaves 32 bits, and string comparison results other than -1, 0 and 1, of which the C++ standard fixes only the sign.
- KeyResolution.FindFittingInterfaceKey: versions of more than 15 parts, as above.
- KeyResolution.ServedVersions: versions of more than 15 parts, as above.
- KeyResolution.HighestVersion: versions of more than 15 parts, as above.
- KeyResolution.ResolveSkirmishAIKey: versions of more than 15 parts, as above.
- LibraryLoading.AILibraryManager.ReleaseSkirmishAILibrary: a key that is not a known AI, which the source looks up unchecked.
- LibraryUse.LibraryUse.InitLibrary: a key whose interface is known but whose AI is not; keys come from resolving, which yields known AIs or the unspecified key.
- LibraryUse.LibraryUse.IsLoadSupported: the property it reads, and keys as above.
- UnitCommands.CanonicalKeepsMeaning: raw commands with fewer parameters than their topic reads without checking; group and unit ids, command tags and AI command ids.
- CommandWriting.NewCommand: unknown topics, for which the source returns false and writes nothing, and the pages of the shared parameter pool.
- JobDispatcher.JobDispatcher.Update: callbacks that add jobs themselves; none of the engine's does.
- SkirmishAIHandler.SkirmishAIHandler.PostLoad: local AIs waiting for creation, library keys, Lua AI names and default options.
- SkirmishAIProtocol.EveryLifeFollows: the data of events, and timers; a library can provoke events, here and at other AIs, and die; its other callbacks are not seen.
- SkirmishAIWrapper.SkirmishAIWrapper.PreInit: resolving the library key, the timer and the callback object.
- SkirmishAIWrapper.SkirmishAIWrapper.Kill: giving the library back to the library manager, which is modelled in `LibraryUse`.
- EngineOutHandler.EngineOutHandler.CreateSkirmishAI: an id that is still active, network messages, and the selection of unit events sent to a new AI, which are given.
- EngineOutHandler.EngineOutHandler.DestroySkirmishAI: an id that is not active.
- EngineOutHandler.EngineOutHandler.Kill: the block of AI orders before the loop.
- EngineOutHandler.EngineOutHandler.SendToTeam: which enemy or allied AIs are told of a unit by sensor range and cheat events.
- Camera.Camera.UpdateFrustum: frustum edges and the copy to the culling camera; float rounding and the approximate inverse square root, which is taken as exact.
- Releasing all libraries at once: the source erases the map entry its loop stands on.
- Weapon target scoring: a long formula without a crisp specification.
- Getters, setters and registration of AI callbacks, camera controllers, user interface, network and drawing: wrappers without invariants of their own.
