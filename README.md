# Equipment scheduler and template utilities, modelled in Dafny

This project models the core of a Java utility repository.

The main part is the equipment maintenance scheduler of `Scheduling/`. `LocationData` holds one
location's equipment: units kept on site, and units grouped by sublocation in insertion order.
`DailyScheduleData` holds one day: a date and, for each technician, a list of location fragments
to visit. `SchedulingHelper` builds such days in two modes.

- Fixed-days mode (`extractScheduleFixNumberOfDays`): the run advances the start to an open
  business day and creates `numberOfDays` schedules on successive open days, each with an empty
  list per technician. It cuts every on-site list and every sublocation list into consecutive
  chunks of about n / numberOfDays units (see ## Left out), puts chunk i on day i in the first technician's list,
  and then splits each day among the technicians.
- Capacity mode (`extractScheduleMaxNumberOfEquipementsPerDay`): it keeps two counters of units
  still to schedule, one on site and one off site. Each open day it splits min(cap, remaining)
  between the two kinds. Priority passes then drain the live location objects, larger locations
  first, taking at most half of a list per draw. The counters drop by the targets, not by what the
  passes drew.
- The split (`distributeLocationsToTechnicians`): every list of the day is emptied into one
  sequence in key order. The roster, in order, then gets consecutive blocks of ceil(N / T)
  fragments.

The same repository also has smaller pieces, modelled here as well:

- the regular-expression escaper `escapeRegExpMetaChars`;
- the Markdown template producer's helpers (`MK.java`): named-group builders, dedentation, the
  part splicing of `getLine`, and the HTML written for figures and Markdown extensions once a
  match is known;
- the template substitution engine of `TemplateProducerBase` (`temp.java`);
- the javadoc string handling of `ExtractClassesJavadocDoclet`;
- the path helpers of `OC.java`;
- the two directory-tree renderers, `TreeContent.java` and `generateTree.java`.

Objects the source updates in place are Dafny classes: `LocationData`, `DailyScheduleData`,
`PartData`, `TemplateProducerBase`, `TreeContent`, and the shared line list of `generateTree`.
Each class's methods are proved to leave a state described by a value-level function. The
properties, such as every unit scheduled exactly once, dates on successive business days, blocks
per technician and round trips, are proved about those functions.

Fixed-days mode puts chunk i on day i (SchedulingHelper.java:232). Capacity mode lowers its
counters by the day's targets (SchedulingHelper.java:175-176), even when the passes drew fewer
units (see ## Findings).

## Model

| member | source | states |
|---|---|---|
| Calendar.DayOfWeek | Scheduling/SchedulingHelper.java:39 | the day of the week of a day number lies between Sunday (1) and Saturday (7), as Calendar.DAY_OF_WEEK does |
| Calendar.IsBusinessDay | Scheduling/SchedulingHelper.java:194-201 | a day of the week is a business day exactly when the open-days array lists it |
| Calendar.DefaultOpenDays | Scheduling/SchedulingHelper.java:190-192 | the default open days are exactly Monday to Friday |
| Calendar.OpenDays | Scheduling/SchedulingHelper.java:29-32 | an empty open-days array is replaced by Monday to Friday; a non-empty one is kept |
| Calendar.DefaultHasWeekday | Scheduling/SchedulingHelper.java:190-192 | the default open days contain a real weekday, so the calendar loops end |
| Calendar.WeekdayWithinAWeek | Scheduling/SchedulingHelper.java:56-58 | every weekday occurs within the next seven days |
| Calendar.NextOpen | Scheduling/SchedulingHelper.java:38-41 | advancing to an open day stops at an open day less than a week away |
| Calendar.NextOpenFirst | Scheduling/SchedulingHelper.java:38-41 | the day reached is the first open day at or after the start, and an open start is kept |
| Calendar.BusinessDays | Scheduling/SchedulingHelper.java:43-59 | the dates the day loop visits number exactly as many as requested |
| Calendar.BusinessDaysAreSuccessive | Scheduling/SchedulingHelper.java:38-59 | each date is the first open day after the previous one, and the first is the first open day from the start |
| SchedulingMath.Min | Scheduling/SchedulingHelper.java:225 | Math.min: the result is one of the two and no larger than either |
| SchedulingMath.CeilDivSpec | Scheduling/SchedulingHelper.java:217-218 | ceil(a / b) times b covers a, and one less would not |
| SchedulingMath.CeilDivQuotient | Scheduling/SchedulingHelper.java:407 | the ceiling equals the integer quotient (a + b - 1) / b |
| SchedulingMath.CeilHalf | Scheduling/SchedulingHelper.java:291 | ceil(m / 2) is the smallest r with m at most 2r |
| SchedulingMath.ChunkCountFits | Scheduling/SchedulingHelper.java:217-236 | cutting n units into chunks of ceil(n / d) needs at most d chunks, so no list needs more days than there are |
| StableOrder.DescendingOrder | Scheduling/SchedulingHelper.java:320 | the visiting order is a list of positions of the same length as the keys |
| StableOrder.DescendingOrderSpec | Scheduling/SchedulingHelper.java:361 | the order is a permutation of the positions, by descending key, with equal keys in their original order (a stable sort) |
| Locations.LocationData.constructor | Scheduling/LocationData.java:21-25 | a new location has its name, no on-site unit and no sublocation |
| Locations.LocationData.SublocationsCount | Scheduling/LocationData.java:35-37 | the count is the number of sublocations in the map |
| Locations.LocationData.TotalOffSiteEquipmentsSublocationsCount | Scheduling/LocationData.java:39-47 | the total equals the number of units over all sublocation lists |
| Locations.LocationData.TotalEquipmentsCount | Scheduling/LocationData.java:27-29 | the total is on-site units plus off-site units, which is the number of units the location holds |
| Locations.LocationData.AddOffSiteEquipmentToSublocation | Scheduling/LocationData.java:53-64 | the unit is appended to its sublocation's list, and a new sublocation goes last in key order |
| Locations.AddOffSiteUnits | Scheduling/LocationData.java:53-64 | adding an off-site unit adds exactly that unit to the location's units |
| Locations.AddToNewUnits | Scheduling/LocationData.java:53-64 | a unit added to a new sublocation goes at the end of the location's units |
| Locations.OffSiteTotalCounts | Scheduling/LocationData.java:39-47 | the summed list sizes equal the length of the concatenated lists |
| Locations.RemoveAll | Scheduling/SchedulingHelper.java:303 | removeAll keeps exactly the elements of the list that are not in the removed collection, and never grows the list |
| Locations.RemoveAllCount | Scheduling/SchedulingHelper.java:303 | each element not in the removed collection is kept as often as the list holds it; no copy of a removed element is left |
| Locations.RemoveAllAppend | Scheduling/SchedulingHelper.java:303 | removeAll of two lists joined is the two results joined, so the kept elements keep their order |
| Locations.RemoveAllPrefix | Scheduling/SchedulingHelper.java:294-303 | removing a list's own first k elements leaves exactly its remaining elements, when there are no repeats |
| Locations.LocationData.AddOnSite | Scheduling/SchedulingHelper.java:299 | adding to the live on-site list appends the unit and changes nothing else |
| Locations.LocationData.RemoveAllOnSite | Scheduling/SchedulingHelper.java:303 | the live on-site list becomes removeAll of it, the rest unchanged |
| Locations.LocationData.RemoveFirstOffSite | Scheduling/SchedulingHelper.java:342 | remove(0) on a live sublocation list drops its first unit and changes nothing else |
| DailySchedules.DailyScheduleData.constructor | Scheduling/DailyScheduleData.java:18-21 | a new day has its date and an empty technician map |
| DailySchedules.DailyScheduleData.PutEmptyList | Scheduling/SchedulingHelper.java:49-51 | putting an empty list for a technician gives that technician an empty list; a new technician goes last in key order |
| DailySchedules.InitDayLists | Scheduling/SchedulingHelper.java:46-51 | a new day has the given date and exactly the roster's technicians, each with an empty list |
| DailySchedules.InitDayOrder | Scheduling/SchedulingHelper.java:46-51 | with no repeated names, the map's keys are the roster in order |
| DailySchedules.InitDayFirst | Scheduling/SchedulingHelper.java:214 | the first key of a new day is the roster's first technician |
| DailySchedules.DailyScheduleData.AddToFirstList | Scheduling/SchedulingHelper.java:214 | a fragment is appended to the first technician's list |
| DailySchedules.AddFirstAppends | Scheduling/SchedulingHelper.java:232 | while only the first list is used, adding to it appends the fragment to the day's fragments |
| DailySchedules.AddFirstAdds | Scheduling/SchedulingHelper.java:306 | adding to the first list adds exactly that fragment to the day's fragments |
| DailySchedules.DailyScheduleData.ClearList | Scheduling/SchedulingHelper.java:403 | clearing one technician's list empties it and changes nothing else |
| DailySchedules.DailyScheduleData.AppendToList | Scheduling/SchedulingHelper.java:414 | adding fragments to a technician's list appends them in order and changes nothing else |
| FixedPlans.ChunksSpec | Scheduling/SchedulingHelper.java:217-236 | the chunks concatenate back to the list, number ceil(n / c), are non-empty and hold c units each except the last |
| FixedPlans.OnSiteFragmentsFit | Scheduling/SchedulingHelper.java:203-238 | an on-site list never needs more fragments than there are days |
| FixedPlans.SublocationFragmentsFit | Scheduling/SchedulingHelper.java:240-280 | a sublocation list never needs more fragments than there are days |
| FixedPlans.OnSiteFragmentsUnits | Scheduling/SchedulingHelper.java:203-238 | the on-site fragments hold exactly the on-site units, in order, whether there is one unit or many |
| FixedPlans.SublocationFragmentsUnits | Scheduling/SchedulingHelper.java:240-280 | the fragments of a sublocation hold exactly its units, in order |
| FixedPlans.PlaceFragments | Scheduling/SchedulingHelper.java:232 | fragment i is appended to day i's first list; dates, technicians and the other days are unchanged |
| FixedPlans.PlaceUnits | Scheduling/SchedulingHelper.java:273 | placing fragments adds exactly their units to the days |
| FixedPlans.StageOnSite | Scheduling/SchedulingHelper.java:203-238 | on-site staging keeps the number of days and adds exactly the on-site units |
| FixedPlans.StageSublocations | Scheduling/SchedulingHelper.java:240-280 | off-site staging keeps the number of days and adds exactly the units of every sublocation |
| FixedPlans.StageLocation | Scheduling/SchedulingHelper.java:62-68 | staging a location adds exactly all of its units to the days |
| FixedPlans.FixedStage | Scheduling/SchedulingHelper.java:61-68 | staging all locations adds every unit of every location, once |
| FixedPlans.InitDaysEmpty | Scheduling/SchedulingHelper.java:43-59 | the new days hold no unit |
| FixedPlans.StagedDays | Scheduling/SchedulingHelper.java:26-68 | before the split there is one day per date, and the days hold exactly the units of the locations |
| FixedScheduling.ListFragments | Scheduling/SchedulingHelper.java:217-236 | a list is cut into no more fragments than there are days |
| FixedScheduling.OnSiteListFragments | Scheduling/SchedulingHelper.java:203-238 | the loop's fragments of the on-site list are the on-site fragments of the plan |
| FixedScheduling.SublocationListFragments | Scheduling/SchedulingHelper.java:258-277 | the loop's fragments of a sublocation list are that sublocation's fragments of the plan |
| FixedScheduling.BuildOnSiteCopy | Scheduling/SchedulingHelper.java:227-230 | the new LocationData holds the location's name and the chosen on-site units |
| FixedScheduling.BuildOffSiteCopy | Scheduling/SchedulingHelper.java:268-271 | the new LocationData holds the name, one sublocation and the chosen units |
| FixedScheduling.AddToDay | Scheduling/SchedulingHelper.java:232 | only day d changes: the fragment is added to its first technician's list |
| FixedScheduling.PlaceChunks | Scheduling/SchedulingHelper.java:221-236 | the chunk loop leaves the days as the plan places that list's fragments |
| FixedScheduling.ChunkTurn | Scheduling/SchedulingHelper.java:224-235 | one turn places the next chunk, strictly lowers the units remaining, and keeps the loop invariant |
| FixedScheduling.ScheduleOnSiteEquipment | Scheduling/SchedulingHelper.java:203-238 | scheduleOnSiteEquipment leaves the days as on-site staging describes |
| FixedScheduling.ScheduleOffSiteEquipment | Scheduling/SchedulingHelper.java:240-280 | with no off-site unit the days are unchanged; otherwise they are as off-site staging describes |
| FixedScheduling.ScheduleLocation | Scheduling/SchedulingHelper.java:62-68 | one location's two calls leave the days as staging that location describes |
| FixedScheduling.StageLocations | Scheduling/SchedulingHelper.java:61-68 | the location loop leaves the days as staging all locations describes |
| FixedRuns.FixedStageFrame | Scheduling/SchedulingHelper.java:61-68 | staging keeps every day's date and technician map keys |
| FixedRuns.StagedDaysFrame | Scheduling/SchedulingHelper.java:43-68 | each staged day has its date and the roster as technicians |
| FixedRuns.AdvanceToOpen | Scheduling/SchedulingHelper.java:38-41 | the start-date loop ends on the first open day at or after the start |
| FixedRuns.NewDay | Scheduling/SchedulingHelper.java:46-51 | a new schedule has its date and one empty list per technician |
| FixedRuns.CreateDays | Scheduling/SchedulingHelper.java:43-59 | the day loop creates numberOfDays fresh schedules, one per successive business day, each initialised |
| FixedRuns.AppendDay | Scheduling/SchedulingHelper.java:53 | the list grows by the new schedule; the earlier ones are unchanged |
| FixedRuns.DistributeDay | Scheduling/SchedulingHelper.java:72 | only day i changes, and it is split among the technicians |
| FixedRuns.DistributeAll | Scheduling/SchedulingHelper.java:70-73 | the last loop splits every day among the technicians |
| FixedRuns.StageAndSplit | Scheduling/SchedulingHelper.java:61-73 | staging then splitting leaves the days as the staged days, each split |
| FixedRuns.ExtractScheduleFixNumberOfDays | Scheduling/SchedulingHelper.java:26-76 | the result is numberOfDays fresh schedules whose states are the fixed run of the inputs |
| FixedRuns.FixedRunIs | Scheduling/SchedulingHelper.java:26-76 | the fixed run is the split of the staged days on the business days from the start |
| FixedRuns.FixedRunDates | Scheduling/SchedulingHelper.java:26-59 | the run has numberOfDays schedules, dated on the business days from the start, each with the roster's technicians |
| FixedRuns.FixedRunSuccessive | Scheduling/SchedulingHelper.java:38-59 | the run's dates are strictly successive open days, starting at the first open day from the start |
| FixedRuns.FixedRunUnits | Scheduling/SchedulingHelper.java:26-76 | every unit of every location is scheduled on exactly one day of the run, once |
| FixedRuns.StagedRunDates | Scheduling/SchedulingHelper.java:70-73 | the split keeps each day's date and technicians |
| FixedRuns.StagedRunUnits | Scheduling/SchedulingHelper.java:70-73 | the split days hold exactly the units of the locations |
| Distribution.ClearAll | Scheduling/SchedulingHelper.java:403 | clearing keeps every technician and empties every list |
| Distribution.StartIs | Scheduling/SchedulingHelper.java:410-416 | the j-th block starts at min(j * per, N) |
| Distribution.BlockSplits | Scheduling/SchedulingHelper.java:413-415 | the fragments handed out after j technicians are those after j - 1 plus block j - 1 |
| Distribution.Distribute | Scheduling/SchedulingHelper.java:395-417 | the split keeps the day's date, technicians and map keys |
| Distribution.HandOutAdds | Scheduling/SchedulingHelper.java:410-416 | handing out to j technicians adds exactly the first Start(j) fragments |
| Distribution.HandOutAll | Scheduling/SchedulingHelper.java:407 | T blocks of ceil(N / T) cover all N fragments |
| Distribution.DistributeKeepsFragments | Scheduling/SchedulingHelper.java:395-417 | the split neither loses nor duplicates a fragment |
| Distribution.HandOutTurn | Scheduling/SchedulingHelper.java:410-416 | turn j adds block j to technician j's list and changes no other list |
| Distribution.HandOutOthers | Scheduling/SchedulingHelper.java:410-416 | a technician not yet reached keeps its list |
| Distribution.HandOutMine | Scheduling/SchedulingHelper.java:410-416 | with no repeated names, technician k's list gains exactly block k |
| Distribution.BucketIsBlock | Scheduling/SchedulingHelper.java:400-416 | after clearing and handing out, technician k's list is exactly block k |
| Distribution.DistributeConcat | Scheduling/SchedulingHelper.java:395-417 | with two or more technicians, the lists in key order concatenate to the fragments in their original order |
| Distribution.DistributeBlocks | Scheduling/SchedulingHelper.java:395-417 | technician k gets block k of ceil(N / T) consecutive fragments, never more than ceil(N / T), and all fragments keep their order |
| Distributing.GatherAll | Scheduling/SchedulingHelper.java:400-404 | the gathering loop returns the day's fragments in key order and empties every list |
| Distributing.GatheringStep | Scheduling/SchedulingHelper.java:401-403 | one gathering turn keeps the loop invariant |
| Distributing.GatheringDone | Scheduling/SchedulingHelper.java:400-404 | the finished invariant gives all fragments and cleared lists |
| Distributing.HandOutBlock | Scheduling/SchedulingHelper.java:413-415 | a block loop adds the fragments from current to min(current + per, N) to one technician |
| Distributing.HandOutTurn | Scheduling/SchedulingHelper.java:410-416 | one roster turn hands out block j and moves to the start of block j + 1 |
| Distributing.HandOutAll | Scheduling/SchedulingHelper.java:410-416 | the roster loop hands out every block |
| Distributing.DistributeLocationsToTechnicians | Scheduling/SchedulingHelper.java:395-417 | the method leaves the day exactly as the split describes; one technician or fewer leaves it unchanged |
| CapacityTargets.TargetsBounds | Scheduling/SchedulingHelper.java:140-167 | the targets never exceed what remains of each kind, sum to min(cap, remaining), and their positive parts stay within the cap |
| CapacityTargets.TargetsShare | Scheduling/SchedulingHelper.java:147-159 | with both kinds left, on-site gets at least min(ceil(m / 2), on-site left) and off-site the rest up to what it has; a kind with nothing left gets 0 |
| CapacityTargets.TargetsProgress | Scheduling/SchedulingHelper.java:140-167 | with a positive cap some kind with units left gets a positive target |
| CapacityTargets.OverridesShrink | Scheduling/SchedulingHelper.java:125-127 | moving to a later day never adds per-date overrides still ahead, and passing an overridden date removes one |
| CapacityTargets.PlanStep | Scheduling/SchedulingHelper.java:121-185 | one day of the loop: its cap and targets, the next open day, counters lowered by the targets, and the loop measure decreasing |
| CapacityTargets.PlanCapped | Scheduling/SchedulingHelper.java:125-167 | each planned day's cap is its override or the default, and its targets stay within it |
| CapacityTargets.PlanDates | Scheduling/SchedulingHelper.java:178-181 | the planned dates are the successive business days from the start |
| CapacityTargets.PlanLength | Scheduling/SchedulingHelper.java:121-185 | without overrides the loop runs ceil(total / cap) days |
| CapacityTargets.CapAtMostZeroStalls | Scheduling/SchedulingHelper.java:175-176 | a cap of zero or less never lowers the counters' total, so with such a default the loop never ends |
| CapacityDraws.OnSiteForDaySpec | Scheduling/SchedulingHelper.java:282-310 | the on-site draw takes at most ceil(n / 2) units and at most the allowance, takes some when both are positive, stages one copy of the first units taken, and changes only the on-site list |
| CapacityDraws.OnSiteForDayDrains | Scheduling/SchedulingHelper.java:294-303 | with distinct units, the draw stages the first k units and leaves exactly the rest |
| CapacityDraws.DrawSublocationsCount | Scheduling/SchedulingHelper.java:322-351 | the sublocation loop draws no more than the allowance, nothing when it is not positive, and only changes sublocation lists |
| CapacityDraws.DrawSublocationsUnits | Scheduling/SchedulingHelper.java:322-351 | the units drawn plus the units left are the location's units |
| CapacityDraws.DrawSublocationsHalf | Scheduling/SchedulingHelper.java:326-343 | each sublocation loses at most ceil(n / 2) units, all from its front |
| CapacityDraws.DrawSublocationsProgress | Scheduling/SchedulingHelper.java:322-351 | with a positive allowance and a non-empty sublocation in the order, something is drawn |
| CapacityDraws.OffSiteForDaySpec | Scheduling/SchedulingHelper.java:312-354 | the off-site draw respects the allowance, draws nothing from an empty location, something from a non-empty one, and changes only sublocation lists |
| CapacityDraws.OffSiteForDayUnits | Scheduling/SchedulingHelper.java:312-354 | units are conserved by the off-site draw, and each sublocation loses at most half of its list, from the front |
| CapacityDraws.OnSiteForDayUnits | Scheduling/SchedulingHelper.java:282-310 | without repeated unit names, units are conserved by the on-site draw |
| CapacityDraws.RepeatedUnitDropped | Scheduling/SchedulingHelper.java:303 | as written, a repeated on-site unit is lost: ["e", "e"] stages one "e" and leaves none |
| CapacityDraws.DrawCount | Scheduling/SchedulingHelper.java:356-393 | a draw from a location holding units of the kind takes between 1 and the allowance |
| CapacityDraws.DrawKeeps | Scheduling/SchedulingHelper.java:356-393 | a draw conserves units and touches only the lists of its kind |
| CapacityDraws.VisitSkips | Scheduling/SchedulingHelper.java:365 | a location with nothing of the kind is skipped |
| CapacityDraws.VisitStops | Scheduling/SchedulingHelper.java:369 | the pass stops once a draw reaches what remains of the target |
| CapacityDraws.VisitGoesOn | Scheduling/SchedulingHelper.java:366-369 | otherwise the pass goes on to the next location with the rest of the target |
| CapacityDraws.VisitCount | Scheduling/SchedulingHelper.java:356-393 | a pass draws between 0 and the target and keeps the number of locations |
| CapacityDraws.VisitKeeps | Scheduling/SchedulingHelper.java:356-393 | a pass touches only the lists of its kind |
| CapacityDraws.VisitUnits | Scheduling/SchedulingHelper.java:356-393 | a pass conserves the units of all locations |
| CapacityDraws.VisitProgress | Scheduling/SchedulingHelper.java:356-393 | a pass over a location holding units of the kind draws something |
| CapacityDraws.ByPriorityCount | Scheduling/SchedulingHelper.java:356-393 | a non-positive target does nothing; otherwise the pass draws at most the target, and something when any location holds that kind |
| CapacityDraws.ByPriorityUnits | Scheduling/SchedulingHelper.java:356-393 | the priority pass conserves units and touches only lists of its kind |
| CapacityScheduling.CopyFirstOnSite | Scheduling/SchedulingHelper.java:298-300 | the new LocationData holds the name and the first k on-site units |
| CapacityScheduling.ScheduleOnSiteEquipmentForDay | Scheduling/SchedulingHelper.java:282-310 | the method returns the draw's count, leaves the location as the draw's rest and stages its fragments |
| CapacityScheduling.MoveFirstUnits | Scheduling/SchedulingHelper.java:339-343 | the copy holds the first k units of the sublocation, which lose exactly those |
| CapacityScheduling.ScheduleSublocation | Scheduling/SchedulingHelper.java:326-350 | an empty sublocation changes nothing; otherwise min(allowance, ceil(n / 2)) units move from its front to the first technician's list |
| CapacityScheduling.DrawSublocationsLoop | Scheduling/SchedulingHelper.java:323-351 | the sublocation loop leaves the objects as the value-level draw describes |
| CapacityScheduling.ScheduleOffSiteEquipmentForDay | Scheduling/SchedulingHelper.java:312-354 | the method returns the off-site draw's count, leaves its rest and stages its fragments |
| CapacityScheduling.CountOf | Scheduling/SchedulingHelper.java:361 | the count read is the location's number of units of the kind |
| CapacityScheduling.CountsOf | Scheduling/SchedulingHelper.java:358-361 | the counts read are those of every location in list order |
| CapacityScheduling.DrawLocation | Scheduling/SchedulingHelper.java:366 | only location i changes, as the draw describes, and the day gets the draw's fragments |
| CapacityScheduling.VisitLocation | Scheduling/SchedulingHelper.java:364-370 | one turn of the pass: skip, draw and go on, or draw and stop |
| CapacityScheduling.VisitStep | Scheduling/SchedulingHelper.java:363-371 | one turn keeps the pass's invariant |
| CapacityScheduling.VisitLoop | Scheduling/SchedulingHelper.java:363-371 | the loop leaves the locations and the day as the value-level pass describes |
| CapacityScheduling.ScheduleEquipmentByPriority | Scheduling/SchedulingHelper.java:356-393 | the priority pass leaves the locations and the day as ByPriority describes |
| CapacityExtraction.Totals | Scheduling/SchedulingHelper.java:109-115 | the two totals are the on-site and off-site unit counts of all locations |
| CapacityExtraction.ComputeTargets | Scheduling/SchedulingHelper.java:139-167 | the targets computed are the day's targets |
| CapacityExtraction.ScheduleDay | Scheduling/SchedulingHelper.java:129-173 | a fresh schedule gets the day's two passes, and the locations are left as the passes describe |
| CapacityExtraction.MakeDay | Scheduling/SchedulingHelper.java:129-184 | a fresh schedule is built, drawn and split as the run's day describes |
| CapacityExtraction.SplitDay | Scheduling/SchedulingHelper.java:184 | splitting the drawn day completes the run's day |
| CapacityExtraction.AppendScheduledDay | Scheduling/SchedulingHelper.java:137 | the list grows by the new schedule; the earlier ones are unchanged |
| CapacityExtraction.ScheduleTurn | Scheduling/SchedulingHelper.java:121-185 | one turn: cap and targets of the day, the schedule appended, and the run's day produced |
| CapacityExtraction.Turn | Scheduling/SchedulingHelper.java:121-185 | one turn keeps the loop on the plan and lowers the loop measure |
| CapacityExtraction.NextTurn | Scheduling/SchedulingHelper.java:175-181 | lowering the counters and moving to the next open day keeps the loop on the plan |
| CapacityExtraction.RunStart | Scheduling/SchedulingHelper.java:104-119 | the state before the loop is on the plan of the run |
| CapacityExtraction.Schedules | Scheduling/SchedulingHelper.java:121-185 | the loop ends with the run's schedules and locations |
| CapacityExtraction.ExtractScheduleMaxNumberOfEquipementsPerDay | Scheduling/SchedulingHelper.java:88-188 | the method returns fresh schedules whose states are the capacity run, and leaves the locations as the run does |
| CapacityRuns.DayDrawsCount | Scheduling/SchedulingHelper.java:169-173 | a day's two passes draw at most the sum of the positive targets |
| CapacityRuns.DayDrawsUnits | Scheduling/SchedulingHelper.java:169-173 | a day's two passes conserve units and keep the locations' names |
| CapacityRuns.DayDrawsProgress | Scheduling/SchedulingHelper.java:169-173 | a positive target of a kind still present draws something |
| CapacityRuns.Stage | Scheduling/SchedulingHelper.java:306 | staging keeps the day's date, technicians and keys |
| CapacityRuns.StageAppends | Scheduling/SchedulingHelper.java:306 | staging appends the fragments, in order, to the first list |
| CapacityRuns.DayOfFragments | Scheduling/SchedulingHelper.java:129-184 | a run's day holds exactly the fragments drawn for it |
| CapacityRuns.RunPlanDates | Scheduling/SchedulingHelper.java:122-130 | each day of the run has its planned date |
| CapacityRuns.RunPlanBound | Scheduling/SchedulingHelper.java:169-173 | each day holds no more units than its positive targets |
| CapacityRuns.RunPlanUnits | Scheduling/SchedulingHelper.java:121-185 | the units scheduled plus the units left are the units of the locations |
| CapacityRuns.TotalCountUnits | Scheduling/SchedulingHelper.java:109-115 | the two totals together count every unit |
| CapacityRuns.CapacityRunDates | Scheduling/SchedulingHelper.java:88-188 | the run's days are dated on successive business days from the start |
| CapacityRuns.CapacityRunLength | Scheduling/SchedulingHelper.java:88-188 | without overrides the run has ceil(total units / cap) days |
| CapacityRuns.CapacityRunEmpty | Scheduling/SchedulingHelper.java:121 | with nothing to schedule the run has no day |
| CapacityRuns.CapacityRunBound | Scheduling/SchedulingHelper.java:125-173 | no day holds more units than that day's cap |
| CapacityRuns.CapacityRunUnits | Scheduling/SchedulingHelper.java:88-188 | no unit is duplicated or invented: the units scheduled plus the units left are the units given |
| CapacityRuns.CountersLeaveUnits | Scheduling/SchedulingHelper.java:175-176 | as written: one location with n of at least 2 on-site units and a cap of at least n ends after one day with n - ceil(n / 2) units never scheduled |
| CapacityRuns.SingleLocationOnSite | Scheduling/SchedulingHelper.java:291 | that location's pass stages only ceil(n / 2) of its units |
| CapacityRuns.CorrectedTurn | Scheduling/SchedulingHelper.java:175-176 | with counters recomputed from the locations, each day lowers the loop measure |
| CapacityRuns.CorrectedRunDrains | Scheduling/SchedulingHelper.java:88-188 | corrected, the run schedules every unit and leaves none |
| RegexEscape.EscapeChar | escapeRegExpMetaChars.java:14-34 | the text appended for a character ends with it, is two characters long exactly for a metacharacter, and unescapes back to the character |
| RegexEscape.EscapedAppend | escapeRegExpMetaChars.java:13-36 | escaping a concatenation concatenates the escapes |
| RegexEscape.EscapeRegExpMetaChars | escapeRegExpMetaChars.java:6-39 | null stays null; otherwise the loop returns the escaped text, which is the empty string for an empty one |
| RegexEscape.EscapedLength | escapeRegExpMetaChars.java:6-39 | the escaped text is longer by the number of metacharacters |
| RegexEscape.EscapedRoundTrip | escapeRegExpMetaChars.java:6-39 | removing the escapes gives the original text back |
| RegexEscape.NoMetaUnchanged | escapeRegExpMetaChars.java:32-34 | text without metacharacters is unchanged |
| RegexEscape.EscapedMetaCountIff | escapeRegExpMetaChars.java:6-39 | escaping leaves text unchanged exactly when it holds no metacharacter |
| RegexEscape.EscapedCount | escapeRegExpMetaChars.java:6-39 | each character other than the backslash occurs as often after escaping as before |
| UnixPaths.StripTrailingSlash | OC.java:48-50 | one trailing slash is removed; other values are kept |
| UnixPaths.JoinStep | OC.java:47-62 | a null or empty value leaves the path as it was; otherwise the path grows and ends with the value without its trailing slash |
| UnixPaths.GetUnixFullname | OC.java:42-68 | null values give the empty string; otherwise the result is the values joined |
| UnixPaths.AllEmptyJoinsToEmpty | OC.java:43-67 | values that are all null or empty join to the empty string |
| UnixPaths.JoinedGrows | OC.java:47-62 | each later value only appends to the path |
| UnixPaths.JoinedPlainSegments | OC.java:54-62 | plain segments are joined with one slash between them, and the result never ends with a slash |
| UnixPaths.ToUnixPath | OC.java:75-77 | null or empty is kept; otherwise every backslash becomes a slash and nothing else changes |
| UnixPaths.ToUnixPathIdempotent | OC.java:75-77 | converting twice is converting once, and no backslash is left |
| UnixPaths.GzipTargetName | OC.java:916-920 | the name succeeds exactly when it ends with the extension, ignoring case, and is the name without it; otherwise it fails with the source's message |
| UnixPaths.GzipTargetNameRoundTrip | OC.java:967-971 | a base name plus the extension, in any case, gives the base name back |
| JavadocText.ParamsOf | ExtractClassesJavadocDoclet.java:78-89 | no parentheses, or fewer than one character between them, gives no parameter |
| JavadocText.ReturnTypeOf | ExtractClassesJavadocDoclet.java:90-97 | without both parentheses the return type is the whole text; with them it is null exactly when ')' ends the text |
| JavadocText.JavadocTypesOf | ExtractClassesJavadocDoclet.java:63-99 | null gives all nulls; '>' before '<' throws; a generic part exists exactly when both brackets do, starting with '<' and holding no '>' |
| JavadocText.GenericBounds | ExtractClassesJavadocDoclet.java:73-76 | the generic part runs from '<' up to, not including, '>' |
| JavadocText.NewJavadocTypes | ExtractClassesJavadocDoclet.java:63-99 | the constructor yields the fields JavadocTypesOf describes |
| JavadocText.ParamsAndReturn | ExtractClassesJavadocDoclet.java:78-97 | the constructor's second half gives ParamsOf and ReturnTypeOf |
| JavadocText.AddAll | ExtractClassesJavadocDoclet.java:85-87 | the loop adds the split pieces untrimmed, in order |
| JavadocText.ParseSignature | ExtractClassesJavadocDoclet.java:63-99 | a signature built from a generic part, parameters and a return type parses back to them |
| JavadocText.AppendCommentPart | ExtractClassesJavadocDoclet.java:438-446 | one part is appended after ". " (or " " after a period), and the text so far is kept |
| JavadocText.ProcessCommentParts | ExtractClassesJavadocDoclet.java:433-451 | null parts give the empty string; otherwise the loop gives the joined comment text |
| JavadocText.CommentTextChars | ExtractClassesJavadocDoclet.java:433-451 | the text holds only the parts' characters, periods and spaces |
| JavadocText.CommentTextOfSentences | ExtractClassesJavadocDoclet.java:438-446 | trimmed parts not ending with a period are joined with ". " |
| JavadocText.CommentStageChars | ExtractClassesJavadocDoclet.java:460-474 | each flattening stage removes its separator and adds only periods and spaces |
| JavadocText.ProcessComment | ExtractClassesJavadocDoclet.java:458-478 | null and empty are kept; any other comment is the result of the four split-and-join stages ("\r\n", "\n\r", "\n", "\r"), which is on one line, and unchanged if it had no line break |
| JavadocText.CommentOfLines | ExtractClassesJavadocDoclet.java:459-474 | two or more trimmed lines not ending with a period, joined by line feeds, come back joined by ". " ("a\nb" becomes "a. b") |
| JavadocText.NoBreaksUnchanged | ExtractClassesJavadocDoclet.java:459-475 | a comment without line breaks matches none of the four separators |
| JavadocText.ProcessErroneousTree | ExtractClassesJavadocDoclet.java:413-426 | bad '<' gives "<", bad '>' gives ">", and every other code gives the empty string |
| JavaStrings.IndexOfFrom | ExtractClassesJavadocDoclet.java:73-79 | indexOf returns -1 or a position at or after the start where the text occurs |
| JavaStrings.IndexOfFromLeftmost | ExtractClassesJavadocDoclet.java:73-79 | indexOf returns the first occurrence from the start, or -1 when there is none |
| JavaStrings.Trim | ExtractClassesJavadocDoclet.java:446 | trim is the slice of the text left after its leading and trailing characters up to the space, and has no such character at either end |
| JavaStrings.PiecesJoin | ExtractClassesJavadocDoclet.java:83 | the pieces between separators join back to the text |
| JavaStrings.SplitContent | ExtractClassesJavadocDoclet.java:83 | split's pieces hold no separator and only the text's characters |
| JavaStrings.SplitJoinWithChar | ExtractClassesJavadocDoclet.java:83 | splitting pieces joined by a character they lack gives the pieces back |
| Wrappers.AppendText | MK.java:945 | a present value is written as itself; the text is "null" exactly when the value is null or the string "null", so the two cannot be told apart in the line |
| MarkdownGroups.GetGroupOption | MK.java:510-524 | the group opens with "(?<name>" and the text, then '*' when wildcard, then the closer for optional or mandatory |
| MarkdownGroups.GetGroup | MK.java:480-489 | getGroup is the mandatory group without wildcard: "(?<name>" text ")" |
| MarkdownGroups.GetGroupOptionWildcard | MK.java:498-500 | the three-argument overload is the four-argument one with the wildcard on |
| MarkdownGroups.GroupOptionBalance | MK.java:510-524 | an optional group closes one parenthesis more than it opens, which closes the marker group's parenthesis |
| MarkdownGroups.GetMarkerGroup | MK.java:547-554 | the marker group is "(", the escaped marker, then the option group |
| MarkdownGroups.GetMarkerGroupWildcard | MK.java:534-536 | the four-argument overload has the wildcard on |
| MarkdownGroups.MarkerGroupBalance | MK.java:547-554 | an optional marker group is balanced; a mandatory one leaves its opening parenthesis unclosed |
| MarkdownGroups.MarkerGroupExampleText | MK.java:547-554 | marker ".", group "p", text "x", mandatory, gives the text "(\\.(?<p>x*)" |
| MarkdownGroups.MarkerGroupUnclosedExample | MK.java:547-554 | that text opens one parenthesis more than it closes |
| MarkdownGroups.GetMarkerGroupClosed | MK.java:547-554 | a closed variant that equals the source's marker group for every optional call |
| MarkdownGroups.MarkerGroupClosedBalance | MK.java:547-554 | the closed variant is balanced whatever the flags |
| MarkdownGroups.RemoveSpaces | MK.java:569 | replace(" ", "") leaves no space, and every other character as often as the text holds it |
| MarkdownGroups.RemoveSpacesAppend | MK.java:569 | removing spaces from two texts joined is the two results joined, so the other characters keep their order |
| MarkdownGroups.RemoveSpacesUnchanged | MK.java:569 | removing spaces changes the text exactly when it holds one |
| MarkdownGroups.DedentEnd | MK.java:567 | the dedent end is dedentValue clamped to the text's length |
| MarkdownGroups.DoDedentValue | MK.java:562-570 | null and empty values are returned as they are |
| MarkdownGroups.DoDedentValueSpec | MK.java:562-570 | the result is no longer, keeps everything after the first dedentValue characters verbatim, and before that is those characters with their spaces removed |
| MarkdownGroups.DedentUnchangedIff | MK.java:562-570 | dedenting changes nothing exactly when the first dedentValue characters hold no space |
| MarkdownParts.PartData.constructor | MK.java:232-237 | a new part has its span and text and a null output |
| MarkdownParts.GetLine | MK.java:934-954 | getLine gives the text between the parts, each part's output, then the tail; no parts gives the line |
| MarkdownParts.SplicedIdentity | MK.java:934-954 | parts whose outputs repeat their own text give the line back |
| MarkdownParts.FigureImg | MK.java:766-790 | the image element starts with the source attribute and ends with '>' |
| MarkdownParts.FigureCaptionElement | MK.java:792-803 | the caption's class starts with the position, and it ends with the rendered alt text |
| MarkdownParts.FigureCaptionHtml | MK.java:752-826 | an empty image URL keeps the input; otherwise the output is one figure element |
| MarkdownParts.FigureOrder | MK.java:805-820 | the caption goes before the image on top and after it at the bottom |
| MarkdownParts.FigureCaptionOrder | MK.java:805-824 | after a match, "top" puts the caption first; "bottom" or no position puts it last |
| MarkdownParts.FigurePositionDefault | MK.java:762-764 | no position is the same as "bottom" |
| MarkdownParts.ChooseTag | MK.java:868-882 | no tag name gives a span with the class and style unchanged; an unknown tag name gives no tag; the class marker gives a span classed by the name; any other value is used as the tag |
| MarkdownParts.HtmlTagValues | MK.java:157-199 | every dictionary value is an element name, the class marker, or the small-caps style |
| MarkdownParts.ClassMarkerTags | MK.java:874-875 | the tags marked with the class marker are big, center and font, written as a span classed by their name |
| MarkdownParts.SmallcapsTagAsWritten | MK.java:189 | as written, "smallcaps" is written as an element named "$font-variant: small-caps", which is not an element name |
| MarkdownParts.ChooseTagCorrected | MK.java:874-878 | corrected, an unknown tag name still gives no tag |
| MarkdownParts.SmallcapsTagCorrected | MK.java:189 | corrected, "smallcaps" becomes a span styled in small capitals |
| MarkdownParts.ChooseTagCorrectedNames | MK.java:157-199 | corrected, every element written has an element name |
| MarkdownParts.ExtensionElement | MK.java:884-914 | the element starts with its opening tag and ends with its closing tag, inside p when it is a paragraph |
| MarkdownParts.TagFramed | MK.java:891-914 | the tags frame the element, also inside p |
| MarkdownParts.MarkdownExtensionHtml | MK.java:856-921 | empty user text gives an empty output; no tag, class or style keeps the user text; an unknown tag keeps the input |
| MarkdownParts.ExtensionIsSpan | MK.java:868-904 | no tag name but a class gives a span with the class and the style |
| MarkdownParts.ExtensionParagraph | MK.java:866-914 | whenever a tag is chosen (a dictionary tag, a span with a class or only a style), the replacement is that element, wrapped in p exactly when the matched text is the whole line |
| MarkdownParts.NewParts | MK.java:743-745 | one fresh part per found span, in order, each with a null output |
| MarkdownParts.FillParts | MK.java:747-828 | every matched part gets its rendering as output, and unmatched parts keep null |
| MarkdownParts.ProduceFigureCaption | MK.java:734-831 | null or empty lines are kept; otherwise the line is spliced with the figure outputs |
| MarkdownParts.ProduceMarkdownExtension | MK.java:838-926 | null or empty lines are kept; otherwise the line is spliced with the extension outputs |
| MarkdownParts.UnmatchedFigureAsWritten | MK.java:752-828 | as written, a line that is one found part with no full match becomes "null" |
| MarkdownParts.FigureSpansCorrected | MK.java:719-721 | corrected, every part gets an output and keeps its span |
| MarkdownParts.UnmatchedFigureCorrected | MK.java:945 | corrected, a line none of whose parts fully match comes back unchanged |
| TemplateProducer.NameEndSpans | temp.java:237-243 | a plain tag's name is the longest run of letters, digits and '_' after the prefix |
| TemplateProducer.ScanName | temp.java:237-241 | the for loop stops where the name scan stops |
| TemplateProducer.TemplateProducerBase.constructor | temp.java:59-65 | the tags start as "<#", ">" and "$TAG_", with the base directory and template given |
| TemplateProducer.TemplateProducerBase.SetStartTag | temp.java:362-364 | only the start tag changes |
| TemplateProducer.TemplateProducerBase.SetEndTag | temp.java:378-380 | only the end tag changes |
| TemplateProducer.TemplateProducerBase.SetTag | temp.java:395-397 | only the plain tag prefix changes |
| TemplateProducer.TemplateProducerBase.SetTemplate | temp.java:411-413 | only the template changes |
| TemplateProducer.TemplateProducerBase.ProduceLine | temp.java:196-263 | produceLine's outcome, within the allowed nested steps, is the one the line's specification gives |
| TemplateProducer.TemplateProducerBase.BracketPass | temp.java:197-230 | the bracketed loop ends as the bracketed pass from the first start tag |
| TemplateProducer.TemplateProducerBase.BracketTurn | temp.java:199-229 | one turn either finishes or keeps the same outcome while its measure falls |
| TemplateProducer.TemplateProducerBase.ReplaceTag | temp.java:212-228 | a replacement resumes after the inserted text, keeps the outcome, and lowers what is left to scan |
| TemplateProducer.TemplateProducerBase.NestedStep | temp.java:208-210 | a nested section that is produced is put back and the scan resumes at the same start tag |
| TemplateProducer.TemplateProducerBase.PlainPass | temp.java:232-260 | the plain loop ends as the plain pass from the first prefix |
| TemplateProducer.TemplateProducerBase.PlainTurn | temp.java:235-259 | one plain turn fails as substring does, or keeps the outcome and lowers the scan measure |
| TemplateProducer.TemplateProducerBase.ProcessTemplateLine | temp.java:319 | one template line goes through beforeProduceLine, produceLine and afterProduceLine |
| TemplateProducer.TemplateProducerBase.Produce | temp.java:313-325 | produce(List) gives the produce specification of the lines |
| TemplateProducer.TemplateProducerBase.ProduceTemplate | temp.java:332-334 | produce() is produce over the stored template |
| TemplateProducer.TemplateProducerBase.ProduceSingleLine | temp.java:342-348 | produceSingleLine gives its specification |
| TemplateProducer.ProduceShape | temp.java:313-325 | the result is the beforeProduce lines, one processed line per template line in order, then the afterProduce lines; it finishes exactly when every line does |
| TemplateProducer.FailurePersists | temp.java:318-320 | once a line fails, the whole production fails the same way |
| TemplateProducer.SingleLineEmptyUntouched | temp.java:342-348 | a null or empty line is returned as it is, whatever the tags and hooks |
| TemplateProducer.SingleLineAsProduce | temp.java:342-348 | on a non-empty line, produceSingleLine is produce of that one line without the produce hooks |
| TemplateProducer.NoTagsUnchanged | temp.java:196-263 | a line with neither a start tag nor the plain prefix comes back unchanged |
| TemplateProducer.UnclosedStartTag | temp.java:200-204 | a start tag with no end tag after it ends the bracketed pass, and only plain tags are replaced |
| TemplateProducer.BracketsNoEnd | temp.java:200-204 | the bracketed loop stops with the line as it is when no end tag follows |
| TemplateProducer.BracketReplaceStep | temp.java:212-228 | a replaced tag is rebuilt from its value and the scan resumes after the value |
| TemplateProducer.BracketValueKept | temp.java:218-228 | a bracketed tag's value is kept in place and never scanned again |
| TemplateProducer.BracketUnknownKept | temp.java:212-216 | a tag onTag does not know is kept as start tag, section and end tag, and the scan goes on after it |
| TemplateProducer.BracketsKeepPrefix | temp.java:199-230 | the bracketed pass never changes the text before the current tag |
| TemplateProducer.PlainReplaceStep | temp.java:243-259 | a plain tag is replaced by its value or kept, and the scan resumes after it |
| TemplateProducer.PlainOutOfBounds | temp.java:243 | a name scan ending before the prefix ends fails as substring does |
| TemplateProducer.PlainValueKept | temp.java:249-259 | a plain tag's replacement is kept in place and never scanned again |
| TemplateProducer.ProduceLineFuelMonotone | temp.java:196-263 | allowing one more nested step changes nothing once produceLine has finished or failed |
| TemplateProducer.ProduceLineFuelEnough | temp.java:196-263 | any larger allowance gives the same outcome once one allowance does not diverge |
| TemplateProducer.SelfNestedDiverges | temp.java:208-210 | a nested section that comes back unchanged rebuilds its own line, so produceLine never ends |
| TemplateProducer.NestedUnknownDiverges | temp.java:208-210 | the line "<#x<#y>>" with no known tag makes produceLine loop for ever |
| TreeContents.EntriesSpec | TreeContent.java:72-107 | the listed entries are exactly the shown children, each once, sorted by name ignoring case with directories first on request; no directory without subdir and no file without showFiles |
| TreeContents.RenderCount | TreeContent.java:109-133 | every entry adds one line and one to one counter |
| TreeContents.RenderPrefix | TreeContent.java:120-132 | every line addContent adds starts with the spacing it was given |
| TreeContents.RenderEntryLines | TreeContent.java:120-132 | the last entry uses the last branch and its contents get spacingLevel; the others use the branch and directorySpacingLevel |
| TreeContents.RenderDepth | TreeContent.java:71 | nothing is listed at or below maxDepth; one level above it only the entries' own lines appear |
| TreeContents.TreeContent.Default | TreeContent.java:39-41 | the default drawing strings are "    ", "│   ", "├── " and "└── ", with no line and both counters at zero |
| TreeContents.TreeContent.constructor | TreeContent.java:49-57 | the four drawing strings are stored, with no line and both counters at zero |
| TreeContents.TreeContent.AddContent | TreeContent.java:70-137 | addContent appends the rendering's lines and adds its counts to the counters |
| TreeContents.TreeContent.AddEntry | TreeContent.java:112-133 | one turn counts the entry, adds its line and descends into a directory |
| TreeContents.TreeContent.ExtractTreeContent | TreeContent.java:375-387 | lines and counters restart; the title comes first unless empty; there is one line per listed directory and file besides it |
| TreeContents.TreeContent.ExtractTreeContentOf | TreeContent.java:154-251 | the short overloads use no filter, the largest depth, directories first on Windows, files shown and subdirectories listed |
| FileTrees.Keep | TreeContent.java:72-92 | the filter keeps exactly the entries it accepts |
| FileTrees.KeepCount | TreeContent.java:72-92 | an accepted entry is kept as often as the listing holds it, a refused one not at all |
| FileTrees.KeepAppend | TreeContent.java:72-92 | filtering two listings joined is the two results joined, so the kept entries keep their order |
| FileTrees.SortEntriesPermutation | TreeContent.java:95-107 | sorting keeps every entry, as often as it was there |
| FileTrees.SortEntriesSorted | TreeContent.java:95-107 | the sorted listing is in the comparator's order |
| GenerateTrees.Files | generateTree.java:22-32 | the files array is the listing filtered by the listFiles filter: it holds only accepted children, and every accepted child of a directory |
| GenerateTrees.FileLinesSpec | generateTree.java:35-43 | one line per file, in order, behind "    " only for the last entry of a last directory and behind the bar prefix otherwise |
| GenerateTrees.FilesFirst | generateTree.java:35-64 | all of a directory's file lines come before its subdirectory lines |
| GenerateTrees.RefusedSubdirectory | generateTree.java:53-62 | a refused subdirectory gets "|" and its branch line, chosen by the parent's isLast, and nothing else |
| GenerateTrees.DescendedSubdirectory | generateTree.java:16-20 | a descended subdirectory opens with "|" and its branch line, chosen by whether it is last, and its contents are indented four more spaces |
| GenerateTrees.NoSubdirTree | generateTree.java:25-29 | without subdir the tree is the path and one line per top-level file |
| GenerateTrees.GenerateTreeInto | generateTree.java:12-66 | the recursion appends the path and the body at the top, and the subtree below it |
| GenerateTrees.AddSubtree | generateTree.java:16-20 | a subdirectory call appends its header lines and its body |
| GenerateTrees.AddBody | generateTree.java:34-65 | the two loops append the file lines, then the subdirectory lines |
| GenerateTrees.AddFileLines | generateTree.java:35-43 | the first loop appends the file lines |
| GenerateTrees.AddDirLines | generateTree.java:45-64 | the second loop appends the subdirectory lines |
| GenerateTrees.GenerateTree | generateTree.java:152-157 | a new list holds the tree, which starts with the base directory's path |
| GenerateTrees.GenerateTreeOfPath | generateTree.java:95-97 | as written, generateTree(String, boolean) draws the tree with subdirectories whatever subdir says |
| GenerateTrees.GenerateTreeOfPathCorrected | generateTree.java:106-108 | corrected, subdir is passed on, and without it only the top-level files are listed |
| GenerateTrees.SubdirIgnored | generateTree.java:95-97 | with subdir false, the overload as written still draws a subdirectory, while passing subdir on leaves only the path |

## Left out

- SchedulingMath.CeilDiv: the source computes ceilings as `Math.ceil` of doubles. At SchedulingHelper.java:149 and 407 (one rounded division) and 291 and 333 (`* 0.5`) that is the exact integer ceiling modelled here.
- FixedPlans.ChunksSpec, FixedRuns.FixedRunUnits: the fixed-mode chunk size `Math.ceil((100.0 / numberOfDays / 100.0) * n)` (SchedulingHelper.java:217-218, 258-259) rounds twice in doubles and can exceed ceil(n / numberOfDays) by one. For 9 units over 3 days the double product is 3.0000000000000004, so the source cuts chunks of 4, 4 and 1 where the model cuts 3, 3 and 3 (likewise 15 over 3, 18 over 3, 7 over 7). The model does not capture this rounding. Every unit is still scheduled once either way, but the chunk boundaries differ.
- FixedPlans.StagedDays, FixedPlans.FixedStage, FixedRuns.ExtractScheduleFixNumberOfDays: require numberOfDays > 0. With zero days the source fails on `scheduleList.get(0)` as soon as one unit is to be scheduled, and returns an empty list otherwise; that second case is excluded.
- FixedRuns.ExtractScheduleFixNumberOfDays: requires a non-empty roster. The source accepts an empty roster when there is no unit, and fails on the first technician's list otherwise.
- CapacityExtraction.ExtractScheduleMaxNumberOfEquipementsPerDay: requires a non-empty roster when something is to be scheduled, since the source then fails on the first technician's list.
- CapacityExtraction.ExtractScheduleMaxNumberOfEquipementsPerDay: requires a positive default cap when something is to be scheduled. With a default cap of zero or less the source loops for ever (CapacityTargets.CapAtMostZeroStalls), unless per-date caps happen to drain everything first; that case is excluded.
- CapacityExtraction.ExtractScheduleMaxNumberOfEquipementsPerDay: requires distinct LocationData objects in the list. A list holding one object twice is not modelled.
- Calendar.NextOpen, Calendar.BusinessDays: require the open days to contain a real weekday (1 to 7). Otherwise the source's calendar loops never end.
- Dates are day numbers. The time of day of `startDate` and the time-zone of `Calendar` are not modelled. Per-date caps are looked up by day number, while the source's map is keyed by `Date` to the millisecond.
- Live getters: `getOnSiteEquipments`, `getSublocationEquipments` and `getTechniciansLocationsMap` return the object's own collections, and the source edits them through those references. The model edits them through methods of the owning class, with the same effect.
- Null lists, maps and arrays given to the scheduler are not modelled, except the null open-days array and null per-date map, which the source replaces by defaults.
- The capacity loop appends each schedule to the result before filling it. The model appends it once filled. The list holds the same object either way.
- CapacityDraws.OnSiteForDayUnits: unit conservation is proved only for on-site lists without repeated names. `removeAll` (SchedulingHelper.java:303) removes every copy of a staged name (CapacityDraws.RepeatedUnitDropped).
- Integer overflow of the Java `int` counters and of `j * per` is not modelled (all integers are unbounded).
- `Logger`, `LocationsGenerator` and the test classes of `Scheduling/` are not part of this model.
- JavaStrings.EqualsIgnoreCase, FileTrees.SortEntries: case is folded for ASCII letters only. Java's `equalsIgnoreCase` and `compareToIgnoreCase` fold every Unicode letter.
- TemplateProducer.NameEnd: a name character is an ASCII letter, an ASCII digit or '_'. Java's `Character.isAlphabetic` and `isDigit` accept every Unicode letter and digit, so "$TAG_café" names "caf" here and "café" in Java.
- TemplateProducer.TemplateProducerBase.ProduceLine: takes a bound on nested-branch steps and answers Diverged once it is spent, because the source's nested branch (temp.java:208-210) can loop for ever (TemplateProducer.NestedUnknownDiverges). No corrected version is given: what the authors meant the nested branch to do after an unknown inner tag is not evident.
- The hooks of `TemplateProducerBase` (`onTag`, `beforeProduceLine`, `afterProduceLine`, `beforeProduce`, `afterProduce`) are pure functions and constant lists given at construction. Exceptions they may throw are not modelled. `MK`'s own `afterProduceLine` chain and include-file loading are not part of this model.
- The file-loading constructors and the `produce(String)` / `produce(InputStream)` overloads of `temp.java` read files and are left out.
- MarkdownParts: the regular-expression search and match are not modelled. The parts found and the named groups of each full match are inputs. `markdownToHTML` and `markdownToPlainText` are function parameters.
- MarkdownGroups.GetMarkerGroupClosed: a variant closing a mandatory marker group. Every caller in the source passes optional = true (MK.java:441-443, 466-468), so the unclosed parenthesis of a mandatory marker group cannot show up there. It is kept only to state MarkdownGroups.MarkerGroupBalance's counterpart.
- JavadocText.ProcessErroneousTree: the warning printed through `reporter.print` for an unknown code (ExtractClassesJavadocDoclet.java:422-424) is not modelled, only the empty string returned.
- JavadocText.JavadocTypesOf: a '>' before '<' makes `substring` throw. The model returns a failure whose message text (BadGenericBounds) is chosen here; Java's exact message is not modelled.
- The rest of `ExtractClassesJavadocDoclet` (the doclet traversal and the javadoc trees) is not part of this model.
- UnixPaths.ToUnixPath: `OutilsCommun.WINDOWS_FILE_SEPARATOR` is not defined in the files available; the model takes it to be the backslash.
- UnixPaths.GzipTargetName: the gzip extension constant is not defined in the files available, so it is a parameter. The decompression and file I/O of `ungzipFile` and `ungzipFileToObject` are left out.
- TreeContent and generateTree work on `java.io.File`. Here the file system is an `Entry` value: name, directory flag, children in listing order. A file always exists, and an entry is either a directory or a file.
- TreeContents.TreeContent.ExtractTreeContentOf: the OS checks (`isWindows`, `isLinux`) are inputs. The overloads with a filter, a depth or flags reduce to ExtractTreeContent with those values. The getters and setters of the drawing strings and counters are plain field accesses.
- GenerateTrees.GenerateTree: the overloads of generateTree taking a `String` path or no filter reduce to this one with those values (GenerateTreeOfPath for the two-argument string overload).

## Findings

| source | as written | input that shows it | evidently intended | confidence | as-written member | corrected member |
|---|---|---|---|---|---|---|
| Scheduling/SchedulingHelper.java:175-176 | the counters drop by the day's targets, but a location's on-site draw takes at most ceil(n / 2) units (line 291), so the loop can end with units never scheduled | one location with 4 on-site units, no sublocation, cap 10: one day is made with 2 units and the loop ends, leaving 2 units unscheduled | every unit is scheduled: the counters fall by what the passes drew | not executed | CapacityRuns.CountersLeaveUnits | CapacityRuns.CorrectedRunDrains |
| MK.java:752-828 | `if (matcher.matches())` has no else, so a part the search found but the full pattern rejects never gets `setOutput` (line 826) and keeps a null output, which getLine (line 945) appends as "null"; the Markdown extension producer has the same gap (lines 855-922), which ExtensionSpans models as a null output | a line that is one found figure part which does not fully match becomes "null" | an unmatched part keeps its own text, as the include producer does (lines 719-721) | not executed | MarkdownParts.UnmatchedFigureAsWritten | MarkdownParts.UnmatchedFigureCorrected |
| MK.java:189 | the "smallcaps" entry's value "$font-variant: small-caps" is used as an element name (lines 874-878) | the Markdown extension with tag "smallcaps" writes an element named "$font-variant: small-caps" | a span styled "font-variant: small-caps", as the entry's own comment says | not executed | MarkdownParts.SmallcapsTagAsWritten | MarkdownParts.SmallcapsTagCorrected |
| generateTree.java:95-97 | generateTree(String, boolean) calls generateTree(new File(baseDir)), dropping subdir | a directory "r" holding one empty subdirectory "d", subdir false: the tree still draws "d" | subdir passed on, as generateTree(File, boolean) does (lines 106-108) | not executed | GenerateTrees.SubdirIgnored | GenerateTrees.GenerateTreeOfPathCorrected |
