# The router, modelled and proved

A Dafny model of the outdoor router: the search under every route and what a trip makes of it, the
request/reply protocol between the instances of the service, the map-tile reader, the rate limiter, the
geocoder's index and the ring assembly of the map build. Every result is a statement over all inputs, all
runs or all reachable states.

Check it with `dafny verify dfyconfig.toml`.

## What is modelled

| file | part of the system |
|---|---|
| Roads, Figures | stretches, modes, weights, lift costs; what the tables come to |
| Moves, Journey | what a move may do, what it takes, what a penalty round charges; the same said of the map |
| Search, Answers | `searchSeg` (A* over junction and mode) and what its answers mean |
| Csr, Network | counting-sort adjacency; the graph of a region with its lift layer |
| Heuristic | the bound of the search, and why it is consistent |
| Components, Strong, Routable | union-find, the strongly connected hub, and why accepted junctions can be routed |
| Waypoints | from the points of a request to the plan of a trip: the stop that parks the car, the modes of every pair |
| Trip, Itinerary | a trip's pairs, legs and clock; what its answer is on the map and adds up to |
| Alternatives, Grades | penalty rounds: what each charges, what is offered; the grade a refusal offers |
| Silent | what a failed trip did not note does not matter |
| Undercut | when penalties can make an answer report a smaller clock than the first |
| Mountain, Detour | two maps on which later rounds report less, and a harder grade is slower or fails |
| Promises | what can be counted on before the call, and exactly when |
| Climb, Steps | dead-band climb; folding the directions |
| Grid | the two ring searches over a grid of cells |
| Queue, Serving, Waiters | submits, workers, leases, redelivery, replies and timeouts, in any interleaving; a run that answers, what a crash or a second push leaves; the waiting map |
| Hilbert, Directory | PMTiles numbering, directories (section 4 of the PMTiles version 3 specification) and lookup |
| Limiter | request windows and their sweep |
| Names, Geocoder | words and parts of names, the sorted token index, candidates |
| Chain | ways chained into rings and open chains |

## Assumptions

- Figures are exact reals: no float32 weights, no `1e-9` tolerances, no rounding of what is reported.
- `math.Hypot` is any function that is not negative and whose square is the sum of squares.
- A class of way is a constructor instead of the map's string; junction numbers are dense already.
- `container/heap` is a multiset of which a least item is taken; `sort.Slice` is an insertion that keeps
  the elements and puts them in order.
- A map is sane when no climb or descent is negative, no stretch is shorter than its chord, and a lift
  with a published duration satisfies duration + 300 s >= length / 10 m/s. `RideIsHonest` shows that the
  last condition is exactly what the lift bound needs.
- The lift layer is built whenever a search may use it. The plans of a trip hold distinct modes.
- Where a lift station joins the footpaths is a function of the station (`near`): what the snap answers for it.
- The ids of `newID` are unique and never guessed; every worker of a region holds the same map. The broker
  acknowledges and pushes in one transaction or not at all, refuses a transaction id that is in its dedup
  window, and refuses a lease that has expired.
- Requests reach the limiter with times that do not go back.
- Strings of the geocoder are folded before they come here, and are sequences of characters of one byte each.

## What the code turned out to do

- **A later alternative can report a smaller clock than the first, for two reasons.** Penalties never enter
  the travelling seconds. But the stop's two minutes of parking are charged only when the legs show a walk:
  a round that trades the walk for a lift ride drops them (`Mountain.LaterRoundCanReportLess`: 610 s after 720 s).
  And where a span ends decides which modes are left for the next pairs, unless the pairs were planned
  beforehand: a round driven off the fastest way to the first stop may keep the car for the rest
  (`Detour.LaterRoundCanBeFaster`: 720 s after 960 s, on the road as on the card, without parking stop or
  lift). Both inputs are rounds of Route, under the penalties their first answer leaves. In a region without
  motorway or trunk car edges these are all the reasons: `Promises.ClockIsSafeIff` says that the first card has
  the smallest clock on every map if and only if the plans of the trip are known in advance, and no stop
  parks it or nothing may be ridden; `Promises.TravelIsSafeIff`, that it travels for the fewest seconds if and
  only if they are known.
  For a planned trip on a given map, `Undercut.PenaltiesLowerTheClockIff` says when some valid penalties,
  though not necessarily those of its rounds, give an answer with a smaller clock: if and only if the
  first answer was charged for the stop, every walked pair can also be ridden from end to end, and riding
  them all costs less than the first answer and two minutes.
- **A harder grade can be slower, or fail where an easier one succeeds.** A path the harder grade opens may
  be the fastest way to the first stop and leave no car for the rest (`Detour.HarderGradeCanBeSlower`,
  `Detour.HarderGradeLosesTheTrip`). `Promises.HarderNeverFailsIff` and, without motorway or trunk car edges,
  `Promises.HarderIsNoSlowerIff`: neither happens on any map if and only if the plans of the trip are known in
  advance. What a failed trip did not refuse does not matter either way: without ferratas
  `Silent.SilentTripStaysFailed` holds for every trip.
- **A trip from stop to stop is planned in advance; one with a via in front need not be.**
  `Waypoints.TripOf` proves that the plans of every request that begins and ends at a stop are known
  (`PlansKnown`), and `Waypoints.ViaInFront` builds one whose plans are not, that of `Detour`: a via, then two
  stops.
- **A published lift duration can beat the bound of the search** (`RideIsHonest`, both directions).
- **The ramp is misjudged only where it must be.** The search charges the ramp of the best arrival;
  `RampsOfMixedJunctions` limits the damage to one ramp each time the better walk drives on from a junction
  where a motorway or trunk edge and another car edge both arrive.
- **The limiter's sixty a minute are 120 in the worst sixty seconds, its six hundred an hour 1200**
  (`TwiceTheBudgetAtMost`), as its comment admits.
- **A cyclist's cap of 40 km/h is never reached**: the fastest class at the steepest slope that counts makes
  16 x 1.9 km/h (`Figures.CyclingClock`).
- **mergeSteps never renames a step for being swallowed**: the crumb is never longer than the neighbour
  that takes it (`CrumbIsShorter`), so the branch that would take over its name does not run.
- **prefixRange's last guard never fires**: the end of the range is never before its start.
- **A closed way is walked on from** when another unused way touches the node where it closes: chain tests
  for a ring only after it has added a way (`Chain.ChainFrom`: a way stays alone only if none does). What
  `Chains` promises holds for such chains too: they come out as open chains or longer rings.

## Model

| member | source | states |
|---|---|---|
| Roads.BikeSpeed | internal/route/modes.go:152-243 | A bike's speed stays positive on any slope within the clamp, so a weight is always defined |
| Figures.WhoMayUseWhat | internal/route/modes.go:111-146 | Which stretches each mode may use, said of what it may not |
| Figures.WalkingClock | internal/route/modes.go:197-240 | Flat walking takes 0.81 s a metre marked, 1.35 on a main road, 1.08 else, ten metres for each climbed and five for each descended, the shorter of the two by half, and 1.6 or 2 times that at sac 5 or 6 |
| Figures.CyclingClock | internal/route/modes.go:160-196 | Flat cycling at the pace of its class, uphill twelve times the slope longer, downhill three times the slope faster, the slope cut at three tenths; the cap of 40 km/h is never reached |
| Figures.DrivingGoesAtTheLimit | internal/city/city.go:293-304 | Driving goes at the limit of its class |
| Figures.TurnedAround | internal/route/modes.go:152-156 | Turning around swaps climb and descent and nothing else |
| Moves.BoundFalls | internal/route/search.go:355-376 | A consistent bound falls along a legal walk by no more than the walk's penalised cost |
| Moves.Admissible | internal/route/search.go:355-376 | So it never exceeds the penalised cost of any legal walk to the destination |
| Moves.LegalStaysInside | internal/route/search.go:412-464 | A legal move ends on the map in a mode of the plan, and its weight is not negative |
| Moves.StepCostAtLeastBase | internal/route/search.go:343-353 | No penalty is a discount: base time <= clock <= cost for every legal move |
| Search.PopMin | internal/route/search.go:202-219 | A least entry of the heap is taken |
| Search.SettledIsFinal | internal/route/search.go:394-440 | Once settled, a label is never improved by a later move, and priorities never fall |
| Search.RelaxKeeps | internal/route/search.go:430-440 | One relaxation keeps the whole search invariant and relaxes its own move for good |
| Search.DropStale | internal/route/search.go:395-399 | Dropping a stale heap entry loses nothing |
| Search.SettleKeeps | internal/route/search.go:395-405 | A fresh least entry settles a state not settled before, and keeps the invariant |
| Search.RelaxWays | internal/route/search.go:412-440 | Every stretch that the avoid list, the ferrata rule and the grade let through is relaxed, no other; every refused grade is noted, the least one kept |
| Search.RelaxLifts | internal/route/search.go:441-456 | Every legal ride or link is relaxed, and only for a walk that asked for lifts |
| Search.RelaxPark | internal/route/search.go:457-464 | The one switch the plan allows is relaxed exactly at a trailhead |
| Search.Expand | internal/route/search.go:405-464 | After expanding a state all its moves are relaxed and the invariant holds again |
| Search.Explore | internal/route/search.go:386-468 | The loop ends; each state is settled at most once; the goal popped is the nearest, or everything reachable is settled |
| Search.RampGap | internal/route/search.go:406-433 | Where a walk pays less ramp than the search charged, the junction's arrivals disagree in class |
| Search.NoWalkGetsAhead | internal/route/search.go:394-468 | A legal walk from anywhere labelled stays among settled states, or its cost and what is left at its end come to no less than the goal's label, less one ramp per doubtful junction |
| Search.NoWalkBeatsTheGoal | internal/route/search.go:394-468 | No legal walk to the destination costs less than the goal's label, less one ramp per doubtful junction |
| Search.WalksStaySettled | internal/route/search.go:394-468 | When the heap runs empty, no legal walk reaches the destination |
| Search.Backtrace | internal/route/search.go:469-482 | The predecessors read back are a legal walk from the start whose costs add up to the goal's label |
| Search.SecondsAddUp | internal/route/search.go:429-433 | The seconds of any recorded walk are those of its stretches, two minutes for each parking, and twenty seconds for each time it joins or leaves the motorways and trunk roads |
| Search.CostAddsUp | internal/route/search.go:288-338 | Its cost is its seconds and the surcharges: an approach stretch at eight times, any other of the table at its factor, and the price of each parking within three kilometres of an old one |
| Search.SearchSeg | internal/route/search.go:354-483 | Found: a legal walk of least penalised cost up to the ramps in doubt, and every legal walk that has not fallen behind it has the grades and ferratas refused at its end noted; its seconds are those of its stretches, 120 for each parking and 20 for each two edges driven one after the other of which exactly one is a motorway or trunk road, and its cost is these and what the round charges. Not found: there is no legal walk, and every grade that kept a reachable walker off is noted |
| Answers.RampFreeIsOptimal | internal/route/search.go:354-483 | Without motorway or trunk car edges the walk found is a cheapest of all legal walks |
| Answers.RecordedIsClock | internal/route/search.go:343-350 | The recorded seconds add up to the unpenalised clock of the walk, whatever the round charges |
| Answers.LegalWhateverThePenalty | internal/route/search.go:411-464 | Which walks are legal does not depend on the penalties |
| Answers.NoRoundBeatsTheFirst | internal/route/search.go:343-353 | In a ramp-free graph no penalty round's answer to the same pair takes fewer seconds than the unpenalised answer |
| Answers.RampBound | internal/route/search.go:404-434 | An unpenalised answer exceeds the true path-dependent optimum by at most a ramp for each doubtful step of the optimal walk |
| Answers.DoubtsNeedMixedJunctions | internal/route/search.go:404-434 | A junction is doubtful only if a motorway or trunk edge and another car edge both arrive there |
| Answers.RampsOfMixedJunctions | internal/route/search.go:404-434 | So an unpenalised answer exceeds any legal walk by at most a ramp for each time that walk drives on from such a junction |
| Answers.HarderGradeIsNoDearer | internal/route/search.go:416-428 | Ramp-free, a harder grade never makes the optimum dearer |
| Answers.WhereTheGradeStops | internal/route/search.go:416-428 | A walk that only a harder grade allows meets, at a junction reached legally, an edge the grade or the ferrata rule refuses |
| Answers.FailureNotesTheGrade | internal/route/search.go:416-428 | Without ferrata stretches a failed search has noted a refused grade whenever a harder one would have found a way |
| Csr.AtHolds | internal/route/graph.go:243-285 | A value is found under a key exactly if it was filed there |
| Csr.Fill | internal/route/graph.go:243-285 | The two counting passes leave under every key exactly its values in their order |
| Csr.Layers | internal/route/graph.go:36-38 | Reading the packed form back gives each key its values |
| Network.BuildLifts | internal/route/graph.go:335-442 | The arcs are exactly the rides of every lift in its allowed directions, and both ways over each appended stretch; appended are exactly the links of the lifts' ends, in order |
| Network.LinksAreLinks | internal/route/graph.go:404-421 | A stretch is appended if and only if it is the link of an end of some lift: to the junction the snap found within 100 m, and never the station itself |
| Network.Build | internal/route/graph.go:209-318 | A mode may leave a junction on an edge if and only if it runs along a declared stretch that has a length and that the mode may use, at its weight, and one-ways against their direction on foot only; the lift layer is the rides, uphill only where they run uphill only, and the walks over the links; a stretch is added exactly for a lift's end that has a landing; the map's own stretches stay as they are |
| Network.BuiltIsWired | internal/route/graph.go:243-335 | The same of any graph whose layers hold the arcs of its stretches |
| Journey.LegalIsWhatTheMapAllows | internal/route/search.go:404-464 | The search lets a traveller do exactly what the map, the plan and the request allow: ways of the mode and on foot of the grade, rides and links for a walker who asked for lifts, nothing avoided, and the next mode of the plan where a stretch leads on that the old one may not use |
| Journey.OneWaysAreObeyed | internal/route/graph.go:276-294 | No legal walk drives or cycles against a one-way: wherever it takes one it goes from a to b |
| Heuristic.Triangle | internal/route/search.go:364-376 | Straight-line distances obey the triangle inequality, from the defining property of the hypotenuse alone |
| Heuristic.LengthAtLeastChord | internal/route/load.go:213-221 | A polyline is at least as long as the line between its ends |
| Heuristic.WeightIsHonest | internal/route/modes.go:152-243 | For every mode, class, slope, direction and marking, the seconds are at least length / top speed, given that climb and descent are not negative |
| Heuristic.RideIsHonest | internal/route/graph.go:451-458 | A ride respects the lift bound if and only if its published duration, when it has one, is at least length / 10 less 300 s |
| Heuristic.VrestCovers | internal/route/search.go:361-367 | The speed assumed in a mode covers that mode and every mode still to come |
| Heuristic.SpeedIsTheFastestLeft | internal/route/search.go:355-376 | And no more: it is that of the fastest mode from it on, or the lift's ten metres a second |
| Heuristic.BoundIsTheLineAtFullSpeed | internal/route/search.go:364-376 | The bound is the straight line to the destination at that speed |
| Heuristic.BoundIsConsistent | internal/route/search.go:364-376 | h(a) <= cost(a to b) + h(b) for road edges, rides, links and mode switches, and h is zero at the destination |
| Heuristic.BuiltIsValid | internal/route/graph.go:209-318 | A graph built of a sane map meets what the search requires |
| Heuristic.LinksAreSane | internal/route/graph.go:404-421 | The links the lifts add leave the map sane |
| Components.HalvingKeepsForest | internal/route/graph.go:656-676 | A step of path halving keeps the forest and every representative, and climbs |
| Components.Find | internal/route/graph.go:656-676 | find ends on every reachable parent array, answers the representative and changes nobody's |
| Components.LabelsDecide | internal/route/graph.go:656-696 | Two junctions carry one label if and only if links in either direction tie them together |
| Components.Components | internal/route/graph.go:656-696 | comp[a] = comp[b] exactly when a path of edges taken in either direction joins them; main is a label that most junctions with a way out carry |
| Strong.Reach | internal/route/graph.go:771-786 | reach marks exactly the junctions a walk gets to |
| Strong.Reverse | internal/route/graph.go:746-767 | Every edge turned around, none lost or added |
| Strong.Strong | internal/route/graph.go:710-743 | The flags mark exactly what is mutually reachable with a busiest junction of the main component; kept only if a quarter of the component or more |
| Strong.WhoIsConnected | internal/route/graph.go:788-796 | Accepted are, with a strong component, exactly the junctions its hub reaches and that reach it; without one, those with a way out that are tied to the main component |
| Routable.HikingIsSymmetric | internal/route/graph.go:287-297 | Every walking edge has its way back |
| Routable.TiedOnFootReaches | internal/route/graph.go:788-796 | On foot weakly connected junctions reach each other |
| Routable.WheelsAreNeverRefused | internal/route/search.go:411-428 | On wheels with nothing avoided every edge is legal |
| Routable.GradeAIsNeverRefused | internal/route/search.go:1102-1107 | At grade A with nothing avoided every walking edge is legal |
| Routable.RouteOnWheels | internal/route/graph.go:698-796 | Two junctions of the strong component are always routed by car or bike |
| Routable.RouteOnFoot | internal/route/graph.go:788-796 | Two accepted junctions are always routed on foot at grade A |
| Routable.RouteAccepted | internal/route/graph.go:651-796 | From adjacency to route: what passes the connected test is routed, given a strong component or a walk |
| Waypoints.ParkPoint | internal/route/search.go:610-628 | The stop that parks the car: the last one wheels reach before the first point they do not; if they reach all and there are three stops, the first |
| Waypoints.TripOf | internal/route/search.go:578-766 | Every point gives its waypoints in order; pairs are driven up to the parking and walked after it, or the pair before the first walk-only point looks for a trailhead; a trip from stop to stop has its plans known |
| Waypoints.ViaInFront | internal/route/search.go:710-761 | A request whose plans are not known in advance, and the trip it becomes |
| Trip.SwitchesFollowThePlan | internal/route/search.go:355-358 | A legal walk goes through its plan's modes in order, one parking each, and never back |
| Trip.SecondsSplit | internal/route/search.go:1230-1263 | Parking and travelling seconds are all there is |
| Trip.Legs | internal/route/search.go:1387-1430 | Cutting a span into legs loses no edge, keeps their order, and each leg is one mode |
| Trip.CloseSpan | internal/route/search.go:1172-1201 | A stop turns the span into legs and loses nothing of it; the next pair may start with the modes from the span's last one on, unless the trip was planned or it ended in a ride |
| Trip.OnePair | internal/route/search.go:1211-1229 | A pair is answered by a best walk under its own plan, or there is no legal walk for it |
| Trip.Finish | internal/route/search.go:1257-1358 | The answer's seconds are the sum of its recorded moves plus the stop's parking; none when nothing is travelled |
| Trip.Plan | internal/route/search.go:1162-1358 | A trip succeeds with every pair answered best, under the plan carried to it, and the clock added up; or some pair, after answered ones, has no legal walk under the plan it is due |
| Trip.DropToIs | internal/route/search.go:1190-1201 | The modes left after arriving in one are those from it on |
| Itinerary.AnswerGoes | internal/route/search.go:1202-1260 | Every pair of an answer leads from its one end to its other, move by move as the map and the request allow, or is the ride that was forced |
| Itinerary.AnswerAddsUp | internal/route/search.go:1257-1358 | The answer's seconds are those of its stretches and rides, 120 for each parking on the way and once more where it parks at its stop, and 20 for each time a pair joins or leaves the motorways |
| Itinerary.LegsRead | internal/route/search.go:1387-1430 | A leg is ridden on one lift under its name or travelled in one mode off the lifts, and holds the seconds and metres of its moves |
| Alternatives.NoLaterRoundMovesFaster | internal/route/search.go:786-849 | Ramp-free with plans known in advance, no penalty round travels for fewer seconds than the unpenalised one |
| Alternatives.ModesAreFixed | internal/route/search.go:1387-1430 | Which modes the legs show is fixed by the plan when every pair has one mode; a walk may be missing only where lifts may be ridden |
| Alternatives.NoLaterRoundIsShorter | internal/route/search.go:786-849 | Under the same conditions, when no stop parks or no lift may be ridden, the whole clock of a later round is not smaller either |
| Undercut.CheapestOnFoot | internal/route/search.go:343-353 | Among the legal walks on foot, rides included, there is always a cheapest one, whatever the penalties |
| Undercut.BestOnFoot | internal/route/search.go:354-483 | So a pair that can be walked has a best answer in every round |
| Undercut.RidingIsNeeded | internal/route/search.go:1335-1358 | If any penalties make an answer of a planned trip report less than the first, the first was charged for the stop and riding instead would have cost less than the two minutes more |
| Undercut.RidingIsEnough | internal/route/search.go:343-353 | And where riding instead pays, some valid penalties, which need not be those of any round, give an answer that reports less: those that make all but the rides dear |
| Undercut.PenaltiesLowerTheClockIff | internal/route/search.go:1335-1358 | So on a given map some valid penalties make a planned trip's clock fall exactly when the stop was charged and every walked pair has a ride-only walk, together cheaper by the stop's charge; which penalties its rounds reach is not said |
| Mountain.WorldIsValid | internal/route/graph.go:209-318 | The example map is what Build makes of a road, a path and a lift, and it is sane |
| Mountain.LaterRoundCanReportLess | internal/route/search.go:786-849 | On it, two rounds of one trip, the second under the penalties derived from the first answer: both are kept, and the second reports less |
| Detour.WorldIsValid | internal/route/graph.go:209-318 | The second example map is what Build makes of two roads and a path, and it is sane |
| Detour.LaterRoundCanBeFaster | internal/route/search.go:786-849 | Two rounds of a trip whose plans are not known in advance, the second under the penalties derived from the first answer: both are kept, and the second is faster on the road and on the card |
| Detour.HarderGradeCanBeSlower | internal/route/search.go:416-428 | A trip that takes longer at grade 3 than at grade 2 |
| Detour.HarderGradeLosesTheTrip | internal/route/search.go:870-917 | A trip answered at grade 2 that has no answer at grade 3 at all |
| Promises.ClockIsSafeIff | internal/route/search.go:786-849 | Over the rounds of Route on all ramp-free maps the first card has the smallest clock if and only if the plans are known in advance, and no stop parks the trip or it may not ride |
| Promises.TravelIsSafeIff | internal/route/search.go:786-849 | And travels for the fewest seconds if and only if the plans are known in advance |
| Promises.HarderNeverFailsIff | internal/route/search.go:870-917 | What is answered at a grade does not fail at a harder one, on all maps, if and only if the plans are known in advance |
| Promises.HarderIsNoSlowerIff | internal/route/search.go:416-428 | Nor, ramp-free, travel for more seconds: again if and only if they are |
| Grades.Rounds | internal/route/search.go:786-849 | Offered are, in their order, the first answer and exactly those that bring a fifth of their own metres against each offered before, so every one goes somewhere the earlier ones never do; each round is answered under the penalties its predecessors add up to; at most the answers wanted, and under the conditions above none faster than the first |
| Grades.SameLineBringsLittle | internal/route/search.go:990-1003 | What is dropped as the same line is exactly what has less than a fifth of its metres on stretches the other never travels |
| Grades.KeptAreOffered | internal/route/search.go:791-808 | Which answers of the rounds are offered: the first, and exactly those that bring a fifth against each offered before |
| Grades.PenaltiesOfARound | internal/route/search.go:812-849 | From the answers before it: a stretch is charged half as much again for each of them that travels it; the second round alone, when the engine chose the parking of a plan that switches, charges the last three kilometres the first answer walks and its whole clock for parking near where it parked |
| Grades.AnsweredIsAnswerable | internal/route/search.go:1202-1260 | A planned trip that was answered has a legal walk for each pair |
| Grades.UnansweredIsNotAnswerable | internal/route/search.go:1202-1260 | And one that was not has none for some pair |
| Grades.HarderIsAnswerable | internal/route/search.go:416-428 | A planned trip that succeeds at a grade succeeds at every harder one |
| Grades.HarderMovesNoSlower | internal/route/search.go:416-428 | Ramp-free, its travelling seconds do not grow with the grade |
| Grades.FailedTripNotesTheGrade | internal/route/search.go:896-902 | Without ferratas a failed planned trip has noted a refused grade if a harder grade would do |
| Silent.SilentAnswerStays | internal/route/search.go:394-468 | An answer whose search refused no grade to anybody is still a best answer at every harder grade |
| Silent.SilentTripStaysFailed | internal/route/search.go:896-902 | Without ferratas any trip, planned or not, that failed and noted no refused grade fails in the same way at every harder grade |
| Grades.NeededGrade | internal/route/search.go:870-917 | What is offered is a harder grade at which the trip is answered, and every grade passed over fails; without ferratas and avoids, when nothing is offered the trip fails at every harder grade. Of a planned trip failing means that it cannot be answered |
| Climb.DeadBand | internal/route/load.go:241-256 | Up and down are what the line rises and falls from each point to the next that is the first more than the band away from it, and from the last of these to its end; so they differ by the net rise, never exceed the line's variation, and miss no rise or fall by more than twice the band |
| Climb.ClimbOf | internal/route/search.go:1497-1520 | The same for a whole leg; a point without elevation spoils it |
| Climb.ReverseSwaps | internal/route/search.go:1497-1520 | Travelled backwards a line swaps what bounds its up and its down |
| Steps.FoldedConserves | internal/route/search.go:1569-1611 | Folding keeps metres and seconds of every maximal run, the order of modes, and every ride as it was |
| Steps.Worst | internal/route/search.go:1578-1589 | The first shortest crumb, or there is none |
| Steps.CrumbIsShorter | internal/route/search.go:1593-1604 | The crumb is never longer than the neighbour that takes it |
| Steps.MergeSteps | internal/route/search.go:1569-1611 | The output is the input's consecutive same-mode blocks, each summed and named by one of its own; at the end no step but a ride with a same-mode neighbour is short or one too many, and an input of which that is true comes out as it is |
| Grid.FileAll | internal/route/graph.go:854-872 | Every cell lists exactly the points that fall into it |
| Grid.BuildGrid | internal/route/graph.go:812-873 | And every junction lies in its own cell unclamped when the extent holds it, or when there is none; a map with neither has one empty cell |
| Grid.FarOnAxis | internal/route/graph.go:929-936 | Cells k apart hold points at least k - 1 cells apart, for a query on either side of the grid's edge |
| Grid.RingMembers | internal/route/graph.go:937-950 | The loops over one ring meet exactly the points filed in it |
| Grid.StopsWithTheNearest | internal/route/graph.go:931-936 | Neither the early break nor the last ring loses a nearer point within the limit |
| Grid.NearestD | internal/route/graph.go:888-977 | Nothing if and only if no fitting junction lies within maxM; else the nearest fitting one on a street if one is under 150 m, else the nearest fitting one; with its distance |
| Grid.PlaceGrid | internal/route/geocode.go:857-881 | Every place lies in its own cell, without clamping |
| Grid.NearestXY | internal/route/geocode.go:915-952 | The name of a nearest place of the rank when one lies strictly within maxM, else nothing, for any query point |
| Queue.RunsAreSafe | cmd/router/queue.go:346-659 | Every state of every run meets the invariant: routes, claims, posts, channels, submits, registry and counts |
| Queue.StepKeeps | cmd/router/queue.go:346-659 | Every step of submits, workers, broker, reader and timeouts keeps the protocol's invariant |
| Queue.CommitIsAtomic | cmd/router/queue.go:636-657 | In any step a request becomes acknowledged exactly when its reply is posted and counted: only a commit does either, it does all or nothing, and nothing posted or acknowledged is ever taken back |
| Queue.CommitKeeps | cmd/router/queue.go:636-657 | A commit keeps the protocol's invariant, stale and duplicate ones too |
| Queue.CommitIsHonest | cmd/router/queue.go:582-657 | What a commit posts under one of our ids was computed from that id's own request, at its own address |
| Queue.AnswersAreNotCrossed | cmd/router/queue.go:350-388 | In every run, what a submit returns was computed from its own request, and its channel only ever holds, under its own id, its own answer when that is valid and fits, word that it does not fit or is not valid when that is so, or a failure |
| Queue.SubmitReturnsItsAnswer | cmd/router/queue.go:346-401 | In every run a submit returns an error if and only if its client left or it received a refusal or a failure; otherwise it returns what the engine computes for the request it was begun with: with the broker known to be down, after a failed push, a timeout or an answer too large as well as after an answer |
| Queue.RepliesCommitOnce | cmd/router/queue.go:636-657 | In every run a reply commits at most once per life of its dedup entry, and as often as its request is acknowledged |
| Queue.RepliesFindTheirWaiter | cmd/router/queue.go:447-460 | In every run a reply read while its submit has not returned finds it registered and leaves its channel full |
| Queue.RegistryIsExact | cmd/router/queue.go:425-442 | In every run exactly the submits that have not returned are registered: nothing is left behind after a return |
| Serving.ItCanAnswer | cmd/router/queue.go:350-388 | For every request the engine answers there is a run over the broker that ends with that answer returned and nobody registered |
| Serving.CrashLosesNothing | cmd/router/queue.go:563-657 | Once the lease of a message a crashed worker held has expired, any free worker may claim it, and its reply is posted and the message acknowledged |
| Serving.EverySubmitCanReturn | cmd/router/queue.go:350-388 | In whatever state a submit has not returned, it can within two steps of its own |
| Serving.PushedAgain | internal/queenx/queenx.go:270-289 | A push made twice adds nothing while the broker remembers its id, and one more message when it has forgotten it |
| Serving.BatchReadAgain | cmd/router/queue.go:478-514 | A batch of replies whose acknowledgement failed may be read again, one that was acknowledged may not |
| Waiters.Waiters.Expect | cmd/router/queue.go:425-434 | The id gets a fresh empty channel; all others keep theirs; on every protocol state it mirrors it is the registration |
| Waiters.Waiters.Forget | cmd/router/queue.go:438-442 | The id goes, and nothing else; on every protocol state it mirrors it is the return |
| Waiters.Waiters.Deliver | cmd/router/queue.go:447-460 | True exactly if somebody waits with an empty channel, which then holds the reply; on every protocol state it mirrors it is the delivery step |
| Hilbert.TileAtIndex | cmd/router/tiles.go:249-277 | The curve gives every tile of its square one place, and the place leads back |
| Hilbert.IndexOfTileAt | cmd/router/tiles.go:249-277 | And every place is some tile's |
| Hilbert.StepsAreAdjacent | cmd/router/tiles.go:249-277 | Consecutive places are tiles that share an edge |
| Hilbert.Ends | cmd/router/tiles.go:249-277 | The curve begins at the upper left tile and ends at the upper right |
| Hilbert.BlocksAreFilled | cmd/router/tiles.go:249-260 | Each zoom has the block from (4^z - 1)/3 to (4^(z+1) - 1)/3, and no number is given twice across zooms |
| Hilbert.EveryIdIsATile | cmd/router/tiles.go:249-277 | Every number of a block is a tile of that zoom, and the next one is beside it |
| Hilbert.OneLevel | cmd/router/tiles.go:261-275 | One turn of the loop on negative, unmasked coordinates counts the right quadrant and leaves the right remainder |
| Hilbert.ZxyToTileID | cmd/router/tiles.go:249-277 | The loop computes the curve's number |
| Hilbert.NoWrap | cmd/router/tiles.go:249-277 | Up to zoom 22 the number, and the loop's unmasked coordinates at every turn, stay far inside 64 bits |
| Directory.Decode | cmd/router/tiles.go:138-190 | The four passes read the entries column by column; too many entries, too few varints are errors |
| Directory.DecodeInvertsEncode | cmd/router/tiles.go:138-190 | What a writer of the format encodes is read back entry for entry |
| Directory.Find | cmd/router/tiles.go:194-211 | The last entry at or before the number, or none |
| Directory.CoveredOnce | cmd/router/tiles.go:214-246 | On a well-formed archive no number is covered by two flattened entries |
| Directory.WrittenIsReadBack | cmd/router/tiles.go:214-246 | A round trip: whatever pieces a writer lays out, leaf directories from their offset on and tile data from its own, an answer for a number is exactly the bytes written for it, and nothing for a number not written |
| Directory.Lookup | cmd/router/tiles.go:214-246 | The descent answers like a scan of the flattened archive: the covering entry's bytes counted from where the tile data begins, an error where there are none, nothing where no entry covers the number; and of an archive that was written, what was written for the number |
| Directory.Tile | cmd/router/tiles.go:214-246 | So does a tile request by the tile's number, and outside the zooms there is nothing |
| Limiter.Limiter.Sweep | cmd/router/limits.go:114-122 | Exactly the buckets not seen for an hour go |
| Limiter.Limiter.Allow | cmd/router/limits.go:108-144 | The verdict and the whole new table are those of the value-level limiter with the sweep |
| Limiter.OthersAreKept | cmd/router/limits.go:114-122 | A request leaves every other key alone while the limiter is small; above twenty thousand keys it drops exactly those unseen for more than an hour |
| Limiter.SweepIsUnobservable | cmd/router/limits.go:114-122 | Over any run in order the verdicts are those of a limiter that never forgets |
| Limiter.TwiceTheBudgetAtMost | cmd/router/limits.go:95-97 | Any 60 s admit at most 120 requests of a key, any 3600 s at most 1200 |
| Limiter.WithinTheBudgetIsAdmitted | cmd/router/limits.go:108-144 | Nobody within the budget is refused: with fewer than 60 admitted in the last 60 s and fewer than 600 in the last 3600 s a request is admitted, sweep and other keys included |
| Limiter.WaitingHelps | cmd/router/limits.go:134-139 | Waiting the seconds named opens the window: after an hour refusal the next request is admitted, after a minute refusal exactly if the hour allows; not a moment before the window opens |
| Limiter.RetryIsAdmitted | cmd/router/limits.go:108-144 | In the limiter with its sweep, and other keys busy, the retry is admitted |
| Names.TokensAreWords | internal/route/geocode.go:791-802 | The tokens are exactly the maximal runs of letters and digits |
| Names.TrimIsExact | internal/route/geocode.go:542-543 | Trimming takes all the white space at either end, and nothing else |
| Names.PrefixWords | internal/route/geocode.go:726-735 | Each word of a prefix starts a word of the whole |
| Names.HalvesAreParts | internal/route/geocode.go:705-720 | The halves of a bilingual name are cut out between words, trimmed |
| Names.PartWords | internal/route/geocode.go:705-720 | So their words are words of the whole name |
| Names.JoinedIsTakenApart | internal/route/geocode.go:705-720 | Names written side by side with a separator are taken apart again, each by itself |
| Geocoder.Build | internal/route/geocode.go:498-533 | The index is sorted and holds exactly the words of every entry |
| Geocoder.LessIsLexicographic | internal/route/geocode.go:527-532 | The order of the index: a word is before another if it is a proper part of its front, or smaller where they first differ |
| Geocoder.RanksMean | internal/route/geocode.go:726-764 | Rank 4: the query is one of the names or halves and no proper prefix of the first; 3 and more: it starts one; 2 and more: or each of its words starts a word of the entry or of its kind; 1 and more: or it stands in the name |
| Geocoder.PrefixesStandTogether | internal/route/geocode.go:667-676 | In order, words with a prefix stand together |
| Geocoder.PrefixRange | internal/route/geocode.go:667-676 | The range is exactly the positions whose word starts with the prefix |
| Geocoder.RankedIsFiled | internal/route/geocode.go:726-764 | An entry of rank 2, 3 or 4 is filed under a word that starts with each word of the query, through its name, a half, another name or the word for its kind |
| Geocoder.RangeHoldsTheRanked | internal/route/geocode.go:554-565 | So it stands in the range of any one word of the query |
| Geocoder.Candidates | internal/route/geocode.go:554-575 | The range of the word with the fewest entries alone gives every entry of rank 2, 3 or 4, and only entries that match, each once |
| Geocoder.LastPass | internal/route/geocode.go:589-626 | When nothing matches: all entries that hold the rarest of the query's words of three letters or more that any entry holds, the longer and then the earlier of equals; nothing if none does |
| Geocoder.Search | internal/route/geocode.go:542-626 | Something is found whenever any entry matches: the candidates of the rarest word, with every entry of rank 2, 3 or 4, and nothing else when they are as many as asked for; when they are fewer, every entry that matches at all; and when none does, what the last pass offers |
| Chain.NewEndsAreNew | tools/region-boundary.py:133-153 | A chain's ends are ends of ways unused when it began, so no later chain ends where an open one did |
| Chain.Grow | tools/region-boundary.py:140-151 | From one end on until no unused way is left there or the ring closes; the chain stays a walk over the ways used |
| Chain.SegmentIsItsEnds | tools/region-boundary.py:133-153 | What is conserved of a segment is its two ends, in either order |
| Chain.ChainFrom | tools/region-boundary.py:133-153 | A chain has no unused way at either end, or is a ring; a way stays alone only if no unused way touches its last node, ring or not |
| Chain.Chains | tools/region-boundary.py:118-154 | Every way is in one output, once; outputs are walks joined only at shared nodes, ways forwards or reversed; the segments are conserved; closed rings have equal ends and four points or more; no two open chains with distinct ends share an end |

## Left out

- HTTP handlers, configuration, metrics, logging and static files: plumbing without deep properties.
- Gzip, base64 and JSON, the varint byte layer and the Hypot, sort and heap libraries: taken by their contracts.
- The broker's internals, an instance that restarts (its waiting map dies with it), and the degraded flag's
  own timing: the protocol lets a submit be answered locally at any time.
- Queue.RepliesFindTheirWaiter: says that a reply finds its channel, not that the submit reads it before its deadline.
- Snapping roles: which junctions fit as start, stop, destination or car park is a parameter of NearestD.
- parkLowest, the choice of the car park at the bottom of a lift chain, and the labels of parking places.
- Names of steps and junctions, warnings and the wording of refusals.
- The refusal cache: its key omits the names of the points, which its wording shows.
- Geocoder.Search: stops before the ranking of the candidates, by fields the index does not need, and the cut to the limit.
- Names.TokensAreWords: folding of accents and case happens before.
- Directory.WrittenIsReadBack: the writer nests its leaf directories one level deep, as the usual writers do; archives nested deeper are covered by Lookup alone.
- Grid.NearestD: distances by squares; junctions outside the declared extent, which are clamped into border cells, are not covered.
- Heuristic.BoundIsConsistent: needs plans of distinct modes, as every mode string the API accepts has (internal/route/modes.go:76-82); parsing it is left out.
- Undercut.PenaltiesLowerTheClockIff: supposes that no link of a station takes zero seconds, as one to a junction on the same spot would; RidingIsNeeded does without. It speaks of all valid penalties, not of those a trip's rounds derive, which may stop before the ride shows.
- Undercut.RidingIsEnough: the penalties it finds charge all but the rides, as no round does.
- Promises.ClockIsSafeIff: supposes a region without motorway or trunk car edges, as TravelIsSafeIff and HarderIsNoSlowerIff do; with them a first answer itself may be off by its doubtful ramps.
- Waypoints.TripOf: which junction a point snaps to, which end of a lift is boarded first, and whether wheels reach a point come as its input; a point that snaps to nothing ends the request before.
- Grades.NeededGrade: whether the avoid list names a reason comes as a flag, since names are left out.
- The crossing-number test, ring simplification and the other steps of the boundary tool: numpy and I/O.
- Share links: they do not survive names with separators, so there is no round trip to prove.
- The city simulation's Dijkstra: the router does not call it.
