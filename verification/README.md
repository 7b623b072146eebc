# Benny512 in Dafny

Benny512 (Go) patches lighting fixtures, runs them over Art-Net and RDM, and keeps the show. This
project models its stateful cores and proves what they are for. Each module follows one source file
or one part of it; loops over fields are methods proved against a function of the old state, and the
laws are lemmas about that function and invariants over whole runs.

**Intensity** (`ChannelMap`, `ParameterModel`, `PartNames`, `FixtureModels`, `GeometryTree`, `Dimming`,
`VirtualDimmers`, `SoftwareMaster`, `Faders`, `FaderChannels`, `SyntheticOffsets`, `PartLevels`, `MasterLevels`,
`WireFrames`, `Collisions`, `FadersOnWire`; the fixtures on which a promise fails in `OneByteFixtures`, `NestedCells`,
`DoubleDimming`, `ManyCells`). A patch entry's channel map is shared out into parameters, byte by byte;
cells, virtual dimmers, parts, inner dimmers and the software master are derived from it; group faders
claim dimmers, the one moved last wins, and what they show goes out on the wire and reads back from it
(`FadersReadBack`). "Master times part, without double dimming" is a statement about products of levels
along the paths of the geometry tree, proved from the code's climbs (`DimmedOnce`, `MasterDimsOnce`,
`MasterDimsColour`), and carried from the faders to the light (`PartShowsItsLevel`, `PartUnderMaster`,
`CellUnderMaster`).

**Pattern fades** (`PatternSlots`, `PatternFrames`, `PatternFade`, `PatternFader`, `VirtualFades`). The
tick that carries units from composition to composition over unordered maps is given as a relation; its
invariant (no two units share a slot) makes the outcome unique, and the laws of a whole fade are about
runs of ticks.

**Probe gate** (`ProbeGate`, `CoreIdentity`). Callers of one device's cache are interleaved step by step:
single flight, the silence budget, and what lets a speculative GET through.

**Identity reader** (`AutoRead`). A ledger, a queue and one worker, with Note, Forget, ForgetPort and Reset
landing while a pass is on the wire.

**Programmer** (`ProgrammerModel`, `ChannelValues`, `Staging`, `ProgrammerSteps`, `ProgrammerRuns`,
`Programmer`, `FanShapes`; what the calls amount to, told by names and fields alone, in `ValueLaws`,
`ModeMasters`, `CallLaws`, `ProgrammerReach`, `ProgrammerLaws`). Selection, staging with mode masters, raw values, clearing,
stepping, locate, recall, sync and optimistic revisions; fan arithmetic over reals.

**Library** (`LibraryModes`, `LibraryMerge`, `LibraryRecords`, `LibraryStore`, `LibraryLaws`). The merge of records and
modes, and the store around it.

**Show file and disk** (`ShowFile`, `DurableSave`). A content-keyed profile table, and saving as a run of
file-system steps each of which may be the last.

**Capture ring and codec** (`CaptureRing`, `ByteFields`, `ArtNetCodec`, `ArtNetLayout`). A ring refined to "the last n of
everything added" with its subscribers over interleaved runs, and the thirteen Art-Net packet kinds.

## What the proofs turned up

Where a promise does not hold, the code is modelled as it is; a lemma gives an input, and another says
when the promise is kept.

- A cell with no dimmer channel, inside another such cell of its part, is not dimmed by the part's fader:
  its virtual dimmer counts as inner and is held at full, and nothing above it reaches its colours. In a
  fixture of several parts without a master channel the software master leaves it out as well, so it
  stays lit at any level of either. `PartLevels.VirtualCellDimmed` and `MasterLevels.MasterDimsColour` are
  the exact conditions, `NestedCells.NestedCellEscapes` the fixture.
- A part's light passes the fixture's master more than once when master channels lie under one another
  (`DoubleDimming.NestedDimsTwice`) or the part is only partly under them
  (`DoubleDimming.PartlyDimsTwice`). It passes once exactly when it meets one master channel, in a governed
  part, or none, in another: `MasterLevels.MasterDimsOnce`; and so always in a part wholly under master
  channels that are not nested, or wholly outside: `MasterLevels.WholePartsMeet`.
- The virtual dimmers' offsets are 16 bits: the 256th cell's is 0, the 257th's is 1, a channel's.
  `SyntheticOffsets.BuiltOffsets` is exactly when all offsets differ, `SyntheticOffsets.InOneUniverse` the
  same for a fixture that fits a universe, `ManyCells.CrowdCollides` a fixture of 262 channels.
- A speculative GET can pass the gate although the list is known and does not name the parameter, when the
  list came in after the caller's own resolution had ended: `ProbeGate.PassAgainstList`, `ProbeGate.LateList`.
- A mode observed over RDM keeps the channel map it meets and takes its wheels: `LibraryModes.WheelsKept`
  (exactly when they stay), `LibraryModes.WheelsLost`.
- Importing a file again right after it was added reports an update unless its modes were in the order of
  their names: `LibraryStore.AddThenRepeat`, `LibraryStore.RepeatUpdates`.
- A geometry tree known to be empty comes back from the show file unknown, and an entry without a profile
  loses its short name and its tree: `ShowFile.NothingLost`, `ShowFile.EmptyTreeLost`.
- A subscriber never gets what left the ring before a publish or found its channel full:
  `CaptureRing.FlushMisses` is exactly which entries a publish makes it miss, `CaptureRing.MissedForGood`
  that no later step makes up for them, `CaptureRing.NinthMissed` nine publishes nobody receives.
- An ArtPollReply cut inside an optional field is not zero-filled, since a smaller field behind takes what
  is left: two bytes of the bind IP become the bind index and the second status
  (`ArtNetCodec.BindIpTaken`). It is zero-filled whatever it says exactly at a field's start or inside the
  last field (`ArtNetCodec.ReplyCut`), an ArtPoll always (`ArtNetCodec.PollCut`).
- Exchanging the ends of a fan and reversing it differs by a step exactly at halves: `FanShapes.SwappedEnds`,
  `FanShapes.SwappedEndsDiffer`.

Comments the code does not keep, where the code is followed: a dropped capture batch is said to be part of
the next one (internal/capture/capture.go:750-752); the overlaps a patch check finds are said to come in
patch order (internal/patch/collision.go:92-96), but the universes are gone through in the order of a map.

## Model

| member | source | states |
|---|---|---|
| ChannelMap.NearestByte | internal/patch/programmer_model.go:388-403 | of the offsets that could be byte k, the nearest to the coarse one, the lower of two equally near, or that there is none |
| ChannelMap.CollectBytes | internal/patch/programmer_model.go:386-413 | a channel's bytes are distinct, unclaimed, coarse first and each the nearest there is; an incomplete one gives back every byte it took |
| ChannelMap.ClaimFullChannels | internal/patch/programmer_model.go:378-416 | every full channel built is complete and shares no byte; they come in the order of their coarse bytes, each with the nearest bytes left; one left out lacks a byte no other channel spares |
| ChannelMap.GatherFallbacks | internal/patch/programmer_model.go:418-435 | the offsets that need the fallback, each in the one group that agrees with it, ascending |
| ChannelMap.ClaimFallbacks | internal/patch/programmer_model.go:418-454 | the fallback channels take the offsets left over, each a run of those that agree with it and as wide as the first of them states where that divides them, and share no byte with any other |
| ChannelMap.SortKeeps | internal/patch/programmer_model.go:455-455 | sorting loses no channel, keeps which bytes are taken, and puts distinct coarse offsets in ascending order |
| ChannelMap.RawOffsets | internal/patch/programmer_model.go:457-461 | the raw offsets are exactly the footprint's offsets nobody claimed, ascending, although the loop counts in 16 bits |
| ChannelMap.ShareOut | internal/patch/programmer_model.go:373-461 | the whole footprint shared out: no byte twice, none lost, every channel complete with its coarse byte first, none missing that could be made; a channel with full detail has the nearest bytes those before it left, any other a run of the offsets that agree with it, as wide as the first of them says |
| ChannelMap.EveryOffsetOnce | internal/patch/programmer_model.go:373-461 | every offset of the footprint is a raw offset or one byte of one channel, never both |
| ParameterModel.InstancesShareAPart | internal/patch/programmer_model.go:778-792 | all instances of a geometry belong to one part |
| PartNames.GeometryNameIs | internal/patch/programmer_model.go:357-362 | an instance's geometry is what stands before the last colon of its name |
| PartNames.PartKeyIs | internal/patch/programmer_model.go:775-792 | a part is named by the first word of the geometry's name, between spaces, underscores and hyphens, that is not a number, in lower case; without one it is the nameless part |
| PartNames.CellsAre | internal/patch/programmer_model.go:658-696 | a cell is an instance another one has the attributes of; its channels and no others are marked with it, numbered from 1 |
| PartNames.PartsAre | internal/patch/programmer_model.go:800-829 | a finished model's parts are those of its intensity parameters, each once, with exactly their offsets |
| PartNames.MasterPartIs | internal/patch/programmer_model.go:795-875 | a part is the master exactly when it has no cells and is the only such part, or the only one of them named base, body, head, yoke or main or not at all |
| ParameterModel.CellsListed | internal/patch/programmer_model.go:660-701 | every cell is listed once and nothing else is |
| ParameterModel.OneMaster | internal/patch/programmer_model.go:800-875 | no two parts of a fixture are its master |
| PartNames.SoftwareMasterIs | internal/patch/programmer_model.go:1032-1110 | a fixture of several parts has one software master, a dimmer of 0 to 255 at 0xFE00 without bytes of its own; any other has none |
| FixtureModels.FixtureModel.AssignCells | internal/patch/programmer_model.go:660-701 | the loops mark exactly the instances with an identical sibling as cells, numbered in order, and their channels with them |
| FixtureModels.FixtureModel.NoteScopes | internal/patch/programmer_model.go:711-753 | what each scope has, and which parts have a dimmer channel |
| FixtureModels.FixtureModel.AddVirtualDimmers | internal/patch/programmer_model.go:710-773 | a virtual dimmer for exactly the RGB scopes without a dimmer, and for a cell only where its part has none |
| VirtualDimmers.VirtualColours | internal/patch/programmer_model.go:703-743 | in a finished model a virtual dimmer scales, each once, exactly the channels of its scope whose names begin with ColorAdd_ or ColorRGB_ |
| VirtualDimmers.VirtualScopes | internal/patch/programmer_model.go:744-773 | a scope has one exactly when it has red, green and blue, no dimmer, and, being a cell, lies in a part without dimmer channels |
| VirtualDimmers.VirtualPlaced | internal/patch/programmer_model.go:754-773 | it is the only one of its scope, at the scope's geometry, without bytes of its own, numbered from 0xFF00 by its cell in 16 bits |
| VirtualDimmers.WhiteIsDimmed | internal/patch/programmer_model.go:703-743 | of a fixture with red, green, blue and white at offsets 1 to 4 all four are scaled |
| FixtureModels.FixtureModel.AssignParts | internal/patch/programmer_model.go:800-875 | the parts in order of first appearance with their dimmers, and the one master if there is one |
| FixtureModels.FixtureModel.MarkInnerDimmers | internal/patch/programmer_model.go:1112-1145 | inner exactly where the climb meets another intensity parameter of the same part |
| FixtureModels.FixtureModel.ScanPart | internal/patch/programmer_model.go:1069-1102 | a part is governed exactly when every one of its dimmers is under the master, and what the software master would multiply of it |
| FixtureModels.FixtureModel.AddVirtualMaster | internal/patch/programmer_model.go:1032-1110 | the software master of a fixture of several parts, its targets, and the governed flags |
| FixtureModels.PartSourceIs | internal/patch/programmer_model.go:1067-1084 | the source of a part is that of its first intensity parameter |
| FixtureModels.MasterSourceIs | internal/patch/programmer_model.go:1067-1084 | that of the software master is the first part's that has one and is not the master |
| FixtureModels.BuildFixtureModel | internal/patch/programmer_model.go:365-528 | the model built of an entry is the shared-out footprint with each of these derived from it |
| GeometryTree.ClimbFrom | internal/patch/programmer_model.go:1046-1066 | the bounded climb of the software master finds a holder at or above the instance exactly when there is one within the limit |
| GeometryTree.ClimbAbove | internal/patch/programmer_model.go:1130-1144 | the climb of the inner rule starts above the instance |
| GeometryTree.ClimbsSeePath | internal/patch/programmer_model.go:1046-1144 | on an acyclic path within the limit both climbs see exactly the geometries of the path |
| GeometryTree.OutermostOnPath | internal/patch/programmer_model.go:1112-1145 | the holders on a path have exactly one that is not under another |
| Dimming.BuiltInnerMarked | internal/patch/programmer_model.go:1112-1145 | in the finished model a parameter is inner exactly when it is under another of its part |
| Dimming.BuiltPure | internal/patch/programmer_model.go:744-773 | no part holds both a cell's virtual dimmer and a dimmer channel |
| Dimming.DimmedOnce | internal/patch/programmer_model.go:99-130 | light below a part's dimmer is dimmed by the part's level exactly once: the product of its dimmers along the path is the level when no geometry carries two, and the level's power for as many as the outermost geometry carries |
| SoftwareMaster.SoftwareMasterTargets | internal/patch/programmer_model.go:1032-1110 | the target list holds, each once, exactly the outermost dimmer channels and the colours of outermost virtual dimmers of the ungoverned parts |
| SoftwareMaster.GovernedPasses | internal/patch/programmer_model.go:1046-1066 | a dimmer counted as under the master has a master channel above it on every path |
| Faders.LatestIsLast | internal/patch/faders.go:343-369 | the claim shown on a channel is the one no other claim came after |
| Faders.MoveSets | internal/patch/faders.go:491-505 | moving a fader gives its channels its level; a channel it neither sets nor holds keeps what it showed, one it only holds opens if nobody owned it |
| Faders.ReleaseHandsBack | internal/patch/faders.go:509-528 | releasing hands each of its channels to the next most recent claim and changes no channel it did not decide |
| Faders.OrderOnly | internal/patch/faders.go:343-380 | only the levels and the order of the moves count |
| Faders.OneTypeFader | internal/patch/faders.go:245-340 | every patched fixture is a member of exactly one type fader, once, that of its type and mode |
| FaderChannels.DrivesByParameter | internal/patch/faders.go:153-230 | what each kind of fader sets and holds of a fixture, told by its parameters: a part's outermost dimmers, holding its inner ones; a cell's dimmers; or the software master and the master part's channels |
| FaderChannels.LiveMembersAre | internal/patch/faders.go:314-322 | a group's members are exactly its stored targets that are in the patch, in their order |
| FaderChannels.FadersAre | internal/patch/faders.go:245-340 | the faders are every type's, followed by its parts' where its first fixture has several, then the stored groups' |
| FaderChannels.GroupClaims | internal/patch/faders.go:314-367 | a group's fader claims exactly the channels that dim its live targets, holds none, and nothing else has its id |
| FaderChannels.GroupShows | internal/patch/faders.go:343-380 | moved last to a level it shows that level on every dimmer of its live cells and on what dims its live fixtures as a whole, and on no other channel |
| FaderChannels.TypeShows | internal/patch/faders.go:153-218 | so does a type's fader on what dims the fixture as a whole, or on the outermost dimmers of a fixture of one part |
| FaderChannels.PartShows | internal/patch/faders.go:153-218 | so does a part's fader on the part's outermost dimmers |
| Faders.FaderBank.MovedInOrder | internal/patch/faders.go:344-350 | the moved faders, first moved first |
| Faders.FaderBank.ClaimAll | internal/patch/faders.go:351-367 | going through the faders in the order they were moved leaves each channel with the latest claim |
| Faders.FaderBank.HoldAll | internal/patch/faders.go:368-380 | an inner dimmer is opened only where no moved fader sets it |
| Faders.FaderBank.Apply | internal/patch/faders.go:343-404 | the output is what the claims show, on every channel |
| Faders.FaderBank.SetFader | internal/patch/faders.go:491-505 | the whole new state of a move; a stale, unknown or out-of-range one changes nothing |
| Faders.FaderBank.ReleaseFader | internal/patch/faders.go:509-528 | the whole new state of a release of one fader or of all |
| Faders.FaderBank.Refresh | internal/patch/faders.go:410-442 | claims of faders that are gone go, all of them at a show switch; the revision moves exactly when claims or view changed |
| Faders.FaderBank.MoveAndRelease | internal/patch/faders.go:491-528 | moving an untouched fader and releasing it leaves claims and every channel as they were |
| SyntheticOffsets.BuiltOffsets | internal/patch/programmer_model.go:754-773 | no two parameters of a built model have one offset exactly when no virtual dimmer of a cell wraps onto a channel or another made-up offset and no channel lies where those are put |
| SyntheticOffsets.InOneUniverse | internal/patch/programmer_model.go:754-773 | with channels within a universe that is exactly when no cell numbered n past 256 that gets a virtual dimmer finds a channel at n - 256 |
| ManyCells.CrowdCollides | internal/patch/programmer_model.go:754-773 | a fixture of 262 channels two of whose parameters have one offset |
| PartLevels.PartFaderSets | internal/patch/faders.go:153-218 | while one fader of a part is the only one moved over its channels, outermost dimmers have its level and inner ones are full |
| PartLevels.PartShowsItsLevel | internal/patch/faders.go:153-218 | from fader to light: the only moved fader of a part dims the light on every path below one of its dimmer channels by its level, once |
| PartLevels.PartOfDimmer | internal/patch/programmer_model.go:879-890 | every intensity parameter of a built fixture is in exactly one part, a virtual one never in the master's |
| PartLevels.FadersShareOut | internal/patch/faders.go:245-340 | type fader and part faders share the dimmers out: the type fader sets the software master and the master part only, any other dimmer is one part fader's |
| PartLevels.VirtualCellDimmed | internal/patch/programmer_model.go:710-773 | the colours of a cell without a dimmer channel are dimmed by the part's level exactly when its virtual dimmer is not inner or the level is full |
| MasterLevels.ReachListed | internal/patch/programmer_model.go:1069-1102 | what an intensity parameter dims is multiplied by the software master once exactly when its part is not governed and it is not inner, which is when it is under no other dimmer of its part, and else not at all |
| MasterLevels.MasterDimsOnce | internal/patch/programmer_model.go:1022-1110 | light under dimmer channels never escapes the master, and with one dimmer to a geometry passes it once exactly when it meets one master channel, in a governed part, or none, in another |
| MasterLevels.MasterDimsColour | internal/patch/programmer_model.go:1022-1110 | the same of colours a virtual dimmer scales, and exactly when they escape the master: inner, ungoverned, no master channel above |
| MasterLevels.WholePartsMeet | internal/patch/programmer_model.go:1022-1066 | a governed part has all its dimmers under the master; under master channels that are not nested its light meets one, and that of a part wholly outside none |
| MasterLevels.PartUnderMaster | internal/patch/programmer_model.go:84-98 | with type fader at M and part fader at L the light is M as often as it meets the master times L for its outermost dimmers: M times L exactly when it meets the master once |
| MasterLevels.CellUnderMaster | internal/patch/programmer_model.go:84-98 | the same of a cell's colours under a virtual dimmer, and full light where an inner one meets no master |
| MasterLevels.TwoFadersAlone | internal/patch/faders.go:153-218 | a type fader and a part's fader over one fixture never set each other's channels |
| OneByteFixtures.ScopeRecords | internal/patch/programmer_model.go:711-743 | whether a scope has a dimmer, red, green and blue is recorded exactly |
| NestedCells.NestedCellIsInner | internal/patch/programmer_model.go:1112-1145 | of two such cells of a part, one above the other, the lower one's virtual dimmer is inner |
| NestedCells.NoMasterPart | internal/patch/programmer_model.go:800-875 | a fixture without dimmer channels has no master part, nothing is governed and no path meets a master channel |
| NestedCells.NestedCellEscapes | internal/patch/programmer_model.go:1069-1145 | a fixture one of whose cells neither its part's fader nor the type fader dims, at any levels |
| DoubleDimming.NestedDimsTwice | internal/patch/programmer_model.go:1022-1110 | a governed part whose light passes two master channels, and is not M times L |
| DoubleDimming.PartlyDimsTwice | internal/patch/programmer_model.go:1022-1110 | an ungoverned part whose light passes a master channel and the software master, and is not M times L |
| WireFrames.SplitBytes | internal/patch/programmer_model.go:1156-1164 | the bytes of a value, coarse first |
| WireFrames.SlotPlaced | internal/patch/faders.go:381-404 | channel off of a fixture goes to DMX slot start + off - 1, the byte before that number in its universe's frame, where it is among the fixture's channels and the 512 |
| WireFrames.BytesBack | internal/patch/programmer_model.go:1156-1164 | a value in range is got back from its bytes |
| WireFrames.WriteFrames | internal/patch/faders.go:381-404 | every owned slot has the byte of the last channel written to it and no other slot is owned; virtual dimmers have their level out of 255 |
| WireFrames.WireShowsLevel | internal/patch/faders.go:381-404 | a channel wholly on the wire and not written over reads back as its level, to the nearest step of its width |
| WireFrames.OneWire | internal/patch/faders.go:381-404 | where no two bytes share a slot the order of writing makes no difference |
| Collisions.DetectOverlaps | internal/patch/collision.go:133-175 | the overlaps reported are exactly the pairs of fixtures whose ranges meet, each once, with the range they share |
| Collisions.OverlapIsShared | internal/patch/collision.go:133-175 | two fixtures are reported exactly when some slot of the universe carries bytes of both |
| Collisions.ReportShares | internal/patch/collision.go:133-175 | the range reported is exactly the channels both fixtures have, its end in 16 bits |
| Collisions.PatchedApart | internal/patch/collision.go:133-175 | in a patch where none is reported every byte has a slot of its own |
| FadersOnWire.FadersReadBack | internal/patch/faders.go:343-404 | in such a patch of built fixtures a channel on its universe reads back as the level its faders show, to the nearest step of its width |
| PatternSlots.SlotKeysDiffer | internal/patch/testpattern.go:2134-2134 | slots of a universe have distinct packed keys |
| PatternSlots.KeysPlaced | internal/patch/patternfade.go:70-89 | a function's channels go to slots start + channel - 1: one unit of two slots where it is 16 bits wide, else a unit each; well placed are those among the 512 |
| PatternSlots.NotedTakes | internal/patch/patternfade.go:70-89 | a write takes exactly the slots of its well-placed keys, from whoever had them |
| PatternSlots.WholeDisjoint | internal/patch/patternfade.go:91-104 | the units that hold all their slots share none |
| PatternSlots.Composition.NoteUnit | internal/patch/patternfade.go:70-89 | the writer map after one function's write, coarse and fine pairs included |
| PatternSlots.Composition.CollectUnits | internal/patch/patternfade.go:91-104 | the units collected in any order are those that hold all their slots |
| PatternFrames.OverlayUnique | internal/patch/patternfade.go:118-125 | values written to disjoint units determine the frames, in whatever order |
| PatternFrames.OverlayShows | internal/patch/patternfade.go:106-125 | each unit written reads back its own value, everything beside it what it had |
| PatternFrames.BytesAre | internal/patch/patternfade.go:106-116 | a unit's value is what stands at its slots, coarse byte first, and 0 in a universe without a frame |
| PatternFade.InterpolateMonotone | internal/patch/patternfade.go:200-210 | towards one target a fade never turns back |
| PatternFade.InterpolateBetween | internal/patch/patternfade.go:200-210 | a fade starts at its start, stays between start and target, and would end at the target |
| PatternFade.InterpolateStraight | internal/patch/patternfade.go:200-210 | a fade shows the share of the way gone by, to the nearest step |
| PatternFade.KeepsValid | internal/patch/patternfade.go:149-222 | a tick keeps the units pairwise slot-disjoint, removed ones included |
| PatternFade.RunKeepsValid | internal/patch/patternfade.go:149-222 | so does every run |
| PatternFade.OneOutcome | internal/patch/patternfade.go:149-222 | the order in which the maps are iterated makes no difference |
| PatternFade.UnitShows | internal/patch/patternfade.go:185-211 | every unit shows its own fade, or what was composed for it |
| PatternFade.OtherSlotsComposed | internal/patch/patternfade.go:185-211 | a slot outside every fading unit shows the byte composed |
| PatternFade.NoJump | internal/patch/patternfade.go:185-211 | the tick on which a unit gets another source, or another way of being driven, and may fade begins a fade of it, and shows what the unit showed before, or what was composed first where its entry was not driven |
| PatternFade.ShowsAtOnce | internal/patch/patternfade.go:185-211 | where it may not fade, or the fade time is 0, it shows at once what is composed |
| PatternFade.NoOvershoot | internal/patch/patternfade.go:200-211 | a fading unit lies between its start and its present target |
| PatternFade.FadeGoesOn | internal/patch/patternfade.go:185-211 | with source and way of driving as they were a fade goes on and is over once its time has passed; none begins |
| PatternFade.FadeRuns | internal/patch/patternfade.go:185-211 | over a run, a unit left alone is in that one fade until its time is over |
| PatternFade.WholeFade | internal/patch/patternfade.go:185-211 | on every tick after such a change the value is the mix of what was shown before it and what is composed now in proportion to the time gone by, and what is composed from then on |
| PatternFade.WholeFadeBytes | internal/patch/patternfade.go:106-211 | so at the unit's own bytes, coarse first, stands the share of the way gone by, to the nearest step |
| PatternFade.FadesOut | internal/patch/patternfade.go:161-211 | a unit that loses its writer stays, in one steady fade, until the tick after the fade time has passed |
| PatternFader.RigCheck.SetPatternFade | internal/patch/patternfade.go:18-26 | a fade time outside 0 to 30 seconds is refused, another counts for fades that begin later |
| PatternFader.RigCheck.CarryUnits | internal/patch/patternfade.go:161-179 | the loop keeps exactly the units that lost their writer with a fade to finish or begin |
| PatternFader.RigCheck.FadeOne | internal/patch/patternfade.go:185-211 | one unit's turn, its fade begun, continued or dropped and its value written |
| PatternFader.RigCheck.FadePattern | internal/patch/patternfade.go:149-222 | the loops over unordered maps, overwriting frames in place, make the one outcome of the tick |
| PatternFader.RigCheck.Cancel | internal/patch/testpattern.go:2385-2396 | stopping forgets units, fades and frames and keeps the fade time |
| VirtualFades.RunsKeepSound | internal/patch/patternfade.go:271-321 | over every run a virtual key that is not fading shows its target |
| VirtualFades.ReleaseUnseen | internal/patch/patternfade.go:238-257 | letting a key go changes nothing: it showed what it shows untouched |
| VirtualFades.NoVirtualJump | internal/patch/patternfade.go:290-314 | a key driven by another source, or shown another way, first shows, level and fill, what it showed, and fades from there |
| VirtualFades.VirtualGoesOn | internal/patch/patternfade.go:290-314 | driven as before, whatever its level, it goes on with its fade until the time is over |
| VirtualFades.VirtualWay | internal/patch/patternfade.go:290-314 | on every tick it shows, level and fill alike, the share of its fade gone by, to the nearest step, or what its test asks |
| VirtualFades.NoVirtualOvershoot | internal/patch/patternfade.go:290-314 | level and fill stay between start and target and are the target when the time is over |
| VirtualFades.VirtualFadesOut | internal/patch/patternfade.go:279-320 | an undriven key fades from what it showed to untouched over the time set when it lost its driver, and is let go on the tick after |
| VirtualFades.VirtualFader.FadeVirtual | internal/patch/patternfade.go:271-321 | the loops over the maps make the whole new state of the tick |
| ProbeGate.UidState.BeginResolve | internal/params/introspect.go:966-1001 | the head of a resolution: an answer, a flight to wait for, or one to fly |
| ProbeGate.UidState.EndResolve | internal/params/introspect.go:1003-1012 | the end of a flight records its outcome and ends it |
| ProbeGate.UidState.RecordOutcome | internal/params/introspect.go:1054-1083 | what each outcome of the ask does to the cache |
| ProbeGate.RunKeepsInv | internal/params/introspect.go:966-1083 | the invariant of cache and callers under every interleaving |
| ProbeGate.AtMostTwoAsks | internal/params/introspect.go:966-1083 | at most one resolution is in flight, and a device is asked for its list at most twice, plus once for every ask given up on |
| ProbeGate.NobodyGaveUp | internal/params/introspect.go:1075-1077 | while no caller gives up no ask is abandoned |
| ProbeGate.KnownForGood | internal/params/introspect.go:1054-1083 | a known list never changes and a refused parameter stays refused |
| ProbeGate.GateOpensOn | internal/params/introspect.go:1113-1139 | what passes the gate is listed by the device, or the device has answered the question for its list |
| ProbeGate.GateExactly | internal/params/introspect.go:1119-1139 | the last look: a caller told a list passes exactly when it names the parameter; told none, it is refused exactly while the device has been silent and never answered |
| ProbeGate.LookExactly | internal/params/introspect.go:1114-1118 | only a remembered refusal stops a GET at once |
| ProbeGate.BeginExactly | internal/params/introspect.go:966-1001 | the device is asked unless its list is known, it has answered, it was silent twice, or somebody is asking |
| ProbeGate.OutcomeExactly | internal/params/introspect.go:1035-1083 | what each outcome of an ask leaves in the cache |
| ProbeGate.LandExactly | internal/params/introspect.go:985-1033 | what a flight that lands, a caller that wakes or gives up, and a list read by hand leave, and that no other caller is touched |
| ProbeGate.ListedGoesOut | internal/params/introspect.go:1113-1139 | a GET for a listed parameter the device never refused goes out |
| ProbeGate.ListedNotRefused | internal/params/introspect.go:1113-1139 | over every run, once the list is known nobody is refused a parameter it names that the device has not refused |
| ProbeGate.ListAsSent | internal/params/introspect.go:1054-1083 | the known list is the first one the device sent |
| ProbeGate.StepsFree | internal/params/introspect.go:966-1139 | nothing but where a caller is holds up its steps |
| ProbeGate.SilentDeviceNotProbed | internal/params/introspect.go:1113-1139 | a device that has only been silent gets no speculative GET |
| ProbeGate.RememberExactly | internal/params/introspect.go:1141-1156 | exactly a refusal as unknown is remembered |
| ProbeGate.NeverAfterRefusal | internal/params/params.go:138-174 | after an unknown-PID refusal no GET that begins later asks for the parameter again |
| ProbeGate.PassAgainstList | internal/params/introspect.go:1113-1139 | a parameter the known list does not name passes exactly when the caller's own resolution had ended without the list |
| ProbeGate.LateList | internal/params/introspect.go:1113-1139 | a run of eight steps in which that happens |
| CoreIdentity.EnsureAdvertised | internal/params/introspect.go:1113-1139 | the gate as one caller goes through it: the exact condition of each verdict in what the cache says, asks made, cache afterwards |
| CoreIdentity.ReadOne | internal/params/params.go:138-174 | one read: the optional parameters are sent exactly when listed, or when the device has answered without a list or never been silent; what came back, and a refusal as unknown remembered, no other |
| CoreIdentity.ReadCoreIdentity | internal/params/coreidentity.go:120-155 | the six reads in order, nothing after a DEVICE_INFO met by silence and only then silent, at most two asks for the list, one where the device answered, flags as the log says |
| AutoRead.Reader.Note | internal/autoread/autoread.go:208-219 | an unknown device is queued, a known one left as it is |
| AutoRead.Reader.Take | internal/autoread/autoread.go:254-269 | the head of the queue is pending in every valid ledger, and is taken |
| AutoRead.Reader.FilePass | internal/autoread/autoread.go:272-327 | the outcome is filed whatever happened to the ledger meanwhile |
| AutoRead.Reader.DropQueued | internal/autoread/autoread.go:377-385 | filtering the queue in place keeps the order of what stays |
| AutoRead.Reader.Forget | internal/autoread/autoread.go:354-366 | exactly the device's entries and queue slots go, and how many |
| AutoRead.Reader.ForgetPort | internal/autoread/autoread.go:392-404 | exactly the port's entries and queue slots go, and how many |
| AutoRead.Reader.Reset | internal/autoread/autoread.go:411-416 | ledger and queue are empty |
| AutoRead.NotedExactly | internal/autoread/autoread.go:208-219 | an unknown device goes behind the others with no attempts spent |
| AutoRead.FiledExactly | internal/autoread/autoread.go:272-327 | a pass answered makes its entry read; cut off by a shutdown it costs nothing; out of attempts it is given up on; else it goes back with one attempt spent |
| AutoRead.FiledLate | internal/autoread/autoread.go:272-327 | a pass whose entry was forgotten or queued anew leaves the ledger as it is |
| AutoRead.KeptInOrder | internal/autoread/autoread.go:377-385 | what stays in the queue stays in order |
| AutoRead.ForgottenExactly | internal/autoread/autoread.go:354-404 | exactly the device's entries go, and exactly the port's |
| AutoRead.ReadForGood | internal/autoread/autoread.go:254-327 | a device that was read is not read again while its entry stays |
| AutoRead.RunValid | internal/autoread/autoread.go:208-416 | whatever lands mid-pass the queue is duplicate-free and lists exactly the pending entries, and only the worker's device is being read |
| AutoRead.EntryCost | internal/autoread/autoread.go:272-327 | the passes begun on an entry since it entered are its attempts, the one on the wire, and those a shutdown cut off |
| AutoRead.EntryWithinBudget | internal/autoread/autoread.go:272-327 | one entry costs no more passes than the budget beyond those |
| AutoRead.PassUses | internal/autoread/autoread.go:234-327 | an undisturbed pass uses up at least one attempt left |
| AutoRead.Drain | internal/autoread/autoread.go:234-250 | left to itself the worker drains in at most the sum of the attempts left, every device then read or given up on |
| ChannelValues.SpanInside | internal/patch/programmer.go:798-872 | a share of a range stays in it and meets both ends |
| ChannelValues.PhysicalPlaced | internal/patch/programmer.go:798-872 | a physical value lands inside its function, ends on ends |
| ChannelValues.ResolvedInside | internal/patch/programmer.go:748-872 | whatever is asked of a channel lies in it and in the function it was placed in, the named one where one is named |
| ValueLaws.RequestIs | internal/patch/programmer.go:709-743 | a request is well-formed exactly when it names an attribute, gives one value in range, and names a function in one way at most |
| ValueLaws.NamedIs | internal/patch/programmer.go:748-780 | the function named: the one of that number, the only one of that name, or the first of that attribute |
| ValueLaws.DmxAsks | internal/patch/programmer.go:798-872 | a DMX value stands for itself, in the channel and the function named |
| ValueLaws.FractionAsks | internal/patch/programmer.go:798-872 | a fraction is that share of the function named or of the channel, to the nearest step: bottom at 0, top at 1 |
| ValueLaws.FractionRises | internal/patch/programmer.go:798-872 | asking more never gives less |
| ValueLaws.PhysicalAsks | internal/patch/programmer.go:798-872 | a physical value is placed at its share of the function's range, which may run either way, and refused outside it |
| ValueLaws.PhysicalRises | internal/patch/programmer.go:798-872 | further along the physical range is nowhere further back in DMX |
| ValueLaws.SetAsks | internal/patch/programmer.go:798-881 | a set or slot request lands on the first set of that name or wheel slot, and is refused exactly where there is none |
| FanShapes.PositionEnds | internal/patch/programmer_tools.go:618-629 | every position is between the ends and the shape's ends are met exactly |
| FanShapes.PositionMonotone | internal/patch/programmer_tools.go:618-629 | positions climb or fall along each leg |
| FanShapes.PositionStep | internal/patch/programmer_tools.go:612-629 | neighbours on a leg are all as far apart |
| FanShapes.PositionSymmetry | internal/patch/programmer_tools.go:618-629 | reverse is linear backwards, mirror and edges-in are symmetric and each other's complement |
| FanShapes.FanStraight | internal/patch/programmer_tools.go:671-691 | values stay between the ends, meet them, and are within half a step of the line |
| FanShapes.FanMonotone | internal/patch/programmer_tools.go:671-691 | along a leg the values follow the positions |
| FanShapes.SwappedEnds | internal/patch/programmer_tools.go:671-691 | exchanging the ends and reading backwards gives the same value exactly off the halves |
| FanShapes.SwappedEndsDiffer | internal/patch/programmer_tools.go:671-691 | half-way from 0 to 1 and back |
| ProgrammerModel.MatchSelection | internal/patch/programmer.go:1216-1261 | the matching loops, with their report |
| ProgrammerModel.MatchedExactly | internal/patch/programmer.go:1216-1261 | every channel in reach of a target with the attribute is in exactly one match, that of the first target to reach it, and nothing else is matched |
| ProgrammerReach.CarriesByParameter | internal/patch/programmer.go:1216-1261 | a cell's channels with the attribute, or the fixture's; but the dimmers of a whole fixture are what dims all of it |
| ProgrammerReach.FirstReaches | internal/patch/programmer.go:1216-1261 | each channel goes to the first target to want it, and every target without one is reported |
| ProgrammerModel.MatchRefused | internal/patch/programmer.go:1216-1261 | matching is refused exactly when a target is not in the patch |
| CallLaws.MatchMissing | internal/patch/programmer.go:1216-1261 | and then for what is wrong with the first target that is not there: its fixture or its cell |
| ModeMasters.MasterIs | internal/patch/programmer.go:915-971 | the channel and range a mode master link needs: the channel of that name on the instance, or the only one, in the range stated where it fits, or in the first function of that attribute and name |
| ModeMasters.ActiveIs | internal/patch/programmer.go:883-902 | a value lies in the only function that contains it, or in the first of several that is of the channel's own attribute |
| ModeMasters.EnforcedExactly | internal/patch/programmer.go:1321-1394 | a mode master in its range stays; one outside goes to the wheel slot it shows where the range offers it, else to the nearer end, and to the lower where it is not known where it stands |
| ModeMasters.PlacedExactly | internal/patch/programmer.go:1266-1286 | one value placed: staged and reported with the function it lies in, that function's mode master brought into its range, nothing else touched |
| Staging.EnforcedInRange | internal/patch/programmer.go:1321-1356 | afterwards the mode master is in the range the function needs and nothing but it was touched |
| Staging.PlaceLocked | internal/patch/programmer.go:1266-1286 | one channel staged: value, mode master, report |
| Staging.PlacedAll | internal/patch/programmer.go:1266-1286 | every place is applied or skipped, only channels are staged, and nothing is applied exactly when every ask was refused |
| Staging.AllStand | internal/patch/programmer.go:1266-1356 | with channels that get along every value and every mode master range holds at the end |
| ProgrammerSteps.PickedIs | internal/patch/programmer.go:499-570 | adding unites, removing subtracts, toggling turns over by parity; no target twice, order kept |
| CallLaws.SelectExactly | internal/patch/programmer.go:499-570 | when a selection is refused and why, and the selection it leaves: targets in the order they come up, what was there kept in order, toggled by how often it is named |
| ProgrammerSteps.SelectValid | internal/patch/programmer.go:499-570 | a select call keeps the invariant |
| ProgrammerSteps.SetValid | internal/patch/programmer.go:976-1002 | so does Set |
| ProgrammerSteps.FanValid | internal/patch/programmer_tools.go:643-693 | so does Fan |
| CallLaws.SetExactly | internal/patch/programmer.go:976-1002 | when Set is refused and why, and that any other Set keeps what it staged |
| CallLaws.FanExactly | internal/patch/programmer_tools.go:643-693 | the same of Fan, which needs two positions, or three where its shape has a middle |
| CallLaws.CommitExactly | internal/patch/programmer.go:1292-1316 | staged values are kept over the ones held unless none was applied or one is a fixture command |
| ProgrammerRuns.RawWrittenIs | internal/patch/programmer.go:1401-1436 | of several raw writes to an offset the last counts, every other value stays |
| ProgrammerRuns.RawValid | internal/patch/programmer.go:1401-1447 | raw writes touch raw offsets only, the invariant holds |
| CallLaws.RawExactly | internal/patch/programmer.go:1401-1447 | when raw writes are refused and why, and what they leave |
| ProgrammerRuns.ClearAllEmpties | internal/patch/programmer.go:1464-1520 | Clear All leaves no value and no selection |
| ProgrammerReach.ClearExactly | internal/patch/programmer.go:1464-1520 | a clear releases exactly the values of the channels, of the group and in the selection, it is for, and those of fixtures that are gone |
| ProgrammerRuns.SteppingReaches | internal/patch/programmer_tools.go:376-436 | stepping forward visits the selection in order and stops at its last |
| CallLaws.HighlightRefusals | internal/patch/programmer_tools.go:376-436 | when a change of Highlight or a step is refused and why |
| CallLaws.HighlightExactly | internal/patch/programmer_tools.go:376-436 | where a step goes, and what ends stepping |
| ProgrammerRuns.LocateValid | internal/patch/programmer_tools.go:509-575 | Locate keeps the invariant |
| ProgrammerReach.LocateExactly | internal/patch/programmer_tools.go:509-575 | Locate leaves on each channel in reach what its rule gives for the first target to reach it, and every other value as it was |
| ProgrammerRuns.RecalledFits | internal/patch/programmer_tools.go:840-906 | a recalled value fits its channel; a fixture's own stored value goes first |
| ProgrammerReach.RecalledExactly | internal/patch/programmer_tools.go:840-906 | a channel gets the last value stored for it, else that of the first stored fixture of its type and mode to have one that fits |
| ProgrammerReach.RecallExactly | internal/patch/programmer_tools.go:795-906 | a recall leaves that on the family's channels in reach, and every other value as it was |
| ProgrammerRuns.RecallValid | internal/patch/programmer_tools.go:795-906 | RecallPreset keeps the invariant |
| ProgrammerRuns.SyncValid | internal/patch/programmer.go:140-199 | after a sync selection and values are of what is there |
| ProgrammerRuns.ValuesFollow | internal/patch/programmer.go:140-199 | a value outlives a sync exactly when its fixture is still there with the profile it had |
| CallLaws.SyncExactly | internal/patch/programmer.go:140-199 | the fixtures, selection and values after a sync, and that the revision moves on exactly when something shown has changed |
| ProgrammerRuns.CallMoves | internal/patch/programmer.go:118-123 | a call is all or nothing: refused it changes nothing, else it moves the revision on |
| ProgrammerRuns.RunValid | internal/patch/programmer.go:140-199 | over every run: selection duplicate-free and live, touched keys parameters or raw offsets, stepping only under Highlight with the step in range, revision never back |
| ProgrammerRuns.OneWinner | internal/patch/programmer.go:118-123 | of two calls expecting one revision at most one is carried out |
| Programmer.Programmer.Sync | internal/patch/programmer.go:140-199 | the whole state after a sync |
| Programmer.Programmer.Select | internal/patch/programmer.go:499-570 | the whole state after a select action |
| Programmer.Programmer.Set | internal/patch/programmer.go:976-1002 | the whole state after Set |
| Programmer.Programmer.Fan | internal/patch/programmer_tools.go:643-693 | the whole state after Fan |
| Programmer.Programmer.Locate | internal/patch/programmer_tools.go:509-575 | the whole state after Locate |
| Programmer.Programmer.RecallPreset | internal/patch/programmer_tools.go:795-819 | the whole state after a recall |
| Programmer.Programmer.Raw | internal/patch/programmer.go:1401-1436 | the whole state after raw writes, or the first refusal |
| Programmer.Programmer.Clear | internal/patch/programmer.go:1464-1520 | the whole state after a clear, and how many values went |
| Programmer.Programmer.SetHighlight | internal/patch/programmer_tools.go:376-436 | the whole state after a highlight change or step |
| Programmer.Programmer.Commit | internal/patch/programmer.go:1292-1316 | staged values become values, or nothing applied is an error |
| ProgrammerLaws.RequestDone | internal/patch/programmer.go:1216-1356 | a request over channels that get along leaves every channel that could take its value with it, mode masters in range |
| ProgrammerLaws.RequestOnly | internal/patch/programmer.go:1216-1356 | and changes no value but those of the channels matched and of their mode masters |
| ProgrammerLaws.FanAsks | internal/patch/programmer_tools.go:643-693 | what a fan asks of a channel lies on the line between what its ends ask, to the nearest step, is one of them at the shape's ends, and never wraps |
| LibraryModes.MergeModeTwice | internal/library/store.go:361-423 | merging a mode again changes nothing |
| LibraryModes.MergeModeKeeps | internal/library/store.go:361-465 | a merge keeps the name's key and a populated channel map, and only a stamp that still fits |
| LibraryLaws.TwoWordsFold | internal/library/library.go:247-256 | names that differ in capitals and white space only are one |
| LibraryLaws.LessDetailedIs | internal/library/store.go:425-456 | the same profile in less detail: the same footprint and channels, each without its detail or the default it has, where the stored mode has detail or wheels |
| LibraryLaws.ModeMerged | internal/library/store.go:361-423 | which of the merged mode's name, channels, footprint, wheels and origin comes from where |
| LibraryLaws.StampMerged | internal/library/store.go:361-423 | which stamp it has, never one of another payload |
| LibraryModes.WheelsKept | internal/library/store.go:376-454 | the stored wheels outlive a merge exactly when the incoming mode is the same profile in less detail or has the same wheels |
| LibraryModes.WheelsLost | internal/library/store.go:376-405 | a mode without channels takes the wheels of the one it meets |
| LibraryMerge.FoldModesFirst | internal/library/store.go:361-423 | the first mode of each name ends merged with the one incoming mode of that name |
| LibraryMerge.SortModesKeeps | internal/library/store.go:421-422 | sorting keeps every mode and the first of each name |
| LibraryMerge.MergeModesTwice | internal/library/store.go:361-423 | merging modes is idempotent when no two incoming names fold together |
| LibraryRecords.SortPids | internal/library/library.go:321-334 | the in-place insertion sort |
| LibraryRecords.SortedPidsAre | internal/library/library.go:321-334 | the sort is ascending and a permutation |
| LibraryRecords.DedupePids | internal/library/library.go:307-319 | the deduplicating loop |
| LibraryRecords.DedupedPidsAre | internal/library/library.go:307-319 | the result is strictly ascending and holds the same PIDs |
| LibraryRecords.MergeModeList | internal/library/store.go:361-423 | the loop that updates modes by index |
| LibraryRecords.MergeRecordTwice | internal/library/store.go:321-356 | merging a record again changes nothing when its mode names fold apart |
| LibraryLaws.RecordMerged | internal/library/store.go:321-356 | names kept as spelled unless blank, known RDM ids taken over, dates kept, the key that of the names |
| LibraryLaws.FilesMerged | internal/library/store.go:321-356 | the files there were and every new one once, by content |
| LibraryRecords.NothingLost | internal/library/store.go:321-423 | PIDs only grow, a known RDM id stays known, no source file goes, every stored mode is there by name and no populated channel map is emptied |
| LibraryStore.Store.UpsertChecked | internal/library/store.go:256-311 | a bad source file is refused, a change that cannot be saved is taken back, and else the store is the merged one |
| LibraryStore.UpsertKeeps | internal/library/store.go:289-311 | the store stays one of checked records and never has fewer |
| LibraryLaws.UpsertExactly | internal/library/store.go:196-311 | a record is added, in its place among the keys, exactly when no stored one is of its key or matches it; else it is merged into the one it belongs to, and every other stays |
| LibraryLaws.FreshIs | internal/library/library.go:287-334 | a record as first stored |
| LibraryStore.UpdateThenUnchanged | internal/library/store.go:289-319 | after a merge into a record of known name the same import is no change |
| LibraryStore.AddThenRepeat | internal/library/store.go:289-319 | after an add it is no change exactly when the modes were in the order of their names |
| LibraryStore.RepeatUpdates | internal/library/store.go:289-319 | a record with modes B and A is updated by its own second import |
| ShowFile.EncodeShowFile | internal/patch/showfile.go:84-104 | the loop that fills table and entries |
| ShowFile.DecodeShowFile | internal/patch/showfile.go:112-160 | the loop that resolves references, stopping at the first error |
| ShowFile.TableExact | internal/patch/showfile.go:84-104 | the table holds the profile of every profiled entry under its key and no other |
| ShowFile.SharedExactly | internal/patch/showfile.go:84-104 | two entries share a profile exactly when their profiles are equal |
| ShowFile.RoundTrip | internal/patch/showfile.go:79-160 | a written show reads back as the file keeps it, each entry with its own channel map, wheels and tree |
| ShowFile.NothingLost | internal/patch/showfile.go:79-160 | it is exactly what it was exactly when no tree is known to be empty, no profile-less entry has a short name or tree, and no runtime weight is set |
| ShowFile.EmptyTreeLost | internal/patch/showfile.go:79-160 | a tree known to be empty comes back unknown |
| ShowFile.WriteReadWrite | internal/patch/showfile.go:79-160 | writing what was read writes the same file |
| ShowFile.EntriesRefused | internal/patch/showfile.go:112-160 | a file is refused exactly when it is newer, or an entry points at a missing profile or has an inline map besides |
| DurableSave.AtomicWrite | internal/patch/durable.go:11-29 | at every step the path holds the old or the whole new file; a fault leaves the files as they were |
| DurableSave.SavePatch | internal/patch/durable.go:31-55 | at every fault or crash point the show is the whole old or whole new version; an undecodable file is untouched; the version before is in the backup |
| DurableSave.ReadableAfterCrash | internal/patch/durable.go:31-55 | wherever a crash strikes a readable show stays readable and is the old or the new one |
| DurableSave.DiskDecodes | internal/patch/durable.go:31-55 | what a saved show decodes to, and when that is what is in memory |
| DurableSave.ShowStore.Mutate | internal/patch/entry.go:1043-1061 | memory changes only with the disk, and does exactly when the change is made and every step of saving it goes through |
| DurableSave.ShowStore.ReplaceChecked | internal/patch/entry.go:1010-1027 | the new show in the present schema exactly when saving it goes through, or nothing |
| DurableSave.ShowStore.RecoverActive | internal/patch/durable.go:65-84 | the backup becomes the show exactly when it can be read and saved; at every step the file is as it was or the whole version before |
| CaptureRing.Ring.Add | internal/capture/capture.go:586-609 | the ring refines the log of everything added since it was emptied; the dump of a packet over 600 bytes that decoded is not kept |
| CaptureRing.Ring.Clear | internal/capture/capture.go:617-623 | the log is empty and numbers go on |
| CaptureRing.Ring.Ordered | internal/capture/capture.go:677-688 | the two halves of the array are the last n of the log |
| CaptureRing.Ring.Snapshot | internal/capture/capture.go:661-675 | the most recent matching entries, at most as many as asked |
| CaptureRing.Ring.Subscribe | internal/capture/capture.go:695-703 | a new subscriber with nothing offered yet, under the next number |
| CaptureRing.Ring.Receive | internal/capture/capture.go:690-703 | the oldest waiting batch is taken out, and the others stay |
| CaptureRing.Ring.Publish | internal/capture/capture.go:720-757 | every subscriber is flushed once, in any order of subscribers |
| CaptureRing.RingInOrder | internal/capture/capture.go:586-688 | the ring's entries are numbered one after another |
| CaptureRing.RunKeepsOrder | internal/capture/capture.go:586-757 | over every run of adds, flushes with snapshots of any age, receives, subscriptions and cancellations a subscriber is sent added, matching entries in order, none twice, and what it was sent is what it took and what waits |
| CaptureRing.TakenInOrder | internal/capture/capture.go:586-757 | so what a subscriber takes out, over such a run, is in order, added and matching |
| CaptureRing.PublishIsRun | internal/capture/capture.go:720-757 | a publish nothing comes between is the flushes of its subscribers in any order |
| CaptureRing.FlushMisses | internal/capture/capture.go:720-757 | exactly which entries a flush makes a subscriber miss: those between its marks that had left the ring, or all of them where the channel is full |
| CaptureRing.FlushSends | internal/capture/capture.go:720-757 | with room in the channel exactly the snapshot's entries above its mark that match go out |
| CaptureRing.MissedForGood | internal/capture/capture.go:739-753 | over every further run an entry missed stays missed, and what was sent stays sent |
| CaptureRing.NinthMissed | internal/capture/capture.go:720-757 | the run in which a subscriber that takes nothing misses the ninth entry |
| ByteFields.Reader.Take | internal/bytesio/reader.go:53-64 | a read past the end fails and does not move the cursor |
| ByteFields.Writer.WriteField | internal/bytesio/writer.go:20-62 | every width and byte order, strings cut or zero-filled |
| ByteFields.MeaningOfWritten | internal/bytesio/reader.go:67-154 | a field read back is canonical: its number, padded bytes, or text cut at its first zero |
| ByteFields.ReadAllWritten | internal/bytesio/reader.go:53-154 | so is a run of fields |
| ByteFields.CutExactly | internal/artnet/codec.go:409-440 | a run of optional fields cut inside one reads as its zero-filled completion, whatever it says, exactly when every later field is larger than what is left |
| ArtNetCodec.EncodePacket | internal/artnet/codec.go:167-202 | header, fields, count and tail of every kind |
| ArtNetCodec.DecodePacket | internal/artnet/codec.go:67-162 | the packet, or which error |
| ArtNetCodec.KindOf | internal/artnet/codec.go:67-162 | an op code is of a kind exactly when that kind has it |
| ArtNetLayout.FieldsBegin | internal/artnet/codec.go:204-913 | the byte each field of each kind of packet begins at |
| ArtNetLayout.FieldBytes | internal/artnet/codec.go:204-913 | those bytes of an encoded packet are the field as it is written |
| ArtNetLayout.HeaderBytes | internal/artnet/codec.go:167-202 | every packet begins with Art-Net, a zero and the op code, low byte first |
| ArtNetLayout.DmxBytes | internal/artnet/codec.go:551-570 | an ArtDmx byte by byte |
| ArtNetLayout.DmxSent | internal/artnet/codec.go:551-570 | data of odd length is sent with one more byte, 0 |
| ArtNetLayout.CountBytes | internal/artnet/codec.go:618-913 | where the packets that carry lists state how many items, and how many are sent |
| ArtNetLayout.ReplyBytes | internal/artnet/codec.go:467-509 | where an ArtPollReply has its address, codes, names and MAC |
| ArtNetCodec.TailRead | internal/artnet/codec.go:511-720 | the tail sent is the tail read under the count stated, apart from what a full ArtDmx count cuts off |
| ArtNetCodec.RoundTrip | internal/artnet/codec.go:67-202 | decoding an encoded packet of any kind gives it back canonical: text cut, bytes padded, ArtDmx even, counts capped, deprecated fields zero |
| ArtNetCodec.PollCut | internal/artnet/codec.go:266-287 | an ArtPoll cut anywhere in its optional fields decodes as its zero-filled completion |
| ArtNetCodec.ReplyCut | internal/artnet/codec.go:408-465 | an ArtPollReply does so whatever it says exactly when cut at an optional field's start or inside the last, filler |
| ArtNetCodec.BindIpTaken | internal/artnet/codec.go:408-440 | a reply cut two bytes into its bind IP: they become the bind index and the second status |

## Left out

- Input and output: HTTP, sockets, sACN, the output engine, disk logs and real clocks. Time is a real number that does not run backwards, the disk a map from path to content, the engine a sink of what was written to it.
- JSON and hashing: documents are datatypes, and profile keys, fingerprints and digests are taken to be injective.
- float64: levels, fades, fans and physical values are over reals with rounding half away from zero.
- Which words a profile uses for "open", "full" and the like, and so the value Locate and Highlight pick: Locate is given the rule, and the overlay frames of Highlight are not modelled.
- The programmer's own output frames, base state, virtual dimmer definitions and scale groups, which go the way of `WireFrames` with other values.
- Command (values held for a time), preset capture and workspaces.
- Faders.FaderBank.Refresh: is given what the faders show, apart from their levels, as one string to compare with the last.
- ParameterModel.InstancesShareAPart: part keys are lower-cased in ASCII, where the original folds all letters; so are they in `PartNames.PartKeyIs`.
- LibraryLaws.TwoWordsFold: library names are folded over ASCII letters, blanks, tabs and line ends, where the original folds all letters and white space.
- The library's fuzzy match of manufacturer and model is a parameter, as is the check of a source file's name; export, delete, find and migration of libraries are not modelled.
- LibraryRecords.MergeRecordTwice: needs mode names that fold apart; with two that fold together the first is merged again with the second.
- ProgrammerLaws.RequestDone: says what happens where channels get along, that is no channel's own value or mode master is moved out of its range by another of the request; where they do not, the later one counts (`Staging.PlacedAll`).
- ProbeGate.AtMostTwoAsks: callers that give up while their ask is on the wire may cost an ask each, as the original does not count those.
- ProbeGate.PassAgainstList: is about one look at the gate, with a late list; while callers give up, an ask may also end unrecorded.
- ForgetDevice and ClearAllDeviceState drop a device's cache; a caller that still holds the dropped one is not modelled.
- Descriptor caches, the editor's value ranges and the typed wrappers of single parameters.
- DurableSave.SavePatch: power loss inside the rename, and a temporary file left behind by a crash, are as the file system leaves them; a temporary name is a fresh path.
- The migrations of old show files and the normalising of channel functions on load.
- CaptureRing: the two throttles, the filters' fields and the text of entries; a filter is any predicate.
- ArtNetCodec: the RDM message inside ArtRdm is its bytes, packet fields are named by their place in the layout, and the messages of decode errors are left to their kinds.
- Composition of the test patterns: which test wins which slot is what `PatternSlots.Composition.NoteUnit` is given.
- Collisions.DetectOverlaps: is the overlap check; the findings about single fixtures, duplicate fixture numbers and the texts are not modelled.
- FixtureModels.BuildFixtureModel: leaves out a parameter's functions, names and defaults, the list of unaddressable parameters and the fingerprint.
- Programmer.Programmer.Locate: the value Locate picks for a parameter is given, as one rule for all.
- CaptureRing.Ring.Cancel: batches left in a cancelled subscriber's closed channel, which its holder may still read, are not followed further.
- MasterLevels.PartUnderMaster: is about fixtures whose geometry tree is known; the original counts every dimmer as under the master where it is not.
- FadersOnWire.FadersReadBack: is about the faders' own layer of the output; what other sources do to the same slots is the engine's.
