# layout_cloner: a verified model of `do_clone`

`layout_cloner.py` is a KiCad Pcbnew script. It replicates the layout of one
hierarchical sheet (the *template*) onto its identical sister sheets (the
*clones*). The user draws a zone on the comment layer (layer 41) around the
template layout. `do_clone` then works in these phases:

1. It finds that comment zone and takes its bounding box as the template rectangle.
2. It parses every module reference (`D201` becomes prefix `D` and number 201).
3. It takes as template modules those whose position the rectangle contains.
4. It warns about references numbered in the template range but placed outside the rectangle, and about references placed inside it but numbered out of range.
5. For every clone index `i` in `1 .. clonesX*clonesY-1` it pairs every template module with its clone, whose number is the template number plus `i*templateRefModulo`. The zipped pads of each pair vote "template net t is clone net c". The most voted clone net fills slot `i` of row `t` of the net map. A vote with more than one candidate is reported.
6. It places every clone. The clone goes on the template's side, at the template position plus the grid offset `(i % clonesX * dx, i // clonesX * dy)`, and takes the template's orientation. Both of its texts take the style of the template's reference text.
7. It duplicates every zone anchored in the rectangle (other than the comment zone), and every track and drawing the rectangle hits, once per clone index. Each duplicate is moved by the clone's offset. Zone and track duplicates get the clone's net from the net map.

The board is a class (`Board.Board`) whose four lists (modules, zones,
tracks, drawings) the methods change in place. Each phase is a method proved
against a function that specifies it:

| Phase | Method | Specified by |
|---|---|---|
| comment zone | `Template.FindCommentZone` | `IsCommentRect` |
| module scan | `Template.SelectTemplate` | `TemplateRefs`, `RangeWarnings` |
| net map | `NetMapping.MapNets` | `NetMapUpTo`, `FirstHalt` |
| placement | `Placement.PlaceClones` | `PlaceAll` |
| zones | `Replication.CloneZones` | `ZonePhase` |
| tracks | `Replication.CloneTracks` | `TrackPhase` |
| drawings | `Replication.CloneDrawings` | `DrawingPhase` |
| whole run | `Cloner.DoClone` | `Cloner.Replicated` (`Cloner.ReplicatedAsWritten` as written) |

Lemmas then state what those functions promise: membership, counts,
first-failure, prefix preservation and round trips.

A run ends in one of three ways:
- `Completed`.
- `Returned(abort)`: the two `return`s of the net-mapping loop.
- `Raised(error)`: a Python exception.

The printed messages that do not end the run are a list of `Warning`s.

Where the written description of the program and the code disagree, the model
follows the code:
- **Text styles.** Both clone texts copy the template's *reference* text: `templateValText` is `templateModule.Reference()` (layout_cloner.py:131). They do not copy value text to value text.
- **Unmapped nets.** A duplicated track whose template net is not in the net map keeps the template's net, with a warning; nothing sets it to "unset". For a zone the same case raises at line 169 before the duplicate is added (see Findings). `ZonePhaseAsWritten` and `ReplicatedAsWritten` model that. The whole-run members use the corrected zone loop, which treats the zone as the track loop treats a track.
- **Pad pairing.** Pads are paired by position (`zip`, which stops at the shorter list), and the pad names of each pair must agree (an `assert`). They are not matched by name.
- **Missing or mismatched clones.** During net mapping, a missing clone or a footprint mismatch is a plain `return`. Net mapping runs before placement, so nothing has moved yet and the board is unchanged. During placement, a missing clone only prints a message.
- **No comment zone.** Without a comment zone the run fails at line 63: `templateRect` is `None`. The model includes this case.

## Model

| member | source | states |
|---|---|---|
| Board.FlipSideSwaps | layout_cloner.py:141-142 | Flip moves a module on a copper side to the other side; two flips bring it back |
| Board.FindModule | layout_cloner.py:136 | FindModuleByReference: a found index names a module carrying exactly that reference (first match and None are in FindModuleIsFirst) |
| Board.FindModuleIsFirst | layout_cloner.py:136 | FindModuleByReference answers the first module with that reference, and None exactly when no module has it |
| Board.FindModuleSameReferences | layout_cloner.py:136 | two module lists with the same references answer every lookup alike |
| Board.Board.constructor | layout_cloner.py:51 | the board holds the four given lists |
| Board.Board.UpdateModule | layout_cloner.py:145-146 | the setters of one module replace that module and change nothing else |
| Board.Board.Add | layout_cloner.py:170 | BOARD.Add puts the zone at the end of the zone list, nothing else changes |
| Board.Board.AppendTrack | layout_cloner.py:188 | the track goes to the end of the track list, nothing else changes |
| Board.Board.AppendDrawing | layout_cloner.py:201 | the drawing goes to the end of the drawing list, nothing else changes |
| Geometry.TimesIsProduct | layout_cloner.py:53 | the repeated sum used for `clonesX * clonesY` and `i * templateRefModulo` is the product |
| Geometry.FloorDivPositive | layout_cloner.py:144 | Python's `//` by a positive divisor leaves a remainder in [0, b) |
| Geometry.FloorDivMod | layout_cloner.py:144 | Python's division law `a == b*(a//b) + a%b`, the remainder carrying the divisor's sign |
| Geometry.CloneIndexHasColumns | layout_cloner.py:144 | a clone index exists only when clonesX is non-zero, so `i % clonesX` never divides by zero |
| Geometry.Offset | layout_cloner.py:144 | the offset `(i % clonesX * dx, i // clonesX * dy)` with Python's floor `%` and `//`; its meaning is GridCell, OffsetsDistinct and FourColumnsIndexFive |
| Geometry.GridCell | layout_cloner.py:144 | clone i sits in column `i % clonesX` and row `i // clonesX`, and its offset is (column*dx, row*dy) |
| Geometry.OffsetsDistinct | layout_cloner.py:165 | with non-zero dx and dy, two different clone indices never share an offset |
| Geometry.FourColumnsIndexFive | layout_cloner.py:165 | with four columns, clone 5 is offset by (dx, dy) |
| References.ParseRef | layout_cloner.py:73-74 | `re.match('([A-Za-z]+)([0-9]+)')` then `int`; stated by LetterRunIsLongest, DigitRunIsLongest, ParsedRefShape and the round trips below |
| References.FormatRef | layout_cloner.py:89 | `'%s%d' % (prefix, n)`; stated by ParseFormattedRef and FormatRefInjective |
| References.CloneRef | layout_cloner.py:92-93 | the reference of clone i, number `index + i*templateRefModulo`; stated by CloneRefsDistinct, CloneRefIsNotTemplateRef and HundredModuloClones |
| References.LetterRunIsLongest | layout_cloner.py:73 | the prefix group is the longest run of leading letters |
| References.DigitRunIsLongest | layout_cloner.py:73 | the number group is the longest run of digits after the letters |
| References.NatDigitsCanonical | layout_cloner.py:89 | `'%d'` of a natural number is a canonical digit string whose value is that number |
| References.CanonicalDigitsRoundTrip | layout_cloner.py:74 | `'%d' % int(ds)` gives back a canonical digit string ds |
| References.ParseLettersDigits | layout_cloner.py:73-74 | letters followed by digits parse to that prefix and the digits' value |
| References.ParseFormattedRef | layout_cloner.py:89 | parsing `'%s%d' % (prefix, n)` gives back prefix and n |
| References.FormatParsedRef | layout_cloner.py:73-89 | a reference with no leading zeros and no trailing characters is rebuilt exactly by `'%s%d'` after parsing |
| References.FormatRefInjective | layout_cloner.py:93 | distinct non-negative numbers give distinct references |
| References.CloneRefsDistinct | layout_cloner.py:92-93 | with a non-zero modulo, different clone indices look up different references |
| References.CloneRefIsNotTemplateRef | layout_cloner.py:92-93 | with a positive modulo no clone index from 1 on looks up the template itself |
| References.ParsedRefShape | layout_cloner.py:73-74 | a parsed reference has a non-empty letter prefix and a non-negative number |
| References.LeadingZeroIsDropped | layout_cloner.py:73-89 | "D0201" parses to D and 201, and the template is then looked up as "D201" |
| References.HundredModuloClones | layout_cloner.py:92-93 | template D201 with modulo 100 has the clones D301, D401 and D501 |
| Template.FindCommentZone | layout_cloner.py:57-63 | the run goes on iff exactly one zone lies on layer 41, and then with its bounding box; a second one trips the assert, none fails at line 63 |
| Template.CommentZoneCountPrefix | layout_cloner.py:58-61 | a prefix of the zone list never has more comment zones than the list |
| Template.AllParseMeaning | layout_cloner.py:72-73 | the scan gets past the regular expression iff every reference matches |
| Template.AllParsePrefix | layout_cloner.py:72-73 | a scan that parses all modules parses every prefix and every module |
| Template.TemplateRefs | layout_cloner.py:75-81 | the `modulesToClone` list: parsed references of contained modules, in board order; stated by TemplateRefsMembership and TemplateRefsLength |
| Template.RangeWarnings | layout_cloner.py:75-80 | the outside and unexpected-module messages, in board order; stated by OutsideWarningMeaning and UnexpectedModuleMeaning |
| Template.TemplateRefsMembership | layout_cloner.py:75-81 | a reference is a template module iff a module the rectangle contains parses to it, whatever its number |
| Template.TemplateRefsLength | layout_cloner.py:81 | at most one template entry per module |
| Template.RangeWarningOutside | layout_cloner.py:75-77 | one module's message is the outside warning iff it is outside the rectangle and numbered in the template range |
| Template.RangeWarningInside | layout_cloner.py:78-80 | one module's message is the unexpected-module error iff it is inside and numbered outside the range |
| Template.OutsideWarningMeaning | layout_cloner.py:72-77 | the scan warns about reference s iff some module s lies outside the rectangle with an in-range number |
| Template.UnexpectedModuleMeaning | layout_cloner.py:72-80 | the scan reports reference s iff some module s lies inside the rectangle with an out-of-range number |
| Template.SelectTemplate | layout_cloner.py:72-81 | the template list and messages of the scan, or the first reference the regular expression rejects |
| Votes.Tally | layout_cloner.py:104-110 | the `setdefault`/`+= 1` vote loop over zipped pad pairs; stated by TallyAppend, TallyCounts and FreshTally |
| Votes.TallyAppend | layout_cloner.py:104-110 | voting two runs of pairs is voting one after the other |
| Votes.TallyCounts | layout_cloner.py:104-110 | voting adds exactly the pair counts to every entry, and creates rows exactly for voted template nets |
| Votes.AddVoteCounts | layout_cloner.py:108-110 | one `setdefault`/`+= 1` adds one to its own entry only |
| Votes.VotedSnoc | layout_cloner.py:104-110 | a template net is voted by a list of pairs iff it is voted before the last pair or by it |
| Votes.FreshTally | layout_cloner.py:87-110 | `netVotes[t][c]` is the number of zipped pairs voting t -> c, and rows and entries exist exactly for voted nets |
| Votes.SeveralKeys | layout_cloner.py:118 | `len(votes) > 1` iff two different clone nets are in the row |
| Votes.DisputedRow | layout_cloner.py:116-119 | the non-unanimous message is printed iff two different clone nets got votes |
| Votes.OnlyVotedWin | layout_cloner.py:123 | the winner of `max(votes, key=votes.get)` got votes, and at least as many as any other clone net |
| Votes.CountSnoc | layout_cloner.py:110 | one more pair adds one to its own count only |
| Votes.UnanimousVote | layout_cloner.py:116-123 | two pairs voting 5 -> 12: the row holds only 12, no message, and 12 is the only possible winner |
| Votes.MajorityVote | layout_cloner.py:116-123 | three pairs voting 5 -> 7 and one 5 -> 9: a message, and 7 is the only possible winner |
| Votes.TallyPads | layout_cloner.py:104-110 | the pad loop votes every zipped pair, and fails iff two zipped pads have different names |
| Votes.ChooseClone | layout_cloner.py:123 | `max` returns a clone net with the most votes, in an iteration order left open |
| Votes.RowOf | layout_cloner.py:122 | a new row has numberOfClones + 1 slots |
| Votes.RecordAll | layout_cloner.py:122-123 | recording winners keeps every row at numberOfClones + 1 slots |
| Votes.RecordAllRows | layout_cloner.py:116-123 | each voted net's row gets its winner in slot i and keeps its other slots; other rows stay |
| Votes.IterationOrder | layout_cloner.py:116 | `for templateCode in netVotes` visits every key once |
| Votes.RecordClone | layout_cloner.py:116-123 | the recording loop writes a most-voted winner for every voted net into slot i and prints one message per disputed net |
| NetMapping.PairUp | layout_cloner.py:90-102 | the lookups of clone and template module and the footprint check for one template module and clone i |
| NetMapping.Halt | layout_cloner.py:95-105 | how clone i stops at one template module: `return` for a missing clone or another footprint, a raise for a missing template or differing pad names; stated by CloneGoesThroughMeaning and MapNetsHalts |
| NetMapping.GoesThroughPrefix | layout_cloner.py:88-105 | a clone that gets past all template modules gets past every prefix and every one of them |
| NetMapping.CloneGoesThroughMeaning | layout_cloner.py:88-105 | clone i gets through iff no template module halts it (missing clone, other footprint, missing template, pad names) |
| NetMapping.MostVotedIsMostCounted | layout_cloner.py:123 | slot i of row t holds a clone net with the most pair votes for t |
| NetMapping.RecordCloneKeys | layout_cloner.py:122 | after clone i the map has rows exactly for the nets voted at clones 1 .. i |
| NetMapping.RecordCloneSlots | layout_cloner.py:122-123 | after clone i each slot 1 .. i holds a most voted clone net, or None when that clone did not vote the net |
| NetMapping.RecordCloneEmpty | layout_cloner.py:122 | slot 0 and the slots of later clones stay None |
| NetMapping.RecordCloneStep | layout_cloner.py:116-123 | recording clone i extends a net map done up to i to one done up to i + 1 |
| NetMapping.TallyClone | layout_cloner.py:88-110 | clone i's vote table is the tally of all zipped pairs, or the first template module that halts the run |
| NetMapping.CloneWarnings | layout_cloner.py:116-119 | clone i prints a non-unanimous message for net t iff its votes for t are disputed |
| NetMapping.WarnedAll | layout_cloner.py:86-119 | after the last clone, the messages are exactly the disputed (net, clone) pairs |
| NetMapping.MapNetsHalts | layout_cloner.py:96-105 | the first clone that cannot be voted ends the run at its first failing template module |
| NetMapping.MapNetsDone | layout_cloner.py:86-123 | after the last clone, the loop's facts are the promises of MapNets |
| NetMapping.MapClone | layout_cloner.py:86-123 | one turn of the clone loop: the extended net map and its messages, or the halt |
| NetMapping.MapNets | layout_cloner.py:86-123 | the complete net map and its messages iff no clone halts; otherwise the outcome of the first halt in loop order |
| Placement.PlacedClone | layout_cloner.py:141-155 | one pass on a clone module; stated by PlacedCloneMeaning, PlacedCloneIdempotent and PlacedCloneFlipsBack |
| Placement.PlacedCloneMeaning | layout_cloner.py:141-155 | a placed clone sits at the target, turned like the template, its texts styled like the template's reference text, its reference, footprint and pads kept |
| Placement.PlacedCloneIdempotent | layout_cloner.py:141-155 | placing a copper-side clone twice is placing it once (positions are absolute) |
| Placement.PlacedCloneFlipsBack | layout_cloner.py:141-142 | a template off the copper sides makes each pass flip the clone again |
| Placement.PlaceStep | layout_cloner.py:136-146 | one clone pass keeps the module count |
| Placement.PlaceRun | layout_cloner.py:132-155 | the clone loop of one template keeps the module count |
| Placement.PlaceStepAt | layout_cloner.py:136-146 | one pass changes only the clone it finds |
| Placement.PlaceRunKeepsReferences | layout_cloner.py:132-155 | placing never renames a module |
| Placement.PlaceRunFindsSame | layout_cloner.py:136 | every lookup after a run finds what it found before |
| Placement.MissingClonesMeaning | layout_cloner.py:136-139 | a missing-clone message names exactly a clone index whose reference finds no module; the loop goes on |
| Placement.PlaceRunKeepsTemplate | layout_cloner.py:132-146 | with a positive modulo the loop never touches the template module |
| Placement.PlaceRunPlacesLast | layout_cloner.py:136-155 | the last pass turns its clone, as it was, into PlacedClone against the template: flipped iff its layer differs, at the template position plus the offset, turned like the template, both texts styled like the template's reference text |
| Placement.PlaceRunKeepsPlaced | layout_cloner.py:132-155 | a later pass leaves an earlier placed clone exactly as it was placed (layer, position, orientation, texts) |
| Placement.PlaceRunPlacesOne | layout_cloner.py:132-155 | after the loop, clone i is its original module placed against the template: layer, position, orientation and both text styles |
| Placement.EarlierClonesDiffer | layout_cloner.py:133-136 | with a positive modulo, no earlier clone index looks up the module clone i finds |
| Placement.PlaceRunKeepsOthers | layout_cloner.py:132-155 | a module no clone index looks up leaves the loop unchanged |
| Placement.PlaceRunPlaces | layout_cloner.py:129-155 | after the loop every existing clone is placed against the template (flip iff the layer differs, position, orientation, both text styles) and every other module is unchanged |
| Placement.PlaceRunIdempotent | layout_cloner.py:129-155 | with every module on a copper side, running a template's clone loop again changes nothing |
| Placement.PlaceTemplate | layout_cloner.py:127-155 | one template: TemplateNotFound when its lookup fails, otherwise PlaceRun and MissingClones; stated by PlaceTemplateFails |
| Placement.PlaceAll | layout_cloner.py:126-155 | the placement phase keeps the module count |
| Placement.PlaceAllKeepsReferences | layout_cloner.py:126-155 | the placement phase renames nothing |
| Placement.PlaceTemplateFails | layout_cloner.py:128-129 | one template raises iff its reference finds no module |
| Placement.PlaceAllFails | layout_cloner.py:126-129 | the phase raises iff some template reference finds no module, and then TemplateNotFound |
| Placement.PlaceAllStopped | layout_cloner.py:126-129 | after the phase raises, the remaining templates change nothing |
| Placement.NoClonesNoPlacement | layout_cloner.py:132 | with fewer than two clones nothing moves and nothing is reported |
| Placement.NothingToPlace | layout_cloner.py:132 | with fewer than two clones one template's loop is empty |
| Placement.PlaceOneClone | layout_cloner.py:136-146 | one pass on the board: the modules of PlaceStep and the message of a missing clone |
| Placement.PlaceTemplateClones | layout_cloner.py:131-155 | the clone loop on the board: the modules of PlaceRun, the messages of MissingClones, the other lists unchanged |
| Placement.PlaceClones | layout_cloner.py:126-156 | the placement phase on the board: modules, messages and exception of PlaceAll, the other lists unchanged |
| Replication.RemapNetMeaning | layout_cloner.py:166-167 | a net is unmapped iff no clone voted it; a copy for clone i gets the most voted net iff clone i voted it; otherwise its slot is None |
| Replication.Indices | layout_cloner.py:163 | the clone indices 1 .. upto-1, in order |
| Replication.UnknownNets | layout_cloner.py:185 | an unmapped net prints one message per copy |
| Replication.NetCopies | layout_cloner.py:179-186 | the copy loop of one item by clone index (copies, messages, first raise); stated by NetCopiesDone, NetCopiesRaises and NetCopiesMeaning |
| Replication.CloneIndicesCounted | layout_cloner.py:163 | `range(1, numberOfClones)` visits CloneCount indices, exactly the clone indices, in increasing order |
| Replication.NetCopiesDone | layout_cloner.py:179-186 | a copy loop that goes through copies for every clone index and meets no unset slot |
| Replication.NetCopiesRaises | layout_cloner.py:179-186 | a copy loop that raises stops at the first unset slot, after copying for the clones before it |
| Replication.NetCopiesMeaning | layout_cloner.py:179-186 | the copy loop raises iff some clone's slot is None, then at the first one; otherwise it copies for every index |
| Replication.NetCopiesStopped | layout_cloner.py:179-186 | once the copy loop raised, later indices add nothing |
| Replication.ZoneClonesAt | layout_cloner.py:164-165 | copy k is the zone moved by the k-th clone index's offset |
| Replication.UnknownZoneNetRaises | layout_cloner.py:166-169 | as written a zone on an unmapped net raises; corrected it gets a copy on the template net per clone, with a message |
| Replication.ZoneCopies | layout_cloner.py:163-170 | the copies of one zone as corrected: an unmapped net keeps the template net, with a message; stated by ZoneCopiesAll, ZoneCopiesOnly and UnknownZoneNetRaises |
| Replication.ZoneCopyAsWritten | layout_cloner.py:164-170 | one copy of a zone as written: an unmapped net raises UnboundLocalError at line 169 |
| Replication.ZoneCopiesAsWritten | layout_cloner.py:163-170 | the copy loop of one zone as written |
| Replication.ZoneCopiesAsWrittenAgrees | layout_cloner.py:163-170 | on a net in the net map, the copy loop as written and as corrected give the same copies, messages and exception |
| Replication.ZoneCopiesAsWrittenUnmapped | layout_cloner.py:166-169 | on a net not in the net map, with two or more clones, the copy loop as written raises UnboundLocalError at clone 1 before adding anything |
| Replication.ZoneCopiesAsWrittenFails | layout_cloner.py:163-170 | the copy loop of one zone as written raises iff some clone index finds no clone net (net unmapped or slot None) |
| Replication.ZonePhase | layout_cloner.py:158-170 | the zone loop as corrected; stated by ZonePhaseFails, ZonePhaseAll, ZonePhaseOnly and ZonePhaseCount |
| Replication.ZonePhaseAsWritten | layout_cloner.py:158-170 | the zone loop as written |
| Replication.ZonePhaseAsWrittenAgrees | layout_cloner.py:158-170 | when every zone the loop copies is on a net in the net map (or there is one clone), the loop as written and as corrected agree |
| Replication.ZonePhaseAsWrittenFails | layout_cloner.py:158-170 | the zone loop as written raises iff a zone it copies finds no clone net at some clone index, whether its net is unmapped (line 169) or its slot is None (line 167) |
| Replication.ZoneCopiesAll | layout_cloner.py:163-170 | a zone whose copies go through is cloned for every clone index |
| Replication.ZoneCopiesOnly | layout_cloner.py:163-170 | the copies of a zone are nothing but its clones |
| Replication.ZonePhaseRaisesOnly | layout_cloner.py:158-170 | the corrected zone loop raises only at a copied zone with an unset slot |
| Replication.ZonePhaseRaisesAt | layout_cloner.py:158-170 | a copied zone with an unset slot makes the zone loop raise |
| Replication.ZonePhaseFails | layout_cloner.py:158-170 | the corrected zone loop raises iff a zone it copies has a None slot at some clone index |
| Replication.ZonePhaseAll | layout_cloner.py:158-170 | a zone loop that goes through clones every qualifying zone for every clone index |
| Replication.ZonePhaseOnly | layout_cloner.py:158-170 | the zone loop adds nothing but clones of qualifying zones |
| Replication.ZonePhaseNoClones | layout_cloner.py:163 | with a single clone the zone loop adds nothing |
| Replication.ZonePhaseLength | layout_cloner.py:158-170 | a zone loop that goes through adds one copy per qualifying zone and clone index |
| Replication.ZonePhaseCount | layout_cloner.py:158-170 | a zone loop that goes through adds exactly (numberOfClones - 1) copies of every qualifying zone |
| Replication.ZonePhaseStopped | layout_cloner.py:158-170 | once the zone loop raised, the later zones add nothing |
| Replication.ZoneClonesAppend | layout_cloner.py:163-170 | the clones for two runs of indices, one after the other |
| Replication.AddZoneCopy | layout_cloner.py:164-170 | one copy is added to the zone list, or SetNetCode(None) raises |
| Replication.CloneZone | layout_cloner.py:163-170 | the copies of one zone are added to the board as they are made |
| Replication.CloneZones | layout_cloner.py:158-171 | the zone list grows by the copies of ZonePhase over the zones present before the loop |
| Replication.TrackClonesAt | layout_cloner.py:180-181 | copy k is the track moved by the k-th clone index's offset |
| Replication.TrackCopiesAll | layout_cloner.py:179-186 | a track whose copies go through is cloned for every clone index |
| Replication.TrackCopiesOnly | layout_cloner.py:179-186 | the copies of a track are nothing but its clones |
| Replication.TrackPhase | layout_cloner.py:176-186 | the track loop; stated by TrackPhaseFails, TrackPhaseAll, TrackPhaseOnly and TrackPhaseCount |
| Replication.TrackPhaseRaisesOnly | layout_cloner.py:176-186 | the track loop raises only at a hit track with an unset slot |
| Replication.TrackPhaseRaisesAt | layout_cloner.py:176-186 | a hit track with an unset slot makes the track loop raise |
| Replication.TrackPhaseFails | layout_cloner.py:176-186 | the track loop raises iff a track it hits has a None slot at some clone index |
| Replication.TrackPhaseAll | layout_cloner.py:176-186 | a track loop that goes through clones every hit track for every clone index |
| Replication.TrackPhaseOnly | layout_cloner.py:176-186 | the track loop adds nothing but clones of hit tracks |
| Replication.TrackPhaseNoClones | layout_cloner.py:179 | with a single clone the track loop adds nothing |
| Replication.TrackPhaseLength | layout_cloner.py:176-186 | a track loop that goes through adds one copy per hit track and clone index |
| Replication.TrackPhaseCount | layout_cloner.py:176-186 | a track loop that goes through adds exactly (numberOfClones - 1) copies of every hit track |
| Replication.TrackPhaseStopped | layout_cloner.py:176-186 | once the track loop raised, the later tracks add nothing |
| Replication.TrackClonesAppend | layout_cloner.py:179-186 | the clones for two runs of indices, one after the other |
| Replication.CopyTrack | layout_cloner.py:179-186 | the copy loop of one track yields TrackCopies |
| Replication.CloneTracks | layout_cloner.py:174-189 | copies are collected and appended only after the scan of the original tracks; a raise leaves the track list as it was |
| Replication.DrawingCopiesAt | layout_cloner.py:196-199 | one copy per clone index, copy i - 1 moved by clone i's offset |
| Replication.DrawingCopiesMembers | layout_cloner.py:196-199 | the copies of a drawing are exactly the drawing moved by every clone's offset |
| Replication.DrawingPhase | layout_cloner.py:194-199 | the drawing loop; stated by DrawingPhaseMembers and DrawingPhaseCount |
| Replication.DrawingPhaseLength | layout_cloner.py:194-199 | the drawing loop adds one copy per hit drawing and clone index |
| Replication.DrawingPhaseCount | layout_cloner.py:194-199 | the drawing loop adds exactly (numberOfClones - 1) copies of every hit drawing |
| Replication.DrawingPhaseMembers | layout_cloner.py:194-199 | the drawing loop adds exactly the hit drawings moved by every clone's offset |
| Replication.CopyDrawing | layout_cloner.py:196-199 | the copy loop of one drawing yields DrawingCopies |
| Replication.CloneDrawings | layout_cloner.py:192-202 | the drawing list grows by DrawingPhase over the drawings present before the scan |
| Cloner.NetMapOfRowsFit | layout_cloner.py:122 | every net-map row has numberOfClones + 1 slots |
| Cloner.RunWith | layout_cloner.py:126-202 | the phases after the net map, given what the zone loop does; first raise ends the run |
| Cloner.Replicated | layout_cloner.py:126-202 | the phases after the net map with the corrected zone loop; stated by the Replicated lemmas below |
| Cloner.ReplicatedAsWritten | layout_cloner.py:126-202 | the phases after the net map with the zone loop as written |
| Cloner.ReplicatedAsWrittenAgrees | layout_cloner.py:158-170 | the run as written is the run as corrected unless a zone it copies is on a net no clone voted for |
| Cloner.ReplicatedAsWrittenCompletes | layout_cloner.py:126-202 | as written, the run completes iff every template is found, every copied zone finds a clone net at every clone index (no unmapped net, no None slot), and no copied track meets a None slot |
| Cloner.ReplicatedCompletes | layout_cloner.py:126-202 | with the corrected zone loop, after the net map the run completes iff every template is found and no copied zone or track meets a None slot; it never returns quietly |
| Cloner.ReplicatedOnlyAdds | layout_cloner.py:126-202 | modules keep their references; zones, tracks and drawings stay at the front of their lists; a raise adds no track or drawing |
| Cloner.ReplicatedAddsZones | layout_cloner.py:158-170 | a completed run adds exactly the clones of the qualifying zones |
| Cloner.ReplicatedAddsTracks | layout_cloner.py:174-189 | a completed run adds exactly the clones of the hit tracks |
| Cloner.ReplicatedAddsDrawings | layout_cloner.py:191-202 | a completed run adds exactly the hit drawings moved by every clone offset |
| Cloner.ReplicatedCounts | layout_cloner.py:158-202 | a completed run adds (numberOfClones - 1) zones, tracks and drawings per qualifying item |
| Cloner.ReplicatedNoClones | layout_cloner.py:132-202 | with a single clone a run that finds its templates changes nothing and reports nothing |
| Cloner.Replicate | layout_cloner.py:126-202 | the phases after the net map on the board end as Replicated says, which is ReplicatedAsWritten whenever every copied zone is on a voted net |
| Cloner.DoClone | layout_cloner.py:50-202 | no single comment zone, an unparsable reference, or a halting clone ends the run with the board untouched; otherwise the board ends as Replicated says, after the scan and vote messages, and as ReplicatedAsWritten says whenever every copied zone is on a voted net |

## Left out

- **Host geometry.**
  - HitTest of tracks and drawings is a parameter, because its geometry is host code.
  - The comment zone's bounding box is a field of the zone.
  - `Contains` is a closed-box test.
  - `Flip` is reduced to swapping front and back copper (layers 0 and 31). Mirroring the footprint is host code.
- **`Duplicate` and `Move`.** They are value copies and translations. Pads and text positions inside a zone or track are not modelled.
- **`FromMM`.** It is floating point (lines 44-45); dx and dy are given integers.
- **Settings and top-level call.** The settings and the call of `do_clone` (lines 40-47, 204-206) become the `Config` value, and the board is a parameter (`pcbnew.GetBoard`).
- **Console output.**
  - Messages become `Warning` values.
  - Progress lines (63, 156, 171, 189, 202) and the vote listing (120-121) are not modelled.
  - The `netNames` dictionary (lines 111-114) only feeds messages. The non-unanimous message carries the net code instead of the net name.
- **`SetNetCode(None)`.** A duplicate whose net-map slot is `None` is assumed to raise, as the host's integer conversion does. This happens when clone i voted nothing for a net another clone voted.
- **Dictionary iteration order.**
  - The order of `for templateCode in netVotes` is left open.
  - Ties in `max` are open among the most voted.
- **`is not` on layers.** Line 141 compares layers with `is not` and line 162 compares a zone's layer with `is not 41`. Both are modelled as `!=`, which is what CPython does for small integers.
- **Modules on other layers.** Modules off the copper sides are not flipped.
- **The zone loop of the whole run.** The members below follow the corrected zone loop, where a zone on a net no clone voted for gets duplicates on its template net with a warning. As written, line 169 raises UnboundLocalError there, before line 170 adds the duplicate. `Replication.ZonePhaseAsWritten`, `Replication.ZonePhaseAsWrittenFails`, `Cloner.ReplicatedAsWritten` and `Cloner.ReplicatedAsWrittenCompletes` state the program as written. `Cloner.ReplicatedAsWrittenAgrees` shows that the two agree whenever every copied zone is on a voted net.
- Replication.ZonePhase: the corrected zone loop; as written, a qualifying zone on an unmapped net raises (ZonePhaseAsWritten).
- Replication.ZonePhaseRaisesOnly: about the corrected loop; as written the loop also raises at a qualifying zone on an unmapped net (ZonePhaseAsWrittenFails).
- Replication.ZonePhaseFails: about the corrected loop; the as-written iff, including the unmapped net, is ZonePhaseAsWrittenFails.
- Replication.AddZoneCopy: for an unmapped net it adds a duplicate with a warning, where line 169 raises before line 170.
- Replication.CloneZone: follows ZoneCopies, the corrected copy loop of one zone, not ZoneCopiesAsWritten.
- Replication.CloneZones: ends as the corrected ZonePhase; as written, an unmapped zone net raises UnboundLocalError.
- Cloner.Replicated: runs the corrected zone loop; ReplicatedAsWritten is the run as written.
- Cloner.ReplicatedCompletes: about the corrected run; ReplicatedAsWrittenCompletes adds the raise for a copied zone on an unmapped net.
- Cloner.Replicate: ends as Replicated; it equals ReplicatedAsWritten only when every copied zone is on a voted net.
- Cloner.DoClone: ends as Replicated; when a copied zone is on a net no clone voted for, it ends Completed where the program as written raises UnboundLocalError.
- Template.SelectTemplate: the messages printed before an unparsable reference ends the run are not stated.
- NetMapping.MapNets: the messages of the clones before a halting clone are not stated.
- Cloner.DoClone: the warnings of a run that ends in the module scan or the net map are not stated. The board being unchanged in those cases is stated.

## Findings

| source | as written | input that shows it | evidently intended | confidence | as-written member | corrected member |
|---|---|---|---|---|---|---|
| layout_cloner.py:169 | the zone loop's message for an unmapped net reads `track`, a local of `do_clone` first bound at line 176, so it raises UnboundLocalError | a zone in the rectangle, not on layer 41, whose net no clone pad voted, with two or more clones | print the warning and keep the duplicate on the template net, as the track loop does at lines 182-186 | high, not executed | Replication.ZoneCopyAsWritten | Replication.ZoneCopies |
