/**
 * do_clone (layout_cloner.py:50-202) end to end: find the comment zone, pick
 * the template modules, map the template nets to clone nets, place the clone
 * modules, then replicate zones, tracks and drawings, each phase able to end
 * the run before the next.
 */
module Cloner {
  import opened Wrappers
  import opened Geometry
  import opened References
  import opened Board
  import opened Diagnostics
  import opened Votes
  import opened Template
  import opened NetMapping
  import opened Placement
  import opened Replication

  /** How a run ended, the board's lists after it, and the messages it printed from placement on. */
  datatype Run = Run(outcome: Outcome, modules: seq<Module>, zones: seq<Zone>, tracks: seq<Track>,
                     drawings: seq<Drawing>, warnings: seq<Warning>)

  /**
   * nm is the net map the clone loop of layout_cloner.py:86-123 builds for the
   * template references ts: empty with a single clone, otherwise the map
   * NetMapUpTo describes for the votes of every clone.
   */
  ghost predicate NetMapOf(ms: seq<Module>, ts: seq<Ref>, cfg: Config, nm: NetMap)
  {
    if CloneCount(cfg) == 0 then nm == map[]
    else var pss := AllClonePairs(ms, ts, cfg, CloneCount(cfg) + 1); NetMapUpTo(pss, |pss|, nm)
  }

  /** The net map has a slot for every clone index in every row (`[None]*(numberOfClones+1)`). */
  lemma NetMapOfRowsFit(ms: seq<Module>, ts: seq<Ref>, cfg: Config, nm: NetMap)
    requires NetMapOf(ms, ts, cfg, nm)
    ensures RowsFit(nm, cfg)
  {
  }

  /**
   * The phases after the net map (layout_cloner.py:126-202) on the lists ms,
   * zs, trs and gs, given zc, what the zone loop over zs does: placement,
   * then the zone loop, which adds its copies as it goes, then the track
   * loop, whose copies reach the board only once it is done, then the
   * drawing loop. The first phase that raises ends the run.
   */
  function RunWith(ms: seq<Module>, zs: seq<Zone>, trs: seq<Track>, gs: seq<Drawing>, rect: Rect,
                   ts: seq<Ref>, nm: NetMap, cfg: Config,
                   trackHit: (Track, Rect) -> bool, drawingHit: (Drawing, Rect) -> bool, zc: Copies<Zone>): Run
    requires RowsFit(nm, cfg)
  {
    var placed := PlaceAll(ms, ts, cfg);
    if placed.failed.Some? then Run(Raised(placed.failed.value), placed.modules, zs, trs, gs, placed.warnings)
    else
      var zoned := zs + zc.items;
      if zc.failed.Some? then Run(Raised(zc.failed.value), placed.modules, zoned, trs, gs, placed.warnings + zc.warnings)
      else
        var tc := TrackPhase(trs, trackHit, rect, nm, cfg);
        var warned := placed.warnings + zc.warnings + tc.warnings;
        if tc.failed.Some? then Run(Raised(tc.failed.value), placed.modules, zoned, trs, gs, warned)
        else Run(Completed, placed.modules, zoned, trs + tc.items, gs + DrawingPhase(gs, drawingHit, rect, cfg), warned)
  }

  /** The phases after the net map, with the zone loop as corrected (a zone on an unvoted net keeps its net). */
  function Replicated(ms: seq<Module>, zs: seq<Zone>, trs: seq<Track>, gs: seq<Drawing>, rect: Rect,
                      ts: seq<Ref>, nm: NetMap, cfg: Config,
                      trackHit: (Track, Rect) -> bool, drawingHit: (Drawing, Rect) -> bool): Run
    requires RowsFit(nm, cfg)
  {
    RunWith(ms, zs, trs, gs, rect, ts, nm, cfg, trackHit, drawingHit, ZonePhase(zs, rect, nm, cfg))
  }

  /** The phases after the net map with the zone loop as layout_cloner.py:158-170 is written. */
  function ReplicatedAsWritten(ms: seq<Module>, zs: seq<Zone>, trs: seq<Track>, gs: seq<Drawing>, rect: Rect,
                               ts: seq<Ref>, nm: NetMap, cfg: Config,
                               trackHit: (Track, Rect) -> bool, drawingHit: (Drawing, Rect) -> bool): Run
    requires RowsFit(nm, cfg)
  {
    RunWith(ms, zs, trs, gs, rect, ts, nm, cfg, trackHit, drawingHit, ZonePhaseAsWritten(zs, rect, nm, cfg))
  }

  /** The run as written is the run as corrected unless a zone it copies is on a net no clone voted for. */
  lemma ReplicatedAsWrittenAgrees(ms: seq<Module>, zs: seq<Zone>, trs: seq<Track>, gs: seq<Drawing>, rect: Rect,
                                  ts: seq<Ref>, nm: NetMap, cfg: Config,
                                  trackHit: (Track, Rect) -> bool, drawingHit: (Drawing, Rect) -> bool)
    requires RowsFit(nm, cfg) && ZoneNetsKnown(zs, rect, nm, cfg)
    ensures ReplicatedAsWritten(ms, zs, trs, gs, rect, ts, nm, cfg, trackHit, drawingHit)
         == Replicated(ms, zs, trs, gs, rect, ts, nm, cfg, trackHit, drawingHit)
  {
    ZonePhaseAsWrittenAgrees(zs, rect, nm, cfg);
  }

  /**
   * The run as written completes exactly when every template reference names
   * a module, every zone it copies finds a clone net at every clone index,
   * and no track it copies meets an unset net-map slot.
   */
  lemma ReplicatedAsWrittenCompletes(ms: seq<Module>, zs: seq<Zone>, trs: seq<Track>, gs: seq<Drawing>, rect: Rect,
                                     ts: seq<Ref>, nm: NetMap, cfg: Config,
                                     trackHit: (Track, Rect) -> bool, drawingHit: (Drawing, Rect) -> bool)
    requires RowsFit(nm, cfg)
    ensures var run := ReplicatedAsWritten(ms, zs, trs, gs, rect, ts, nm, cfg, trackHit, drawingHit);
      run.outcome == Completed <==>
        && AllTemplatesFound(ms, ts)
        && !(exists k, i :: 0 <= k < |zs| && ZoneQualifies(zs[k], rect) && IsCloneIndex(cfg, i)
                            && !RemapNet(nm, zs[k].net, i).Remapped?)
        && !(exists k, i :: 0 <= k < |trs| && trackHit(trs[k], rect) && IsCloneIndex(cfg, i)
                            && RemapNet(nm, trs[k].net, i) == SlotUnset)
  {
    PlaceAllFails(ms, ts, cfg);
    ZonePhaseAsWrittenFails(zs, rect, nm, cfg);
    TrackPhaseFails(trs, trackHit, rect, nm, cfg);
  }

  /**
   * The run completes exactly when every template reference names a module
   * and no zone or track it copies meets an unset net-map slot; it never
   * returns quietly after the net map is built.
   */
  lemma ReplicatedCompletes(ms: seq<Module>, zs: seq<Zone>, trs: seq<Track>, gs: seq<Drawing>, rect: Rect,
                            ts: seq<Ref>, nm: NetMap, cfg: Config,
                            trackHit: (Track, Rect) -> bool, drawingHit: (Drawing, Rect) -> bool)
    requires RowsFit(nm, cfg)
    ensures var run := Replicated(ms, zs, trs, gs, rect, ts, nm, cfg, trackHit, drawingHit);
      run.outcome == Completed <==>
        && AllTemplatesFound(ms, ts)
        && !(exists k, i :: 0 <= k < |zs| && ZoneQualifies(zs[k], rect) && IsCloneIndex(cfg, i)
                            && RemapNet(nm, zs[k].net, i) == SlotUnset)
        && !(exists k, i :: 0 <= k < |trs| && trackHit(trs[k], rect) && IsCloneIndex(cfg, i)
                            && RemapNet(nm, trs[k].net, i) == SlotUnset)
    ensures !Replicated(ms, zs, trs, gs, rect, ts, nm, cfg, trackHit, drawingHit).outcome.Returned?
  {
    PlaceAllFails(ms, ts, cfg);
    ZonePhaseFails(zs, rect, nm, cfg);
    TrackPhaseFails(trs, trackHit, rect, nm, cfg);
  }

  /**
   * Nothing is removed: the modules keep their references and their number,
   * and the zones, tracks and drawings the board had stay at the front of
   * their lists. A run that raises has added no track and no drawing.
   */
  lemma ReplicatedOnlyAdds(ms: seq<Module>, zs: seq<Zone>, trs: seq<Track>, gs: seq<Drawing>, rect: Rect,
                           ts: seq<Ref>, nm: NetMap, cfg: Config,
                           trackHit: (Track, Rect) -> bool, drawingHit: (Drawing, Rect) -> bool)
    requires RowsFit(nm, cfg)
    ensures var run := Replicated(ms, zs, trs, gs, rect, ts, nm, cfg, trackHit, drawingHit);
      && |run.modules| == |ms| && SameReferences(ms, run.modules)
      && |zs| <= |run.zones| && run.zones[..|zs|] == zs
      && |trs| <= |run.tracks| && run.tracks[..|trs|] == trs
      && |gs| <= |run.drawings| && run.drawings[..|gs|] == gs
    ensures var run := Replicated(ms, zs, trs, gs, rect, ts, nm, cfg, trackHit, drawingHit);
      run.outcome.Raised? ==> run.tracks == trs && run.drawings == gs
  {
    PlaceAllKeepsReferences(ms, ts, cfg);
    var run := Replicated(ms, zs, trs, gs, rect, ts, nm, cfg, trackHit, drawingHit);
    assert run.zones[..|zs|] == zs;
    assert run.tracks[..|trs|] == trs;
    assert run.drawings[..|gs|] == gs;
  }

  /** The zones a completed run adds are the clone of every qualifying zone for every clone index, and nothing else. */
  lemma ReplicatedAddsZones(ms: seq<Module>, zs: seq<Zone>, trs: seq<Track>, gs: seq<Drawing>, rect: Rect,
                             ts: seq<Ref>, nm: NetMap, cfg: Config,
                             trackHit: (Track, Rect) -> bool, drawingHit: (Drawing, Rect) -> bool)
    requires RowsFit(nm, cfg)
    requires Replicated(ms, zs, trs, gs, rect, ts, nm, cfg, trackHit, drawingHit).outcome == Completed
    ensures forall y :: y in Replicated(ms, zs, trs, gs, rect, ts, nm, cfg, trackHit, drawingHit).zones[|zs|..] <==>
      exists k, i :: 0 <= k < |zs| && ZoneQualifies(zs[k], rect) && IsCloneIndex(cfg, i) && y == ClonedZone(zs[k], nm, cfg, i)
  {
    assert Replicated(ms, zs, trs, gs, rect, ts, nm, cfg, trackHit, drawingHit).zones[|zs|..] == ZonePhase(zs, rect, nm, cfg).items;
    ZonePhaseAll(zs, rect, nm, cfg);
    ZonePhaseOnly(zs, rect, nm, cfg);
  }

  /** The tracks a completed run adds are the clone of every hit track for every clone index, and nothing else. */
  lemma ReplicatedAddsTracks(ms: seq<Module>, zs: seq<Zone>, trs: seq<Track>, gs: seq<Drawing>, rect: Rect,
                             ts: seq<Ref>, nm: NetMap, cfg: Config,
                             trackHit: (Track, Rect) -> bool, drawingHit: (Drawing, Rect) -> bool)
    requires RowsFit(nm, cfg)
    requires Replicated(ms, zs, trs, gs, rect, ts, nm, cfg, trackHit, drawingHit).outcome == Completed
    ensures forall y :: y in Replicated(ms, zs, trs, gs, rect, ts, nm, cfg, trackHit, drawingHit).tracks[|trs|..] <==>
      exists k, i :: 0 <= k < |trs| && trackHit(trs[k], rect) && IsCloneIndex(cfg, i) && y == ClonedTrack(trs[k], nm, cfg, i)
  {
    assert Replicated(ms, zs, trs, gs, rect, ts, nm, cfg, trackHit, drawingHit).tracks[|trs|..] == TrackPhase(trs, trackHit, rect, nm, cfg).items;
    TrackPhaseAll(trs, trackHit, rect, nm, cfg);
    TrackPhaseOnly(trs, trackHit, rect, nm, cfg);
  }

  /** The drawings a completed run adds are every hit drawing moved by every clone offset, and nothing else. */
  lemma ReplicatedAddsDrawings(ms: seq<Module>, zs: seq<Zone>, trs: seq<Track>, gs: seq<Drawing>, rect: Rect,
                             ts: seq<Ref>, nm: NetMap, cfg: Config,
                             trackHit: (Track, Rect) -> bool, drawingHit: (Drawing, Rect) -> bool)
    requires RowsFit(nm, cfg)
    requires Replicated(ms, zs, trs, gs, rect, ts, nm, cfg, trackHit, drawingHit).outcome == Completed
    ensures forall y :: y in Replicated(ms, zs, trs, gs, rect, ts, nm, cfg, trackHit, drawingHit).drawings[|gs|..] <==>
      exists k, i :: 0 <= k < |gs| && drawingHit(gs[k], rect) && IsCloneIndex(cfg, i) && y == MoveDrawing(gs[k], Offset(cfg, i))
  {
    assert Replicated(ms, zs, trs, gs, rect, ts, nm, cfg, trackHit, drawingHit).drawings[|gs|..] == DrawingPhase(gs, drawingHit, rect, cfg);
    DrawingPhaseMembers(gs, drawingHit, rect, cfg);
  }

  /**
   * A completed run adds numberOfClones - 1 zones per qualifying zone, and as
   * many tracks and drawings per track and drawing the rectangle hits.
   */
  lemma ReplicatedCounts(ms: seq<Module>, zs: seq<Zone>, trs: seq<Track>, gs: seq<Drawing>, rect: Rect,
                         ts: seq<Ref>, nm: NetMap, cfg: Config,
                         trackHit: (Track, Rect) -> bool, drawingHit: (Drawing, Rect) -> bool)
    requires RowsFit(nm, cfg)
    requires Replicated(ms, zs, trs, gs, rect, ts, nm, cfg, trackHit, drawingHit).outcome == Completed
    ensures |Replicated(ms, zs, trs, gs, rect, ts, nm, cfg, trackHit, drawingHit).zones| == |zs| + QualifyingZones(zs, rect) * CloneCount(cfg)
    ensures |Replicated(ms, zs, trs, gs, rect, ts, nm, cfg, trackHit, drawingHit).tracks| == |trs| + HitTracks(trs, trackHit, rect) * CloneCount(cfg)
    ensures |Replicated(ms, zs, trs, gs, rect, ts, nm, cfg, trackHit, drawingHit).drawings| == |gs| + HitCount(gs, drawingHit, rect) * CloneCount(cfg)
  {
    ZonePhaseCount(zs, rect, nm, cfg);
    TrackPhaseCount(trs, trackHit, rect, nm, cfg);
    DrawingPhaseCount(gs, drawingHit, rect, cfg);
  }

  /** With a single clone (the template itself) a run that gets through placement changes nothing and completes. */
  lemma ReplicatedNoClones(ms: seq<Module>, zs: seq<Zone>, trs: seq<Track>, gs: seq<Drawing>, rect: Rect,
                           ts: seq<Ref>, nm: NetMap, cfg: Config,
                           trackHit: (Track, Rect) -> bool, drawingHit: (Drawing, Rect) -> bool)
    requires RowsFit(nm, cfg) && CloneCount(cfg) == 0 && AllTemplatesFound(ms, ts)
    ensures Replicated(ms, zs, trs, gs, rect, ts, nm, cfg, trackHit, drawingHit) == Run(Completed, ms, zs, trs, gs, [])
  {
    PlaceAllFails(ms, ts, cfg);
    NoClonesNoPlacement(ms, ts, cfg);
    ZonePhaseNoClones(zs, rect, nm, cfg);
    TrackPhaseNoClones(trs, trackHit, rect, nm, cfg);
    DrawingPhaseCount(gs, drawingHit, rect, cfg);
    assert zs + [] == zs && trs + [] == trs && gs + [] == gs;
  }

  /**
   * The phases after the net map on the board (layout_cloner.py:126-202):
   * the board's lists and the printed messages become those of Replicated,
   * the run as written whenever every zone it copies is on a voted net.
   */
  method Replicate(board: Board, rect: Rect, ts: seq<Ref>, nm: NetMap, cfg: Config,
                   trackHit: (Track, Rect) -> bool, drawingHit: (Drawing, Rect) -> bool)
    returns (outcome: Outcome, warnings: seq<Warning>)
    requires RowsFit(nm, cfg)
    modifies board
    ensures var run := Replicated(old(board.modules), old(board.zones), old(board.tracks), old(board.drawings),
                                  rect, ts, nm, cfg, trackHit, drawingHit);
      && outcome == run.outcome && warnings == run.warnings
      && board.modules == run.modules && board.zones == run.zones
      && board.tracks == run.tracks && board.drawings == run.drawings
    ensures ZoneNetsKnown(old(board.zones), rect, nm, cfg) ==>
      Replicated(old(board.modules), old(board.zones), old(board.tracks), old(board.drawings), rect, ts, nm, cfg, trackHit, drawingHit)
      == ReplicatedAsWritten(old(board.modules), old(board.zones), old(board.tracks), old(board.drawings), rect, ts, nm, cfg, trackHit, drawingHit)
  {
    if ZoneNetsKnown(board.zones, rect, nm, cfg) {
      ReplicatedAsWrittenAgrees(board.modules, board.zones, board.tracks, board.drawings, rect, ts, nm, cfg, trackHit, drawingHit);
    }
    var placeFailed, placeWarnings := PlaceClones(board, ts, cfg);
    warnings := placeWarnings;
    if placeFailed.Some? {
      return Raised(placeFailed.value), warnings;
    }
    var zoneFailed, zoneWarnings := CloneZones(board, rect, nm, cfg);
    warnings := warnings + zoneWarnings;
    if zoneFailed.Some? {
      return Raised(zoneFailed.value), warnings;
    }
    var trackFailed, trackWarnings := CloneTracks(board, trackHit, rect, nm, cfg);
    warnings := warnings + trackWarnings;
    if trackFailed.Some? {
      return Raised(trackFailed.value), warnings;
    }
    CloneDrawings(board, drawingHit, rect, cfg);
    return Completed, warnings;
  }

  /**
   * do_clone on the board, the host's HitTest of tracks and drawings given as
   * trackHit and drawingHit. rect and nm are the comment rectangle and net
   * map the run computed, when it got that far. Each phase that ends the run
   * leaves the board as the phases before it left it; a run that gets
   * through the net map ends as Replicated says, which is how the program as
   * written ends unless a zone it copies is on a net no clone voted for.
   */
  method DoClone(board: Board, cfg: Config, trackHit: (Track, Rect) -> bool, drawingHit: (Drawing, Rect) -> bool)
    returns (outcome: Outcome, warnings: seq<Warning>, rect: Rect, nm: NetMap)
    modifies board
    ensures CommentZoneCount(old(board.zones)) == 0 ==> outcome == Raised(NoCommentZone) && unchanged(board)
    ensures CommentZoneCount(old(board.zones)) >= 2 ==> outcome == Raised(SecondCommentZone) && unchanged(board)
    ensures CommentZoneCount(old(board.zones)) == 1 ==> IsCommentRect(old(board.zones), rect)
    ensures CommentZoneCount(old(board.zones)) == 1 && !AllParse(old(board.modules)) ==>
              outcome.Raised? && outcome.error.UnparsableReference? && unchanged(board)
    ensures var ms := old(board.modules);
      CommentZoneCount(old(board.zones)) == 1 && AllParse(ms)
      && !ClonesGoThrough(ms, TemplateRefs(ms, rect), cfg, NumberOfClones(cfg)) ==>
        && unchanged(board)
        && exists i, k :: FirstHalt(ms, TemplateRefs(ms, rect), cfg, i, k) && Halt(ms, TemplateRefs(ms, rect)[k], i, cfg) == Some(outcome)
    ensures var ms := old(board.modules);
      CommentZoneCount(old(board.zones)) == 1 && AllParse(ms) ==>
      var ts := TemplateRefs(ms, rect);
      ClonesGoThrough(ms, ts, cfg, NumberOfClones(cfg)) ==>
        && NetMapOf(ms, ts, cfg, nm) && RowsFit(nm, cfg)
        && var run := Replicated(ms, old(board.zones), old(board.tracks), old(board.drawings), rect, ts, nm, cfg, trackHit, drawingHit);
           && outcome == run.outcome
           && board.modules == run.modules && board.zones == run.zones
           && board.tracks == run.tracks && board.drawings == run.drawings
           && (ZoneNetsKnown(old(board.zones), rect, nm, cfg) ==>
                 run == ReplicatedAsWritten(ms, old(board.zones), old(board.tracks), old(board.drawings), rect, ts, nm, cfg, trackHit, drawingHit))
           && exists votes :: warnings == RangeWarnings(ms, rect, cfg) + votes + run.warnings
                              && forall w :: w in votes <==>
                                   w.NonUnanimous? && IsCloneIndex(cfg, w.clone) && Disputed(ClonePairs(ms, ts, w.clone, cfg), w.net)
  {
    nm := map[];
    rect := Rect(Point(0, 0), 0, 0);
    var found := FindCommentZone(board.zones);
    if found.Err? {
      return Raised(found.error), [], rect, nm;
    }
    rect := found.value;
    var selected, rangeWarnings := SelectTemplate(board.modules, rect, cfg);
    warnings := rangeWarnings;
    if selected.Err? {
      return Raised(selected.error), warnings, rect, nm;
    }
    var ts := selected.value;
    var mapped, voteWarnings := MapNets(board.modules, ts, cfg);
    warnings := warnings + voteWarnings;
    if mapped.Err? {
      return mapped.error, warnings, rect, nm;
    }
    nm := mapped.value;
    assert NetMapOf(board.modules, ts, cfg, nm);
    NetMapOfRowsFit(board.modules, ts, cfg, nm);
    var replicated, moreWarnings := Replicate(board, rect, ts, nm, cfg, trackHit, drawingHit);
    return replicated, warnings + moreWarnings, rect, nm;
  }
}
