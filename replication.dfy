/**
 * Replication of the template's zones, tracks and drawings
 * (layout_cloner.py:158-202): every item of the template area is copied once
 * per clone index, moved by that clone's offset, and, for zones and tracks,
 * given the clone's net from the net map.
 */
module Replication {
  import opened Wrappers
  import opened Geometry
  import opened Board
  import opened Diagnostics
  import opened Votes
  import opened NetMapping

  /** What one replication loop adds, the messages it prints, and the exception that ended it, if any. */
  datatype Copies<T> = Copies(items: seq<T>, warnings: seq<Warning>, failed: Option<Error>)

  function NoCopies<T>(): Copies<T>
  {
    Copies([], [], None)
  }

  /** q runs after p, unless p has already raised. */
  function Then<T>(p: Copies<T>, q: Copies<T>): Copies<T>
  {
    if p.failed.Some? then p else Copies(p.items + q.items, p.warnings + q.warnings, q.failed)
  }

  // ---------------------------------------------------------------- nets

  /** How `netmap[templateNetCode][i]` turns out for one copy. */
  datatype Remap =
    | Remapped(net: int)   // the slot holds a clone net
    | Unmapped             // the template net is not a key of the net map
    | SlotUnset            // the slot is None: SetNetCode(None) raises

  /** The lookup of layout_cloner.py:166-167 and 182-183 for template net t at clone i. */
  function RemapNet(nm: NetMap, t: int, i: int): Remap
    requires t in nm ==> 0 <= i < |nm[t]|
  {
    if t !in nm then Unmapped
    else match nm[t][i]
      case Some(c) => Remapped(c)
      case None => SlotUnset
  }

  /**
   * Read against the net map of all clones: a net is unmapped exactly when no
   * clone voted for it; a copy for clone i gets a net exactly when clone i
   * voted for it, and then the most voted one; otherwise its slot is unset.
   */
  lemma RemapNetMeaning(pss: seq<seq<NetPair>>, nm: NetMap, t: int, i: int)
    requires 1 <= i < |pss| && NetMapUpTo(pss, |pss|, nm)
    ensures t in nm ==> 0 <= i < |nm[t]|
    ensures RemapNet(nm, t, i) == Unmapped <==> forall j :: 1 <= j < |pss| ==> !Voted(pss[j], t)
    ensures RemapNet(nm, t, i).Remapped? <==> Voted(pss[i], t)
    ensures RemapNet(nm, t, i).Remapped? ==> forall c :: Count(pss[i], t, c) <= Count(pss[i], t, RemapNet(nm, t, i).net)
    ensures RemapNet(nm, t, i) == SlotUnset <==> !Voted(pss[i], t) && exists j :: 1 <= j < |pss| && Voted(pss[j], t)
  {
    if t in nm {
      assert SlotFor(pss[i], t, nm[t][i]);
    }
  }

  /** The rows of the net map have a slot for every clone index (`[None]*(numberOfClones+1)`). */
  predicate RowsFit(nm: NetMap, cfg: Config)
  {
    forall t :: t in nm ==> |nm[t]| == NumberOfClones(cfg) + 1
  }

  /** upto bounds a loop `for i in range(1, upto)` over clone indices. */
  predicate UpToClones(cfg: Config, upto: int)
  {
    upto <= 1 || upto <= NumberOfClones(cfg)
  }

  /** How many clone indices 1 .. upto-1 there are. */
  function Span(upto: int): nat
  {
    if upto <= 1 then 0 else upto - 1
  }

  /** The clone indices 1 .. upto-1, in order. */
  function Indices(upto: int): (ixs: seq<int>)
    ensures |ixs| == Span(upto) && forall k :: 0 <= k < |ixs| ==> ixs[k] == k + 1
    decreases upto
  {
    if upto <= 1 then [] else Indices(upto - 1) + [upto - 1]
  }

  /**
   * The loops `for i in range(1, numberOfClones)` visit CloneCount indices,
   * and exactly the clone indices, each once, in increasing order.
   */
  lemma CloneIndicesCounted(cfg: Config)
    ensures |Indices(NumberOfClones(cfg))| == CloneCount(cfg)
    ensures forall i :: i in Indices(NumberOfClones(cfg)) <==> IsCloneIndex(cfg, i)
    ensures forall j, k :: 0 <= j < k < |Indices(NumberOfClones(cfg))| ==>
      Indices(NumberOfClones(cfg))[j] < Indices(NumberOfClones(cfg))[k]
  {
    var ixs := Indices(NumberOfClones(cfg));
    forall i | IsCloneIndex(cfg, i)
      ensures i in ixs
    {
      assert ixs[i - 1] == i;
    }
  }

  /** The messages of the copies for clones 1 .. upto-1 of an item on template net t: one per copy when t is unmapped. */
  function UnknownNets(nm: NetMap, t: int, upto: int): (ws: seq<Warning>)
    ensures |ws| == if t in nm then 0 else Span(upto)
    ensures forall k :: 0 <= k < |ws| ==> ws[k] == UnknownNet(t)
    decreases upto
  {
    if t in nm || upto <= 1 then [] else UnknownNets(nm, t, upto - 1) + [UnknownNet(t)]
  }

  /**
   * One pass of the copy loop of an item on template net t, at clone i, by
   * clone index: the copy is made (with a message when the net is unmapped),
   * or SetNetCode(None) raises.
   */
  function NetCopy(nm: NetMap, t: int, i: int): Copies<int>
    requires t in nm ==> 0 <= i < |nm[t]|
  {
    match RemapNet(nm, t, i)
    case SlotUnset => Copies([], [], Some(UnsetNetSlot(t, i)))
    case Unmapped => Copies([i], [UnknownNet(t)], None)
    case Remapped(_) => Copies([i], [], None)
  }

  /**
   * The copy loop `for i in range(1, upto)` of an item on template net t
   * (layout_cloner.py:163-170 and 179-186), by clone index: the indices
   * copied, the messages, and the exception that stops it.
   */
  function NetCopies(nm: NetMap, cfg: Config, t: int, upto: int): Copies<int>
    requires RowsFit(nm, cfg) && UpToClones(cfg, upto)
    decreases upto
  {
    if upto <= 1 then NoCopies()
    else Then(NetCopies(nm, cfg, t, upto - 1), NetCopy(nm, t, upto - 1))
  }

  /** i is the first clone index below upto whose slot for t is unset. */
  predicate FirstUnset(nm: NetMap, cfg: Config, t: int, i: int, upto: int)
    requires RowsFit(nm, cfg) && UpToClones(cfg, upto)
  {
    && 1 <= i < upto
    && RemapNet(nm, t, i) == SlotUnset
    && forall j :: 1 <= j < i ==> RemapNet(nm, t, j) != SlotUnset
  }

  /** A copy loop that goes through has copied for every clone index, without an unset slot. */
  lemma {:induction false} NetCopiesDone(nm: NetMap, cfg: Config, t: int, upto: int)
    requires RowsFit(nm, cfg) && UpToClones(cfg, upto)
    ensures var c := NetCopies(nm, cfg, t, upto);
      c.failed.None? ==> && c.items == Indices(upto) && c.warnings == UnknownNets(nm, t, upto)
                         && forall i :: 1 <= i < upto ==> RemapNet(nm, t, i) != SlotUnset
    decreases upto
  {
    if upto > 1 && NetCopies(nm, cfg, t, upto).failed.None? {
      NetCopiesDone(nm, cfg, t, upto - 1);
    }
  }

  /** A copy loop that raises has stopped at the first unset slot, after copying for the clones before it. */
  lemma {:induction false} NetCopiesRaises(nm: NetMap, cfg: Config, t: int, upto: int)
    requires RowsFit(nm, cfg) && UpToClones(cfg, upto)
    ensures var c := NetCopies(nm, cfg, t, upto);
      c.failed.Some? ==> exists i :: FirstUnset(nm, cfg, t, i, upto) && c.failed == Some(UnsetNetSlot(t, i))
                                   && c.items == Indices(i) && c.warnings == UnknownNets(nm, t, i)
    decreases upto
  {
    if upto > 1 && NetCopies(nm, cfg, t, upto).failed.Some? {
      NetCopiesRaises(nm, cfg, t, upto - 1);
      var p := NetCopies(nm, cfg, t, upto - 1);
      if p.failed.Some? {
        var i :| FirstUnset(nm, cfg, t, i, upto - 1) && p.failed == Some(UnsetNetSlot(t, i))
                 && p.items == Indices(i) && p.warnings == UnknownNets(nm, t, i);
        assert FirstUnset(nm, cfg, t, i, upto);
      } else {
        NetCopiesDone(nm, cfg, t, upto - 1);
        assert FirstUnset(nm, cfg, t, upto - 1, upto);
        assert p.items + [] == p.items && p.warnings + [] == p.warnings;
      }
    }
  }

  /**
   * The copy loop raises exactly when some clone's slot is unset, and then at
   * the first such clone i, after copying for 1 .. i-1; otherwise it copies
   * for every clone index. An unmapped net prints one message per copy made.
   */
  lemma NetCopiesMeaning(nm: NetMap, cfg: Config, t: int, upto: int)
    requires RowsFit(nm, cfg) && UpToClones(cfg, upto)
    ensures var c := NetCopies(nm, cfg, t, upto);
      c.failed.None? <==> forall i :: 1 <= i < upto ==> RemapNet(nm, t, i) != SlotUnset
    ensures var c := NetCopies(nm, cfg, t, upto);
      c.failed.None? ==> c.items == Indices(upto) && c.warnings == UnknownNets(nm, t, upto)
    ensures var c := NetCopies(nm, cfg, t, upto);
      c.failed.Some? ==> exists i :: FirstUnset(nm, cfg, t, i, upto) && c.failed == Some(UnsetNetSlot(t, i))
                                   && c.items == Indices(i) && c.warnings == UnknownNets(nm, t, i)
  {
    NetCopiesDone(nm, cfg, t, upto);
    NetCopiesRaises(nm, cfg, t, upto);
  }

  /** One more pass of the copy loop. */
  lemma NetCopiesNext(nm: NetMap, cfg: Config, t: int, i: int)
    requires RowsFit(nm, cfg) && 1 <= i < NumberOfClones(cfg)
    ensures NetCopies(nm, cfg, t, i + 1) == Then(NetCopies(nm, cfg, t, i), NetCopy(nm, t, i))
  {
  }

  /** Once the copy loop has raised, the later clone indices add nothing. */
  lemma {:induction false} NetCopiesStopped(nm: NetMap, cfg: Config, t: int, i: int)
    requires RowsFit(nm, cfg) && UpToClones(cfg, i) && NetCopies(nm, cfg, t, i).failed.Some?
    ensures NetCopies(nm, cfg, t, NumberOfClones(cfg)) == NetCopies(nm, cfg, t, i)
    decreases NumberOfClones(cfg) - i
  {
    if i < NumberOfClones(cfg) {
      NetCopiesStopped(nm, cfg, t, i + 1);
    }
  }

  /** The net a copy for clone i gets: the mapped clone net when there is one, the template net t otherwise. */
  function CloneNet(nm: NetMap, t: int, i: int): int
  {
    if t in nm && 0 <= i < |nm[t]| && nm[t][i].Some? then nm[t][i].value else t
  }

  // ---------------------------------------------------------------- zones

  /** The zones the loop of layout_cloner.py:158-170 copies: anchored in the rectangle, not the comment zone. */
  predicate ZoneQualifies(z: Zone, rect: Rect)
  {
    Contains(rect, z.position) && z.layer != CommentLayer
  }

  /** Clone i of zone z: moved by the clone's offset, on the clone's net. */
  function ClonedZone(z: Zone, nm: NetMap, cfg: Config, i: int): Zone
  {
    MoveZone(z, Offset(cfg, i)).(net := CloneNet(nm, z.net, i))
  }

  /** The clones of zone z for the clone indices ixs, in order. */
  function ZoneClones(z: Zone, nm: NetMap, cfg: Config, ixs: seq<int>): (r: seq<Zone>)
    ensures |r| == |ixs|
  {
    seq(|ixs|, k requires 0 <= k < |ixs| => ClonedZone(z, nm, cfg, ixs[k]))
  }

  /** Clone k of the list is the zone cloned for the k-th index. */
  lemma {:induction false} ZoneClonesAt(z: Zone, nm: NetMap, cfg: Config, ixs: seq<int>)
    ensures forall k :: 0 <= k < |ixs| ==> ZoneClones(z, nm, cfg, ixs)[k] == ClonedZone(z, nm, cfg, ixs[k])
    decreases |ixs|
  {
    if ixs != [] {
      var init := ixs[..|ixs| - 1];
      ZoneClonesAt(z, nm, cfg, init);
      assert forall k :: 0 <= k < |init| ==> init[k] == ixs[k];
    }
  }

  /**
   * The copies of zone z for the clones 1 .. upto-1, as corrected: an
   * unmapped net is reported and the copy keeps the template net, as the
   * track loop does.
   */
  function ZoneCopies(z: Zone, nm: NetMap, cfg: Config, upto: int): Copies<Zone>
    requires RowsFit(nm, cfg) && UpToClones(cfg, upto)
  {
    var c := NetCopies(nm, cfg, z.net, upto);
    Copies(ZoneClones(z, nm, cfg, c.items), c.warnings, c.failed)
  }

  /**
   * One copy of the zone loop as layout_cloner.py:166-170 is written: the
   * message for an unmapped net reads the name `track`, which do_clone only
   * binds later (line 176), so the run raises instead of printing.
   */
  function ZoneCopyAsWritten(z: Zone, nm: NetMap, cfg: Config, i: int): Copies<Zone>
    requires z.net in nm ==> 0 <= i < |nm[z.net]|
  {
    match RemapNet(nm, z.net, i)
    case SlotUnset => Copies([], [], Some(UnsetNetSlot(z.net, i)))
    case Unmapped => Copies([], [], Some(UnboundTrackName))
    case Remapped(_) => Copies([ClonedZone(z, nm, cfg, i)], [], None)
  }

  /**
   * A zone on a net that no clone voted for stops the run as written; once
   * corrected, every clone index gets a copy on the template net and a message.
   */
  lemma UnknownZoneNetRaises(z: Zone, nm: NetMap, cfg: Config, i: int)
    requires RowsFit(nm, cfg) && z.net !in nm && IsCloneIndex(cfg, i)
    ensures ZoneCopyAsWritten(z, nm, cfg, i).failed == Some(UnboundTrackName)
    ensures var c := ZoneCopies(z, nm, cfg, NumberOfClones(cfg));
      c.failed.None? && |c.items| == |c.warnings| == NumberOfClones(cfg) - 1
      && c.items[i - 1] == MoveZone(z, Offset(cfg, i)) && c.warnings[i - 1] == UnknownNet(z.net)
  {
    var n := NumberOfClones(cfg);
    NetCopiesMeaning(nm, cfg, z.net, n);
    ZoneClonesAt(z, nm, cfg, Indices(n));
  }

  /** The copy loop of zone z for the clones 1 .. upto-1 as layout_cloner.py:163-170 is written. */
  function ZoneCopiesAsWritten(z: Zone, nm: NetMap, cfg: Config, upto: int): Copies<Zone>
    requires RowsFit(nm, cfg) && UpToClones(cfg, upto)
    decreases upto
  {
    if upto <= 1 then NoCopies()
    else Then(ZoneCopiesAsWritten(z, nm, cfg, upto - 1), ZoneCopyAsWritten(z, nm, cfg, upto - 1))
  }

  /** On a net the map knows, the copy loop as written and as corrected do the same. */
  lemma {:induction false} ZoneCopiesAsWrittenAgrees(z: Zone, nm: NetMap, cfg: Config, upto: int)
    requires RowsFit(nm, cfg) && UpToClones(cfg, upto) && z.net in nm
    ensures ZoneCopiesAsWritten(z, nm, cfg, upto) == ZoneCopies(z, nm, cfg, upto)
    decreases upto
  {
    if upto > 1 {
      var i := upto - 1;
      ZoneCopiesAsWrittenAgrees(z, nm, cfg, i);
      var p, d := NetCopies(nm, cfg, z.net, i), NetCopy(nm, z.net, i);
      if p.failed.None? {
        ZoneClonesAppend(z, nm, cfg, p.items, d.items);
        assert ZoneClones(z, nm, cfg, [i]) == [ClonedZone(z, nm, cfg, i)];
        assert p.warnings + [] == p.warnings;
        assert ZoneClones(z, nm, cfg, p.items) + [] == ZoneClones(z, nm, cfg, p.items);
      }
    }
  }

  /** On a net no clone voted for, the copy loop as written raises at its first clone, before any copy. */
  lemma {:induction false} ZoneCopiesAsWrittenUnmapped(z: Zone, nm: NetMap, cfg: Config, upto: int)
    requires RowsFit(nm, cfg) && UpToClones(cfg, upto) && z.net !in nm && upto > 1
    ensures ZoneCopiesAsWritten(z, nm, cfg, upto) == Copies([], [], Some(UnboundTrackName))
    decreases upto
  {
    if upto > 2 {
      ZoneCopiesAsWrittenUnmapped(z, nm, cfg, upto - 1);
    }
  }

  /** The copy loop of one zone as written raises exactly when some clone index finds no clone net for it. */
  lemma ZoneCopiesAsWrittenFails(z: Zone, nm: NetMap, cfg: Config)
    requires RowsFit(nm, cfg)
    ensures ZoneCopiesAsWritten(z, nm, cfg, NumberOfClones(cfg)).failed.Some? <==>
            exists i :: IsCloneIndex(cfg, i) && !RemapNet(nm, z.net, i).Remapped?
  {
    var n := NumberOfClones(cfg);
    if z.net in nm {
      ZoneCopiesAsWrittenAgrees(z, nm, cfg, n);
      NetCopiesMeaning(nm, cfg, z.net, n);
    } else if n > 1 {
      ZoneCopiesAsWrittenUnmapped(z, nm, cfg, n);
      assert IsCloneIndex(cfg, 1) && !RemapNet(nm, z.net, 1).Remapped?;
    }
  }

  /** The zone loop of layout_cloner.py:158-170 as written, over the zones zs the board had before it. */
  function ZonePhaseAsWritten(zs: seq<Zone>, rect: Rect, nm: NetMap, cfg: Config): Copies<Zone>
    requires RowsFit(nm, cfg)
  {
    if zs == [] then NoCopies()
    else
      var p := ZonePhaseAsWritten(zs[..|zs| - 1], rect, nm, cfg);
      var z := zs[|zs| - 1];
      if ZoneQualifies(z, rect) then Then(p, ZoneCopiesAsWritten(z, nm, cfg, NumberOfClones(cfg))) else p
  }

  /** Every zone the loop copies is on a net some clone voted for (or there is no clone to copy for). */
  predicate ZoneNetsKnown(zs: seq<Zone>, rect: Rect, nm: NetMap, cfg: Config)
  {
    CloneCount(cfg) == 0 || forall k :: 0 <= k < |zs| && ZoneQualifies(zs[k], rect) ==> zs[k].net in nm
  }

  /**
   * When no zone the loop copies is on a net no clone voted for, the zone
   * loop as written and as corrected do the same.
   */
  lemma {:induction false} ZonePhaseAsWrittenAgrees(zs: seq<Zone>, rect: Rect, nm: NetMap, cfg: Config)
    requires RowsFit(nm, cfg) && ZoneNetsKnown(zs, rect, nm, cfg)
    ensures ZonePhaseAsWritten(zs, rect, nm, cfg) == ZonePhase(zs, rect, nm, cfg)
    decreases |zs|
  {
    if zs != [] {
      var init, z := zs[..|zs| - 1], zs[|zs| - 1];
      assert ZoneNetsKnown(init, rect, nm, cfg) by {
        assert forall k :: 0 <= k < |init| ==> init[k] == zs[k];
      }
      ZonePhaseAsWrittenAgrees(init, rect, nm, cfg);
      if ZoneQualifies(z, rect) {
        if CloneCount(cfg) == 0 {
          NetCopiesMeaning(nm, cfg, z.net, NumberOfClones(cfg));
        } else {
          ZoneCopiesAsWrittenAgrees(z, nm, cfg, NumberOfClones(cfg));
        }
      }
    }
  }

  /** The zone loop as written raises exactly when a zone it copies finds no clone net at some clone index. */
  lemma {:induction false} ZonePhaseAsWrittenFails(zs: seq<Zone>, rect: Rect, nm: NetMap, cfg: Config)
    requires RowsFit(nm, cfg)
    ensures ZonePhaseAsWritten(zs, rect, nm, cfg).failed.Some? <==>
            exists k, i :: 0 <= k < |zs| && ZoneQualifies(zs[k], rect) && IsCloneIndex(cfg, i)
                           && !RemapNet(nm, zs[k].net, i).Remapped?
    decreases |zs|
  {
    if zs != [] {
      var init, z := zs[..|zs| - 1], zs[|zs| - 1];
      ZonePhaseAsWrittenFails(init, rect, nm, cfg);
      ZoneCopiesAsWrittenFails(z, nm, cfg);
      assert forall k :: 0 <= k < |init| ==> init[k] == zs[k];
      if exists k, i :: 0 <= k < |zs| && ZoneQualifies(zs[k], rect) && IsCloneIndex(cfg, i)
                        && !RemapNet(nm, zs[k].net, i).Remapped? {
        var k, i :| 0 <= k < |zs| && ZoneQualifies(zs[k], rect) && IsCloneIndex(cfg, i)
                    && !RemapNet(nm, zs[k].net, i).Remapped?;
        if k == |init| {
          assert zs[k] == z;
        }
      }
    }
  }

  /** When the copies of one zone go through, the zone is cloned for every clone index. */
  lemma ZoneCopiesAll(z: Zone, nm: NetMap, cfg: Config)
    requires RowsFit(nm, cfg)
    ensures var c := ZoneCopies(z, nm, cfg, NumberOfClones(cfg));
      c.failed.None? ==> forall i :: IsCloneIndex(cfg, i) ==> ClonedZone(z, nm, cfg, i) in c.items
  {
    var n := NumberOfClones(cfg);
    var c := ZoneCopies(z, nm, cfg, n);
    NetCopiesMeaning(nm, cfg, z.net, n);
    if c.failed.None? {
      var ixs := Indices(n);
      ZoneClonesAt(z, nm, cfg, ixs);
      forall i | IsCloneIndex(cfg, i)
        ensures ClonedZone(z, nm, cfg, i) in c.items
      {
        assert c.items[i - 1] == ClonedZone(z, nm, cfg, ixs[i - 1]);
      }
    }
  }

  /** The copies of one zone are nothing but clones of it. */
  lemma ZoneCopiesOnly(z: Zone, nm: NetMap, cfg: Config, upto: int)
    requires RowsFit(nm, cfg) && UpToClones(cfg, upto)
    ensures forall y :: y in ZoneCopies(z, nm, cfg, upto).items ==> exists i :: IsCloneIndex(cfg, i) && y == ClonedZone(z, nm, cfg, i)
  {
    var c := ZoneCopies(z, nm, cfg, upto);
    NetCopiesMeaning(nm, cfg, z.net, upto);
    var ixs := NetCopies(nm, cfg, z.net, upto).items;
    ZoneClonesAt(z, nm, cfg, ixs);
    forall y | y in c.items
      ensures exists i :: IsCloneIndex(cfg, i) && y == ClonedZone(z, nm, cfg, i)
    {
      var k :| 0 <= k < |c.items| && c.items[k] == y;
      assert y == ClonedZone(z, nm, cfg, ixs[k]);
    }
  }

  /** The zone loop of layout_cloner.py:158-170 over the zones zs the board had before it. */
  function ZonePhase(zs: seq<Zone>, rect: Rect, nm: NetMap, cfg: Config): Copies<Zone>
    requires RowsFit(nm, cfg)
  {
    if zs == [] then NoCopies()
    else
      var p := ZonePhase(zs[..|zs| - 1], rect, nm, cfg);
      var z := zs[|zs| - 1];
      if ZoneQualifies(z, rect) then Then(p, ZoneCopies(z, nm, cfg, NumberOfClones(cfg))) else p
  }

  /** The zone loop raises only at a zone it copies with an unset slot at some clone index. */
  lemma {:induction false} ZonePhaseRaisesOnly(zs: seq<Zone>, rect: Rect, nm: NetMap, cfg: Config)
    requires RowsFit(nm, cfg)
    ensures ZonePhase(zs, rect, nm, cfg).failed.Some? ==>
            exists k, i :: 0 <= k < |zs| && ZoneQualifies(zs[k], rect) && IsCloneIndex(cfg, i)
                           && RemapNet(nm, zs[k].net, i) == SlotUnset
    decreases |zs|
  {
    if zs != [] && ZonePhase(zs, rect, nm, cfg).failed.Some? {
      var n := NumberOfClones(cfg);
      var init, z := zs[..|zs| - 1], zs[|zs| - 1];
      var p := ZonePhase(init, rect, nm, cfg);
      if p.failed.Some? {
        ZonePhaseRaisesOnly(init, rect, nm, cfg);
        var k, i :| 0 <= k < |init| && ZoneQualifies(init[k], rect) && IsCloneIndex(cfg, i)
                    && RemapNet(nm, init[k].net, i) == SlotUnset;
        assert init[k] == zs[k];
      } else {
        NetCopiesMeaning(nm, cfg, z.net, n);
        var i :| 1 <= i < n && RemapNet(nm, z.net, i) == SlotUnset;
        var k := |zs| - 1;
        assert zs[k] == z && ZoneQualifies(zs[k], rect) && IsCloneIndex(cfg, i) && RemapNet(nm, zs[k].net, i) == SlotUnset;
      }
    }
  }

  /** A zone the loop copies with an unset slot at some clone index makes the loop raise. */
  lemma {:induction false} ZonePhaseRaisesAt(zs: seq<Zone>, rect: Rect, nm: NetMap, cfg: Config, k: int, i: int)
    requires RowsFit(nm, cfg) && 0 <= k < |zs| && ZoneQualifies(zs[k], rect) && IsCloneIndex(cfg, i)
    requires RemapNet(nm, zs[k].net, i) == SlotUnset
    ensures ZonePhase(zs, rect, nm, cfg).failed.Some?
    decreases |zs|
  {
    var init, z := zs[..|zs| - 1], zs[|zs| - 1];
    var p := ZonePhase(init, rect, nm, cfg);
    if k < |init| {
      assert init[k] == zs[k];
      ZonePhaseRaisesAt(init, rect, nm, cfg, k, i);
    } else {
      NetCopiesMeaning(nm, cfg, z.net, NumberOfClones(cfg));
      assert zs[k] == z;
    }
  }

  /** The zone loop raises exactly when a zone it copies has an unset slot at some clone index. */
  lemma ZonePhaseFails(zs: seq<Zone>, rect: Rect, nm: NetMap, cfg: Config)
    requires RowsFit(nm, cfg)
    ensures ZonePhase(zs, rect, nm, cfg).failed.Some? <==>
            exists k, i :: 0 <= k < |zs| && ZoneQualifies(zs[k], rect) && IsCloneIndex(cfg, i)
                           && RemapNet(nm, zs[k].net, i) == SlotUnset
  {
    ZonePhaseRaisesOnly(zs, rect, nm, cfg);
    forall k, i | 0 <= k < |zs| && ZoneQualifies(zs[k], rect) && IsCloneIndex(cfg, i) && RemapNet(nm, zs[k].net, i) == SlotUnset
      ensures ZonePhase(zs, rect, nm, cfg).failed.Some?
    {
      ZonePhaseRaisesAt(zs, rect, nm, cfg, k, i);
    }
  }

  /** When the zone loop goes through, every qualifying zone has been cloned for every clone index. */
  lemma {:induction false} ZonePhaseAll(zs: seq<Zone>, rect: Rect, nm: NetMap, cfg: Config)
    requires RowsFit(nm, cfg)
    ensures var c := ZonePhase(zs, rect, nm, cfg);
      c.failed.None? ==> forall k, i :: 0 <= k < |zs| && ZoneQualifies(zs[k], rect) && IsCloneIndex(cfg, i) ==> ClonedZone(zs[k], nm, cfg, i) in c.items
    decreases |zs|
  {
    var c := ZonePhase(zs, rect, nm, cfg);
    if zs != [] && c.failed.None? {
      var init, z := zs[..|zs| - 1], zs[|zs| - 1];
      var p, q := ZonePhase(init, rect, nm, cfg), ZoneCopies(z, nm, cfg, NumberOfClones(cfg));
      ZonePhaseAll(init, rect, nm, cfg);
      ZoneCopiesAll(z, nm, cfg);
      assert p.failed.None? && (ZoneQualifies(z, rect) ==> q.failed.None?);
      assert c.items == if ZoneQualifies(z, rect) then p.items + q.items else p.items;
      forall k, i | 0 <= k < |zs| && ZoneQualifies(zs[k], rect) && IsCloneIndex(cfg, i)
        ensures ClonedZone(zs[k], nm, cfg, i) in c.items
      {
        if k < |init| {
          assert init[k] == zs[k];
          assert ClonedZone(init[k], nm, cfg, i) in p.items;
        } else {
          assert zs[k] == z;
        }
      }
    }
  }

  /** The zone loop adds nothing but clones of qualifying zones, whether or not it raises. */
  lemma {:induction false} ZonePhaseOnly(zs: seq<Zone>, rect: Rect, nm: NetMap, cfg: Config)
    requires RowsFit(nm, cfg)
    ensures forall y :: y in ZonePhase(zs, rect, nm, cfg).items ==>
      exists k, i :: 0 <= k < |zs| && ZoneQualifies(zs[k], rect) && IsCloneIndex(cfg, i) && y == ClonedZone(zs[k], nm, cfg, i)
    decreases |zs|
  {
    if zs != [] {
      var c := ZonePhase(zs, rect, nm, cfg);
      var init, z := zs[..|zs| - 1], zs[|zs| - 1];
      var p, q := ZonePhase(init, rect, nm, cfg), ZoneCopies(z, nm, cfg, NumberOfClones(cfg));
      ZonePhaseOnly(init, rect, nm, cfg);
      ZoneCopiesOnly(z, nm, cfg, NumberOfClones(cfg));
      assert c.items == if ZoneQualifies(z, rect) && p.failed.None? then p.items + q.items else p.items;
      forall y | y in c.items
        ensures exists k, i :: 0 <= k < |zs| && ZoneQualifies(zs[k], rect) && IsCloneIndex(cfg, i) && y == ClonedZone(zs[k], nm, cfg, i)
      {
        if y in p.items {
          var k, i :| 0 <= k < |init| && ZoneQualifies(init[k], rect) && IsCloneIndex(cfg, i) && y == ClonedZone(init[k], nm, cfg, i);
          assert init[k] == zs[k];
        } else {
          var i :| IsCloneIndex(cfg, i) && y == ClonedZone(z, nm, cfg, i);
          assert zs[|zs| - 1] == z;
        }
      }
    }
  }

  /** With a single clone (the template itself) the zone loop copies nothing. */
  lemma {:induction false} ZonePhaseNoClones(zs: seq<Zone>, rect: Rect, nm: NetMap, cfg: Config)
    requires RowsFit(nm, cfg) && NumberOfClones(cfg) <= 1
    ensures ZonePhase(zs, rect, nm, cfg) == NoCopies()
    decreases |zs|
  {
    if zs != [] {
      ZonePhaseNoClones(zs[..|zs| - 1], rect, nm, cfg);
    }
  }

  /** How many of the zones zs the zone loop copies. */
  function QualifyingZones(zs: seq<Zone>, rect: Rect): nat
  {
    if zs == [] then 0
    else QualifyingZones(zs[..|zs| - 1], rect) + (if ZoneQualifies(zs[|zs| - 1], rect) then 1 else 0)
  }

  /** A zone loop that goes through adds one copy per qualifying zone and clone index, counted with Times. */
  lemma {:induction false} ZonePhaseLength(zs: seq<Zone>, rect: Rect, nm: NetMap, cfg: Config)
    requires RowsFit(nm, cfg)
    ensures var c := ZonePhase(zs, rect, nm, cfg);
      c.failed.None? ==> |c.items| == Times(QualifyingZones(zs, rect), CloneCount(cfg))
    decreases |zs|
  {
    if zs != [] && ZonePhase(zs, rect, nm, cfg).failed.None? {
      var init, z := zs[..|zs| - 1], zs[|zs| - 1];
      ZonePhaseLength(init, rect, nm, cfg);
      NetCopiesDone(nm, cfg, z.net, NumberOfClones(cfg));
    }
  }

  /** A zone loop that goes through adds exactly numberOfClones - 1 copies of every qualifying zone. */
  lemma ZonePhaseCount(zs: seq<Zone>, rect: Rect, nm: NetMap, cfg: Config)
    requires RowsFit(nm, cfg)
    ensures var c := ZonePhase(zs, rect, nm, cfg);
      c.failed.None? ==> |c.items| == QualifyingZones(zs, rect) * CloneCount(cfg)
  {
    ZonePhaseLength(zs, rect, nm, cfg);
    TimesIsProduct(QualifyingZones(zs, rect), CloneCount(cfg));
  }

  /** One more zone of the loop. */
  lemma ZonePhaseNext(zs: seq<Zone>, rect: Rect, nm: NetMap, cfg: Config, k: nat)
    requires RowsFit(nm, cfg) && k < |zs|
    ensures var p := ZonePhase(zs[..k], rect, nm, cfg);
      ZonePhase(zs[..k + 1], rect, nm, cfg) ==
        if ZoneQualifies(zs[k], rect) then Then(p, ZoneCopies(zs[k], nm, cfg, NumberOfClones(cfg))) else p
  {
    assert zs[..k + 1][..k] == zs[..k];
  }

  /** Once the zone loop has raised, the zones after that add nothing. */
  lemma {:induction false} ZonePhaseStopped(zs: seq<Zone>, rect: Rect, nm: NetMap, cfg: Config, k: nat)
    requires RowsFit(nm, cfg) && k <= |zs| && ZonePhase(zs[..k], rect, nm, cfg).failed.Some?
    ensures ZonePhase(zs, rect, nm, cfg) == ZonePhase(zs[..k], rect, nm, cfg)
    decreases |zs|
  {
    if k < |zs| {
      var init := zs[..|zs| - 1];
      assert init[..k] == zs[..k];
      ZonePhaseStopped(init, rect, nm, cfg, k);
    } else {
      assert zs[..k] == zs;
    }
  }

  /** The clones for two runs of indices, one after the other. */
  lemma {:induction false} ZoneClonesAppend(z: Zone, nm: NetMap, cfg: Config, xs: seq<int>, ys: seq<int>)
    ensures ZoneClones(z, nm, cfg, xs + ys) == ZoneClones(z, nm, cfg, xs) + ZoneClones(z, nm, cfg, ys)
    decreases |ys|
  {
    if ys == [] {
      assert xs + ys == xs;
    } else {
      var init := ys[..|ys| - 1];
      ZoneClonesAppend(z, nm, cfg, xs, init);
      assert (xs + ys)[..|xs + ys| - 1] == xs + init;
    }
  }

  /** One pass of the zone's copy loop (layout_cloner.py:164-170): the copy for clone i is added to the board, or SetNetCode(None) raises. */
  method AddZoneCopy(board: Board, z: Zone, nm: NetMap, cfg: Config, i: int) returns (failed: Option<Error>, warnings: seq<Warning>)
    requires RowsFit(nm, cfg) && IsCloneIndex(cfg, i)
    modifies board
    ensures var d := NetCopy(nm, z.net, i);
      board.zones == old(board.zones) + ZoneClones(z, nm, cfg, d.items) && warnings == d.warnings && failed == d.failed
    ensures board.modules == old(board.modules) && board.tracks == old(board.tracks) && board.drawings == old(board.drawings)
  {
    var zoneClone := MoveZone(z, Offset(cfg, i));
    warnings := [];
    if z.net in nm {
      var slot := nm[z.net][i];
      if slot.None? {
        return Some(UnsetNetSlot(z.net, i)), warnings;
      }
      zoneClone := zoneClone.(net := slot.value);
    } else {
      warnings := [UnknownNet(z.net)];
    }
    assert zoneClone == ClonedZone(z, nm, cfg, i);
    assert ZoneClones(z, nm, cfg, [i]) == [zoneClone];
    board.Add(zoneClone);
    return None, warnings;
  }

  /** The copies of one zone, added to the board as they are made (layout_cloner.py:163-170). */
  method CloneZone(board: Board, z: Zone, nm: NetMap, cfg: Config) returns (failed: Option<Error>, warnings: seq<Warning>)
    requires RowsFit(nm, cfg)
    modifies board
    ensures var c := ZoneCopies(z, nm, cfg, NumberOfClones(cfg));
      board.zones == old(board.zones) + c.items && warnings == c.warnings && failed == c.failed
    ensures board.modules == old(board.modules) && board.tracks == old(board.tracks) && board.drawings == old(board.drawings)
  {
    var n := NumberOfClones(cfg);
    warnings := [];
    var i := 1;
    while i < n
      invariant 1 <= i && UpToClones(cfg, i) && (n > 1 ==> i <= n)
      invariant var c := NetCopies(nm, cfg, z.net, i);
        c.failed.None? && board.zones == old(board.zones) + ZoneClones(z, nm, cfg, c.items) && warnings == c.warnings
      invariant board.modules == old(board.modules) && board.tracks == old(board.tracks) && board.drawings == old(board.drawings)
    {
      ghost var done, d := NetCopies(nm, cfg, z.net, i), NetCopy(nm, z.net, i);
      NetCopiesNext(nm, cfg, z.net, i);
      var f, w := AddZoneCopy(board, z, nm, cfg, i);
      ZoneClonesAppend(z, nm, cfg, done.items, d.items);
      assert board.zones == old(board.zones) + ZoneClones(z, nm, cfg, done.items + d.items);
      warnings := warnings + w;
      if f.Some? {
        NetCopiesStopped(nm, cfg, z.net, i + 1);
        assert NetCopies(nm, cfg, z.net, n) == NetCopies(nm, cfg, z.net, i + 1);
        return f, warnings;
      }
      i := i + 1;
    }
    assert NetCopies(nm, cfg, z.net, n) == NetCopies(nm, cfg, z.net, i);
    return None, warnings;
  }

  /**
   * layout_cloner.py:158-171 on the board: the zone list grows by the copies
   * of ZonePhase over the zones it had before, in order, and the other lists
   * stay as they were. The loop visits only the zones present when it starts.
   */
  method CloneZones(board: Board, rect: Rect, nm: NetMap, cfg: Config) returns (failed: Option<Error>, warnings: seq<Warning>)
    requires RowsFit(nm, cfg)
    modifies board
    ensures var c := ZonePhase(old(board.zones), rect, nm, cfg);
      board.zones == old(board.zones) + c.items && warnings == c.warnings && failed == c.failed
    ensures board.modules == old(board.modules) && board.tracks == old(board.tracks) && board.drawings == old(board.drawings)
  {
    ghost var zs := board.zones;
    var count := |board.zones|;
    warnings := [];
    for k := 0 to count
      invariant var c := ZonePhase(zs[..k], rect, nm, cfg);
        c.failed.None? && board.zones == zs + c.items && warnings == c.warnings
      invariant board.modules == old(board.modules) && board.tracks == old(board.tracks) && board.drawings == old(board.drawings)
    {
      ghost var done := ZonePhase(zs[..k], rect, nm, cfg);
      var zone := board.zones[k];
      assert zone == zs[k];
      ZonePhaseNext(zs, rect, nm, cfg, k);
      if Contains(rect, zone.position) && zone.layer != CommentLayer {
        ghost var q := ZoneCopies(zone, nm, cfg, NumberOfClones(cfg));
        var f, w := CloneZone(board, zone, nm, cfg);
        assert board.zones == zs + (done.items + q.items);
        warnings := warnings + w;
        if f.Some? {
          ZonePhaseStopped(zs, rect, nm, cfg, k + 1);
          return f, warnings;
        }
      }
    }
    assert zs[..count] == zs;
    return None, warnings;
  }

  // ---------------------------------------------------------------- tracks

  /** Clone i of track tr: moved by the clone's offset, on the clone's net. */
  function ClonedTrack(tr: Track, nm: NetMap, cfg: Config, i: int): Track
  {
    MoveTrack(tr, Offset(cfg, i)).(net := CloneNet(nm, tr.net, i))
  }

  /** The clones of track tr for the clone indices ixs, in order. */
  function TrackClones(tr: Track, nm: NetMap, cfg: Config, ixs: seq<int>): (r: seq<Track>)
    ensures |r| == |ixs|
  {
    seq(|ixs|, k requires 0 <= k < |ixs| => ClonedTrack(tr, nm, cfg, ixs[k]))
  }

  /** Clone k of the list is the track cloned for the k-th index. */
  lemma {:induction false} TrackClonesAt(tr: Track, nm: NetMap, cfg: Config, ixs: seq<int>)
    ensures forall k :: 0 <= k < |ixs| ==> TrackClones(tr, nm, cfg, ixs)[k] == ClonedTrack(tr, nm, cfg, ixs[k])
    decreases |ixs|
  {
    if ixs != [] {
      var init := ixs[..|ixs| - 1];
      TrackClonesAt(tr, nm, cfg, init);
      assert forall k :: 0 <= k < |init| ==> init[k] == ixs[k];
    }
  }

  /**
   * The copies of track tr for the clones 1 .. upto-1 (layout_cloner.py:179-186):
   * an unmapped net is reported and the copy keeps the template net.
   */
  function TrackCopies(tr: Track, nm: NetMap, cfg: Config, upto: int): Copies<Track>
    requires RowsFit(nm, cfg) && UpToClones(cfg, upto)
  {
    var c := NetCopies(nm, cfg, tr.net, upto);
    Copies(TrackClones(tr, nm, cfg, c.items), c.warnings, c.failed)
  }

  /** When the copies of one track go through, the track is cloned for every clone index. */
  lemma TrackCopiesAll(tr: Track, nm: NetMap, cfg: Config)
    requires RowsFit(nm, cfg)
    ensures var c := TrackCopies(tr, nm, cfg, NumberOfClones(cfg));
      c.failed.None? ==> forall i :: IsCloneIndex(cfg, i) ==> ClonedTrack(tr, nm, cfg, i) in c.items
  {
    var n := NumberOfClones(cfg);
    var c := TrackCopies(tr, nm, cfg, n);
    NetCopiesMeaning(nm, cfg, tr.net, n);
    if c.failed.None? {
      var ixs := Indices(n);
      TrackClonesAt(tr, nm, cfg, ixs);
      forall i | IsCloneIndex(cfg, i)
        ensures ClonedTrack(tr, nm, cfg, i) in c.items
      {
        assert c.items[i - 1] == ClonedTrack(tr, nm, cfg, ixs[i - 1]);
      }
    }
  }

  /** The copies of one track are nothing but clones of it. */
  lemma TrackCopiesOnly(tr: Track, nm: NetMap, cfg: Config, upto: int)
    requires RowsFit(nm, cfg) && UpToClones(cfg, upto)
    ensures forall y :: y in TrackCopies(tr, nm, cfg, upto).items ==> exists i :: IsCloneIndex(cfg, i) && y == ClonedTrack(tr, nm, cfg, i)
  {
    var c := TrackCopies(tr, nm, cfg, upto);
    NetCopiesMeaning(nm, cfg, tr.net, upto);
    var ixs := NetCopies(nm, cfg, tr.net, upto).items;
    TrackClonesAt(tr, nm, cfg, ixs);
    forall y | y in c.items
      ensures exists i :: IsCloneIndex(cfg, i) && y == ClonedTrack(tr, nm, cfg, i)
    {
      var k :| 0 <= k < |c.items| && c.items[k] == y;
      assert y == ClonedTrack(tr, nm, cfg, ixs[k]);
    }
  }

  /**
   * The track loop of layout_cloner.py:176-186 over the tracks trs of the
   * board; hit is the host's HitTest of a track against the rectangle.
   */
  function TrackPhase(trs: seq<Track>, hit: (Track, Rect) -> bool, rect: Rect, nm: NetMap, cfg: Config): Copies<Track>
    requires RowsFit(nm, cfg)
  {
    if trs == [] then NoCopies()
    else
      var p := TrackPhase(trs[..|trs| - 1], hit, rect, nm, cfg);
      var tr := trs[|trs| - 1];
      if hit(tr, rect) then Then(p, TrackCopies(tr, nm, cfg, NumberOfClones(cfg))) else p
  }

  /** The track loop raises only at a track it hits with an unset slot at some clone index. */
  lemma {:induction false} TrackPhaseRaisesOnly(trs: seq<Track>, hit: (Track, Rect) -> bool, rect: Rect, nm: NetMap, cfg: Config)
    requires RowsFit(nm, cfg)
    ensures TrackPhase(trs, hit, rect, nm, cfg).failed.Some? ==>
            exists k, i :: 0 <= k < |trs| && hit(trs[k], rect) && IsCloneIndex(cfg, i)
                           && RemapNet(nm, trs[k].net, i) == SlotUnset
    decreases |trs|
  {
    if trs != [] && TrackPhase(trs, hit, rect, nm, cfg).failed.Some? {
      var n := NumberOfClones(cfg);
      var init, tr := trs[..|trs| - 1], trs[|trs| - 1];
      var p := TrackPhase(init, hit, rect, nm, cfg);
      if p.failed.Some? {
        TrackPhaseRaisesOnly(init, hit, rect, nm, cfg);
        var k, i :| 0 <= k < |init| && hit(init[k], rect) && IsCloneIndex(cfg, i)
                    && RemapNet(nm, init[k].net, i) == SlotUnset;
        assert init[k] == trs[k];
      } else {
        NetCopiesMeaning(nm, cfg, tr.net, n);
        var i :| 1 <= i < n && RemapNet(nm, tr.net, i) == SlotUnset;
        var k := |trs| - 1;
        assert trs[k] == tr && hit(trs[k], rect) && IsCloneIndex(cfg, i) && RemapNet(nm, trs[k].net, i) == SlotUnset;
      }
    }
  }

  /** A track the loop copies with an unset slot at some clone index makes the loop raise. */
  lemma {:induction false} TrackPhaseRaisesAt(trs: seq<Track>, hit: (Track, Rect) -> bool, rect: Rect, nm: NetMap, cfg: Config, k: int, i: int)
    requires RowsFit(nm, cfg) && 0 <= k < |trs| && hit(trs[k], rect) && IsCloneIndex(cfg, i)
    requires RemapNet(nm, trs[k].net, i) == SlotUnset
    ensures TrackPhase(trs, hit, rect, nm, cfg).failed.Some?
    decreases |trs|
  {
    var init, tr := trs[..|trs| - 1], trs[|trs| - 1];
    var p := TrackPhase(init, hit, rect, nm, cfg);
    if k < |init| {
      assert init[k] == trs[k];
      TrackPhaseRaisesAt(init, hit, rect, nm, cfg, k, i);
    } else {
      NetCopiesMeaning(nm, cfg, tr.net, NumberOfClones(cfg));
      assert trs[k] == tr;
    }
  }

  /** The track loop raises exactly when a track it hits has an unset slot at some clone index. */
  lemma TrackPhaseFails(trs: seq<Track>, hit: (Track, Rect) -> bool, rect: Rect, nm: NetMap, cfg: Config)
    requires RowsFit(nm, cfg)
    ensures TrackPhase(trs, hit, rect, nm, cfg).failed.Some? <==>
            exists k, i :: 0 <= k < |trs| && hit(trs[k], rect) && IsCloneIndex(cfg, i)
                           && RemapNet(nm, trs[k].net, i) == SlotUnset
  {
    TrackPhaseRaisesOnly(trs, hit, rect, nm, cfg);
    forall k, i | 0 <= k < |trs| && hit(trs[k], rect) && IsCloneIndex(cfg, i) && RemapNet(nm, trs[k].net, i) == SlotUnset
      ensures TrackPhase(trs, hit, rect, nm, cfg).failed.Some?
    {
      TrackPhaseRaisesAt(trs, hit, rect, nm, cfg, k, i);
    }
  }

  /** When the track loop goes through, every track it hits has been cloned for every clone index. */
  lemma {:induction false} TrackPhaseAll(trs: seq<Track>, hit: (Track, Rect) -> bool, rect: Rect, nm: NetMap, cfg: Config)
    requires RowsFit(nm, cfg)
    ensures var c := TrackPhase(trs, hit, rect, nm, cfg);
      c.failed.None? ==> forall k, i :: 0 <= k < |trs| && hit(trs[k], rect) && IsCloneIndex(cfg, i) ==> ClonedTrack(trs[k], nm, cfg, i) in c.items
    decreases |trs|
  {
    var c := TrackPhase(trs, hit, rect, nm, cfg);
    if trs != [] && c.failed.None? {
      var init, tr := trs[..|trs| - 1], trs[|trs| - 1];
      var p, q := TrackPhase(init, hit, rect, nm, cfg), TrackCopies(tr, nm, cfg, NumberOfClones(cfg));
      TrackPhaseAll(init, hit, rect, nm, cfg);
      TrackCopiesAll(tr, nm, cfg);
      assert p.failed.None? && (hit(tr, rect) ==> q.failed.None?);
      assert c.items == if hit(tr, rect) then p.items + q.items else p.items;
      forall k, i | 0 <= k < |trs| && hit(trs[k], rect) && IsCloneIndex(cfg, i)
        ensures ClonedTrack(trs[k], nm, cfg, i) in c.items
      {
        if k < |init| {
          assert init[k] == trs[k];
          assert ClonedTrack(init[k], nm, cfg, i) in p.items;
        } else {
          assert trs[k] == tr;
        }
      }
    }
  }

  /** The track loop adds nothing but clones of the tracks it hits, whether or not it raises. */
  lemma {:induction false} TrackPhaseOnly(trs: seq<Track>, hit: (Track, Rect) -> bool, rect: Rect, nm: NetMap, cfg: Config)
    requires RowsFit(nm, cfg)
    ensures forall y :: y in TrackPhase(trs, hit, rect, nm, cfg).items ==>
      exists k, i :: 0 <= k < |trs| && hit(trs[k], rect) && IsCloneIndex(cfg, i) && y == ClonedTrack(trs[k], nm, cfg, i)
    decreases |trs|
  {
    if trs != [] {
      var c := TrackPhase(trs, hit, rect, nm, cfg);
      var init, tr := trs[..|trs| - 1], trs[|trs| - 1];
      var p, q := TrackPhase(init, hit, rect, nm, cfg), TrackCopies(tr, nm, cfg, NumberOfClones(cfg));
      TrackPhaseOnly(init, hit, rect, nm, cfg);
      TrackCopiesOnly(tr, nm, cfg, NumberOfClones(cfg));
      assert c.items == if hit(tr, rect) && p.failed.None? then p.items + q.items else p.items;
      forall y | y in c.items
        ensures exists k, i :: 0 <= k < |trs| && hit(trs[k], rect) && IsCloneIndex(cfg, i) && y == ClonedTrack(trs[k], nm, cfg, i)
      {
        if y in p.items {
          var k, i :| 0 <= k < |init| && hit(init[k], rect) && IsCloneIndex(cfg, i) && y == ClonedTrack(init[k], nm, cfg, i);
          assert init[k] == trs[k];
        } else {
          var i :| IsCloneIndex(cfg, i) && y == ClonedTrack(tr, nm, cfg, i);
          assert trs[|trs| - 1] == tr;
        }
      }
    }
  }

  /** With a single clone (the template itself) the track loop copies nothing. */
  lemma {:induction false} TrackPhaseNoClones(trs: seq<Track>, hit: (Track, Rect) -> bool, rect: Rect, nm: NetMap, cfg: Config)
    requires RowsFit(nm, cfg) && NumberOfClones(cfg) <= 1
    ensures TrackPhase(trs, hit, rect, nm, cfg) == NoCopies()
    decreases |trs|
  {
    if trs != [] {
      TrackPhaseNoClones(trs[..|trs| - 1], hit, rect, nm, cfg);
    }
  }

  /** How many of the tracks trs the track loop copies. */
  function HitTracks(trs: seq<Track>, hit: (Track, Rect) -> bool, rect: Rect): nat
  {
    if trs == [] then 0
    else HitTracks(trs[..|trs| - 1], hit, rect) + (if hit(trs[|trs| - 1], rect) then 1 else 0)
  }

  /** A track loop that goes through adds one copy per hit track and clone index, counted with Times. */
  lemma {:induction false} TrackPhaseLength(trs: seq<Track>, hit: (Track, Rect) -> bool, rect: Rect, nm: NetMap, cfg: Config)
    requires RowsFit(nm, cfg)
    ensures var c := TrackPhase(trs, hit, rect, nm, cfg);
      c.failed.None? ==> |c.items| == Times(HitTracks(trs, hit, rect), CloneCount(cfg))
    decreases |trs|
  {
    if trs != [] && TrackPhase(trs, hit, rect, nm, cfg).failed.None? {
      var init, tr := trs[..|trs| - 1], trs[|trs| - 1];
      TrackPhaseLength(init, hit, rect, nm, cfg);
      NetCopiesDone(nm, cfg, tr.net, NumberOfClones(cfg));
    }
  }

  /** A track loop that goes through adds exactly numberOfClones - 1 copies of every track it hits. */
  lemma TrackPhaseCount(trs: seq<Track>, hit: (Track, Rect) -> bool, rect: Rect, nm: NetMap, cfg: Config)
    requires RowsFit(nm, cfg)
    ensures var c := TrackPhase(trs, hit, rect, nm, cfg);
      c.failed.None? ==> |c.items| == HitTracks(trs, hit, rect) * CloneCount(cfg)
  {
    TrackPhaseLength(trs, hit, rect, nm, cfg);
    TimesIsProduct(HitTracks(trs, hit, rect), CloneCount(cfg));
  }

  /** One more track of the loop. */
  lemma TrackPhaseNext(trs: seq<Track>, hit: (Track, Rect) -> bool, rect: Rect, nm: NetMap, cfg: Config, k: nat)
    requires RowsFit(nm, cfg) && k < |trs|
    ensures var p := TrackPhase(trs[..k], hit, rect, nm, cfg);
      TrackPhase(trs[..k + 1], hit, rect, nm, cfg) ==
        if hit(trs[k], rect) then Then(p, TrackCopies(trs[k], nm, cfg, NumberOfClones(cfg))) else p
  {
    assert trs[..k + 1][..k] == trs[..k];
  }

  /** Once the track loop has raised, the tracks after that add nothing. */
  lemma {:induction false} TrackPhaseStopped(trs: seq<Track>, hit: (Track, Rect) -> bool, rect: Rect, nm: NetMap, cfg: Config, k: nat)
    requires RowsFit(nm, cfg) && k <= |trs| && TrackPhase(trs[..k], hit, rect, nm, cfg).failed.Some?
    ensures TrackPhase(trs, hit, rect, nm, cfg) == TrackPhase(trs[..k], hit, rect, nm, cfg)
    decreases |trs|
  {
    if k < |trs| {
      var init := trs[..|trs| - 1];
      assert init[..k] == trs[..k];
      TrackPhaseStopped(init, hit, rect, nm, cfg, k);
    } else {
      assert trs[..k] == trs;
    }
  }

  /** The clones for two runs of indices, one after the other. */
  lemma {:induction false} TrackClonesAppend(tr: Track, nm: NetMap, cfg: Config, xs: seq<int>, ys: seq<int>)
    ensures TrackClones(tr, nm, cfg, xs + ys) == TrackClones(tr, nm, cfg, xs) + TrackClones(tr, nm, cfg, ys)
    decreases |ys|
  {
    if ys == [] {
      assert xs + ys == xs;
    } else {
      var init := ys[..|ys| - 1];
      TrackClonesAppend(tr, nm, cfg, xs, init);
      assert (xs + ys)[..|xs + ys| - 1] == xs + init;
    }
  }

  /** The copies of one track for every clone index (layout_cloner.py:179-186). */
  method CopyTrack(tr: Track, nm: NetMap, cfg: Config) returns (copies: Copies<Track>)
    requires RowsFit(nm, cfg)
    ensures copies == TrackCopies(tr, nm, cfg, NumberOfClones(cfg))
  {
    var n := NumberOfClones(cfg);
    var cloneTracks: seq<Track> := [];
    var warnings: seq<Warning> := [];
    var i := 1;
    while i < n
      invariant 1 <= i && UpToClones(cfg, i) && (n > 1 ==> i <= n)
      invariant var c := NetCopies(nm, cfg, tr.net, i);
        c.failed.None? && cloneTracks == TrackClones(tr, nm, cfg, c.items) && warnings == c.warnings
    {
      ghost var ixs := NetCopies(nm, cfg, tr.net, i).items;
      NetCopiesNext(nm, cfg, tr.net, i);
      var cloneTrack := MoveTrack(tr, Offset(cfg, i));
      if tr.net in nm {
        var slot := nm[tr.net][i];
        if slot.None? {
          NetCopiesStopped(nm, cfg, tr.net, i + 1);
          assert ixs + [] == ixs;
          assert NetCopies(nm, cfg, tr.net, n).items == ixs;
          return Copies(cloneTracks, warnings, Some(UnsetNetSlot(tr.net, i)));
        }
        cloneTrack := cloneTrack.(net := slot.value);
      } else {
        warnings := warnings + [UnknownNet(tr.net)];
      }
      assert cloneTrack == ClonedTrack(tr, nm, cfg, i);
      assert TrackClones(tr, nm, cfg, [i]) == [cloneTrack];
      TrackClonesAppend(tr, nm, cfg, ixs, [i]);
      cloneTracks := cloneTracks + [cloneTrack];
      i := i + 1;
    }
    return Copies(cloneTracks, warnings, None);
  }

  /**
   * layout_cloner.py:174-189 on the board: the copies are collected first and
   * appended to the track list only once every track is done, so a run that
   * raises leaves the tracks as they were.
   */
  method CloneTracks(board: Board, hit: (Track, Rect) -> bool, rect: Rect, nm: NetMap, cfg: Config)
    returns (failed: Option<Error>, warnings: seq<Warning>)
    requires RowsFit(nm, cfg)
    modifies board
    ensures var c := TrackPhase(old(board.tracks), hit, rect, nm, cfg);
      warnings == c.warnings && failed == c.failed
      && board.tracks == if c.failed.Some? then old(board.tracks) else old(board.tracks) + c.items
    ensures board.modules == old(board.modules) && board.zones == old(board.zones) && board.drawings == old(board.drawings)
  {
    var trs := board.tracks;
    var cloneTracks: seq<Track> := [];
    warnings := [];
    for k := 0 to |trs|
      invariant TrackPhase(trs[..k], hit, rect, nm, cfg) == Copies(cloneTracks, warnings, None)
      invariant board.tracks == trs
      invariant board.modules == old(board.modules) && board.zones == old(board.zones) && board.drawings == old(board.drawings)
    {
      var track := trs[k];
      TrackPhaseNext(trs, hit, rect, nm, cfg, k);
      if hit(track, rect) {
        var copies := CopyTrack(track, nm, cfg);
        warnings := warnings + copies.warnings;
        if copies.failed.Some? {
          TrackPhaseStopped(trs, hit, rect, nm, cfg, k + 1);
          return copies.failed, warnings;
        }
        cloneTracks := cloneTracks + copies.items;
      }
    }
    assert trs[..|trs|] == trs;
    for j := 0 to |cloneTracks|
      invariant board.tracks == trs + cloneTracks[..j]
      invariant board.modules == old(board.modules) && board.zones == old(board.zones) && board.drawings == old(board.drawings)
    {
      assert cloneTracks[..j + 1] == cloneTracks[..j] + [cloneTracks[j]];
      board.AppendTrack(cloneTracks[j]);
    }
    assert cloneTracks[..|cloneTracks|] == cloneTracks;
    return None, warnings;
  }

  // ---------------------------------------------------------------- drawings

  /** The copies of drawing g for the clones 1 .. upto-1, each moved by its clone's offset (layout_cloner.py:196-199). */
  function DrawingCopies(g: Drawing, cfg: Config, upto: int): seq<Drawing>
    decreases upto
  {
    if upto <= 1 then [] else DrawingCopies(g, cfg, upto - 1) + [MoveDrawing(g, Offset(cfg, upto - 1))]
  }

  /**
   * The drawing loop of layout_cloner.py:194-199 over the drawings gs of the
   * board; hit is the host's HitTest of a drawing against the rectangle.
   */
  function DrawingPhase(gs: seq<Drawing>, hit: (Drawing, Rect) -> bool, rect: Rect, cfg: Config): seq<Drawing>
  {
    if gs == [] then []
    else
      var g := gs[|gs| - 1];
      DrawingPhase(gs[..|gs| - 1], hit, rect, cfg) + (if hit(g, rect) then DrawingCopies(g, cfg, NumberOfClones(cfg)) else [])
  }

  /** How many of the drawings gs touch the rectangle. */
  function HitCount(gs: seq<Drawing>, hit: (Drawing, Rect) -> bool, rect: Rect): nat
  {
    if gs == [] then 0
    else HitCount(gs[..|gs| - 1], hit, rect) + (if hit(gs[|gs| - 1], rect) then 1 else 0)
  }

  /** One copy per clone index: copy i - 1 is the drawing moved by clone i's offset. */
  lemma {:induction false} DrawingCopiesAt(g: Drawing, cfg: Config, upto: int)
    ensures |DrawingCopies(g, cfg, upto)| == Span(upto)
    ensures forall i :: 1 <= i < upto ==> DrawingCopies(g, cfg, upto)[i - 1] == MoveDrawing(g, Offset(cfg, i))
    decreases upto
  {
    if upto > 1 {
      DrawingCopiesAt(g, cfg, upto - 1);
      var p := DrawingCopies(g, cfg, upto - 1);
      assert forall k :: 0 <= k < |p| ==> DrawingCopies(g, cfg, upto)[k] == p[k];
    }
  }

  /** The copies of one drawing are the drawing moved by every clone's offset. */
  lemma DrawingCopiesMembers(g: Drawing, cfg: Config)
    ensures forall y :: y in DrawingCopies(g, cfg, NumberOfClones(cfg)) <==>
      exists i :: IsCloneIndex(cfg, i) && y == MoveDrawing(g, Offset(cfg, i))
  {
    var q := DrawingCopies(g, cfg, NumberOfClones(cfg));
    DrawingCopiesAt(g, cfg, NumberOfClones(cfg));
    forall y | y in q
      ensures exists i :: IsCloneIndex(cfg, i) && y == MoveDrawing(g, Offset(cfg, i))
    {
      var k :| 0 <= k < |q| && q[k] == y;
      assert q[(k + 1) - 1] == MoveDrawing(g, Offset(cfg, k + 1));
    }
    forall i | IsCloneIndex(cfg, i)
      ensures MoveDrawing(g, Offset(cfg, i)) in q
    {
      assert q[i - 1] == MoveDrawing(g, Offset(cfg, i));
    }
  }

  /** The length of what the drawing loop adds, counted with Times. */
  lemma {:induction false} DrawingPhaseLength(gs: seq<Drawing>, hit: (Drawing, Rect) -> bool, rect: Rect, cfg: Config)
    ensures |DrawingPhase(gs, hit, rect, cfg)| == Times(HitCount(gs, hit, rect), CloneCount(cfg))
    decreases |gs|
  {
    if gs != [] {
      var init, g := gs[..|gs| - 1], gs[|gs| - 1];
      DrawingPhaseLength(init, hit, rect, cfg);
      DrawingCopiesAt(g, cfg, NumberOfClones(cfg));
    }
  }

  /** Every drawing that touches the rectangle is copied once per clone index. */
  lemma DrawingPhaseCount(gs: seq<Drawing>, hit: (Drawing, Rect) -> bool, rect: Rect, cfg: Config)
    ensures |DrawingPhase(gs, hit, rect, cfg)| == HitCount(gs, hit, rect) * CloneCount(cfg)
  {
    DrawingPhaseLength(gs, hit, rect, cfg);
    TimesIsProduct(HitCount(gs, hit, rect), CloneCount(cfg));
  }

  /** The drawing loop adds exactly the drawings that touch the rectangle, each moved by every clone's offset. */
  lemma {:induction false} DrawingPhaseMembers(gs: seq<Drawing>, hit: (Drawing, Rect) -> bool, rect: Rect, cfg: Config)
    ensures forall y :: y in DrawingPhase(gs, hit, rect, cfg) <==>
      exists k, i :: 0 <= k < |gs| && hit(gs[k], rect) && IsCloneIndex(cfg, i) && y == MoveDrawing(gs[k], Offset(cfg, i))
    decreases |gs|
  {
    if gs != [] {
      var init := gs[..|gs| - 1];
      DrawingPhaseMembers(init, hit, rect, cfg);
      DrawingCopiesMembers(gs[|gs| - 1], cfg);
      assert forall k :: 0 <= k < |init| ==> init[k] == gs[k];
    }
  }

  /** The copies of one drawing for every clone index. */
  method CopyDrawing(g: Drawing, cfg: Config) returns (copies: seq<Drawing>)
    ensures copies == DrawingCopies(g, cfg, NumberOfClones(cfg))
  {
    var n := NumberOfClones(cfg);
    copies := [];
    var i := 1;
    while i < n
      invariant 1 <= i && (i <= 1 || i <= n)
      invariant copies == DrawingCopies(g, cfg, i)
    {
      copies := copies + [MoveDrawing(g, Offset(cfg, i))];
      i := i + 1;
    }
  }

  /**
   * layout_cloner.py:192-202 on the board: the copies of DrawingPhase are
   * collected and then appended to the drawing list; nothing else changes.
   */
  method CloneDrawings(board: Board, hit: (Drawing, Rect) -> bool, rect: Rect, cfg: Config)
    modifies board
    ensures board.drawings == old(board.drawings) + DrawingPhase(old(board.drawings), hit, rect, cfg)
    ensures board.modules == old(board.modules) && board.zones == old(board.zones) && board.tracks == old(board.tracks)
  {
    var gs := board.drawings;
    var cloneDrawings: seq<Drawing> := [];
    for k := 0 to |gs|
      invariant cloneDrawings == DrawingPhase(gs[..k], hit, rect, cfg)
      invariant board.drawings == gs
      invariant board.modules == old(board.modules) && board.zones == old(board.zones) && board.tracks == old(board.tracks)
    {
      assert gs[..k + 1][..k] == gs[..k];
      var drawing := gs[k];
      if hit(drawing, rect) {
        var copies := CopyDrawing(drawing, cfg);
        cloneDrawings := cloneDrawings + copies;
      }
    }
    assert gs[..|gs|] == gs;
    for j := 0 to |cloneDrawings|
      invariant board.drawings == gs + cloneDrawings[..j]
      invariant board.modules == old(board.modules) && board.zones == old(board.zones) && board.tracks == old(board.tracks)
    {
      assert cloneDrawings[..j + 1] == cloneDrawings[..j] + [cloneDrawings[j]];
      board.AppendDrawing(cloneDrawings[j]);
    }
    assert cloneDrawings[..|cloneDrawings|] == cloneDrawings;
  }
}
