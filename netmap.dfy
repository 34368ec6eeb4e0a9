/**
 * The net mapping of layout_cloner.py:86-123: for every clone index i the
 * template modules are paired with their clones, the pads of each pair vote,
 * and the winning clone nets fill slot i of the net map.
 */
module NetMapping {
  import opened Wrappers
  import opened Geometry
  import opened References
  import opened Board
  import opened Diagnostics
  import opened Votes

  /** How the lookups of layout_cloner.py:89-102 turn out for one template module and clone i. */
  datatype PairStatus =
    | Paired(template: Module, clone: Module)
    | NoClone
    | NoTemplate
    | OtherFootprint

  function PairUp(ms: seq<Module>, r: Ref, i: int, cfg: Config): PairStatus
  {
    var c := FindModule(ms, CloneRef(r, i, cfg));
    var t := FindModule(ms, TemplateRef(r));
    if c.None? then NoClone
    else if t.None? then NoTemplate
    else if ms[c.value].fpid != ms[t.value].fpid then OtherFootprint
    else Paired(ms[t.value], ms[c.value])
  }

  /**
   * How the pair of template r and clone i ends the run, if it does: the clone
   * is missing or has another footprint (a `return`), the template reference
   * finds no module (None has no GetFPID), or two zipped pads have different
   * names (the assert).
   */
  function Halt(ms: seq<Module>, r: Ref, i: int, cfg: Config): Option<Outcome>
  {
    match PairUp(ms, r, i, cfg)
    case NoClone => Some(Returned(CloneNotPlaced(CloneRef(r, i, cfg))))
    case NoTemplate => Some(Raised(TemplateNotFound(TemplateRef(r))))
    case OtherFootprint => Some(Returned(FootprintDiffers(CloneRef(r, i, cfg))))
    case Paired(tm, cm) =>
      if PadNamesAgree(tm.pads, cm.pads) then None else Some(Raised(PadNamesDiffer(CloneRef(r, i, cfg))))
  }

  /** The votes cast for clone i: the zipped pads of every paired template module, in template order. */
  function ClonePairs(ms: seq<Module>, ts: seq<Ref>, i: int, cfg: Config): seq<NetPair>
  {
    if ts == [] then []
    else
      ClonePairs(ms, ts[..|ts| - 1], i, cfg)
        + match PairUp(ms, ts[|ts| - 1], i, cfg)
          case Paired(tm, cm) => ZipNets(tm.pads, cm.pads)
          case _ => []
  }

  /** No template module of ts stops the run at clone i, visiting them in order. */
  predicate CloneGoesThrough(ms: seq<Module>, ts: seq<Ref>, i: int, cfg: Config)
    decreases |ts|
  {
    ts == [] || (CloneGoesThrough(ms, ts[..|ts| - 1], i, cfg) && Halt(ms, ts[|ts| - 1], i, cfg).None?)
  }

  /** Going through all of ts means going through every prefix and past every template module. */
  lemma {:induction false} GoesThroughPrefix(ms: seq<Module>, ts: seq<Ref>, i: int, cfg: Config, k: nat)
    requires k < |ts|
    ensures CloneGoesThrough(ms, ts, i, cfg) ==> CloneGoesThrough(ms, ts[..k], i, cfg) && Halt(ms, ts[k], i, cfg).None?
    decreases |ts|
  {
    var init := ts[..|ts| - 1];
    if k < |ts| - 1 {
      GoesThroughPrefix(ms, init, i, cfg, k);
      assert init[..k] == ts[..k];
      assert init[k] == ts[k];
    } else {
      assert init == ts[..k];
    }
  }

  /** The run goes through clone i exactly when no template module halts it. */
  lemma {:induction false} CloneGoesThroughMeaning(ms: seq<Module>, ts: seq<Ref>, i: int, cfg: Config)
    ensures CloneGoesThrough(ms, ts, i, cfg) <==> forall k :: 0 <= k < |ts| ==> Halt(ms, ts[k], i, cfg).None?
    decreases |ts|
  {
    forall k | 0 <= k < |ts|
      ensures CloneGoesThrough(ms, ts, i, cfg) ==> Halt(ms, ts[k], i, cfg).None?
    {
      GoesThroughPrefix(ms, ts, i, cfg, k);
    }
    if ts != [] {
      var init := ts[..|ts| - 1];
      CloneGoesThroughMeaning(ms, init, i, cfg);
      assert forall k :: 0 <= k < |init| ==> init[k] == ts[k];
    }
  }

  /** Going through templates ts[..k] and then ts[k] is going through ts[..k + 1]. */
  lemma GoesThroughOneMore(ms: seq<Module>, ts: seq<Ref>, i: int, cfg: Config, k: nat)
    requires k < |ts| && CloneGoesThrough(ms, ts[..k], i, cfg) && Halt(ms, ts[k], i, cfg).None?
    ensures CloneGoesThrough(ms, ts[..k + 1], i, cfg)
  {
    assert ts[..k + 1][..k] == ts[..k];
  }

  /** Template k is the first template module that stops the run at clone i. */
  predicate StopsAt(ms: seq<Module>, ts: seq<Ref>, i: int, cfg: Config, k: int)
  {
    0 <= k < |ts| && CloneGoesThrough(ms, ts[..k], i, cfg) && Halt(ms, ts[k], i, cfg).Some?
  }

  /** No template module stops the run at the clones 1 .. upto-1. */
  predicate ClonesGoThrough(ms: seq<Module>, ts: seq<Ref>, cfg: Config, upto: int)
  {
    forall j :: 1 <= j < upto ==> CloneGoesThrough(ms, ts, j, cfg)
  }

  lemma ClonesGoThroughOneMore(ms: seq<Module>, ts: seq<Ref>, cfg: Config, i: int)
    requires ClonesGoThrough(ms, ts, cfg, i) && CloneGoesThrough(ms, ts, i, cfg)
    ensures ClonesGoThrough(ms, ts, cfg, i + 1)
  {
  }

  /** Template k at clone i is the first stop of the run, in the order of the two loops. */
  predicate FirstHalt(ms: seq<Module>, ts: seq<Ref>, cfg: Config, i: int, k: int)
  {
    && IsCloneIndex(cfg, i)
    && ClonesGoThrough(ms, ts, cfg, i)
    && StopsAt(ms, ts, i, cfg, k)
  }

  /**
   * Slot of the net map for template net t at clone i, given the votes ps of
   * that clone: empty when t got no vote, otherwise a clone net with the most
   * votes for t.
   */
  ghost predicate SlotFor(ps: seq<NetPair>, t: int, slot: Option<int>)
  {
    && (slot.Some? <==> Voted(ps, t))
    && (slot.Some? ==> Count(ps, t, slot.value) > 0 && forall c :: Count(ps, t, c) <= Count(ps, t, slot.value))
  }

  /** The votes of every clone index 0 .. n-1 (index 0, the template itself, is never used). */
  function AllClonePairs(ms: seq<Module>, ts: seq<Ref>, cfg: Config, n: nat): (pss: seq<seq<NetPair>>)
    ensures |pss| == n && forall j :: 0 <= j < n ==> pss[j] == ClonePairs(ms, ts, j, cfg)
  {
    seq(n, j => ClonePairs(ms, ts, j, cfg))
  }

  /**
   * nm is the net map once the clones 1 .. upto-1 are done, where pss[j] are
   * the votes of clone j: a row of |pss| + 1 slots for every template net voted
   * at some done clone, the done slots as SlotFor says, and every other slot
   * empty.
   */
  ghost predicate NetMapUpTo(pss: seq<seq<NetPair>>, upto: int, nm: NetMap)
    requires upto <= |pss|
  {
    && RowsOfLength(nm, |pss|)
    && (forall t :: t in nm <==> exists j :: 1 <= j < upto && Voted(pss[j], t))
    && (forall t, j :: t in nm && 1 <= j < upto ==> SlotFor(pss[j], t, nm[t][j]))
    && (forall t, j :: t in nm && 0 <= j <= |pss| && (j == 0 || j >= upto) ==> nm[t][j].None?)
  }

  /** The clone net a clone picks, counted in the votes of its clone: the vote table entry is the count. */
  lemma MostVotedIsMostCounted(ps: seq<NetPair>, t: int, best: int)
    requires t in Tally(map[], ps) && IsMostVoted(Tally(map[], ps)[t], best)
    ensures SlotFor(ps, t, Some(best))
  {
    FreshTally(ps);
    OnlyVotedWin(ps, t, best);
  }

  /** The rows of a net map done up to i + 1 are those of the template nets voted at clones 1 .. i. */
  lemma RecordCloneKeys(pss: seq<seq<NetPair>>, i: nat, nm: NetMap, ks: seq<int>, winners: seq<int>)
    requires 1 <= i < |pss|
    requires NetMapUpTo(pss, i, nm)
    requires Distinct(ks) && |winners| == |ks|
    requires forall t :: t in ks <==> t in Tally(map[], pss[i])
    ensures forall t :: t in RecordAll(nm, ks, winners, i, |pss|) <==> exists j :: 1 <= j < i + 1 && Voted(pss[j], t)
  {
    FreshTally(pss[i]);
    RecordAllRows(nm, ks, winners, i, |pss|);
    forall t
      ensures t in RecordAll(nm, ks, winners, i, |pss|) <==> exists j :: 1 <= j < i + 1 && Voted(pss[j], t)
    {
      if exists j :: 1 <= j < i + 1 && Voted(pss[j], t) {
        var j :| 1 <= j < i + 1 && Voted(pss[j], t);
        if j == i {
          assert t in ks;
        }
      }
    }
  }

  /** After recording clone i, the slots of clones 1 .. i say what SlotFor says. */
  lemma RecordCloneSlots(pss: seq<seq<NetPair>>, i: nat, nm: NetMap, ks: seq<int>, winners: seq<int>)
    requires 1 <= i < |pss|
    requires NetMapUpTo(pss, i, nm)
    requires Distinct(ks) && |winners| == |ks|
    requires forall t :: t in ks <==> t in Tally(map[], pss[i])
    requires forall j :: 0 <= j < |ks| ==> ks[j] in Tally(map[], pss[i]) && IsMostVoted(Tally(map[], pss[i])[ks[j]], winners[j])
    ensures var nm' := RecordAll(nm, ks, winners, i, |pss|);
      forall t, j :: t in nm' && 1 <= j < i + 1 ==> SlotFor(pss[j], t, nm'[t][j])
  {
    var n: nat := |pss|;
    var nm': NetMap := RecordAll(nm, ks, winners, i, n);
    FreshTally(pss[i]);
    RecordAllRows(nm, ks, winners, i, n);
    forall t, j | t in nm' && 1 <= j < i + 1
      ensures SlotFor(pss[j], t, nm'[t][j])
    {
      if t in ks {
        var k :| 0 <= k < |ks| && ks[k] == t;
        if j == i {
          MostVotedIsMostCounted(pss[i], t, winners[k]);
        } else {
          assert nm'[t][j] == RowOf(nm, n, t)[j];
        }
      } else {
        assert nm'[t] == nm[t];
      }
    }
  }

  /** After recording clone i, slot 0 and the slots of clones after i are still empty. */
  lemma RecordCloneEmpty(pss: seq<seq<NetPair>>, i: nat, nm: NetMap, ks: seq<int>, winners: seq<int>)
    requires 1 <= i < |pss|
    requires NetMapUpTo(pss, i, nm)
    requires Distinct(ks) && |winners| == |ks|
    ensures var nm' := RecordAll(nm, ks, winners, i, |pss|);
      forall t, j :: t in nm' && 0 <= j <= |pss| && (j == 0 || j >= i + 1) ==> nm'[t][j].None?
  {
    var n: nat := |pss|;
    var nm': NetMap := RecordAll(nm, ks, winners, i, n);
    RecordAllRows(nm, ks, winners, i, n);
    forall t: int, j: int | t in nm' && 0 <= j <= n && (j == 0 || j >= i + 1)
      ensures nm'[t][j].None?
    {
      if t in ks {
        var k :| 0 <= k < |ks| && ks[k] == t;
        assert nm'[t][j] == RowOf(nm, n, t)[j];
      }
    }
  }

  /** Recording clone i's votes into a net map done up to i gives one done up to i + 1. */
  lemma RecordCloneStep(pss: seq<seq<NetPair>>, i: nat, nm: NetMap, ks: seq<int>, winners: seq<int>)
    requires 1 <= i < |pss|
    requires NetMapUpTo(pss, i, nm)
    requires Distinct(ks) && |winners| == |ks|
    requires forall t :: t in ks <==> t in Tally(map[], pss[i])
    requires forall j :: 0 <= j < |ks| ==> ks[j] in Tally(map[], pss[i]) && IsMostVoted(Tally(map[], pss[i])[ks[j]], winners[j])
    ensures NetMapUpTo(pss, i + 1, RecordAll(nm, ks, winners, i, |pss|))
  {
    RecordCloneKeys(pss, i, nm, ks, winners);
    RecordCloneSlots(pss, i, nm, ks, winners);
    RecordCloneEmpty(pss, i, nm, ks, winners);
  }

  /**
   * The inner loop of layout_cloner.py:88-110 for clone i: it pairs every
   * template module with its clone and tallies their pads, or stops at the
   * first template module that halts the run.
   */
  method TallyClone(ms: seq<Module>, ts: seq<Ref>, i: int, cfg: Config) returns (res: Result<VoteTable, Outcome>)
    ensures res.Ok? <==> CloneGoesThrough(ms, ts, i, cfg)
    ensures res.Ok? ==> res.value == Tally(map[], ClonePairs(ms, ts, i, cfg))
    ensures res.Err? ==> exists k :: StopsAt(ms, ts, i, cfg, k) && Halt(ms, ts[k], i, cfg) == Some(res.error)
  {
    var votes: VoteTable := map[];
    for k := 0 to |ts|
      invariant CloneGoesThrough(ms, ts[..k], i, cfg)
      invariant votes == Tally(map[], ClonePairs(ms, ts[..k], i, cfg))
    {
      var r := ts[k];
      var status := PairUp(ms, r, i, cfg);
      if !status.Paired? {
        res := Err(Halt(ms, r, i, cfg).value);
        assert StopsAt(ms, ts, i, cfg, k);
        GoesThroughPrefix(ms, ts, i, cfg, k);
        return;
      }
      var namesAgree;
      votes, namesAgree := TallyPads(votes, status.template.pads, status.clone.pads);
      if !namesAgree {
        res := Err(Raised(PadNamesDiffer(CloneRef(r, i, cfg))));
        assert StopsAt(ms, ts, i, cfg, k);
        GoesThroughPrefix(ms, ts, i, cfg, k);
        return;
      }
      TallyCloneNext(ms, ts, i, cfg, k);
    }
    assert ts[..|ts|] == ts;
    return Ok(votes);
  }

  /** One more paired template whose pad names agree: the run goes on and its votes are added. */
  lemma TallyCloneNext(ms: seq<Module>, ts: seq<Ref>, i: int, cfg: Config, k: nat)
    requires k < |ts| && CloneGoesThrough(ms, ts[..k], i, cfg)
    requires PairUp(ms, ts[k], i, cfg).Paired?
    requires PadNamesAgree(PairUp(ms, ts[k], i, cfg).template.pads, PairUp(ms, ts[k], i, cfg).clone.pads)
    ensures CloneGoesThrough(ms, ts[..k + 1], i, cfg)
    ensures var st := PairUp(ms, ts[k], i, cfg);
      Tally(map[], ClonePairs(ms, ts[..k + 1], i, cfg)) == Tally(Tally(map[], ClonePairs(ms, ts[..k], i, cfg)), ZipNets(st.template.pads, st.clone.pads))
  {
    var st := PairUp(ms, ts[k], i, cfg);
    var zipped := ZipNets(st.template.pads, st.clone.pads);
    assert CloneGoesThrough(ms, ts[..k + 1], i, cfg) by {
      assert Halt(ms, ts[k], i, cfg).None?;
      GoesThroughOneMore(ms, ts, i, cfg, k);
    }
    assert ClonePairs(ms, ts[..k + 1], i, cfg) == ClonePairs(ms, ts[..k], i, cfg) + zipped by {
      assert ts[..k + 1][..k] == ts[..k];
    }
    TallyAppend(map[], ClonePairs(ms, ts[..k], i, cfg), zipped);
  }

  /** The non-unanimous warnings of one clone, read against its votes. */
  lemma CloneWarnings(ps: seq<NetPair>, ks: seq<int>, i: nat, warned: seq<Warning>)
    requires forall t :: t in ks <==> t in Tally(map[], ps)
    requires Disputes(Tally(map[], ps), ks, i, warned)
    ensures forall w :: w in warned <==> w.NonUnanimous? && w.clone == i && Disputed(ps, w.net)
  {
    FreshTally(ps);
    forall w ensures w in warned <==> w.NonUnanimous? && w.clone == i && Disputed(ps, w.net) {
      if w.NonUnanimous? && w.clone == i && Disputed(ps, w.net) {
        var c1, c2 :| c1 != c2 && Count(ps, w.net, c1) > 0 && Count(ps, w.net, c2) > 0;
        assert VoteOf(Tally(map[], ps), w.net, c1) > 0;
        DisputedRow(ps, w.net);
      }
      if w in warned {
        DisputedRow(ps, w.net);
      }
    }
  }

  /** The non-unanimous warnings once the clones 1 .. upto-1 are done, where pss[j] are the votes of clone j. */
  ghost predicate WarnedUpTo(pss: seq<seq<NetPair>>, upto: int, warnings: seq<Warning>)
    requires upto <= |pss|
  {
    forall w :: w in warnings <==> w.NonUnanimous? && 1 <= w.clone < upto && Disputed(pss[w.clone], w.net)
  }

  /** The warnings after the last clone, read against the votes of each clone. */
  lemma WarnedAll(ms: seq<Module>, ts: seq<Ref>, cfg: Config, warnings: seq<Warning>)
    requires NumberOfClones(cfg) >= 0
    requires WarnedUpTo(AllClonePairs(ms, ts, cfg, NumberOfClones(cfg)), NumberOfClones(cfg), warnings)
    ensures forall w :: w in warnings <==>
              w.NonUnanimous? && IsCloneIndex(cfg, w.clone) && Disputed(ClonePairs(ms, ts, w.clone, cfg), w.net)
  {
  }

  /** The first clone whose votes cannot be taken ends the run at its first failing template module. */
  lemma MapNetsHalts(ms: seq<Module>, ts: seq<Ref>, cfg: Config, i: int, k: int, e: Outcome)
    requires 1 <= i < NumberOfClones(cfg) && ClonesGoThrough(ms, ts, cfg, i)
    requires StopsAt(ms, ts, i, cfg, k) && Halt(ms, ts[k], i, cfg) == Some(e)
    ensures exists i, k :: FirstHalt(ms, ts, cfg, i, k) && Halt(ms, ts[k], i, cfg) == Some(e)
  {
    assert FirstHalt(ms, ts, cfg, i, k);
  }

  /** Once every clone is done, the loop's facts are the promises of MapNets. */
  lemma MapNetsDone(ms: seq<Module>, ts: seq<Ref>, cfg: Config, nm: NetMap, warnings: seq<Warning>)
    requires CloneCount(cfg) > 0
    requires var n := NumberOfClones(cfg); var pss := AllClonePairs(ms, ts, cfg, n);
             NetMapUpTo(pss, n, nm) && WarnedUpTo(pss, n, warnings)
    ensures var pss := AllClonePairs(ms, ts, cfg, CloneCount(cfg) + 1); NetMapUpTo(pss, |pss|, nm)
    ensures forall w :: w in warnings <==>
              w.NonUnanimous? && IsCloneIndex(cfg, w.clone) && Disputed(ClonePairs(ms, ts, w.clone, cfg), w.net)
  {
    WarnedAll(ms, ts, cfg, warnings);
  }

  /** The warnings of one more clone extend those of the clones before it. */
  lemma WarnedNext(pss: seq<seq<NetPair>>, i: nat, warnings: seq<Warning>, warned: seq<Warning>)
    requires 1 <= i < |pss| && WarnedUpTo(pss, i, warnings)
    requires forall w :: w in warned <==> w.NonUnanimous? && w.clone == i && Disputed(pss[i], w.net)
    ensures WarnedUpTo(pss, i + 1, warnings + warned)
  {
  }

  /**
   * One turn of the clone loop of layout_cloner.py:86-123: the votes of clone
   * i, recorded into a net map done up to i, or the way the first failing
   * template module ends the run.
   */
  method MapClone(ms: seq<Module>, ts: seq<Ref>, cfg: Config, i: nat, n: nat, nm: NetMap, ghost pss: seq<seq<NetPair>>)
    returns (res: Result<NetMap, Outcome>, warned: seq<Warning>)
    requires n == |pss| && 1 <= i < n && pss[i] == ClonePairs(ms, ts, i, cfg)
    requires NetMapUpTo(pss, i, nm)
    ensures res.Ok? <==> CloneGoesThrough(ms, ts, i, cfg)
    ensures res.Ok? ==> NetMapUpTo(pss, i + 1, res.value)
    ensures res.Ok? ==> forall w :: w in warned <==> w.NonUnanimous? && w.clone == i && Disputed(pss[i], w.net)
    ensures res.Err? ==> exists k :: StopsAt(ms, ts, i, cfg, k) && Halt(ms, ts[k], i, cfg) == Some(res.error)
  {
    var tallied := TallyClone(ms, ts, i, cfg);
    if tallied.Err? {
      return Err(tallied.error), [];
    }
    var votes := tallied.value;
    FreshTally(pss[i]);
    var recorded, ks;
    ghost var winners;
    recorded, warned, ks, winners := RecordClone(votes, nm, i, n);
    RecordCloneStep(pss, i, nm, ks, winners);
    CloneWarnings(pss[i], ks, i, warned);
    return Ok(recorded), warned;
  }

  /**
   * layout_cloner.py:86-123: the net map of all clones, or the way the first
   * failing pair ends the run. A complete map is the one NetMapUpTo describes
   * for all clones, and a non-unanimous warning is printed for net t and
   * clone i exactly when the votes of clone i for t are disputed.
   */
  method MapNets(ms: seq<Module>, ts: seq<Ref>, cfg: Config) returns (res: Result<NetMap, Outcome>, warnings: seq<Warning>)
    ensures res.Ok? <==> ClonesGoThrough(ms, ts, cfg, NumberOfClones(cfg))
    ensures res.Ok? && CloneCount(cfg) == 0 ==> res.value == map[]
    ensures res.Ok? && CloneCount(cfg) > 0 ==>
              var pss := AllClonePairs(ms, ts, cfg, CloneCount(cfg) + 1); NetMapUpTo(pss, |pss|, res.value)
    ensures res.Ok? ==> forall w :: w in warnings <==>
              w.NonUnanimous? && IsCloneIndex(cfg, w.clone) && Disputed(ClonePairs(ms, ts, w.clone, cfg), w.net)
    ensures res.Err? ==> exists i, k :: FirstHalt(ms, ts, cfg, i, k) && Halt(ms, ts[k], i, cfg) == Some(res.error)
  {
    var nm: NetMap := map[];
    warnings := [];
    var n := NumberOfClones(cfg);
    if n <= 1 {
      return Ok(nm), warnings;
    }
    ghost var pss := AllClonePairs(ms, ts, cfg, n);
    var i := 1;
    while i < n
      invariant 1 <= i <= n
      invariant ClonesGoThrough(ms, ts, cfg, i)
      invariant NetMapUpTo(pss, i, nm)
      invariant WarnedUpTo(pss, i, warnings)
    {
      var mapped, warned := MapClone(ms, ts, cfg, i, n, nm, pss);
      if mapped.Err? {
        var k :| StopsAt(ms, ts, i, cfg, k) && Halt(ms, ts[k], i, cfg) == Some(mapped.error);
        MapNetsHalts(ms, ts, cfg, i, k, mapped.error);
        return Err(mapped.error), warnings;
      }
      WarnedNext(pss, i, warnings, warned);
      ClonesGoThroughOneMore(ms, ts, cfg, i);
      nm := mapped.value;
      warnings := warnings + warned;
      i := i + 1;
    }
    MapNetsDone(ms, ts, cfg, nm, warnings);
    return Ok(nm), warnings;
  }
}
