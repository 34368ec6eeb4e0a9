/**
 * The net vote of layout_cloner.py:104-123: every zipped pair of template and
 * clone pads casts one vote "template net t is clone net c"; the clone net
 * with most votes becomes the mapping of t for that clone.
 */
module Votes {
  import opened Wrappers
  import opened Board
  import opened Diagnostics

  /** (template net code, clone net code) of one zipped pad pair. */
  type NetPair = (int, int)

  /** netVotes: template net code -> clone net code -> number of votes. */
  type VoteTable = map<int, map<int, nat>>

  /** netmap: template net code -> one slot per clone index (slot 0 is the template). */
  type NetMap = map<int, seq<Option<int>>>

  /** `zip(templatePads, clonePads)`, reduced to net codes: it stops at the shorter list. */
  function ZipNets(tp: seq<Pad>, cp: seq<Pad>): seq<NetPair>
  {
    seq(if |tp| <= |cp| then |tp| else |cp|, k requires 0 <= k < |tp| && k < |cp| => (tp[k].net, cp[k].net))
  }

  /** The assert of layout_cloner.py:105 holds for every zipped pair. */
  predicate PadNamesAgree(tp: seq<Pad>, cp: seq<Pad>)
  {
    forall k :: 0 <= k < |tp| && k < |cp| ==> tp[k].name == cp[k].name
  }

  /** The reference count: how many pairs vote t -> c. */
  function Count(ps: seq<NetPair>, t: int, c: int): nat
  {
    if ps == [] then 0
    else Count(ps[..|ps| - 1], t, c) + (if ps[|ps| - 1] == (t, c) then 1 else 0)
  }

  /** Some pair has template net t. */
  predicate Voted(ps: seq<NetPair>, t: int)
  {
    exists k :: 0 <= k < |ps| && ps[k].0 == t
  }

  /** At least two different clone nets received votes for t. */
  ghost predicate Disputed(ps: seq<NetPair>, t: int)
  {
    exists c1, c2 :: c1 != c2 && Count(ps, t, c1) > 0 && Count(ps, t, c2) > 0
  }

  function VoteOf(v: VoteTable, t: int, c: int): nat
  {
    if t in v && c in v[t] then v[t][c] else 0
  }

  /** setdefault(t, {}), setdefault(c, 0), += 1 (layout_cloner.py:108-110). */
  function AddVote(v: VoteTable, p: NetPair): VoteTable
  {
    var row := if p.0 in v then v[p.0] else map[];
    v[p.0 := row[p.1 := (if p.1 in row then row[p.1] else 0) + 1]]
  }

  /** The table after voting each pair of ps in order. */
  function Tally(v: VoteTable, ps: seq<NetPair>): VoteTable
  {
    if ps == [] then v else AddVote(Tally(v, ps[..|ps| - 1]), ps[|ps| - 1])
  }

  /** Every row has a vote and every recorded count is positive, as the setdefault pattern leaves it. */
  ghost predicate Positive(v: VoteTable)
  {
    forall t :: t in v ==> |v[t]| > 0 && forall c :: c in v[t] ==> v[t][c] > 0
  }

  lemma {:induction false} TallyAppend(v: VoteTable, a: seq<NetPair>, b: seq<NetPair>)
    ensures Tally(v, a + b) == Tally(Tally(v, a), b)
    decreases |b|
  {
    if b == [] {
      assert a + b == a;
    } else {
      var b' := b[..|b| - 1];
      TallyAppend(v, a, b');
      assert (a + b)[..|a + b| - 1] == a + b';
    }
  }

  /** Voting pairs ps adds exactly Count(ps, t, c) to every entry, and creates a row exactly for the voted template nets. */
  lemma {:induction false} TallyCounts(v: VoteTable, ps: seq<NetPair>)
    requires Positive(v)
    ensures Positive(Tally(v, ps))
    ensures forall t, c :: VoteOf(Tally(v, ps), t, c) == VoteOf(v, t, c) + Count(ps, t, c)
    ensures forall t :: t in Tally(v, ps) <==> t in v || Voted(ps, t)
    decreases |ps|
  {
    if ps != [] {
      var init := ps[..|ps| - 1];
      TallyCounts(v, init);
      AddVoteCounts(Tally(v, init), ps[|ps| - 1]);
      VotedSnoc(ps);
    }
  }

  /** One vote adds one to its own entry only, creates its row if needed, and keeps the table positive. */
  lemma AddVoteCounts(w: VoteTable, p: NetPair)
    requires Positive(w)
    ensures Positive(AddVote(w, p))
    ensures forall t, c :: VoteOf(AddVote(w, p), t, c) == VoteOf(w, t, c) + (if p == (t, c) then 1 else 0)
    ensures forall t :: t in AddVote(w, p) <==> t in w || p.0 == t
  {
  }

  /** A template net is voted by ps exactly when it is voted before the last pair or by it. */
  lemma VotedSnoc(ps: seq<NetPair>)
    requires ps != []
    ensures forall t :: Voted(ps, t) <==> Voted(ps[..|ps| - 1], t) || ps[|ps| - 1].0 == t
  {
    var init := ps[..|ps| - 1];
    forall t ensures Voted(ps, t) <==> Voted(init, t) || ps[|ps| - 1].0 == t {
      if Voted(ps, t) {
        var k :| 0 <= k < |ps| && ps[k].0 == t;
        if k < |init| { assert init[k] == ps[k]; }
      }
      if Voted(init, t) {
        var k :| 0 <= k < |init| && init[k].0 == t;
        assert ps[k] == init[k];
      }
    }
  }

  /**
   * netVotes for a list of pairs, as layout_cloner.py:104-110 builds it from
   * nothing: entry [t][c] is the number of pairs voting t -> c, a row exists
   * exactly for the template nets that were voted, and a clone net appears in
   * a row exactly when it got a vote.
   */
  lemma FreshTally(ps: seq<NetPair>)
    ensures Positive(Tally(map[], ps))
    ensures forall t, c :: VoteOf(Tally(map[], ps), t, c) == Count(ps, t, c)
    ensures forall t :: t in Tally(map[], ps) <==> Voted(ps, t)
    ensures forall t, c :: t in Tally(map[], ps) && c in Tally(map[], ps)[t] <==> Count(ps, t, c) > 0
  {
    TallyCounts(map[], ps);
  }

  lemma NonEmptyHasElement(s: set<int>)
    requires s != {}
    ensures exists x :: x in s
  {
    assert (forall x :: x !in s) ==> s == {};
  }

  /** A map has more than one key exactly when it has two different keys. */
  lemma SeveralKeys(m: map<int, nat>)
    ensures |m| > 1 <==> exists a, b :: a in m && b in m && a != b
  {
    if |m| > 1 {
      assert m.Keys != {};
      NonEmptyHasElement(m.Keys);
      var a :| a in m;
      assert |m.Keys - {a}| == |m.Keys| - 1;
      NonEmptyHasElement(m.Keys - {a});
      var b :| b in m.Keys - {a};
    }
    if exists a, b :: a in m && b in m && a != b {
      var a, b :| a in m && b in m && a != b;
      assert {a, b} <= m.Keys;
      assert |m.Keys - {a, b}| == |m.Keys| - 2;
    }
  }

  /** The non-unanimous warning (`len(votes) > 1`) is raised exactly when the vote is disputed. */
  lemma DisputedRow(ps: seq<NetPair>, t: int)
    requires t in Tally(map[], ps)
    ensures |Tally(map[], ps)[t]| > 1 <==> Disputed(ps, t)
  {
    FreshTally(ps);
    var row := Tally(map[], ps)[t];
    SeveralKeys(row);
    if Disputed(ps, t) {
      var c1, c2 :| c1 != c2 && Count(ps, t, c1) > 0 && Count(ps, t, c2) > 0;
      assert c1 in row && c2 in row;
    }
  }

  /** Only the clone nets voted for t can win its row. */
  lemma OnlyVotedWin(ps: seq<NetPair>, t: int, best: int)
    requires t in Tally(map[], ps) && IsMostVoted(Tally(map[], ps)[t], best)
    ensures Count(ps, t, best) > 0
    ensures forall c :: Count(ps, t, c) <= Count(ps, t, best)
  {
    FreshTally(ps);
    forall c
      ensures Count(ps, t, c) <= Count(ps, t, best)
    {
      assert VoteOf(Tally(map[], ps), t, c) == Count(ps, t, c);
    }
  }

  /** One more pair adds one to its own count only. */
  lemma CountSnoc(ps: seq<NetPair>, p: NetPair)
    ensures forall t, c :: Count(ps + [p], t, c) == Count(ps, t, c) + (if p == (t, c) then 1 else 0)
  {
    assert (ps + [p])[..|ps|] == ps;
  }

  /** Two pad pairs both voting 5 -> 12: net 5 maps to 12 and no warning is printed. */
  lemma UnanimousVote(best: int)
    ensures var ps: seq<NetPair> := [(5, 12), (5, 12)];
      && 5 in Tally(map[], ps) && |Tally(map[], ps)[5]| == 1
      && (IsMostVoted(Tally(map[], ps)[5], best) <==> best == 12)
  {
    var ps: seq<NetPair> := [(5, 12), (5, 12)];
    CountSnoc([], (5, 12));
    CountSnoc([(5, 12)], (5, 12));
    assert [] + [(5, 12)] == [(5, 12)] && [(5, 12)] + [(5, 12)] == ps;
    FreshTally(ps);
    assert Voted(ps, 5) by { assert ps[0].0 == 5; }
    var row := Tally(map[], ps)[5];
    assert 12 in row;
    assert row.Keys == {12};
    DisputedRow(ps, 5);
    if IsMostVoted(row, best) {
      OnlyVotedWin(ps, 5, best);
    }
  }

  /** Three pad pairs voting 5 -> 7 and one voting 5 -> 9: net 5 maps to 7 and a warning is printed. */
  lemma MajorityVote(best: int)
    ensures var ps: seq<NetPair> := [(5, 7), (5, 9), (5, 7), (5, 7)];
      && 5 in Tally(map[], ps) && |Tally(map[], ps)[5]| > 1
      && (IsMostVoted(Tally(map[], ps)[5], best) <==> best == 7)
  {
    var p1: seq<NetPair> := [(5, 7)];
    var p2 := p1 + [(5, 9)];
    var p3 := p2 + [(5, 7)];
    var ps := p3 + [(5, 7)];
    assert ps == [(5, 7), (5, 9), (5, 7), (5, 7)];
    CountSnoc([], (5, 7));
    assert [] + [(5, 7)] == p1;
    CountSnoc(p1, (5, 9));
    CountSnoc(p2, (5, 7));
    CountSnoc(p3, (5, 7));
    assert Count(ps, 5, 7) == 3 && Count(ps, 5, 9) == 1;
    FreshTally(ps);
    assert Voted(ps, 5) by { assert ps[0].0 == 5; }
    DisputedRow(ps, 5);
    var row := Tally(map[], ps)[5];
    assert 7 in row && row[7] == 3;
    if IsMostVoted(row, best) {
      OnlyVotedWin(ps, 5, best);
    }
  }

  /**
   * The pad loop of layout_cloner.py:104-110 for one template module and its
   * clone: it votes every zipped pair, and it stops (the assert fails) on the
   * first pair whose pad names differ.
   */
  method TallyPads(votes: VoteTable, tp: seq<Pad>, cp: seq<Pad>) returns (out: VoteTable, namesAgree: bool)
    ensures namesAgree <==> PadNamesAgree(tp, cp)
    ensures namesAgree ==> out == Tally(votes, ZipNets(tp, cp))
  {
    var ps := ZipNets(tp, cp);
    out := votes;
    for j := 0 to |ps|
      invariant out == Tally(votes, ps[..j])
      invariant forall k :: 0 <= k < j ==> tp[k].name == cp[k].name
    {
      if tp[j].name != cp[j].name {
        return out, false;
      }
      assert ps[..j + 1][..j] == ps[..j];
      out := AddVote(out, (tp[j].net, cp[j].net));
    }
    assert ps[..|ps|] == ps;
    namesAgree := true;
  }

  /**
   * `max(votes, key=votes.get)` (layout_cloner.py:123): the clone nets are
   * visited in dict order, and a later one replaces the best so far only with
   * strictly more votes, so the first of the tied maxima in that order wins.
   */
  method ChooseClone(row: map<int, nat>) returns (best: int)
    requires |row| > 0
    ensures IsMostVoted(row, best)
  {
    var cs := IterationOrder(row.Keys);
    assert |row.Keys| == |row|;
    NonEmptyHasElement(row.Keys);
    best := cs[0];
    for k := 1 to |cs|
      invariant best in row
      invariant forall j :: 0 <= j < k ==> row[cs[j]] <= row[best]
    {
      if row[cs[k]] > row[best] {
        best := cs[k];
      }
    }
  }

  /** Every row of nm has one slot per clone index 0 .. n. */
  predicate RowsOfLength(nm: NetMap, n: int)
  {
    forall t :: t in nm ==> |nm[t]| == n + 1
  }

  /** Row t of nm, or a fresh row of n + 1 empty slots (`[None] * (numberOfClones + 1)`). */
  function RowOf(nm: NetMap, n: nat, t: int): (row: seq<Option<int>>)
    requires RowsOfLength(nm, n)
    ensures |row| == n + 1
  {
    if t in nm then nm[t] else seq(n + 1, _ => None)
  }

  /** best is a clone net with the most votes in row. */
  predicate IsMostVoted(row: map<int, nat>, best: int)
  {
    best in row && forall c :: c in row ==> row[c] <= row[best]
  }

  /** No template net occurs twice in ks. */
  predicate Distinct(ks: seq<int>)
  {
    forall j, k :: 0 <= j < k < |ks| ==> ks[j] != ks[k]
  }

  /** nm after writing winners[j] into slot i of row ks[j], for j = 0, 1, ... in turn. */
  function RecordAll(nm: NetMap, ks: seq<int>, winners: seq<int>, i: nat, n: nat): (r: NetMap)
    requires |ks| == |winners| && i < n + 1 && RowsOfLength(nm, n)
    ensures RowsOfLength(r, n)
  {
    if ks == [] then nm
    else
      var cur := RecordAll(nm, ks[..|ks| - 1], winners[..|ks| - 1], i, n);
      var t := ks[|ks| - 1];
      cur[t := RowOf(cur, n, t)[i := Some(winners[|ks| - 1])]]
  }

  /**
   * What recording the winners does to the net map: row ks[j] gets winners[j]
   * in slot i and keeps its other slots (a new row has them empty); every
   * other row is untouched.
   */
  lemma {:induction false} RecordAllRows(nm: NetMap, ks: seq<int>, winners: seq<int>, i: nat, n: nat)
    requires |ks| == |winners| && i < n + 1 && RowsOfLength(nm, n) && Distinct(ks)
    ensures forall t :: t in RecordAll(nm, ks, winners, i, n) <==> t in nm || t in ks
    ensures forall t :: t in nm && t !in ks ==> RecordAll(nm, ks, winners, i, n)[t] == nm[t]
    ensures forall j :: 0 <= j < |ks| ==> RecordAll(nm, ks, winners, i, n)[ks[j]] == RowOf(nm, n, ks[j])[i := Some(winners[j])]
    decreases |ks|
  {
    if ks != [] {
      var m := |ks| - 1;
      var ks', ws' := ks[..m], winners[..m];
      RecordAllRows(nm, ks', ws', i, n);
      var cur := RecordAll(nm, ks', ws', i, n);
      assert ks[m] !in ks';
      assert RowOf(cur, n, ks[m]) == RowOf(nm, n, ks[m]);
      forall j | 0 <= j < m
        ensures RecordAll(nm, ks, winners, i, n)[ks[j]] == RowOf(nm, n, ks[j])[i := Some(winners[j])]
      {
        assert ks'[j] == ks[j] && ws'[j] == winners[j];
      }
      forall t | t in ks
        ensures t in ks' || t == ks[m]
      {
        var j :| 0 <= j < |ks| && ks[j] == t;
        if j < m { assert ks'[j] == t; }
      }
    }
  }

  /**
   * The warnings of layout_cloner.py:118-121 for clone i over the template
   * nets ks: one per net that received votes for more than one clone net.
   */
  ghost predicate Disputes(votes: VoteTable, ks: seq<int>, i: nat, warnings: seq<Warning>)
  {
    forall w :: w in warnings <==> w.NonUnanimous? && w.clone == i && w.net in ks && w.net in votes && |votes[w.net]| > 1
  }

  /** Recording the winner of one more key, as the loop of RecordClone does. */
  lemma RecordAllNext(nm: NetMap, ks: seq<int>, winners: seq<int>, i: nat, n: nat, k: nat, best: int)
    requires k < |ks| && |winners| == k && i < n + 1 && RowsOfLength(nm, n)
    ensures var cur := RecordAll(nm, ks[..k], winners, i, n);
      RecordAll(nm, ks[..k + 1], winners + [best], i, n) == cur[ks[k] := RowOf(cur, n, ks[k])[i := Some(best)]]
  {
    assert ks[..k + 1][..k] == ks[..k];
    assert (winners + [best])[..k] == winners;
  }

  /** The messages for one more key: a disputed key adds its message. */
  lemma DisputesNext(votes: VoteTable, ks: seq<int>, k: nat, i: nat, said: seq<Warning>, warnings: seq<Warning>)
    requires k < |ks| && ks[k] in votes
    requires Disputes(votes, ks[..k], i, said)
    requires warnings == if |votes[ks[k]]| > 1 then said + [NonUnanimous(ks[k], i)] else said
    ensures Disputes(votes, ks[..k + 1], i, warnings)
  {
    assert ks[..k + 1] == ks[..k] + [ks[k]];
  }

  /**
   * The order in which `for templateCode in netVotes` visits the template
   * nets: every key once, in an order the model leaves open.
   */
  method IterationOrder(keys: set<int>) returns (ks: seq<int>)
    ensures Distinct(ks)
    ensures forall t :: t in ks <==> t in keys
  {
    ks := [];
    var rest := keys;
    while rest != {}
      invariant rest <= keys
      invariant forall t :: t in ks <==> t in keys && t !in rest
      invariant Distinct(ks)
      decreases |rest|
    {
      NonEmptyHasElement(rest);
      var t :| t in rest;
      ks := ks + [t];
      rest := rest - {t};
    }
  }

  /**
   * The loop of layout_cloner.py:116-123 for clone i: for every template net
   * with votes, in iteration order ks, it warns when more than one clone net
   * was voted, creates the net's row of n + 1 empty slots if it has none, and
   * writes a clone net with the most votes into slot i.
   */
  method RecordClone(votes: VoteTable, nm: NetMap, i: nat, n: nat) returns (nm': NetMap, warnings: seq<Warning>, ks: seq<int>, ghost winners: seq<int>)
    requires i < n + 1
    requires forall t :: t in votes ==> |votes[t]| > 0
    requires RowsOfLength(nm, n)
    ensures Distinct(ks) && forall t :: t in ks <==> t in votes
    ensures |winners| == |ks| && forall j :: 0 <= j < |ks| ==> ks[j] in votes && IsMostVoted(votes[ks[j]], winners[j])
    ensures nm' == RecordAll(nm, ks, winners, i, n)
    ensures Disputes(votes, ks, i, warnings)
  {
    ks := IterationOrder(votes.Keys);
    nm' := nm;
    warnings := [];
    winners := [];
    for k := 0 to |ks|
      invariant |winners| == k
      invariant forall j :: 0 <= j < k ==> ks[j] in votes && IsMostVoted(votes[ks[j]], winners[j])
      invariant nm' == RecordAll(nm, ks[..k], winners, i, n)
      invariant Disputes(votes, ks[..k], i, warnings)
    {
      var t := ks[k];
      ghost var said := warnings;
      if |votes[t]| > 1 {
        warnings := warnings + [NonUnanimous(t, i)];
      }
      DisputesNext(votes, ks, k, i, said, warnings);
      var best := ChooseClone(votes[t]);
      RecordAllNext(nm, ks, winners, i, n, k, best);
      nm' := nm'[t := RowOf(nm', n, t)[i := Some(best)]];
      winners := winners + [best];
    }
    assert ks[..|ks|] == ks;
  }
}
