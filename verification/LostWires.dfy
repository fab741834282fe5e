/** What a rollback leaves behind when reads of inputs were swallowed: a wire that was journaled wrongly is lost. */
module LostWires {
  import opened Wrappers
  import opened Contracts
  import opened SceneGraph
  import opened Transactions
  import opened Glances

  /** An input of a node. */
  type Slot = (Path, nat)

  /** The inputs that end up holding something else than before, with what they hold. */
  type Lost = map<Slot, Option<Wire>>

  function Relaid(inputs: map<nat, Wire>, p: Path, lost: Lost): map<nat, Wire> {
    map i | i in inputs && ((p, i) in lost ==> lost[(p, i)].Some?)
       :: if (p, i) in lost then lost[(p, i)].value else inputs[i]
  }

  /** A scene with some of its inputs lost. */
  function Without(g: Graph, lost: Lost): Graph {
    map p | p in g :: g[p].(inputs := Relaid(g[p].inputs, p, lost))
  }

  /** Each lost input held a wire, and holds no wire or one from another output now. */
  predicate LostFrom(g: Graph, lost: Lost) {
    forall s :: s in lost ==>
      && InputAt(g, s.0, s.1).Some? && lost[s] != InputAt(g, s.0, s.1)
      && (lost[s].Some? ==> ShownInput(InputAt(g, s.0, s.1).value, lost[s].value))
  }

  lemma WithoutNothing(g: Graph)
    ensures Without(g, map[]) == g
  {
    assert forall p :: p in g ==> Relaid(g[p].inputs, p, map[]) == g[p].inputs;
  }

  lemma WithoutInput(g: Graph, lost: Lost, p: Path, i: nat)
    requires LostFrom(g, lost)
    ensures InputAt(Without(g, lost), p, i) == if (p, i) in lost then lost[(p, i)] else InputAt(g, p, i)
  {
  }

  lemma WithoutOne(g: Graph, p: Path, i: nat)
    requires InputAt(g, p, i).Some?
    ensures Without(g, map[(p, i) := None]) == WithInput(g, p, i, None)
    ensures LostFrom(g, map[(p, i) := None])
  {
    var lost: Lost := map[(p, i) := None];
    forall q | q in g && q != p ensures Relaid(g[q].inputs, q, lost) == g[q].inputs { }
    assert Relaid(g[p].inputs, p, lost) == g[p].inputs - {i};
  }

  /** The scene is as it was if and only if nothing was lost. */
  lemma WithoutIff(g: Graph, lost: Lost)
    requires LostFrom(g, lost)
    ensures Without(g, lost) == g <==> lost == map[]
  {
    if lost == map[] { WithoutNothing(g); }
    if Without(g, lost) == g {
      forall s | s in lost ensures false { WithoutInput(g, lost, s.0, s.1); }
      assert lost.Keys == {};
    }
  }

  // ---- journals as they are written --------------------------------------

  /** The inverse as it was journaled, and the one a true read would have given. */
  predicate ShownInverse(t: Inverse, v: Inverse) {
    if t.UndoWire? then
      v.UndoWire? && v.target == t.target && v.input == t.input && ShownSource(t.source, v.source)
    else v == t
  }

  predicate ShownJournal(truth: seq<Inverse>, journal: seq<Inverse>) {
    |journal| == |truth| && forall k :: 0 <= k < |truth| ==> ShownInverse(truth[k], journal[k])
  }

  predicate Relays(inv: Inverse, s: Slot) {
    inv.UndoWire? && (inv.target.path, inv.input) == s
  }

  /** The oldest entry about an input: the last one that a rollback runs. */
  predicate FirstFor(journal: seq<Inverse>, k: int, s: Slot) {
    0 <= k < |journal| && Relays(journal[k], s) && forall j :: 0 <= j < k ==> !Relays(journal[j], s)
  }

  /** The inputs of the first scene that were replaced hold, in the oldest entry, what was there; the others are as
      they were. */
  ghost predicate Replaced(g0: Graph, g: Graph, truth: seq<Inverse>) {
    && (forall k :: 0 <= k < |truth| && truth[k].UndoWire? && truth[k].target.path in g0
                    && FirstFor(truth, k, (truth[k].target.path, truth[k].input)) ==>
          WireOf(truth[k].source) == InputAt(g0, truth[k].target.path, truth[k].input))
    && (forall p, i: nat :: p in g0 && p in g && (forall k :: 0 <= k < |truth| ==> !Relays(truth[k], (p, i))) ==>
          InputAt(g, p, i) == InputAt(g0, p, i))
  }

  /** An oldest entry about an input of the first scene that does not hold what was there. */
  predicate Misread(g0: Graph, journal: seq<Inverse>, k: int) {
    && 0 <= k < |journal| && journal[k].UndoWire? && journal[k].target.path in g0
    && FirstFor(journal, k, (journal[k].target.path, journal[k].input))
    && WireOf(journal[k].source) != InputAt(g0, journal[k].target.path, journal[k].input)
  }

  /** Every wire of the first scene that the run replaced was read truly when it was journaled. */
  predicate ReadTruly(g0: Graph, journal: seq<Inverse>) {
    forall k :: 0 <= k < |journal| ==> !Misread(g0, journal, k)
  }

  function LostBy(g0: Graph, journal: seq<Inverse>): Lost {
    map k | 0 <= k < |journal| && Misread(g0, journal, k)
       :: (journal[k].target.path, journal[k].input) := WireOf(journal[k].source)
  }

  // ---- one step of the run -----------------------------------------------

  /** An operation changes at most the input it journals, and journals what was there. */
  lemma ReplacedStep(g0: Graph, g: Graph, h: Graph, truth: seq<Inverse>, inv: Inverse)
    requires Replaced(g0, g, truth)
    requires forall p, i: nat :: p in g0 && p in h && !Relays(inv, (p, i)) ==>
               p in g && InputAt(h, p, i) == InputAt(g, p, i)
    requires inv.UndoWire? ==> inv.target.path in g && WireOf(inv.source) == InputAt(g, inv.target.path, inv.input)
    ensures Replaced(g0, h, truth + [inv])
  {
    var next, n := truth + [inv], |truth|;
    assert forall k :: 0 <= k < n ==> next[k] == truth[k];
    forall k | 0 <= k <= n && next[k].UndoWire? && next[k].target.path in g0
               && FirstFor(next, k, (next[k].target.path, next[k].input))
      ensures WireOf(next[k].source) == InputAt(g0, next[k].target.path, next[k].input)
    {
      var s := (next[k].target.path, next[k].input);
      if k < n {
        assert FirstFor(truth, k, s);
      } else {
        forall j | 0 <= j < n ensures !Relays(truth[j], s) { assert !Relays(next[j], s); }
      }
    }
    forall p, i: nat | p in g0 && p in h && (forall k :: 0 <= k <= n ==> !Relays(next[k], (p, i)))
      ensures InputAt(h, p, i) == InputAt(g0, p, i)
    {
      assert !Relays(next[n], (p, i));
      forall k | 0 <= k < n ensures !Relays(truth[k], (p, i)) { assert !Relays(next[k], (p, i)); }
    }
  }

  // ---- the reverse pass --------------------------------------------------

  /** A scene without its wires. */
  function Bare(g: Graph): Graph {
    map p | p in g :: g[p].(inputs := map[])
  }

  lemma BareUndo(a: Graph, b: Graph, t: Inverse, v: Inverse)
    requires Bare(a) == Bare(b) && ShownInverse(t, v)
    ensures Bare(Undo(a, v)) == Bare(Undo(b, t))
  {
    BareParts(a, b);
    var x, y := Undo(a, v), Undo(b, t);
    assert x.Keys == y.Keys;
    forall p | p in x ensures x[p].(inputs := map[]) == y[p].(inputs := map[]) { }
  }

  lemma BareParts(a: Graph, b: Graph)
    requires Bare(a) == Bare(b)
    ensures a.Keys == b.Keys && forall p :: p in a ==> a[p].(inputs := map[]) == b[p].(inputs := map[])
  {
    assert a.Keys == Bare(a).Keys && b.Keys == Bare(b).Keys;
    forall p | p in a ensures a[p].(inputs := map[]) == b[p].(inputs := map[]) {
      assert Bare(a)[p] == Bare(b)[p];
    }
  }

  /** Whatever was read of wires, everything else comes back the same. */
  lemma {:induction false} BareUndoAll(a: Graph, b: Graph, truth: seq<Inverse>, journal: seq<Inverse>)
    requires Bare(a) == Bare(b) && ShownJournal(truth, journal)
    ensures Bare(UndoAll(a, journal)) == Bare(UndoAll(b, truth))
    decreases |journal|
  {
    hide Undo, Bare, ShownInverse;
    if journal != [] {
      var n := |journal| - 1;
      BareUndo(a, b, truth[n], journal[n]);
      BareUndoAll(Undo(a, journal[n]), Undo(b, truth[n]), truth[..n], journal[..n]);
    }
  }

  lemma {:induction false} KeysShrink(g: Graph, journal: seq<Inverse>)
    ensures UndoAll(g, journal).Keys <= g.Keys
    decreases |journal|
  {
    if journal != [] {
      KeysShrink(Undo(g, journal[|journal| - 1]), journal[..|journal| - 1]);
      assert Undo(g, journal[|journal| - 1]).Keys <= g.Keys;
    }
  }

  lemma SlotThrough(g: Graph, inv: Inverse, p: Path, i: nat)
    requires !Relays(inv, (p, i)) && p in Undo(g, inv)
    requires InputAt(g, p, i).Some? ==> InputAt(g, p, i).value.src in Undo(g, inv)
    ensures InputAt(Undo(g, inv), p, i) == InputAt(g, p, i)
  {
  }

  /** An input that no entry is about keeps its wire, as long as node and source last. */
  lemma {:induction false} SlotKept(g: Graph, journal: seq<Inverse>, p: Path, i: nat)
    requires forall k :: 0 <= k < |journal| ==> !Relays(journal[k], (p, i))
    requires p in UndoAll(g, journal)
    requires InputAt(g, p, i).Some? ==> InputAt(g, p, i).value.src in UndoAll(g, journal)
    ensures InputAt(UndoAll(g, journal), p, i) == InputAt(g, p, i)
    decreases |journal|
  {
    hide Undo, InputAt;
    if journal != [] {
      var n := |journal| - 1;
      var h, front := Undo(g, journal[n]), journal[..n];
      KeysShrink(h, front);
      SlotThrough(g, journal[n], p, i);
      forall k | 0 <= k < n ensures !Relays(front[k], (p, i)) { assert front[k] == journal[k]; }
      SlotKept(h, front, p, i);
    }
  }

  lemma SlotRelaid(g: Graph, inv: Inverse, p: Path, i: nat)
    requires Relays(inv, (p, i)) && p in g
    ensures InputAt(Undo(g, inv), p, i) == WireOf(inv.source)
  {
  }

  /** The oldest entry about an input has the last word. */
  lemma {:induction false} SlotSet(g: Graph, journal: seq<Inverse>, k: nat, p: Path, i: nat)
    requires FirstFor(journal, k, (p, i)) && p in UndoAll(g, journal)
    requires WireOf(journal[k].source).Some? ==> WireOf(journal[k].source).value.src in UndoAll(g, journal)
    ensures InputAt(UndoAll(g, journal), p, i) == WireOf(journal[k].source)
    decreases |journal|
  {
    hide Undo, InputAt, Relays;
    var n := |journal| - 1;
    var h, front := Undo(g, journal[n]), journal[..n];
    KeysShrink(g, journal);
    KeysShrink(h, front);
    assert forall j :: 0 <= j < n ==> front[j] == journal[j];
    if k == n {
      SlotRelaid(g, journal[n], p, i);
      SlotKept(h, front, p, i);
    } else {
      SlotSet(h, front, k, p, i);
    }
  }

  function OldestFor(journal: seq<Inverse>, s: Slot): (k: int)
    ensures -1 <= k < |journal|
    ensures k >= 0 ==> FirstFor(journal, k, s)
    ensures k < 0 ==> forall j :: 0 <= j < |journal| ==> !Relays(journal[j], s)
  {
    if journal == [] then -1 else
    var n := |journal| - 1;
    var k := OldestFor(journal[..n], s);
    assert forall j :: 0 <= j < n ==> journal[..n][j] == journal[j];
    if k >= 0 then k else if Relays(journal[n], s) then n else -1
  }

  lemma SameFirst(truth: seq<Inverse>, journal: seq<Inverse>, k: int, s: Slot)
    requires ShownJournal(truth, journal)
    ensures FirstFor(truth, k, s) <==> FirstFor(journal, k, s)
  {
    assert forall j :: 0 <= j < |truth| ==> (Relays(truth[j], s) <==> Relays(journal[j], s)) by {
      forall j | 0 <= j < |truth| ensures Relays(truth[j], s) <==> Relays(journal[j], s) {
        assert ShownInverse(truth[j], journal[j]);
      }
    }
  }

  lemma MisreadOf(g0: Graph, truth: seq<Inverse>, journal: seq<Inverse>, k: int, p: Path, i: nat)
    requires Tree(g0) && p in g0 && ShownJournal(truth, journal) && FirstFor(journal, k, (p, i))
    requires WireOf(truth[k].source) == InputAt(g0, p, i)
    ensures ShownInverse(truth[k], journal[k])
    ensures WireOf(journal[k].source).Some? ==> WireOf(journal[k].source).value.src in g0
    ensures Misread(g0, journal, k) <==> (p, i) in LostBy(g0, journal)
    ensures (p, i) in LostBy(g0, journal) ==> LostBy(g0, journal)[(p, i)] == WireOf(journal[k].source)
    ensures !Misread(g0, journal, k) ==> WireOf(journal[k].source) == InputAt(g0, p, i)
  {
    assert ShownInverse(truth[k], journal[k]);
    var lost := LostBy(g0, journal);
    if (p, i) in lost {
      var j :| 0 <= j < |journal| && Misread(g0, journal, j) && (journal[j].target.path, journal[j].input) == (p, i);
      assert Relays(journal[j], (p, i)) && Relays(journal[k], (p, i));
      assert j == k;
    }
  }

  /** One input after the reverse pass. */
  lemma SlotAfter(g0: Graph, h: Graph, truth: seq<Inverse>, journal: seq<Inverse>, p: Path, i: nat)
    requires Tree(g0) && ShownJournal(truth, journal) && Replaced(g0, h, truth)
    requires UndoAll(h, journal).Keys == g0.Keys && p in g0
    ensures InputAt(UndoAll(h, journal), p, i)
         == if (p, i) in LostBy(g0, journal) then LostBy(g0, journal)[(p, i)] else InputAt(g0, p, i)
  {
    hide ShownInverse, Misread, LostBy, UndoAll;
    KeysShrink(h, journal);
    var s := (p, i);
    var k := OldestFor(journal, s);
    if k >= 0 {
      SameFirst(truth, journal, k, s);
      FirstHolds(g0, h, truth, k, p, i);
      MisreadOf(g0, truth, journal, k, p, i);
      SlotSet(h, journal, k, p, i);
    } else {
      NotLost(g0, journal, s);
      forall j | 0 <= j < |truth| ensures !Relays(truth[j], s) {
        if FirstFor(truth, j, s) { SameFirst(truth, journal, j, s); }
        RelaysShown(truth, journal, j, s);
      }
      assert InputAt(h, p, i) == InputAt(g0, p, i);
      SlotKept(h, journal, p, i);
    }
  }

  lemma FirstHolds(g0: Graph, g: Graph, truth: seq<Inverse>, k: int, p: Path, i: nat)
    requires Replaced(g0, g, truth) && FirstFor(truth, k, (p, i)) && p in g0
    ensures WireOf(truth[k].source) == InputAt(g0, p, i)
  {
    assert Relays(truth[k], (p, i));
  }

  lemma RelaysShown(truth: seq<Inverse>, journal: seq<Inverse>, j: int, s: Slot)
    requires ShownJournal(truth, journal) && 0 <= j < |truth|
    ensures Relays(truth[j], s) <==> Relays(journal[j], s)
  {
    assert ShownInverse(truth[j], journal[j]);
  }

  lemma MisreadRelays(g0: Graph, journal: seq<Inverse>, j: int)
    requires Misread(g0, journal, j)
    ensures Relays(journal[j], (journal[j].target.path, journal[j].input))
    ensures (journal[j].target.path, journal[j].input) in LostBy(g0, journal)
  {
  }

  lemma NotLost(g0: Graph, journal: seq<Inverse>, s: Slot)
    requires forall j :: 0 <= j < |journal| ==> !Relays(journal[j], s)
    ensures s !in LostBy(g0, journal)
  {
  }

  lemma LostTruly(g0: Graph, h: Graph, truth: seq<Inverse>, journal: seq<Inverse>)
    requires Tree(g0) && ShownJournal(truth, journal) && Replaced(g0, h, truth)
    ensures LostFrom(g0, LostBy(g0, journal))
  {
    var lost := LostBy(g0, journal);
    forall s | s in lost
      ensures InputAt(g0, s.0, s.1).Some? && lost[s] != InputAt(g0, s.0, s.1)
      ensures lost[s].Some? ==> ShownInput(InputAt(g0, s.0, s.1).value, lost[s].value)
    {
      var k :| 0 <= k < |journal| && Misread(g0, journal, k) && (journal[k].target.path, journal[k].input) == s;
      SameFirst(truth, journal, k, s);
      FirstHolds(g0, h, truth, k, s.0, s.1);
      MisreadOf(g0, truth, journal, k, s.0, s.1);
    }
  }

  /** After a reverse pass in which every inverse did what it is meant to do, the scene is the first one without the
      wires that were read wrongly when they were replaced. */
  lemma UndoneShown(g0: Graph, h: Graph, fp: Footprint, truth: seq<Inverse>, journal: seq<Inverse>)
    requires TxInv(g0, h, fp, truth) && ShownJournal(truth, journal) && Replaced(g0, h, truth)
    ensures UndoAll(h, journal) == Without(g0, LostBy(g0, journal)) && LostFrom(g0, LostBy(g0, journal))
  {
    hide Confined, InverseSound, JournalOrdered, Replaced, ShownJournal, LostBy, LostFrom, Relaid, UndoAll, Bare;
    var x, lost := UndoAll(h, journal), LostBy(g0, journal);
    assert UndoAll(h, truth) == g0;
    BareUndoAll(h, h, truth, journal);
    BareParts(x, g0);
    LostTruly(g0, h, truth, journal);
    var y := Without(g0, lost);
    forall p, i: nat | p in x ensures InputAt(x, p, i) == InputAt(y, p, i) {
      SlotAfter(g0, h, truth, journal, p, i);
      WithoutInput(g0, lost, p, i);
    }
    SameInputs(x, y);
  }

  lemma SameInputs(x: Graph, y: Graph)
    requires x.Keys == y.Keys && forall p :: p in x ==> x[p].(inputs := map[]) == y[p].(inputs := map[])
    requires forall p, i: nat :: p in x ==> InputAt(x, p, i) == InputAt(y, p, i)
    ensures x == y
  {
    forall p | p in x ensures x[p] == y[p] {
      forall i: nat ensures (i in x[p].inputs <==> i in y[p].inputs)
                            && (i in x[p].inputs ==> x[p].inputs[i] == y[p].inputs[i]) {
        assert InputAt(x, p, i) == InputAt(y, p, i);
      }
      assert x[p].inputs == y[p].inputs;
    }
  }

  /** The exact condition: an undone run gives the first scene back if and only if every wire of that scene that it
      replaced was read truly. */
  lemma RestoredIff(g0: Graph, h: Graph, fp: Footprint, truth: seq<Inverse>, journal: seq<Inverse>)
    requires TxInv(g0, h, fp, truth) && ShownJournal(truth, journal) && Replaced(g0, h, truth)
    ensures UndoAll(h, journal) == g0 <==> ReadTruly(g0, journal)
  {
    hide TxInv, ShownJournal, Replaced, Misread, LostFrom;
    UndoneShown(g0, h, fp, truth, journal);
    WithoutIff(g0, LostBy(g0, journal));
    NothingLostIff(g0, journal);
  }

  lemma NothingLostIff(g0: Graph, journal: seq<Inverse>)
    ensures LostBy(g0, journal) == map[] <==> ReadTruly(g0, journal)
  {
    hide Misread;
    forall k | 0 <= k < |journal| && Misread(g0, journal, k) ensures LostBy(g0, journal) != map[] {
      MisreadRelays(g0, journal, k);
    }
  }

  // ---- a journal as it was read serves a rollback as well ----------------

  lemma ShownSound(g: Graph, fp: Footprint, truth: seq<Inverse>, journal: seq<Inverse>)
    requires ShownJournal(truth, journal) && forall inv :: inv in truth ==> InverseSound(g, fp, inv)
    ensures forall inv :: inv in journal ==> InverseSound(g, fp, inv)
  {
    forall inv | inv in journal ensures InverseSound(g, fp, inv) {
      var k :| 0 <= k < |journal| && journal[k] == inv;
      assert ShownInverse(truth[k], journal[k]) && truth[k] in truth;
    }
  }

  lemma ShownOrdered(truth: seq<Inverse>, journal: seq<Inverse>)
    requires ShownJournal(truth, journal) && JournalOrdered(truth)
    ensures JournalOrdered(journal)
  {
    forall k, j, p | 0 <= k < j < |journal| && journal[j].UndoCreate? && p in UndonePaths(journal[k])
      ensures !(journal[j].path <= p)
    {
      assert ShownInverse(truth[k], journal[k]) && ShownInverse(truth[j], journal[j]);
      assert p in UndonePaths(truth[k]);
    }
  }

  lemma ShownNext(truth: seq<Inverse>, journal: seq<Inverse>, t: Inverse, v: Inverse)
    requires ShownJournal(truth, journal) && ShownInverse(t, v)
    ensures ShownJournal(truth + [t], journal + [v])
  {
  }
}
