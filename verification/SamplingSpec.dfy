/** One sample-and-restore cycle as values: which slots were written, and what is left after the restore. */
module SamplingSpec {
  import opened Wrappers
  import opened Contracts
  import opened SceneGraph
  import opened Preflight

  datatype SampleTarget = SampleTarget(nodeId: Option<string>, path: Path, parm: string, value: string)

  datatype SampleReply = SampleRejected(code: Code) | SampleInvalid | SampleAborted | SampleRestoreFailed | Sampled

  /** A resolved target with the value found before the first write. */
  datatype Probe = Probe(path: Path, parm: string, value: string, original: string)

  function ProbeRef(t: SampleTarget): NodeRef {
    NodeRef(t.nodeId, t.path, "", None)
  }

  type ParmSlot = (Path, string)

  function SlotOf(p: Probe): ParmSlot {
    (p.path, p.parm)
  }

  function Slots(ps: seq<Probe>): set<ParmSlot> {
    set i | 0 <= i < |ps| :: SlotOf(ps[i])
  }

  ghost predicate Originals(g: Graph, ps: seq<Probe>) {
    forall i :: 0 <= i < |ps| ==> ParmAt(g, ps[i].path, ps[i].parm) == Some(ps[i].original)
  }

  /** The scenes agree except for the parameter values of the given slots. */
  ghost predicate AgreeOff(g: Graph, h: Graph, open: set<ParmSlot>) {
    && g.Keys == h.Keys
    && forall p :: p in g ==>
         && h[p].(parms := g[p].parms) == g[p]
         && (forall n :: (p, n) !in open ==> ParmAt(h, p, n) == ParmAt(g, p, n))
  }

  lemma AgreeNowhere(g: Graph, h: Graph)
    requires AgreeOff(g, h, {})
    ensures g == h
  {
    forall p | p in g ensures h[p].parms == g[p].parms {
      forall n ensures (n in h[p].parms <==> n in g[p].parms) && (n in g[p].parms ==> h[p].parms[n] == g[p].parms[n]) {
        assert ParmAt(h, p, n) == ParmAt(g, p, n);
      }
    }
  }

  lemma AgreeWrite(g: Graph, h: Graph, open: set<ParmSlot>, p: Path, n: string, v: string)
    requires AgreeOff(g, h, open) && ParmAt(h, p, n).Some?
    ensures AgreeOff(g, WithParm(h, p, n, v), open + {(p, n)})
  {
    var k := WithParm(h, p, n, v);
    forall q, m | q in g && (q, m) !in open + {(p, n)} ensures ParmAt(k, q, m) == ParmAt(g, q, m) {
      assert ParmAt(h, q, m) == ParmAt(g, q, m);
    }
  }

  lemma AgreeRestore(g: Graph, h: Graph, open: set<ParmSlot>, p: Path, n: string, v: string)
    requires AgreeOff(g, h, open) && ParmAt(h, p, n).Some? && ParmAt(g, p, n) == Some(v)
    ensures AgreeOff(g, WithParm(h, p, n, v), open - {(p, n)})
  {
    var k := WithParm(h, p, n, v);
    forall q, m | q in g && (q, m) !in open - {(p, n)} ensures ParmAt(k, q, m) == ParmAt(g, q, m) {
      if (q, m) != (p, n) { assert ParmAt(h, q, m) == ParmAt(g, q, m); }
    }
  }

  /** The scene with the samples written one after the other. */
  function Written(g: Graph, ps: seq<Probe>): Graph {
    if ps == [] then g else
    var h, last := Written(g, ps[..|ps| - 1]), ps[|ps| - 1];
    if last.path in h then WithParm(h, last.path, last.parm, last.value) else h
  }

  lemma WrittenNext(g: Graph, ps: seq<Probe>, k: nat)
    requires k < |ps| && ps[k].path in Written(g, ps[..k])
    ensures Written(g, ps[..k + 1]) == WithParm(Written(g, ps[..k]), ps[k].path, ps[k].parm, ps[k].value)
  {
    assert ps[..k + 1][..k] == ps[..k];
  }

  /** The sample is the last one of its slot. */
  predicate LastOf(ps: seq<Probe>, i: nat)
    requires i < |ps|
  {
    forall j :: i < j < |ps| ==> SlotOf(ps[j]) != SlotOf(ps[i])
  }

  /** Every slot holds its last sample; no other slot changes. */
  lemma {:induction false} WrittenHolds(g: Graph, ps: seq<Probe>)
    requires Originals(g, ps)
    ensures AgreeOff(g, Written(g, ps), Slots(ps))
    ensures forall i :: 0 <= i < |ps| && LastOf(ps, i) ==>
              ParmAt(Written(g, ps), ps[i].path, ps[i].parm) == Some(ps[i].value)
  {
    if ps != [] {
      var front, last := ps[..|ps| - 1], ps[|ps| - 1];
      assert ps == front + [last];
      WrittenHolds(g, front);
      var h := Written(g, front);
      assert ParmAt(g, last.path, last.parm).Some?;
      StillThere(g, front, h, last);
      AgreeWrite(g, h, Slots(front), last.path, last.parm, last.value);
      SlotsSnoc(front, last);
      forall i | 0 <= i < |front| && LastOf(ps, i) ensures ParmAt(Written(g, ps), ps[i].path, ps[i].parm) == Some(ps[i].value) {
        assert LastOf(front, i) by { forall j | i < j < |front| ensures SlotOf(front[j]) != SlotOf(front[i]) { assert front[j] == ps[j]; } }
        assert SlotOf(ps[|ps| - 1]) != SlotOf(ps[i]);
      }
    }
  }

  lemma StillThere(g: Graph, ps: seq<Probe>, h: Graph, p: Probe)
    requires AgreeOff(g, h, Slots(ps)) && ParmAt(g, p.path, p.parm).Some?
    requires forall i :: 0 <= i < |ps| && LastOf(ps, i) ==> ParmAt(h, ps[i].path, ps[i].parm) == Some(ps[i].value)
    ensures ParmAt(h, p.path, p.parm).Some?
  {
    if SlotOf(p) in Slots(ps) { var i := LastIn(ps, SlotOf(p)); }
  }

  lemma {:induction false} LastIn(ps: seq<Probe>, s: ParmSlot) returns (i: nat)
    requires s in Slots(ps)
    ensures i < |ps| && SlotOf(ps[i]) == s && LastOf(ps, i)
  {
    var front, last := ps[..|ps| - 1], ps[|ps| - 1];
    assert ps == front + [last];
    if SlotOf(last) == s {
      i := |ps| - 1;
    } else {
      SlotsSnoc(front, last);
      i := LastIn(front, s);
      forall j | i < j < |ps| ensures SlotOf(ps[j]) != SlotOf(ps[i]) { if j < |front| { assert front[j] == ps[j]; } }
    }
  }

  /** What keeps a target from being sampled: an ambiguous id, no node, or no such parameter. */
  function Problem(ids: Graph, g: Graph, t: SampleTarget): Option<SampleReply> {
    var f := Locate(ids, ProbeRef(t));
    if f.Ambiguous? then Some(SampleRejected(OwnershipAmbiguous)) else
    if f.Missing? || ParmAt(g, f.path, t.parm).None? then Some(SampleInvalid) else None
  }

  /** The first target with a problem decides. */
  ghost predicate FirstProblem(ids: Graph, g: Graph, targets: seq<SampleTarget>, reply: SampleReply) {
    exists i :: 0 <= i < |targets| && Problem(ids, g, targets[i]) == Some(reply)
                && forall j :: 0 <= j < i ==> Problem(ids, g, targets[j]).None?
  }

  lemma ProblemIs(ids: Graph, g: Graph, targets: seq<SampleTarget>, i: nat)
    requires i < |targets| && forall j :: 0 <= j < i ==> Problem(ids, g, targets[j]).None?
    ensures var f := Locate(ids, ProbeRef(targets[i]));
            Problem(ids, g, targets[i])
            == if f.Ambiguous? then Some(SampleRejected(OwnershipAmbiguous)) else
               if f.Missing? || ParmAt(g, f.path, targets[i].parm).None? then Some(SampleInvalid) else None
    ensures Problem(ids, g, targets[i]).Some? ==> FirstProblem(ids, g, targets, Problem(ids, g, targets[i]).value)
  {
    hide Locate;
  }

  /** What was captured: after each write, the scene with the samples so far. */
  ghost predicate Captured(g: Graph, ps: seq<Probe>, captures: seq<Graph>) {
    && |captures| <= |ps|
    && forall i :: 0 <= i < |captures| ==> captures[i] == Written(g, ps[..i + 1])
  }

  /** In its capture a sample has its value, whatever is written later. */
  lemma CaptureShows(g: Graph, ps: seq<Probe>, captures: seq<Graph>, i: nat)
    requires Originals(g, ps) && Captured(g, ps, captures) && i < |captures|
    ensures ParmAt(captures[i], ps[i].path, ps[i].parm) == Some(ps[i].value)
    ensures AgreeOff(g, captures[i], Slots(ps[..i + 1]))
  {
    WrittenHolds(g, ps[..i + 1]);
    assert LastOf(ps[..i + 1], i) && ps[..i + 1][i] == ps[i];
  }

  lemma NothingCaptured(g: Graph, ps: seq<Probe>)
    ensures Captured(g, ps, [])
  {
  }

  lemma WrittenNone(g: Graph, ps: seq<Probe>)
    ensures Written(g, ps[..0]) == g && Captured(g, ps, [])
  {
  }

  /** After a cycle that went through, every target was found and shows in its capture. */
  lemma AllShown(ids: Graph, g: Graph, targets: seq<SampleTarget>, ps: seq<Probe>, captures: seq<Graph>)
    requires Originals(g, ps) && Captured(g, ps, captures) && |captures| == |ps| == |targets|
    requires forall i :: 0 <= i < |targets| ==>
               Locate(ids, ProbeRef(targets[i])) == At(ps[i].path)
               && ps[i].parm == targets[i].parm && ps[i].value == targets[i].value
    ensures forall i :: 0 <= i < |targets| ==>
              ParmAt(captures[i], ps[i].path, targets[i].parm) == Some(targets[i].value)
    ensures forall t :: t in targets ==> Problem(ids, g, t).None?
  {
    hide Captured, Locate;
    forall i | 0 <= i < |targets| ensures ParmAt(captures[i], ps[i].path, targets[i].parm) == Some(targets[i].value) {
      CaptureShows(g, ps, captures, i);
    }
  }

  /** The scene the cycle leaves behind when every journaled write was restored. A write that raised after taking
      effect was never journaled, so its value stays unless an earlier sample of the same slot brings it back. */
  function AfterRestore(g: Graph, probes: seq<Probe>, torn: Option<nat>): Graph
    requires torn.Some? ==> torn.value < |probes| && probes[torn.value].path in g
  {
    if torn.None? || SlotOf(probes[torn.value]) in Slots(probes[..torn.value]) then g
    else WithParm(g, probes[torn.value].path, probes[torn.value].parm, probes[torn.value].value)
  }

  /** The slots still open in the restore pass with `n` writes to go. */
  function OpenSlots(written: seq<Probe>, n: nat, torn: set<ParmSlot>): set<ParmSlot>
    requires n <= |written|
  {
    Slots(written[..n]) + (torn - Slots(written[n..]))
  }

  lemma OpenStep(written: seq<Probe>, n: nat, torn: set<ParmSlot>)
    requires 0 < n <= |written|
    ensures OpenSlots(written, n, torn) - {SlotOf(written[n - 1])} <= OpenSlots(written, n - 1, torn)
  {
    SlotsSnoc(written[..n - 1], written[n - 1]);
    assert written[..n] == written[..n - 1] + [written[n - 1]];
    SlotsCons(written[n - 1], written[n..]);
    assert written[n - 1..] == [written[n - 1]] + written[n..];
  }

  lemma SlotsSnoc(ps: seq<Probe>, p: Probe)
    ensures Slots(ps + [p]) == Slots(ps) + {SlotOf(p)}
  {
    var all := ps + [p];
    assert all[|ps|] == p;
    assert forall i :: 0 <= i < |ps| ==> all[i] == ps[i];
  }

  lemma SlotsCons(p: Probe, ps: seq<Probe>)
    ensures Slots([p] + ps) == Slots(ps) + {SlotOf(p)}
  {
    var all := [p] + ps;
    assert all[0] == p;
    assert forall i :: 0 <= i < |ps| ==> all[i + 1] == ps[i];
  }

  /** Every probed slot exists. */
  ghost predicate Present(g: Graph, ps: seq<Probe>) {
    forall i :: 0 <= i < |ps| ==> ParmAt(g, ps[i].path, ps[i].parm).Some?
  }

  lemma PresentKept(g: Graph, ps: seq<Probe>, p: Path, n: string, v: string)
    requires Present(g, ps) && ParmAt(g, p, n).Some?
    ensures Present(WithParm(g, p, n, v), ps)
  {
  }

  lemma AgreeWider(g: Graph, h: Graph, a: set<ParmSlot>, b: set<ParmSlot>)
    requires AgreeOff(g, h, a) && a <= b
    ensures AgreeOff(g, h, b)
  {
  }

  /** One slot open with a known value: the scene is the first one with that value written. */
  lemma AgreeOne(g: Graph, h: Graph, p: Path, n: string, v: string)
    requires AgreeOff(g, h, {(p, n)}) && ParmAt(h, p, n) == Some(v) && p in g
    ensures h == WithParm(g, p, n, v)
  {
    var k := WithParm(g, p, n, v);
    forall q, m | q in k && (q, m) !in {} ensures ParmAt(h, q, m) == ParmAt(k, q, m) {
      if (q, m) != (p, n) { assert ParmAt(h, q, m) == ParmAt(g, q, m); }
    }
    assert AgreeOff(k, h, {});
    AgreeNowhere(k, h);
  }

  lemma PresentAtStart(g: Graph, ps: seq<Probe>)
    requires Originals(g, ps)
    ensures Present(g, ps) && AgreeOff(g, g, Slots(ps[..0]))
  {
  }

  lemma ProbePresent(g: Graph, ps: seq<Probe>, i: nat)
    requires Present(g, ps) && i < |ps|
    ensures ParmAt(g, ps[i].path, ps[i].parm).Some?
  {
  }

  lemma PresentPrefix(g: Graph, ps: seq<Probe>, n: nat)
    requires Present(g, ps) && n <= |ps|
    ensures Present(g, ps[..n])
  {
  }

  lemma WrittenSlot(ps: seq<Probe>, i: nat)
    requires i < |ps|
    ensures SlotOf(ps[i]) in Slots(ps)
  {
  }

  lemma OpenAtStart(written: seq<Probe>, torn: set<ParmSlot>)
    ensures Slots(written) + torn <= OpenSlots(written, |written|, torn)
  {
    assert written[..|written|] == written;
  }

  lemma OpenAtEnd(written: seq<Probe>, torn: set<ParmSlot>)
    ensures OpenSlots(written, 0, torn) <= torn - Slots(written)
  {
    assert written[0..] == written;
  }
}
