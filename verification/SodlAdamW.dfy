/** AdamW with its moments kept in the optimizer-state store, against the same update on a plain map. */
module SodlAdamW {
  import opened Wrappers
  import opened Numbers
  import opened CacheKeys
  import opened Ranking
  import opened OptimizerState
  import opened OptimizerBackend
  import opened BlockLayout

  /** The bits of one element: finitely many, so that a tensor can be serialised. */
  type Float32 = x: nat | x < 0x1_0000_0000

  datatype Tensor = Tensor(data: seq<Float32>)

  datatype Moments = Moments(expAvg: Tensor, expAvgSq: Tensor)

  datatype Hyper = Hyper(lr: real, beta1: real, beta2: real, eps: real, weightDecay: real)

  /** The tensor update of one parameter (absent moments are zeros) and `torch.save`, known only by its inverse
      (a step and finitely many named lists of 32-bit words have a byte encoding, so the law can be met). */
  datatype Torch = Torch(
    update: (Hyper, nat, Tensor, Option<Moments>, Tensor) -> (Tensor, Moments),
    serialize: (nat, map<string, Moments>) -> Bytes,
    deserialize: Bytes -> (nat, map<string, Moments>))
  {
    ghost predicate Lawful() {
      forall step: nat, m: map<string, Moments> :: deserialize(serialize(step, m)) == (step, m)
    }
  }

  // ----- The plain optimizer -----

  datatype Plain = Plain(params: map<Position, Tensor>, moments: map<Position, Moments>, step: nat)

  function MomentsOf(m: map<Position, Moments>, p: Position): Option<Moments> {
    if p in m then Some(m[p]) else None
  }

  function UpdateOf(torch: Torch, hyper: seq<Hyper>, t: Plain, grads: map<Position, Tensor>, p: Position): (Tensor, Moments)
    requires p in t.params && p in grads && p.0 < |hyper|
  {
    torch.update(hyper[p.0], t.step + 1, t.params[p], MomentsOf(t.moments, p), grads[p])
  }

  /** The parameters once those in `done` that have a gradient are updated. */
  function ParamsAfter(torch: Torch, hyper: seq<Hyper>, t: Plain, grads: map<Position, Tensor>, done: set<Position>): (m: map<Position, Tensor>)
    requires forall p :: p in t.params ==> p.0 < |hyper|
    ensures m.Keys == t.params.Keys
  {
    map p | p in t.params :: if p in grads && p in done then UpdateOf(torch, hyper, t, grads, p).0 else t.params[p]
  }

  function MomentsAfter(torch: Torch, hyper: seq<Hyper>, t: Plain, grads: map<Position, Tensor>): map<Position, Moments>
    requires forall p :: p in t.params ==> p.0 < |hyper|
  {
    t.moments + map p | p in t.params && p in grads :: UpdateOf(torch, hyper, t, grads, p).1
  }

  function PlainStep(torch: Torch, hyper: seq<Hyper>, t: Plain, grads: map<Position, Tensor>): Plain
    requires forall p :: p in t.params ==> p.0 < |hyper|
  {
    Plain(ParamsAfter(torch, hyper, t, grads, t.params.Keys), MomentsAfter(torch, hyper, t, grads), t.step + 1)
  }

  datatype Gradients = Gradients(hyper: seq<Hyper>, grads: map<Position, Tensor>)

  function PlainRun(torch: Torch, t: Plain, gs: seq<Gradients>): (t': Plain)
    requires forall g, p :: g in gs && p in t.params ==> p.0 < |g.hyper|
    ensures t'.params.Keys == t.params.Keys
  {
    if gs == [] then t
    else
      var before := PlainRun(torch, t, gs[..|gs| - 1]);
      PlainStep(torch, gs[|gs| - 1].hyper, before, gs[|gs| - 1].grads)
  }

  function StateOf(t: Plain, p: Position): (Tensor, Option<Moments>)
    requires p in t.params
  {
    (t.params[p], if p in t.moments then Some(t.moments[p]) else None)
  }

  /** One parameter by itself in step number `step`: its gradient, if it has one, updates it and its moments. */
  function AloneStep(torch: Torch, g: Gradients, p: Position, s: (Tensor, Option<Moments>), step: nat): (Tensor, Option<Moments>)
    requires p.0 < |g.hyper|
  {
    if p in g.grads then
      var u := torch.update(g.hyper[p.0], step, s.0, s.1, g.grads[p]);
      (u.0, Some(u.1))
    else s
  }

  function AloneRun(torch: Torch, gs: seq<Gradients>, p: Position, s: (Tensor, Option<Moments>), step: nat): (Tensor, Option<Moments>)
    requires forall g :: g in gs ==> p.0 < |g.hyper|
  {
    if gs == [] then s
    else AloneStep(torch, gs[|gs| - 1], p, AloneRun(torch, gs[..|gs| - 1], p, s, step), step + |gs|)
  }

  /** The plain run updates every parameter by itself, and counts one step per call. */
  lemma {:induction false} ParametersRunAlone(torch: Torch, t: Plain, gs: seq<Gradients>, p: Position)
    requires (forall g, q :: g in gs && q in t.params ==> q.0 < |g.hyper|) && p in t.params
    ensures PlainRun(torch, t, gs).step == t.step + |gs|
    ensures StateOf(PlainRun(torch, t, gs), p) == AloneRun(torch, gs, p, StateOf(t, p), t.step)
  {
    hide PlainRun, PlainStep, AloneRun, StateOf;
    if gs == [] {
      NothingRuns(torch, t, p);
    } else {
      var n := |gs| - 1;
      ParametersRunAlone(torch, t, gs[..n], p);
      assert gs[n] in gs;
      PlainRunStep(torch, t, gs);
      StepAlone(torch, gs[n], PlainRun(torch, t, gs[..n]), p);
      AloneRunStep(torch, gs, p, StateOf(t, p), t.step);
    }
  }

  lemma NothingRuns(torch: Torch, t: Plain, p: Position)
    requires p in t.params
    ensures PlainRun(torch, t, []) == t && AloneRun(torch, [], p, StateOf(t, p), t.step) == StateOf(t, p)
  {
  }

  lemma AloneRunStep(torch: Torch, gs: seq<Gradients>, p: Position, s: (Tensor, Option<Moments>), step: nat)
    requires gs != [] && forall g :: g in gs ==> p.0 < |g.hyper|
    ensures AloneRun(torch, gs, p, s, step) == AloneStep(torch, gs[|gs| - 1], p, AloneRun(torch, gs[..|gs| - 1], p, s, step), step + |gs|)
  {
  }

  lemma StepAlone(torch: Torch, g: Gradients, t: Plain, p: Position)
    requires (forall q :: q in t.params ==> q.0 < |g.hyper|) && p in t.params
    ensures var t' := PlainStep(torch, g.hyper, t, g.grads);
            && t'.step == t.step + 1 && t'.params.Keys == t.params.Keys
            && StateOf(t', p) == AloneStep(torch, g, p, StateOf(t, p), t.step + 1)
  {
  }

  lemma PlainRunStep(torch: Torch, t: Plain, gs: seq<Gradients>)
    requires gs != [] && forall g, q :: g in gs && q in t.params ==> q.0 < |g.hyper|
    ensures var n := |gs| - 1; PlainRun(torch, t, gs) == PlainStep(torch, gs[n].hyper, PlainRun(torch, t, gs[..n]), gs[n].grads)
  {
  }

  // ----- What a stored block says about the moments -----

  function Decoded(torch: Torch, payload: Option<Bytes>): map<string, Moments> {
    if payload.None? then map[] else torch.deserialize(payload.value).1
  }

  /** `m` holds, under their names, exactly the moments of the block's parameters from `from` to `to`. */
  ghost predicate Names(names: seq<seq<string>>, b: Block, from: nat, to: nat, moments: map<Position, Moments>, m: map<string, Moments>)
    requires b.group < |names| && to <= |names[b.group]|
  {
    forall i :: from <= i < to ==>
      (if names[b.group][i] in m then Some(m[names[b.group][i]]) else None) == MomentsOf(moments, (b.group, i))
  }

  ghost predicate DistinctIn(names: seq<seq<string>>, b: Block)
    requires b.group < |names| && b.hi <= |names[b.group]|
  {
    forall i, j :: b.lo <= i < j < b.hi ==> names[b.group][i] != names[b.group][j]
  }

  /** One name-keyed map can carry every block state exactly when the block's parameter names differ. */
  lemma NamesMustDiffer(names: seq<seq<string>>, b: Block)
    requires b.group < |names| && b.hi <= |names[b.group]|
    ensures (forall moments :: Carried(names, b, moments)) <==> DistinctIn(names, b)
  {
    var ns := names[b.group];
    if DistinctIn(names, b) {
      forall moments ensures Carried(names, b, moments) {
        var m := Carrier(names, b, moments, b.hi);
      }
    } else {
      var i, j :| b.lo <= i < j < b.hi && ns[i] == ns[j];
      var zero := Moments(Tensor([]), Tensor([]));
      var moments: map<Position, Moments> := map[(b.group, i) := zero];
      assert MomentsOf(moments, (b.group, i)) != MomentsOf(moments, (b.group, j));
      assert !Carried(names, b, moments);
    }
  }

  ghost predicate Carried(names: seq<seq<string>>, b: Block, moments: map<Position, Moments>)
    requires b.group < |names| && b.hi <= |names[b.group]|
  {
    exists m :: Names(names, b, b.lo, b.hi, moments, m)
  }

  lemma {:induction false} Carrier(names: seq<seq<string>>, b: Block, moments: map<Position, Moments>, to: nat) returns (m: map<string, Moments>)
    requires b.group < |names| && to <= b.hi <= |names[b.group]| && DistinctIn(names, b)
    ensures Names(names, b, b.lo, to, moments, m)
    ensures forall i :: to <= i < b.hi && b.lo <= i ==> names[b.group][i] !in m
  {
    if to <= b.lo {
      m := map[];
    } else {
      var p: Position := (b.group, to - 1);
      m := Carrier(names, b, moments, to - 1);
      if p in moments {
        m := m[names[b.group][to - 1] := moments[p]];
      }
    }
  }

  ghost predicate WellPlaced(names: seq<seq<string>>, b: Block) {
    b.group < |names| && b.lo < b.hi <= |names[b.group]| && DistinctIn(names, b)
  }

  ghost predicate BlockHolds(torch: Torch, names: seq<seq<string>>, b: Block, moments: map<Position, Moments>, payload: Option<Bytes>) {
    WellPlaced(names, b) && Names(names, b, b.lo, b.hi, moments, Decoded(torch, payload))
  }

  lemma InactiveBlockHolds(torch: Torch, names: seq<seq<string>>, b: Block, g: Gradients, t: Plain, payload: Option<Bytes>)
    requires BlockHolds(torch, names, b, t.moments, payload)
    requires forall p :: p in t.params ==> p.0 < |g.hyper|
    requires forall p: Position :: InBlock(b, p) ==> p !in g.grads
    ensures BlockHolds(torch, names, b, MomentsAfter(torch, g.hyper, t, g.grads), payload)
  {
    forall i | b.lo <= i < b.hi
      ensures MomentsOf(MomentsAfter(torch, g.hyper, t, g.grads), (b.group, i)) == MomentsOf(t.moments, (b.group, i))
    {
      var p: Position := (b.group, i);
      assert InBlock(b, p);
    }
  }

  /** The parameters of `keys` that lie in one of the blocks. */
  ghost function Covered(keys: set<Position>, bs: seq<Block>): set<Position> {
    set p | p in keys && exists b :: b in bs && InBlock(b, p)
  }

  ghost predicate Updated(torch: Torch, g: Gradients, t: Plain, b: Block, before: map<Position, Tensor>, after: map<Position, Tensor>)
    requires (forall p :: p in t.params ==> p.0 < |g.hyper|) && before.Keys == t.params.Keys
  {
    && after.Keys == before.Keys
    && (forall p :: p in before ==>
         after[p] == if InBlock(b, p) && p in g.grads then UpdateOf(torch, g.hyper, t, g.grads, p).0 else before[p])
  }

  lemma CoveredGrows(torch: Torch, g: Gradients, t: Plain, bs: seq<Block>, k: nat, after: map<Position, Tensor>)
    requires (forall p :: p in t.params ==> p.0 < |g.hyper|) && k < |bs| && Separate(bs)
    requires Updated(torch, g, t, bs[k], ParamsAfter(torch, g.hyper, t, g.grads, Covered(t.params.Keys, bs[..k])), after)
    ensures after == ParamsAfter(torch, g.hyper, t, g.grads, Covered(t.params.Keys, bs[..k + 1]))
  {
    forall p | p in t.params
      ensures p in Covered(t.params.Keys, bs[..k + 1]) <==> p in Covered(t.params.Keys, bs[..k]) || InBlock(bs[k], p)
    {
      if p in Covered(t.params.Keys, bs[..k]) {
        var b :| b in bs[..k] && InBlock(b, p);
        assert b in bs[..k + 1];
      }
      assert bs[k] in bs[..k + 1];
    }
  }

  lemma AllCovered(torch: Torch, g: Gradients, t: Plain, sizes: seq<nat>, size: nat, active: seq<Block>)
    requires size > 0 && (forall p :: p in t.params ==> p.0 < |g.hyper| && InGroups(sizes, p))
    requires forall b, p: Position :: b in Layout(sizes, size) && InBlock(b, p) && p in g.grads ==> b in active
    ensures ParamsAfter(torch, g.hyper, t, g.grads, Covered(t.params.Keys, active))
         == ParamsAfter(torch, g.hyper, t, g.grads, t.params.Keys)
  {
    LayoutPartitions(sizes, size);
    hide Layout, Separate, UpdateOf;
    forall p | p in t.params && p in g.grads ensures p in Covered(t.params.Keys, active) {
      assert InGroups(sizes, p);
      var b :| b in Layout(sizes, size) && InBlock(b, p);
    }
  }

  lemma {:induction false} WritesLookUp(ws: seq<BlockWrite>, b: string)
    requires forall i, j :: 0 <= i < j < |ws| ==> ws[i].block != ws[j].block
    ensures forall i :: 0 <= i < |ws| && ws[i].block == b ==> LastWrite(ws, b) == Some(ws[i].payload)
    ensures (forall i :: 0 <= i < |ws| ==> ws[i].block != b) ==> LastWrite(ws, b) == None
  {
    if ws != [] {
      WritesLookUp(ws[..|ws| - 1], b);
    }
  }

  lemma SeparateSnoc(blocks: seq<Block>, i: nat, active: seq<Block>)
    requires Separate(blocks) && Separate(active) && i < |blocks| && forall b :: b in active ==> b in blocks[..i]
    ensures Separate(active + [blocks[i]])
  {
    forall x | 0 <= x < |active|
      ensures active[x].id != blocks[i].id && forall p :: !(InBlock(active[x], p) && InBlock(blocks[i], p))
    {
      assert active[x] in blocks[..i];
      var j :| 0 <= j < i && blocks[j] == active[x];
    }
  }

  /** Write `i` carries the new state of active block `i`. */
  ghost predicate WritesHold(torch: Torch, names: seq<seq<string>>, m: map<Position, Moments>, active: seq<Block>, writes: seq<BlockWrite>) {
    && |writes| <= |active|
    && (forall i :: 0 <= i < |writes| ==>
         writes[i].block == active[i].id && BlockHolds(torch, names, active[i], m, Some(writes[i].payload)))
  }

  lemma NoWrites(torch: Torch, names: seq<seq<string>>, m: map<Position, Moments>, active: seq<Block>)
    ensures WritesHold(torch, names, m, active, [])
  {
  }

  lemma OneMoreWrite(torch: Torch, names: seq<seq<string>>, m: map<Position, Moments>, active: seq<Block>, writes: seq<BlockWrite>, w: BlockWrite)
    requires WritesHold(torch, names, m, active, writes) && |writes| < |active|
    requires w.block == active[|writes|].id && BlockHolds(torch, names, active[|writes|], m, Some(w.payload))
    ensures WritesHold(torch, names, m, active, writes + [w])
  {
  }

  lemma BatchAdvances(torch: Torch, names: seq<seq<string>>, m: map<Position, Moments>, blocks: seq<Block>, active: seq<Block>,
                      writes: seq<BlockWrite>, b: Block)
    requires Separate(blocks) && Separate(active) && (forall x :: x in active ==> x in blocks) && b in blocks
    requires |writes| == |active| && WritesHold(torch, names, m, active, writes)
    ensures if b in active then LastWrite(writes, b.id).Some? && BlockHolds(torch, names, b, m, LastWrite(writes, b.id))
            else LastWrite(writes, b.id).None?
  {
    hide BlockHolds;
    WritesLookUp(writes, b.id);
    SameIdSameBlock(blocks, active, b);
  }

  /** Parameters `b.lo` to `i` of the block are done: new tensors, and new moments under their names. */
  ghost predicate Midway(torch: Torch, g: Gradients, t: Plain, names: seq<seq<string>>, b: Block, i: nat,
                         before: map<Position, Tensor>, params: map<Position, Tensor>, state: map<string, Moments>)
    requires (forall p :: p in t.params ==> p.0 < |g.hyper|) && before.Keys == t.params.Keys && WellPlaced(names, b) && i <= b.hi
  {
    && Updated(torch, g, t, b.(hi := i), before, params)
    && Names(names, b, b.lo, i, MomentsAfter(torch, g.hyper, t, g.grads), state)
    && Names(names, b, i, b.hi, t.moments, state)
  }

  lemma BlockStarts(torch: Torch, g: Gradients, t: Plain, names: seq<seq<string>>, b: Block, before: map<Position, Tensor>, loaded: map<string, Moments>)
    requires (forall p :: p in t.params ==> p.0 < |g.hyper|) && before.Keys == t.params.Keys && WellPlaced(names, b)
    requires Names(names, b, b.lo, b.hi, t.moments, loaded)
    ensures Midway(torch, g, t, names, b, b.lo, before, before, loaded)
  {
  }

  lemma BlockEnds(torch: Torch, g: Gradients, t: Plain, names: seq<seq<string>>, b: Block,
                  before: map<Position, Tensor>, params: map<Position, Tensor>, state: map<string, Moments>)
    requires (forall p :: p in t.params ==> p.0 < |g.hyper|) && before.Keys == t.params.Keys && WellPlaced(names, b)
    requires Midway(torch, g, t, names, b, b.hi, before, params, state)
    ensures Updated(torch, g, t, b, before, params)
    ensures Names(names, b, b.lo, b.hi, MomentsAfter(torch, g.hyper, t, g.grads), state)
  {
  }

  /** One turn of the inner loop, parameter `i` of the block. */
  lemma BlockAdvances(torch: Torch, g: Gradients, t: Plain, names: seq<seq<string>>, b: Block, i: nat,
                      before: map<Position, Tensor>, params: map<Position, Tensor>, state: map<string, Moments>)
    requires (forall p :: p in t.params ==> p.0 < |g.hyper|) && before.Keys == t.params.Keys && g.grads.Keys <= t.params.Keys
    requires WellPlaced(names, b) && b.lo <= i < b.hi
    requires forall p :: p in before && InBlock(b, p) ==> before[p] == t.params[p]
    requires Midway(torch, g, t, names, b, i, before, params, state)
    ensures var p: Position := (b.group, i);
            var name := names[b.group][i];
            if p in g.grads then
              p in params && p.0 < |g.hyper| &&
              var u := torch.update(g.hyper[p.0], t.step + 1, params[p], if name in state then Some(state[name]) else None, g.grads[p]);
              Midway(torch, g, t, names, b, i + 1, before, params[p := u.0], state[name := u.1])
            else
              Midway(torch, g, t, names, b, i + 1, before, params, state)
  {
    hide Updated, Names, MomentsAfter, InBlock, DistinctIn, UpdateOf, MomentsOf;
    var p: Position := (b.group, i);
    ParamAdvances(torch, g, t, b, i, before, params);
    NamesAdvance(torch, g, t, names, b, i, state);
    if p in g.grads {
      UpdateIs(torch, g, t, p);
    }
  }

  lemma UpdateIs(torch: Torch, g: Gradients, t: Plain, p: Position)
    requires p in t.params && p in g.grads && p.0 < |g.hyper|
    ensures UpdateOf(torch, g.hyper, t, g.grads, p)
         == torch.update(g.hyper[p.0], t.step + 1, t.params[p], MomentsOf(t.moments, p), g.grads[p])
  {
  }

  lemma ParamAdvances(torch: Torch, g: Gradients, t: Plain, b: Block, i: nat, before: map<Position, Tensor>, params: map<Position, Tensor>)
    requires (forall p :: p in t.params ==> p.0 < |g.hyper|) && before.Keys == t.params.Keys && g.grads.Keys <= t.params.Keys
    requires b.lo <= i < b.hi && forall p :: p in before && InBlock(b, p) ==> before[p] == t.params[p]
    requires Updated(torch, g, t, b.(hi := i), before, params)
    ensures var p: Position := (b.group, i);
            if p in g.grads then
              && p in params && params[p] == t.params[p] && p.0 < |g.hyper|
              && Updated(torch, g, t, b.(hi := i + 1), before, params[p := UpdateOf(torch, g.hyper, t, g.grads, p).0])
            else
              Updated(torch, g, t, b.(hi := i + 1), before, params)
  {
    var p: Position := (b.group, i);
    forall q: Position ensures InBlock(b.(hi := i + 1), q) <==> InBlock(b.(hi := i), q) || q == p {
      assert q == (q.0, q.1);
    }
    assert InBlock(b, p) && !InBlock(b.(hi := i), p);
  }

  lemma NamesAdvance(torch: Torch, g: Gradients, t: Plain, names: seq<seq<string>>, b: Block, i: nat, state: map<string, Moments>)
    requires (forall p :: p in t.params ==> p.0 < |g.hyper|) && g.grads.Keys <= t.params.Keys
    requires WellPlaced(names, b) && b.lo <= i < b.hi
    requires Names(names, b, b.lo, i, MomentsAfter(torch, g.hyper, t, g.grads), state)
    requires Names(names, b, i, b.hi, t.moments, state)
    ensures var p: Position := (b.group, i);
            var name := names[b.group][i];
            var after := MomentsAfter(torch, g.hyper, t, g.grads);
            && MomentsOf(t.moments, p) == (if name in state then Some(state[name]) else None)
            && (p in g.grads ==>
                 var u := UpdateOf(torch, g.hyper, t, g.grads, p);
                 && Names(names, b, b.lo, i + 1, after, state[name := u.1])
                 && Names(names, b, i + 1, b.hi, t.moments, state[name := u.1]))
            && (p !in g.grads ==> Names(names, b, b.lo, i + 1, after, state) && Names(names, b, i + 1, b.hi, t.moments, state))
  {
    var p: Position := (b.group, i);
    var after := MomentsAfter(torch, g.hyper, t, g.grads);
    if p in g.grads {
      assert MomentsOf(after, p) == Some(UpdateOf(torch, g.hyper, t, g.grads, p).1);
    } else {
      assert MomentsOf(after, p) == MomentsOf(t.moments, p);
    }
    hide MomentsAfter, UpdateOf;
  }

  // ----- The pinned window -----

  ghost predicate PinnedAre(pinned: set<string>, o: string, window: set<string>) {
    forall b {:trigger CacheKey(o, b)} :: CacheKey(o, b) in pinned <==> b in window
  }

  lemma PinsChange(pinned: set<string>, o: string, window: set<string>, ids: set<string>)
    requires PinnedAre(pinned, o, window)
    ensures PinnedAre(pinned + KeysOf(o, ids), o, window + ids)
    ensures PinnedAre(pinned - KeysOf(o, ids), o, window - ids)
  {
    SameBlockSameKey(o);
  }

  // ----- The optimizer -----

  class Optimizer {
    const torch: Torch
    const store: OptimizerStateBackend
    const origin: string
    const names: seq<seq<string>>
    const blockSize: nat
    const blocks: seq<Block>
    const flushEvery: nat
    const prefetchLookahead: nat
    const asyncWriteback: bool
    const useBatchStateOps: bool
    var params: map<Position, Tensor>
    var stepIndex: nat
    var pinnedWindow: set<string>
    var previousStepBlocks: set<string>
    var gcBlocksCleaned: nat
    /** The submitted flush the worker thread has not run yet. */
    var pending: Option<seq<string>>
    /** What the plain optimizer would keep. */
    ghost var moments: map<Position, Moments>

    ghost predicate LayoutSound() {
      && blockSize >= 1 && flushEvery >= 1
      && blocks == Layout(GroupSizes(names), blockSize)
      && (forall b :: b in blocks ==> WellPlaced(names, b))
      && Separate(blocks)
    }

    ghost predicate StoreSound()
      reads store
    {
      origin in store.origins && store.Valid()
    }

    ghost predicate Holds(b: Block, m: map<Position, Moments>)
      reads store
    {
      BlockHolds(torch, names, b, m, Live(store.codec, store.St(), origin, b.id))
    }

    ghost predicate Valid()
      reads this, store
    {
      && torch.Lawful() && LayoutSound() && StoreSound()
      && (forall p :: p in params ==> InGroups(GroupSizes(names), p))
      && (forall b :: b in blocks ==> Holds(b, moments))
      && PinnedAre(store.pinned, origin, pinnedWindow)
      && pinnedWindow <= previousStepBlocks
    }

    /** `moments` is what the store already holds for this origin; nothing when it is new. */
    constructor (torch: Torch, store: OptimizerStateBackend, origin: string, names: seq<seq<string>>, blockSize: int, flushEvery: int,
                 prefetchLookahead: int, asyncWriteback: bool, useBatchStateOps: bool,
                 params: map<Position, Tensor>, ghost moments: map<Position, Moments>)
      requires torch.Lawful() && origin in store.origins && store.Valid() && PinnedAre(store.pinned, origin, {})
      requires forall b :: b in Layout(GroupSizes(names), Max(1, blockSize)) ==>
                 BlockHolds(torch, names, b, moments, Live(store.codec, store.St(), origin, b.id))
      requires forall p :: p in params ==> InGroups(GroupSizes(names), p)
      ensures Valid() && AsPlain() == Plain(params, moments, 0) && this.store == store && this.names == names
    {
      this.torch, this.store, this.origin, this.names := torch, store, origin, names;
      this.blockSize, this.flushEvery, this.prefetchLookahead := Max(1, blockSize), Max(1, flushEvery), Max(0, prefetchLookahead);
      this.asyncWriteback, this.useBatchStateOps := asyncWriteback, useBatchStateOps;
      var bs := BuildLayout(GroupSizes(names), Max(1, blockSize));
      this.blocks := bs;
      this.params, this.moments, stepIndex := params, moments, 0;
      pinnedWindow, previousStepBlocks, gcBlocksCleaned, pending := {}, {}, 0, None;
      LayoutPartitions(GroupSizes(names), Max(1, blockSize));
    }

    ghost function AsPlain(): Plain
      reads this
    {
      Plain(params, moments, stepIndex)
    }

    /** Disk answers for these blocks as the store does. */
    ghost predicate OnDisk(ids: seq<string>)
      reads store
    {
      AllCurrent(store.codec, store.St(), origin, ids)
    }

    /** The worker thread may run the submitted flush at any point between two store calls. */
    method Interleave(fire: bool)
      requires StoreSound()
      modifies `pending, store
      ensures StoreSound() && store.pinned == old(store.pinned)
      ensures SameLive(store.codec, store.origins, old(store.St()), store.St())
      ensures pending == if fire then None else old(pending)
      ensures Kept(store.codec, store.origins, old(store.St()), store.St())
      ensures fire && old(pending).Some? ==> OnDisk(old(pending).value)
      ensures !fire || old(pending).None? ==> store.St() == old(store.St())
    {
      hide Live, Durable, Separated, Consistent, Bounded, FlushNext, Kept, OptimizerStateBackend.Valid, OptimizerStateBackend.Usable, SameLive;
      store.ValidKeepsItself();
      SameLiveReflexive(store.codec, store.origins, store.St());
      if fire && pending.Some? {
        var _ := store.FlushBlocks(origin, pending.value);
        BlocksCurrent(store.codec, store.St(), origin, pending.value);
        pending := None;
      }
    }

    /** Waits for the previous flush, then flushes or submits the blocks; with no blocks it does neither. */
    method ScheduleFlush(blockIds: seq<string>)
      requires StoreSound()
      modifies `pending, store
      ensures StoreSound() && store.pinned == old(store.pinned)
      ensures SameLive(store.codec, store.origins, old(store.St()), store.St())
      ensures Kept(store.codec, store.origins, old(store.St()), store.St())
      ensures blockIds == [] ==> pending == old(pending) && store.St() == old(store.St())
      ensures blockIds != [] ==> pending == if asyncWriteback then Some(blockIds) else None
      ensures blockIds != [] && !asyncWriteback ==> OnDisk(blockIds)
      ensures blockIds != [] && asyncWriteback && old(pending).Some? ==> OnDisk(old(pending).value)
    {
      hide Live, Durable, Separated, Consistent, Bounded, FlushNext, Kept, OptimizerStateBackend.Valid, OptimizerStateBackend.Usable, SameLive,
        AllCurrent;
      ghost var s := store.St();
      store.ValidKeepsItself();
      SameLiveReflexive(store.codec, store.origins, s);
      if blockIds == [] {
        return;
      }
      Interleave(true);
      ghost var s1 := store.St();
      if !asyncWriteback {
        store.ValidKeepsItself();
        var _ := store.FlushBlocks(origin, blockIds);
        KeptTransitive(store.codec, store.origins, s, s1, store.St());
        KeptIsSameLive(store.codec, store.origins, s, store.St());
        BlocksCurrent(store.codec, store.St(), origin, blockIds);
      } else {
        pending := Some(blockIds);
      }
    }

    method UpdatePinWindow(blockIds: seq<string>, fire: nat -> bool, turn: nat)
      requires StoreSound() && PinnedAre(store.pinned, origin, pinnedWindow)
      modifies `pinnedWindow, `pending, store
      ensures StoreSound() && PinnedAre(store.pinned, origin, pinnedWindow)
      ensures pinnedWindow == ToSet(blockIds[..Min(|blockIds|, Max(1, prefetchLookahead))])
      ensures Kept(store.codec, store.origins, old(store.St()), store.St())
      ensures old(pending).None? ==> pending == None && SameDisk(old(store.St()), store.St())
      ensures pending == None || pending == old(pending)
    {
      var target := ToSet(blockIds[..Min(|blockIds|, Max(1, prefetchLookahead))]);
      var toUnpin := Listing(pinnedWindow - target);
      var toPin := Listing(target - pinnedWindow);
      ghost var s, window := store.St(), pinnedWindow;
      assert ToSet(toUnpin) == window - target && ToSet(toPin) == target - window;
      WindowMoves(window, target);
      hide PinnedAre, Kept, ToSet, OptimizerStateBackend.Valid, SameDisk, OnDisk, SameLive, Min, Max;
      SetPinned(toUnpin, false, window, fire(turn));
      ghost var s1 := store.St();
      SetPinned(toPin, true, window - ToSet(toUnpin), fire(turn + 1));
      KeptTransitive(store.codec, store.origins, s, s1, store.St());
      SameDiskTransitive(s, s1, store.St());
      pinnedWindow := target;
    }

    /** Pins or unpins the blocks, with the worker thread possibly first. */
    method SetPinned(ids: seq<string>, on: bool, ghost window: set<string>, fire: bool)
      requires StoreSound() && PinnedAre(store.pinned, origin, window)
      modifies `pending, store
      ensures StoreSound() && PinnedAre(store.pinned, origin, if on then window + ToSet(ids) else window - ToSet(ids))
      ensures Kept(store.codec, store.origins, old(store.St()), store.St())
      ensures old(pending).None? ==> pending == None && SameDisk(old(store.St()), store.St())
      ensures pending == None || pending == old(pending)
      ensures old(pending).Some? ==> pending == old(pending) || OnDisk(old(pending).value)
    {
      ghost var s := store.St();
      ghost var queued := if pending.Some? then pending.value else [];
      hide AllCurrent, CacheKey, Separated, Consistent, Bounded, Live, Durable, WithPins, Kept, Shrunk, PinnedAre, KeysOf, SameLive;
      Interleave(fire);
      ghost var s1 := store.St();
      PinsChange(store.pinned, origin, window, ToSet(ids));
      if ids == [] {
        assert window + ToSet(ids) == window - ToSet(ids) == window;
        return;
      }
      if on {
        store.PinBlocks(origin, ids);
      } else {
        store.UnpinBlocks(origin, ids);
      }
      PinsKeepDisk(s1, store.pinned);
      StaysCurrent(store.codec, store.origins, s1, store.St(), origin, queued);
      KeptTransitive(store.codec, store.origins, s, s1, store.St());
    }

    /** `_active_layouts`: the blocks with a gradient, in order. */
    method ActiveBlocks(grads: map<Position, Tensor>) returns (active: seq<Block>)
      requires LayoutSound()
      ensures Separate(active)
      ensures forall b :: b in active <==> b in blocks && exists p: Position :: InBlock(b, p) && p in grads
    {
      hide Separate, InBlock, Layout, WellPlaced;
      active := [];
      NoneSeparate();
      for i := 0 to |blocks|
        invariant Separate(active)
        invariant forall b :: b in active <==> b in blocks[..i] && exists p: Position :: InBlock(b, p) && p in grads
      {
        if exists p :: p in grads && InBlock(blocks[i], p) {
          SeparateSnoc(blocks, i, active);
          active := active + [blocks[i]];
        }
      }
      assert blocks[..|blocks|] == blocks;
    }

    /** The inner loop of `step` over the parameters of one block. */
    method UpdateBlock(b: Block, g: Gradients, loaded: map<string, Moments>, ghost t: Plain) returns (state: map<string, Moments>)
      requires WellPlaced(names, b) && Names(names, b, b.lo, b.hi, t.moments, loaded)
      requires stepIndex == t.step + 1 && params.Keys == t.params.Keys
      requires forall p :: p in t.params ==> p.0 < |g.hyper|
      requires forall p :: p in g.grads ==> p in t.params
      requires forall p :: p in params && InBlock(b, p) ==> params[p] == t.params[p]
      modifies `params
      ensures Updated(torch, g, t, b, old(params), params)
      ensures Names(names, b, b.lo, b.hi, MomentsAfter(torch, g.hyper, t, g.grads), state)
    {
      ghost var before := params;
      hide MomentsAfter, Midway, Names, Updated, DistinctIn, InBlock;
      BlockStarts(torch, g, t, names, b, before, loaded);
      state := loaded;
      for i := b.lo to b.hi
        invariant Midway(torch, g, t, names, b, i, before, params, state)
      {
        var p: Position := (b.group, i);
        var name := names[b.group][i];
        BlockAdvances(torch, g, t, names, b, i, before, params, state);
        if p in g.grads {
          var u := torch.update(g.hyper[b.group], stepIndex, params[p], if name in state then Some(state[name]) else None, g.grads[p]);
          params := params[p := u.0];
          state := state[name := u.1];
        }
      }
      BlockEnds(torch, g, t, names, b, before, params, state);
    }

    /** A step from `t` is under way: its index is taken and nothing else has changed yet. */
    ghost predicate Stepping(active: seq<Block>, g: Gradients, t: Plain)
      reads this, store
    {
      && torch.Lawful() && LayoutSound() && StoreSound()
      && stepIndex == t.step + 1 && params == t.params
      && (forall p :: p in t.params ==> p.0 < |g.hyper|)
      && g.grads.Keys <= t.params.Keys
      && Separate(active) && (forall b :: b in active ==> b in blocks)
      && (forall b :: b in blocks ==> Holds(b, t.moments))
    }

    /** The blocks written so far hold the new moments, the others still the old ones. */
    ghost predicate Advanced(written: seq<Block>, g: Gradients, t: Plain)
      requires forall p :: p in t.params ==> p.0 < |g.hyper|
      reads store
    {
      forall b :: b in blocks ==> Holds(b, if b in written then MomentsAfter(torch, g.hyper, t, g.grads) else t.moments)
    }

    /** Loads, updates and stages the active blocks one by one. */
    method StepPerBlock(active: seq<Block>, g: Gradients, fire: nat -> bool, ghost t: Plain)
      requires !useBatchStateOps && Stepping(active, g, t)
      modifies `params, `pending, store
      ensures StoreSound() && store.pinned == old(store.pinned)
      ensures params == ParamsAfter(torch, g.hyper, t, g.grads, Covered(t.params.Keys, active))
      ensures Advanced(active, g, t)
      ensures KeepsDisk(store.codec, old(store.St()), store.St(), origin, ToSet(BlockIds(active)))
    {
      hide Live, Durable, Separated, Consistent, Bounded, StoreNext, BlockHolds, Updated, ParamsAfter, OptimizerStateBackend.Valid,
        MomentsAfter, Names, Decoded, WellPlaced, Covered, InBlock, Separate, OnDisk, Layout, Reports, CacheKey, Decimal, LiveWritten,
        Kept, KeepsDisk, CatchesUp, ToSet;
      ghost var s0, written := store.St(), ToSet(BlockIds(active));
      KeepsDiskReflexive(store.codec, s0, origin, written);
      NothingCovered(torch, g, t, active);
      for k := 0 to |active|
        invariant KeepsDisk(store.codec, s0, store.St(), origin, written)
        invariant StoreSound() && store.pinned == old(store.pinned)
        invariant params == ParamsAfter(torch, g.hyper, t, g.grads, Covered(t.params.Keys, active[..k]))
        invariant Advanced(active[..k], g, t)
      {
        var b := active[k];
        ghost var s1 := store.St();
        OneMoreWritten(blocks, active, k);
        assert Holds(b, t.moments);
        var payload := LoadState(b.id, fire(k));
        ghost var s2 := store.St();
        KeptKeepsDisk(store.codec, store.origins, s1, s2, origin, written);
        KeepsDiskTransitive(store.codec, s0, s1, s2, origin, written);
        HoldsNames(torch, names, b, t.moments, payload);
        UntouchedSoFar(torch, g, t, active, k);
        var state := UpdateBlock(b, g, Decoded(torch, payload), t);
        CoveredGrows(torch, g, t, active, k, params);
        Interleave(fire(|active| + k));
        assert Advanced(active[..k], g, t);
        ghost var s := store.St();
        KeptKeepsDisk(store.codec, store.origins, s2, s, origin, written);
        KeepsDiskTransitive(store.codec, s0, s2, s, origin, written);
        var payload' := torch.serialize(stepIndex, state);
        StateHolds(torch, names, b, MomentsAfter(torch, g.hyper, t, g.grads), state, stepIndex);
        var _ := store.StoreBlock(origin, BlockWrite(b.id, payload', BlockInfo(stepIndex, Some("group:" + Decimal(b.group)), map[])));
        AdvancedStep(torch, names, blocks, store.codec, store.origins, origin, s, store.St(), active, k, t.moments,
          MomentsAfter(torch, g.hyper, t, g.grads), payload');
        WrittenId(active, k);
        WriteKeepsDisk(store.codec, store.origins, s, store.St(), origin, b.id, payload', written);
        KeepsDiskTransitive(store.codec, s0, s, store.St(), origin, written);
      }
      assert active[..|active|] == active;
    }

    /** A load, with the worker thread possibly first. */
    method LoadState(id: string, fire: bool) returns (r: Option<Bytes>)
      requires StoreSound()
      modifies `pending, store
      ensures StoreSound() && store.pinned == old(store.pinned)
      ensures SameLive(store.codec, store.origins, old(store.St()), store.St())
      ensures Kept(store.codec, store.origins, old(store.St()), store.St())
      ensures r == Live(store.codec, old(store.St()), origin, id)
    {
      hide Separated, Consistent, Bounded, Durable, Live, LoadNext, Kept, CacheKey, OnDisk;
      ghost var s := store.St();
      Interleave(fire);
      ghost var s1 := store.St();
      r := store.LoadBlock(origin, id);
      SameLiveTransitive(store.codec, store.origins, s, s1, store.St());
      KeptTransitive(store.codec, store.origins, s, s1, store.St());
    }

    /** The single loads of `load_blocks`, which holds no lock between them. */
    method LoadBlockStates(ids: seq<string>, fire: nat -> bool) returns (payloads: map<string, Bytes>)
      requires StoreSound()
      modifies `pending, store
      ensures StoreSound() && store.pinned == old(store.pinned)
      ensures SameLive(store.codec, store.origins, old(store.St()), store.St())
      ensures Kept(store.codec, store.origins, old(store.St()), store.St())
      ensures Loaded(store.codec, old(store.St()), origin, ids, payloads)
    {
      ghost var s := store.St();
      KeptReflexive(store.codec, store.origins, s);
      hide Separated, Consistent, Bounded, Durable, Live, SameLive, Kept, Loaded, OptimizerStateBackend.Valid;
      payloads := map[];
      NoneLoaded(store.codec, s, origin, ids);
      SameLiveReflexive(store.codec, store.origins, s);
      for i := 0 to |ids|
        invariant StoreSound() && store.pinned == old(store.pinned) && SameLive(store.codec, store.origins, s, store.St())
        invariant Kept(store.codec, store.origins, s, store.St())
        invariant Loaded(store.codec, s, origin, ids[..i], payloads)
      {
        ghost var s1 := store.St();
        LiveOf(store.codec, store.origins, s, s1, origin, ids[i]);
        var r := LoadState(ids[i], fire(i));
        SameLiveTransitive(store.codec, store.origins, s, s1, store.St());
        KeptTransitive(store.codec, store.origins, s, s1, store.St());
        OneMoreLoaded(store.codec, s, origin, ids, i, payloads);
        if r.Some? {
          payloads := payloads[ids[i] := r.value];
        }
      }
      assert ids[..|ids|] == ids;
    }

    /** Updates the active blocks from their loaded states, without a store call. */
    method UpdateBatch(active: seq<Block>, loaded: map<string, Bytes>, g: Gradients, ghost t: Plain) returns (writes: seq<BlockWrite>)
      requires Stepping(active, g, t) && Loaded(store.codec, store.St(), origin, BlockIds(active), loaded)
      modifies `params
      ensures params == ParamsAfter(torch, g.hyper, t, g.grads, Covered(t.params.Keys, active))
      ensures |writes| == |active| && WritesHold(torch, names, MomentsAfter(torch, g.hyper, t, g.grads), active, writes)
    {
      hide Live, Durable, Consistent, Bounded, Separated, BlockHolds, Updated, ParamsAfter, MomentsAfter, OptimizerStateBackend.Valid,
        WritesHold, Separate, Layout, WellPlaced, InBlock, Covered, Names, Decoded;
      NothingCovered(torch, g, t, active);
      ghost var after := MomentsAfter(torch, g.hyper, t, g.grads);
      assert forall b :: b in blocks ==> BlockHolds(torch, names, b, t.moments, Live(store.codec, store.St(), origin, b.id));
      writes := [];
      NoWrites(torch, names, after, active);
      for k := 0 to |active|
        invariant params == ParamsAfter(torch, g.hyper, t, g.grads, Covered(t.params.Keys, active[..k]))
        invariant |writes| == k && WritesHold(torch, names, after, active, writes)
      {
        var b := active[k];
        assert b.id == BlockIds(active)[k];
        var payload := if b.id in loaded then Some(loaded[b.id]) else None;
        HoldsNames(torch, names, b, t.moments, payload);
        UntouchedSoFar(torch, g, t, active, k);
        var state := UpdateBlock(b, g, Decoded(torch, payload), t);
        CoveredGrows(torch, g, t, active, k, params);
        StateHolds(torch, names, b, after, state, stepIndex);
        var write := BlockWrite(b.id, torch.serialize(stepIndex, state), BlockInfo(stepIndex, Some("group:" + Decimal(b.group)), map[]));
        OneMoreWrite(torch, names, after, active, writes, write);
        writes := writes + [write];
      }
      assert active[..|active|] == active;
    }

    /** Loads all active blocks, updates them, and stages them in one batch. */
    method StepBatched(active: seq<Block>, g: Gradients, fire: nat -> bool, ghost t: Plain)
      requires useBatchStateOps && Stepping(active, g, t)
      modifies `params, `pending, store
      ensures StoreSound() && store.pinned == old(store.pinned)
      ensures params == ParamsAfter(torch, g.hyper, t, g.grads, Covered(t.params.Keys, active))
      ensures Advanced(active, g, t)
      ensures KeepsDisk(store.codec, old(store.St()), store.St(), origin, ToSet(BlockIds(active)))
    {
      hide Live, Durable, Consistent, Bounded, Separated, StoreNext, BlockHolds, ParamsAfter, MomentsAfter, OptimizerStateBackend.Valid,
        WritesHold, Separate, Layout, WellPlaced, Covered, Loaded, Kept, KeepsDisk, CatchesUp, ToSet, OnDisk;
      ghost var written := ToSet(BlockIds(active));
      ghost var after := MomentsAfter(torch, g.hyper, t, g.grads);
      ghost var held := store.St();
      var loaded := LoadBlockStates(BlockIds(active), fire);
      LoadedAlike(store.codec, store.origins, held, store.St(), origin, BlockIds(active), loaded);
      ghost var s1 := store.St();
      KeptKeepsDisk(store.codec, store.origins, held, s1, origin, written);
      var writes := UpdateBatch(active, loaded, g, t);
      Interleave(fire(|active|));
      ghost var s2 := store.St();
      KeptKeepsDisk(store.codec, store.origins, s1, s2, origin, written);
      KeepsDiskTransitive(store.codec, held, s1, s2, origin, written);
      if writes != [] {
        var _ := store.StoreBlocks(origin, writes);
        WritesNamed(torch, names, after, active, writes);
        BatchKeepsDisk(store.codec, store.origins, s2, store.St(), origin, writes, written);
        KeepsDiskTransitive(store.codec, held, s2, store.St(), origin, written);
      }
      forall b | b in blocks
        ensures Holds(b, if b in active then after else t.moments)
      {
        BatchAdvances(torch, names, after, blocks, active, writes, b);
      }
    }

    ghost predicate HasGradient(b: Block, g: Gradients) { exists p: Position :: InBlock(b, p) && p in g.grads }

    /** Disk answers for this block as the store does, so losing the process loses nothing of it. */
    ghost predicate Saved(b: Block)
      reads store
    {
      Current(store.codec, store.St(), origin, b.id)
    }

    /** The part of `step` up to the pinned window. */
    method UpdateActive(g: Gradients, fire: nat -> bool) returns (active: seq<Block>)
      requires Valid() && |g.hyper| == |names| && g.grads.Keys <= params.Keys
      modifies `params, `stepIndex, `moments, `pending, store
      ensures LayoutSound() && StoreSound() && store.pinned == old(store.pinned)
      ensures (forall p :: p in params ==> InGroups(GroupSizes(names), p)) && params.Keys == old(params.Keys)
      ensures forall b :: b in blocks ==> Holds(b, moments)
      ensures AsPlain() == PlainStep(torch, g.hyper, old(AsPlain()), g.grads)
      ensures forall b :: b in active <==> b in blocks && HasGradient(b, g)
      ensures KeepsDisk(store.codec, old(store.St()), store.St(), origin, ToSet(BlockIds(active)))
    {
      ghost var t := AsPlain();
      hide Live, Consistent, Bounded, Separated, BlockHolds, ParamsAfter, Layout, WellPlaced, MomentsAfter, Durable, KeepsDisk, ToSet, InBlock;
      PlacedInGroups(names, t.params);
      stepIndex := stepIndex + 1;
      active := ActiveBlocks(g.grads);
      if useBatchStateOps {
        StepBatched(active, g, fire, t);
      } else {
        StepPerBlock(active, g, fire, t);
      }
      AllCovered(torch, g, t, GroupSizes(names), blockSize, active);
      forall b | b in blocks ensures Holds(b, MomentsAfter(torch, g.hyper, t, g.grads)) {
        assert Holds(b, if b in active then MomentsAfter(torch, g.hyper, t, g.grads) else t.moments);
        if b !in active {
          InactiveBlockHolds(torch, names, b, g, t, Live(store.codec, store.St(), origin, b.id));
        }
      }
      moments := MomentsAfter(torch, g.hyper, t, g.grads);
    }

    /** Every `flushEvery` steps the updated blocks are on disk when the step returns, or queued for the worker thread; and disk
        never falls behind for a block that the step does not update. */
    method Step(g: Gradients, fire: nat -> bool)
      requires Valid() && |g.hyper| == |names| && g.grads.Keys <= params.Keys
      modifies this, store
      ensures Valid() && AsPlain() == PlainStep(torch, g.hyper, old(AsPlain()), g.grads)
      ensures params.Keys == old(params.Keys)
      ensures stepIndex % flushEvery == 0 && !asyncWriteback ==> forall b :: b in blocks && HasGradient(b, g) ==> Saved(b)
      ensures stepIndex % flushEvery == 0 && asyncWriteback ==>
                forall b :: b in blocks && HasGradient(b, g) ==> Saved(b) || (pending.Some? && b.id in pending.value)
      ensures forall b :: b in blocks && !HasGradient(b, g) && old(Saved(b)) ==> Saved(b)
    {
      assert Separate(blocks) && flushEvery >= 1;
      hide Valid, BlockHolds, Layout, Separate, Current, AllCurrent, InBlock, HasGradient, PlainStep, KeepsDisk, ToSet, BlockIds,
        OptimizerStateBackend.Valid;
      ghost var s := store.St();
      var active := StepActive(g, fire);
      StepSaves(store.codec, s, store.St(), origin, blocks, active);
    }

    /** When the flush is due, the blocks are on disk or, in asynchronous mode, submitted. */
    ghost predicate FlushedWhenDue(active: seq<Block>)
      reads this, store
    {
      active != [] && flushEvery >= 1 && stepIndex % flushEvery == 0 ==>
        OnDisk(BlockIds(active)) || (asyncWriteback && pending == Some(BlockIds(active)))
    }

    /** `step`, in terms of the blocks it updated. */
    method StepActive(g: Gradients, fire: nat -> bool) returns (active: seq<Block>)
      requires Valid() && |g.hyper| == |names| && g.grads.Keys <= params.Keys
      modifies this, store
      ensures Valid() && AsPlain() == PlainStep(torch, g.hyper, old(AsPlain()), g.grads)
      ensures params.Keys == old(params.Keys)
      ensures forall b :: b in active <==> b in blocks && HasGradient(b, g)
      ensures FlushedWhenDue(active)
      ensures KeepsDisk(store.codec, old(store.St()), store.St(), origin, ToSet(BlockIds(active)))
    {
      hide Live, Durable, Kept, BlockHolds, LayoutSound, Separate, KeepsDisk, Current, AllCurrent, ToSet, InBlock, HasGradient, PlainStep,
        OptimizerStateBackend.Valid, PinnedAre, BlockIds, SameDisk, Holds, GroupSizes, InGroups, FlushedWhenDue;
      ghost var s := store.St();
      active := UpdateActive(g, fire);
      ghost var s1 := store.St();
      FinishStep(active, fire);
      ghost var written := ToSet(BlockIds(active));
      KeptKeepsDisk(store.codec, store.origins, s1, store.St(), origin, written);
      KeepsDiskTransitive(store.codec, s, s1, store.St(), origin, written);
    }

    /** The tail of `step`: the pinned window, the periodic flush, and unpinning blocks that left the active set. */
    method FinishStep(active: seq<Block>, fire: nat -> bool)
      requires LayoutSound() && StoreSound() && PinnedAre(store.pinned, origin, pinnedWindow)
      requires forall b :: b in blocks ==> Holds(b, moments)
      modifies `pinnedWindow, `previousStepBlocks, `gcBlocksCleaned, `pending, store
      ensures StoreSound() && PinnedAre(store.pinned, origin, pinnedWindow) && pinnedWindow <= previousStepBlocks
      ensures forall b :: b in blocks ==> Holds(b, moments)
      ensures Kept(store.codec, store.origins, old(store.St()), store.St())
      ensures FlushedWhenDue(active)
      ensures active == [] || stepIndex % flushEvery != 0 ==> pending == None || pending == old(pending)
      ensures (active == [] || stepIndex % flushEvery != 0) && old(pending).None? ==> SameDisk(old(store.St()), store.St())
    {
      hide Live, Consistent, Bounded, Separated, BlockHolds, CacheKey, OnDisk, SameLive, Kept, Durable, OptimizerStateBackend.Valid, PinnedAre,
        Min, Max, SameDisk, Layout, Separate, WellPlaced;
      ghost var s, c, origins := store.St(), store.codec, store.origins;
      assert forall b :: b in blocks ==> BlockHolds(torch, names, b, moments, Live(c, s, origin, b.id));
      var touched, turn := BlockIds(active), 2 * |active| + 1;
      UpdatePinWindow(touched, fire, turn);
      ghost var s1 := store.St();
      WindowOfTouched(touched, prefetchLookahead);
      hide ToSet, BlockIds;
      if touched != [] && stepIndex % flushEvery == 0 {
        ScheduleFlush(touched);
        KeptTransitive(c, origins, s, s1, store.St());
      }
      ghost var s2 := store.St();
      DropStale(ToSet(touched), touched, fire, turn + 2);
      KeptTransitive(c, origins, s, s2, store.St());
      SameDiskTransitive(s, s2, store.St());
      KeptIsSameLive(c, origins, s, store.St());
      BlocksKept(torch, names, blocks, moments, c, origins, origin, s, store.St());
    }

    /** Unpins what the previous step touched and this one did not; a flush submitted for `ids` stays submitted or is done. */
    method DropStale(touched: set<string>, ghost ids: seq<string>, fire: nat -> bool, turn: nat)
      requires StoreSound() && PinnedAre(store.pinned, origin, pinnedWindow) && pinnedWindow <= touched
      modifies `previousStepBlocks, `gcBlocksCleaned, `pending, store
      ensures StoreSound() && PinnedAre(store.pinned, origin, pinnedWindow) && previousStepBlocks == touched
      ensures gcBlocksCleaned == old(gcBlocksCleaned) + |old(previousStepBlocks) - touched|
      ensures Kept(store.codec, store.origins, old(store.St()), store.St())
      ensures pending == None || pending == old(pending)
      ensures old(pending).None? ==> SameDisk(old(store.St()), store.St())
      ensures old(OnDisk(ids)) ==> OnDisk(ids)
      ensures old(pending) == Some(ids) ==> OnDisk(ids) || pending == Some(ids)
    {
      hide AllCurrent, SameLive, Kept, OptimizerStateBackend.Valid, PinnedAre, Live, Durable, SameDisk;
      ghost var s := store.St();
      var stale := previousStepBlocks - touched;
      var list := Listing(stale);
      assert pinnedWindow - stale == pinnedWindow;
      SetPinned(list, false, pinnedWindow, fire(turn));
      ghost var s1 := store.St();
      gcBlocksCleaned := gcBlocksCleaned + |stale|;
      previousStepBlocks := touched;
      Interleave(fire(turn + 1));
      KeptTransitive(store.codec, store.origins, s, s1, store.St());
      StaysCurrent(store.codec, store.origins, s, store.St(), origin, ids);
      StaysCurrent(store.codec, store.origins, s1, store.St(), origin, ids);
      SameDiskTransitive(s, s1, store.St());
    }

    /** `flush` without block ids: waits for the submitted flush, then flushes everything of this origin. */
    method Flush()
      requires Valid()
      modifies `pending, store
      ensures Valid() && pending == None && DirtyKeys(store.St(), origin) == {}
      ensures forall b :: b in blocks ==> BlockHolds(torch, names, b, moments, Durable(store.codec, store.St(), origin, b.id))
    {
      hide Live, Durable, Separated, Consistent, Bounded, BlockHolds, FlushNext, LayoutSound, CacheKey, SameLive, DirtyKeys, PinnedAre;
      ghost var s := store.St();
      assert forall b :: b in blocks ==> BlockHolds(torch, names, b, moments, Live(store.codec, s, origin, b.id));
      Interleave(true);
      ghost var s1 := store.St();
      var _ := store.FlushOrigin(origin);
      SameLiveTransitive(store.codec, store.origins, s, s1, store.St());
      BlocksKept(torch, names, blocks, moments, store.codec, store.origins, origin, s, store.St());
    }

    /** `load_state_dict` for a matching origin and layout. */
    method LoadStateDict(step: nat)
      requires Valid()
      modifies `stepIndex, `pinnedWindow, `pending, store
      ensures Valid() && AsPlain() == old(AsPlain()).(step := step) && pinnedWindow == {}
    {
      hide Live, Durable, Separated, Consistent, Bounded, BlockHolds, LayoutSound, CacheKey, SameLive, PinnedAre;
      ghost var s := store.St();
      assert forall b :: b in blocks ==> BlockHolds(torch, names, b, moments, Live(store.codec, s, origin, b.id));
      Interleave(true);
      ghost var s1 := store.St();
      stepIndex := step;
      UpdatePinWindow([], _ => false, 0);
      SameLiveTransitive(store.codec, store.origins, s, s1, store.St());
      BlocksKept(torch, names, blocks, moments, store.codec, store.origins, origin, s, store.St());
    }

    /** Any sequence of gradients, under any firing of the background flushes. With a synchronous flush at every step the disk
        alone then holds all moments. */
    method Train(gs: seq<Gradients>, fire: (nat, nat) -> bool)
      requires Valid() && forall g :: g in gs ==> |g.hyper| == |names| && g.grads.Keys <= params.Keys
      modifies this, store
      ensures Valid()
      ensures (forall g, p :: g in gs && p in old(params) ==> p.0 < |g.hyper|) && AsPlain() == PlainRun(torch, old(AsPlain()), gs)
      ensures flushEvery == 1 && !asyncWriteback && old(forall b :: b in blocks ==> Saved(b)) ==>
                forall b :: b in blocks ==> BlockHolds(torch, names, b, moments, Durable(store.codec, store.St(), origin, b.id))
    {
      ghost var t := AsPlain();
      ghost var safe := flushEvery == 1 && !asyncWriteback && forall b :: b in blocks ==> Saved(b);
      PlacedInGroups(names, t.params);
      hide Live, Durable, Consistent, Bounded, Separated, BlockHolds, Layout, Separate, WellPlaced, PlainStep, CacheKey, HasGradient;
      for n := 0 to |gs|
        invariant safe ==> forall b :: b in blocks ==> Saved(b)
        invariant Valid() && (forall g :: g in gs ==> |g.hyper| == |names| && g.grads.Keys <= params.Keys)
        invariant AsPlain() == PlainRun(torch, t, gs[..n])
      {
        assert gs[..n + 1][..n] == gs[..n];
        var turn: nat := n;
        Step(gs[n], (k: nat) => fire(turn, k));
      }
      assert gs[..|gs|] == gs;
    }
  }

  ghost predicate SameDisk(s: Store, s': Store) { s'.blobs == s.blobs && s'.manifests == s.manifests }

  lemma SameDiskTransitive(s: Store, s1: Store, s2: Store)
    ensures SameDisk(s, s1) && SameDisk(s1, s2) ==> SameDisk(s, s2)
    ensures SameDisk(s, s)
  {
  }

  lemma WindowMoves(window: set<string>, target: set<string>)
    ensures window - (window - target) + (target - window) == target
  {
  }

  lemma PinsKeepDisk(s: Store, pinned: set<string>)
    ensures SameDisk(s, WithPins(s, pinned)) && forall s' :: Enforced(WithPins(s, pinned), s') ==> SameDisk(s, s')
  {
    hide Shrunk;
  }

  /** Disk answers for this block as the store does. */
  ghost predicate Current(c: Codec, s: Store, o: string, b: string) { Durable(c, s, o, b) == Live(c, s, o, b) }

  ghost predicate AllCurrent(c: Codec, s: Store, o: string, ids: seq<string>) { forall b :: b in ids ==> Current(c, s, o, b) }

  lemma BlocksCurrent(c: Codec, s: Store, o: string, ids: seq<string>)
    requires forall b :: b in ids ==> Durable(c, s, o, b) == Live(c, s, o, b)
    ensures AllCurrent(c, s, o, ids)
  {
  }

  lemma StaysCurrent(c: Codec, origins: set<string>, s: Store, s': Store, o: string, ids: seq<string>)
    requires Kept(c, origins, s, s') && o in origins
    ensures AllCurrent(c, s, o, ids) ==> AllCurrent(c, s', o, ids)
  {
    hide Live, Durable, Consistent, Bounded;
  }

  lemma KeptIsSameLive(c: Codec, origins: set<string>, s: Store, s': Store)
    requires Kept(c, origins, s, s')
    ensures SameLive(c, origins, s, s')
  {
  }

  /** For every block but those written, disk stays as current as it was. */
  ghost predicate KeepsDisk(c: Codec, s: Store, s': Store, o: string, written: set<string>) {
    forall b {:trigger Current(c, s', o, b)} :: b !in written && Current(c, s, o, b) ==> Current(c, s', o, b)
  }

  lemma KeepsDiskReflexive(c: Codec, s: Store, o: string, written: set<string>)
    ensures KeepsDisk(c, s, s, o, written)
  {
  }

  lemma KeepsDiskTransitive(c: Codec, s: Store, s1: Store, s2: Store, o: string, written: set<string>)
    requires KeepsDisk(c, s, s1, o, written) && KeepsDisk(c, s1, s2, o, written)
    ensures KeepsDisk(c, s, s2, o, written)
  {
    hide Current;
    forall b {:trigger Current(c, s2, o, b)} | b !in written && Current(c, s, o, b) ensures Current(c, s2, o, b) {
      assert Current(c, s1, o, b);
    }
  }

  lemma KeptKeepsDisk(c: Codec, origins: set<string>, s: Store, s': Store, o: string, written: set<string>)
    requires Kept(c, origins, s, s') && o in origins
    ensures KeepsDisk(c, s, s', o, written)
  {
    hide Live, Durable, Consistent, Bounded;
  }

  lemma WriteKeepsDisk(c: Codec, origins: set<string>, s: Store, s': Store, o: string, b: string, p: Bytes, written: set<string>)
    requires LiveWritten(c, origins, s, o, b, p, s') && CatchesUp(c, origins, s, s') && o in origins && b in written
    ensures KeepsDisk(c, s, s', o, written)
  {
    hide Live, Durable;
  }

  lemma BatchKeepsDisk(c: Codec, origins: set<string>, s: Store, s': Store, o: string, ws: seq<BlockWrite>, written: set<string>)
    requires Stored(c, origins, s, o, ws, s') && CatchesUp(c, origins, s, s') && o in origins
    requires forall i :: 0 <= i < |ws| ==> ws[i].block in written
    ensures KeepsDisk(c, s, s', o, written)
  {
    hide Live, Durable, LastWrite;
    forall b {:trigger Current(c, s', o, b)} | b !in written && Current(c, s, o, b) ensures Current(c, s', o, b) {
      NotWritten(ws, b);
    }
  }

  lemma {:induction false} NotWritten(ws: seq<BlockWrite>, b: string)
    requires forall i :: 0 <= i < |ws| ==> ws[i].block != b
    ensures LastWrite(ws, b) == None
  {
    if ws != [] {
      NotWritten(ws[..|ws| - 1], b);
    }
  }

  lemma ListedBlock(c: Codec, s: Store, o: string, active: seq<Block>, b: Block)
    requires b in active
    ensures b.id in BlockIds(active) && (AllCurrent(c, s, o, BlockIds(active)) ==> Current(c, s, o, b.id))
  {
    var i :| 0 <= i < |active| && active[i] == b;
    assert BlockIds(active)[i] == b.id;
    hide Current;
  }

  lemma UnlistedBlock(c: Codec, s: Store, s': Store, o: string, blocks: seq<Block>, active: seq<Block>, b: Block)
    requires Separate(blocks) && (forall x :: x in active ==> x in blocks) && b in blocks && b !in active
    requires KeepsDisk(c, s, s', o, ToSet(BlockIds(active)))
    ensures Current(c, s, o, b.id) ==> Current(c, s', o, b.id)
  {
    hide Current;
    SameIdSameBlock(blocks, active, b);
    assert b.id !in ToSet(BlockIds(active));
  }

  lemma StepSaves(c: Codec, s: Store, s': Store, o: string, blocks: seq<Block>, active: seq<Block>)
    requires Separate(blocks) && (forall x :: x in active ==> x in blocks) && KeepsDisk(c, s, s', o, ToSet(BlockIds(active)))
    ensures forall b :: b in active ==> b.id in BlockIds(active) && (AllCurrent(c, s', o, BlockIds(active)) ==> Current(c, s', o, b.id))
    ensures forall b :: b in blocks && b !in active && Current(c, s, o, b.id) ==> Current(c, s', o, b.id)
  {
    hide Current, AllCurrent, BlockIds, KeepsDisk, ToSet, Separate;
    forall b | b in active ensures b.id in BlockIds(active) && (AllCurrent(c, s', o, BlockIds(active)) ==> Current(c, s', o, b.id)) {
      ListedBlock(c, s', o, active, b);
    }
    forall b | b in blocks && b !in active && Current(c, s, o, b.id) ensures Current(c, s', o, b.id) {
      UnlistedBlock(c, s, s', o, blocks, active, b);
    }
  }

  lemma WrittenId(active: seq<Block>, k: nat)
    requires k < |active|
    ensures active[k].id in ToSet(BlockIds(active))
  {
    assert BlockIds(active)[k] == active[k].id;
  }

  lemma WritesNamed(torch: Torch, names: seq<seq<string>>, m: map<Position, Moments>, active: seq<Block>, writes: seq<BlockWrite>)
    requires WritesHold(torch, names, m, active, writes)
    ensures forall i :: 0 <= i < |writes| ==> writes[i].block in ToSet(BlockIds(active))
  {
    forall i | 0 <= i < |writes| ensures writes[i].block in ToSet(BlockIds(active)) {
      WrittenId(active, i);
    }
    hide BlockHolds, ToSet;
  }

  lemma FreshStoreAnswersFromDisk(c: Codec, s: Store, s': Store)
    requires s'.cache == map[] && s'.blobs == s.blobs && s'.manifests == s.manifests
    ensures forall o, b :: Live(c, s', o, b) == Durable(c, s, o, b)
  {
    SameDiskSameDurable(c, s, s');
  }

  /** Saving, losing the process, and loading into a new optimizer over what the disk holds and the same parameters
      continues the plain run where it was. */
  method Restart(o: Optimizer, capacity: int, threshold: int) returns (r: Optimizer)
    requires o.Valid()
    modifies o, o.store
    ensures r.Valid() && r.AsPlain() == old(o.AsPlain()) && r.names == o.names && fresh(r) && fresh(r.store)
  {
    hide Live, Durable, Separated, BlockHolds, WellPlaced, Separate, KeysSound, CleanSound, Bounded;
    o.Flush();
    var disk := o.store;
    var store := new OptimizerStateBackend(disk.codec, disk.origins, capacity, threshold, disk.blobs, disk.manifests);
    FreshStoreAnswersFromDisk(disk.codec, disk.St(), store.St());
    r := new Optimizer(o.torch, store, o.origin, o.names, o.blockSize, o.flushEvery, o.prefetchLookahead, o.asyncWriteback,
      o.useBatchStateOps, o.params, o.moments);
    r.LoadStateDict(o.stepIndex);
  }

  lemma {:induction false} PlainRunSplits(torch: Torch, t: Plain, a: seq<Gradients>, b: seq<Gradients>)
    requires forall g, p :: g in a + b && p in t.params ==> p.0 < |g.hyper|
    ensures (forall g, p :: g in a && p in t.params ==> p.0 < |g.hyper|) && (forall g, p :: g in b && p in t.params ==> p.0 < |g.hyper|)
    ensures PlainRun(torch, t, a + b) == PlainRun(torch, PlainRun(torch, t, a), b)
  {
    assert forall g :: g in a || g in b ==> g in a + b;
    if b == [] {
      assert a + b == a;
    } else {
      var n := |b| - 1;
      assert (a + b)[..|a + b| - 1] == a + b[..n] && (a + b)[|a + b| - 1] == b[n];
      PlainRunSplits(torch, t, a, b[..n]);
      hide PlainStep;
    }
  }

  /** The payloads found under these ids; an id without one has none. */
  ghost predicate Loaded(c: Codec, s: Store, o: string, ids: seq<string>, payloads: map<string, Bytes>) {
    && (forall b :: b in payloads ==> Live(c, s, o, b) == Some(payloads[b]))
    && (forall b :: b in ids && b !in payloads ==> Live(c, s, o, b) == None)
  }

  lemma NoneLoaded(c: Codec, s: Store, o: string, ids: seq<string>)
    ensures Loaded(c, s, o, ids[..0], map[])
  {
  }

  lemma OneMoreLoaded(c: Codec, s: Store, o: string, ids: seq<string>, i: nat, payloads: map<string, Bytes>)
    requires i < |ids| && Loaded(c, s, o, ids[..i], payloads)
    ensures var r := Live(c, s, o, ids[i]);
            Loaded(c, s, o, ids[..i + 1], if r.Some? then payloads[ids[i] := r.value] else payloads)
  {
    hide Live;
  }

  /** One more block is written; the others answer as before. */
  lemma AdvancedStep(torch: Torch, names: seq<seq<string>>, blocks: seq<Block>, c: Codec, origins: set<string>, o: string, s: Store, s': Store,
                     active: seq<Block>, k: nat, before: map<Position, Moments>, after: map<Position, Moments>, payload: Bytes)
    requires k < |active| && o in origins && LiveWritten(c, origins, s, o, active[k].id, payload, s')
    requires forall b :: b in active[..k + 1] <==> b in active[..k] || b == active[k]
    requires forall b :: b in blocks ==> (b.id == active[k].id <==> b == active[k])
    requires forall b :: b in blocks ==> BlockHolds(torch, names, b, if b in active[..k] then after else before, Live(c, s, o, b.id))
    requires BlockHolds(torch, names, active[k], after, Some(payload))
    ensures forall b :: b in blocks ==> BlockHolds(torch, names, b, if b in active[..k + 1] then after else before, Live(c, s', o, b.id))
  {
    hide BlockHolds, Live;
  }

  lemma LoadedAlike(c: Codec, origins: set<string>, s: Store, s': Store, o: string, ids: seq<string>, payloads: map<string, Bytes>)
    requires SameLive(c, origins, s, s') && o in origins && Loaded(c, s, o, ids, payloads)
    ensures Loaded(c, s', o, ids, payloads)
  {
    hide Live;
  }

  lemma SameLiveReflexive(c: Codec, origins: set<string>, s: Store)
    ensures SameLive(c, origins, s, s)
  {
  }

  lemma LiveOf(c: Codec, origins: set<string>, s: Store, s': Store, o: string, b: string)
    requires SameLive(c, origins, s, s') && o in origins
    ensures Live(c, s', o, b) == Live(c, s, o, b)
  {
  }

  lemma BlocksKept(torch: Torch, names: seq<seq<string>>, blocks: seq<Block>, m: map<Position, Moments>,
                   c: Codec, origins: set<string>, o: string, s: Store, s': Store)
    requires SameLive(c, origins, s, s') && o in origins
    requires forall b :: b in blocks ==> BlockHolds(torch, names, b, m, Live(c, s, o, b.id))
    ensures forall b :: b in blocks ==> BlockHolds(torch, names, b, m, Live(c, s', o, b.id))
  {
    hide BlockHolds, Live;
  }

  function GroupSizes(names: seq<seq<string>>): seq<nat> {
    seq(|names|, i requires 0 <= i < |names| => |names[i]|)
  }

  function BlockIds(bs: seq<Block>): seq<string> {
    seq(|bs|, i requires 0 <= i < |bs| => bs[i].id)
  }

  lemma PlacedInGroups(names: seq<seq<string>>, params: map<Position, Tensor>)
    ensures (forall p :: p in params ==> InGroups(GroupSizes(names), p)) ==> forall p :: p in params ==> p.0 < |names|
  {
  }

  lemma WindowOfTouched(touched: seq<string>, lookahead: nat)
    ensures 0 <= Min(|touched|, Max(1, lookahead)) <= |touched|
    ensures ToSet(touched[..Min(|touched|, Max(1, lookahead))]) <= ToSet(touched)
  {
  }

  lemma NothingCovered(torch: Torch, g: Gradients, t: Plain, bs: seq<Block>)
    requires forall p :: p in t.params ==> p.0 < |g.hyper|
    ensures ParamsAfter(torch, g.hyper, t, g.grads, Covered(t.params.Keys, bs[..0])) == t.params
  {
    assert Covered(t.params.Keys, bs[..0]) == {};
  }

  lemma UntouchedSoFar(torch: Torch, g: Gradients, t: Plain, bs: seq<Block>, k: nat)
    requires (forall p :: p in t.params ==> p.0 < |g.hyper|) && k < |bs| && Separate(bs)
    ensures var params := ParamsAfter(torch, g.hyper, t, g.grads, Covered(t.params.Keys, bs[..k]));
            params.Keys == t.params.Keys && forall p :: p in params && InBlock(bs[k], p) ==> params[p] == t.params[p]
  {
    forall p | p in t.params && InBlock(bs[k], p) ensures p !in Covered(t.params.Keys, bs[..k]) {
      forall b | b in bs[..k] ensures !InBlock(b, p) {
        var j :| 0 <= j < k && bs[j] == b;
      }
    }
  }

  lemma HoldsNames(torch: Torch, names: seq<seq<string>>, b: Block, m: map<Position, Moments>, payload: Option<Bytes>)
    requires BlockHolds(torch, names, b, m, payload)
    ensures WellPlaced(names, b) && Names(names, b, b.lo, b.hi, m, Decoded(torch, payload))
  {
  }

  lemma StateHolds(torch: Torch, names: seq<seq<string>>, b: Block, m: map<Position, Moments>, state: map<string, Moments>, step: nat)
    requires torch.Lawful() && WellPlaced(names, b) && Names(names, b, b.lo, b.hi, m, state)
    ensures BlockHolds(torch, names, b, m, Some(torch.serialize(step, state)))
  {
  }

  lemma OneMoreWritten(blocks: seq<Block>, active: seq<Block>, k: nat)
    requires Separate(blocks) && Separate(active) && (forall b :: b in active ==> b in blocks) && k < |active|
    ensures active[k] in blocks && active[k] !in active[..k]
    ensures forall b :: b in active[..k + 1] <==> b in active[..k] || b == active[k]
    ensures forall b :: b in blocks ==> (b.id == active[k].id <==> b == active[k])
  {
    forall b | b in blocks && b.id == active[k].id ensures b == active[k] {
      SameIdSameBlock(blocks, [active[k]], b);
      assert [active[k]][0] == active[k];
    }
  }

  lemma SameIdSameBlock(blocks: seq<Block>, active: seq<Block>, b: Block)
    requires Separate(blocks) && (forall x :: x in active ==> x in blocks) && b in blocks
    ensures forall i :: 0 <= i < |active| && active[i].id == b.id ==> active[i] == b
  {
    forall i | 0 <= i < |active| && active[i].id == b.id ensures active[i] == b {
      assert active[i] in blocks;
      var x :| 0 <= x < |blocks| && blocks[x] == active[i];
      var y :| 0 <= y < |blocks| && blocks[y] == b;
    }
  }
}
