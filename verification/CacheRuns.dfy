/** Whole runs of the paged cache: appends, resets and syncs in any order, succeeding
    or failing in any way, and what every reachable state satisfies. */
module CacheRuns {
  import opened KvConfig
  import opened SlotRows
  import opened KvCache
  import opened BlockPool
  import opened CacheModel
  import opened CacheInvariant
  import opened CacheRefinement

  datatype Op =
    | AppendOp(s: int, layer: int, kNew: Tensor, vNew: Tensor, env: Env)
    | ResetOp(s: int, okLayers: nat)
    | SyncOp
    | ForceSyncOp

  ghost predicate LegalOp(cfg: KVCacheConfig, op: Op) { op.AppendOp? ==> AppendInputs(cfg, op.kNew, op.vNew) }

  ghost function Step(c: Cache, op: Op): (r: (Cache, Status))
    requires Inv(c) && LegalOp(c.cfg, op)
  {
    match op
    case AppendOp(s, layer, kNew, vNew, env) => AppendTokens(c, s, layer, kNew, vNew, env)
    case ResetOp(s, okLayers) => ResetSequence(c, s, okLayers)
    case SyncOp => (Sync(c), Ok)
    case ForceSyncOp => (ForceSync(c), Ok)
  }

  /** The tensors hold one row per token of the configured size. */
  ghost predicate RowsMatch(cfg: KVCacheConfig, kNew: Tensor, vNew: Tensor)
    requires ValidConfig(cfg)
  {
    |kNew.dims| == 3 && |kNew.data| == NumNew(kNew) * TokenSize(cfg) <= |vNew.data|
  }

  /** The specification: append concatenates, reset clears; a reset refused at layer n
      has zeroed the tokens of the layers before n; everything else changes nothing. */
  ghost function SpecStep(cfg: KVCacheConfig, a: Tokens, op: Op, st: Status): (a': Tokens)
    requires ValidConfig(cfg)
    ensures |a'| == |a|
  {
    match op
    case AppendOp(s, layer, kNew, vNew, env) =>
      if st.Ok? && 0 <= s < |a| && 0 <= layer && RowsMatch(cfg, kNew, vNew)
      then a[s := a[s] + Appended(cfg, layer, kNew, vNew)] else a
    case ResetOp(s, okLayers) =>
      if !(0 <= s < |a|) then a
      else if st.Ok? then a[s := []]
      else a[s := Blanked(a[s], okLayers, TokenSize(cfg))]
    case SyncOp => a
    case ForceSyncOp => a
  }

  // ---------------------------------------------------------------------------
  // One step
  // ---------------------------------------------------------------------------

  lemma EffectFollowsSpec(c: Cache, a: Tokens, op: Op, r: (Cache, Status))
    requires Inv(c) && |a| == c.cfg.maxNumSeqs && op.AppendOp? && 0 <= op.s < |a| && 0 <= op.layer
    requires Admitted(c, op.s, op.layer, op.kNew, op.vNew)
    requires AppendEffect(c, a, op.s, op.layer, op.kNew, op.vNew, op.env, r)
    ensures Refines(r.0, SpecStep(c.cfg, a, op, r.1)) && r.0.cfg == c.cfg
  {
    hide Inv, Refines, Prepared, Attach, WriteAccepted, Appended;
  }

  /** An append that the arguments or the pool refuse. */
  lemma RefusedAppend(c: Cache, a: Tokens, op: Op)
    requires Refines(c, a) && op.AppendOp? && LegalOp(c.cfg, op)
    requires ArgumentCheck(c.cfg, op.s, op.layer, op.kNew, op.vNew).Err?
          || !Admitted(c, op.s, op.layer, op.kNew, op.vNew)
    ensures var (c', st) := Step(c, op); st.Err? && Refines(c', a) && c'.cfg == c.cfg
  {
    hide PoolInv, Ownership, RowAgrees, MirrorRow, Attach, WriteTokens;
    if ArgumentCheck(c.cfg, op.s, op.layer, op.kNew, op.vNew).Ok? {
      AttachSucceeds(c, op.s, c.lens[op.s] + NumNew(op.kNew));
      RefusedKeepsView(c, a, Step(c, op).0);
    }
  }

  lemma AppendRefines(c: Cache, a: Tokens, op: Op)
    requires Refines(c, a) && op.AppendOp? && LegalOp(c.cfg, op)
    ensures var (c', st) := Step(c, op); Refines(c', SpecStep(c.cfg, a, op, st)) && c'.cfg == c.cfg
  {
    hide PoolInv, Ownership, RowAgrees, MirrorRow, Admitted, AppendEffect, AppendTokens, Appended;
    if ArgumentCheck(c.cfg, op.s, op.layer, op.kNew, op.vNew).Ok? && Admitted(c, op.s, op.layer, op.kNew, op.vNew) {
      AdmittedEffect(c, a, op.s, op.layer, op.kNew, op.vNew, op.env);
      EffectFollowsSpec(c, a, op, Step(c, op));
    } else {
      RefusedAppend(c, a, op);
    }
  }

  lemma ResetIs(c: Cache, s: nat, okLayers: nat)
    requires Inv(c) && s < c.cfg.maxNumSeqs
    ensures var z := if c.owned[s] == [] then c else Zeroed(c, s, okLayers);
            Sized(z) && ResetSequence(c, s, okLayers)
              == if c.owned[s] != [] && okLayers < c.cfg.numLayers then (z, Err(LaunchFailed)) else (Released(z, s), Ok)
  {
    hide PoolInv, Ownership, RowAgrees, MirrorRow, ZeroLayers, ResetSeq, SetRow;
    ZeroedSized(c, s, okLayers);
  }

  /** Zeroing all layers blanks every live position of the sequence. */
  lemma AllZeroed(c: Cache, a: Tokens, s: nat, okLayers: nat, l: nat, i: nat)
    requires Refines(c, a) && s < c.cfg.maxNumSeqs && okLayers >= c.cfg.numLayers && l < c.cfg.numLayers
    requires i < c.lens[s]
    ensures Sized(Zeroed(c, s, okLayers)) && AllBlank(Zeroed(c, s, okLayers), l, s, i)
  {
    hide PoolInv, Ownership, RowAgrees, MirrorRow, Zeroed;
    ZeroedSized(c, s, okLayers);
    assert Shows(c, a, l, s, i);
    ZeroedRow(c, s, okLayers, l, SlotOf(c.owned, c.cfg.blockSize, s, i));
    BlockOfSlot(c, s, s, i);
  }

  lemma ResetRefines(c: Cache, a: Tokens, op: Op)
    requires Refines(c, a) && op.ResetOp?
    ensures var (c', st) := Step(c, op); Refines(c', SpecStep(c.cfg, a, op, st)) && c'.cfg == c.cfg
  {
    hide PoolInv, Ownership, RowAgrees, MirrorRow, Zeroed, Released, ZeroLayers, ResetSequence, Blanked, Shows, Blank,
         Live;
    if 0 <= op.s < c.cfg.maxNumSeqs {
      ResetIs(c, op.s, op.okLayers);
      if c.owned[op.s] == [] {
        ReleasedRefines(c, a, op.s);
        ReleasedConfig(c, op.s);
      } else {
        var z := Zeroed(c, op.s, op.okLayers);
        ZeroedRefines(c, a, op.s, op.okLayers);
        if op.okLayers >= c.cfg.numLayers {
          forall l, i | 0 <= l < z.cfg.numLayers && 0 <= i < z.lens[op.s] ensures AllBlank(z, l, op.s, i) {
            AllZeroed(c, a, op.s, op.okLayers, l, i);
          }
          var b := a[op.s := Blanked(a[op.s], op.okLayers, TokenSize(c.cfg))];
          ReleasedRefines(z, b, op.s);
          ReleasedConfig(z, op.s);
          assert b[op.s := []] == a[op.s := []];
        }
      }
    } else {
      OutOfRangeReset(c, op.s, op.okLayers);
    }
  }

  lemma ReleasedConfig(c: Cache, s: nat)
    requires Sized(c) && s < c.cfg.maxNumSeqs
    ensures Released(c, s).cfg == c.cfg
  {
    hide PoolInv, ResetSeq;
  }

  lemma OutOfRangeReset(c: Cache, s: int, okLayers: nat)
    requires Inv(c) && !(0 <= s < c.cfg.maxNumSeqs)
    ensures ResetSequence(c, s, okLayers) == (c, Err(ShapeMismatch))
  {
  }

  lemma SyncedMirror(c: Cache, s: nat)
    requires Inv(c) && s < c.cfg.maxNumSeqs && Sized(ForceSync(c))
    ensures MirrorRow(ForceSync(c), s)
  {
    hide PoolInv, Ownership;
    assert RowAgrees(c, s);
    assert c.owned[s][..|c.owned[s]|] == c.owned[s];
    assert MirrorAt(ForceSync(c), s, |c.owned[s]|);
  }

  lemma ForceSyncRefines(c: Cache, a: Tokens)
    requires Refines(c, a)
    ensures Refines(ForceSync(c), a)
  {
    hide PoolInv, Ownership, MirrorRow, SlotOf;
    var c' := ForceSync(c);
    forall l | 0 <= l < |c'.k| ensures LayerSized(c', c'.k[l]) && LayerSized(c', c'.v[l]) {
      assert LayerSized(c, c.k[l]) && LayerSized(c, c.v[l]);
    }
    assert Sized(c');
    forall t | 0 <= t < c.cfg.maxNumSeqs ensures RowAgrees(c', t) && MirrorRow(c', t) {
      assert RowAgrees(c, t);
      SyncedMirror(c, t);
    }
    assert Inv(c');
    hide Sized, RowAgrees;
    ExtendsKeepsView(c, c', a);
  }

  /** Every operation, whatever it returns, follows the specification. */
  lemma StepRefines(c: Cache, a: Tokens, op: Op)
    requires Refines(c, a) && LegalOp(c.cfg, op)
    ensures var (c', st) := Step(c, op); Refines(c', SpecStep(c.cfg, a, op, st)) && c'.cfg == c.cfg
  {
    hide Refines;
    match op
    case AppendOp(_, _, _, _, _) => AppendRefines(c, a, op);
    case ResetOp(_, _) => ResetRefines(c, a, op);
    case SyncOp => ForceSyncRefines(c, a);
    case ForceSyncOp => ForceSyncRefines(c, a);
  }

  // ---------------------------------------------------------------------------
  // Runs
  // ---------------------------------------------------------------------------

  ghost predicate LegalRun(cfg: KVCacheConfig, ops: seq<Op>) { forall i :: 0 <= i < |ops| ==> LegalOp(cfg, ops[i]) }

  /** Cache and specification after a run from a fresh cache, side by side. */
  ghost function Run(cfg: KVCacheConfig, ops: seq<Op>): (r: (Cache, Tokens))
    requires ValidConfig(cfg) && SlotsFitInt32(cfg) && LegalRun(cfg, ops)
    ensures Refines(r.0, r.1) && r.0.cfg == cfg
  {
    if ops == [] then
      FreshRefines(cfg);
      (Fresh(cfg), NoTokens(cfg))
    else
      var (c, a) := Run(cfg, ops[..|ops| - 1]);
      var op := ops[|ops| - 1];
      StepRefines(c, a, op);
      var (c', st) := Step(c, op);
      (c', SpecStep(cfg, a, op, st))
  }

  /** A run that ends with SyncPageTable ends in sync on every configuration: revisions agree,
      and the tables do if the revisions did not agree before.  A forced upload makes
      both agree whatever the state.  Neither changes a token, a length or the host table. */
  lemma SyncsEndInSync(cfg: KVCacheConfig, ops: seq<Op>)
    requires ValidConfig(cfg) && SlotsFitInt32(cfg) && LegalRun(cfg, ops)
    ensures LegalRun(cfg, ops + [SyncOp]) && LegalRun(cfg, ops + [ForceSyncOp])
    ensures var ((c, a), (c', a')) := (Run(cfg, ops), Run(cfg, ops + [SyncOp]));
            && c'.synced == c'.revision == c.revision && a' == a && c'.lens == c.lens && c'.host == c.host
            && c'.device == if c.synced == c.revision then c.device else c.host
    ensures var ((c, a), (c', a')) := (Run(cfg, ops), Run(cfg, ops + [ForceSyncOp]));
            && c'.synced == c'.revision == c.revision && a' == a && c'.lens == c.lens && c'.host == c.host == c'.device
  {
    hide Refines;
    assert (ops + [SyncOp])[..|ops|] == ops && (ops + [ForceSyncOp])[..|ops|] == ops;
  }

  /** What the operations of a run return, in order. */
  ghost function Statuses(cfg: KVCacheConfig, ops: seq<Op>): (sts: seq<Status>)
    requires ValidConfig(cfg) && SlotsFitInt32(cfg) && LegalRun(cfg, ops)
    ensures |sts| == |ops|
  {
    if ops == [] then []
    else
      var before := ops[..|ops| - 1];
      Statuses(cfg, before) + [Step(Run(cfg, before).0, ops[|ops| - 1]).1]
  }
}
