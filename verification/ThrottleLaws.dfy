/** Laws of the guard over whole runs. */
module ThrottleLaws {
  import opened Throttle

  function Keep(m: Table, ops: seq<Op>): Table {
    if ops == [] then m else Effect(Keep(m, ops[..|ops|-1]), ops[|ops|-1])
  }

  function Swept(m: Table, ops: seq<Op>): Table {
    if ops == [] then m else Step(Swept(m, ops[..|ops|-1]), ops[|ops|-1])
  }

  /** The answers of a guard that never sweeps its table. */
  function RepliesKeeping(ops: seq<Op>): seq<Reply> {
    seq(|ops|, i requires 0 <= i < |ops| => ReplyTo(Keep(map[], ops[..i]), ops[i]))
  }

  /** The answers of the guard as written, which sweeps after every failure and clear. */
  function RepliesSweeping(ops: seq<Op>): seq<Reply> {
    seq(|ops|, i requires 0 <= i < |ops| => ReplyTo(Swept(map[], ops[..i]), ops[i]))
  }

  ghost predicate Ordered(ops: seq<Op>) {
    forall i, j :: 0 <= i < j < |ops| ==> ops[i].at <= ops[j].at
  }

  ghost predicate WindowsWithin(ops: seq<Op>, limit: int) {
    forall i :: 0 <= i < |ops| && ops[i].Fail? ==> ops[i].policy.window <= limit
  }

  ghost predicate WindowsAre(ops: seq<Op>, window: int) {
    forall i :: 0 <= i < |ops| && ops[i].Fail? ==> ops[i].policy.window == window
  }

  // ----- sweeping cannot be observed ------------------------------------------------------

  ghost predicate Shadows(swept: Table, kept: Table, now: Time) {
    && (forall key :: key in swept ==> key in kept && swept[key] == kept[key])
    && (forall key :: key in kept && key !in swept ==> Expired(kept[key], now))
  }

  lemma SweepingStep(swept: Table, kept: Table, before: Time, op: Op)
    requires Shadows(swept, kept, before) && before <= op.at
    requires op.Fail? ==> op.policy.window <= RETENTION
    ensures ReplyTo(swept, op) == ReplyTo(kept, op)
    ensures Shadows(Step(swept, op), Effect(kept, op), op.at)
  {
    forall key | key in kept && key !in swept ensures Expired(kept[key], op.at) { }
    if op.Fail? {
      assert Renewed(At(swept, op.key), op.policy, op.at) == Renewed(At(kept, op.key), op.policy, op.at);
    }
  }

  lemma {:induction false} SweptShadowsKept(ops: seq<Op>, last: Time)
    requires Ordered(ops) && WindowsWithin(ops, RETENTION)
    requires forall i :: 0 <= i < |ops| ==> ops[i].at <= last
    ensures Shadows(Swept(map[], ops), Keep(map[], ops), last)
  {
    if ops != [] {
      var n := |ops| - 1;
      SweptShadowsKept(ops[..n], ops[n].at);
      SweepingStep(Swept(map[], ops[..n]), Keep(map[], ops[..n]), ops[n].at, ops[n]);
    }
  }

  /** Garbage collection is invisible to every caller, over many keys and any mix of calls. */
  lemma SweepingUnobservable(ops: seq<Op>)
    requires Ordered(ops) && WindowsWithin(ops, RETENTION)
    ensures RepliesSweeping(ops) == RepliesKeeping(ops)
  {
    forall i | 0 <= i < |ops| ensures RepliesSweeping(ops)[i] == RepliesKeeping(ops)[i] {
      SweptShadowsKept(ops[..i], ops[i].at);
      SweepingStep(Swept(map[], ops[..i]), Keep(map[], ops[..i]), ops[i].at, ops[i]);
    }
  }

  ghost predicate Invisible(window: int) {
    forall ops :: Ordered(ops) && WindowsAre(ops, window) ==> RepliesSweeping(ops) == RepliesKeeping(ops)
  }

  /** A run that shows the sweep as soon as some window outlives the retention time. */
  function Betrayal(window: int): seq<Op> {
    var p := Policy(window, 0, 0);
    var (a, b) := (Key("write_auth", "a|host"), Key("write_auth", "b|host"));
    [Fail(a, p, 1), Fail(b, p, RETENTION + 2), Fail(a, p, RETENTION + 2)]
  }

  lemma BetrayalShows(window: int)
    requires window > RETENTION
    ensures Ordered(Betrayal(window)) && WindowsAre(Betrayal(window), window)
    ensures RepliesSweeping(Betrayal(window))[2] == Observed(1, 0, true, false)
    ensures RepliesKeeping(Betrayal(window))[2] == Observed(2, 0, false, false)
  {
    var ops := Betrayal(window);
    assert ops[..2][..1] == ops[..1] && ops[..1][..0] == [];
    assert Keep(map[], ops[..1]) == Effect(map[], ops[0]);
    assert Keep(map[], ops[..2]) == Effect(Keep(map[], ops[..1]), ops[1]);
    assert Swept(map[], ops[..1]) == Step(map[], ops[0]);
    assert Swept(map[], ops[..2]) == Step(Swept(map[], ops[..1]), ops[1]);
  }

  /** The exact bound: sweeping is invisible for a window exactly when it is at most 2 * writeProbeWindow. */
  lemma SweepingInvisibleIff(window: int)
    ensures Invisible(window) <==> window <= RETENTION
  {
    if window <= RETENTION {
      forall ops | Ordered(ops) && WindowsAre(ops, window) ensures RepliesSweeping(ops) == RepliesKeeping(ops) {
        SweepingUnobservable(ops);
      }
    } else {
      BetrayalShows(window);
    }
  }

  // ----- epochs ---------------------------------------------------------------------------

  /** The time up to which an epoch blocks its subject: its threshold-th failure plus the block. */
  function BlockEnd(epoch: seq<Time>, p: Policy): Time {
    if 0 < p.threshold <= |epoch| && p.block > 0 then epoch[p.threshold - 1] + p.block else 0
  }

  predicate StartsAnew(epoch: seq<Time>, p: Policy, now: Time) {
    epoch == [] || (now >= BlockEnd(epoch, p) && now - epoch[|epoch| - 1] > p.window)
  }

  /** The failure times of the current epoch of a key: the history alone, with no counter in it. */
  function Epoch(ops: seq<Op>, key: Key, p: Policy): seq<Time> {
    if ops == [] then [] else
      var e := Epoch(ops[..|ops|-1], key, p);
      match ops[|ops|-1]
      case Fail(k, _, now) => if k != key then e else if StartsAnew(e, p, now) then [now] else e + [now]
      case Clear(k, _) => if k == key then [] else e
      case Ask(_, _) => e
  }

  function Summary(epoch: seq<Time>, p: Policy): Counter {
    if epoch == [] then FRESH else
      Counter(|epoch|, epoch[|epoch| - 1], BlockEnd(epoch, p), true, 0 < p.threshold <= |epoch|)
  }

  /** Every failure on this key is recorded under one policy, as each scope of the guard does. */
  ghost predicate UnderPolicy(ops: seq<Op>, key: Key, p: Policy) {
    && p.window <= RETENTION
    && (forall i :: 0 <= i < |ops| ==> ops[i].at > 0)
    && (forall i :: 0 <= i < |ops| && ops[i].Fail? && ops[i].key == key ==> ops[i].policy == p)
  }

  /** The table holds the epoch's summary, or has swept it because it could not matter any more. */
  ghost predicate Tracks(m: Table, key: Key, epoch: seq<Time>, p: Policy, now: Time) {
    if key in m then epoch != [] && m[key] == Summary(epoch, p)
    else epoch != [] ==> Expired(Summary(epoch, p), now)
  }

  lemma TrackingStep(m: Table, op: Op, key: Key, epoch: seq<Time>, p: Policy, before: Time)
    requires Tracks(m, key, epoch, p, before) && 0 < before <= op.at
    requires epoch != [] ==> 0 < epoch[|epoch| - 1]
    requires p.window <= RETENTION
    requires op.Fail? && op.key == key ==> op.policy == p
    ensures var next := if op.Ask? || op.key != key then epoch
                        else if op.Clear? then []
                        else if StartsAnew(epoch, p, op.at) then [op.at] else epoch + [op.at];
            && Tracks(Step(m, op), key, next, p, op.at)
            && (op.Fail? && op.key == key ==>
                  ReplyTo(m, op) == Observed(|next|, BlockEnd(next, p), |next| == 1, |next| == p.threshold))
            && (op.Ask? && op.key == key ==>
                  ReplyTo(m, op) == if op.at < BlockEnd(epoch, p) then Answer(true, BlockEnd(epoch, p) - op.at)
                                    else Answer(false, 0))
  {
    if op.Fail? && op.key == key {
      if StartsAnew(epoch, p, op.at) {
        assert Renewed(At(m, key), p, op.at) == FRESH;
      } else {
        assert key in m && Renewed(m[key], p, op.at) == m[key];
        var next := epoch + [op.at];
        assert BlockEnd(next, p) == if Escalates(m[key], p) && p.block > 0 then op.at + p.block else BlockEnd(epoch, p);
      }
    }
  }

  lemma {:induction false} EpochTimesPositive(ops: seq<Op>, key: Key, p: Policy)
    requires forall i :: 0 <= i < |ops| ==> ops[i].at > 0
    ensures forall i :: 0 <= i < |Epoch(ops, key, p)| ==> Epoch(ops, key, p)[i] > 0
  {
    if ops != [] { EpochTimesPositive(ops[..|ops|-1], key, p); }
  }

  lemma {:induction false} TableTracksEpoch(ops: seq<Op>, key: Key, p: Policy, last: Time)
    requires Ordered(ops) && UnderPolicy(ops, key, p) && last > 0
    requires forall i :: 0 <= i < |ops| ==> ops[i].at <= last
    ensures Tracks(Swept(map[], ops), key, Epoch(ops, key, p), p, last)
  {
    if ops != [] {
      var n := |ops| - 1;
      TableTracksEpoch(ops[..n], key, p, ops[n].at);
      EpochTimesPositive(ops[..n], key, p);
      TrackingStep(Swept(map[], ops[..n]), ops[n], key, Epoch(ops[..n], key, p), p, ops[n].at);
    }
  }

  /**
  The epoch law, for the guard as written. The counter is the length of the epoch, `first` fires exactly
  on its first failure, `escalated` exactly on failure number `threshold`, and the subject is blocked
  exactly before the end of the block that this failure opened.
  */
  lemma EpochLaw(ops: seq<Op>, i: nat)
    requires i < |ops| && Ordered(ops)
    requires ops[i].Fail? ==> UnderPolicy(ops, ops[i].key, ops[i].policy)
    ensures ops[i].Fail? ==>
      var epoch := Epoch(ops[..i+1], ops[i].key, ops[i].policy);
      RepliesSweeping(ops)[i] ==
        Observed(|epoch|, BlockEnd(epoch, ops[i].policy), |epoch| == 1, |epoch| == ops[i].policy.threshold)
    ensures forall p :: ops[i].Ask? && UnderPolicy(ops, ops[i].key, p) ==>
      var until := BlockEnd(Epoch(ops[..i], ops[i].key, p), p);
      RepliesSweeping(ops)[i] == if ops[i].at < until then Answer(true, until - ops[i].at) else Answer(false, 0)
  {
    var key := ops[i].key;
    forall p | UnderPolicy(ops, key, p) && (ops[i].Ask? || (ops[i].Fail? && p == ops[i].policy))
      ensures Tracks(Swept(map[], ops[..i]), key, Epoch(ops[..i], key, p), p, ops[i].at)
      ensures var e := Epoch(ops[..i], key, p); e != [] ==> 0 < e[|e| - 1]
    {
      TableTracksEpoch(ops[..i], key, p, ops[i].at);
      EpochTimesPositive(ops[..i], key, p);
    }
    assert ops[..i+1][..i] == ops[..i];
    forall p | UnderPolicy(ops, key, p) && (ops[i].Ask? || (ops[i].Fail? && p == ops[i].policy)) {
      TrackingStep(Swept(map[], ops[..i]), ops[i], key, Epoch(ops[..i], key, p), p, ops[i].at);
    }
  }
}
