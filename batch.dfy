/** What a `for order in orders:` loop of the pipeline computes when each iteration
    either keeps the record (in a possibly rewritten form), skips it, or raises and so
    aborts the whole batch. `Collect` is the list the loop builds (or the first error);
    `Leave` is what the loop leaves in the input list, since it rewrites records in place. */
module Batch {
  import opened Outcomes
  import opened Orders

  /** One iteration's verdict on one record. */
  type Step = Record -> Result<Option<Record>>

  /** The record as one iteration leaves it in the input list (also when it raises). */
  type Effect = Record -> Record

  predicate Kept(step: Step, r: Record) {
    step(r).Ok? && step(r).value.Some?
  }

  function Collect(rs: seq<Record>, step: Step): (r: Result<seq<Record>>)
    ensures r.Ok? ==> |r.value| <= |rs|
    decreases |rs|
  {
    if rs == [] then Ok([])
    else
      var prev :- Collect(rs[..|rs| - 1], step);
      var d :- step(rs[|rs| - 1]);
      Ok(if d.Some? then prev + [d.value] else prev)
  }

  /** Records the loop reached get the iteration's effect; those after a raise stay as they were. */
  function Leave(rs: seq<Record>, step: Step, effect: Effect): (out: seq<Record>)
    ensures |out| == |rs|
    decreases |rs|
  {
    if rs == [] then []
    else
      var init := rs[..|rs| - 1];
      Leave(init, step, effect) + [if Collect(init, step).Ok? then effect(rs[|rs| - 1]) else rs[|rs| - 1]]
  }

  /** Positions of the records the loop keeps, in input order. */
  function KeptIndices(rs: seq<Record>, step: Step): seq<nat>
    decreases |rs|
  {
    if rs == [] then []
    else KeptIndices(rs[..|rs| - 1], step) + (if Kept(step, rs[|rs| - 1]) then [|rs| - 1] else [])
  }

  /** The batch succeeds exactly when no record raises. */
  lemma {:induction false} CollectOkIff(rs: seq<Record>, step: Step)
    ensures Collect(rs, step).Ok? <==> forall j :: 0 <= j < |rs| ==> step(rs[j]).Ok?
    decreases |rs|
  {
    if rs != [] {
      var init := rs[..|rs| - 1];
      CollectOkIff(init, step);
      assert forall j :: 0 <= j < |init| ==> init[j] == rs[j];
    }
  }

  /** One more iteration after a prefix that raised nothing: the list grows by what the
      step keeps and the record takes the step's effect. */
  lemma Advance(rs: seq<Record>, step: Step, effect: Effect, i: nat)
    requires i < |rs|
    requires Collect(rs[..i], step).Ok?
    ensures Leave(rs[..i + 1], step, effect) == Leave(rs[..i], step, effect) + [effect(rs[i])]
    ensures step(rs[i]).Err? ==> Collect(rs[..i + 1], step) == Err(step(rs[i]).error)
    ensures step(rs[i]) == Ok(None) ==> Collect(rs[..i + 1], step) == Collect(rs[..i], step)
    ensures step(rs[i]).Ok? && step(rs[i]).value.Some? ==>
      Collect(rs[..i + 1], step) == Ok(Collect(rs[..i], step).value + [step(rs[i]).value.value])
  {
    assert rs[..i + 1][..i] == rs[..i];
  }

  /** The first record that raises decides the error; the loop stops there, leaving the
      records after it untouched. */
  lemma {:induction false} StopAt(rs: seq<Record>, step: Step, effect: Effect, i: nat)
    requires i < |rs|
    requires Collect(rs[..i], step).Ok? && step(rs[i]).Err?
    ensures Collect(rs, step) == Err(step(rs[i]).error)
    ensures Leave(rs, step, effect) == Leave(rs[..i], step, effect) + [effect(rs[i])] + rs[i + 1..]
    decreases |rs|
  {
    var init := rs[..|rs| - 1];
    Advance(rs, step, effect, i);
    if |rs| == i + 1 {
      assert rs[..i + 1] == rs;
    } else {
      assert init[..i] == rs[..i] && init[i] == rs[i];
      StopAt(init, step, effect, i);
      assert init[i + 1..] + [rs[|rs| - 1]] == rs[i + 1..];
    }
  }

  /** Overwriting the element just after a prefix. */
  lemma ReplaceFirst(done: seq<Record>, rest: seq<Record>, x: Record)
    requires rest != []
    ensures (done + rest)[|done| := x] == done + [x] + rest[1..]
  {
  }

  /** One iteration that raises nothing, seen from the loop: the list as it stood at the
      iteration's start (`cur`) takes the effect at position i, and the output grows by
      what the step keeps. */
  lemma Proceed(rs: seq<Record>, step: Step, effect: Effect, i: nat, cur: seq<Record>)
    requires i < |rs| && Collect(rs[..i], step).Ok? && step(rs[i]).Ok?
    requires cur == Leave(rs[..i], step, effect) + rs[i..]
    ensures cur[i := effect(rs[i])] == Leave(rs[..i + 1], step, effect) + rs[i + 1..]
    ensures step(rs[i]).value.None? ==> Collect(rs[..i + 1], step) == Collect(rs[..i], step)
    ensures step(rs[i]).value.Some? ==>
      Collect(rs[..i + 1], step) == Ok(Collect(rs[..i], step).value + [step(rs[i]).value.value])
  {
    Advance(rs, step, effect, i);
    ReplaceFirst(Leave(rs[..i], step, effect), rs[i..], effect(rs[i]));
    assert rs[i..][1..] == rs[i + 1..];
  }

  /** The iteration that raises, seen from the loop: the batch fails with its error and
      the list is final once position i carries the effect. */
  lemma Halt(rs: seq<Record>, step: Step, effect: Effect, i: nat, cur: seq<Record>)
    requires i < |rs| && Collect(rs[..i], step).Ok? && step(rs[i]).Err?
    requires cur == Leave(rs[..i], step, effect) + rs[i..]
    ensures Collect(rs, step) == Err(step(rs[i]).error)
    ensures cur[i := effect(rs[i])] == Leave(rs, step, effect)
    ensures effect(rs[i]) == rs[i] ==> cur == Leave(rs, step, effect)
  {
    StopAt(rs, step, effect, i);
    ReplaceFirst(Leave(rs[..i], step, effect), rs[i..], effect(rs[i]));
    assert rs[i..][1..] == rs[i + 1..];
  }

  /** The loop ran to the end. */
  lemma Finish(rs: seq<Record>, step: Step, effect: Effect, cur: seq<Record>)
    requires cur == Leave(rs[..|rs|], step, effect) + rs[|rs|..]
    ensures cur == Leave(rs, step, effect)
    ensures Collect(rs[..|rs|], step) == Collect(rs, step)
    ensures Leave(rs[..|rs|], step, effect) == Leave(rs, step, effect)
  {
    assert rs[..|rs|] == rs;
  }

  /** A step that keeps every record it does not raise on, in the form the effect gives it. */
  ghost predicate KeepsRewritten(step: Step, effect: Effect) {
    forall r :: step(r).Ok? ==> step(r) == Ok(Some(effect(r)))
  }

  /** For such a step a successful batch returns exactly the list it leaves behind. */
  lemma {:induction false} CollectIsLeave(rs: seq<Record>, step: Step, effect: Effect)
    requires KeepsRewritten(step, effect)
    requires Collect(rs, step).Ok?
    ensures Collect(rs, step).value == Leave(rs, step, effect)
    decreases |rs|
  {
    if rs != [] {
      var init := rs[..|rs| - 1];
      assert Collect(init, step).Ok?;
      CollectIsLeave(init, step, effect);
    }
  }

  /** The `for` loop itself over a list rewritten in place: each iteration gives its
      verdict and leaves its effect; the first verdict that raises ends the loop. */
  method RunInPlace(orders: array<Record>, step: Step, effect: Effect) returns (out: Result<seq<Record>>)
    modifies orders
    ensures out == Collect(old(orders[..]), step)
    ensures orders[..] == Leave(old(orders[..]), step, effect)
  {
    ghost var rs := orders[..];
    var kept: seq<Record> := [];
    var i := 0;
    while i < orders.Length
      invariant 0 <= i <= orders.Length
      invariant Collect(rs[..i], step) == Ok(kept)
      invariant orders[..] == Leave(rs[..i], step, effect) + rs[i..]
    {
      ghost var cur := orders[..];
      assert cur[i] == rs[i];
      var verdict := step(orders[i]);
      orders[i] := effect(orders[i]);
      if verdict.Err? {
        Halt(rs, step, effect, i, cur);
        return Err(verdict.error);
      }
      Proceed(rs, step, effect, i, cur);
      if verdict.value.Some? {
        kept := kept + [verdict.value.value];
      }
      i := i + 1;
    }
    Finish(rs, step, effect, orders[..]);
    out := Ok(kept);
  }

  /** What the loop leaves at position j: the effect when every earlier record passed
      without raising, the record itself otherwise. */
  lemma {:induction false} LeaveAt(rs: seq<Record>, step: Step, effect: Effect, j: nat)
    requires j < |rs|
    ensures Leave(rs, step, effect)[j] == if Collect(rs[..j], step).Ok? then effect(rs[j]) else rs[j]
    decreases |rs|
  {
    var init := rs[..|rs| - 1];
    if j < |rs| - 1 {
      LeaveAt(init, step, effect, j);
      assert init[..j] == rs[..j] && init[j] == rs[j];
    } else {
      assert init == rs[..j];
    }
  }

  /** The first record that raises decides the error; the records before it carry their
      effect, it and the records after it are as they were when its effect leaves it alone. */
  lemma AbortsAt(rs: seq<Record>, step: Step, effect: Effect, k: nat)
    requires k < |rs|
    requires forall j :: 0 <= j < k ==> step(rs[j]).Ok?
    requires step(rs[k]).Err? && effect(rs[k]) == rs[k]
    ensures Collect(rs, step) == Err(step(rs[k]).error)
    ensures forall j :: 0 <= j < |rs| ==> Leave(rs, step, effect)[j] == if j < k then effect(rs[j]) else rs[j]
  {
    assert forall j :: 0 <= j < k ==> rs[..k][j] == rs[j];
    CollectOkIff(rs[..k], step);
    StopAt(rs, step, effect, k);
    forall j | 0 <= j < |rs|
      ensures Leave(rs, step, effect)[j] == if j < k then effect(rs[j]) else rs[j]
    {
      LeftAround(rs, step, effect, k, j);
    }
  }

  /** One position of `AbortsAt`: before the raise it carries its effect, after it it is untouched. */
  lemma LeftAround(rs: seq<Record>, step: Step, effect: Effect, k: nat, j: nat)
    requires k < |rs| && j < |rs|
    requires forall i :: 0 <= i < k ==> step(rs[i]).Ok?
    requires step(rs[k]).Err? && effect(rs[k]) == rs[k]
    ensures Leave(rs, step, effect)[j] == if j < k then effect(rs[j]) else rs[j]
  {
    LeaveAt(rs, step, effect, j);
    CollectOkIff(rs[..j], step);
    if j <= k {
      forall i | 0 <= i < j
        ensures step(rs[..j][i]).Ok?
      {
        assert rs[..j][i] == rs[i];
      }
    } else {
      assert rs[..j][k] == rs[k];
    }
  }

  /** The output is the kept records, rewritten, in input order: an order-preserving
      subsequence selected exactly by the steps that keep. */
  lemma CollectSubsequence(rs: seq<Record>, step: Step)
    requires Collect(rs, step).Ok?
    ensures var out, idx := Collect(rs, step).value, KeptIndices(rs, step);
      && |out| == |idx|
      && (forall i :: 0 <= i < |idx| ==> idx[i] < |rs| && step(rs[idx[i]]) == Ok(Some(out[i])))
      && (forall i, i' :: 0 <= i < i' < |idx| ==> idx[i] < idx[i'])
      && (forall j :: 0 <= j < |rs| ==> (Kept(step, rs[j]) <==> j in idx))
  {
    KeptIndicesAscend(rs, step);
    CollectAtKept(rs, step);
  }

  /** The kept positions are in range, strictly ascending, and exactly the kept records. */
  lemma {:induction false} KeptIndicesAscend(rs: seq<Record>, step: Step)
    ensures var idx := KeptIndices(rs, step);
      && (forall i :: 0 <= i < |idx| ==> idx[i] < |rs|)
      && (forall i, i' :: 0 <= i < i' < |idx| ==> idx[i] < idx[i'])
      && (forall j :: 0 <= j < |rs| ==> (Kept(step, rs[j]) <==> j in idx))
    decreases |rs|
  {
    if rs != [] {
      var n := |rs|;
      var init := rs[..n - 1];
      KeptIndicesAscend(init, step);
      assert forall j :: 0 <= j < n - 1 ==> init[j] == rs[j];
    }
  }

  /** The i-th output is the step's output on the record at the i-th kept position. */
  lemma {:induction false} CollectAtKept(rs: seq<Record>, step: Step)
    requires Collect(rs, step).Ok?
    ensures var out, idx := Collect(rs, step).value, KeptIndices(rs, step);
      && |out| == |idx|
      && (forall i :: 0 <= i < |idx| ==> idx[i] < |rs| && step(rs[idx[i]]) == Ok(Some(out[i])))
    decreases |rs|
  {
    if rs != [] {
      var n := |rs|;
      var init := rs[..n - 1];
      CollectLast(rs, step);
      CollectAtKept(init, step);
      assert forall j :: 0 <= j < n - 1 ==> init[j] == rs[j];
    }
  }

  /** One record more: the output and the kept positions grow by that record exactly when it is kept. */
  lemma CollectLast(rs: seq<Record>, step: Step)
    requires rs != [] && Collect(rs, step).Ok?
    ensures var init, last := rs[..|rs| - 1], rs[|rs| - 1];
      && Collect(init, step).Ok?
      && (Kept(step, last) ==> && Collect(rs, step).value == Collect(init, step).value + [step(last).value.value]
                               && KeptIndices(rs, step) == KeptIndices(init, step) + [|rs| - 1])
      && (!Kept(step, last) ==> && Collect(rs, step).value == Collect(init, step).value
                                && KeptIndices(rs, step) == KeptIndices(init, step))
  {
  }

  /** When every record is kept the output is all records, rewritten, position by position. */
  lemma {:induction false} CollectAllKept(rs: seq<Record>, step: Step)
    requires forall j :: 0 <= j < |rs| ==> Kept(step, rs[j])
    ensures Collect(rs, step).Ok?
    ensures |Collect(rs, step).value| == |rs|
    ensures forall j :: 0 <= j < |rs| ==> step(rs[j]) == Ok(Some(Collect(rs, step).value[j]))
    decreases |rs|
  {
    if rs != [] {
      var init := rs[..|rs| - 1];
      assert forall j :: 0 <= j < |init| ==> init[j] == rs[j];
      CollectAllKept(init, step);
    }
  }

  // ---------------------------------------------------------------- loops that rewrite every record

  /** What one iteration of a normalizer does to a record: the rewritten record, or the
      exception it raises. */
  type Rewrite = Record -> Result<Record>

  /** A normalizer iteration keeps every record it does not raise on, rewritten. */
  function RewriteVerdict(f: Rewrite, rec: Record): (v: Result<Option<Record>>)
    ensures v.Ok? <==> f(rec).Ok?
    ensures v.Ok? ==> v.value == Some(f(rec).value)
    ensures v.Err? ==> v.error == f(rec).error
  {
    match f(rec)
    case Ok(r) => Ok(Some(r))
    case Err(e) => Err(e)
  }

  /** A record whose rewrite raises is left as it was: the assignment never happens. */
  function Rewritten(f: Rewrite, rec: Record): Record {
    if f(rec).Ok? then f(rec).value else rec
  }

  function RewriteStep(f: Rewrite): Step {
    rec => RewriteVerdict(f, rec)
  }

  function RewriteEffect(f: Rewrite): Effect {
    rec => Rewritten(f, rec)
  }

  lemma RewriteKeepsAll(f: Rewrite)
    ensures KeepsRewritten(RewriteStep(f), RewriteEffect(f))
  {
    forall r | RewriteStep(f)(r).Ok?
      ensures RewriteStep(f)(r) == Ok(Some(RewriteEffect(f)(r)))
    {
      assert RewriteStep(f)(r) == RewriteVerdict(f, r);
    }
  }

  lemma RewriteStepIs(f: Rewrite, rec: Record)
    ensures RewriteStep(f)(rec) == RewriteVerdict(f, rec)
    ensures RewriteEffect(f)(rec) == Rewritten(f, rec)
  {
  }

  /** A normalizer loop over the records, rewriting them in place. On success the whole
      list, as left, is what gets saved. */
  method RewriteInPlace(orders: array<Record>, f: Rewrite) returns (saved: Result<seq<Record>>)
    modifies orders
    ensures saved == Collect(old(orders[..]), RewriteStep(f))
    ensures orders[..] == Leave(old(orders[..]), RewriteStep(f), RewriteEffect(f))
    ensures saved.Ok? ==> saved.value == orders[..]
  {
    ghost var rs := orders[..];
    saved := RunInPlace(orders, RewriteStep(f), RewriteEffect(f));
    if saved.Ok? {
      RewriteKeepsAll(f);
      CollectIsLeave(rs, RewriteStep(f), RewriteEffect(f));
    }
  }

  /** The batch is saved exactly when every record rewrites; it then holds every record,
      rewritten, in input order. */
  lemma RewriteBatch(rs: seq<Record>, f: Rewrite)
    ensures Collect(rs, RewriteStep(f)).Ok? <==> forall j :: 0 <= j < |rs| ==> f(rs[j]).Ok?
    ensures Collect(rs, RewriteStep(f)).Ok? ==>
      var out := Collect(rs, RewriteStep(f)).value;
      |out| == |rs| && forall j :: 0 <= j < |rs| ==> out[j] == f(rs[j]).value
  {
    forall j | 0 <= j < |rs| {
      RewriteStepIs(f, rs[j]);
    }
    CollectOkIff(rs, RewriteStep(f));
    if Collect(rs, RewriteStep(f)).Ok? {
      CollectAllKept(rs, RewriteStep(f));
    }
  }

  /** The first record whose rewrite raises aborts the batch with its error; the records
      before it have been rewritten in place, it and those after it are untouched. */
  lemma RewriteAbortsAt(rs: seq<Record>, f: Rewrite, k: nat)
    requires k < |rs|
    requires forall j :: 0 <= j < k ==> f(rs[j]).Ok?
    requires f(rs[k]).Err?
    ensures Collect(rs, RewriteStep(f)) == Err(f(rs[k]).error)
    ensures var left := Leave(rs, RewriteStep(f), RewriteEffect(f));
      forall j :: 0 <= j < |rs| ==> left[j] == if j < k then f(rs[j]).value else rs[j]
  {
    forall j | 0 <= j < |rs| {
      RewriteStepIs(f, rs[j]);
    }
    AbortsAt(rs, RewriteStep(f), RewriteEffect(f), k);
  }
}
