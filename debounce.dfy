/** The debounce rule both runners apply: presence in the line demo (`_update_presence`) and each
    zone's activation in the zone demo (`_process_frame`). An input that is "on" (motion detected, score at
    or above the threshold) records the time and activates; an "off" input deactivates only once more than
    the hold time (no-motion timeout, cooldown) has passed since the last "on" input. */
module Debounce {
  import opened Base

  /** `active` is presence or zone activity; `lastOnTs` is `last_motion_ts` or `last_active_ts`. */
  datatype Machine = Machine(active: bool, lastOnTs: real)

  /** What one step did: nothing, an activation, or a deactivation. */
  datatype Transition = Unchanged | Started | Ended

  datatype StepResult = StepResult(machine: Machine, transition: Transition)

  /** One frame's update. */
  function Step(m: Machine, on: bool, now: real, hold: real): (r: StepResult)
    ensures r.transition == Started <==> on && !m.active
    ensures r.transition == Ended <==> !on && m.active && now - m.lastOnTs > hold
    ensures r.transition == Started <==> !m.active && r.machine.active
    ensures r.transition == Ended <==> m.active && !r.machine.active
    ensures on ==> r.machine == Machine(true, now)
    ensures !on ==> r.machine.lastOnTs == m.lastOnTs
    ensures !on && r.transition != Ended ==> r.machine == m
  {
    if on then StepResult(Machine(true, now), if m.active then Unchanged else Started)
    else if m.active && now - m.lastOnTs > hold then StepResult(Machine(false, m.lastOnTs), Ended)
    else StepResult(m, Unchanged)
  }

  /** One frame's input: whether it is on, and the clock reading of that frame. */
  datatype Input = Input(on: bool, now: real)

  /** The machine after a sequence of inputs. */
  function Final(m: Machine, inputs: seq<Input>, hold: real): Machine
    decreases |inputs|
  {
    if |inputs| == 0 then m
    else
      var last := inputs[|inputs| - 1];
      Step(Final(m, inputs[..|inputs| - 1], hold), last.on, last.now, hold).machine
  }

  /** The transition of every step of a sequence of inputs. */
  function Trace(m: Machine, inputs: seq<Input>, hold: real): (ts: seq<Transition>)
    ensures |ts| == |inputs|
    decreases |inputs|
  {
    if |inputs| == 0 then []
    else
      var init, last := inputs[..|inputs| - 1], inputs[|inputs| - 1];
      Trace(m, init, hold) + [Step(Final(m, init, hold), last.on, last.now, hold).transition]
  }

  /** Step `k` of a trace is the single step from the machine reached after the first `k` inputs. */
  lemma {:induction false} TraceAt(m: Machine, inputs: seq<Input>, hold: real, k: nat)
    requires k < |inputs|
    ensures Trace(m, inputs, hold)[k] == Step(Final(m, inputs[..k], hold), inputs[k].on, inputs[k].now, hold).transition
    ensures Final(m, inputs[..k + 1], hold) == Step(Final(m, inputs[..k], hold), inputs[k].on, inputs[k].now, hold).machine
    decreases |inputs|
  {
    var init := inputs[..|inputs| - 1];
    if k < |inputs| - 1 {
      TraceAt(m, init, hold, k);
      assert init[..k] == inputs[..k] && init[..k + 1] == inputs[..k + 1] && init[k] == inputs[k];
    } else {
      assert inputs[..k] == init;
      assert inputs[..k + 1] == inputs;
    }
  }

  /** The timestamp of the last "on" input, or `default` when there is none. */
  function LatestOn(default: real, inputs: seq<Input>): real
    decreases |inputs|
  {
    if |inputs| == 0 then default
    else if inputs[|inputs| - 1].on then inputs[|inputs| - 1].now
    else LatestOn(default, inputs[..|inputs| - 1])
  }

  /** The recorded time is always the time of the latest "on" input. */
  lemma {:induction false} FinalRecordsLatestOn(m: Machine, inputs: seq<Input>, hold: real)
    ensures Final(m, inputs, hold).lastOnTs == LatestOn(m.lastOnTs, inputs)
    decreases |inputs|
  {
    if |inputs| > 0 {
      FinalRecordsLatestOn(m, inputs[..|inputs| - 1], hold);
    }
  }

  /** A step ends the active period exactly when the machine is active, the input is off and more than
      the hold time has passed since the latest "on" input (strict comparison). */
  lemma EndedOnlyAfterHold(m: Machine, inputs: seq<Input>, hold: real, k: nat)
    requires k < |inputs|
    ensures Trace(m, inputs, hold)[k] == Ended <==>
      && Final(m, inputs[..k], hold).active
      && !inputs[k].on
      && inputs[k].now - LatestOn(m.lastOnTs, inputs[..k]) > hold
  {
    TraceAt(m, inputs, hold, k);
    FinalRecordsLatestOn(m, inputs[..k], hold);
  }

  /** The number of steps with a given transition. */
  function CountOf(ts: seq<Transition>, t: Transition): nat
    decreases |ts|
  {
    if |ts| == 0 then 0 else CountOf(ts[..|ts| - 1], t) + (if ts[|ts| - 1] == t then 1 else 0)
  }

  /** Activations and deactivations balance: their difference is the change of the active flag. */
  lemma {:induction false} StartsMinusEnds(m: Machine, inputs: seq<Input>, hold: real)
    ensures CountOf(Trace(m, inputs, hold), Started) - CountOf(Trace(m, inputs, hold), Ended)
            == Bit(Final(m, inputs, hold).active) - Bit(m.active)
    decreases |inputs|
  {
    if |inputs| > 0 {
      var init := inputs[..|inputs| - 1];
      StartsMinusEnds(m, init, hold);
      var ts := Trace(m, inputs, hold);
      assert ts[..|ts| - 1] == Trace(m, init, hold);
    }
  }

  /** The transitions of a trace that change something. */
  function Changes(ts: seq<Transition>): (cs: seq<Transition>)
    ensures forall k :: 0 <= k < |cs| ==> cs[k] != Unchanged
    decreases |ts|
  {
    if |ts| == 0 then []
    else Changes(ts[..|ts| - 1]) + (if ts[|ts| - 1] == Unchanged then [] else [ts[|ts| - 1]])
  }

  /** The `k`-th change expected from a machine that starts active or not: they alternate. */
  function ExpectedChange(startActive: bool, k: nat): Transition
  {
    if startActive == (k % 2 == 0) then Ended else Started
  }

  /** Activations and deactivations strictly alternate, beginning with the one the initial state allows,
      and the parity of their number gives the final state. */
  lemma {:induction false} ChangesAlternate(m: Machine, inputs: seq<Input>, hold: real)
    ensures var cs := Changes(Trace(m, inputs, hold));
      && (forall k :: 0 <= k < |cs| ==> cs[k] == ExpectedChange(m.active, k))
      && Final(m, inputs, hold).active == (m.active != (|cs| % 2 == 1))
    decreases |inputs|
  {
    if |inputs| > 0 {
      var init := inputs[..|inputs| - 1];
      ChangesAlternate(m, init, hold);
      var ts := Trace(m, inputs, hold);
      assert ts[..|ts| - 1] == Trace(m, init, hold);
    }
  }

  /** Once active, "on" inputs change nothing. */
  lemma {:induction false} ActiveStaysQuiet(m: Machine, inputs: seq<Input>, hold: real)
    requires m.active
    requires forall k :: 0 <= k < |inputs| ==> inputs[k].on
    ensures Final(m, inputs, hold).active
    ensures forall k :: 0 <= k < |inputs| ==> Trace(m, inputs, hold)[k] == Unchanged
    decreases |inputs|
  {
    if |inputs| > 0 {
      ActiveStaysQuiet(m, inputs[..|inputs| - 1], hold);
    }
  }

  /** A run of "on" inputs starting inactive activates once, on its first input, and never deactivates,
      however many inputs it spans. */
  lemma OnEpisodeStartsOnce(m: Machine, inputs: seq<Input>, hold: real)
    requires !m.active && |inputs| > 0
    requires forall k :: 0 <= k < |inputs| ==> inputs[k].on
    ensures Trace(m, inputs, hold)[0] == Started
    ensures forall k :: 1 <= k < |inputs| ==> Trace(m, inputs, hold)[k] == Unchanged
    ensures CountOf(Trace(m, inputs, hold), Started) == 1 && CountOf(Trace(m, inputs, hold), Ended) == 0
  {
    TraceAt(m, inputs, hold, 0);
    assert inputs[..0] == [];
    var first := Step(m, true, inputs[0].now, hold).machine;
    var rest := inputs[1..];
    ActiveStaysQuiet(first, rest, hold);
    forall k | 1 <= k < |inputs|
      ensures Trace(m, inputs, hold)[k] == Unchanged
    {
      TraceAt(m, inputs, hold, k);
      TraceAt(first, rest, hold, k - 1);
      FinalShift(m, inputs, hold, k);
    }
    StartsMinusEnds(m, inputs, hold);
    ChangesAlternate(m, inputs, hold);
    CountUnchangedTail(Trace(m, inputs, hold));
  }

  /** Running `k` inputs equals one step followed by the remaining `k - 1`. */
  lemma {:induction false} FinalShift(m: Machine, inputs: seq<Input>, hold: real, k: nat)
    requires 1 <= k <= |inputs|
    ensures Final(m, inputs[..k], hold) == Final(Step(m, inputs[0].on, inputs[0].now, hold).machine, inputs[1..][..k - 1], hold)
    decreases k
  {
    if k == 1 {
      assert inputs[..1][..0] == [];
      assert inputs[1..][..0] == [];
    } else {
      FinalShift(m, inputs, hold, k - 1);
      assert inputs[..k][..k - 1] == inputs[..k - 1];
      assert inputs[1..][..k - 1][..k - 2] == inputs[1..][..k - 2];
      assert inputs[..k][k - 1] == inputs[1..][..k - 1][k - 2];
    }
  }

  /** A trace that starts with an activation and is quiet afterwards counts one activation and no deactivation. */
  lemma {:induction false} CountUnchangedTail(ts: seq<Transition>)
    requires |ts| > 0 && ts[0] == Started
    requires forall k :: 1 <= k < |ts| ==> ts[k] == Unchanged
    ensures CountOf(ts, Started) == 1 && CountOf(ts, Ended) == 0
    decreases |ts|
  {
    if |ts| > 1 {
      CountUnchangedTail(ts[..|ts| - 1]);
    } else {
      assert ts[..0] == [];
    }
  }
}
