/**
 * The bookkeeping of the base environment, on values: what `initialize` and
 * `applyControl` do to the backend buffers, the trajectory log and the
 * viewer's frame count, and what holds after any number of steps.
 */
module ControlLoop {
  import opened Wrappers
  import opened Mujoco

  /** One log entry: the observed state and the action chosen from it. */
  datatype Entry<V> = Entry(state: State<V>, action: Option<V>)

  /**
   * Failures of the control loop: use before `initialize` (the log does not
   * exist yet), and a control vector the backend refuses.
   */
  datatype Error = Uninitialized | InvalidActionShape

  /**
   * Everything the environment's operations change: the backend buffers, the
   * trajectory log (empty until the first `initialize`) and the number of
   * frames the viewer has rendered.
   */
  datatype Sim<V> = Sim(data: Data<V>, trajectory: seq<Entry<V>>, frames: nat)

  /** A control policy: observed state and current time to an action. */
  type Policy<!V> = (State<V>, nat) -> Option<V>

  /** The viewer's frame count after a refresh that happens only when visualising. */
  function Refresh(frames: nat, visualize: bool): (r: nat)
    ensures visualize ==> r == frames + 1
    ensures !visualize ==> r == frames
  {
    if visualize then frames + 1 else frames
  }

  /** The current time: the length of the log, or an error before `initialize`. */
  function Time<V>(t: seq<Entry<V>>): (r: Result<nat, Error>)
    ensures r.Success? <==> |t| > 0
    ensures r.Success? ==> r.value == |t| && r.value >= 1
    ensures r.Failure? ==> r.error == Uninitialized
  {
    if |t| == 0 then Failure(Uninitialized) else Success(|t|)
  }

  /**
   * `initialize(s0)`: the log is reseeded with one entry carrying no action,
   * the state triple is set to `s0` (control input untouched), and the plot is
   * refreshed when visualising.
   */
  function Initialize<V>(sim: Sim<V>, s0: State<V>, visualize: bool): (r: Sim<V>)
    ensures r.trajectory == [Entry(s0, None)]
    ensures StateOf(r.data) == s0 && r.data.ctrl == sim.data.ctrl
    ensures r.frames == Refresh(sim.frames, visualize)
  {
    Sim(WithState(sim.data, s0), [Entry(s0, None)], Refresh(sim.frames, visualize))
  }

  /**
   * The backend's dynamic step: refused without any change when the action's
   * shape does not fit the model, otherwise one step as `Advance` describes.
   */
  function DynamicStep<V>(dyn: Dynamics<V>, d: Data<V>, a: Option<V>): (r: Result<Data<V>, Error>)
    ensures r.Failure? <==> a.Some? && !dyn.fits(a.value)
    ensures r.Failure? ==> r.error == InvalidActionShape
    ensures r.Success? ==> r.value == Advance(dyn, d, a)
  {
    if a.Some? && !dyn.fits(a.value) then Failure(InvalidActionShape) else Success(Advance(dyn, d, a))
  }

  /**
   * `applyControl(policy)`: observe the state, read the time, ask the policy,
   * step the backend, and only then append (observed state, action) and
   * refresh the plot. Any failure leaves everything as it was.
   */
  function ApplyControl<V>(dyn: Dynamics<V>, sim: Sim<V>, policy: Policy<V>, visualize: bool): (r: Result<Sim<V>, Error>)
    ensures |sim.trajectory| == 0 ==> r == Failure(Uninitialized)
    ensures |sim.trajectory| > 0 ==>
      var s := StateOf(sim.data);
      var a := policy(s, |sim.trajectory|);
      (r.Failure? <==> a.Some? && !dyn.fits(a.value)) &&
      (r.Success? ==>
        r.value.trajectory == sim.trajectory + [Entry(s, a)] &&
        r.value.data == Advance(dyn, sim.data, a) &&
        r.value.frames == Refresh(sim.frames, visualize))
  {
    var observed := StateOf(sim.data);
    match Time(sim.trajectory)
    case Failure(e) => Failure(e)
    case Success(time) =>
      var action := policy(observed, time);
      match DynamicStep(dyn, sim.data, action)
      case Failure(e) => Failure(e)
      case Success(d) =>
        Success(Sim(d, sim.trajectory + [Entry(observed, action)], Refresh(sim.frames, visualize)))
  }

  /** The result of `n` consecutive `applyControl` calls with one policy. */
  function Run<V>(dyn: Dynamics<V>, sim: Sim<V>, policy: Policy<V>, visualize: bool, n: nat): Result<Sim<V>, Error>
    decreases n
  {
    if n == 0 then Success(sim)
    else
      match Run(dyn, sim, policy, visualize, n - 1)
      case Failure(e) => Failure(e)
      case Success(s) => ApplyControl(dyn, s, policy, visualize)
  }

  /** The actions recorded in a log, in order. */
  function Actions<V>(t: seq<Entry<V>>): seq<Option<V>>
  {
    seq(|t|, i requires 0 <= i < |t| => t[i].action)
  }

  /** The buffers reached from `d` by one dynamic step per action, in order. */
  function Replay<V>(dyn: Dynamics<V>, d: Data<V>, actions: seq<Option<V>>): Data<V>
    decreases |actions|
  {
    if |actions| == 0 then d
    else Advance(dyn, Replay(dyn, d, actions[..|actions| - 1]), actions[|actions| - 1])
  }

  /**
   * The log is an honest record of the run since the last `initialize`, which
   * left the buffers at `origin`: entry 0 is (initial state, no action), every
   * later entry holds the state reached by replaying the actions recorded
   * before it, and the buffers are where all recorded actions lead.
   */
  ghost predicate Recorded<V>(dyn: Dynamics<V>, origin: Data<V>, sim: Sim<V>)
  {
    var t := sim.trajectory;
    |t| > 0 &&
    t[0] == Entry(StateOf(origin), None) &&
    (forall k :: 1 <= k < |t| ==> t[k].state == StateOf(Replay(dyn, origin, Actions(t)[1..k]))) &&
    sim.data == Replay(dyn, origin, Actions(t)[1..])
  }

  /** Every action after entry 0 is what the policy chose for that entry's state at time = its index. */
  ghost predicate ChosenBy<V>(policy: Policy<V>, t: seq<Entry<V>>)
  {
    forall k :: 1 <= k < |t| ==> t[k].action == policy(t[k].state, k)
  }

  /** `initialize` starts an honest record, whatever the earlier history. */
  lemma InitializeRecords<V>(dyn: Dynamics<V>, sim: Sim<V>, s0: State<V>, visualize: bool)
    ensures Recorded(dyn, Initialize(sim, s0, visualize).data, Initialize(sim, s0, visualize))
  {
    var r := Initialize(sim, s0, visualize);
    assert Actions(r.trajectory)[1..] == [];
  }

  /** A successful `applyControl` keeps the record honest. */
  lemma ApplyControlKeepsRecord<V>(dyn: Dynamics<V>, origin: Data<V>, sim: Sim<V>, policy: Policy<V>, visualize: bool)
    requires Recorded(dyn, origin, sim)
    requires ApplyControl(dyn, sim, policy, visualize).Success?
    ensures Recorded(dyn, origin, ApplyControl(dyn, sim, policy, visualize).value)
  {
    var t := sim.trajectory;
    var r := ApplyControl(dyn, sim, policy, visualize).value;
    var t' := r.trajectory;
    var a := t'[|t|].action;
    assert Actions(t')[1..] == Actions(t)[1..] + [a];
    assert Replay(dyn, origin, Actions(t')[1..]) == Advance(dyn, Replay(dyn, origin, Actions(t)[1..]), a) by {
      assert (Actions(t)[1..] + [a])[..|t| - 1] == Actions(t)[1..];
    }
    forall k | 1 <= k < |t'|
      ensures t'[k].state == StateOf(Replay(dyn, origin, Actions(t')[1..k]))
    {
      assert Actions(t')[1..k] == Actions(t)[1..k] || k == |t|;
      if k == |t| {
        assert Actions(t')[1..k] == Actions(t)[1..];
      } else {
        assert Actions(t')[1..k] == Actions(t)[1..k];
      }
    }
  }

  /** A successful `applyControl` with `policy` keeps every action chosen by `policy`. */
  lemma ApplyControlKeepsChoice<V>(dyn: Dynamics<V>, sim: Sim<V>, policy: Policy<V>, visualize: bool)
    requires ChosenBy(policy, sim.trajectory)
    requires ApplyControl(dyn, sim, policy, visualize).Success?
    ensures ChosenBy(policy, ApplyControl(dyn, sim, policy, visualize).value.trajectory)
  {
  }

  /** A failed `applyControl` on an initialised environment is a refused control vector. */
  lemma InitializedFailsOnlyOnShape<V>(dyn: Dynamics<V>, sim: Sim<V>, policy: Policy<V>, visualize: bool)
    requires |sim.trajectory| > 0
    requires ApplyControl(dyn, sim, policy, visualize).Failure?
    ensures ApplyControl(dyn, sim, policy, visualize).error == InvalidActionShape
  {
  }

  /**
   * `initialize(s0)` followed by `n` successful `applyControl` calls: the time
   * is n + 1, entry 0 is (s0, no action), the log is an honest record of the
   * run, every action is what the policy chose at time = its index, and the
   * viewer rendered n + 1 frames when visualising and none otherwise.
   */
  lemma {:induction false} RunFromInitialize<V>(dyn: Dynamics<V>, sim: Sim<V>, s0: State<V>, policy: Policy<V>, visualize: bool, n: nat)
    requires Run(dyn, Initialize(sim, s0, visualize), policy, visualize, n).Success?
    ensures var r := Run(dyn, Initialize(sim, s0, visualize), policy, visualize, n).value;
      Time(r.trajectory) == Success(n + 1) &&
      r.trajectory[0] == Entry(s0, None) &&
      Recorded(dyn, WithState(sim.data, s0), r) &&
      ChosenBy(policy, r.trajectory) &&
      r.frames == sim.frames + (if visualize then n + 1 else 0)
    decreases n
  {
    var init := Initialize(sim, s0, visualize);
    if n == 0 {
      InitializeRecords(dyn, sim, s0, visualize);
    } else {
      var prev := Run(dyn, init, policy, visualize, n - 1);
      assert prev.Success?;
      RunFromInitialize(dyn, sim, s0, policy, visualize, n - 1);
      ApplyControlKeepsRecord(dyn, WithState(sim.data, s0), prev.value, policy, visualize);
      ApplyControlKeepsChoice(dyn, prev.value, policy, visualize);
    }
  }

  /**
   * The log is append-only: after m <= n successful calls the log is a prefix
   * of the log after n, and each call added exactly one entry.
   */
  lemma {:induction false} RunExtends<V>(dyn: Dynamics<V>, sim: Sim<V>, policy: Policy<V>, visualize: bool, m: nat, n: nat)
    requires m <= n
    requires Run(dyn, sim, policy, visualize, n).Success?
    ensures Run(dyn, sim, policy, visualize, m).Success?
    ensures Run(dyn, sim, policy, visualize, m).value.trajectory <= Run(dyn, sim, policy, visualize, n).value.trajectory
    ensures |Run(dyn, sim, policy, visualize, n).value.trajectory| == |sim.trajectory| + n
    decreases n
  {
    if n > 0 {
      RunExtends(dyn, sim, policy, visualize, if m == n then n - 1 else m, n - 1);
    }
  }

  /**
   * On an initialised environment, a policy whose every action the backend
   * accepts can be run for any number of steps without failing.
   */
  lemma {:induction false} RunSucceeds<V>(dyn: Dynamics<V>, sim: Sim<V>, policy: Policy<V>, visualize: bool, n: nat)
    requires |sim.trajectory| > 0
    requires forall s, k :: policy(s, k).Some? ==> dyn.fits(policy(s, k).value)
    ensures Run(dyn, sim, policy, visualize, n).Success?
    ensures |Run(dyn, sim, policy, visualize, n).value.trajectory| == |sim.trajectory| + n
    decreases n
  {
    if n > 0 {
      RunSucceeds(dyn, sim, policy, visualize, n - 1);
    }
  }

  /**
   * The first `applyControl` observes the state `initialize` set, so entries
   * 0 and 1 of the log hold the same state, s0.
   */
  lemma FirstStepRecordsInitialStateAgain<V>(dyn: Dynamics<V>, sim: Sim<V>, s0: State<V>, policy: Policy<V>, visualize: bool)
    requires ApplyControl(dyn, Initialize(sim, s0, visualize), policy, visualize).Success?
    ensures var t := ApplyControl(dyn, Initialize(sim, s0, visualize), policy, visualize).value.trajectory;
      |t| == 2 && t[0].state == s0 && t[1] == Entry(s0, policy(s0, 1))
  {
  }
}
