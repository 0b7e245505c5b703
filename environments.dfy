/**
 * The environment object: the base environment's trajectory bookkeeping and
 * the MuJoCo adapter's backend operations, on one object whose fields the
 * operations update in place.
 */
module Environments {
  import opened Wrappers
  import opened Mujoco
  import opened ControlLoop

  class MujocoEnv<V> {
    /** Whether the plot is refreshed after `initialize` and each `applyControl`. */
    const visualize: bool
    /** The loaded backend model and its data buffers. */
    const model: MjModel<V>
    /** The viewer, present exactly when visualising. */
    const viewer: Viewer?
    /** The trajectory log; empty until the first `initialize`. */
    var trajectory: seq<Entry<V>>
    /** The buffers as the last `initialize` left them. */
    ghost var origin: Data<V>

    /** Everything the operations change, as one value. */
    function Snapshot(): Sim<V>
      reads this, model.data, viewer
    {
      Sim(model.data.Value(), trajectory, if viewer == null then 0 else viewer.frames)
    }

    /** The viewer exists exactly when visualising; every operation keeps this. */
    ghost predicate Wired()
      reads this
    {
      viewer != null <==> visualize
    }

    /**
     * Once initialised, the log is an honest record of the run since the last
     * `initialize`. A direct `SetStateTo` or `DynamicStep` between steps moves
     * the buffers without logging, after which this no longer holds until the
     * next `initialize`.
     */
    ghost predicate Valid()
      reads this, model.data, viewer
    {
      Wired() &&
      (|trajectory| > 0 ==> Recorded(model.dyn, origin, Snapshot()))
    }

    /**
     * Loads the model (given here as its dynamics and initial buffers) and,
     * when visualising, creates the viewer. No log exists yet.
     */
    constructor (dyn: Dynamics<V>, d0: Data<V>, visualize: bool := false)
      ensures Valid()
      ensures this.visualize == visualize && model.dyn == dyn
      ensures fresh(model) && fresh(model.data) && (viewer != null ==> fresh(viewer))
      ensures Snapshot() == Sim(d0, [], 0)
    {
      this.visualize := visualize;
      model := new MjModel(dyn, d0);
      if visualize {
        viewer := new Viewer();
      } else {
        viewer := null;
      }
      trajectory := [];
      origin := d0;
    }

    /** Reseeds the log with (s0, no action), sets the backend state to s0 and refreshes the plot. */
    method Initialize(s0: State<V>)
      requires Wired()
      modifies this, model.data, viewer
      ensures Valid()
      ensures Snapshot() == ControlLoop.Initialize(old(Snapshot()), s0, visualize)
    {
      trajectory := [Entry(s0, None)];
      SetStateTo(s0);
      origin := model.data.Value();
      InitializeRecords(model.dyn, old(Snapshot()), s0, visualize);
      if visualize {
        UpdatePlot();
      }
    }

    /**
     * Observes the state, reads the time, asks the policy, steps the backend,
     * and only after a successful step appends (observed state, action) and
     * refreshes the plot. A failure leaves the environment as it was.
     */
    method ApplyControl(policy: Policy<V>) returns (outcome: Outcome<Error>)
      requires Wired()
      modifies this, model.data, viewer
      ensures Wired()
      ensures old(Valid()) ==> Valid()
      ensures var r := ControlLoop.ApplyControl(model.dyn, old(Snapshot()), policy, visualize);
        (outcome.Pass? <==> r.Success?) &&
        (r.Success? ==> Snapshot() == r.value) &&
        (r.Failure? ==> outcome.error == r.error && Snapshot() == old(Snapshot()))
    {
      var observed := GetCurrentObservedState();
      var time := GetCurrentTime();
      if time.Failure? {
        return Fail(time.error);
      }
      var action := policy(observed, time.value);
      var stepped := DynamicStep(action);
      if stepped.Failure? {
        return Fail(stepped.error);
      }
      trajectory := trajectory + [Entry(observed, action)];
      if old(Valid()) {
        ApplyControlKeepsRecord(model.dyn, origin, old(Snapshot()), policy, visualize);
      }
      if visualize {
        UpdatePlot();
      }
      outcome := Pass;
    }

    /** The current time: the length of the log; before `initialize` there is no log. */
    function GetCurrentTime(): (t: Result<nat, Error>)
      reads this
      ensures t.Success? <==> |trajectory| > 0
      ensures t.Success? ==> t.value == |trajectory|
      ensures t.Failure? ==> t.error == Uninitialized
    {
      Time(trajectory)
    }

    /** Overwrites the backend's state triple, bypassing the dynamics. */
    method SetStateTo(s: State<V>)
      modifies model.data
      ensures GetCurrentState() == s
      ensures model.data.Value() == WithState(old(model.data.Value()), s)
    {
      model.data.qpos := s.qpos;
      model.data.qvel := s.qvel;
      model.data.qacc := s.qacc;
    }

    /** The true state, read back from the backend. */
    function GetCurrentState(): (s: State<V>)
      reads model.data
      ensures s == StateOf(model.data.Value())
    {
      State(model.data.qpos, model.data.qvel, model.data.qacc)
    }

    /** The state the agent observes; with MuJoCo it is the true state. */
    function GetCurrentObservedState(): (s: State<V>)
      reads model.data
      ensures s == GetCurrentState()
    {
      GetCurrentState()
    }

    /**
     * Writes the control input only when there is an action, then performs
     * exactly one step and one recomputation, and returns the new state. A
     * control vector the backend refuses changes nothing.
     */
    method DynamicStep(a: Option<V>) returns (r: Result<State<V>, Error>)
      modifies model.data
      ensures var spec := ControlLoop.DynamicStep(model.dyn, old(model.data.Value()), a);
        (r.Success? <==> spec.Success?) &&
        (spec.Success? ==> model.data.Value() == spec.value && r.value == GetCurrentState()) &&
        (spec.Failure? ==> r.error == spec.error && model.data.Value() == old(model.data.Value()))
    {
      if a.Some? {
        var ok := model.WriteCtrl(a.value);
        if !ok {
          return Failure(InvalidActionShape);
        }
      }
      model.Step();
      model.Forward();
      r := Success(GetCurrentState());
    }

    /** Renders one frame when a viewer is attached; otherwise does nothing. */
    method UpdatePlot()
      modifies viewer
      ensures viewer != null ==> viewer.frames == old(viewer.frames) + 1
    {
      if viewer != null {
        viewer.LoopOnce();
      }
    }
  }

  /**
   * A caller's view: after `initialize(s0)` and three steps with an action the
   * backend accepts, the time is 4, entry 0 is (s0, no action) and every
   * later entry records that action.
   */
  method ThreeSteps<V>(dyn: Dynamics<V>, d0: Data<V>, s0: State<V>, zero: V) returns (env: MujocoEnv<V>)
    requires dyn.fits(zero)
    ensures env.GetCurrentTime() == Success(4)
    ensures env.trajectory[0] == Entry(s0, None)
    ensures forall k :: 1 <= k < 4 ==> env.trajectory[k].action == Some(zero)
  {
    env := new MujocoEnv(dyn, d0, false);
    env.Initialize(s0);
    var policy: Policy<V> := (s, t) => Some(zero);
    var o1 := env.ApplyControl(policy);
    var o2 := env.ApplyControl(policy);
    var o3 := env.ApplyControl(policy);
  }

  /**
   * A caller that writes the backend directly between control steps: both
   * `applyControl` and a later `initialize` are still accepted, and the
   * re-initialised log is exactly (s2, no action), an honest record again.
   */
  method ReinitializeAfterDirectWrites<V>(dyn: Dynamics<V>, d0: Data<V>, s0: State<V>, s1: State<V>, s2: State<V>, policy: Policy<V>)
    returns (env: MujocoEnv<V>)
    ensures env.Valid()
    ensures env.trajectory == [Entry(s2, None)]
    ensures env.GetCurrentState() == s2 && env.GetCurrentTime() == Success(1)
  {
    env := new MujocoEnv(dyn, d0, true);
    env.Initialize(s0);
    env.SetStateTo(s1);
    var stepped := env.DynamicStep(None);
    var outcome := env.ApplyControl(policy);
    env.Initialize(s2);
  }
}
