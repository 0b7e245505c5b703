/**
 * The physics backend as the environment sees it: the state triple it reads
 * and writes, the control input, and one integration step. The numerical
 * integration itself is uninterpreted: a loaded model supplies it as the
 * functions held in `Dynamics`.
 */
module Mujoco {
  import opened Wrappers

  /** The environment's state: positions, velocities and accelerations. */
  datatype State<V> = State(qpos: V, qvel: V, qacc: V)

  /** The backend buffers the environment touches (`model.data`). */
  datatype Data<V> = Data(qpos: V, qvel: V, qacc: V, ctrl: V)

  /**
   * What a loaded model contributes: `step` integrates one time unit under a
   * control input, `forward` recomputes derived quantities, and `fits` is the
   * backend's check that a control vector has the model's actuator shape.
   */
  datatype Dynamics<!V> = Dynamics(
    step: (State<V>, V) -> State<V>,
    forward: (State<V>, V) -> State<V>,
    fits: V -> bool)

  /** The state triple held by the buffers. */
  function StateOf<V>(d: Data<V>): State<V>
  {
    State(d.qpos, d.qvel, d.qacc)
  }

  /** The buffers after the state triple is overwritten, bypassing dynamics. */
  function WithState<V>(d: Data<V>, s: State<V>): (r: Data<V>)
    ensures StateOf(r) == s
    ensures r.ctrl == d.ctrl
  {
    Data(s.qpos, s.qvel, s.qacc, d.ctrl)
  }

  /**
   * The buffers after one dynamic step under an action that the backend
   * accepts: the control input is overwritten only by a real action, and then
   * exactly one `step` followed by one `forward` runs under it.
   */
  function Advance<V>(dyn: Dynamics<V>, d: Data<V>, a: Option<V>): (r: Data<V>)
    ensures r.ctrl == (if a.Some? then a.value else d.ctrl)
    ensures StateOf(r) == dyn.forward(dyn.step(StateOf(d), r.ctrl), r.ctrl)
  {
    var c := if a.Some? then a.value else d.ctrl;
    var s := dyn.forward(dyn.step(StateOf(d), c), c);
    Data(s.qpos, s.qvel, s.qacc, c)
  }

  /** The backend's data buffers, updated in place. */
  class MjData<V> {
    var qpos: V
    var qvel: V
    var qacc: V
    var ctrl: V

    constructor (d: Data<V>)
      ensures Value() == d
    {
      qpos, qvel, qacc, ctrl := d.qpos, d.qvel, d.qacc, d.ctrl;
    }

    /** The current contents of the buffers. */
    function Value(): Data<V>
      reads this
    {
      Data(qpos, qvel, qacc, ctrl)
    }
  }

  /** A loaded model: its dynamics and the data buffers it steps. */
  class MjModel<V> {
    const dyn: Dynamics<V>
    const data: MjData<V>

    /** The model as loaded: its dynamics and its initial buffers. */
    constructor (dyn: Dynamics<V>, d0: Data<V>)
      ensures this.dyn == dyn && fresh(data) && data.Value() == d0
    {
      this.dyn := dyn;
      data := new MjData(d0);
    }

    /** Writes the control input; the backend refuses a vector of the wrong shape. */
    method WriteCtrl(c: V) returns (ok: bool)
      modifies data
      ensures ok == dyn.fits(c)
      ensures data.Value() == if ok then old(data.Value()).(ctrl := c) else old(data.Value())
    {
      ok := dyn.fits(c);
      if ok {
        data.ctrl := c;
      }
    }

    /** Integrates one time unit under the current control input. */
    method Step()
      modifies data
      ensures data.ctrl == old(data.ctrl)
      ensures StateOf(data.Value()) == dyn.step(StateOf(old(data.Value())), data.ctrl)
    {
      var s := dyn.step(StateOf(data.Value()), data.ctrl);
      data.qpos, data.qvel, data.qacc := s.qpos, s.qvel, s.qacc;
    }

    /** Recomputes derived quantities for the current state and control input. */
    method Forward()
      modifies data
      ensures data.ctrl == old(data.ctrl)
      ensures StateOf(data.Value()) == dyn.forward(StateOf(old(data.Value())), data.ctrl)
    {
      var s := dyn.forward(StateOf(data.Value()), data.ctrl);
      data.qpos, data.qvel, data.qacc := s.qpos, s.qvel, s.qacc;
    }
  }

  /** The visualisation sink; only the number of frames it has rendered is modelled. */
  class Viewer {
    var frames: nat

    constructor ()
      ensures frames == 0
    {
      frames := 0;
    }

    /** Renders one frame of the current backend state. */
    method LoopOnce()
      modifies this
      ensures frames == old(frames) + 1
    {
      frames := frames + 1;
    }
  }
}
