# Control-loop environment, modelled in Dafny

This project models the environment abstraction of `environments/base.py`.
The base environment drives a dynamical system step by step and records a
trajectory log of `(observed state, action)` pairs. The MuJoCo environment
binds that contract to a physics backend and an optional viewer.

- `wrappers.dfy` (module `Wrappers`): `Option`, `Result` and `Outcome`.
  `None` as an action is the source's "no control".
- `mujoco.dfy` (module `Mujoco`): the backend as the environment sees it.
  It has the state triple `(qpos, qvel, qacc)`, the buffers `model.data`
  (the triple plus `ctrl`), and a loaded model's `Dynamics`. The dynamics are
  the uninterpreted `step` and `forward` functions plus the backend's check
  `fits` on the shape of a control vector. There are also classes for the
  buffers (`MjData`), the model (`MjModel`) and the viewer (`Viewer`, which
  counts rendered frames).
- `control_loop.dfy` (module `ControlLoop`): the base environment's
  bookkeeping on values. `Initialize` and `ApplyControl` act on a snapshot
  `Sim` (buffers, log, frames), `DynamicStep` on the buffers and `Time` on
  the log. `Run` is `n`
  consecutive calls. The lemmas state what holds after any number of steps.
- `environments.dfy` (module `Environments`): class `MujocoEnv`. Its fields
  are `visualize`, `model`, `viewer` and the `trajectory` log. The
  postconditions of `Initialize` and `ApplyControl` tie the new `Snapshot()`
  to `ControlLoop.Initialize` and `ControlLoop.ApplyControl` of the old one.
  `SetStateTo` ties the buffers to `Mujoco.WithState`, `DynamicStep` ties them
  to `ControlLoop.DynamicStep`, and `UpdatePlot` states the frame count.
  `Wired()` (the viewer exists exactly when visualising) holds throughout.
  `Valid()` adds that the log is an honest record of the run since the last
  `initialize`. `Initialize` needs only `Wired()` and establishes `Valid()`;
  `ApplyControl` needs only `Wired()` and keeps `Valid()` when it held. A
  direct `SetStateTo` or `DynamicStep` may break `Valid()` until the next
  `initialize`, since those writes are not logged.

The policy is a total function `(State, nat) -> Option<V>`. State and
action vectors have an opaque element type `V`. Before the first
`initialize` the object has no trajectory attribute, so `getCurrentTime`
raises. The model shows this as an empty log and a `Failure(Uninitialized)`
time, and `applyControl` then fails without changing anything.

## Model

| member | source | states |
|---|---|---|
| `Environments.MujocoEnv.constructor` | environments/base.py:91-101 | the model is loaded, no log exists yet, and a viewer exists exactly when `visualize` is set, which defaults to false |
| `Environments.MujocoEnv.Initialize` | environments/base.py:24-29 | accepted in any state of the environment (only `Wired()` is needed): the log becomes exactly `[(s0, None)]` whatever came before, the object invariant `Valid()` is re-established, the backend state becomes `s0` with `ctrl` untouched, and exactly one frame is rendered iff visualising |
| `Environments.MujocoEnv.ApplyControl` | environments/base.py:36-44 | accepted in any state of the environment (only `Wired()` is needed); on success exactly one entry `(pre-step observed state, policy(state, len(log)))` is appended, the backend takes one dynamic step, and one frame is rendered iff visualising; on failure (no log yet, refused control vector) nothing changes; an honest log stays honest |
| `Environments.MujocoEnv.GetCurrentTime` | environments/base.py:49-50 | the time is the log length; before `initialize` it fails as uninitialised |
| `Environments.MujocoEnv.SetStateTo` | environments/base.py:105-108 | afterwards `GetCurrentState()` is exactly the state written and `ctrl` is untouched |
| `Environments.MujocoEnv.GetCurrentState` | environments/base.py:111-114 | the state is the `(qpos, qvel, qacc)` triple held in the backend buffers |
| `Environments.MujocoEnv.GetCurrentObservedState` | environments/base.py:117-118 | the observed state equals the true state |
| `Environments.MujocoEnv.DynamicStep` | environments/base.py:121-128 | `ctrl` is written only for a real action; then exactly one step and one forward pass run, and the post-step state is returned; a refused control vector changes nothing |
| `Environments.MujocoEnv.UpdatePlot` | environments/base.py:131-133 | one frame is rendered when a viewer is attached; otherwise nothing happens |
| `Environments.ThreeSteps` | example.py:5-14 | after `initialize(s0)` and three steps with an accepted action, the time is 4, entry 0 is `(s0, None)` and entries 1 to 3 record that action |
| `Environments.ReinitializeAfterDirectWrites` | environments/base.py:24-44 | a caller that writes the backend directly between steps can still call `applyControl` and re-`initialize`; afterwards the log is exactly `[(s2, None)]`, the state is `s2`, the time is 1 and the object invariant holds |
| `Mujoco.WithState` | environments/base.py:105-108 | overwriting the state triple makes it read back as the given state and leaves `ctrl` alone |
| `Mujoco.Advance` | environments/base.py:121-128 | `ctrl` becomes the action when there is one and is otherwise kept; the state is one `step` followed by one `forward` under that `ctrl` |
| `Mujoco.MjModel.WriteCtrl` | environments/base.py:124 | the control input is written exactly when the backend accepts its shape; otherwise the buffers are unchanged |
| `Mujoco.MjModel.Step` | environments/base.py:126 | the state advances by one `step` under the current `ctrl`, which is kept |
| `Mujoco.MjModel.Forward` | environments/base.py:127 | the state is recomputed by `forward` under the current `ctrl`, which is kept |
| `Mujoco.Viewer.LoopOnce` | environments/base.py:133 | one more frame is rendered |
| `ControlLoop.Time` | environments/base.py:49-50 | the time exists exactly when the log is non-empty, and then it is the log length, at least 1 |
| `ControlLoop.Refresh` | environments/base.py:28-29 | the frame count grows by one exactly when visualising |
| `ControlLoop.Initialize` | environments/base.py:24-29 | the log is `[(s0, None)]`, the state is `s0`, `ctrl` is unchanged, and the plot is refreshed iff visualising |
| `ControlLoop.DynamicStep` | environments/base.py:121-128 | the step fails exactly when a real action has a shape the backend refuses; otherwise the buffers advance by one step |
| `ControlLoop.ApplyControl` | environments/base.py:36-44 | without a log it fails as uninitialised; otherwise it fails exactly when the policy's action is refused; on success the old log plus `(observed, action)` is the new log, the buffers advanced once and the plot refreshed iff visualising |
| `ControlLoop.InitializeRecords` | environments/base.py:24-26 | right after `initialize` the log is an honest record: entry 0 is `(s0, None)` and the buffers are where no actions lead |
| `ControlLoop.ApplyControlKeepsRecord` | environments/base.py:36-41 | appending after the step keeps the record honest: every entry's state is the replay of the actions recorded before it, and the buffers are the replay of all of them |
| `ControlLoop.ApplyControlKeepsChoice` | environments/base.py:37-41 | with one policy, every recorded action is what the policy chose for that entry's state at time equal to its index |
| `ControlLoop.InitializedFailsOnlyOnShape` | environments/base.py:38-41 | once initialised, the only way `applyControl` fails is a refused control vector |
| `ControlLoop.RunFromInitialize` | environments/base.py:24-50 | after `initialize(s0)` and n successful calls: time is n+1, entry 0 is `(s0, None)`, the log records the run honestly, the k-th call passed time k to the policy, and n+1 frames were rendered iff visualising |
| `ControlLoop.RunExtends` | environments/base.py:41 | the log is append-only: after m <= n calls it is a prefix of the log after n calls, and each call adds exactly one entry |
| `ControlLoop.RunSucceeds` | environments/base.py:36-41 | on an initialised environment, a policy whose actions the backend always accepts can run for any number of steps |
| `ControlLoop.FirstStepRecordsInitialStateAgain` | environments/base.py:25-41 | the first call observes `s0` again at time 1, so entries 0 and 1 both hold `s0` |

## Left out

- The base class's abstract hooks (environments/base.py:55-80) are meant to signal "not implemented", but `raise NotImplemented(...)` calls Python's comparison sentinel and so raises `TypeError`. Traits are not used, so the base bookkeeping and the MuJoCo overrides are one class, and those hooks have no counterpart.
- Model loading from an XML path (environments/base.py:92) belongs to `mujoco_py`. The constructor takes the loaded dynamics and initial buffers instead, so a load failure is not modelled.
- The numerical integration of `model.step()` and `model.forward()` is floating-point physics in a foreign library. It is the uninterpreted `step` and `forward` of `Dynamics`. The model assumes neither touches `ctrl`.
- The backend may refuse a control vector of the wrong shape; no line of the source shows such a check. The model states it as the uninterpreted predicate `fits`, which may be constantly true. Shapes written by `setStateTo` are not checked.
- Viewer construction (window size, `start`, `set_model`, environments/base.py:95-99) and rendering are UI side effects. Only the count of rendered frames is modelled.
- numpy's elementwise `a != None` (environments/base.py:123) is read as "the action is not `None`", with actions as `Option<V>`.
- Whether reads of `qpos`, `qvel` and `qacc` alias backend buffers cannot be seen in the source. States are values.
- A policy that raises is not modelled: policies are total functions.
- `updatePlot` without a viewer: the source never sets `viewer` when not visualising, but never calls `updatePlot` then either. The model's `UpdatePlot` is a no-op when there is no viewer.
- `example.py`'s random actions and its clustering library are not part of this model. `ThreeSteps` is a caller with a fixed action instead.
- The backend's `step` and `forward` are functions of the state triple and `ctrl` only. MuJoCo's other data buffers (simulation time, actuator activations, the solver's warm start) are not modelled, and the replay property of `ControlLoop.Recorded` rests on that choice.
- The identity of the trajectory list is not modelled. `applyControl` appends to the same list in place (environments/base.py:41), so a caller holding `env.trajectory` sees the new entry. `initialize` binds a new list (environments/base.py:25), so such a caller keeps the old entries. The `seq` field shows neither kind of aliasing.
