/** Semantic actions, their parameters and the risk policy (commands/models.py, commands/policy.py). */
module Policy {

  datatype Action =
    | SET_POWER | SET_BRIGHTNESS | SET_VOLUME | SET_PLAYBACK | SET_TARGET_TEMPERATURE
    | SET_HEATER | SET_FILTER | SET_BUBBLES | SET_CONTROL_PANEL_LOCK | SET_LOCK_STATE | UNLATCH

  datatype RiskClass = LOW | MEDIUM | HIGH

  datatype Capability =
    | POWER | BRIGHTNESS | VOLUME | MEDIA_PLAYBACK | TARGET_TEMPERATURE | HEATING | FILTER
    | BUBBLES | CONTROL_PANEL_LOCK | LOCK | UNLOCK | UNLATCHING

  datatype LockState = LOCKED | UNLOCKED | UNKNOWN_LOCK

  datatype PlaybackCommand = PLAY | PAUSE

  datatype Params =
    | OnOff(on: bool)
    | Brightness(brightness: int)
    | Volume(volume: int)
    | Playback(playback: PlaybackCommand)
    | TargetTemperature(celsius: real)
    | LockTo(desired: LockState)
    | NoParams

  /** The parameter schema of each action, with its absolute bounds. */
  predicate Validates(action: Action, params: Params) {
    match action
    case SET_BRIGHTNESS => params.Brightness? && 0 <= params.brightness <= 100
    case SET_VOLUME => params.Volume? && 0 <= params.volume <= 100
    case SET_PLAYBACK => params.Playback?
    case SET_TARGET_TEMPERATURE => params.TargetTemperature? && 0.0 <= params.celsius <= 60.0
    case SET_LOCK_STATE => params.LockTo? && params.desired != UNKNOWN_LOCK
    case UNLATCH => params.NoParams?
    case _ => params.OnOff?
  }

  function BaseCapability(action: Action): Capability {
    match action
    case SET_POWER => POWER
    case SET_BRIGHTNESS => BRIGHTNESS
    case SET_VOLUME => VOLUME
    case SET_PLAYBACK => MEDIA_PLAYBACK
    case SET_TARGET_TEMPERATURE => TARGET_TEMPERATURE
    case SET_HEATER => HEATING
    case SET_FILTER => FILTER
    case SET_BUBBLES => BUBBLES
    case SET_CONTROL_PANEL_LOCK => CONTROL_PANEL_LOCK
    case SET_LOCK_STATE => LOCK
    case UNLATCH => UNLATCHING
  }

  /** Unlocking needs UNLOCK, not just LOCK. */
  function RequiredCapability(action: Action, params: Params): Capability
    requires Validates(action, params)
  {
    if action == SET_LOCK_STATE && params.desired == UNLOCKED then UNLOCK else BaseCapability(action)
  }

  /** Locking is reversible from outside; unlocking and unlatching grant access. */
  function Classify(action: Action, params: Params): RiskClass
    requires Validates(action, params)
  {
    match action
    case SET_LOCK_STATE => if params.desired == UNLOCKED then HIGH else MEDIUM
    case UNLATCH => HIGH
    case SET_POWER => LOW
    case SET_BRIGHTNESS => LOW
    case SET_VOLUME => LOW
    case SET_PLAYBACK => LOW
    case _ => MEDIUM
  }
}
