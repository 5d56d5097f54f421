/** Does observed state satisfy a request? (commands/reconcile.py) */
module Reconcile {
  import opened Basics
  import opened Policy
  import opened DeviceModel

  const TEMPERATURE_EPSILON_C := 0.05

  function Compare(state: DeviceState, f: Field, expected: Value): Option<bool> {
    if f !in state then None else Some(state[f] == expected)
  }

  /** `None`: the outcome cannot be told from state. */
  function DesiredMatches(action: Action, params: Params, state: DeviceState): Option<bool> {
    if action == SET_POWER && params.OnOff? then Compare(state, F_POWER, Flag(params.on))
    else if action == SET_BRIGHTNESS && params.Brightness? then
      Compare(state, F_BRIGHTNESS, Number(params.brightness))
    else if action == SET_VOLUME && params.Volume? then Compare(state, F_VOLUME, Number(params.volume))
    else if action == SET_PLAYBACK && params.Playback? then
      Compare(state, F_PLAYBACK, PlaybackValue(if params.playback == PLAY then PLAYING else PAUSED))
    else if action == SET_TARGET_TEMPERATURE && params.TargetTemperature? then
      if F_TARGET_TEMPERATURE !in state then None
      else Some(Abs(state[F_TARGET_TEMPERATURE].celsius - params.celsius) <= TEMPERATURE_EPSILON_C)
    else if action == SET_HEATER && params.OnOff? then Compare(state, F_HEATER, Flag(params.on))
    else if action == SET_FILTER && params.OnOff? then Compare(state, F_FILTER_PUMP, Flag(params.on))
    else if action == SET_BUBBLES && params.OnOff? then Compare(state, F_BUBBLES, Flag(params.on))
    else if action == SET_CONTROL_PANEL_LOCK && params.OnOff? then
      Compare(state, F_CONTROL_PANEL_LOCK, Flag(params.on))
    else if action == SET_LOCK_STATE && params.LockTo? then
      Compare(state, F_LOCK_STATE, LockValue(params.desired))
    else None
  }

  /** What a validated request is about: the field it sets and the value it sets it to. */
  function Goal(action: Action, params: Params): (r: Option<(Field, Value)>)
    requires Validates(action, params)
    ensures r.Some? ==> Fits(r.value.0, r.value.1)
  {
    match params
    case OnOff(on) => Some((
        match action
        case SET_POWER => F_POWER
        case SET_HEATER => F_HEATER
        case SET_FILTER => F_FILTER_PUMP
        case SET_BUBBLES => F_BUBBLES
        case _ => F_CONTROL_PANEL_LOCK, Flag(on)))
    case Brightness(n) => Some((F_BRIGHTNESS, Number(n)))
    case Volume(n) => Some((F_VOLUME, Number(n)))
    case Playback(p) => Some((F_PLAYBACK, PlaybackValue(if p == PLAY then PLAYING else PAUSED)))
    case TargetTemperature(c) => Some((F_TARGET_TEMPERATURE, Degrees(c)))
    case LockTo(desired) => Some((F_LOCK_STATE, LockValue(desired)))
    case NoParams => None
  }

  /** A request is judged satisfied exactly when the device reports the field it is about at the value
      it asked for (a setpoint: within 0.05 degrees); undecided exactly when that field is not reported,
      and always for a momentary action. */
  lemma MatchesExactly(action: Action, params: Params, state: DeviceState)
    requires Validates(action, params)
    ensures match Goal(action, params)
      case None => DesiredMatches(action, params, state) == None
      case Some((f, v)) =>
        && (DesiredMatches(action, params, state).None? <==> f !in state)
        && (f in state ==>
              (DesiredMatches(action, params, state) == Some(true) <==>
                 if v.Degrees? then Abs(state[f].celsius - v.celsius) <= TEMPERATURE_EPSILON_C else state[f] == v))
        && DesiredMatches(action, params, state[f := v]) == Some(true)
  {
  }

  /** A level may be asked for exactly when the device state can hold it. */
  lemma LevelsFitState(n: int)
    ensures Validates(SET_BRIGHTNESS, Brightness(n)) <==> Fits(F_BRIGHTNESS, Number(n))
    ensures Validates(SET_VOLUME, Volume(n)) <==> Fits(F_VOLUME, Number(n))
  {
  }
}
