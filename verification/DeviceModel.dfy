/** Normalised device state (devices/models.py). A field that is absent was not reported. */
module DeviceModel {
  import opened Basics
  import opened Policy

  datatype Field =
    | F_POWER | F_BRIGHTNESS | F_CURRENT_TEMPERATURE | F_TARGET_TEMPERATURE | F_HEATER | F_FILTER_PUMP
    | F_FILTER_LAST_STARTED | F_BUBBLES | F_CONTROL_PANEL_LOCK | F_LOCK_STATE | F_VOLUME | F_PLAYBACK
    | F_PROGRAM | F_PROGRAM_NAME | F_REMAINING_SECONDS

  datatype PlaybackState = PLAYING | PAUSED | STOPPED | UNKNOWN_PLAYBACK

  datatype ProgramState = IDLE | PROGRAM_RUNNING | FINISHED | UNKNOWN_PROGRAM

  datatype Value =
    | Flag(on: bool) | Number(n: int) | Degrees(celsius: real) | Moment(at: real)
    | LockValue(lock: LockState) | PlaybackValue(playback: PlaybackState)
    | ProgramValue(program: ProgramState) | Text(text: string)

  predicate Fits(f: Field, v: Value) {
    match f
    case F_BRIGHTNESS => v.Number? && 0 <= v.n <= 100
    case F_VOLUME => v.Number? && 0 <= v.n <= 100
    case F_REMAINING_SECONDS => v.Number? && 0 <= v.n
    case F_CURRENT_TEMPERATURE => v.Degrees?
    case F_TARGET_TEMPERATURE => v.Degrees?
    case F_FILTER_LAST_STARTED => v.Moment?
    case F_LOCK_STATE => v.LockValue?
    case F_PLAYBACK => v.PlaybackValue?
    case F_PROGRAM => v.ProgramValue?
    case F_PROGRAM_NAME => v.Text?
    case _ => v.Flag?
  }

  type DeviceState = s: map<Field, Value> | forall f | f in s :: Fits(f, s[f]) witness map[]

  /** `merged_with`: overlay the reported fields of `other`. */
  function MergedWith(held: DeviceState, other: DeviceState): DeviceState {
    held + other
  }

  datatype Availability = ONLINE | OFFLINE | UNKNOWN_AVAILABILITY
}
