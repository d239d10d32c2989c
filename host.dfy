/**
 * What the HomeShift coordinator reads from the host platform: the state
 * machine of each entity, looked up by entity id (`hass.states.get`), and
 * the clock (`dt_util.now()`).
 */
module Host {
  import opened Wrappers
  import opened EventPeriods

  /**
   * One entity's state object as the coordinator reads it:
   * - `state`: the state string (`"on"` for a calendar with an active event);
   * - `message`: `attributes.get("message", "")`, `""` also for a `None` value;
   * - `start`, `end`: `strptime` of the `start_time`/`end_time` attributes,
   *   `None` when missing, `None`, or not in the `%Y-%m-%d %H:%M:%S` format;
   * - `tags`: `attributes.get("tags", []) or []`.
   */
  datatype EntityState = EntityState(
    state: string,
    message: string,
    start: Option<Clock>,
    end: Option<Clock>,
    tags: seq<string>)

  /** The host's state machine: entity id to state; an absent id is `None`. */
  type States = map<string, EntityState>

  /** `hass.states.get(entity_id)`. */
  function Lookup<S>(states: map<string, S>, id: string): (r: Option<S>)
    ensures r.Some? <==> id in states
    ensures r.Some? ==> r.value == states[id]
  {
    if id in states then Some(states[id]) else None
  }

  /**
   * `dt_util.now()`: an instant in seconds, the local calendar date as a day
   * number, and `weekday()` (0 is Monday, 5 and 6 are the weekend).
   */
  datatype Now = Now(instant: int, date: int, weekday: int)

  predicate IsWeekend(now: Now) {
    now.weekday == 5 || now.weekday == 6
  }
}
