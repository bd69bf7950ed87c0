/** The session-state map of app.py (`user_states` with `set_state`,
    `get_state` and `clear_state`). The source stores strings; the three it
    ever compares against are modelled as a datatype. */
module Session {

  /** `"idle"` is only ever the default of `get_state`; `"await_start"` is
      compared against but never stored by the webhook. */
  datatype SessionState = Idle | AwaitStart | Continue

  type States = map<string, SessionState>

  /** `get_state`: a user without an entry reads as `Idle`. */
  function Get(states: States, user: string): (s: SessionState)
    ensures user !in states ==> s == Idle
    ensures user in states ==> s == states[user]
  {
    if user in states then states[user] else Idle
  }

  /** `set_state`. */
  function Set(states: States, user: string, s: SessionState): (r: States)
    ensures user in r && Get(r, user) == s
    ensures r.Keys == states.Keys + {user}
    ensures forall u :: u != user ==> Get(r, u) == Get(states, u)
  {
    states[user := s]
  }

  /** `clear_state`: removes the entry if there is one, so the user reads as
      `Idle` afterwards. */
  function Clear(states: States, user: string): (r: States)
    ensures user !in r && Get(r, user) == Idle
    ensures r.Keys == states.Keys - {user}
    ensures forall u :: u != user ==> (u in r <==> u in states) && Get(r, u) == Get(states, u)
  {
    states - {user}
  }

  /** Clearing undoes setting: a user who had no entry is back to having
      none, and every other entry is as it was. */
  lemma ClearUndoesSet(states: States, user: string, s: SessionState)
    requires user !in states
    ensures Clear(Set(states, user, s), user) == states
  {
  }
}
