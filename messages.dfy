/**
 * What a server sends over a player's websocket, modelled as entries of an
 * outbox sequence, and how a server-side handler ends.
 */
module Messages {
  import opened Values

  /** A connected player, identified by its websocket; player records compare equal exactly when they share one. */
  type PlayerId = nat

  /** The `update_type` every state broadcast of the core carries. */
  const GameStateUpdate: string := "game_state_update"

  datatype Message =
    | UpdateMsg(updateType: string, data: map<string, Value>)   // an Update envelope
    | ErrorText(message: string)                                // send_error(player, message)
    | ErrorRaised(failure: Failure)                              // send_error(player, f"Error: {e}") after an exception

  datatype Delivery = Sent(to: PlayerId, msg: Message)

  /** How a handler ended: normally, or by raising an exception that propagates to its caller. */
  datatype Outcome = Done | Raised(failure: Failure)
}
