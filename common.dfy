/** Option, standing in for Java's nullable references. */
module Wrappers {
  datatype Option<+T> = None | Some(value: T)
}

/** The host client's connection state (net.runelite.api.GameState). */
module GameStates {
  datatype GameState =
    | Unknown
    | Starting
    | LoginScreen
    | LoginScreenAuthenticator
    | LoggingIn
    | Loading
    | LoggedIn
    | ConnectionLost
    | Hopping
}
