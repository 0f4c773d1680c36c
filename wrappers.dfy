/** Option and Result types, and the error conditions the inviter can run into.
    The source reports every error by raising an exception; here each one is a
    value of `Error` carried by `Err`. */
module Wrappers {

  datatype Option<+T> = None | Some(value: T)

  /** A room identifier is opaque to the inviter; the model numbers rooms. */
  type RoomId = nat

  datatype Error =
    /** A template holds the placeholder but no argument was given. */
    | MissingTemplateArgument(template: string)
    /** A configuration dictionary is indexed with a key it lacks (a KeyError). */
    | MissingKey(key: string)
    /** A directory entry carries no `uid` value (an IndexError). */
    | MissingUid(dn: string)
    /** The directory search itself raised. */
    | SearchFailed(filter: string)
    /** The alias lookup returned null. */
    | RoomUnresolvable(alias: string)
    /** Room creation was refused because the alias it would claim is taken. */
    | AliasInUse(alias: string)
    /** A request named a room the homeserver does not have. */
    | UnknownRoom
    /** A state event the caller reads does not exist (MNotFound). */
    | StateNotFound(eventType: string)
    /** A visibility string that is neither "public" nor "private" (a ValueError). */
    | InvalidVisibility(visibility: string)

  datatype Result<+T> = Ok(value: T) | Err(error: Error)
}
