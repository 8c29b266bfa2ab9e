/** The values the response stream carries (the interfaces at the end of src/protocol.ts). */
module Responses {
  import opened Wrappers
  import opened Text

  /** The daemon's version: major, minor, patch. */
  datatype Version = Version(major: nat, minor: nat, patch: nat)

  /** A successful response: its content lines and the binary payload, if any. */
  datatype MPDResponse = MPDResponse(lines: seq<string>, binary: Option<seq<Byte>>)

  /** A failure response (an `ACK` line) or a locally made error. */
  datatype MPDError = MPDError(errorCode: int, errorMessage: string)

  /** One unit of the response stream: the greeting, a success or a failure. */
  datatype ResponseUnit =
    | InitialResponse(version: Version)
    | Success(response: MPDResponse)
    | Failure(error: MPDError)

  /** A response with no lines and no binary payload (`{ lines: [] }`). */
  const EmptyResponse := MPDResponse([], None)
}
