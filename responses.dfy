/** The replies a command produces (package bot's response kinds). Only the kind, the description and the
    attached error are modelled; the timestamp and the echoed command text are not. */
module Responses {
  import opened Wrappers

  datatype Response =
    | Succeeded
    | InternalError(description: string, error: Option<string>)
    | SyntaxError(description: string, syntax: string)
    | NotAllowed(description: string)
    | FeatureNotEnabled(disabledFeature: string)
}
