/** The broker of the feedback listener: which feedback makes a device token invalid. */
module Broker {
  import opened ApnsReasons
  import opened Wrappers

  const APNS_PLATFORM := "apns"
  const GCM_PLATFORM := "gcm"

  /** The JSON documents on the feedback topics: what the APNS handler sends, what the Firebase
      handler sends, and anything that does not decode. */
  datatype Payload =
    | ApnsFeedback(deviceToken: string, reason: string)
    | GcmFeedback(from: string, error: string)
    | Malformed

  datatype FeedbackMessage = FeedbackMessage(game: string, platform: string, payload: Payload)

  datatype InvalidToken = InvalidToken(token: string, game: string, platform: string)

  /** Decoding fills the fields the document has; a failure is logged and leaves the rest empty. */
  function ApnsFields(payload: Payload): (string, string) {
    match payload
    case ApnsFeedback(token, reason) => (token, reason)
    case _ => ("", "")
  }

  function GcmFields(payload: Payload): (string, string) {
    match payload
    case GcmFeedback(from, error) => (from, error)
    case _ => ("", "")
  }

  /** The reasons on which the broker gives a token up. */
  predicate ApnsFatal(reason: string) {
    || reason == BAD_DEVICE_TOKEN || reason == UNREGISTERED
    || reason == TOPIC_DISALLOWED || reason == DEVICE_TOKEN_NOT_FOR_TOPIC
  }

  predicate GcmFatal(error: string) {
    error == "DEVICE_UNREGISTERED" || error == "BAD_REGISTRATION"
  }

  /** The token a message sends down the invalid-token channel, if any. */
  function Route(enabled: bool, m: FeedbackMessage): Option<InvalidToken> {
    if m.platform == APNS_PLATFORM then
      var (token, reason) := ApnsFields(m.payload);
      if ApnsFatal(reason) && enabled then Some(InvalidToken(token, m.game, APNS_PLATFORM)) else None
    else if m.platform == GCM_PLATFORM then
      var (from, error) := GcmFields(m.payload);
      if GcmFatal(error) && enabled then Some(InvalidToken(from, m.game, GCM_PLATFORM)) else None
    else None
  }

  function Tokens(t: Option<InvalidToken>): seq<InvalidToken> {
    if t.Some? then [t.value] else []
  }

  /** The tokens of a sequence of messages, in order. */
  function RouteAll(enabled: bool, ms: seq<FeedbackMessage>): seq<InvalidToken> {
    if ms == [] then []
    else RouteAll(enabled, ms[..|ms| - 1]) + Tokens(Route(enabled, ms[|ms| - 1]))
  }

  predicate KnownPlatform(t: InvalidToken) {
    t.platform == APNS_PLATFORM || t.platform == GCM_PLATFORM
  }

  /** The broker only ever emits the two platforms that have token tables. */
  lemma {:induction false} RoutesKnownPlatforms(enabled: bool, ms: seq<FeedbackMessage>)
    ensures forall t | t in RouteAll(enabled, ms) :: KnownPlatform(t)
  {
    if ms != [] {
      RoutesKnownPlatforms(enabled, ms[..|ms| - 1]);
    }
  }
}
