/** The rejection reasons of APNS that the handler and the broker distinguish. */
module ApnsReasons {
  const SUCCESS := ""
  const TOO_MANY_REQUESTS := "TooManyRequests"
  const BAD_DEVICE_TOKEN := "BadDeviceToken"
  const UNREGISTERED := "Unregistered"
  const TOPIC_DISALLOWED := "TopicDisallowed"
  const DEVICE_TOKEN_NOT_FOR_TOPIC := "DeviceTokenNotForTopic"
}
