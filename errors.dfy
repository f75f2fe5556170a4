/** The ways an operation of the bot can fail. The source returns a boxed
    error whose only use is to be logged; the model names each cause. */
module Errors {

  datatype Error =
    /** The token does not split on '.' into exactly three parts. */
    | MalformedToken
    /** The middle part is not base64, not UTF-8 or not JSON. */
    | UndecodablePayload
    /** The payload has no integer `exp` (or `s`) field. */
    | MissingClaim
    /** `Utc.timestamp_opt` found no date for the timestamp. */
    | BadTimestamp
    /** `HeaderValue::from_str` refused the token as a header value. */
    | InvalidHeader
    /** The HTTP request did not complete. */
    | Transport
    /** The response body did not deserialise into the expected type. */
    | BadBody
    /** The warehouses endpoint answered with a status outside 2xx. */
    | WarehousesUnavailable(status: int)
    /** The coefficients endpoint answered 2xx with a JSON `null`. */
    | NoCoefficients
    /** `query_row` found no warehouse with the requested id. */
    | NoSuchWarehouse
    /** An id does not fit the integer type it is converted to. */
    | IdOutOfRange
    /** A callback arrived without the message it was attached to. */
    | MissingMessage
    /** The `boxtype:` payload carried no box type. */
    | UnparsableCallback
    /** The chat platform refused to deliver a message to this chat. */
    | SendFailed(chat: int)
    /** The Rust code panics: an `unwrap` of a failure or an overflowing
        date addition. The model stops the handler and reports it. */
    | Panic
}
