/** The user options passed through every configurator and hook. Only the
    payload size bound is read by the modelled code; the rest of the option
    object travels unread to the payload handler. */
module Config {

  datatype Options = Options(maxPayloadSize: int, rest: map<string, string>)
}
