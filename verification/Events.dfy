/** The values that the broker, the stream handler and the publishing pipeline exchange. */
module Events {

  /** A typed server-sent event: `kind` is the source's `Type`, and `data` its bytes. */
  datatype Event = Event(id: string, kind: string, data: string, retry: int)
}
