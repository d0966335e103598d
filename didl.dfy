/**
 * The already-parsed shape of a ContentDirectory Browse response.
 *
 * The camera answers a Browse call with a SOAP envelope whose `Result`
 * elements each hold, as escaped text, a second XML document in the
 * DIDL-Lite vocabulary. The XML parser is not modelled: a response is
 * given here as the values the client reads out of those two documents.
 */
module Didl {
  import opened Wrappers

  type byte = x: int | 0 <= x < 256

  /** One `res` element of an item: one downloadable variant of a photo. */
  datatype Res = Res(
    size: Option<int>,         // the `size` attribute, already converted by `int(...)`
    resolution: Option<string>, // the `resolution` attribute; informational only
    url: Option<string>)       // the element's text; None when it has no child node

  /**
   * An `item` element: a photo with its `dc:title` and its variants. The
   * title is None when the element has no `dc:title` with text, which
   * makes the client raise when it reads it.
   */
  datatype Item = Item(title: Option<string>, res: seq<Res>)

  /**
   * A `container` element: a sub-directory with its `id` attribute and
   * its `dc:title`; None where the client's read of it raises.
   */
  datatype Container = Container(id: Option<string>, title: Option<string>)

  /** One inner DIDL-Lite document; `Malformed` is text the XML parser rejects. */
  datatype Didl = Malformed | Listing(containers: seq<Container>, items: seq<Item>)

  /**
   * A Browse response: its HTTP status and, when the outer envelope
   * parses, the inner documents of its `Result` elements in order; or
   * `Unanswered` when the POST itself raised (no connection, timeout).
   */
  datatype Response = Unanswered | Response(status: int, results: Option<seq<Didl>>)

  /**
   * A streamed GET of a photo: either no connection at all, or the pieces
   * `iter_content` yielded, in order, and whether the stream ended
   * normally. The transport and content decoding choose the piece
   * boundaries; `chunk_size` is only a hint.
   */
  datatype Fetch = Unreachable | Streamed(pieces: seq<seq<byte>>, complete: bool)
}
