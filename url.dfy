/**
 * The parts of Go's `*url.URL` that the crawler reads. Parsing, reference
 * resolution and serialisation belong to the `net/url` library and are not
 * modelled: `text` stands for what `URL.String()` returns for this value.
 */
module Urls {

  datatype Url = Url(
    scheme: string,
    host: string,
    path: string,
    rawQuery: string,
    fragment: string,
    text: string)
}
