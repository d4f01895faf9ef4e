/**
  The boundary to `java.net.URL`. A URL is identified by its `toString()` text,
  which is all the crawler compares, stores or hands on; parsing, resolution
  against a base, `getHost()` and `getFile()` are supplied by the caller.
*/
module Net {
  import opened Wrappers

  datatype Url = Url(text: string)

  datatype UrlOps = UrlOps(
    parse: string -> Option<Url>,        // new URL(spec), None for MalformedURLException
    resolve: (Url, string) -> Option<Url>, // new URL(context, spec)
    host: Url -> string,                  // getHost()
    file: Url -> string                   // getFile()
  )
}
