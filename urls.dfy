/** The two views of a parsed `reqwest::Url` that the video sources consult.
    Parsing and normalisation belong to the URL library and are not modelled:
    a URL is given by what `host_str()` and `path()` return. */
module Urls {
  import opened Wrappers

  /** `host` is `host_str()` (absent for host-less URLs such as `file:` or
      `data:` ones); `path` is `path()`. */
  datatype Url = Url(host: Option<string>, path: string)
}
