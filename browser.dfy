/** What the routers see of the browser: the location hash, the response of a
    `fetch`, and what a container element ends up showing. */
module Browser {

  import JsString

  /** The outcome of one `fetch` and the reading of its body, as an oracle:
      an ok response with its text, a response whose status is not ok, or a
      rejected promise with its error message. */
  datatype FetchResult = Ok(body: string) | NotOk | Failed(message: string)

  /** What a container's `innerHTML` holds. The markup of the two notices is not
      modelled, only what it names: `PageNotFound` is the "page could not be
      loaded" notice naming `page` with a link to `backLink`; `ErrorAlert` is
      the danger alert showing `message`. */
  datatype Content =
    | Html(markup: string)
    | PageNotFound(page: string, backLink: string)
    | ErrorAlert(message: string)

  /** The value `location.hash` reads after `location.hash = v`: one leading
      `#` of `v` is dropped, an empty fragment reads as "", any other as "#" + fragment. */
  function AssignHash(v: string): (h: string)
    ensures h == "" || h[0] == '#'
    ensures h != "" ==> JsString.SliceFrom1(h) == (if v != [] && v[0] == '#' then v[1..] else v)
    ensures h == "" <==> v == "" || v == "#"
  {
    var fragment := if v != [] && v[0] == '#' then v[1..] else v;
    if fragment == [] then "" else "#" + fragment
  }
}
