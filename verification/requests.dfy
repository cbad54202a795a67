/**
 * The requests a table sends to the backend, as values: method, URL and JSON body.
 * Whether a request is delivered is decided outside the model.
 */
module Requests {
  import opened Wrappers

  datatype Method = Get | Post | Delete

  /** A JSON body: none, an object of string fields, or an object holding one id array. */
  datatype Body = NoBody | Fields(entries: seq<(string, string)>) | IdList(key: string, ids: seq<string>)

  datatype Request = Request(verb: Method, url: string, body: Body)

  /** The list URL: the bare collection path when the query is empty, otherwise
      `<path>/?<key>=<query>` with the query inserted verbatim (no escaping). */
  function SearchUrl(path: string, key: string, query: string): (url: string)
    ensures |path| <= |url| && url[..|path|] == path
    ensures url == path <==> query == ""
    ensures QueryOf(path, key, url) == Some(query)
  {
    if query == "" then path
    else
      var url := path + "/?" + key + "=" + query;
      assert url[..|path|] == path;
      assert url[|path + "/?" + key + "="|..] == query;
      url
  }

  /** Reads the query back out of a list URL; `None` for a URL of another shape. */
  function QueryOf(path: string, key: string, url: string): Option<string> {
    var prefix := path + "/?" + key + "=";
    if url == path then Some("")
    else if |prefix| < |url| && url[..|prefix|] == prefix then Some(url[|prefix|..])
    else None
  }

  /** Different queries give different request URLs. */
  lemma SearchUrlInjective(path: string, key: string, q1: string, q2: string)
    requires SearchUrl(path, key, q1) == SearchUrl(path, key, q2)
    ensures q1 == q2
  {
  }

  /** The GET of `getItems(filter = '')` and its siblings: the parameter defaults to the
      empty string, and an empty filter loads the whole collection. */
  function ListRequest(path: string, key: string, filter: Option<string>): (r: Request)
    ensures r.verb == Get && r.body == NoBody
    ensures r.url == path <==> (filter.None? || filter.value == "")
    ensures filter.Some? ==> QueryOf(path, key, r.url) == filter
  {
    Request(Get, SearchUrl(path, key, filter.GetOr("")), NoBody)
  }
}
