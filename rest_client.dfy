/**
 * The URL and header helpers of the REST client (`RestTemplate`). The
 * requests themselves are HTTP calls and are not part of this model.
 */
module RestClient {
  import opened Wrappers
  import opened Strings
  import opened Dicts

  /** The state `RestTemplate.__init__` keeps: the base URL and the default headers. */
  datatype RestTemplate = RestTemplate(baseUrl: string, defaultHeaders: Dict<string, string>)

  /** `RestTemplate(base_url, headers=...)`: trailing slashes are trimmed and missing headers become `{}`. */
  function NewRestTemplate(baseUrl: string, headers: Option<Dict<string, string>>): (t: RestTemplate)
    ensures t.baseUrl == [] || t.baseUrl[|t.baseUrl| - 1] != '/'
    ensures StartsWith(baseUrl, t.baseUrl) && forall i :: |t.baseUrl| <= i < |baseUrl| ==> baseUrl[i] == '/'
    ensures headers.Some? ==> t.defaultHeaders == headers.value
    ensures headers.None? ==> t.defaultHeaders == []
  {
    RestTemplate(RStripChar(baseUrl, '/'), headers.GetOr([]))
  }

  predicate IsAbsolute(path: string) {
    StartsWith(path, "http://") || StartsWith(path, "https://")
  }

  /** `_build_url(path)` */
  function BuildUrl(t: RestTemplate, path: string): (r: string)
    ensures IsAbsolute(path) ==> r == path
    ensures !IsAbsolute(path) ==> StartsWith(r, t.baseUrl) && r[|t.baseUrl|..] == path
  {
    if IsAbsolute(path) then path else t.baseUrl + path
  }

  /** A relative path starting with `/` is joined to the base URL with exactly one slash between them. */
  lemma BuildUrlOneSlash(baseUrl: string, headers: Option<Dict<string, string>>, path: string)
    requires !IsAbsolute(path) && path != [] && path[0] == '/'
    ensures var t := NewRestTemplate(baseUrl, headers);
      var r := BuildUrl(t, path);
      r[|t.baseUrl|] == '/' && (t.baseUrl == [] || r[|t.baseUrl| - 1] != '/')
  {
    var t := NewRestTemplate(baseUrl, headers);
    var r := BuildUrl(t, path);
    assert r == t.baseUrl + path;
    if t.baseUrl != [] {
      assert r[|t.baseUrl| - 1] == t.baseUrl[|t.baseUrl| - 1];
    }
  }

  /** `_merge_headers(headers)`: a copy of the defaults, updated with the request headers when there are any. */
  function MergeHeaders(t: RestTemplate, headers: Option<Dict<string, string>>): (r: Dict<string, string>)
    ensures headers.None? || headers.value == [] ==> r == t.defaultHeaders
  {
    if headers.Some? && headers.value != [] then Update(t.defaultHeaders, headers.value) else t.defaultHeaders
  }

  /** A request header wins over a default one; every other default is kept. */
  lemma MergeHeadersGet(t: RestTemplate, headers: Dict<string, string>, k: string)
    requires Valid(headers)
    ensures Get(MergeHeaders(t, Some(headers)), k) == if HasKey(headers, k) then Get(headers, k) else Get(t.defaultHeaders, k)
  {
    GetUpdate(t.defaultHeaders, headers, k);
  }

  /** The merge keeps the defaults' keys first and adds the new request keys after them. */
  lemma MergeHeadersKeys(t: RestTemplate, headers: Dict<string, string>, k: string)
    ensures HasKey(MergeHeaders(t, Some(headers)), k) <==> HasKey(t.defaultHeaders, k) || HasKey(headers, k)
  {
    UpdateHasKey(t.defaultHeaders, headers, k);
  }
}
