/**
 * Extraction of an API key from a request's header map: the value of the
 * `authorization` header must read `ApiKey <key>`, and the key is the second
 * piece of that value split on single spaces.
 */
module Auth {

  import opened Wrappers
  import opened SpaceSplit

  /** Header names (already lower-cased by the HTTP runtime) to values. */
  type Headers = map<string, string>

  const AuthorizationHeader: string := "authorization"
  const ApiKeyScheme: string := "ApiKey"
  /** The scheme and the one space that must follow it. */
  const ApiKeyPrefix: string := ApiKeyScheme + [Space]

  /**
   * The API key carried by `headers`, or `None` when the `authorization`
   * header is missing or empty, has fewer than two space-separated pieces,
   * or its first piece is not exactly `ApiKey`. The key is the second piece,
   * so it never holds a space.
   */
  function GetAPIKey(headers: Headers): (key: Option<string>)
    ensures key.Some? ==> Space !in key.value
  {
    if AuthorizationHeader !in headers then None
    else
      var value := headers[AuthorizationHeader];
      if value == "" then None
      else
        var pieces := Split(value);
        if |pieces| < 2 || pieces[0] != ApiKeyScheme then None
        else Some(pieces[1])
  }

  /**
   * The extraction described as two cuts at the first space: cut the value
   * into scheme and remainder, then keep the remainder up to its own first
   * space. A reference definition for `GetAPIKey`.
   */
  function ExtractByFirstSpace(headers: Headers): Option<string>
  {
    if AuthorizationHeader !in headers then None
    else
      var value := headers[AuthorizationHeader];
      if value == "" then None
      else
        match CutAtFirstSpace(value)
        case None => None
        case Some((scheme, rest)) =>
          if scheme != ApiKeyScheme then None
          else
            match CutAtFirstSpace(rest)
            case None => Some(rest)
            case Some((key, _)) => Some(key)
  }

  /** Splitting on every space and cutting twice at the first space agree. */
  lemma GetAPIKeyIsFirstSpaceCut(headers: Headers)
    ensures GetAPIKey(headers) == ExtractByFirstSpace(headers)
  {
    if AuthorizationHeader in headers && headers[AuthorizationHeader] != "" {
      var value := headers[AuthorizationHeader];
      match CutAtFirstSpace(value)
      case None =>
        SplitWithoutSpace(value);
      case Some((scheme, rest)) =>
        SplitAtFirstSpace(scheme, rest);
        match CutAtFirstSpace(rest)
        case None =>
          SplitWithoutSpace(rest);
        case Some((key, tail)) =>
          SplitAtFirstSpace(key, tail);
    }
  }

  /**
   * A missing header, an empty header and a value without any space all
   * give `None`, whatever the value's single token is.
   */
  lemma MalformedHeaderIsNone(headers: Headers)
    ensures AuthorizationHeader !in headers ==> GetAPIKey(headers) == None
    ensures AuthorizationHeader in headers && headers[AuthorizationHeader] == "" ==> GetAPIKey(headers) == None
    ensures AuthorizationHeader in headers && Space !in headers[AuthorizationHeader] ==> GetAPIKey(headers) == None
  {
    if AuthorizationHeader in headers {
      SplitWithoutSpace(headers[AuthorizationHeader]);
    }
  }

  /**
   * Scheme matching is exact and case-sensitive: a first token other than
   * `ApiKey` gives `None`, whatever follows it.
   */
  lemma SchemeMismatchIsNone(headers: Headers, scheme: string, rest: string)
    requires AuthorizationHeader in headers
    requires headers[AuthorizationHeader] == scheme + [Space] + rest
    requires Space !in scheme && scheme != ApiKeyScheme
    ensures GetAPIKey(headers) == None
  {
    SplitAtFirstSpace(scheme, rest);
  }

  /** A key is found exactly when the value starts with `ApiKey ` . */
  lemma GetAPIKeyIsSomeIff(headers: Headers)
    ensures GetAPIKey(headers).Some? <==>
              AuthorizationHeader in headers && ApiKeyPrefix <= headers[AuthorizationHeader]
  {
    if AuthorizationHeader in headers {
      var value := headers[AuthorizationHeader];
      var n := |ApiKeyPrefix|;
      if ApiKeyPrefix <= value {
        assert value == ApiKeyScheme + [Space] + value[n..];
        SplitAtFirstSpace(ApiKeyScheme, value[n..]);
      }
      if GetAPIKey(headers).Some? {
        var pieces := Split(value);
        JoinSplit(value);
        assert value == pieces[0] + [Space] + Join(pieces[1..]);
      }
    }
  }

  /**
   * The result is `Some(key)` exactly when `key` holds no space and the
   * value is `ApiKey ` followed by `key`, and then either ends or goes on
   * with a space.
   */
  lemma GetAPIKeyIsSomeKeyIff(headers: Headers, key: string)
    ensures GetAPIKey(headers) == Some(key) <==>
              AuthorizationHeader in headers && Space !in key &&
              (headers[AuthorizationHeader] == ApiKeyPrefix + key ||
               ApiKeyPrefix + key + [Space] <= headers[AuthorizationHeader])
  {
    if AuthorizationHeader in headers {
      var value := headers[AuthorizationHeader];
      var n := |ApiKeyPrefix|;
      if GetAPIKey(headers) == Some(key) {
        var pieces := Split(value);
        JoinSplit(value);
        assert value == pieces[0] + [Space] + Join(pieces[1..]);
        var after := pieces[1..];
        if |after| == 1 {
          assert value == ApiKeyPrefix + key;
        } else {
          assert Join(after) == key + [Space] + Join(after[1..]);
          assert value == ApiKeyPrefix + key + [Space] + Join(after[1..]);
        }
      } else if Space !in key {
        if value == ApiKeyPrefix + key {
          SplitAtFirstSpace(ApiKeyScheme, key);
          SplitWithoutSpace(key);
        } else if ApiKeyPrefix + key + [Space] <= value {
          var m := n + |key| + 1;
          var rest := value[m..];
          assert value == ApiKeyScheme + [Space] + (key + [Space] + rest);
          SplitAtFirstSpace(ApiKeyScheme, key + [Space] + rest);
          SplitAtFirstSpace(key, rest);
        }
      }
    }
  }

  /**
   * Round trip: a space-free key written as `ApiKey <key>` is returned
   * verbatim, whatever the other headers are.
   */
  lemma KeyRoundTrip(headers: Headers, key: string)
    requires Space !in key
    ensures GetAPIKey(headers[AuthorizationHeader := ApiKeyPrefix + key]) == Some(key)
  {
    GetAPIKeyIsSomeKeyIff(headers[AuthorizationHeader := ApiKeyPrefix + key], key);
  }

  /**
   * Only the token after `ApiKey ` is kept: everything from the next space
   * on is dropped, and an empty token (two consecutive spaces) gives `Some("")`.
   */
  lemma KeyStopsAtNextSpace(headers: Headers, key: string, rest: string)
    requires AuthorizationHeader in headers
    requires Space !in key
    requires headers[AuthorizationHeader] == ApiKeyPrefix + key + [Space] + rest
    ensures GetAPIKey(headers) == Some(key)
  {
    GetAPIKeyIsSomeKeyIff(headers, key);
  }

  /** Headers other than `authorization` do not affect the result. */
  lemma OtherHeadersIgnored(headers: Headers, name: string, value: string)
    requires name != AuthorizationHeader
    ensures GetAPIKey(headers[name := value]) == GetAPIKey(headers)
  {
    assert AuthorizationHeader in headers[name := value] <==> AuthorizationHeader in headers;
  }
}
