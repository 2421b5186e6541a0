/**
 * The cases of the `getAPIKey` test suite, one lemma per case, each derived
 * from the general lemmas of module `Auth`.
 */
module AuthTests {

  import opened Wrappers
  import opened SpaceSplit
  import opened Auth

  lemma NoAuthorizationHeader()
    ensures GetAPIKey(map[]) == None
  {
    MalformedHeaderIsNone(map[]);
  }

  lemma EmptyAuthorizationHeader()
    ensures GetAPIKey(map["authorization" := ""]) == None
  {
    MalformedHeaderIsNone(map["authorization" := ""]);
  }

  lemma SingleWord()
    ensures GetAPIKey(map["authorization" := "justoneword"]) == None
  {
    MalformedHeaderIsNone(map["authorization" := "justoneword"]);
  }

  lemma BearerScheme()
    ensures GetAPIKey(map["authorization" := "Bearer token123"]) == None
  {
    assert "Bearer token123" == "Bearer" + [Space] + "token123";
    SchemeMismatchIsNone(map["authorization" := "Bearer token123"], "Bearer", "token123");
  }

  lemma LowercaseScheme()
    ensures GetAPIKey(map["authorization" := "apikey token123"]) == None
  {
    assert "apikey token123" == "apikey" + [Space] + "token123";
    SchemeMismatchIsNone(map["authorization" := "apikey token123"], "apikey", "token123");
  }

  lemma ProperlyFormatted()
    ensures GetAPIKey(map["authorization" := "ApiKey my-secret-key-123"]) == Some("my-secret-key-123")
  {
    var key := "my-secret-key-123";
    assert Space !in key;
    assert "ApiKey my-secret-key-123" == ApiKeyPrefix + key;
    KeyRoundTrip(map[], key);
  }

  lemma SpecialCharacters()
    ensures GetAPIKey(map["authorization" := "ApiKey abc!@#$%^&*()_+-=[]{}|;:,.<>?"])
            == Some("abc!@#$%^&*()_+-=[]{}|;:,.<>?")
  {
    var key := "abc!@#$%^&*()_+-=[]{}|;:,.<>?";
    assert Space !in key;
    assert ApiKeyPrefix == "ApiKey ";
    assert "ApiKey abc!@#$%^&*()_+-=[]{}|;:,.<>?" == "ApiKey " + key;
    KeyRoundTrip(map[], key);
  }

  lemma SchemeWithoutKey()
    ensures GetAPIKey(map["authorization" := "ApiKey"]) == None
  {
    MalformedHeaderIsNone(map["authorization" := "ApiKey"]);
  }

  lemma SchemeWithTrailingSpace()
    ensures GetAPIKey(map["authorization" := "ApiKey "]) == Some("")
  {
    KeyRoundTrip(map[], "");
  }

  lemma SeveralSpacesAfterScheme()
    ensures GetAPIKey(map["authorization" := "ApiKey   token123"]) == Some("")
  {
    KeyStopsAtNextSpace(map["authorization" := "ApiKey   token123"], "", " token123");
  }

  lemma KeyWithSpaces()
    ensures GetAPIKey(map["authorization" := "ApiKey key with spaces"]) == Some("key")
  {
    KeyStopsAtNextSpace(map["authorization" := "ApiKey key with spaces"], "key", "with spaces");
  }

  lemma LowercaseHeaderName()
    ensures GetAPIKey(map["authorization" := "ApiKey uppercase-header-key"]) == Some("uppercase-header-key")
  {
    var key := "uppercase-header-key";
    assert Space !in key;
    assert "ApiKey uppercase-header-key" == ApiKeyPrefix + key;
    KeyRoundTrip(map[], key);
  }
}
