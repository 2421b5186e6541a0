# getAPIKey — API key extraction from the authorization header

This project models the function `getAPIKey` of the learn-cicd TypeScript
starter server. Given the headers of an HTTP request, it reads the
`authorization` entry. It returns the API key when that entry has the form
`ApiKey <key>`. Otherwise it returns `null`.

The implementation file `src/api/auth` is not part of this model. The
behaviour modelled is the one the vitest suite `src/tests/auth.test.ts`
pins down with its assertions:

- The header value is split on single space characters, as JavaScript's
  `String.prototype.split(" ")` does. Consecutive spaces give empty pieces.
- The result is `null` when the header is missing or empty, or when there
  are fewer than two pieces, or when the first piece is not exactly `ApiKey`.
  The scheme comparison is case-sensitive.
- Otherwise the result is the second piece. It may be the empty string.
  Everything after the next space is dropped.

Modules:

- `Wrappers` (`wrappers.dfy`) holds `Option`. `None` stands for `null`.
- `SpaceSplit` (`split.dfy`) holds `Split`, modelling `split(" ")`, and
  `Join`, modelling `join(" ")`. The two are proved inverse. It also holds
  `CutAtFirstSpace`, a cut at the first space used as a reference.
- `Auth` (`auth.dfy`) holds `GetAPIKey` over a `map<string, string>`, and
  its general properties. `ExtractByFirstSpace` is a second definition: it
  cuts at the first space twice. The lemma `GetAPIKeyIsFirstSpaceCut` proves
  that both definitions agree on every header map.
- `AuthTests` (`auth_tests.dfy`) has one lemma per `it(...)` case of the
  suite. Each one is derived from the general lemmas.

Two test titles do not match their assertions:

- The title at `src/tests/auth.test.ts:68` says "should return null", but the
  assertion expects `""`.
- The title at `src/tests/auth.test.ts:84` says "should preserve spaces", but
  the assertion expects only the first token, `"key"`.

The model follows the assertions in both cases.

## Model

| member | source | states |
|---|---|---|
| `SpaceSplit.Split` | src/tests/auth.test.ts:68-90 | splitting on spaces always gives at least one piece, and no piece contains a space |
| `SpaceSplit.JoinSplit` | src/tests/auth.test.ts:68-90 | joining the pieces with single spaces gives back the original value, so no character is lost or changed |
| `SpaceSplit.SplitJoin` | src/tests/auth.test.ts:44-58 | splitting a join of space-free pieces gives back exactly those pieces |
| `SpaceSplit.SplitWithoutSpace` | src/tests/auth.test.ts:20-26 | a value has no space if and only if it splits into one piece, and that piece is the value itself |
| `SpaceSplit.SplitAtFirstSpace` | src/tests/auth.test.ts:76-90 | for a space-free `a`, the pieces of `a + " " + b` are `a` followed by the pieces of `b` |
| `SpaceSplit.CutAtFirstSpace` | src/tests/auth.test.ts:84-90 | the cut is absent if and only if there is no space; otherwise the value is the space-free part before the first space, plus a space, plus the rest |
| `Auth.GetAPIKey` | src/tests/auth.test.ts:5-99 | a returned key never contains a space |
| `Auth.GetAPIKeyIsFirstSpaceCut` | src/tests/auth.test.ts:76-90 | splitting on every space and taking the second piece gives the same result as cutting twice at the first space, on every header map |
| `Auth.MalformedHeaderIsNone` | src/tests/auth.test.ts:6-26 | a missing header, an empty header, or a value with no space gives null, whatever its single token is |
| `Auth.SchemeMismatchIsNone` | src/tests/auth.test.ts:28-42 | a first token other than exactly `ApiKey` gives null, whatever follows it |
| `Auth.GetAPIKeyIsSomeIff` | src/tests/auth.test.ts:44-90 | a key is returned if and only if the header is present and its value starts with `ApiKey ` |
| `Auth.GetAPIKeyIsSomeKeyIff` | src/tests/auth.test.ts:44-90 | the result is `key` if and only if `key` has no space and the value is `ApiKey ` + `key`, then either ends or continues with a space |
| `Auth.KeyRoundTrip` | src/tests/auth.test.ts:44-58 | any space-free key written as `ApiKey <key>` is returned verbatim, whatever the other headers are |
| `Auth.KeyStopsAtNextSpace` | src/tests/auth.test.ts:76-90 | only the token after `ApiKey ` is returned; anything from the next space on is dropped, and an empty token gives `""` |
| `Auth.OtherHeadersIgnored` | src/tests/auth.test.ts:92-98 | adding or changing any header other than `authorization` leaves the result unchanged |
| `AuthTests.NoAuthorizationHeader` | src/tests/auth.test.ts:6-10 | an empty header map gives null |
| `AuthTests.EmptyAuthorizationHeader` | src/tests/auth.test.ts:12-18 | `authorization: ""` gives null |
| `AuthTests.SingleWord` | src/tests/auth.test.ts:20-26 | `justoneword` gives null |
| `AuthTests.BearerScheme` | src/tests/auth.test.ts:28-34 | `Bearer token123` gives null |
| `AuthTests.LowercaseScheme` | src/tests/auth.test.ts:36-42 | `apikey token123` gives null |
| `AuthTests.ProperlyFormatted` | src/tests/auth.test.ts:44-50 | `ApiKey my-secret-key-123` gives `my-secret-key-123` |
| `AuthTests.SpecialCharacters` | src/tests/auth.test.ts:52-58 | a key made of punctuation and symbols is returned unchanged |
| `AuthTests.SchemeWithoutKey` | src/tests/auth.test.ts:60-66 | the bare `ApiKey` gives null |
| `AuthTests.SchemeWithTrailingSpace` | src/tests/auth.test.ts:68-74 | `ApiKey ` gives the empty key `""` |
| `AuthTests.SeveralSpacesAfterScheme` | src/tests/auth.test.ts:76-82 | `ApiKey   token123` gives the empty key `""` |
| `AuthTests.KeyWithSpaces` | src/tests/auth.test.ts:84-90 | `ApiKey key with spaces` gives `key` |
| `AuthTests.LowercaseHeaderName` | src/tests/auth.test.ts:92-98 | `ApiKey uppercase-header-key` under the lower-case name `authorization` gives `uppercase-header-key` |

## Left out

- The vitest harness (`describe`, `it`, `expect`). Each case is a lemma instead.
- Node's `IncomingHttpHeaders` type. Its values may be `string[]` or `undefined`. Here headers are a plain `map<string, string>`, and an absent key stands for `undefined`. Array-valued headers are not modelled.
- Case-insensitive matching of header names. The HTTP runtime lower-cases names before the map is built, so the lookup uses only the `authorization` key.
- What callers do with the key, such as checking it against stored keys or answering 401. Wire-level header parsing is also left out. Neither is part of this function.
- Idempotence (two calls give the same result). It holds for any Dafny function, so no lemma states it.
