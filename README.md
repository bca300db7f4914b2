# Keep-alive strategy and error classification of a pooled HTTP client

This project is a Dafny model of the decision logic in the configuration of a
Spring application's pooled outbound HTTP client (`HttpClientDemoConfiguration`).
It covers three parts:

- **The keep-alive strategy.** After each response the client must decide how long
  the pooled connection may stay idle. It reads the elements of the response's
  `Keep-Alive` header (the header described in section 19.7.1.1 of RFC 2068) in
  order. The first element that has a value and is named `timeout`, in any
  letter case, decides. Its value is parsed as a signed 64-bit decimal
  (`Long.parseLong`) and multiplied by 1000 with `long` arithmetic. With no
  such element the duration is the default of 20000 ms. A malformed timeout
  value is not replaced by the default: `Long.parseLong` throws, and the model
  returns a `Failure`.
- **The response error classifier.** A response is an error exactly when its
  status code is in the 4xx series.
- **The configured constants**, in milliseconds and connections, and the
  per-route connection caps they set up.

Modules:

- `Wrappers` holds `Option` (Java's `null`) and `Result` (a thrown exception).
- `JavaLang` holds the Java platform behaviour the code relies on:
  - `long` wrap-around (`ToLong`);
  - `Long.parseLong` and its partner printer `DecimalString` (`Long.toString`);
  - the character case mapping behind `String.equalsIgnoreCase`.
- `ClientConfig` holds the constants and the per-route caps.
- `KeepAlive` holds the element datatype and the specification function
  `KeepAliveDuration`. It also holds `GetKeepAliveDuration`, the strategy's
  `while` loop with its early return, which is proved equal to that function,
  and the lemmas about the strategy.
- `ResponseErrors` holds `hasError`.

## Model

| member | source | states |
|---|---|---|
| KeepAlive.GetKeepAliveDuration | src/main/java/com/ashwin/java/HttpClientDemoConfiguration.java:81-97 | the scan with early return computes exactly the duration `KeepAliveDuration` specifies, for every element sequence |
| KeepAlive.KeepAliveDuration | src/main/java/com/ashwin/java/HttpClientDemoConfiguration.java:86-95 | a successful duration is a `long`; an error happens only if some element is a `timeout` with a value |
| KeepAlive.TimeoutMillis | src/main/java/com/ashwin/java/HttpClientDemoConfiguration.java:91 | the conversion succeeds exactly when the value parses; it is congruent to seconds times 1000 modulo 2^64 and equal to it when that product fits in a `long`; the error carries the rejected string |
| KeepAlive.IsTimeout | src/main/java/com/ashwin/java/HttpClientDemoConfiguration.java:90 | an element decides exactly when it has a value and its name folds, character by character, onto `timeout` |
| KeepAlive.KeepAliveDefault | src/main/java/com/ashwin/java/HttpClientDemoConfiguration.java:86-95 | with no `timeout` element that has a value (including no elements at all) the duration is 20000 ms |
| KeepAlive.KeepAliveFirstMatch | src/main/java/com/ashwin/java/HttpClientDemoConfiguration.java:86-92 | the earliest `timeout` element with a value decides: its value in seconds times 1000, or the parse error; negative values are not clamped |
| KeepAlive.KeepAliveConcat | src/main/java/com/ashwin/java/HttpClientDemoConfiguration.java:86-92 | for two joined sequences, the first decides if it holds a `timeout` with a value, else the second; elements after the deciding one never matter |
| KeepAlive.KeepAliveFailureIsFinal | src/main/java/com/ashwin/java/HttpClientDemoConfiguration.java:91 | once a malformed timeout makes the result an error, appending elements cannot turn it into a duration or the default |
| KeepAlive.KeepAliveIgnoresSkipped | src/main/java/com/ashwin/java/HttpClientDemoConfiguration.java:90 | removing every element with another name, and every `timeout` without a value, leaves the duration unchanged |
| KeepAlive.TimeoutNameSpellings | src/main/java/com/ashwin/java/HttpClientDemoConfiguration.java:90 | the names matching `timeout` ignoring case are exactly the 7-letter spellings with each letter in either case, plus dotless and dotted i for the i |
| KeepAlive.TimeoutAnyCase | src/main/java/com/ashwin/java/HttpClientDemoConfiguration.java:90 | `timeout`, `Timeout` and `TIMEOUT` select the parameter alike |
| KeepAlive.KeepAliveCaseInsensitive | src/main/java/com/ashwin/java/HttpClientDemoConfiguration.java:90 | renaming elements to names equal ignoring case never changes the duration |
| KeepAlive.KeepAliveWrapsAround | src/main/java/com/ashwin/java/HttpClientDemoConfiguration.java:91 | a timeout of 9223372036854776 seconds wraps to the negative duration -9223372036854775616 ms |
| KeepAlive.KeepAliveExamples | src/main/java/com/ashwin/java/HttpClientDemoConfiguration.java:86-95 | `timeout=15, max=100` gives 15000 ms, `foo=bar` gives 20000 ms, `Timeout=-3` gives -3000 ms |
| JavaLang.ToLong | src/main/java/com/ashwin/java/HttpClientDemoConfiguration.java:91 | the result is the unique `long` congruent to the input modulo 2^64, and the input itself when it is a `long` |
| JavaLang.ParseLong | src/main/java/com/ashwin/java/HttpClientDemoConfiguration.java:91 | a parsed value is a `long` and the input ends in a digit; a failure carries the input |
| JavaLang.ParseLongOfDecimalString | src/main/java/com/ashwin/java/HttpClientDemoConfiguration.java:91 | parsing the printed form of any integer gives it back exactly when it is a `long`, and fails otherwise |
| JavaLang.ParseLongOnto | src/main/java/com/ashwin/java/HttpClientDemoConfiguration.java:91 | every `long` is the result of parsing some string |
| JavaLang.ParseLongPlusSign | src/main/java/com/ashwin/java/HttpClientDemoConfiguration.java:91 | a leading `+` does not change what a digit string parses to |
| JavaLang.ParseLongMinusSign | src/main/java/com/ashwin/java/HttpClientDemoConfiguration.java:91 | a leading `-` negates the digits' value and succeeds exactly when the negation is a `long` (so the least `long` parses) |
| JavaLang.ParseLongLeadingZero | src/main/java/com/ashwin/java/HttpClientDemoConfiguration.java:91 | a leading zero does not change what a digit string parses to |
| JavaLang.ParseLongRejectsNonDigit | src/main/java/com/ashwin/java/HttpClientDemoConfiguration.java:91 | any non-digit after the optional sign makes the parse fail |
| JavaLang.ShortDecimalsParse | src/main/java/com/ashwin/java/HttpClientDemoConfiguration.java:91 | one to 18 digits after an optional sign always parse |
| JavaLang.EqualsIgnoreCase | src/main/java/com/ashwin/java/HttpClientDemoConfiguration.java:90 | two strings are equal ignoring case exactly when they have the same length and the same folded characters |
| JavaLang.CharEqualsIgnoreCaseIsFoldEquality | src/main/java/com/ashwin/java/HttpClientDemoConfiguration.java:90 | two characters are equal ignoring case exactly when their upper-then-lower-cased forms coincide |
| JavaLang.EqualsIgnoreCaseIsEquivalence | src/main/java/com/ashwin/java/HttpClientDemoConfiguration.java:90 | `equalsIgnoreCase` is reflexive, symmetric and transitive |
| ResponseErrors.StatusSeries | src/main/java/com/ashwin/java/HttpClientDemoConfiguration.java:145 | the series is the status divided by 100, rounded toward zero as Java's `/` does |
| ResponseErrors.HasError | src/main/java/com/ashwin/java/HttpClientDemoConfiguration.java:144-146 | a status is an error exactly when it lies in 400..499, so no 5xx status and no status below 400 is an error |
| ClientConfig.ConfiguredValues | src/main/java/com/ashwin/java/HttpClientDemoConfiguration.java:44-57 | the default keep-alive is 20000 ms; the connect and request timeouts are 30000 ms; the socket timeout is 60000 ms; the idle wait is 30000 ms; the localhost cap (80) exceeds the total cap (40), which equals the default per-route cap (40) |
| ClientConfig.DirectRouteIgnoresCase | src/main/java/com/ashwin/java/HttpClientDemoConfiguration.java:75-76 | two ASCII host names give the same route on a port exactly when they are equal ignoring case |
| ClientConfig.ConfiguredMaxPerRoute | src/main/java/com/ashwin/java/HttpClientDemoConfiguration.java:65-78 | as written, the cap is 80 for exactly the route keyed on host `http://localhost` and port 8080, and 40 for every other route |
| ClientConfig.LocalhostOverrideMissesLocalhost | src/main/java/com/ashwin/java/HttpClientDemoConfiguration.java:74-76 | as written, the raised cap is keyed on the host name `http://localhost`, so no route whose host name holds no colon gets it; localhost:8080 gets only the default cap of 40 |
| ClientConfig.MaxPerRoute | src/main/java/com/ashwin/java/HttpClientDemoConfiguration.java:74-76 | the corrected cap is 80 for exactly the route to localhost:8080 and 40 for every other route |
| ClientConfig.MaxPerRouteLocalhost | src/main/java/com/ashwin/java/HttpClientDemoConfiguration.java:74-76 | with the override keyed on localhost:8080, a route to an ASCII host name gets 80 exactly when its port is 8080 and its name is `localhost` in any letter case, and 40 otherwise; 80 exceeds the total cap of 40 |

## Left out

- The connection pool's lease and release, `closeExpiredConnections` and `closeIdleConnections` (:65-78, :107-108) are Apache HttpClient internals whose code is not part of this model. Only the per-route cap lookup that the configuration sets up is modelled.
- The idle connection monitor and its `TaskScheduler` (:99-122) run in the background on a thread pool. Only their constants are modelled: the 30000 ms idle wait, the 20000 ms delay and the 5 threads.
- Turning the raw `Keep-Alive` header into elements is done by `BasicHeaderElementIterator`, which is library code. The model takes the element sequence as its input.
- `httpClient`, `clientHttpRequestFactory` and `restTemplate` (:124-185) only build and wire beans.
- The request interceptor (:157-169) and `handleError` (:149-151) only log and delegate.
- `QuoteController` makes one outbound network call and wraps the result in a 200 response. It has no logic of its own.
- JavaLang.ParseLong: accepts ASCII digits only. `Character.digit` also accepts the decimal digits of other scripts (for example Arabic-Indic digits), and the model rejects those.
- JavaLang.UpperCase: maps only ASCII letters and the two non-ASCII characters whose upper case is ASCII (dotless i, long s). Other case mappings of Unicode are not modelled.
- JavaLang.LowerCase: maps only ASCII letters and the two non-ASCII characters whose lower case is ASCII (dotted capital I, Kelvin sign). So `EqualsIgnoreCase` is exact whenever one side is ASCII, as `"timeout"` is.
- ResponseErrors.HasError: takes the raw status code. Spring's `getStatusCode()` throws for codes its `HttpStatus` enumeration does not list, and the model does not capture that.
- ClientConfig.DirectRoute: lower-cases ASCII letters only. It models a direct route by its target host alone; proxies, tunnelling and the secure flag of a route are not modelled. It also accepts host names that contain blanks, which `HttpHost` rejects, and keeps a negative port, which `HttpRoute` replaces with the scheme's default port.

## Findings

| source | as written | input that shows it | evidently intended | confidence | as-written member | corrected member |
|---|---|---|---|---|---|---|
| src/main/java/com/ashwin/java/HttpClientDemoConfiguration.java:75 | `new HttpHost("http://localhost", 8080)` passes the scheme as part of the host name, so the raised cap is keyed on the host `http://localhost` | a direct request to `http://localhost:8080`, whose route has host `localhost`, gets the default cap of 40 | the comment at :74 says localhost should get the raised cap of 80 | medium (not executed; depends on the library's route equality) | ClientConfig.LocalhostOverrideMissesLocalhost | ClientConfig.MaxPerRouteLocalhost |
