# php-ntlm SoapClient, modelled in Dafny

php-ntlm's `SoapClient` is a PHP SOAP client that sends its requests through
a cURL handle authenticated with NTLM (or Basic). The model covers:

- **Construction** (`PrepareOptions`, `NtlmSoapClient.Create`). The
  constructor fills default options: no user or password, empty `curlopts`,
  `strip_bad_chars` on, `warn_on_bad_chars` off. It throws
  `BadMethodCallException` when the user or password is PHP-empty.
- **A request** (`NtlmSoapClient.DoRequest`, i.e. `__doRequest`). The six
  fixed headers are built (`BuildHeaders`) and the request recorded. The
  cURL handle is kept only when its effective URL equals the new location.
  The cURL options are merged (`CurlOptions`) and the transfer runs. A
  failed transfer sets both response fields to `false` and throws
  `RuntimeException("Curl error: …", errno)`. A successful one is split at
  the reported header size (`SplitResponse`) and its body is cleaned
  (`CleanBody`).
- **Cleaning.** Hexadecimal character references with one or two
  upper-case digits that name a control character XML 1.0 forbids are
  replaced by one space. Other spellings of such a reference (decimal
  `&#2;`, lower-case `&#x0b;`, three digits `&#x002;`) are kept. The PHP
  regex `(?!&#x0?(9|A|D))(&#x[0-1]?[0-9A-F];)` is transcribed as
  `BadChars.MatchLength`, which `MatchLengthExact` proves equal to a plain
  predicate (`IsBadReference`): `&#x`, one or two upper-case hex digits,
  `;`, value below 0x20 and not tab, line feed or carriage return. The
  replacement is a left-to-right scan (`BadChars.Scrub`), characterised by
  `ScrubCharReference`, `ScrubReplacesBadReference`, `ScrubCountZeroIff`
  and `ScrubIdempotent`.
- **Accessors.** `getResponseCode` (`GetResponseCode`) and
  `__getLastRequestHeaders` (`GetLastRequestHeaders`).

The project has three modules:

- `PhpValues` (`php_values.dfy`): the PHP semantics the client relies on —
  values and array keys, `empty()`, string conversion and the array union
  `+` (in which the left operand wins).
- `BadChars` (`bad_chars.dfy`): the sanitiser.
- `NtlmSoap` (`soap_client.dfy`): the client. A `CurlHandle` class holds
  the handle state the client reads back: its option table, effective URL
  and HTTP code. The `NtlmSoapClient` class holds the options, the handle
  and the four `__last_*` fields.

The cURL engine is an oracle. `DoRequest` receives the outcome of
`curl_exec` as an `ExecOutcome` parameter:

- `Failure(errno, message)`: what `curl_errno` and `curl_error` report;
- `Success(raw, headerSize, effectiveUrl, httpCode)`: the raw response and
  what `curl_getinfo` then reports.

The cURL constants carry the values PHP's curl extension gives them
(`CURLOPT_HEADER` 42, `CURLOPT_POSTFIELDS` 10015,
`CURLAUTH_BASIC | CURLAUTH_NTLM` = 9, and so on).

**Which options a caller can override.** One might expect every option the
client sets to win over the caller's `curlopts`. The code does not do that.
`curlOptions` overwrites only `HEADER`, `POST` and `POSTFIELDS` after the
merge. The other six defaults are the right operand of
`curlopts + defaults`, so a caller's value for them wins. This covers
`SSL_VERIFYPEER`, `USERPWD`, `HTTPHEADER`, `HTTPAUTH`, `HTTP_VERSION` and
`RETURNTRANSFER`. The model follows the code: `CurlOptions` states this, and
`CallerOverridesDefaults` shows it on an example.

One consequence of the handle-reuse rule: a reused handle keeps every option
set earlier, including a `CURLOPT_URL` a caller passed through `curlopts`.
The rule compares against the URL curl last reported, not the URL the handle
was created with. `DoRequest`'s contract states the resulting option table
exactly.

## Model

| member | source | states |
|---|---|---|
| PhpValues.IsEmpty | src/SoapClient.php:59 | `empty()` holds for a scalar exactly when its string form is "" or "0", and for an array exactly when it has no entries |
| PhpValues.IsTruthy | src/SoapClient.php:155 | the truth value PHP gives an option: false for null, the boolean itself, a non-zero integer, a string other than "" and "0", a non-empty array |
| PhpValues.NatToDecimal | src/SoapClient.php:197-198 | the decimal digits of a number, at least one and without a leading zero, read back as that number; "0" only for zero |
| PhpValues.ToPhpString | src/SoapClient.php:197-198 | the `.` operator's string form: an integer's decimal digits without a leading zero (after a minus sign when negative) read back as the integer, "" exactly for false among booleans, a string itself |
| PhpValues.ArrayUnion | src/SoapClient.php:49-55 | `left + right` has the keys of both arrays; every key of the left operand keeps its left value; keys only on the right take the right value |
| NtlmSoap.PrepareOptions | src/SoapClient.php:46-63 | the constructor throws exactly when the caller's user or password is missing or PHP-empty, with the message "A username and password is required."; otherwise the stored options are the caller's entries plus the five defaults for the keys the caller left out, and they satisfy ValidOptions |
| NtlmSoap.NtlmSoapClient.FromOptions | src/SoapClient.php:56 | the client keeps the options it is given, with no handle and no recorded request or response, and satisfies Valid() |
| NtlmSoap.NtlmSoapClient.Create | src/SoapClient.php:46-66 | constructing a client fails exactly when PrepareOptions does, with the same exception; a new client holds the prepared options, no cURL handle and no recorded request or response |
| NtlmSoap.BuildHeaders | src/SoapClient.php:136-146 | the request carries exactly six header lines |
| NtlmSoap.BuildHeadersShape | src/SoapClient.php:138-145 | header line i is the i-th name, a colon and a space, then the i-th value (POST, Keep-Alive, PHP-SOAP-CURL, text/xml; charset=utf-8, the quoted action, 100-continue) |
| NtlmSoap.HeaderNamed | src/SoapClient.php:138-145 | header line i is named HEADER_NAMES[i], for each of the six positions and any action |
| NtlmSoap.BuildHeadersOrder | src/SoapClient.php:138-145 | the header names are Method, Connection, User-Agent, Content-Type, SOAPAction, Expect, in that order, whatever the action |
| NtlmSoap.BuildHeadersRecoverAction | src/SoapClient.php:143 | the SOAPAction line quotes the action verbatim: reading the action back out of the fifth line gives the action |
| NtlmSoap.BuildHeadersOnlyActionVaries | src/SoapClient.php:138-145 | all header lines except SOAPAction are the same for every action, and two actions give the same header list if and only if they are equal |
| NtlmSoap.BeforeColonOf | src/SoapClient.php:139-144 | a colon-free text followed by a colon is exactly what comes before the first colon |
| NtlmSoap.HeaderNameOf | src/SoapClient.php:139-144 | a line built as `name: value` from a name without a colon has that name |
| NtlmSoap.Implode | src/SoapClient.php:108 | implode of no pieces is empty; otherwise the result starts with the first piece and ends with the last |
| NtlmSoap.HeaderDump | src/SoapClient.php:108 | the dump ends with a line feed and, for a non-empty list, starts with the first line |
| NtlmSoap.DumpEnds | src/SoapClient.php:108 | the dump of a non-empty list starts with its first line and a line feed and ends with its last line and a line feed |
| NtlmSoap.HeaderDumpIsLines | src/SoapClient.php:108 | for a non-empty list, joining the lines with line feeds and appending one more line feed ends every line with a line feed |
| NtlmSoap.RequestHeaderDump | src/SoapClient.php:106-109 | the dump of a request's headers starts with "Method: POST\n" and ends with "Expect: 100-continue\n" |
| NtlmSoap.NtlmSoapClient.GetLastRequestHeaders | src/SoapClient.php:106-109 | before any request the headers field is null and implode throws a TypeError; afterwards the result is the recorded lines, each ending in a line feed |
| NtlmSoap.NtlmSoapClient.GetResponseCode | src/SoapClient.php:119-128 | throws BadMethodCallException with its message exactly when there is no handle; otherwise returns the handle's last HTTP code |
| NtlmSoap.Credentials | src/SoapClient.php:197-198 | the USERPWD value is the user's string form, a colon, then the password's string form; when the user has no colon it is exactly what comes before the first colon |
| NtlmSoap.CurlDefaults | src/SoapClient.php:191-199 | the six defaults never touch HEADER, POST, POSTFIELDS or the URL; the auth value is Basic or NTLM (9) and USERPWD is the credentials string |
| NtlmSoap.CurlOptions | src/SoapClient.php:189-207 | throws a TypeError exactly when `curlopts` is not an array. Otherwise the key set is curlopts ∪ the six defaults ∪ {HEADER, POST, POSTFIELDS}. HEADER and POST are true and POSTFIELDS is the request, whatever curlopts says. Any other key has the caller's value if curlopts has it, else the default (peer verification on, transfer returned, the six headers, HTTP/1.1, Basic or NTLM auth, `user:password`) |
| NtlmSoap.CallerOverridesDefaults | src/SoapClient.php:191-204 | whatever a caller's curlopts say about peer verification and the credentials is what cURL receives, but they cannot stop the request being a POST of the request body; the default header list stays when the caller gives none |
| NtlmSoap.SplitResponse | src/SoapClient.php:215-225 | the header block followed by the body is the whole response; the header block is header_size long, or the whole response if header_size exceeds it |
| NtlmSoap.NtlmSoapClient.ParseResponse | src/SoapClient.php:215-225 | records the two parts of SplitResponse as the last response headers and body; nothing else changes |
| NtlmSoap.CleanBody | src/SoapClient.php:151-177 | with strip_bad_chars falsy the body is unchanged and there is no warning; otherwise the body is Scrub's text. The warning is raised if and only if both options are truthy and the body changed |
| NtlmSoap.PlainBodyKept | src/SoapClient.php:151-167 | a body without `&` is returned unchanged and raises no warning, whatever the two options say |
| NtlmSoap.NtlmSoapClient.CleanResponse | src/SoapClient.php:151-177 | replaces the recorded body by CleanBody's result and reports whether the warning was raised; the other fields are unchanged |
| NtlmSoap.NtlmSoapClient.DoRequest | src/SoapClient.php:71-101 | the request and its six headers are recorded first. The handle is kept iff one exists with effective URL equal to the location, else a fresh one is created for the location. It receives every merged option. A non-array curlopts throws the TypeError before the transfer, leaving the response fields unchanged. A failed transfer sets both response fields to false and throws "Curl error: " + message with the errno as code. A successful one records the split headers and the cleaned body, returns that body, reports the warning flag, and updates the handle's effective URL and HTTP code. Otherwise the handle still reports the location as its effective URL, with its previous HTTP code if it was kept and 0 if it is new. Valid() is preserved |
| NtlmSoap.NtlmSoapClient.SelectHandle | src/SoapClient.php:77-81 | the current handle is kept if and only if it exists and reports the location as its effective URL; otherwise a fresh handle is opened on the location; the recorded request and response fields are untouched |
| NtlmSoap.NtlmSoapClient.Transfer | src/SoapClient.php:83-100 | the merged options are added to the handle; a failure sets both response fields to false, throws the Curl error with the errno as code and leaves the handle's URL and code alone; a success records the handle's new URL and code, the split headers and the cleaned body, and returns that body |
| NtlmSoap.NtlmSoapClient.Receive | src/SoapClient.php:97-100 | parseResponse then cleanResponse: the headers are the split's first part, the body is the cleaned second part, and that body is returned with the warning flag |
| NtlmSoap.CurlHandle.SetOptions | src/SoapClient.php:83 | curl_setopt_array sets every option on the handle, later values replacing earlier ones; URL and HTTP code unchanged |
| NtlmSoap.CurlHandle.Transferred | src/SoapClient.php:84 | after a transfer the handle reports the effective URL and HTTP code of that transfer |
| NtlmSoap.CurlHandle.constructor | src/SoapClient.php:80 | curl_init(location) gives a handle whose only option is the URL, which is also its effective URL |
| NtlmSoap.AliceOptions | src/SoapClient.php:49-63 | options with only a user and a password pass the check and get the default curlopts, strip and warn flags |
| NtlmSoap.SuccessfulExchange | src/SoapClient.php:71-128 | for any request, location, action and header block: a fresh client for alice reports no response code. After a 200 exchange whose body has no `&`, it returns that body, the code is 200, and the request-header dump ends with the Expect line |
| NtlmSoap.FailedExchange | src/SoapClient.php:89-95 | a transfer failing with code 7 "couldn't connect" throws the Curl error with that code and message and leaves both response fields false |
| NtlmSoap.RetryAfterFailure | src/SoapClient.php:71-128 | after a request to a fresh client fails to connect, the response code is 0 and a retry to the same location reuses the handle |
| NtlmSoap.HandleReuse | src/SoapClient.php:77-81 | for any two different locations: two requests to the first use one handle (the transfer reports that location back), and a request to the second gets a new one |
| BadChars.LookaheadRejectsOpenings | src/SoapClient.php:162 | the lookahead `(?!&#x0?(9|A|D))` forbids a match exactly where the text opens with `&#x9`, `&#xA`, `&#xD`, `&#x09`, `&#x0A` or `&#x0D` |
| BadChars.PatternLength | src/SoapClient.php:162 | the pattern `&#x[0-1]?[0-9A-F];` matches five or six characters or not at all |
| BadChars.MatchLength | src/SoapClient.php:162 | a match of the whole regex starts with `&` and is at least five characters long |
| BadChars.MatchLengthExact | src/SoapClient.php:162 | the regex matches exactly n characters at the start of s if and only if those n characters form a bad reference (IsBadReference) |
| BadChars.FiveCharMatch | src/SoapClient.php:162 | a five-character match is exactly a one-digit bad reference |
| BadChars.SixCharMatch | src/SoapClient.php:162 | a six-character match is exactly a two-digit bad reference |
| BadChars.HexValueOne | src/SoapClient.php:162 | the value of one hex digit |
| BadChars.HexValueTwo | src/SoapClient.php:162 | the value of two hex digits, high digit first |
| BadChars.BadReferenceIsCharReference | src/SoapClient.php:162 | every reference the regex removes is a well-formed hexadecimal character reference |
| BadChars.Scrub | src/SoapClient.php:160-167 | each replacement shortens the text by at least four characters |
| BadChars.ScrubConcat | src/SoapClient.php:160-167 | a text can be cleaned in two pieces when the second starts with `&` or is empty: the texts and the counts add up |
| BadChars.ScrubSkipsPlainText | src/SoapClient.php:160-167 | text without `&` is copied through unchanged |
| BadChars.ScrubLeadingReference | src/SoapClient.php:160-167 | a character reference at the start becomes one space if it is bad and is kept whole otherwise |
| BadChars.ScrubCharReference | src/SoapClient.php:160-167 | a character reference between two texts is replaced by one space exactly when it is bad, and kept otherwise; the texts around it are cleaned separately |
| BadChars.ScrubReplacesBadReference | src/SoapClient.php:160-167 | a bad reference becomes one space and adds one to the replacement count |
| BadChars.ScrubUnchangedIffNoReplacement | src/SoapClient.php:160-171 | the text is unchanged if and only if no replacement was made |
| BadChars.ReplacementImpliesBadReference | src/SoapClient.php:160-171 | a replacement is made only where the input contains a bad reference |
| BadChars.ScrubCountZeroIff | src/SoapClient.php:160-171 | the count is zero if and only if the input contains no bad reference |
| BadChars.ScrubLeavesNoBadReference | src/SoapClient.php:160-167 | the cleaned text contains no bad reference |
| BadChars.NoBadReferenceAt | src/SoapClient.php:160-167 | no position and length of the cleaned text forms a bad reference |
| BadChars.NoBadReferenceAfterFront | src/SoapClient.php:160-167 | past the first output character, a bad reference in the cleaned text would be one in the cleaned rest of the input, which has none |
| BadChars.NoBadReferenceInFront | src/SoapClient.php:160-167 | the cleaned text does not start with a bad reference |
| BadChars.ScrubIdempotent | src/SoapClient.php:160-167 | cleaning a cleaned text changes nothing and counts no replacement |
| BadChars.ControlCharacterReplaced | src/SoapClient.php:160-167 | `a&#x02;b` becomes `a b` with one replacement |
| BadChars.AllowedControlKept | src/SoapClient.php:162 | the references to tab, line feed and carriage return (`&#x09;`, `&#x0A;`, `&#x0D;`) are kept |

## Left out

- PHP array order: arrays are maps. The order of options handed to `curl_setopt_array` and of the constructor's options is not modelled; the header list is a sequence.
- The parent `\SoapClient`: WSDL handling, SOAP envelope building, `parent::__construct` and the `$wsdl` argument are not part of this model.
- `__doRequest`'s `$version` and `$one_way` arguments: the code ignores them, so they are not parameters.
- `$options = null` in the constructor: PHP rejects `null += array`. Only array options are modelled.
- libcurl itself: setopt validation, the network, NTLM negotiation and redirects. The transfer outcome is a parameter, and `curl_setopt_array` is modelled as setting every option. Its early stop on an invalid option is not modelled.
- NtlmSoap.NtlmSoapClient.DoRequest: after a failed transfer the model leaves the handle's effective URL and HTTP code as they were before the transfer (for a new handle: the location and 0). Real libcurl may update them.
- `trigger_error`: the warning "Invalid characters were stripped from the XML SOAP response." is modelled as the boolean `warned` result, not as a PHP error handler call.
- NtlmSoap.NtlmSoapClient.CleanResponse: requires a recorded string body. The code calls it only right after `parseResponse`. A direct call on a `false` body, which preg_replace would turn into "", is out of scope.
- NtlmSoap.NtlmSoapClient.ParseResponse: takes `header_size` as a parameter instead of calling `curl_getinfo` on the handle. The TypeError PHP raises when it is called before any handle exists is not modelled.
- NtlmSoap.CurlOptions: a non-array `curlopts` is modelled as PHP 8's TypeError from `+`. The TypeError names its operation, not PHP's message text. The same holds for `implode` in GetLastRequestHeaders.
- The handle comparison uses PHP's loose `!=`. The model compares strings exactly, so numeric-string coincidences such as "1e1" and "10" are not modelled.
- `RETURNTRANSFER` overridden to false by a caller: `curl_exec` would then return `true` instead of the response. The model always receives the response text from the oracle.
- Bytes versus characters: PHP strings are bytes and the model's strings are sequences of characters. Each character of the model's strings stands for one byte, and `header_size` counts them; the regex only inspects ASCII characters.
- Floats and objects as option values: option values are null, bool, int, string or array.
