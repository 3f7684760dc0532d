/**
 * The NTLM SOAP client: a SOAP client whose transport is a cURL handle.
 * Construction fills in option defaults and insists on credentials; each
 * request builds a fixed header list, records the request, reuses or
 * replaces the handle, merges the cURL options, runs the exchange (here an
 * oracle: the outcome is a parameter), splits the raw response at the
 * reported header size and optionally strips bad character references.
 */
module NtlmSoap {
  import opened PhpValues
  import opened BadChars

  // ---------------------------------------------------------------------
  // cURL constants, with the values PHP's curl extension gives them

  const CURLOPT_HEADER := 42
  const CURLOPT_POST := 47
  const CURLOPT_SSL_VERIFYPEER := 64
  const CURLOPT_HTTP_VERSION := 84
  const CURLOPT_HTTPAUTH := 107
  const CURLOPT_URL := 10002
  const CURLOPT_USERPWD := 10005
  const CURLOPT_POSTFIELDS := 10015
  const CURLOPT_HTTPHEADER := 10023
  const CURLOPT_RETURNTRANSFER := 19913
  const CURL_HTTP_VERSION_1_1 := 2
  const CURLAUTH_BASIC: bv32 := 1
  const CURLAUTH_NTLM: bv32 := 8

  /** The exceptions the client raises. */
  datatype Error =
    | BadMethodCall(message: string)
    | Runtime(message: string, code: int)
    /** A PHP TypeError thrown by the named built-in operation. */
    | TypeError(operation: string)

  const CREDENTIALS_REQUIRED := "A username and password is required."
  const CURL_ERROR := "Curl error: "
  const NO_HANDLE :=
    "No cURL resource has been initialized. This is probably because no request has not been made."

  // ---------------------------------------------------------------------
  // Construction-time options

  /** The defaults the constructor adds for keys the caller left out. */
  const DEFAULT_OPTIONS: map<string, Value> := map[
    "user" := Null,
    "password" := Null,
    "curlopts" := Array(map[]),
    "strip_bad_chars" := Bool(true),
    "warn_on_bad_chars" := Bool(false)]

  /** The options as the caller gave them lack a user or a password, or one of them is PHP-empty. */
  predicate CredentialMissing(options: map<string, Value>) {
    || "user" !in options || IsEmpty(options["user"])
    || "password" !in options || IsEmpty(options["password"])
  }

  /** What a constructed client's options always satisfy. */
  predicate ValidOptions(options: map<string, Value>) {
    && "user" in options && "password" in options && "curlopts" in options
    && "strip_bad_chars" in options && "warn_on_bad_chars" in options
    && !IsEmpty(options["user"]) && !IsEmpty(options["password"])
  }

  /**
   * The constructor's `$options += defaults` and its credential check: the
   * options it keeps, or the BadMethodCallException it throws.
   */
  function PrepareOptions(options: map<string, Value>): (r: Result<map<string, Value>, Error>)
    ensures r.Err? <==> CredentialMissing(options)
    ensures r.Err? ==> r.error == BadMethodCall(CREDENTIALS_REQUIRED)
    ensures r.Ok? ==> ValidOptions(r.value)
    ensures r.Ok? ==> r.value.Keys == options.Keys + DEFAULT_OPTIONS.Keys
    ensures r.Ok? ==> forall k :: k in options ==> r.value[k] == options[k]
    ensures r.Ok? ==> forall k :: k in DEFAULT_OPTIONS && k !in options ==> r.value[k] == DEFAULT_OPTIONS[k]
  {
    var merged := ArrayUnion(options, DEFAULT_OPTIONS);
    if IsEmpty(merged["user"]) || IsEmpty(merged["password"]) then
      Err(BadMethodCall(CREDENTIALS_REQUIRED))
    else
      Ok(merged)
  }

  // ---------------------------------------------------------------------
  // Request headers

  const USER_AGENT := "PHP-SOAP-CURL"

  /** The names of the request headers, in the order they are sent. */
  const HEADER_NAMES := ["Method", "Connection", "User-Agent", "Content-Type", "SOAPAction", "Expect"]

  /** A header line: its name, a colon, a space and its value. */
  function Header(name: string, value: string): string {
    name + ": " + value
  }

  /** buildHeaders: the six request header lines. */
  function BuildHeaders(action: string): (headers: seq<string>)
    ensures |headers| == |HEADER_NAMES|
  {
    [ Header("Method", "POST"),
      Header("Connection", "Keep-Alive"),
      Header("User-Agent", USER_AGENT),
      Header("Content-Type", "text/xml; charset=utf-8"),
      Header("SOAPAction", "\"" + action + "\""),
      Header("Expect", "100-continue") ]
  }

  /**
   * Everything before the first colon: the name of a header line, or the
   * user of a `user:password` pair.
   */
  function BeforeColon(line: string): string {
    if line == [] || line[0] == ':' then [] else [line[0]] + BeforeColon(line[1..])
  }

  /** A colon-free text followed by a colon is what comes before the colon. */
  lemma {:induction false} BeforeColonOf(name: string, rest: string)
    requires ':' !in name && rest != [] && rest[0] == ':'
    ensures BeforeColon(name + rest) == name
    decreases |name|
  {
    if name == [] {
      assert name + rest == rest;
    } else {
      assert (name + rest)[1..] == name[1..] + rest;
      assert name[0] != ':' && ':' !in name[1..] by {
        assert name == [name[0]] + name[1..];
      }
      BeforeColonOf(name[1..], rest);
      assert [name[0]] + name[1..] == name;
    }
  }

  /** The action quoted in a `SOAPAction: "..."` line, if the line is one. */
  function SoapActionOf(line: string): Option<string> {
    if |line| >= 14 && line[..13] == "SOAPAction: \"" && line[|line| - 1] == '"' then
      Some(line[13..|line| - 1])
    else
      None
  }

  /** implode: the pieces with the glue between consecutive ones. */
  function Implode(glue: string, pieces: seq<string>): (r: string)
    ensures pieces == [] ==> r == ""
    ensures pieces != [] ==> |pieces[0]| <= |r| && r[..|pieces[0]|] == pieces[0]
    ensures pieces != [] ==> var last := pieces[|pieces| - 1];
              |last| <= |r| && r[|r| - |last|..] == last
  {
    if |pieces| == 0 then ""
    else if |pieces| == 1 then pieces[0]
    else
      var tail := Implode(glue, pieces[1..]);
      assert (pieces[0] + glue + tail)[|pieces[0] + glue + tail| - |pieces[|pieces| - 1]|..]
             == tail[|tail| - |pieces[|pieces| - 1]|..];
      pieces[0] + glue + tail
  }

  /** Each line followed by a line feed. */
  function Lines(lines: seq<string>): string {
    if lines == [] then "" else lines[0] + "\n" + Lines(lines[1..])
  }

  /** __getLastRequestHeaders: the recorded headers joined by line feeds, plus one more. */
  function HeaderDump(headers: seq<string>): (r: string)
    ensures |r| >= 1 && r[|r| - 1] == '\n'
    ensures headers != [] ==> |headers[0]| < |r| && r[..|headers[0]|] == headers[0]
  {
    var joined := Implode("\n", headers);
    assert headers != [] ==> (joined + "\n")[..|headers[0]|] == joined[..|headers[0]|];
    joined + "\n"
  }

  lemma {:induction false} HeaderNameOf(name: string, value: string)
    requires ':' !in name
    ensures BeforeColon(Header(name, value)) == name
  {
    assert Header(name, value) == name + (": " + value);
    BeforeColonOf(name, ": " + value);
  }

  /** The value carried by each request header line. */
  function HeaderValues(action: string): seq<string> {
    ["POST", "Keep-Alive", USER_AGENT, "text/xml; charset=utf-8", "\"" + action + "\"", "100-continue"]
  }

  lemma NamesColonFree()
    ensures forall i :: 0 <= i < |HEADER_NAMES| ==> ':' !in HEADER_NAMES[i]
  {
  }

  /** Header line i pairs the i-th name with the i-th value. */
  lemma BuildHeadersShape(action: string)
    ensures |HeaderValues(action)| == |HEADER_NAMES|
    ensures forall i :: 0 <= i < |HEADER_NAMES| ==>
              BuildHeaders(action)[i] == Header(HEADER_NAMES[i], HeaderValues(action)[i])
  {
  }

  lemma HeaderNamed(action: string, i: nat)
    requires i < |HEADER_NAMES|
    ensures BeforeColon(BuildHeaders(action)[i]) == HEADER_NAMES[i]
  {
    BuildHeadersShape(action);
    NamesColonFree();
    HeaderNameOf(HEADER_NAMES[i], HeaderValues(action)[i]);
  }

  /** The header lines carry their names in the fixed order, whatever the action. */
  lemma BuildHeadersOrder(action: string)
    ensures forall i :: 0 <= i < |HEADER_NAMES| ==> BeforeColon(BuildHeaders(action)[i]) == HEADER_NAMES[i]
  {
    forall i | 0 <= i < |HEADER_NAMES|
      ensures BeforeColon(BuildHeaders(action)[i]) == HEADER_NAMES[i]
    {
      HeaderNamed(action, i);
    }
  }

  /** The SOAPAction line quotes the action verbatim, so the action can be read back from it. */
  lemma BuildHeadersRecoverAction(action: string)
    ensures SoapActionOf(BuildHeaders(action)[4]) == Some(action)
  {
    var line := BuildHeaders(action)[4];
    assert line[..13] == "SOAPAction: \"";
    assert line[13..|line| - 1] == action;
  }

  /** Only the SOAPAction line depends on the action, and it determines the action. */
  lemma BuildHeadersOnlyActionVaries(a: string, b: string)
    ensures forall i :: 0 <= i < |HEADER_NAMES| && i != 4 ==> BuildHeaders(a)[i] == BuildHeaders(b)[i]
    ensures BuildHeaders(a) == BuildHeaders(b) <==> a == b
  {
    if BuildHeaders(a) == BuildHeaders(b) {
      BuildHeadersRecoverAction(a);
      BuildHeadersRecoverAction(b);
    }
  }

  lemma {:induction false} LinesSnoc(lines: seq<string>, last: string)
    ensures Lines(lines + [last]) == Lines(lines) + last + "\n"
    decreases |lines|
  {
    if lines == [] {
      assert lines + [last] == [last];
    } else {
      assert (lines + [last])[1..] == lines[1..] + [last];
      LinesSnoc(lines[1..], last);
    }
  }

  /** Joining with line feeds and adding one more terminates every line with a line feed. */
  lemma {:induction false} HeaderDumpIsLines(lines: seq<string>)
    requires lines != []
    ensures HeaderDump(lines) == Lines(lines)
    decreases |lines|
  {
    if |lines| > 1 {
      HeaderDumpIsLines(lines[1..]);
    }
  }

  /** The dump starts with the first line and its line feed. */
  lemma LinesStart(lines: seq<string>)
    requires lines != []
    ensures var d := Lines(lines);
            |lines[0]| < |d| && d[..|lines[0]| + 1] == lines[0] + "\n"
  {
    assert Lines(lines) == (lines[0] + "\n") + Lines(lines[1..]);
  }

  /** The dump ends with the last line and its line feed. */
  lemma LinesEnd(lines: seq<string>)
    requires lines != []
    ensures var d := Lines(lines);
            var last := lines[|lines| - 1];
            |last| < |d| && d[|d| - |last| - 1..] == last + "\n"
  {
    var last := lines[|lines| - 1];
    assert lines == lines[..|lines| - 1] + [last];
    LinesSnoc(lines[..|lines| - 1], last);
    assert Lines(lines) == Lines(lines[..|lines| - 1]) + (last + "\n");
  }

  /** The dump of any header list starts with its first line and ends with its last, each with a line feed. */
  lemma DumpEnds(h: seq<string>)
    requires h != []
    ensures var dump := HeaderDump(h);
            var last := h[|h| - 1];
            && |h[0]| < |dump| && dump[..|h[0]| + 1] == h[0] + "\n"
            && |last| < |dump| && dump[|dump| - |last| - 1..] == last + "\n"
  {
    HeaderDumpIsLines(h);
    LinesStart(h);
    LinesEnd(h);
  }

  /** The dump of a request's headers starts with the method line and ends with the Expect line. */
  lemma RequestHeaderDump(action: string)
    ensures var dump := HeaderDump(BuildHeaders(action));
            |dump| >= 21 &&
            dump[..13] == "Method: POST\n" &&
            dump[|dump| - 21..] == "Expect: 100-continue\n"
  {
    var h := BuildHeaders(action);
    DumpEnds(h);
    assert h[0] == "Method: POST";
    assert h[5] == "Expect: 100-continue";
  }

  // ---------------------------------------------------------------------
  // cURL options

  /** A PHP list: the strings under the keys 0, 1, 2, ... */
  function ListValue(items: seq<string>): Value {
    Array(map i | 0 <= i < |items| :: IntKey(i) := Str(items[i]))
  }

  /**
   * The `user:password` pair, each converted to a string: the password is
   * everything after the user and its colon, and a user without a colon is
   * everything before the first colon.
   */
  function Credentials(options: map<string, Value>): (r: string)
    requires "user" in options && "password" in options
    ensures var user := ToPhpString(options["user"]);
            && |user| < |r| && r[..|user|] == user && r[|user|] == ':'
            && r[|user| + 1..] == ToPhpString(options["password"])
            && (':' !in user ==> BeforeColon(r) == user)
  {
    var user := ToPhpString(options["user"]);
    var password := ToPhpString(options["password"]);
    assert user + ":" + password == user + (":" + password);
    assert (user + ":" + password)[|user| + 1..] == password;
    if ':' !in user then
      BeforeColonOf(user, ":" + password);
      user + ":" + password
    else
      user + ":" + password
  }

  /** The six options curlOptions supplies unless the caller's curlopts has them. */
  function CurlDefaults(options: map<string, Value>, action: string): (r: map<Key, Value>)
    requires "user" in options && "password" in options
    ensures r.Keys !! FORCED_KEYS && IntKey(CURLOPT_URL) !in r
    ensures IntKey(CURLOPT_HTTPAUTH) in r && r[IntKey(CURLOPT_HTTPAUTH)] == Int(9)
    ensures IntKey(CURLOPT_USERPWD) in r && r[IntKey(CURLOPT_USERPWD)] == Str(Credentials(options))
  {
    assert (CURLAUTH_BASIC | CURLAUTH_NTLM) as int == 9;
    var keys := {IntKey(CURLOPT_SSL_VERIFYPEER), IntKey(CURLOPT_RETURNTRANSFER), IntKey(CURLOPT_HTTPHEADER),
                 IntKey(CURLOPT_HTTP_VERSION), IntKey(CURLOPT_HTTPAUTH), IntKey(CURLOPT_USERPWD)};
    assert keys !! FORCED_KEYS && IntKey(CURLOPT_URL) !in keys;
    map[
      IntKey(CURLOPT_SSL_VERIFYPEER) := Bool(true),
      IntKey(CURLOPT_RETURNTRANSFER) := Bool(true),
      IntKey(CURLOPT_HTTPHEADER) := ListValue(BuildHeaders(action)),
      IntKey(CURLOPT_HTTP_VERSION) := Int(CURL_HTTP_VERSION_1_1),
      IntKey(CURLOPT_HTTPAUTH) := Int((CURLAUTH_BASIC | CURLAUTH_NTLM) as int),
      IntKey(CURLOPT_USERPWD) := Str(Credentials(options))]
  }

  /** The three options curlOptions always overwrites. */
  const FORCED_KEYS := {IntKey(CURLOPT_HEADER), IntKey(CURLOPT_POST), IntKey(CURLOPT_POSTFIELDS)}

  /**
   * curlOptions: `curlopts + defaults`, then HEADER, POST and POSTFIELDS
   * overwritten. The caller's curlopts win over the six defaults; a
   * curlopts that is not an array makes `+` throw.
   */
  function CurlOptions(options: map<string, Value>, action: string, request: string)
    : (r: Result<map<Key, Value>, Error>)
    requires "curlopts" in options && "user" in options && "password" in options
    ensures r.Err? <==> !options["curlopts"].Array?
    ensures r.Err? ==> r.error == TypeError("+")
    ensures r.Ok? ==>
              var passthrough := options["curlopts"].entries;
              var defaults := CurlDefaults(options, action);
              && r.value.Keys == passthrough.Keys + defaults.Keys + FORCED_KEYS
              && r.value[IntKey(CURLOPT_HEADER)] == Bool(true)
              && r.value[IntKey(CURLOPT_POST)] == Bool(true)
              && r.value[IntKey(CURLOPT_POSTFIELDS)] == Str(request)
              && (forall k :: k in r.value && k !in FORCED_KEYS ==>
                    r.value[k] == if k in passthrough then passthrough[k] else defaults[k])
  {
    match options["curlopts"]
    case Array(passthrough) =>
      var merged := ArrayUnion(passthrough, CurlDefaults(options, action));
      Ok(merged[IntKey(CURLOPT_HEADER) := Bool(true)]
               [IntKey(CURLOPT_POST) := Bool(true)]
               [IntKey(CURLOPT_POSTFIELDS) := Str(request)])
    case _ => Err(TypeError("+"))
  }

  /**
   * Whatever the caller's curlopts say about peer verification and the
   * credentials is what cURL receives, but they cannot stop the request
   * being a POST of `request`; the default header list stays when they
   * give none.
   */
  lemma CallerOverridesDefaults(options: map<string, Value>, action: string, request: string)
    requires "curlopts" in options && "user" in options && "password" in options
    requires options["curlopts"].Array?
    requires var passthrough := options["curlopts"].entries;
             && IntKey(CURLOPT_SSL_VERIFYPEER) in passthrough && IntKey(CURLOPT_USERPWD) in passthrough
             && IntKey(CURLOPT_HTTPHEADER) !in passthrough
    ensures var passthrough := options["curlopts"].entries;
            var r := CurlOptions(options, action, request);
            && r.Ok?
            && r.value[IntKey(CURLOPT_SSL_VERIFYPEER)] == passthrough[IntKey(CURLOPT_SSL_VERIFYPEER)]
            && r.value[IntKey(CURLOPT_USERPWD)] == passthrough[IntKey(CURLOPT_USERPWD)]
            && r.value[IntKey(CURLOPT_POST)] == Bool(true)
            && r.value[IntKey(CURLOPT_POSTFIELDS)] == Str(request)
            && r.value[IntKey(CURLOPT_HTTPHEADER)] == ListValue(BuildHeaders(action))
  {
    var r := CurlOptions(options, action, request);
    assert IntKey(CURLOPT_SSL_VERIFYPEER) in r.value && IntKey(CURLOPT_SSL_VERIFYPEER) !in FORCED_KEYS;
    assert IntKey(CURLOPT_USERPWD) in r.value && IntKey(CURLOPT_USERPWD) !in FORCED_KEYS;
    assert IntKey(CURLOPT_HTTPHEADER) in r.value && IntKey(CURLOPT_HTTPHEADER) !in FORCED_KEYS;
  }

  // ---------------------------------------------------------------------
  // Response processing

  /**
   * parseResponse's two substr calls: the header block and the body. A
   * header size past the end takes the whole response as headers and
   * leaves an empty body, as PHP 8's substr does.
   */
  function SplitResponse(response: string, headerSize: nat): (r: (string, string))
    ensures r.0 + r.1 == response
    ensures |r.0| == if headerSize <= |response| then headerSize else |response|
  {
    if headerSize <= |response| then
      (response[..headerSize], response[headerSize..])
    else
      (response, "")
  }

  /** The body cleanResponse leaves behind, and whether it triggers a warning. */
  datatype Cleaned = Cleaned(body: string, warned: bool)

  /** cleanResponse on a body, given the strip_bad_chars and warn_on_bad_chars options. */
  function CleanBody(strip: Value, warn: Value, body: string): (r: Cleaned)
    ensures !IsTruthy(strip) ==> r == Cleaned(body, false)
    ensures IsTruthy(strip) ==> r.body == Scrub(body).text
    ensures r.warned <==> IsTruthy(strip) && IsTruthy(warn) && r.body != body
  {
    if !IsTruthy(strip) then
      Cleaned(body, false)
    else
      var scrubbed := Scrub(body);
      ScrubUnchangedIffNoReplacement(body);
      Cleaned(scrubbed.text, IsTruthy(warn) && scrubbed.count > 0)
  }

  // ---------------------------------------------------------------------
  // The client

  /** What the cURL engine reports for one curl_exec. */
  datatype ExecOutcome =
    | Failure(errno: int, message: string)
    | Success(raw: string, headerSize: nat, effectiveUrl: string, httpCode: int)

  /** A response field: never written, set to false by a failed exchange, or a string. */
  datatype Field = Unset | FalseValue | Text(text: string)

  /** The state of a cURL handle that the client reads back. */
  class CurlHandle {
    var settings: map<Key, Value>
    var effectiveUrl: string
    var httpCode: int

    /** curl_init(url) */
    constructor (url: string)
      ensures settings == map[IntKey(CURLOPT_URL) := Str(url)]
      ensures effectiveUrl == url && httpCode == 0
    {
      settings := map[IntKey(CURLOPT_URL) := Str(url)];
      effectiveUrl := url;
      httpCode := 0;
    }

    /** curl_setopt_array: every option is set, later values replacing earlier ones. */
    method SetOptions(options: map<Key, Value>)
      modifies this
      ensures settings == old(settings) + options
      ensures effectiveUrl == old(effectiveUrl) && httpCode == old(httpCode)
    {
      settings := settings + options;
    }

    /** What curl_getinfo reports after a transfer. */
    method Transferred(url: string, code: int)
      modifies this
      ensures settings == old(settings) && effectiveUrl == url && httpCode == code
    {
      effectiveUrl, httpCode := url, code;
    }
  }

  class NtlmSoapClient {
    const options: map<string, Value>
    var ch: CurlHandle?
    var lastRequest: Option<string>
    var lastRequestHeaders: Option<seq<string>>
    var lastResponse: Field
    var lastResponseHeaders: Field

    /**
     * The options passed the constructor's checks; the request fields are
     * written together, and so are the response fields; a handle exists
     * only once a request has been recorded.
     */
    ghost predicate Valid()
      reads this
    {
      && ValidOptions(options)
      && (lastRequest.Some? <==> lastRequestHeaders.Some?)
      && (lastResponse.Text? <==> lastResponseHeaders.Text?)
      && (lastResponse.FalseValue? <==> lastResponseHeaders.FalseValue?)
      && (ch != null ==> lastRequest.Some?)
      && (lastRequestHeaders.Some? ==> |lastRequestHeaders.value| == |HEADER_NAMES|)
    }

    constructor FromOptions(options: map<string, Value>)
      requires ValidOptions(options)
      ensures Valid() && this.options == options && ch == null
      ensures lastRequest == None && lastRequestHeaders == None
      ensures lastResponse == Unset && lastResponseHeaders == Unset
    {
      this.options := options;
      ch := null;
      lastRequest, lastRequestHeaders := None, None;
      lastResponse, lastResponseHeaders := Unset, Unset;
    }

    /** `new SoapClient($wsdl, $options)`: a client, or the exception the constructor throws. */
    static method Create(options: map<string, Value>) returns (r: Result<NtlmSoapClient, Error>)
      ensures r.Err? <==> CredentialMissing(options)
      ensures r.Err? ==> r.error == BadMethodCall(CREDENTIALS_REQUIRED)
      ensures r.Ok? ==> && fresh(r.value) && r.value.Valid()
                        && Ok(r.value.options) == PrepareOptions(options)
                        && r.value.ch == null
                        && r.value.lastRequest == None && r.value.lastResponse == Unset
    {
      var prepared := PrepareOptions(options);
      if prepared.Err? {
        return Err(prepared.error);
      }
      var client := new NtlmSoapClient.FromOptions(prepared.value);
      r := Ok(client);
    }

    /** The current handle may serve a request to `location`. */
    predicate Reusable(location: string)
      reads this, ch
    {
      ch != null && ch.effectiveUrl == location
    }

    /** getResponseCode: the last HTTP code, or an exception when no handle exists. */
    function GetResponseCode(): (r: Result<int, Error>)
      reads this, ch
      ensures r.Err? <==> ch == null
      ensures r.Err? ==> r.error == BadMethodCall(NO_HANDLE)
      ensures r.Ok? ==> r.value == ch.httpCode
    {
      if ch == null then Err(BadMethodCall(NO_HANDLE)) else Ok(ch.httpCode)
    }

    /**
     * __getLastRequestHeaders: the recorded header lines, each ending in a
     * line feed; before any request the field is null and implode throws.
     */
    function GetLastRequestHeaders(): (r: Result<string, Error>)
      requires Valid()
      reads this
      ensures r.Err? <==> lastRequestHeaders.None?
      ensures r.Err? ==> r.error == TypeError("implode")
      ensures lastRequestHeaders.Some? ==> r == Ok(Lines(lastRequestHeaders.value))
    {
      match lastRequestHeaders
      case None => Err(TypeError("implode"))
      case Some(headers) =>
        HeaderDumpIsLines(headers);
        Ok(HeaderDump(headers))
    }

    /** parseResponse, given the header size curl_getinfo reports. */
    method ParseResponse(response: string, headerSize: nat)
      requires Valid()
      modifies this
      ensures Valid()
      ensures lastResponseHeaders == Text(SplitResponse(response, headerSize).0)
      ensures lastResponse == Text(SplitResponse(response, headerSize).1)
      ensures ch == old(ch) && lastRequest == old(lastRequest) && lastRequestHeaders == old(lastRequestHeaders)
    {
      var split := SplitResponse(response, headerSize);
      lastResponseHeaders := Text(split.0);
      lastResponse := Text(split.1);
    }

    /** cleanResponse: rewrites the recorded body in place; the result says whether it warns. */
    method CleanResponse() returns (warned: bool)
      requires Valid() && lastResponse.Text?
      modifies this
      ensures Valid()
      ensures var cleaned := CleanBody(options["strip_bad_chars"], options["warn_on_bad_chars"],
                                       old(lastResponse.text));
              lastResponse == Text(cleaned.body) && warned == cleaned.warned
      ensures ch == old(ch) && lastRequest == old(lastRequest) && lastRequestHeaders == old(lastRequestHeaders)
      ensures lastResponseHeaders == old(lastResponseHeaders)
    {
      if !IsTruthy(options["strip_bad_chars"]) {
        return false;
      }
      var scrubbed := Scrub(lastResponse.text);
      lastResponse := Text(scrubbed.text);
      warned := IsTruthy(options["warn_on_bad_chars"]) && scrubbed.count > 0;
    }

    /**
     * __doRequest, with the outcome of curl_exec supplied by the engine: the
     * body (cleaned if configured), or the exception thrown; `warned` is
     * whether cleanResponse raised its warning.
     */
    method DoRequest(request: string, location: string, action: string, exec: ExecOutcome)
      returns (r: Result<string, Error>, warned: bool)
      requires Valid()
      modifies this, ch
      ensures Valid()
      ensures lastRequest == Some(request) && lastRequestHeaders == Some(BuildHeaders(action))
      ensures ch != null
      ensures old(Reusable(location)) ==> ch == old(ch)
      ensures !old(Reusable(location)) ==> fresh(ch)
      ensures var opts := CurlOptions(options, action, request);
              var base := if old(Reusable(location)) then old(ch.settings)
                          else map[IntKey(CURLOPT_URL) := Str(location)];
              ch.settings == if opts.Ok? then base + opts.value else base
      // the options cannot be merged: PHP's `+` throws before the exchange
      ensures CurlOptions(options, action, request).Err? ==>
                && r == Err(CurlOptions(options, action, request).error) && !warned
                && lastResponse == old(lastResponse) && lastResponseHeaders == old(lastResponseHeaders)
      // the exchange fails: both response fields become false
      ensures CurlOptions(options, action, request).Ok? && exec.Failure? ==>
                && r == Err(Runtime(CURL_ERROR + exec.message, exec.errno)) && !warned
                && lastResponse == FalseValue && lastResponseHeaders == FalseValue
      // the exchange succeeds: headers and body recorded, the body cleaned and returned
      ensures CurlOptions(options, action, request).Ok? && exec.Success? ==>
                var split := SplitResponse(exec.raw, exec.headerSize);
                var cleaned := CleanBody(options["strip_bad_chars"], options["warn_on_bad_chars"], split.1);
                && lastResponseHeaders == Text(split.0)
                && lastResponse == Text(cleaned.body)
                && r == Ok(cleaned.body) && warned == cleaned.warned
                && ch.effectiveUrl == exec.effectiveUrl && ch.httpCode == exec.httpCode
      // no successful exchange: the handle reports what it reported before, or what a new one reports
      ensures !(CurlOptions(options, action, request).Ok? && exec.Success?) ==>
                && ch.effectiveUrl == location
                && ch.httpCode == if old(Reusable(location)) then old(ch.httpCode) else 0
    {
      lastRequest := Some(request);
      lastRequestHeaders := Some(BuildHeaders(action));
      SelectHandle(location);

      var opts := CurlOptions(options, action, request);
      if opts.Err? {
        return Err(opts.error), false;
      }
      r, warned := Transfer(opts.value, exec);
    }

    /** The part of __doRequest after the options are merged: set them, run the transfer, record the reply. */
    method Transfer(opts: map<Key, Value>, exec: ExecOutcome) returns (r: Result<string, Error>, warned: bool)
      requires Valid() && ch != null
      modifies this, ch
      ensures Valid()
      ensures ch == old(ch) && ch.settings == old(ch.settings) + opts
      ensures lastRequest == old(lastRequest) && lastRequestHeaders == old(lastRequestHeaders)
      ensures exec.Failure? ==>
                && r == Err(Runtime(CURL_ERROR + exec.message, exec.errno)) && !warned
                && lastResponse == FalseValue && lastResponseHeaders == FalseValue
                && ch.effectiveUrl == old(ch.effectiveUrl) && ch.httpCode == old(ch.httpCode)
      ensures exec.Success? ==>
                var split := SplitResponse(exec.raw, exec.headerSize);
                var cleaned := CleanBody(options["strip_bad_chars"], options["warn_on_bad_chars"], split.1);
                && lastResponseHeaders == Text(split.0)
                && lastResponse == Text(cleaned.body)
                && r == Ok(cleaned.body) && warned == cleaned.warned
                && ch.effectiveUrl == exec.effectiveUrl && ch.httpCode == exec.httpCode
    {
      var handle := ch;
      handle.SetOptions(opts);
      match exec
      case Failure(errno, message) =>
        lastResponse, lastResponseHeaders := FalseValue, FalseValue;
        return Err(Runtime(CURL_ERROR + message, errno)), false;
      case Success(raw, headerSize, effectiveUrl, httpCode) =>
        handle.Transferred(effectiveUrl, httpCode);
        var body;
        body, warned := Receive(raw, headerSize);
        r := Ok(body);
    }

    /** The handle __doRequest uses: the current one if it last served `location`, else a new one. */
    method SelectHandle(location: string)
      requires lastRequest.Some?
      modifies this
      ensures ch != null
      ensures old(Reusable(location)) ==> ch == old(ch)
      ensures !old(Reusable(location)) ==>
                && fresh(ch)
                && ch.settings == map[IntKey(CURLOPT_URL) := Str(location)]
                && ch.effectiveUrl == location && ch.httpCode == 0
      ensures lastRequest == old(lastRequest) && lastRequestHeaders == old(lastRequestHeaders)
      ensures lastResponse == old(lastResponse) && lastResponseHeaders == old(lastResponseHeaders)
    {
      if ch == null || ch.effectiveUrl != location {
        ch := new CurlHandle(location);
      }
    }

    /** The successful end of __doRequest: parseResponse, then cleanResponse, then the body. */
    method Receive(raw: string, headerSize: nat) returns (body: string, warned: bool)
      requires Valid()
      modifies this
      ensures Valid()
      ensures var split := SplitResponse(raw, headerSize);
              var cleaned := CleanBody(options["strip_bad_chars"], options["warn_on_bad_chars"], split.1);
              && lastResponseHeaders == Text(split.0)
              && lastResponse == Text(cleaned.body)
              && body == cleaned.body && warned == cleaned.warned
      ensures ch == old(ch) && lastRequest == old(lastRequest) && lastRequestHeaders == old(lastRequestHeaders)
    {
      ParseResponse(raw, headerSize);
      warned := CleanResponse();
      body := lastResponse.text;
    }
  }

  // ---------------------------------------------------------------------
  // Exchanges as a caller sees them

  const ALICE: map<string, Value> := map["user" := Str("alice"), "password" := Str("secret")]
  const ENDPOINT := "http://svc.example/endpoint"

  /** alice's options pass the credential check and keep the default curlopts and flags. */
  lemma AliceOptions()
    ensures !CredentialMissing(ALICE)
    ensures var prepared := PrepareOptions(ALICE);
            && prepared.Ok?
            && prepared.value["curlopts"] == Array(map[])
            && prepared.value["strip_bad_chars"] == Bool(true)
            && prepared.value["warn_on_bad_chars"] == Bool(false)
  {
    assert "curlopts" !in ALICE && "strip_bad_chars" !in ALICE && "warn_on_bad_chars" !in ALICE;
  }

  /** A body without `&` survives cleaning unchanged, whatever the two options say. */
  lemma PlainBodyKept(strip: Value, warn: Value, body: string)
    requires forall i :: 0 <= i < |body| ==> body[i] != '&'
    ensures CleanBody(strip, warn, body) == Cleaned(body, false)
  {
    ScrubSkipsPlainText(body, "");
    assert body + "" == body && Scrub("") == Scrubbed("", 0);
  }

  /**
   * A client for alice answers no response code before its first request.
   * After an exchange the server answers with 200 and a body without `&`,
   * it returns that body, reports 200, and its request-header dump ends
   * with the Expect line.
   */
  method SuccessfulExchange(request: string, location: string, action: string, head: string, payload: string)
    returns (before: Result<int, Error>, body: Result<string, Error>,
             code: Result<int, Error>, dump: Result<string, Error>)
    requires forall i :: 0 <= i < |payload| ==> payload[i] != '&'
    ensures before == Err(BadMethodCall(NO_HANDLE))
    ensures body == Ok(payload)
    ensures code == Ok(200)
    ensures dump.Ok? && |dump.value| >= 21 && dump.value[|dump.value| - 21..] == "Expect: 100-continue\n"
  {
    var created := NtlmSoapClient.Create(ALICE);
    var client := created.value;
    AliceOptions();
    before := client.GetResponseCode();

    assert client.options == PrepareOptions(ALICE).value;
    assert CurlOptions(client.options, action, request).Ok?;
    assert SplitResponse(head + payload, |head|).1 == payload by {
      assert (head + payload)[|head|..] == payload;
    }
    PlainBodyKept(client.options["strip_bad_chars"], client.options["warn_on_bad_chars"], payload);

    var warned;
    body, warned := client.DoRequest(request, location, action, Success(head + payload, |head|, location, 200));
    code := client.GetResponseCode();
    dump := client.GetLastRequestHeaders();
    RequestHeaderDump(action);
  }

  /** When the transfer fails with code 7, the error carries code and message and no response is kept. */
  method FailedExchange() returns (r: Result<string, Error>, response: Field, headers: Field)
    ensures r == Err(Runtime(CURL_ERROR + "couldn't connect", 7))
    ensures response == FalseValue && headers == FalseValue
  {
    var created := NtlmSoapClient.Create(ALICE);
    var client := created.value;
    AliceOptions();
    assert client.options == PrepareOptions(ALICE).value;
    assert client.options["curlopts"].Array?;
    assert CurlOptions(client.options, "DoThing", "<xml request/>").Ok?;
    var warned;
    r, warned := client.DoRequest("<xml request/>", ENDPOINT, "DoThing", Failure(7, "couldn't connect"));
    response, headers := client.lastResponse, client.lastResponseHeaders;
  }

  /**
   * After a request that fails to connect, the client reports code 0 and
   * a retry to the same location reuses the handle.
   */
  method RetryAfterFailure(request: string, action: string) returns (code: Result<int, Error>, kept: bool)
    ensures code == Ok(0) && kept
  {
    var created := NtlmSoapClient.Create(ALICE);
    var client := created.value;
    AliceOptions();
    var r, warned := client.DoRequest(request, ENDPOINT, action, Failure(7, "couldn't connect"));
    code := client.GetResponseCode();
    var first := client.ch;
    r, warned := client.DoRequest(request, ENDPOINT, action, Success("", 0, ENDPOINT, 200));
    kept := client.ch == first;
  }

  /** Two requests to the same location share a handle; a request elsewhere gets a new one. */
  method HandleReuse(request: string, location: string, other: string, action: string)
    returns (kept: bool, replaced: bool)
    requires location != other
    ensures kept && replaced
  {
    var created := NtlmSoapClient.Create(ALICE);
    var client := created.value;
    AliceOptions();
    var outcome := Success("", 0, location, 200);
    var r, warned := client.DoRequest(request, location, action, outcome);
    var first := client.ch;
    r, warned := client.DoRequest(request, location, action, outcome);
    kept := client.ch == first;
    var second := client.ch;
    r, warned := client.DoRequest(request, other, action, outcome);
    replaced := client.ch != second;
  }
}
