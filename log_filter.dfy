/** The request-logging filter: after the rest of the chain has run, the
    captured request body is sanitised and logged in one line. Copying the
    cached response back to the client is servlet plumbing and is not
    modelled. */
module LogFilter {
  import opened Errors
  import opened Text

  const TooLarge := "[Body too large or binary]"
  const Hidden := "[HIDDEN SENSITIVE DATA]"
  const Empty := "[Empty]"
  /** The JSON key that marks a body as sensitive, quotes included. */
  const PasswordKey := "\"password\""
  /** Bodies longer than this many characters are not logged. */
  const MaxLogged := 1000
  /** The capture limit of the request wrapper, in bytes. */
  const CaptureLimit := 10

  /** String.contains on a content type. */
  predicate IsMultipart(contentType: Option<string>)
  {
    contentType.Some? && Contains(contentType.value, "multipart")
  }

  /** A string without a double quote cannot contain the password key. */
  lemma NoQuoteNoKey(s: string)
    requires forall i :: 0 <= i < |s| ==> s[i] != '"'
    ensures !Contains(s, PasswordKey)
  {
    assert |PasswordKey| == 10 && PasswordKey[0] == '"';
    forall i | 0 <= i <= |s| - |PasswordKey| ensures !OccursAt(s, PasswordKey, i) {
      assert s[i..i + |PasswordKey|][0] == s[i] != PasswordKey[0];
    }
  }

  /** The text that ends up after "Body:" in the log line. */
  function LoggedBody(body: string, contentType: Option<string>): (r: string)
  {
    var afterSize := if |body| > MaxLogged || IsMultipart(contentType) then TooLarge else body;
    var afterKey := if Contains(afterSize, PasswordKey) then Hidden else afterSize;
    if afterKey == [] then Empty else afterKey
  }

  /** What is logged, case by case: an oversized or multipart body is
      replaced, then a body holding the password key is hidden, then an
      empty body is marked; everything else is logged verbatim. The logged
      text never holds the password key. */
  lemma LoggedBodyCases(body: string, contentType: Option<string>)
    ensures var r := LoggedBody(body, contentType);
      ((|body| > MaxLogged || IsMultipart(contentType)) ==> r == TooLarge) &&
      (!(|body| > MaxLogged || IsMultipart(contentType)) && Contains(body, PasswordKey) ==> r == Hidden) &&
      (!(|body| > MaxLogged || IsMultipart(contentType)) && !Contains(body, PasswordKey) && body == [] ==> r == Empty) &&
      (!(|body| > MaxLogged || IsMultipart(contentType)) && !Contains(body, PasswordKey) && body != [] ==> r == body) &&
      !Contains(r, PasswordKey)
  {
    NoQuoteNoKey(TooLarge);
    NoQuoteNoKey(Hidden);
    NoQuoteNoKey(Empty);
  }

  /** Sanitising what was logged once more changes nothing. */
  lemma LoggedBodyIdempotent(body: string, contentType: Option<string>)
    requires !IsMultipart(contentType)
    ensures LoggedBody(LoggedBody(body, contentType), contentType) == LoggedBody(body, contentType)
  {
    LoggedBodyCases(body, contentType);
    LoggedBodyCases(LoggedBody(body, contentType), contentType);
  }

  /** With the wrapper capturing at most ten bytes, and so at most ten
      characters, the size limit never applies: only a multipart content
      type replaces the body. */
  lemma CapturedBodyNeverTooLong(captured: string, contentType: Option<string>)
    requires |captured| <= CaptureLimit && !IsMultipart(contentType)
    ensures LoggedBody(captured, contentType) != TooLarge
  {
    LoggedBodyCases(captured, contentType);
    if Contains(captured, PasswordKey) {
      assert Hidden != TooLarge by { assert Hidden[1] != TooLarge[1]; }
    } else if captured != [] {
      assert |TooLarge| > CaptureLimit;
    }
  }

  /** The sanitising steps of doFilterInternal, reassigning the body as the
      filter does. */
  method SanitizeBody(body: string, contentType: Option<string>) returns (requestBody: string)
    ensures requestBody == LoggedBody(body, contentType)
    ensures !Contains(requestBody, PasswordKey)
  {
    requestBody := body;
    if |requestBody| > MaxLogged || IsMultipart(contentType) {
      requestBody := TooLarge;
    }
    if Contains(requestBody, PasswordKey) {
      requestBody := Hidden;
    }
    if requestBody == [] {
      requestBody := Empty;
    }
    LoggedBodyCases(body, contentType);
  }
}
