/**
 * The checks a query passes before any upstream attempt: the GET `dns`
 * parameter must be non-empty URL-safe base64, a POST must carry the DoH
 * media type and a body of 1 to 512 bytes.
 */
module Validation {
  import opened Types

  /** A character of the class `[A-Za-z0-9_-]`. */
  predicate IsBase64UrlChar(c: char)
  {
    'A' <= c <= 'Z' || 'a' <= c <= 'z' || '0' <= c <= '9' || c == '_' || c == '-'
  }

  /**
   * The anchored pattern `^[A-Za-z0-9_-]+$`: one class character, then the
   * `+` repeats the class until the end of the input.
   */
  function IsValidBase64Url(s: string): (accepted: bool)
    ensures accepted <==> |s| > 0 && forall i :: 0 <= i < |s| ==> IsBase64UrlChar(s[i])
  {
    if |s| == 0 then false
    else if |s| == 1 then IsBase64UrlChar(s[0])
    else
      assert forall i :: 1 <= i < |s| ==> s[i] == s[1..][i - 1];
      IsBase64UrlChar(s[0]) && IsValidBase64Url(s[1..])
  }

  /** Padding and the two symbols of standard base64 are refused wherever they occur. */
  lemma RejectsPaddingAndStandardSymbols(s: string, i: nat)
    requires i < |s| && (s[i] == '=' || s[i] == '+' || s[i] == '/')
    ensures !IsValidBase64Url(s)
  {
  }

  /** The digit for a 6-bit value in the URL-safe alphabet of RFC 4648 section 5. */
  function Base64UrlDigit(v: int): (c: char)
    requires 0 <= v < 64
    ensures IsBase64UrlChar(c)
  {
    if v < 26 then ('A' as int + v) as char
    else if v < 52 then ('a' as int + (v - 26)) as char
    else if v < 62 then ('0' as int + (v - 52)) as char
    else if v == 62 then '-'
    else '_'
  }

  /**
   * Unpadded base64url, how a DoH client writes a DNS message into the
   * `dns` parameter (RFC 8484 section 4.1).
   */
  function EncodeBase64Url(msg: seq<byte>): string
  {
    if |msg| == 0 then ""
    else
      var b0 := msg[0] as int;
      if |msg| == 1 then
        [Base64UrlDigit(b0 / 4), Base64UrlDigit(b0 % 4 * 16)]
      else
        var b1 := msg[1] as int;
        if |msg| == 2 then
          [Base64UrlDigit(b0 / 4), Base64UrlDigit(b0 % 4 * 16 + b1 / 16), Base64UrlDigit(b1 % 16 * 4)]
        else
          var b2 := msg[2] as int;
          [Base64UrlDigit(b0 / 4), Base64UrlDigit(b0 % 4 * 16 + b1 / 16),
           Base64UrlDigit(b1 % 16 * 4 + b2 / 64), Base64UrlDigit(b2 % 64)]
          + EncodeBase64Url(msg[3..])
  }

  lemma {:induction false} EncodingUsesAlphabet(msg: seq<byte>)
    ensures |msg| > 0 ==> |EncodeBase64Url(msg)| > 0
    ensures forall i :: 0 <= i < |EncodeBase64Url(msg)| ==> IsBase64UrlChar(EncodeBase64Url(msg)[i])
  {
    if |msg| > 2 {
      EncodingUsesAlphabet(msg[3..]);
    }
  }

  /** The check never refuses a well-formed query: every encoded non-empty message passes. */
  lemma EncodedQueryIsAccepted(msg: seq<byte>)
    requires |msg| > 0
    ensures IsValidBase64Url(EncodeBase64Url(msg))
  {
    EncodingUsesAlphabet(msg);
  }

  /**
   * The GET checks in the order the handler makes them: a missing or empty
   * parameter, then one outside the alphabet. None means the query passes.
   */
  function CheckDnsParam(dns: Option<string>): (r: Option<Failure>)
    ensures r == None <==> dns.Some? && IsValidBase64Url(dns.value)
    ensures r == Some(MissingDnsParameter) <==> dns == None || dns == Some("")
    ensures r == Some(InvalidDnsParameterFormat) <==> dns.Some? && dns.value != "" && !IsValidBase64Url(dns.value)
  {
    if dns.None? || dns.value == "" then Some(MissingDnsParameter)
    else if !IsValidBase64Url(dns.value) then Some(InvalidDnsParameterFormat)
    else None
  }

  /**
   * The POST checks in order: the Content-Type header must be exactly the
   * DoH media type, then the body must hold 1 to 512 bytes.
   */
  function CheckPostRequest(contentType: Option<string>, body: seq<byte>): (r: Option<Failure>)
    ensures r == None <==> contentType == Some(DnsMessageContentType) && 0 < |body| <= MaxDnsMessageSize
    ensures r == Some(InvalidContentType) <==> contentType != Some(DnsMessageContentType)
    ensures r == Some(InvalidMessageSize) <==>
      contentType == Some(DnsMessageContentType) && (|body| == 0 || |body| > MaxDnsMessageSize)
  {
    if contentType != Some(DnsMessageContentType) then Some(InvalidContentType)
    else if |body| == 0 || |body| > MaxDnsMessageSize then Some(InvalidMessageSize)
    else None
  }
}
