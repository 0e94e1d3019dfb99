/**
 * The Bybit client's error patch: the SDK reports a timed-out request as a JSON
 * decoding failure, which is rewritten to name the request and the deadline.
 */
module BybitAdapter {
  import opened Wrappers
  import opened Strings

  datatype RequestInfo = RequestInfo(httpMethod: string, endpoint: string)

  const DecodeFailureMarker := "readObjectStart"

  /** `wrapResponseErrors`: no error stays none; a decoding failure becomes
      `<method> "<endpoint>": context deadline exceeded`; anything else is kept. */
  function WrapResponseErrors(req: RequestInfo, err: Option<string>): (r: Option<string>)
    ensures err.None? ==> r.None?
    ensures err.Some? && Contains(err.value, DecodeFailureMarker) ==>
              r == Some(req.httpMethod + " \"" + req.endpoint + "\": context deadline exceeded")
    ensures err.Some? && !Contains(err.value, DecodeFailureMarker) ==> r == err
  {
    match err
    case None => None
    case Some(e) =>
      if Contains(e, DecodeFailureMarker) then
        Some(req.httpMethod + " \"" + req.endpoint + "\": context deadline exceeded")
      else err
  }

  /** A text contains every text placed inside it. */
  lemma {:induction false} ContainsInfix(before: string, sub: string, after: string)
    ensures Contains(before + sub + after, sub)
    decreases |before|
  {
    var s := before + sub + after;
    if |before| == 0 {
      assert s[..|sub|] == sub;
    } else {
      assert s[1..] == before[1..] + sub + after;
      ContainsInfix(before[1..], sub, after);
    }
  }

  /** Wherever the marker appears in an error, the rewritten message depends only on
      the request, not on the rest of the original text. */
  lemma RewriteIgnoresOriginalText(req: RequestInfo, before1: string, after1: string,
                                   before2: string, after2: string)
    ensures WrapResponseErrors(req, Some(before1 + DecodeFailureMarker + after1))
            == WrapResponseErrors(req, Some(before2 + DecodeFailureMarker + after2))
    ensures WrapResponseErrors(req, Some(before1 + DecodeFailureMarker + after1)).value
            == req.httpMethod + " \"" + req.endpoint + "\": context deadline exceeded"
  {
    ContainsInfix(before1, DecodeFailureMarker, after1);
    ContainsInfix(before2, DecodeFailureMarker, after2);
  }
}
