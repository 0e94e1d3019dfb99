/**
 * Request signing for the BingX exchange (a resty before-request hook):
 * POST requests get the API key header, a millisecond timestamp and an
 * HMAC-SHA256 signature of the sorted form.
 */
module BingxAuth {
  import opened Wrappers
  import opened Strings
  import opened Forms

  datatype Credentials = Credentials(apiKey: string, apiSecret: string)

  /** Hex-encoded HMAC-SHA256 (RFC 2104) of a message under a key; outside the model. */
  type Hmac = (string, string) -> string

  /** `Header.Set` stores its key in canonical MIME form, so "X-BX-APIKEY" is kept as this. */
  const ApiKeyHeader := "X-Bx-Apikey"

  /** With two keys, the smaller one's entry comes first and a single "&" separates them. */
  lemma TwoKeysInOrder(form: Values, a: string, b: string)
    requires form.Keys == {a, b}
    requires LexLess(a, b)
    ensures SortedQuery(form) == Entry(form, a) + "&" + Entry(form, b)
  {
    TwoKeysSorted(form, a, b);
    var parts := Entries(form, [a, b]);
    assert parts == [Entry(form, a), Entry(form, b)];
    assert Join(parts, "&") == Join(parts[..1], "&") + "&" + parts[1];
    assert parts[..1] == [Entry(form, a)];
  }

  lemma TwoKeysSorted(form: Values, a: string, b: string)
    requires form.Keys == {a, b}
    requires LexLess(a, b)
    ensures SortedKeys(form) == [a, b]
  {
    LexLessAsymmetric(a, b);
    LexLessIrreflexive(a);
    assert Sorted([a, b]);
    assert multiset([a, b]) == multiset(form.Keys) by {
      assert a != b;
    }
    SortedKeysUnique(form, [a, b]);
  }

  /** Step 2 of `generateSignature`: write each entry, and "&" after every one but the last. */
  method WriteQuery(form: Values, keys: seq<string>) returns (query: string)
    requires forall k :: k in keys ==> k in form
    ensures query == Join(Entries(form, keys), "&")
  {
    query := "";
    var i := 0;
    while i < |keys|
      invariant 0 <= i <= |keys|
      invariant query == if i == 0 then "" else Join(Entries(form, keys[..i]), "&") + (if i < |keys| then "&" else "")
    {
      var entry := keys[i] + "=" + Join(form[keys[i]], ",");
      EntriesSnoc(form, keys, i);
      JoinSnoc(Entries(form, keys[..i]), entry, "&");
      query := query + entry;
      if i < |keys| - 1 {
        query := query + "&";
      }
      i := i + 1;
    }
    assert keys[..i] == keys;
  }

  /** `generateSignature`: sort the keys, write the canonical query, sign it. */
  method GenerateSignature(form: Values, creds: Credentials, hmac: Hmac) returns (sig: string)
    ensures sig == hmac(SortedQuery(form), creds.apiSecret)
  {
    var keys := SortFormKeys(form);
    var query := WriteQuery(form, keys);
    sig := hmac(query, creds.apiSecret);
  }

  /** `sign`: set the API key header and the timestamp, then add the signature
      of the form as it stands, so the signature does not sign itself. */
  method Sign(request: Request, creds: Credentials, nowNanos: nat, hmac: Hmac)
    modifies request
    ensures request.header == old(request.header)[ApiKeyHeader := [creds.apiKey]]
    ensures var stamped := old(request.form)["timestamp" := [DecimalString(nowNanos / 1000000)]];
            request.form == stamped["signature" := [hmac(SortedQuery(stamped), creds.apiSecret)]]
  {
    var header, form := request.header, request.form;
    request.header := header[ApiKeyHeader := [creds.apiKey]];
    var timestamp := nowNanos / 1000000;
    var stamped := form["timestamp" := [DecimalString(timestamp)]];
    request.form := stamped;
    var signature := GenerateSignature(stamped, creds, hmac);
    request.form := stamped["signature" := [signature]];
  }

  /** `authenticate`: only POST requests are signed; it never fails. */
  method Authenticate(request: Request, creds: Credentials, nowNanos: nat, hmac: Hmac) returns (err: Outcome)
    modifies request
    ensures err == Pass
    ensures request.verb != "POST" ==> unchanged(request)
    ensures request.verb == "POST" ==>
      && request.header == old(request.header)[ApiKeyHeader := [creds.apiKey]]
      && var stamped := old(request.form)["timestamp" := [DecimalString(nowNanos / 1000000)]];
         request.form == stamped["signature" := [hmac(SortedQuery(stamped), creds.apiSecret)]]
  {
    if request.verb != "POST" {
      return Pass;
    }
    Sign(request, creds, nowNanos, hmac);
    return Pass;
  }
}
