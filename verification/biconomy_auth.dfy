/**
 * Request signing for the Biconomy exchange (a resty before-request hook):
 * POST requests get `api_key` in the form and an upper-cased MD5 signature
 * of the sorted form followed by the secret.
 */
module BiconomyAuth {
  import opened Wrappers
  import opened Strings
  import opened Forms

  datatype Credentials = Credentials(apiKey: string, apiSecret: string)

  /** Hex-encoded MD5 digest (RFC 1321); outside the model. */
  type Md5 = string -> string

  /** The string that is hashed: every `key=v1,v2` entry in increasing key order,
      each followed by "&", then `secret_key=` and the secret. */
  ghost function SignaturePayload(form: Values, secret: string): (r: string)
    ensures var suffix := "secret_key=" + secret;
            |r| >= |suffix| && r[|r| - |suffix|..] == suffix
  {
    var prefix := Terminated(Entries(form, SortedKeys(form)), "&");
    var suffix := "secret_key=" + secret;
    assert (prefix + suffix)[|prefix|..] == suffix;
    prefix + suffix
  }

  /** The payload is the "&"-joined listing (as BingX signs it) plus one more "&",
      then the secret; an empty form leaves only the secret part. */
  lemma PayloadIsQueryThenSecret(form: Values, secret: string)
    ensures SignaturePayload(form, secret) ==
            (if form == map[] then "" else SortedQuery(form) + "&") + "secret_key=" + secret
  {
    var keys := SortedKeys(form);
    if form == map[] {
      SortedUnique(keys, []);
    } else {
      var k :| k in form;
      SortedKeysAreTheKeys(form);
      assert k in keys;
      TerminatedIsJoinedPlusSeparator(Entries(form, keys), "&");
    }
  }

  /** Step 2 of `generateSignature`: write each entry followed by "&". */
  method WriteEntries(form: Values, keys: seq<string>) returns (query: string)
    requires forall k :: k in keys ==> k in form
    ensures query == Terminated(Entries(form, keys), "&")
  {
    query := "";
    var i := 0;
    while i < |keys|
      invariant 0 <= i <= |keys|
      invariant query == Terminated(Entries(form, keys[..i]), "&")
    {
      var entry := keys[i] + "=" + Join(form[keys[i]], ",");
      EntriesSnoc(form, keys, i);
      TerminatedSnoc(Entries(form, keys[..i]), entry, "&");
      query := query + entry + "&";
      i := i + 1;
    }
    assert keys[..i] == keys;
  }

  /** `generateSignature`: sort the keys, write the entries, append the secret,
      hash, upper-case. */
  method GenerateSignature(form: Values, creds: Credentials, md5: Md5) returns (sig: string)
    ensures sig == ToUpper(md5(SignaturePayload(form, creds.apiSecret)))
    ensures forall i :: 0 <= i < |sig| ==> !IsLowerAscii(sig[i])
  {
    var keys := SortFormKeys(form);
    var query := WriteEntries(form, keys);
    assert query + "secret_key=" + creds.apiSecret == query + ("secret_key=" + creds.apiSecret);
    query := query + "secret_key=" + creds.apiSecret;
    sig := ToUpper(md5(query));
  }

  /** `addSignatureAuthentication`: only POST requests are signed; `api_key` is
      set before signing and `sign` after, so `sign` is not itself signed. */
  method AddSignatureAuthentication(request: Request, creds: Credentials, md5: Md5) returns (err: Outcome)
    modifies request
    ensures err == Pass
    ensures request.verb != "POST" ==> unchanged(request)
    ensures request.verb == "POST" ==>
      && request.header == old(request.header)
      && var keyed := old(request.form)["api_key" := [creds.apiKey]];
         request.form == keyed["sign" := [ToUpper(md5(SignaturePayload(keyed, creds.apiSecret)))]]
  {
    if request.verb == "POST" {
      var keyed := request.form["api_key" := [creds.apiKey]];
      assert keyed == old(request.form)["api_key" := [creds.apiKey]];
      request.form := keyed;
      var signature := GenerateSignature(keyed, creds, md5);
      assert signature == ToUpper(md5(SignaturePayload(keyed, creds.apiSecret)));
      request.form := keyed["sign" := [signature]];
      assert request.header == old(request.header);
    }
    return Pass;
  }
}
