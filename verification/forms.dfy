/**
 * Form data of an outgoing HTTP request, as the signing hooks see it
 * (Go's `url.Values` inside a resty request), and the canonical
 * `key=v1,v2` listing that both exchanges sign.
 */
module Forms {
  import opened Strings

  /** `url.Values`: each key maps to its list of values. */
  type Values = map<string, seq<string>>

  /** One `key=v1,v2` entry of the canonical listing; a key that is not there
      reads as no values, as indexing `url.Values` does. */
  function Entry(form: Values, key: string): (r: string)
    ensures |r| > |key| && r[..|key|] == key && r[|key|] == '='
  {
    key + "=" + Join(if key in form then form[key] else [], ",")
  }

  /** The entries of `keys`, in the order given. */
  function Entries(form: Values, keys: seq<string>): (r: seq<string>)
    ensures |r| == |keys|
    ensures forall i :: 0 <= i < |keys| ==> r[i] == Entry(form, keys[i])
  {
    seq(|keys|, i requires 0 <= i < |keys| => Entry(form, keys[i]))
  }

  lemma EntriesSnoc(form: Values, keys: seq<string>, i: nat)
    requires i < |keys|
    ensures Entries(form, keys[..i + 1]) == Entries(form, keys[..i]) + [Entry(form, keys[i])]
  {
  }

  /** Some listing of a set of keys, each once, in no particular order
      (the order in which Go happens to range over a map). */
  ghost function Enumerate(ks: set<string>): (xs: seq<string>)
    ensures multiset(xs) == multiset(ks)
  {
    if ks == {} then []
    else
      var k :| k in ks;
      assert ks == (ks - {k}) + {k};
      Enumerate(ks - {k}) + [k]
  }

  /** The keys of `form` in increasing order. */
  ghost function SortedKeys(form: Values): (keys: seq<string>)
    ensures Sorted(keys)
    ensures multiset(keys) == multiset(form.Keys)
  {
    Sort(Enumerate(form.Keys))
  }

  /** The sorted key list holds exactly the form's keys. */
  lemma SortedKeysAreTheKeys(form: Values)
    ensures forall k :: k in SortedKeys(form) <==> k in form
  {
    var keys := SortedKeys(form);
    assert forall k :: k in keys <==> k in multiset(form.Keys);
  }

  /** Whatever order the keys were collected in, sorting them gives `SortedKeys`. */
  lemma SortedKeysUnique(form: Values, keys: seq<string>)
    requires Sorted(keys)
    requires multiset(keys) == multiset(form.Keys)
    ensures keys == SortedKeys(form)
  {
    SortedUnique(keys, SortedKeys(form));
  }

  /** The string BingX signs: the entries of every key, in increasing key order,
      joined with "&", with nothing after the last one; empty only for an empty form. */
  ghost function SortedQuery(form: Values): (r: string)
    ensures r == "" <==> form == map[]
  {
    var keys := SortedKeys(form);
    var parts := Entries(form, keys);
    assert |keys| == |multiset(form.Keys)| == |form.Keys|;
    assert form == map[] <==> |form.Keys| == 0 by {
      if |form.Keys| == 0 {
        assert forall k :: k !in form.Keys;
      } else {
        var k :| k in form.Keys;
      }
    }
    assert |parts| > 0 ==> TotalLength(parts) >= |parts[|parts| - 1]| > 0;
    Join(parts, "&")
  }

  /** Ranging over the form's keys and appending each: every key once, in an
      order the map chooses. */
  method CollectKeys(form: Values) returns (keys: seq<string>)
    ensures multiset(keys) == multiset(form.Keys)
  {
    keys := [];
    var rest := form.Keys;
    while rest != {}
      invariant rest <= form.Keys
      invariant multiset(keys) + multiset(rest) == multiset(form.Keys)
      decreases rest
    {
      var k :| k in rest;
      assert rest == (rest - {k}) + {k};
      keys := keys + [k];
      rest := rest - {k};
    }
  }

  /** Step 1 of both signers: collect the keys of the form and sort them. */
  method SortFormKeys(form: Values) returns (keys: seq<string>)
    ensures keys == SortedKeys(form)
    ensures forall k :: k in keys <==> k in form
  {
    keys := CollectKeys(form);
    keys := SortStrings(keys);
    SortedKeysUnique(form, keys);
    SortedKeysAreTheKeys(form);
  }

  /** The fields of a resty request that the signing hooks read and write. */
  class Request {
    const verb: string
    var header: map<string, seq<string>>
    var form: Values

    constructor (verb: string, header: map<string, seq<string>>, form: Values)
      ensures this.verb == verb && this.header == header && this.form == form
    {
      this.verb := verb;
      this.header := header;
      this.form := form;
    }
  }
}
