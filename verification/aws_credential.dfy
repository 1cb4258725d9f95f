/** Reading an AWS credential issued by Vault into the bytes of a Kubernetes secret.
    Vault's answer is a JSON object, so each field holds an arbitrary JSON value; only
    strings can be stored, a null field is skipped, and any other value is an error. */
module AwsCredential {
  import opened Wrappers
  import opened Meta

  /** A field of Vault's answer: null, a string, or any other JSON value. */
  datatype Value = Null | Str(s: string) | Other

  datatype ParseError = ValueNotString

  /** The fields of the answer as secret data. */
  function ParseCredential(data: map<string, Value>): (r: Result<map<string, Bytes>, ParseError>)
    ensures r.Success? <==> forall k :: k in data ==> !data[k].Other?
    ensures r.Success? ==> forall k :: k in data ==>
      && (data[k].Null? ==> k !in r.value)
      && (data[k].Str? ==> k in r.value && r.value[k] == ToBytes(data[k].s))
    ensures r.Success? ==> r.value.Keys <= data.Keys
  {
    if exists k :: k in data && data[k].Other? then Failure(ValueNotString)
    else Success(map k | k in data && data[k].Str? :: ToBytes(data[k].s))
  }

  /** Secret data written back as an answer of string fields. */
  function Render(m: map<string, Bytes>): (data: map<string, Value>)
    ensures data.Keys == m.Keys
    ensures forall k :: k in data ==> data[k] == Str(FromBytes(m[k]))
  {
    map k | k in m :: Str(FromBytes(m[k]))
  }

  /** Secret data survives being rendered as an answer and parsed again. */
  lemma ParseRenderRoundTrip(m: map<string, Bytes>)
    ensures ParseCredential(Render(m)) == Success(m)
  {
    var r := ParseCredential(Render(m));
    assert r.Success?;
    assert r.value.Keys == m.Keys;
    forall k | k in m
      ensures r.value[k] == m[k]
    {
      assert r.value[k] == ToBytes(FromBytes(m[k]));
    }
    assert r.value == m;
  }

  /** Null fields make no difference: dropping them parses to the same result. */
  lemma NullFieldsIgnored(data: map<string, Value>)
    ensures ParseCredential(data) == ParseCredential(map k | k in data && !data[k].Null? :: data[k])
  {
    var data' := map k | k in data && !data[k].Null? :: data[k];
    var r, r' := ParseCredential(data), ParseCredential(data');
    if r.Success? {
      assert r'.Success?;
      assert r.value.Keys == r'.value.Keys;
      forall k | k in r.value
        ensures r.value[k] == r'.value[k]
      {
        assert data[k] == data'[k];
      }
      assert r.value == r'.value;
    } else {
      var k :| k in data && data[k].Other?;
      assert k in data';
    }
  }

  /** The three answers of the unit test: a null security key, a string one, and one
      that is a JSON object. */
  lemma SecurityKeyCases()
    ensures ParseCredential(map["access_key" := Str("hi"), "secret_key" := Str("hello"), "security_key" := Null])
         == Success(map["access_key" := ToBytes("hi"), "secret_key" := ToBytes("hello")])
    ensures ParseCredential(map["access_key" := Str("hi"), "secret_key" := Str("hello"), "security_key" := Str("bye")])
         == Success(map["access_key" := ToBytes("hi"), "secret_key" := ToBytes("hello"), "security_key" := ToBytes("bye")])
    ensures ParseCredential(map["access_key" := Str("hi"), "secret_key" := Str("hello"), "security_key" := Other])
         == Failure(ValueNotString)
  {
    var d1 := map["access_key" := Str("hi"), "secret_key" := Str("hello"), "security_key" := Null];
    assert ParseCredential(d1).value.Keys == {"access_key", "secret_key"};
    assert ParseCredential(d1).value == map["access_key" := ToBytes("hi"), "secret_key" := ToBytes("hello")];
    var d2 := map["access_key" := Str("hi"), "secret_key" := Str("hello"), "security_key" := Str("bye")];
    assert ParseCredential(d2).value.Keys == {"access_key", "secret_key", "security_key"};
    assert ParseCredential(d2).value == map["access_key" := ToBytes("hi"), "secret_key" := ToBytes("hello"), "security_key" := ToBytes("bye")];
    var d3 := map["access_key" := Str("hi"), "secret_key" := Str("hello"), "security_key" := Other];
    assert d3["security_key"].Other?;
  }
}
