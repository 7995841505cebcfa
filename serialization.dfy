/**
 * What a `ModelSerializer` does with the data a client sends: only the
 * declared fields that are not read-only reach the validated data.
 */
module Serialization {

  /**
   * The part of `data` a serializer with these `fields` and read-only
   * fields accepts: read-only and undeclared keys are dropped, every other
   * key keeps its value.
   */
  function AcceptedInput<V>(data: map<string, V>, fields: set<string>, readOnly: set<string>): (r: map<string, V>)
    ensures r.Keys !! readOnly
    ensures r.Keys <= fields && r.Keys <= data.Keys
    ensures forall f :: f in data && f in fields && f !in readOnly ==> f in r && r[f] == data[f]
  {
    map f | f in data && f in fields && f !in readOnly :: data[f]
  }
}
