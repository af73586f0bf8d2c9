/**
 * The JavaScript object semantics both serialisers rely on: `result[k] = v`
 * on a plain object. Assigning to an existing own key replaces its value in
 * place (the key keeps its insertion position); assigning to a new key adds
 * it after all others. The key `"__proto__"` is the exception: assigning it
 * goes to the inherited prototype setter, and the model adds no own member.
 * (JavaScript does add one once the object's prototype chain no longer holds
 * that setter, as after assigning `null` to `"__proto__"`; this is not modelled.)
 */
module JsObject {
  import opened Types

  /** The key whose assignment sets the prototype instead of an own member. */
  const ProtoKey := "__proto__"

  /** The own keys of an object, in insertion order. */
  function KeySeq(ms: seq<Member>): seq<string> {
    if ms == [] then [] else [ms[0].key] + KeySeq(ms[1..])
  }

  /** The own keys of an object, as a set. */
  function Keys(ms: seq<Member>): set<string> {
    if ms == [] then {} else {ms[0].key} + Keys(ms[1..])
  }

  /** The key set is exactly the set of entries of the key sequence. */
  lemma {:induction false} KeysOfKeySeq(ms: seq<Member>)
    ensures Keys(ms) == set k | k in KeySeq(ms)
  {
    if ms != [] {
      KeysOfKeySeq(ms[1..]);
      assert KeySeq(ms) == [ms[0].key] + KeySeq(ms[1..]);
    }
  }

  predicate DistinctKeys(ms: seq<Member>) {
    ms == [] || (ms[0].key !in Keys(ms[1..]) && DistinctKeys(ms[1..]))
  }

  /** Own-property read `o[k]`: the value stored under `k`, if any. */
  function Get(ms: seq<Member>, k: string): (r: Option<Json>)
    ensures r.Some? <==> k in Keys(ms)
    ensures r.Some? ==> Member(k, r.value) in ms
  {
    if ms == [] then None
    else if ms[0].key == k then Some(ms[0].value)
    else Get(ms[1..], k)
  }

  /** Property write `o[k] = v`. */
  function Put(ms: seq<Member>, k: string, v: Json): (r: seq<Member>)
    ensures k == ProtoKey ==> r == ms
    ensures k != ProtoKey ==> Keys(r) == Keys(ms) + {k} && Get(r, k) == Some(v)
    ensures forall k' :: k' != k ==> Get(r, k') == Get(ms, k')
  {
    if k == ProtoKey then ms
    else if ms == [] then [Member(k, v)]
    else if ms[0].key == k then
      var r := [Member(k, v)] + ms[1..];
      assert r[1..] == ms[1..];
      r
    else
      var r := [ms[0]] + Put(ms[1..], k, v);
      assert r[1..] == Put(ms[1..], k, v);
      r
  }

  /** Writing keeps an object's keys distinct. */
  lemma {:induction false} PutDistinct(ms: seq<Member>, k: string, v: Json)
    requires DistinctKeys(ms)
    ensures DistinctKeys(Put(ms, k, v))
  {
    var r := Put(ms, k, v);
    if ms != [] && k != ProtoKey {
      if ms[0].key == k {
        assert r[1..] == ms[1..];
      } else {
        PutDistinct(ms[1..], k, v);
        assert r[1..] == Put(ms[1..], k, v);
      }
    }
  }

  /**
   * In insertion order: writing an existing key (or `"__proto__"`) keeps the
   * key sequence; writing a new key adds it last.
   */
  lemma {:induction false} PutKeySeq(ms: seq<Member>, k: string, v: Json)
    ensures KeySeq(Put(ms, k, v)) ==
            if k == ProtoKey || k in Keys(ms) then KeySeq(ms) else KeySeq(ms) + [k]
  {
    var r := Put(ms, k, v);
    if ms != [] && k != ProtoKey {
      if ms[0].key != k {
        PutKeySeq(ms[1..], k, v);
        assert r[1..] == Put(ms[1..], k, v);
      } else {
        assert r[1..] == ms[1..];
      }
    }
  }
}
