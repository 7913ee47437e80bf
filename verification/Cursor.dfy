/** The opaque continuation cursor: encoding, strict decoding, and the canonical filter
    fingerprint. Cursor text is modelled by the JSON value it decodes to (or by the fact that it
    does not decode); the hash behind the fingerprint is an arbitrary function. */
module Cursor {
  import opened Schema
  import opened Ordering

  datatype Json = JNull | JBool(b: bool) | JNumber(n: int) | JInfinite | JString(s: string)
                | JArray(items: seq<Json>) | JObject(fields: map<string, Json>)

  /** base64url(JSON) text, or text that is no such thing. */
  datatype Wire = Text(json: Json) | Garbage

  datatype Direction = Asc | Desc

  datatype KeyValue = KNumber(n: int) | KString(s: string)

  datatype Expectation = Expectation(sortBy: string, direction: Direction, fingerprint: string)

  datatype Decoded = Decoded(primary: KeyValue, id: string)

  const CURSOR_VERSION: int := 1

  function DirectionText(d: Direction): string { if d == Asc then "asc" else "desc" }

  function KeyJson(k: KeyValue): Json {
    match k case KNumber(n) => JNumber(n) case KString(s) => JString(s)
  }

  function EncodeCursor(sortBy: string, direction: Direction, primary: KeyValue, id: string, fingerprint: string)
    : Wire
  {
    Text(JObject(map["v" := JNumber(CURSOR_VERSION), "s" := JString(sortBy), "d" := JString(DirectionText(direction)),
                     "k" := JArray([KeyJson(primary), JString(id)]), "f" := JString(fingerprint)]))
  }

  predicate FieldIs(fields: map<string, Json>, name: string, value: Json) {
    name in fields && fields[name] == value
  }

  /** Validation of an untrusted cursor against this request; None is the 400 answer. */
  function DecodeCursor(cursor: Wire, expected: Expectation): Option<Decoded> {
    match cursor
    case Text(JObject(fields)) =>
      if !FieldIs(fields, "v", JNumber(CURSOR_VERSION)) then None
      else if !FieldIs(fields, "s", JString(expected.sortBy))
              || !FieldIs(fields, "d", JString(DirectionText(expected.direction))) then None
      else if !FieldIs(fields, "f", JString(expected.fingerprint)) then None
      else if "k" !in fields || !fields["k"].JArray? || |fields["k"].items| != 2 then None
      else
        var primary, id := fields["k"].items[0], fields["k"].items[1];
        if !primary.JString? && !primary.JNumber? then None
        else if !id.JString? || id.s == "" then None
        else Some(Decoded(if primary.JNumber? then KNumber(primary.n) else KString(primary.s), id.s))
    case _ => None
  }

  /** A cursor this server wrote is accepted exactly by requests that agree with it on sort column,
      direction and filter fingerprint, and then yields exactly the key it was written from. */
  lemma {:induction false} RoundTrip(sortBy: string, direction: Direction, primary: KeyValue, id: string,
                                     fingerprint: string, e: Expectation)
    ensures DecodeCursor(EncodeCursor(sortBy, direction, primary, id, fingerprint), e)
            == if e == Expectation(sortBy, direction, fingerprint) && id != "" then Some(Decoded(primary, id)) else None
  {
    assert "asc"[0] != "desc"[0];
    assert DirectionText(e.direction) == DirectionText(direction) <==> e.direction == direction;
  }

  /** Whatever is accepted re-encodes to a cursor that is accepted with the same key: decoding never
      invents a position that the server could not have written. */
  lemma {:induction false} AcceptedIsWritable(cursor: Wire, e: Expectation)
    requires DecodeCursor(cursor, e).Some?
    ensures var d := DecodeCursor(cursor, e).value;
            DecodeCursor(EncodeCursor(e.sortBy, e.direction, d.primary, d.id, e.fingerprint), e) == Some(d)
  {
    var d := DecodeCursor(cursor, e).value;
    RoundTrip(e.sortBy, e.direction, d.primary, d.id, e.fingerprint, e);
  }

  // ---------- filter fingerprint ----------

  /** A filter record in construction order; None stands for undefined and null. */
  type Filters = seq<(string, Option<Json>)>

  predicate DistinctKeys(f: Filters) {
    forall i, j :: 0 <= i < j < |f| ==> f[i].0 != f[j].0
  }

  function Lookup(f: Filters, key: string): Option<Json> {
    if f == [] then None else if f[0].0 == key then f[0].1 else Lookup(f[1..], key)
  }

  function Insert(key: string, sorted: seq<string>): seq<string> {
    if sorted == [] || StrLess(key, sorted[0]) then [key] + sorted else [sorted[0]] + Insert(key, sorted[1..])
  }

  /** Object.keys(filters).sort(). */
  function SortedKeys(f: Filters): seq<string> {
    if f == [] then [] else Insert(f[0].0, SortedKeys(f[1..]))
  }

  /** The entries of the given keys that carry a value, in that order. */
  function Entries(f: Filters, keys: seq<string>): seq<(string, Json)> {
    if keys == [] then []
    else
      var last := keys[|keys| - 1];
      Entries(f, keys[..|keys| - 1]) + match Lookup(f, last) case Some(v) => [(last, v)] case None => []
  }

  function Normalized(f: Filters): seq<(string, Json)> { Entries(f, SortedKeys(f)) }

  /** `hash` is the sha256 prefix of the JSON text of the normalized record. */
  method FilterFingerprint(f: Filters, hash: seq<(string, Json)> -> string) returns (fingerprint: string)
    ensures fingerprint == hash(Normalized(f))
  {
    var normalized: seq<(string, Json)> := [];
    var keys := SortedKeys(f);
    for i := 0 to |keys|
      invariant normalized == Entries(f, keys[..i])
    {
      var value := Lookup(f, keys[i]);
      if value.Some? {
        normalized := normalized + [(keys[i], value.value)];
      }
      assert keys[..i + 1][..i] == keys[..i];
    }
    assert keys[..|keys|] == keys;
    return hash(normalized);
  }

  predicate KeyLess(a: (string, Json), b: (string, Json)) { StrLess(a.0, b.0) }

  lemma {:induction false} KeyLessOrder()
    ensures StrictOrder(KeyLess) && StrictOrder(StrLess)
  {
    forall a: string { StrIrreflexive(a); }
    forall a: string, b: string, c: string | StrLess(a, b) && StrLess(b, c) ensures StrLess(a, c) { StrTrans(a, b, c); }
  }

  lemma {:induction false} InsertSorted(key: string, sorted: seq<string>)
    requires Ascending(sorted, StrLess) && key !in sorted
    ensures Ascending(Insert(key, sorted), StrLess)
    ensures forall k :: k in Insert(key, sorted) <==> k == key || k in sorted
  {
    KeyLessOrder();
    if sorted != [] && !StrLess(key, sorted[0]) {
      StrTotal(key, sorted[0]);
      InsertSorted(key, sorted[1..]);
      assert sorted == [sorted[0]] + sorted[1..];
      var rest := Insert(key, sorted[1..]);
      forall k | k in rest
        ensures StrLess(sorted[0], k)
      {
        if k != key {
          var i :| 0 <= i < |sorted| - 1 && sorted[1..][i] == k;
          assert sorted[i + 1] == k;
        }
      }
    }
  }

  lemma {:induction false} SortedKeysSorted(f: Filters)
    requires DistinctKeys(f)
    ensures Ascending(SortedKeys(f), StrLess)
    ensures forall k :: k in SortedKeys(f) <==> exists i :: 0 <= i < |f| && f[i].0 == k
  {
    if f != [] {
      SortedKeysSorted(f[1..]);
      assert forall i :: 0 <= i < |f| - 1 ==> f[1..][i] == f[i + 1];
      InsertSorted(f[0].0, SortedKeys(f[1..]));
      forall k
        ensures k in SortedKeys(f) <==> exists i :: 0 <= i < |f| && f[i].0 == k
      {
        if k in SortedKeys(f) && k != f[0].0 {
          var i :| 0 <= i < |f| - 1 && f[1..][i].0 == k;
          assert f[i + 1].0 == k;
        }
        if i :| 0 <= i < |f| && f[i].0 == k && k != f[0].0 {
          assert f[1..][i - 1].0 == k;
        }
      }
    }
  }

  lemma {:induction false} LookupHasKey(f: Filters, k: string)
    ensures Lookup(f, k).Some? ==> exists i :: 0 <= i < |f| && f[i].0 == k
  {
    if f != [] && f[0].0 != k {
      LookupHasKey(f[1..], k);
      if Lookup(f, k).Some? {
        var i :| 0 <= i < |f| - 1 && f[1..][i].0 == k;
        assert f[i + 1].0 == k;
      }
    }
  }

  lemma {:induction false} EntriesSorted(f: Filters, keys: seq<string>)
    requires Ascending(keys, StrLess)
    ensures Ascending(Entries(f, keys), KeyLess)
    ensures forall e :: e in Entries(f, keys) <==> e.0 in keys && Lookup(f, e.0) == Some(e.1)
  {
    KeyLessOrder();
    if keys != [] {
      var n := |keys| - 1;
      EntriesSorted(f, keys[..n]);
      assert keys == keys[..n] + [keys[n]];
      forall e | e in Entries(f, keys[..n])
        ensures StrLess(e.0, keys[n])
      {
        var i :| 0 <= i < n && keys[..n][i] == e.0;
        assert StrLess(keys[i], keys[n]);
      }
    }
  }

  /** Filter records that agree on every key that carries a value have one fingerprint, in whatever
      order they were built and whatever absent keys they mention. */
  lemma {:induction false} FingerprintIsCanonical(f: Filters, g: Filters)
    requires DistinctKeys(f) && DistinctKeys(g)
    requires forall k :: Lookup(f, k) == Lookup(g, k)
    ensures Normalized(f) == Normalized(g)
  {
    KeyLessOrder();
    SortedKeysSorted(f);
    SortedKeysSorted(g);
    EntriesSorted(f, SortedKeys(f));
    EntriesSorted(g, SortedKeys(g));
    forall e
      ensures e in Normalized(f) <==> e in Normalized(g)
    {
      LookupHasKey(f, e.0);
      LookupHasKey(g, e.0);
    }
    AscendingUnique(Normalized(f), Normalized(g), KeyLess);
  }

  /** The record carries this value under this key. */
  predicate Carries(f: Filters, k: string, v: Json) {
    exists i :: 0 <= i < |f| && f[i] == (k, Some(v))
  }

  /** The records carry the same values under the same keys. */
  ghost predicate SameFilters(f: Filters, g: Filters) {
    forall k, v :: Carries(f, k, v) <==> Carries(g, k, v)
  }

  lemma {:induction false} LookupCarries(f: Filters, k: string, v: Json)
    requires DistinctKeys(f)
    ensures Lookup(f, k) == Some(v) <==> Carries(f, k, v)
  {
    if f != [] {
      LookupCarries(f[1..], k, v);
      assert forall i :: 0 <= i < |f| - 1 ==> f[1..][i] == f[i + 1];
      if i :| 0 <= i < |f| && f[i] == (k, Some(v)) && f[0].0 != k { assert f[1..][i - 1] == (k, Some(v)); }
    }
  }

  /** The normal form lists exactly what the record carries. */
  lemma {:induction false} NormalFormLists(f: Filters, k: string, v: Json)
    requires DistinctKeys(f)
    ensures (k, v) in Normalized(f) <==> Carries(f, k, v)
  {
    SortedKeysSorted(f);
    EntriesSorted(f, SortedKeys(f));
    LookupHasKey(f, k);
    LookupCarries(f, k, v);
  }

  /** Two records have one normal form exactly when they carry the same values under the same keys. */
  lemma {:induction false} NormalFormIff(f: Filters, g: Filters)
    requires DistinctKeys(f) && DistinctKeys(g)
    ensures Normalized(f) == Normalized(g) <==> SameFilters(f, g)
  {
    forall k, v
      ensures (k, v) in Normalized(f) <==> Carries(f, k, v)
      ensures (k, v) in Normalized(g) <==> Carries(g, k, v)
      ensures Lookup(f, k) == Some(v) <==> Carries(f, k, v)
      ensures Lookup(g, k) == Some(v) <==> Carries(g, k, v)
    {
      NormalFormLists(f, k, v);
      NormalFormLists(g, k, v);
      LookupCarries(f, k, v);
      LookupCarries(g, k, v);
    }
    hide Normalized, Lookup, Carries, DistinctKeys;
    if SameFilters(f, g) {
      forall k
        ensures Lookup(f, k) == Lookup(g, k)
      {
        var a, b := Lookup(f, k), Lookup(g, k);
        if a.Some? { assert Carries(f, k, a.value); } else if b.Some? { assert Carries(g, k, b.value); }
      }
      FingerprintIsCanonical(f, g);
    }
  }

  /** Where the hash tells the two normal forms apart, a cursor written under some filters is accepted exactly by a
      request with the same ones, the same sort column and the same direction. */
  lemma {:induction false} BoundToFilters(sortBy: string, direction: Direction, primary: KeyValue, id: string,
                                          f: Filters, sortBy': string, direction': Direction, g: Filters,
                                          hash: seq<(string, Json)> -> string)
    requires DistinctKeys(f) && DistinctKeys(g) && id != ""
    requires hash(Normalized(f)) == hash(Normalized(g)) ==> Normalized(f) == Normalized(g)
    ensures DecodeCursor(EncodeCursor(sortBy, direction, primary, id, hash(Normalized(f))),
                         Expectation(sortBy', direction', hash(Normalized(g)))).Some?
            <==> sortBy == sortBy' && direction == direction' && SameFilters(f, g)
  {
    RoundTrip(sortBy, direction, primary, id, hash(Normalized(f)),
              Expectation(sortBy', direction', hash(Normalized(g))));
    NormalFormIff(f, g);
    hide Normalized, DecodeCursor, EncodeCursor, SameFilters;
  }
}
