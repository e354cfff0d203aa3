/** The subset of org.bson.Document the command builders rely on: a document
    is an insertion-ordered map from keys to values (a LinkedHashMap in the
    driver), written here as an association list. `Put` is both
    `new Document(k, v)` and `append(k, v)`: a new key goes to the end, an
    existing key keeps its position and takes the new value. */
module Bson {
  import opened Wrappers

  datatype Value =
    | Str(s: string)
    | Int32(i: int)
    | Double(d: real)
    | Bool(b: bool)
    | Array(items: seq<Value>)
    | Nested(doc: Document)

  datatype Field = Field(key: string, value: Value)

  datatype Document = Document(fields: seq<Field>)

  /** The keys of a field list, in order. */
  function KeysOf(fs: seq<Field>): (ks: seq<string>)
    ensures |ks| == |fs|
    ensures forall i | 0 <= i < |fs| :: ks[i] == fs[i].key
    decreases |fs|
  {
    if |fs| == 0 then [] else [fs[0].key] + KeysOf(fs[1..])
  }

  function Keys(d: Document): seq<string> {
    KeysOf(d.fields)
  }

  /** No key occurs twice: what a map-backed document always satisfies. */
  predicate DistinctKeys(d: Document) {
    forall i, j | 0 <= i < j < |d.fields| :: d.fields[i].key != d.fields[j].key
  }

  /** The value stored under `key` in a field list (its first occurrence). */
  function Lookup(fs: seq<Field>, key: string): (r: Option<Value>)
    ensures r.Some? <==> key in KeysOf(fs)
    decreases |fs|
  {
    if |fs| == 0 then None
    else if fs[0].key == key then Some(fs[0].value)
    else Lookup(fs[1..], key)
  }

  /** Document.get(key): the value under `key`, or None (Java null) when absent. */
  function Get(d: Document, key: string): Option<Value> {
    Lookup(d.fields, key)
  }

  /** LinkedHashMap.put on a field list. */
  function PutField(fs: seq<Field>, key: string, v: Value): (r: seq<Field>)
    ensures Lookup(r, key) == Some(v)
    ensures forall k | k != key :: Lookup(r, k) == Lookup(fs, k)
    ensures key in KeysOf(fs) ==> KeysOf(r) == KeysOf(fs)
    ensures key !in KeysOf(fs) ==> KeysOf(r) == KeysOf(fs) + [key]
    decreases |fs|
  {
    if |fs| == 0 then [Field(key, v)]
    else if fs[0].key == key then
      ReplaceHead(fs, Field(key, v));
      [Field(key, v)] + fs[1..]
    else
      var rest := PutField(fs[1..], key, v);
      PutFieldBehindHead(fs, key, v, rest);
      [fs[0]] + rest
  }

  /** Putting a key behind a head field with another key: the head stays in front and the
      framing of the tail carries over to the whole list. */
  lemma PutFieldBehindHead(fs: seq<Field>, key: string, v: Value, rest: seq<Field>)
    requires |fs| > 0 && fs[0].key != key
    requires Lookup(rest, key) == Some(v)
    requires forall k | k != key :: Lookup(rest, k) == Lookup(fs[1..], k)
    requires key in KeysOf(fs[1..]) ==> KeysOf(rest) == KeysOf(fs[1..])
    requires key !in KeysOf(fs[1..]) ==> KeysOf(rest) == KeysOf(fs[1..]) + [key]
    ensures Lookup([fs[0]] + rest, key) == Some(v)
    ensures forall k | k != key :: Lookup([fs[0]] + rest, k) == Lookup(fs, k)
    ensures key in KeysOf(fs) ==> KeysOf([fs[0]] + rest) == KeysOf(fs)
    ensures key !in KeysOf(fs) ==> KeysOf([fs[0]] + rest) == KeysOf(fs) + [key]
  {
    assert [fs[0]] + fs[1..] == fs;
    LookupCons(fs[0], rest);
    LookupCons(fs[0], fs[1..]);
    KeysBehindHead(fs, key, rest);
  }

  /** The key-order half of PutFieldBehindHead. */
  lemma KeysBehindHead(fs: seq<Field>, key: string, rest: seq<Field>)
    requires |fs| > 0 && fs[0].key != key
    requires key in KeysOf(fs[1..]) ==> KeysOf(rest) == KeysOf(fs[1..])
    requires key !in KeysOf(fs[1..]) ==> KeysOf(rest) == KeysOf(fs[1..]) + [key]
    ensures key in KeysOf(fs) ==> KeysOf([fs[0]] + rest) == KeysOf(fs)
    ensures key !in KeysOf(fs) ==> KeysOf([fs[0]] + rest) == KeysOf(fs) + [key]
  {
    KeysOfCons(fs[0], rest);
    KeysOfCons(fs[0], fs[1..]);
    assert [fs[0]] + fs[1..] == fs;
    var head, tail := [fs[0].key], KeysOf(fs[1..]);
    assert KeysOf(fs) == head + tail;
    assert key in KeysOf(fs) <==> key in tail;
    if key !in tail {
      assert head + (tail + [key]) == (head + tail) + [key];
    }
  }

  /** Looking up a key in a field list with one more field in front. */
  lemma LookupCons(f: Field, fs: seq<Field>)
    ensures forall k :: Lookup([f] + fs, k) == if f.key == k then Some(f.value) else Lookup(fs, k)
  {
    assert ([f] + fs)[1..] == fs;
  }

  /** The keys of a field list with one more field in front. */
  lemma KeysOfCons(f: Field, fs: seq<Field>)
    ensures KeysOf([f] + fs) == [f.key] + KeysOf(fs)
  {
    assert ([f] + fs)[1..] == fs;
  }

  /** Replacing the head field by one with the same key keeps the key order and
      changes only that key's value. */
  lemma ReplaceHead(fs: seq<Field>, f: Field)
    requires |fs| > 0 && fs[0].key == f.key
    ensures forall k | k != f.key :: Lookup([f] + fs[1..], k) == Lookup(fs, k)
    ensures KeysOf([f] + fs[1..]) == KeysOf(fs)
  {
    LookupCons(f, fs[1..]);
    LookupCons(fs[0], fs[1..]);
    KeysOfCons(f, fs[1..]);
    KeysOfCons(fs[0], fs[1..]);
    assert [fs[0]] + fs[1..] == fs;
  }

  /** Document.append / Document.put: the new value is found under its key,
      every other key keeps its value, and the key order grows only by a new
      key at the end. */
  function Put(d: Document, key: string, v: Value): (r: Document)
    ensures Get(r, key) == Some(v)
    ensures forall k | k != key :: Get(r, k) == Get(d, k)
    ensures key in Keys(d) ==> Keys(r) == Keys(d)
    ensures key !in Keys(d) ==> Keys(r) == Keys(d) + [key]
    ensures DistinctKeys(d) ==> DistinctKeys(r)
  {
    var r := Document(PutField(d.fields, key, v));
    assert Keys(r) == KeysOf(r.fields);
    r
  }

  /** new Document(): no fields. */
  function Empty(): Document {
    Document([])
  }

  /** new Document(key, value): a document with the one entry. */
  function Of(key: string, v: Value): Document {
    Put(Empty(), key, v)
  }

  /** Arrays.asList over strings, as a BSON array. */
  function StrArray(ss: seq<string>): (r: Value)
    ensures r.Array? && |r.items| == |ss|
    ensures forall i | 0 <= i < |ss| :: r.items[i] == Str(ss[i])
  {
    Array(seq(|ss|, i requires 0 <= i < |ss| => Str(ss[i])))
  }

  /** Arrays.asList over documents, as a BSON array. */
  function DocArray(ds: seq<Document>): (r: Value)
    ensures r.Array? && |r.items| == |ds|
    ensures forall i | 0 <= i < |ds| :: r.items[i] == Nested(ds[i])
  {
    Array(seq(|ds|, i requires 0 <= i < |ds| => Nested(ds[i])))
  }
}
