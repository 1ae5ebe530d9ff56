/**
 * The object-storage service, reduced to what the commands observe: a bucket
 * is the sequence of its objects in the order the service enumerates them, and
 * a prefix query returns the objects whose key starts with the prefix.
 */
module Storage {
  /** One byte of an object's payload. */
  type Byte = bv8
  type Bytes = seq<Byte>

  /** The byte `b'\n'`. */
  const Newline: Byte := 10

  /** An entry of a bucket listing: its key and the bytes a fetch returns. */
  datatype Object = Object(key: string, payload: Bytes)

  /**
   * `bucket.objects.filter(Prefix=prefix)`: the objects whose key starts with
   * `prefix`, in enumeration order.
   */
  function Listing(objects: seq<Object>, prefix: string): (matching: seq<Object>)
    ensures |matching| <= |objects|
    ensures forall o :: o in matching <==> o in objects && prefix <= o.key
  {
    if objects == [] then []
    else if prefix <= objects[0].key then [objects[0]] + Listing(objects[1..], prefix)
    else Listing(objects[1..], prefix)
  }

  /** Filtering keeps enumeration order: the listing of a concatenation is the concatenation of the listings. */
  lemma {:induction false} ListingAppend(a: seq<Object>, b: seq<Object>, prefix: string)
    ensures Listing(a + b, prefix) == Listing(a, prefix) + Listing(b, prefix)
  {
    if a == [] {
      assert a + b == b;
    } else {
      assert (a + b)[1..] == a[1..] + b;
      ListingAppend(a[1..], b, prefix);
    }
  }

  /** The default prefix `''` matches every object, in the order given. */
  lemma {:induction false} ListingEverything(objects: seq<Object>)
    ensures Listing(objects, "") == objects
  {
    if objects != [] {
      ListingEverything(objects[1..]);
    }
  }
}
