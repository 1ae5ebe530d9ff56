/**
 * JSON values as `json.loads` returns them, and the record projection `dump`
 * applies to each row: `{key: row.get(key) for key in keys} if keys else row`.
 *
 * A JSON object becomes a Python dict, which keeps its keys in insertion
 * order; it is modelled as the sequence of its (key, value) entries.
 */
module Records {
  import opened Wrappers

  /** A parsed JSON value; `Null` is Python's `None`, a JSON object is a `Dict`, and a number keeps its literal text. */
  datatype Json =
    | Null
    | Boolean(truth: bool)
    | Number(literal: string)
    | Text(text: string)
    | Array(items: seq<Json>)
    | Dict(fields: Record)

  /** A dict's entries in insertion order. */
  type Record = seq<(string, Json)>

  /** The keys of a record, in order. */
  function Keys(r: Record): seq<string>
  {
    seq(|r|, i requires 0 <= i < |r| => r[i].0)
  }

  /** No string occurs twice. */
  predicate Distinct(ks: seq<string>)
  {
    forall i, j :: 0 <= i < j < |ks| ==> ks[i] != ks[j]
  }

  /** A dict holds each key once. */
  predicate DistinctKeys(r: Record)
  {
    Distinct(Keys(r))
  }

  /** `row.get(key)`: the value stored under `key`, or `None` when there is none. */
  function Get(r: Record, key: string): Json
  {
    if r == [] then Null
    else if r[0].0 == key then r[0].1
    else Get(r[1..], key)
  }

  /** In a dict, `get` returns the value of the one entry with the key, and `None` when there is none. */
  lemma {:induction false} GetSpec(r: Record, key: string)
    requires DistinctKeys(r)
    ensures key !in Keys(r) ==> Get(r, key) == Null
    ensures forall i :: 0 <= i < |r| && r[i].0 == key ==> Get(r, key) == r[i].1
  {
    if r != [] {
      var rest := r[1..];
      assert Keys(r) == [r[0].0] + Keys(rest);
      assert Keys(rest) == Keys(r)[1..];
      if r[0].0 != key {
        GetSpec(rest, key);
        forall i | 1 <= i < |r| && r[i].0 == key ensures Get(r, key) == r[i].1 {
          assert rest[i - 1] == r[i];
        }
      } else {
        forall i | 1 <= i < |r| ensures r[i].0 != key {
          assert Keys(r)[0] != Keys(r)[i];
        }
      }
    }
  }

  /** `d[key] = value`: replaces the value of a present key in place, otherwise appends the entry. */
  function Put(r: Record, key: string, value: Json): Record
  {
    if r == [] then [(key, value)]
    else if r[0].0 == key then [(key, value)] + r[1..]
    else [r[0]] + Put(r[1..], key, value)
  }

  /** Storing under a key keeps the order of the keys already present and adds a new key at the end. */
  lemma {:induction false} PutKeys(r: Record, key: string, value: Json)
    ensures Keys(Put(r, key, value)) == if key in Keys(r) then Keys(r) else Keys(r) + [key]
  {
    if r != [] {
      assert Keys(r) == [r[0].0] + Keys(r[1..]);
      if r[0].0 != key {
        PutKeys(r[1..], key, value);
        assert Keys(Put(r, key, value)) == [r[0].0] + Keys(Put(r[1..], key, value));
      } else {
        assert Keys(Put(r, key, value)) == [key] + Keys(r[1..]);
      }
    }
  }

  /** After storing, the key holds the stored value and every other key its old one. */
  lemma {:induction false} PutGet(r: Record, key: string, value: Json)
    ensures Get(Put(r, key, value), key) == value
    ensures forall k :: k != key ==> Get(Put(r, key, value), k) == Get(r, k)
  {
    if r != [] && r[0].0 != key {
      PutGet(r[1..], key, value);
    }
  }

  /** Storing keeps a dict's keys distinct. */
  lemma PutDistinct(r: Record, key: string, value: Json)
    requires DistinctKeys(r)
    ensures DistinctKeys(Put(r, key, value))
  {
    PutKeys(r, key, value);
  }

  /** The dict comprehension over a key list: one `d[key] = row.get(key)` per key, in list order. */
  function Collect(row: Record, keys: seq<string>): Record
  {
    if keys == [] then []
    else
      var key := keys[|keys| - 1];
      Put(Collect(row, keys[..|keys| - 1]), key, Get(row, key))
  }

  /** The projected record holds each requested key once, and no other key. */
  lemma {:induction false} CollectKeys(row: Record, keys: seq<string>)
    ensures DistinctKeys(Collect(row, keys))
    ensures forall k :: k in Keys(Collect(row, keys)) <==> k in keys
  {
    if keys != [] {
      var init := keys[..|keys| - 1];
      var key := keys[|keys| - 1];
      CollectKeys(row, init);
      PutKeys(Collect(row, init), key, Get(row, key));
      PutDistinct(Collect(row, init), key, Get(row, key));
      assert keys == init + [key];
    }
  }

  /** Each requested key is mapped to the row's value for it, or to `None` when the row lacks it. */
  lemma {:induction false} CollectValues(row: Record, keys: seq<string>)
    ensures forall k :: k in keys ==> Get(Collect(row, keys), k) == Get(row, k)
  {
    if keys != [] {
      var init := keys[..|keys| - 1];
      var key := keys[|keys| - 1];
      CollectValues(row, init);
      PutGet(Collect(row, init), key, Get(row, key));
      assert keys == init + [key];
    }
  }

  /** The position of the first occurrence of `k`. */
  function FirstIndex(keys: seq<string>, k: string): (i: nat)
    requires k in keys
    ensures i < |keys| && keys[i] == k && k !in keys[..i]
  {
    if keys[0] == k then 0
    else
      var i := FirstIndex(keys[1..], k);
      assert keys[..i + 1] == [keys[0]] + keys[1..][..i];
      i + 1
  }

  /** A prefix of the key list has the same first occurrences. */
  lemma FirstIndexPrefix(keys: seq<string>, n: nat, k: string)
    requires n <= |keys| && k in keys[..n]
    ensures FirstIndex(keys[..n], k) == FirstIndex(keys, k)
  {
    var i, j := FirstIndex(keys[..n], k), FirstIndex(keys, k);
    if i < j {
      assert false;
    } else if j < i {
      assert false;
    }
  }

  /** Keys in first-occurrence order of a key list. */
  predicate InFirstOccurrenceOrder(c: seq<string>, keys: seq<string>)
  {
    forall i, j :: 0 <= i < j < |c| ==>
      c[i] in keys && c[j] in keys && FirstIndex(keys, c[i]) < FirstIndex(keys, c[j])
  }

  /**
   * Keys in first-occurrence order of a key list stay so when one more key
   * is listed, with that key added at the end when it is new.
   */
  lemma OrderExtend(init: seq<string>, key: string, b: seq<string>)
    requires InFirstOccurrenceOrder(b, init)
    requires forall x :: x in b <==> x in init
    ensures InFirstOccurrenceOrder(if key in b then b else b + [key], init + [key])
  {
    var keys, n := init + [key], |init|;
    var c := if key in b then b else b + [key];
    assert keys[..n] == init;
    forall x | x in init ensures FirstIndex(keys, x) == FirstIndex(init, x) < n {
      FirstIndexPrefix(keys, n, x);
    }
    forall i, j | 0 <= i < j < |c|
      ensures c[i] in keys && c[j] in keys && FirstIndex(keys, c[i]) < FirstIndex(keys, c[j])
    {
      assert c[i] == b[i] && b[i] in b;
      if j < |b| {
        assert c[j] == b[j] && b[j] in b;
      } else {
        assert FirstIndex(keys, key) == n;
      }
    }
  }

  /** The keys of the projected record come in the order of their first occurrence in the key list. */
  lemma {:induction false} CollectOrder(row: Record, keys: seq<string>)
    ensures InFirstOccurrenceOrder(Keys(Collect(row, keys)), keys)
  {
    if keys != [] {
      var n := |keys| - 1;
      var init, key := keys[..n], keys[n];
      var before := Collect(row, init);
      var b := Keys(before);
      CollectOrder(row, init);
      CollectKeys(row, init);
      OrderExtend(init, key, b);
      assert Collect(row, keys) == Put(before, key, Get(row, key));
      PutKeys(before, key, Get(row, key));
      assert keys == init + [key];
    }
  }

  /** Projecting a record on all of its own keys, in order, gives it back unchanged. */
  lemma {:induction false} CollectOwnKeys(row: Record, n: nat)
    requires DistinctKeys(row) && n <= |row|
    ensures Collect(row, Keys(row)[..n]) == row[..n]
  {
    if n > 0 {
      var keys := Keys(row)[..n];
      assert keys[..n - 1] == Keys(row)[..n - 1];
      CollectOwnKeys(row, n - 1);
      var key := row[n - 1].0;
      assert Keys(row[..n - 1]) == Keys(row)[..n - 1];
      assert Keys(row)[n - 1] == key;
      var prev := Keys(row[..n - 1]);
      forall i | 0 <= i < n - 1 ensures prev[i] != key {
        assert prev[i] == Keys(row)[i];
      }
      GetSpec(row, key);
      PutAppends(row[..n - 1], key, Get(row, key));
      assert row[..n] == row[..n - 1] + [row[n - 1]];
    }
  }

  /** Storing under a key not yet present appends the entry. */
  lemma {:induction false} PutAppends(r: Record, key: string, value: Json)
    requires key !in Keys(r)
    ensures Put(r, key, value) == r + [(key, value)]
  {
    if r != [] {
      assert Keys(r) == [r[0].0] + Keys(r[1..]);
      PutAppends(r[1..], key, value);
      assert r == [r[0]] + r[1..];
    }
  }

  /**
   * `{key: row.get(key) for key in keys} if keys else row`. With no keys the
   * row is shown as it is, whatever it is; with keys it must be a dict, since
   * `row.get` fails on anything else.
   */
  function Project(row: Json, keys: seq<string>): Option<Json>
  {
    if keys == [] then Some(row)
    else if row.Dict? then Some(Dict(Collect(row.fields, keys)))
    else None
  }

  /**
   * Projection with keys yields a dict with exactly the distinct requested
   * keys, in first-occurrence order, each holding the row's value or `None`;
   * without keys it yields the row unchanged; it fails only on a non-dict
   * row with keys.
   */
  lemma ProjectSpec(row: Json, keys: seq<string>)
    ensures keys == [] ==> Project(row, keys) == Some(row)
    ensures Project(row, keys) == None <==> keys != [] && !row.Dict?
    ensures keys != [] && row.Dict? ==>
      Project(row, keys).Some? && Project(row, keys).value.Dict? &&
      var fields := Project(row, keys).value.fields;
      DistinctKeys(fields) &&
      (forall k :: k in Keys(fields) <==> k in keys) &&
      InFirstOccurrenceOrder(Keys(fields), keys) &&
      (forall k :: k in keys ==> Get(fields, k) == Get(row.fields, k))
  {
    if keys != [] && row.Dict? {
      CollectKeys(row.fields, keys);
      CollectValues(row.fields, keys);
      CollectOrder(row.fields, keys);
    }
  }

  /** Projecting a dict on all of its own keys, in order, shows it unchanged. */
  lemma ProjectOwnKeys(row: Json)
    requires row.Dict? && DistinctKeys(row.fields)
    ensures Project(row, Keys(row.fields)) == Some(row)
  {
    var fields := row.fields;
    CollectOwnKeys(fields, |fields|);
    assert Keys(fields)[..|fields|] == Keys(fields);
    assert fields[..|fields|] == fields;
  }
}
