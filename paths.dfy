/**
 * Local file names as `download` derives them from object keys and from the
 * bucket and prefix.
 */
module Paths {
  /**
   * `os.path.join(dir, name)`. As a constructor it is injective: two paths are
   * the same exactly when both the directory and the name are.
   */
  datatype Path = Join(dir: string, name: string)

  /** Where the last path segment of `key` starts: just after its last `/`, or at 0 when it has none. */
  function NameStart(key: string): (k: nat)
    ensures k <= |key|
  {
    if key == [] || key[|key| - 1] == '/' then |key|
    else NameStart(key[..|key| - 1])
  }

  /** No `/` follows the start of the last segment, and the start is 0 or just after a `/`. */
  lemma {:induction false} NameStartAfterLastSlash(key: string)
    ensures forall j :: NameStart(key) <= j < |key| ==> key[j] != '/'
    ensures NameStart(key) > 0 ==> key[NameStart(key) - 1] == '/'
  {
    if key != [] && key[|key| - 1] != '/' {
      NameStartAfterLastSlash(key[..|key| - 1]);
    }
  }

  /**
   * `os.path.basename(key)`: the part of the key after its last `/` (all of it
   * when it has none, nothing when it ends in `/`).
   */
  function Basename(key: string): (name: string)
    ensures '/' !in name
  {
    if key == [] || key[|key| - 1] == '/' then []
    else Basename(key[..|key| - 1]) + [key[|key| - 1]]
  }

  /** The basename is the key from the start of its last segment on. */
  lemma {:induction false} BasenameFromNameStart(key: string)
    ensures Basename(key) == key[NameStart(key)..]
  {
    if key != [] && key[|key| - 1] != '/' {
      var init := key[..|key| - 1];
      BasenameFromNameStart(init);
      assert key[NameStart(key)..] == init[NameStart(init)..] + [key[|key| - 1]];
    }
  }

  /** The basename is a suffix of the key, and either the whole key or preceded by `/`. */
  lemma BasenameIsLastSegment(key: string)
    ensures |Basename(key)| <= |key| && Basename(key) == key[|key| - |Basename(key)|..]
    ensures |Basename(key)| < |key| ==> key[|key| - |Basename(key)| - 1] == '/'
  {
    NameStartAfterLastSlash(key);
    BasenameFromNameStart(key);
  }

  /**
   * The three properties in Basename's contract determine it: a slash-free
   * suffix of the key that is the whole key or preceded by `/` is the basename.
   */
  lemma BasenameUnique(key: string, name: string)
    requires '/' !in name
    requires |name| <= |key| && name == key[|key| - |name|..]
    requires |name| < |key| ==> key[|key| - |name| - 1] == '/'
    ensures name == Basename(key)
  {
    NameStartAfterLastSlash(key);
    BasenameFromNameStart(key);
    var k, m := NameStart(key), |key| - |name|;
    if k < m {
      assert false;
    } else if m < k {
      assert false;
    }
  }

  /** A key made of directories and a slash-free file name yields that file name. */
  lemma BasenameOfJoin(dir: string, name: string)
    requires '/' !in name
    ensures Basename(dir + "/" + name) == name
  {
    var key := dir + "/" + name;
    if |name| < |key| {
      assert key[|key| - |name| - 1] == '/';
    }
    BasenameUnique(key, name);
  }

  /** Taking the basename twice changes nothing. */
  lemma BasenameIdempotent(key: string)
    ensures Basename(Basename(key)) == Basename(key)
  {
    var b := Basename(key);
    BasenameUnique(b, b);
  }

  /** `s.replace('/', '__')`. */
  function ReplaceSlashes(s: string): (r: string)
    ensures '/' !in r
    ensures '/' !in s ==> r == s
  {
    if s == [] then []
    else (if s[0] == '/' then "__" else [s[0]]) + ReplaceSlashes(s[1..])
  }

  /** Replacement works character by character, so it distributes over concatenation. */
  lemma {:induction false} ReplaceSlashesAppend(a: string, b: string)
    ensures ReplaceSlashes(a + b) == ReplaceSlashes(a) + ReplaceSlashes(b)
  {
    if a == [] {
      assert a + b == b;
    } else {
      assert (a + b)[0] == a[0];
      assert (a + b)[1..] == a[1..] + b;
      ReplaceSlashesAppend(a[1..], b);
    }
  }

  /** Each slash becomes `__`, and the text on both sides of it is replaced on its own. */
  lemma {:induction false} ReplaceSlashesSlash(a: string, b: string)
    ensures ReplaceSlashes(a + "/" + b) == ReplaceSlashes(a) + "__" + ReplaceSlashes(b)
  {
    var rest := "/" + b;
    assert a + "/" + b == a + rest;
    assert rest[0] == '/' && rest[1..] == b;
    ReplaceSlashesAppend(a, rest);
  }

  /** Each slash adds one character: `__` stands in for it. */
  lemma {:induction false} ReplaceSlashesLength(s: string)
    ensures |ReplaceSlashes(s)| == |s| + multiset(s)['/']
  {
    if s != [] {
      ReplaceSlashesLength(s[1..]);
      assert s == [s[0]] + s[1..];
      assert multiset(s) == multiset([s[0]]) + multiset(s[1..]);
    }
  }

  /**
   * The name of the merged file: `bucket + '__' + prefix + '.json'` with every
   * `/` replaced by `__`.
   */
  function MergedFileName(bucket: string, prefix: string): (name: string)
    ensures '/' !in name
  {
    ReplaceSlashes(bucket + "__" + prefix + ".json")
  }

  /**
   * The merged name is the bucket and the prefix, each with its slashes
   * replaced, joined by `__` and followed by `.json`.
   */
  lemma MergedFileNameParts(bucket: string, prefix: string)
    ensures MergedFileName(bucket, prefix) == ReplaceSlashes(bucket) + "__" + ReplaceSlashes(prefix) + ".json"
  {
    ReplaceSlashesAppend(bucket + "__" + prefix, ".json");
    ReplaceSlashesAppend(bucket + "__", prefix);
    ReplaceSlashesAppend(bucket, "__");
  }

  /** Without slashes in bucket or prefix the merged name is the plain concatenation. */
  lemma MergedFileNamePlain(bucket: string, prefix: string)
    requires '/' !in bucket && '/' !in prefix
    ensures MergedFileName(bucket, prefix) == bucket + "__" + prefix + ".json"
  {
  }
}
