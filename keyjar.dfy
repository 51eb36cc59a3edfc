/**
 * The handle-indexed key store: a table from nonzero 64-bit handles to entries
 * that own a copy of a secret key, a label and an access counter.
 */
module KeyJars {
  import opened Common

  /** `key_handle_t`. */
  type Handle = uint64

  /** Handle 0 is reserved as the invalid handle. */
  const InvalidHandle: Handle := 0

  /** `SecureKeyEntry`; `tag` is its label. A `SecretKey` is a value, so an entry never aliases its caller's key. */
  datatype Entry = Entry(key: SecretKey, tag: string, accessCount: uint64)

  /** The `SecureKeyEntry` constructor; the tag defaults to the empty string. */
  function NewEntry(key: SecretKey, tag: string := ""): (e: Entry)
    ensures e.key == key && e.tag == tag
    ensures e.accessCount == 0
  {
    Entry(key, tag, 0)
  }

  /** `access_count++` on a `uint64_t`: adds one, wrapping to 0 past `UINT64_MAX`. */
  function Bump(c: uint64): (r: uint64)
    ensures c < UINT64_MAX ==> r == c + 1
    ensures c == UINT64_MAX ==> r == 0
  {
    (c + 1) % UINT64_LIMIT
  }

  /** A handle `generateHandle` may return for a table with keys `used`. */
  predicate Issuable(used: set<Handle>, h: Handle) {
    h != InvalidHandle && h !in used
  }

  /** The handles `1 .. n - 1`. */
  ghost function Range(n: nat): set<int>
    decreases n
  {
    if n <= 1 then {} else Range(n - 1) + {n - 1}
  }

  lemma {:induction false} RangeFacts(n: nat)
    ensures n >= 1 ==> |Range(n)| == n - 1
    ensures forall x :: 1 <= x < n ==> x in Range(n)
    decreases n
  {
    if n > 1 {
      RangeFacts(n - 1);
      if n - 1 in Range(n - 1) {
        RangeBounds(n - 1, n - 1);
      }
    }
  }

  lemma {:induction false} RangeBounds(n: nat, x: int)
    requires x in Range(n)
    ensures 1 <= x < n
    decreases n
  {
    if n > 1 && x != n - 1 {
      RangeBounds(n - 1, x);
    }
  }

  lemma SubsetSize(a: set<int>, b: set<int>)
    requires a <= b
    ensures |a| <= |b|
  {
    assert b == a + (b - a);
  }

  /** A table with fewer than `UINT64_MAX` entries leaves some nonzero handle free. */
  lemma FreeHandleExists(used: set<Handle>)
    requires |used| < UINT64_MAX
    ensures exists h: Handle :: Issuable(used, h)
  {
    if forall h: Handle :: !Issuable(used, h) {
      var u: set<int> := set h: Handle | h in used;
      RangeFacts(UINT64_LIMIT);
      assert Range(UINT64_LIMIT) <= u by {
        forall x | x in Range(UINT64_LIMIT) ensures x in u {
          RangeBounds(UINT64_LIMIT, x);
          var h: Handle := x;
          assert !Issuable(used, h);
        }
      }
      assert u == used;
      SubsetSize(Range(UINT64_LIMIT), u);
      assert false;
    }
  }

  class KeyJar {
    /** `keys_`: at most one entry per handle. */
    var keys: map<Handle, Entry>
    /** `next_handle_`: initialised to 1 and never read or written afterwards. */
    var nextHandle: Handle

    ghost predicate Valid()
      reads this
    {
      InvalidHandle !in keys && nextHandle == 1
    }

    /** An empty jar. */
    constructor ()
      ensures Valid() && keys == map[]
    {
      keys := map[];
      nextHandle := 1;
    }

    /**
     * `generateHandle`: some nonzero handle not currently in the table. The
     * random draw is a nondeterministic choice; a removed handle may be chosen again.
     */
    method GenerateHandle() returns (h: Handle)
      requires |keys| < UINT64_MAX
      ensures Issuable(keys.Keys, h)
    {
      FreeHandleExists(keys.Keys);
      h :| Issuable(keys.Keys, h);
    }

    /** `cleanupUnusedKeys`: no policy is implemented, so nothing is removed. */
    method CleanupUnusedKeys()
      modifies this
      ensures keys == old(keys) && nextHandle == old(nextHandle)
    {
    }

    /** `storeKey`: a fresh handle naming a new entry for `key`; nothing else changes. */
    method StoreKey(key: SecretKey, tag: string := "") returns (h: Handle)
      requires Valid()
      requires |keys| < UINT64_MAX
      modifies this
      ensures Valid()
      ensures Issuable(old(keys).Keys, h)
      ensures keys == old(keys)[h := NewEntry(key, tag)]
      ensures |keys| == |old(keys)| + 1
    {
      h := GenerateHandle();
      keys := keys[h := NewEntry(key, tag)];
      CleanupUnusedKeys();
    }

    /** `getKey`: the key under `h` and one more access, or null with nothing changed. */
    method GetKey(h: Handle) returns (k: Option<SecretKey>)
      requires Valid()
      modifies this
      ensures Valid()
      ensures h !in old(keys) ==> k == None && keys == old(keys)
      ensures h in old(keys) ==>
        && k == Some(old(keys)[h].key)
        && keys == old(keys)[h := old(keys)[h].(accessCount := Bump(old(keys)[h].accessCount))]
      ensures keys.Keys == old(keys).Keys
    {
      if h !in keys {
        return None;
      }
      var e := keys[h];
      keys := keys[h := e.(accessCount := Bump(e.accessCount))];
      k := Some(e.key);
    }

    /** `removeKey`: erases the entry under `h`, reporting whether there was one. */
    method RemoveKey(h: Handle) returns (removed: bool)
      requires Valid()
      modifies this
      ensures Valid()
      ensures removed == (h in old(keys))
      ensures keys == old(keys) - {h}
    {
      removed := h in keys;
      keys := keys - {h};
    }
  }

  /** The function-local static behind `KeyJar::instance()`, built on first use. */
  class Process {
    var jar: KeyJar?

    ghost predicate Valid()
      reads this, jar
    {
      jar != null ==> jar.Valid()
    }

    constructor ()
      ensures Valid() && jar == null
    {
      jar := null;
    }

    /** `instance()`: the jar built on the first call, and that same jar on every later one. */
    method Instance() returns (j: KeyJar)
      requires Valid()
      modifies this
      ensures Valid() && j.Valid() && jar == j
      ensures old(jar) != null ==> j == old(jar)
      ensures old(jar) == null ==> fresh(j) && j.keys == map[]
    {
      if jar == null {
        jar := new KeyJar();
      }
      j := jar;
    }
  }

  /** Two calls of `instance()` return the same jar. */
  method InstanceIsStable(p: Process) returns (a: KeyJar, b: KeyJar)
    requires p.Valid()
    modifies p
    ensures a == b
  {
    a := p.Instance();
    b := p.Instance();
  }

  /** Storing one key twice gives two handles and two entries: there is no deduplication. */
  method StoreTwice(jar: KeyJar, key: SecretKey, tag: string) returns (h1: Handle, h2: Handle)
    requires jar.Valid() && |jar.keys| < UINT64_MAX - 1
    modifies jar
    ensures jar.Valid()
    ensures h1 != h2 && h1 !in old(jar.keys) && h2 !in old(jar.keys)
    ensures jar.keys == old(jar.keys)[h1 := NewEntry(key, tag)][h2 := NewEntry(key, tag)]
    ensures |jar.keys| == |old(jar.keys)| + 2
  {
    h1 := jar.StoreKey(key, tag);
    h2 := jar.StoreKey(key, tag);
  }

  /**
   * After `removeKey(h)`, `getKey(h)` returns null, and a nonzero `h` is again
   * a handle `generateHandle` may issue.
   */
  method RemoveThenGet(jar: KeyJar, h: Handle) returns (k: Option<SecretKey>)
    requires jar.Valid()
    modifies jar
    ensures jar.Valid()
    ensures k == None
    ensures jar.keys == old(jar.keys) - {h}
    ensures h != InvalidHandle ==> Issuable(jar.keys.Keys, h)
  {
    var _ := jar.RemoveKey(h);
    k := jar.GetKey(h);
  }
}
