/** JavaScript objects used as dictionaries (`Record<string, number>`):
    an ordered list of entries, since `Object.entries` yields keys in
    insertion order and assigning an existing key keeps its position. */
module Records {
  import opened Options

  datatype Entry = Entry(key: string, value: real)

  type Record = seq<Entry>

  function Keys(r: Record): set<string> {
    set e | e in r :: e.key
  }

  /** No key occurs twice, as in every object the source builds. */
  ghost predicate Keyed(r: Record) {
    forall i, j :: 0 <= i < j < |r| ==> r[i].key != r[j].key
  }

  /** `obj[k]`, with `None` for `undefined`. */
  function Lookup(r: Record, k: string): (v: Option<real>)
    ensures v.Some? <==> k in Keys(r)
    ensures v.Some? ==> Entry(k, v.value) in r
  {
    if r == [] then None
    else if r[0].key == k then Some(r[0].value)
    else Lookup(r[1..], k)
  }

  /** In a keyed record every entry is what its key looks up. */
  lemma {:induction false} LookupEntry(r: Record, i: nat)
    requires Keyed(r) && i < |r|
    ensures Lookup(r, r[i].key) == Some(r[i].value)
  {
    if i > 0 {
      assert r[0].key != r[i].key;
      LookupEntry(r[1..], i - 1);
    }
  }

  /** `obj[k] = v`: an existing key keeps its place and takes the new
      value, a new key is appended. */
  function Put(r: Record, k: string, v: real): (r': Record)
    ensures Keys(r') == Keys(r) + {k}
    ensures Lookup(r', k) == Some(v)
    ensures forall k' :: k' != k ==> Lookup(r', k') == Lookup(r, k')
    decreases |r|
  {
    if r == [] then [Entry(k, v)]
    else if r[0].key == k then [Entry(k, v)] + r[1..]
    else
      var t := Put(r[1..], k, v);
      KeysConcat([r[0]], t);
      KeysConcat([r[0]], r[1..]);
      assert [r[0]] + r[1..] == r;
      [r[0]] + t
  }

  lemma KeysConcat(a: Record, b: Record)
    ensures Keys(a + b) == Keys(a) + Keys(b)
  {
    forall x | x in Keys(a + b) ensures x in Keys(a) + Keys(b) {
      var e :| e in a + b && e.key == x;
    }
    forall x | x in Keys(a) + Keys(b) ensures x in Keys(a + b) {
      if x in Keys(a) {
        var e :| e in a && e.key == x;
        assert e in a + b;
      } else {
        var e :| e in b && e.key == x;
        assert e in a + b;
      }
    }
  }

  lemma KeysCons(r: Record)
    requires r != []
    ensures Keys(r) == {r[0].key} + Keys(r[1..])
  {
    KeysConcat([r[0]], r[1..]);
    assert [r[0]] + r[1..] == r;
  }

  /** A new key goes last. */
  lemma {:induction false} PutAppends(r: Record, k: string, v: real)
    requires k !in Keys(r)
    ensures Put(r, k, v) == r + [Entry(k, v)]
  {
    if r != [] {
      KeysCons(r);
      PutAppends(r[1..], k, v);
      assert Put(r, k, v) == [r[0]] + Put(r[1..], k, v);
      assert [r[0]] + (r[1..] + [Entry(k, v)]) == r + [Entry(k, v)];
    }
  }

  /** Assigning an existing key changes no length. */
  lemma {:induction false} PutKeepsLength(r: Record, k: string, v: real)
    requires k in Keys(r)
    ensures |Put(r, k, v)| == |r|
  {
    if r[0].key != k {
      assert k in Keys(r[1..]) by {
        KeysConcat([r[0]], r[1..]);
        assert [r[0]] + r[1..] == r;
      }
      PutKeepsLength(r[1..], k, v);
    }
  }

  /** Assignment never creates a duplicate key. */
  lemma {:induction false} PutKeyed(r: Record, k: string, v: real)
    requires Keyed(r)
    ensures Keyed(Put(r, k, v))
  {
    if r != [] {
      KeyedTail(r);
      if r[0].key == k {
        ConsKeyed(Entry(k, v), r[1..]);
      } else {
        PutKeyed(r[1..], k, v);
        ConsKeyed(r[0], Put(r[1..], k, v));
      }
    }
  }

  lemma KeyedTail(r: Record)
    requires Keyed(r) && r != []
    ensures Keyed(r[1..]) && r[0].key !in Keys(r[1..])
  {
    forall i, j | 0 <= i < j < |r| - 1 ensures r[1..][i].key != r[1..][j].key {
      assert r[1..][i] == r[i + 1] && r[1..][j] == r[j + 1];
    }
    forall e | e in r[1..] ensures e.key != r[0].key {
      var i :| 0 <= i < |r| - 1 && r[1..][i] == e;
      assert r[i + 1] == e;
    }
  }

  lemma ConsKeyed(e: Entry, t: Record)
    requires Keyed(t) && e.key !in Keys(t)
    ensures Keyed([e] + t)
  {
    var u := [e] + t;
    forall i, j | 0 <= i < j < |u| ensures u[i].key != u[j].key {
      if i == 0 {
        assert u[j] == t[j - 1] && t[j - 1] in t;
      } else {
        assert u[i] == t[i - 1] && u[j] == t[j - 1];
      }
    }
  }

  /** An entry after an assignment was there before or is the new one. */
  lemma {:induction false} PutEntries(r: Record, k: string, v: real, e: Entry)
    requires e in Put(r, k, v)
    ensures e in r || e == Entry(k, v)
  {
    if r != [] && r[0].key != k {
      if e != r[0] {
        assert e in Put(r[1..], k, v);
        PutEntries(r[1..], k, v, e);
      }
    } else if r != [] {
      assert e == Entry(k, v) || e in r[1..];
    }
  }

  /** In a keyed record an entry's key is not among the keys before it. */
  lemma KeyedPrefixLacks(r: Record, n: nat)
    requires Keyed(r) && 0 < n <= |r|
    ensures r[n - 1].key !in Keys(r[..n - 1])
  {
  }
}
