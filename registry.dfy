/** The focusable registry: a JavaScript `Map<string, any>` from key to entry
    (components/SpatialNavigationCompat.tsx, registerFocusable and
    unregisterFocusable). Iteration order matters to the resolver, so the map
    is an ordered sequence of registrations with distinct keys. */
module Registry {
  import opened Options

  /** Identifies one callback passed in by a view; invoking it is modelled
      by recording this identifier. */
  type Action = nat

  /** The `props` a view registers: its optional select/focus/blur callbacks. */
  datatype Entry = Entry(onSelect: Option<Action>, onFocus: Option<Action>, onBlur: Option<Action>)

  datatype Registration = Registration(key: string, entry: Entry)

  /** The keys in iteration order. */
  function Keys(m: seq<Registration>): (ks: seq<string>)
    ensures |ks| == |m|
    ensures forall i | 0 <= i < |m| :: ks[i] == m[i].key
  {
    seq(|m|, i requires 0 <= i < |m| => m[i].key)
  }

  /** `Map.has`. */
  predicate Has(m: seq<Registration>, key: string) {
    key in Keys(m)
  }

  predicate UniqueKeys(m: seq<Registration>) {
    forall i, j | 0 <= i < j < |m| :: m[i].key != m[j].key
  }

  /** Position of `key` in iteration order, if present. */
  function IndexOf(m: seq<Registration>, key: string): (r: Option<nat>)
    ensures r.None? <==> !Has(m, key)
    ensures r.Some? ==> r.value < |m| && m[r.value].key == key
    ensures r.Some? ==> forall j | 0 <= j < r.value :: m[j].key != key
  {
    if m == [] then None
    else if m[0].key == key then Some(0)
    else
      match IndexOf(m[1..], key)
      case None => None
      case Some(i) => Some(i + 1)
  }

  /** The first occurrence of a key is the one IndexOf reports. */
  lemma IndexOfFirst(m: seq<Registration>, key: string, i: nat)
    requires i < |m| && m[i].key == key
    requires forall j | 0 <= j < i :: m[j].key != key
    ensures IndexOf(m, key) == Some(i)
  {
  }

  /** `Map.get`. */
  function Lookup(m: seq<Registration>, key: string): (r: Option<Entry>)
    ensures r.Some? <==> Has(m, key)
    ensures UniqueKeys(m) ==> forall e :: r == Some(e) <==> Registration(key, e) in m
  {
    match IndexOf(m, key)
    case Some(i) => Some(m[i].entry)
    case None => None
  }

  /** `Map.set`: an existing key is overwritten where it stands, a new key
      is appended. */
  function Put(m: seq<Registration>, key: string, entry: Entry): (r: seq<Registration>)
    ensures Keys(r) == if Has(m, key) then Keys(m) else Keys(m) + [key]
    ensures UniqueKeys(m) ==> UniqueKeys(r)
  {
    match IndexOf(m, key)
    case Some(i) => m[i := Registration(key, entry)]
    case None => m + [Registration(key, entry)]
  }

  /** Reference definition of deleting a key from a key sequence: keep every
      other key, in order. */
  function Without(ks: seq<string>, key: string): seq<string> {
    if ks == [] then []
    else (if ks[0] == key then [] else [ks[0]]) + Without(ks[1..], key)
  }

  lemma {:induction false} WithoutAppend(a: seq<string>, b: seq<string>, key: string)
    ensures Without(a + b, key) == Without(a, key) + Without(b, key)
  {
    if a == [] {
      assert a + b == b;
    } else {
      assert (a + b)[1..] == a[1..] + b;
      WithoutAppend(a[1..], b, key);
    }
  }

  lemma {:induction false} WithoutAbsent(ks: seq<string>, key: string)
    requires key !in ks
    ensures Without(ks, key) == ks
  {
    if ks != [] {
      WithoutAbsent(ks[1..], key);
    }
  }

  lemma KeysAppend(a: seq<Registration>, b: seq<Registration>)
    ensures Keys(a + b) == Keys(a) + Keys(b)
  {
  }

  /** Cutting out the only occurrence of `key` leaves exactly the other
      keys, in their order. */
  lemma RemoveAtKeys(m: seq<Registration>, key: string, i: nat)
    requires i < |m| && m[i].key == key
    ensures UniqueKeys(m) ==> UniqueKeys(m[..i] + m[i + 1..])
    ensures UniqueKeys(m) ==> Keys(m[..i] + m[i + 1..]) == Without(Keys(m), key)
  {
    if UniqueKeys(m) {
      RemoveAtUnique(m, i);
      RemoveAtKeysUnique(m, key, i);
    }
  }

  lemma RemoveAtKeysUnique(m: seq<Registration>, key: string, i: nat)
    requires i < |m| && m[i].key == key && UniqueKeys(m)
    ensures Keys(m[..i] + m[i + 1..]) == Without(Keys(m), key)
  {
    var a, b := Keys(m[..i]), Keys(m[i + 1..]);
    SplitKeys(m, i);
    calc {
      Without(Keys(m), key);
      Without(a + [key] + b, key);
      { WithoutAppend(a + [key], b, key); }
      Without(a + [key], key) + Without(b, key);
      { WithoutAppend(a, [key], key); }
      Without(a, key) + Without([key], key) + Without(b, key);
      { assert Without([key], key) == []; WithoutAbsent(a, key); WithoutAbsent(b, key); }
      a + b;
      { KeysAppend(m[..i], m[i + 1..]); }
      Keys(m[..i] + m[i + 1..]);
    }
  }

  lemma RemoveAtUnique(m: seq<Registration>, i: nat)
    requires i < |m| && UniqueKeys(m)
    ensures UniqueKeys(m[..i] + m[i + 1..])
  {
    var r := m[..i] + m[i + 1..];
    forall j: int, l: int | 0 <= j < l < |r| ensures r[j].key != r[l].key {
      var j', l' := if j < i then j else j + 1, if l < i then l else l + 1;
      assert r[j] == m[j'] && r[l] == m[l'];
    }
  }

  lemma SplitKeys(m: seq<Registration>, i: nat)
    requires i < |m| && UniqueKeys(m)
    ensures Keys(m) == Keys(m[..i]) + [m[i].key] + Keys(m[i + 1..])
    ensures m[i].key !in Keys(m[..i]) && m[i].key !in Keys(m[i + 1..])
  {
  }

  /** `Map.delete`: drops the entry for `key`, keeping the order of the rest. */
  function Remove(m: seq<Registration>, key: string): (r: seq<Registration>)
    ensures UniqueKeys(m) ==> UniqueKeys(r) && Keys(r) == Without(Keys(m), key)
    ensures !Has(m, key) ==> r == m
  {
    match IndexOf(m, key)
    case Some(i) =>
      RemoveAtKeys(m, key, i);
      m[..i] + m[i + 1..]
    case None =>
      WithoutAbsent(Keys(m), key);
      m
  }

  /** After `Put`, the key maps to the new entry and every other key keeps
      its entry. */
  /** Under distinct keys, deleting a key leaves no registration for it. */
  lemma RemoveDropsKey(m: seq<Registration>, key: string)
    ensures UniqueKeys(m) ==> !Has(Remove(m, key), key)
  {
    if UniqueKeys(m) {
      RemoveLookup(m, key, key);
    }
  }

  lemma PutLookup(m: seq<Registration>, key: string, entry: Entry, k: string)
    ensures Lookup(Put(m, key, entry), k) == if k == key then Some(entry) else Lookup(m, k)
  {
    var r := Put(m, key, entry);
    match IndexOf(m, key)
    case Some(i) =>
      if k == key {
        IndexOfFirst(r, k, i);
      } else if Has(m, k) {
        IndexOfFirst(r, k, IndexOf(m, k).value);
      } else {
        assert !Has(r, k);
      }
    case None =>
      if k == key {
        IndexOfFirst(r, k, |m|);
      } else if Has(m, k) {
        IndexOfFirst(r, k, IndexOf(m, k).value);
      } else {
        assert !Has(r, k);
      }
  }

  /** After `Remove`, the key is gone and every other key keeps its entry. */
  lemma RemoveLookup(m: seq<Registration>, key: string, k: string)
    requires UniqueKeys(m)
    ensures Lookup(Remove(m, key), k) == if k == key then None else Lookup(m, k)
  {
    match IndexOf(m, key)
    case None =>
    case Some(i) =>
      if k == key {
        RemovedKeyGone(m, i);
      } else {
        RemoveKeepsOther(m, i, k);
      }
  }

  lemma RemovedKeyGone(m: seq<Registration>, i: nat)
    requires UniqueKeys(m) && i < |m|
    ensures !Has(m[..i] + m[i + 1..], m[i].key)
  {
    var r := m[..i] + m[i + 1..];
    forall j | 0 <= j < |r| ensures r[j].key != m[i].key {
      if j < i { assert r[j] == m[j]; } else { assert r[j] == m[j + 1]; }
    }
  }

  lemma RemoveKeepsOther(m: seq<Registration>, i: nat, k: string)
    requires UniqueKeys(m) && i < |m| && m[i].key != k
    ensures Lookup(m[..i] + m[i + 1..], k) == Lookup(m, k)
  {
    var r := m[..i] + m[i + 1..];
    if Has(m, k) {
      var p := IndexOf(m, k).value;
      var p' := if p < i then p else p - 1;
      assert r[p'] == m[p];
      forall j | 0 <= j < p' ensures r[j].key != k {
        if j < i { assert r[j] == m[j]; } else { assert r[j] == m[j + 1]; }
      }
      IndexOfFirst(r, k, p');
    } else {
      forall j | 0 <= j < |r| ensures r[j].key != k {
        if j < i { assert r[j] == m[j]; } else { assert r[j] == m[j + 1]; }
      }
    }
  }
}
