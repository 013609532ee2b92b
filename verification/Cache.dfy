/** The concurrent map library's table, reduced to the one map it stands for. */
module Csmap {
  import opened Wrappers

  class CsMap<K(==), V> {
    var m: map<K, V>

    constructor ()
      ensures m == map[]
    {
      m := map[];
    }

    method Load(key: K) returns (r: Option<V>)
      ensures r == Find(m, key)
    {
      r := Find(m, key);
    }

    method Store(key: K, value: V)
      modifies this
      ensures m == old(m)[key := value]
    {
      m := m[key := value];
    }

    method Delete(key: K)
      modifies this
      ensures m == old(m) - {key}
    {
      m := m - {key};
    }

    method SetIfAbsent(key: K, value: V)
      modifies this
      ensures m == if key in old(m) then old(m) else old(m)[key := value]
    {
      if key !in m {
        m := m[key := value];
      }
    }

    method SetIfPresent(key: K, value: V)
      modifies this
      ensures m == if key in old(m) then old(m)[key := value] else old(m)
    {
      if key in m {
        m := m[key := value];
      }
    }

    method Clear()
      modifies this
      ensures m == map[]
    {
      m := map[];
    }

    /** The keys in the order this Range visits them; nothing is promised about that order. */
    method Range() returns (ks: seq<K>)
      ensures Enumerates(ks, m.Keys)
    {
      var rest := m.Keys;
      ks := [];
      while rest != {}
        invariant forall k :: k in ks ==> k in m && k !in rest
        invariant forall k :: k in m ==> k in ks || k in rest
        invariant rest <= m.Keys
        invariant forall i, j :: 0 <= i < j < |ks| ==> ks[i] != ks[j]
        decreases rest
      {
        var k :| k in rest;
        ks, rest := ks + [k], rest - {k};
      }
    }
  }
}

/** `Cache`: a struct copied by value, holding a possibly nil reference to a shared table. */
module Caches {
  import opened Wrappers
  import opened Csmap

  function Updated<K, V>(m: map<K, V>, key: K, fn: V -> V): map<K, V> {
    if key in m then m[key := fn(m[key])] else m
  }

  datatype Cache<K(==), V> = Cache(inner: CsMap?<K, V>, size: nat) {

    ghost function Contents(): map<K, V>
      reads inner
    {
      if inner == null then map[] else inner.m
    }

    method Load(key: K) returns (r: Option<V>)
      ensures r == Find(Contents(), key)
    {
      if inner == null {
        return None;
      }
      r := inner.Load(key);
    }

    method Count() returns (n: nat)
      ensures n == |Contents()|
    {
      if inner == null {
        return 0;
      }
      n := |inner.m|;
    }

    /** `c` is the receiver afterwards: a nil table is allocated in the receiver alone, never in its copies. */
    method Store(key: K, value: V) returns (c: Cache<K, V>)
      modifies if inner == null then {} else {inner}
      ensures c.size == size && c.inner != null
      ensures if inner == null then fresh(c.inner) else c.inner == inner
      ensures c.Contents() == old(Contents())[key := value]
    {
      c := this;
      if c.inner == null {
        var table := new CsMap<K, V>();
        c := Cache(table, size);
      }
      c.inner.Store(key, value);
    }

    method Delete(key: K)
      modifies if inner == null then {} else {inner}
      ensures Contents() == old(Contents()) - {key}
    {
      if inner == null {
        return;
      }
      inner.Delete(key);
    }

    method Update(key: K, fn: V -> V) returns (r: Option<V>)
      modifies if inner == null then {} else {inner}
      ensures r == if key in old(Contents()) then Some(fn(old(Contents())[key])) else None
      ensures Contents() == Updated(old(Contents()), key, fn)
    {
      if inner == null {
        return None;
      }
      var value := inner.Load(key);
      if value == None {
        return None;
      }
      inner.Store(key, fn(value.value));
      r := Some(fn(value.value));
    }

    method Clear()
      modifies if inner == null then {} else {inner}
      ensures Contents() == map[]
    {
      if inner == null {
        return;
      }
      inner.Clear();
    }

    method SetIfAbsent(key: K, value: V) returns (c: Cache<K, V>)
      modifies if inner == null then {} else {inner}
      ensures c.size == size && c.inner != null
      ensures if inner == null then fresh(c.inner) else c.inner == inner
      ensures c.Contents() == if key in old(Contents()) then old(Contents()) else old(Contents())[key := value]
    {
      c := this;
      if c.inner == null {
        var table := new CsMap<K, V>();
        c := Cache(table, size);
      }
      c.inner.SetIfAbsent(key, value);
    }

    method SetIfPresent(key: K, value: V) returns (c: Cache<K, V>)
      modifies if inner == null then {} else {inner}
      ensures c.size == size && c.inner != null
      ensures if inner == null then fresh(c.inner) else c.inner == inner
      ensures c.Contents() == if key in old(Contents()) then old(Contents())[key := value] else old(Contents())
    {
      c := this;
      if c.inner == null {
        var table := new CsMap<K, V>();
        c := Cache(table, size);
      }
      c.inner.SetIfPresent(key, value);
    }

    method Range() returns (ks: seq<K>)
      ensures Enumerates(ks, Contents().Keys)
    {
      if inner == null {
        return [];
      }
      ks := inner.Range();
    }

    /** The values in the order Range visits their keys: the loop every list accessor of the state runs. */
    method Collect() returns (list: seq<V>, ghost ks: seq<K>)
      ensures Enumerates(ks, Contents().Keys)
      ensures |list| == |ks| && forall i :: 0 <= i < |ks| ==> list[i] == Contents()[ks[i]]
    {
      var keys := Range();
      list, ks := [], keys;
      for i := 0 to |keys|
        invariant |list| == i
        invariant forall j :: 0 <= j < i ==> list[j] == Contents()[keys[j]]
      {
        var entry := Load(keys[i]);
        list := list + [entry.value];
      }
    }
  }
}

/** A variable holding a `Cache` struct. Nothing else keeps a copy, so its table is its own once allocated. */
module CacheVars {
  import opened Wrappers
  import opened Caches

  class CacheVar<K(==), V> {
    var c: Cache<K, V>
    ghost var m: map<K, V>
    ghost var Repr: set<object>

    ghost predicate Valid()
      reads this, Repr
      ensures Valid() ==> this in Repr
    {
      && this in Repr
      && (c.inner != null ==> c.inner in Repr && (c.inner as object) != this)
      && m == c.Contents()
    }

    constructor (size: nat)
      ensures Valid() && fresh(this) && Repr == {this}
      ensures m == map[]
    {
      c := Cache(null, size);
      m := map[];
      Repr := {this};
    }

    method Load(key: K) returns (r: Option<V>)
      requires Valid()
      ensures r == Find(m, key)
    {
      r := c.Load(key);
    }

    method Store(key: K, value: V)
      requires Valid()
      modifies Repr
      ensures Valid() && fresh(Repr - old(Repr))
      ensures m == old(m)[key := value]
    {
      c := c.Store(key, value);
      Repr := Repr + {c.inner};
      m := m[key := value];
    }

    method Delete(key: K)
      requires Valid()
      modifies Repr
      ensures Valid() && Repr == old(Repr)
      ensures m == old(m) - {key}
    {
      c.Delete(key);
      m := m - {key};
    }

    method Update(key: K, fn: V -> V) returns (r: Option<V>)
      requires Valid()
      modifies Repr
      ensures Valid() && Repr == old(Repr)
      ensures r == if key in old(m) then Some(fn(old(m)[key])) else None
      ensures m == Updated(old(m), key, fn)
    {
      r := c.Update(key, fn);
      m := Updated(m, key, fn);
    }

    method SetIfPresent(key: K, value: V)
      requires Valid()
      modifies Repr
      ensures Valid() && fresh(Repr - old(Repr))
      ensures m == if key in old(m) then old(m)[key := value] else old(m)
    {
      c := c.SetIfPresent(key, value);
      Repr := Repr + {c.inner};
      m := if key in m then m[key := value] else m;
    }

    method Range() returns (ks: seq<K>)
      requires Valid()
      ensures Enumerates(ks, m.Keys)
    {
      ks := c.Range();
    }
  }
}

/** `DoubleCache`: a table of `Cache` structs. Its value is the row map `rows`; its tables are shared by handles. */
module DoubleCaches {
  import opened Wrappers
  import opened Csmap
  import opened Caches
  import R = Rows

  class DoubleCache<KA(==), KB(==), V> {
    var inner: Cache<KA, Cache<KB, V>>
    const sizeInner: nat
    ghost var rows: R.Rows<KA, KB, V>
    ghost var Repr: set<object>

    /** Every table is this cache's own, no two rows share one, and `rows` is what the tables hold. */
    ghost predicate Valid()
      reads this, Repr
      ensures Valid() ==> this in Repr
    {
      && this in Repr
      && (inner.inner == null ==> rows == map[])
      && (inner.inner != null ==>
            && inner.inner in Repr
            && rows.Keys == inner.inner.m.Keys
            && (forall a :: a in inner.inner.m && inner.inner.m[a].inner == null ==> rows[a] == R.NoTable)
            && (forall a :: a in inner.inner.m && inner.inner.m[a].inner != null ==>
                  && inner.inner.m[a].inner in Repr
                  && (inner.inner.m[a].inner as object) != this
                  && (inner.inner.m[a].inner as object) != inner.inner
                  && rows[a] == R.Table(inner.inner.m[a].inner.m))
            && (forall a, b :: a in inner.inner.m && b in inner.inner.m && a != b && inner.inner.m[a].inner != null ==>
                  inner.inner.m[a].inner != inner.inner.m[b].inner))
    }

    /** The table behind a row: what a handle obtained from Inner points at. */
    ghost function HandleOf(a: KA): CsMap?<KB, V>
      reads this, Repr
      requires Valid()
    {
      if inner.inner == null || a !in inner.inner.m then null else inner.inner.m[a].inner
    }

    constructor (sizeInner: nat)
      ensures Valid() && fresh(this) && Repr == {this}
      ensures rows == map[]
    {
      inner := Cache(null, 0);
      this.sizeInner := sizeInner;
      rows := map[];
      Repr := {this};
    }

    method Inner(key: KA) returns (r: Option<Cache<KB, V>>)
      requires Valid()
      ensures r.Some? <==> key in rows
      ensures r.Some? ==> r.value.inner == HandleOf(key) && r.value.Contents() == rows[key].Entries()
    {
      r := inner.Load(key);
    }

    method Load(key: KA, subKey: KB) returns (r: Option<V>)
      requires Valid()
      ensures r == R.Lookup(rows, key, subKey)
    {
      var row := inner.Load(key);
      if row == None {
        return None;
      }
      r := row.value.Load(subKey);
    }

    /** Enters a row for a key that has none, with a table nobody else holds, or none at all. */
    method InsertRow(key: KA, row: Cache<KB, V>)
      requires Valid() && key !in rows
      requires row.inner != null ==> row.inner !in Repr
      modifies this, if inner.inner == null then {} else {inner.inner}
      ensures Valid() && fresh(Repr - old(Repr) - (if row.inner == null then {} else {row.inner}))
      ensures rows == old(rows)[key := if row.inner == null then R.NoTable else R.Table(row.inner.m)]
      ensures forall a :: a in old(rows) ==> HandleOf(a) == old(HandleOf(a))
      ensures HandleOf(key) == row.inner
    {
      inner := inner.Store(key, row);
      Repr := Repr + {inner.inner};
      if row.inner == null {
        rows := rows[key := R.NoTable];
      } else {
        rows := rows[key := R.Table(row.inner.m)];
        Repr := Repr + {row.inner};
      }
    }

    method LoadOrNew(key: KA) returns (handle: Cache<KB, V>)
      requires Valid()
      modifies Repr
      ensures Valid() && fresh(Repr - old(Repr))
      ensures rows == R.LoadOrNew(old(rows), key)
      ensures forall a :: a in old(rows) ==> HandleOf(a) == old(HandleOf(a))
      ensures handle.inner == HandleOf(key)
      ensures handle.Contents() == rows[key].Entries()
    {
      var row := inner.Load(key);
      if row != None {
        return row.value;
      }
      handle := Cache(null, sizeInner);
      InsertRow(key, handle);
    }

    /** A store through a handle LoadOrNew or Inner gave out: lost when the handle has no table. */
    method StoreThrough(handle: Cache<KB, V>, ghost key: KA, subKey: KB, value: V)
      requires Valid() && key in rows && handle.inner == HandleOf(key)
      modifies Repr
      ensures Valid() && Repr == old(Repr)
      ensures rows == R.Store(old(rows), key, subKey, value)
      ensures forall a :: a in old(rows) ==> HandleOf(a) == old(HandleOf(a))
    {
      var copy := handle.Store(subKey, value);
      rows := R.Store(rows, key, subKey, value);
    }

    method DeleteThrough(handle: Cache<KB, V>, ghost key: KA, subKey: KB)
      requires Valid() && key in rows && handle.inner == HandleOf(key)
      modifies Repr
      ensures Valid() && Repr == old(Repr)
      ensures rows == R.Delete(old(rows), key, subKey)
      ensures forall a :: a in old(rows) ==> HandleOf(a) == old(HandleOf(a))
    {
      handle.Delete(subKey);
      rows := R.Delete(rows, key, subKey);
    }

    method Store(key: KA, subKey: KB, value: V)
      requires Valid()
      modifies Repr
      ensures Valid() && fresh(Repr - old(Repr))
      ensures rows == R.Store(old(rows), key, subKey, value)
      ensures forall a :: a in old(rows) ==> HandleOf(a) == old(HandleOf(a))
    {
      var row := inner.Load(key);
      if row != None {
        StoreThrough(row.value, key, subKey, value);
      } else {
        var row' := Cache(null, sizeInner).Store(subKey, value);
        InsertRow(key, row');
      }
    }

    method Delete(key: KA, subKey: KB)
      requires Valid()
      modifies Repr
      ensures Valid() && Repr == old(Repr)
      ensures rows == R.Delete(old(rows), key, subKey)
      ensures forall a :: a in old(rows) ==> HandleOf(a) == old(HandleOf(a))
    {
      var row := inner.Load(key);
      if row != None {
        DeleteThrough(row.value, key, subKey);
      }
    }

    method Update(key: KA, subKey: KB, fn: V -> V) returns (r: Option<V>)
      requires Valid()
      modifies Repr
      ensures Valid() && Repr == old(Repr)
      ensures rows == R.Update(old(rows), key, subKey, fn)
      ensures r == match R.Lookup(old(rows), key, subKey) case None => None case Some(v) => Some(fn(v))
      ensures forall a :: a in old(rows) ==> HandleOf(a) == old(HandleOf(a))
    {
      r := None;
      var row := inner.Load(key);
      if row != None {
        r := row.value.Update(subKey, fn);
      }
      rows := R.Update(rows, key, subKey, fn);
    }

    /** The row keys in the order Range visits them. */
    method Range() returns (ks: seq<KA>)
      requires Valid()
      ensures Enumerates(ks, rows.Keys)
    {
      ks := inner.Range();
    }

    method TotalCount() returns (count: nat)
      requires Valid()
      ensures count == |R.Flat(rows)|
    {
      count := 0;
      var ks := inner.Range();
      for i := 0 to |ks|
        invariant count == R.CountAlong(rows, ks[..i])
      {
        var row := inner.Load(ks[i]);
        var n := row.value.Count();
        assert ks[..i + 1][..i] == ks[..i];
        count := count + n;
      }
      assert ks[..|ks|] == ks;
      R.TotalCountIsFlatSize(rows, ks);
    }

    method Count(key: KA) returns (n: nat)
      requires Valid()
      ensures n == |R.EntriesAt(rows, key)|
    {
      var row := inner.Load(key);
      if row == None {
        return 0;
      }
      n := row.value.Count();
    }

    /** Forgets every row. Handles keep the tables they point at, which leave this cache untouched. */
    method Clear()
      requires Valid()
      modifies Repr
      ensures Valid() && Repr <= old(Repr)
      ensures rows == map[]
      ensures forall a :: a in old(rows) && old(HandleOf(a)) != null ==>
                old(HandleOf(a)) !in Repr && old(HandleOf(a)).m == old(HandleOf(a).m)
    {
      inner.Clear();
      rows := map[];
      Repr := if inner.inner == null then {this} else {this} + {inner.inner};
    }

    /** Forgets one row and lets go of its table. */
    method ClearKey(key: KA)
      requires Valid()
      modifies Repr
      ensures Valid() && Repr == old(Repr) - (if old(HandleOf(key)) == null then {} else {old(HandleOf(key))})
      ensures rows == old(rows) - {key}
      ensures forall a :: a in rows ==> HandleOf(a) == old(HandleOf(a))
      ensures old(HandleOf(key)) != null ==> old(HandleOf(key)).m == old(HandleOf(key).m)
    {
      Repr := Repr - (if HandleOf(key) == null then {} else {HandleOf(key)});
      inner.Delete(key);
      rows := rows - {key};
    }

    method SetIfAbsentThrough(handle: Cache<KB, V>, ghost key: KA, subKey: KB, value: V)
      requires Valid() && key in rows && handle.inner == HandleOf(key)
      modifies Repr
      ensures Valid() && Repr == old(Repr)
      ensures rows == R.SetIfAbsent(old(rows), key, subKey, value)
      ensures forall a :: a in old(rows) ==> HandleOf(a) == old(HandleOf(a))
    {
      var copy := handle.SetIfAbsent(subKey, value);
      rows := R.SetIfAbsent(rows, key, subKey, value);
    }

    method SetIfPresentThrough(handle: Cache<KB, V>, ghost key: KA, subKey: KB, value: V)
      requires Valid() && key in rows && handle.inner == HandleOf(key)
      modifies Repr
      ensures Valid() && Repr == old(Repr)
      ensures rows == R.SetIfPresent(old(rows), key, subKey, value)
      ensures forall a :: a in old(rows) ==> HandleOf(a) == old(HandleOf(a))
    {
      var copy := handle.SetIfPresent(subKey, value);
      rows := R.SetIfPresent(rows, key, subKey, value);
    }

    method SetIfAbsent(key: KA, subKey: KB, value: V)
      requires Valid()
      modifies Repr
      ensures Valid() && fresh(Repr - old(Repr))
      ensures rows == R.SetIfAbsent(old(rows), key, subKey, value)
      ensures forall a :: a in old(rows) ==> HandleOf(a) == old(HandleOf(a))
    {
      var row := inner.Load(key);
      if row != None {
        SetIfAbsentThrough(row.value, key, subKey, value);
      } else {
        var row' := Cache(null, sizeInner).SetIfAbsent(subKey, value);
        InsertRow(key, row');
      }
    }

    method SetIfPresent(key: KA, subKey: KB, value: V)
      requires Valid()
      modifies Repr
      ensures Valid() && fresh(Repr - old(Repr))
      ensures rows == R.SetIfPresent(old(rows), key, subKey, value)
      ensures forall a :: a in old(rows) ==> HandleOf(a) == old(HandleOf(a))
    {
      var row := inner.Load(key);
      if row != None {
        SetIfPresentThrough(row.value, key, subKey, value);
      } else {
        var row' := Cache(null, sizeInner).SetIfPresent(subKey, value);
        InsertRow(key, row');
      }
    }

    method Perform(op: R.Op<KA, KB, V>)
      requires Valid()
      modifies Repr
      ensures Valid() && fresh(Repr - old(Repr))
      ensures rows == R.Apply(old(rows), op)
      ensures forall a :: a in old(rows) && !Detaches(op, a) ==> HandleOf(a) == old(HandleOf(a))
      ensures forall a :: a in old(rows) && Detaches(op, a) && old(HandleOf(a)) != null ==>
                old(HandleOf(a)) !in Repr && old(HandleOf(a)).m == old(HandleOf(a).m)
    {
      match op
      case StoreOp(a, b, v) => Store(a, b, v);
      case DeleteOp(a, b) => Delete(a, b);
      case UpdateOp(a, b, fn) => var _ := Update(a, b, fn);
      case SetIfAbsentOp(a, b, v) => SetIfAbsent(a, b, v);
      case SetIfPresentOp(a, b, v) => SetIfPresent(a, b, v);
      case ClearOp => Clear();
      case ClearKeyOp(a) => ClearKey(a);
    }

    /** A handle sees exactly its row. */
    lemma HandleSeesRow(a: KA)
      requires Valid() && a in rows && HandleOf(a) != null
      ensures HandleOf(a) in Repr && HandleOf(a).m == R.EntriesAt(rows, a)
    {
    }

    /** After any sequence of operations a handle taken before still sees its row, up to the moment it was detached. */
    method PerformAll(ops: seq<R.Op<KA, KB, V>>, a: KA, handle: CsMap<KB, V>)
      requires Valid() && a in rows && handle == HandleOf(a)
      modifies Repr
      ensures Valid() && fresh(Repr - old(Repr))
      ensures rows == R.Run(old(rows), ops)
      ensures handle.m == SeenThrough(old(rows), a, ops)
      ensures !Detached(a, ops) ==> handle == HandleOf(a)
      ensures Detached(a, ops) ==> handle !in Repr
    {
      hide Valid, R.Run, R.Apply, SeenThrough, Detached, Detaches;
      HandleSeesRow(a);
      NothingSeen(rows, a);
      for i := 0 to |ops|
        invariant Valid() && fresh(Repr - old(Repr))
        invariant rows == R.Run(old(rows), ops[..i])
        invariant handle.m == SeenThrough(old(rows), a, ops[..i])
        invariant !Detached(a, ops[..i]) ==> a in rows && handle == HandleOf(a)
        invariant Detached(a, ops[..i]) ==> handle !in Repr
      {
        NextSeen(old(rows), a, ops[..i], ops[i]);
        assert ops[..i] + [ops[i]] == ops[..i + 1];
        Perform(ops[i]);
        if !Detached(a, ops[..i + 1]) {
          HandleSeesRow(a);
        }
      }
      assert ops[..|ops|] == ops;
    }
  }

  lemma NothingSeen<A, B, V>(rows: R.Rows<A, B, V>, a: A)
    ensures R.Run(rows, []) == rows && SeenThrough(rows, a, []) == R.EntriesAt(rows, a)
    ensures !Detached<A, B, V>(a, [])
  {
  }

  lemma NextSeen<A, B, V>(rows: R.Rows<A, B, V>, a: A, ops: seq<R.Op<A, B, V>>, op: R.Op<A, B, V>)
    ensures R.Run(rows, ops + [op]) == R.Apply(R.Run(rows, ops), op)
    ensures Detached(a, ops + [op]) <==> Detached(a, ops) || Detaches(op, a)
    ensures SeenThrough(rows, a, ops + [op])
         == if Detached(a, ops + [op]) then SeenThrough(rows, a, ops) else R.EntriesAt(R.Run(rows, ops + [op]), a)
    ensures !Detaches(op, a) && a in R.Run(rows, ops) ==> a in R.Run(rows, ops + [op])
  {
    var all := ops + [op];
    assert all[..|all| - 1] == ops && all[|ops|] == op;
    assert Detached(a, ops) ==> Detached(a, all) by {
      if Detached(a, ops) {
        var i :| 0 <= i < |ops| && Detaches(ops[i], a);
        assert Detaches(all[i], a);
      }
    }
  }

  ghost predicate Detaches<A, B, V>(op: R.Op<A, B, V>, a: A) {
    op.ClearOp? || (op.ClearKeyOp? && op.a == a)
  }

  ghost predicate Detached<A, B, V>(a: A, ops: seq<R.Op<A, B, V>>) {
    exists i :: 0 <= i < |ops| && Detaches(ops[i], a)
  }

  /** What a handle on row `a` sees after the operations: the row itself until one of them detaches it. */
  ghost function SeenThrough<A, B, V>(rows: R.Rows<A, B, V>, a: A, ops: seq<R.Op<A, B, V>>): map<B, V> {
    if ops == [] then R.EntriesAt(rows, a)
    else if Detached(a, ops) then SeenThrough(rows, a, ops[..|ops| - 1])
    else R.EntriesAt(R.Run(rows, ops), a)
  }
}
