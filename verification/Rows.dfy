/**
 The value a two-level cache stands for. A row is what the outer table holds for one key: the inner `Cache`
 struct, whose table may never have been allocated. That nil table is a state of its own, because the struct is
 stored by value: a store through a copy of it allocates a table nobody else can reach.
 */
module Rows {
  import opened Wrappers

  datatype Row<K, V> = NoTable | Table(entries: map<K, V>) {
    function Entries(): map<K, V> {
      if NoTable? then map[] else entries
    }
  }

  type Rows<A, B, V> = map<A, Row<B, V>>

  function EntriesAt<A, B, V>(rows: Rows<A, B, V>, a: A): map<B, V> {
    if a in rows then rows[a].Entries() else map[]
  }

  function Lookup<A, B, V>(rows: Rows<A, B, V>, a: A, b: B): Option<V> {
    Find(EntriesAt(rows, a), b)
  }

  function Store<A, B, V>(rows: Rows<A, B, V>, a: A, b: B, v: V): Rows<A, B, V> {
    if a !in rows then rows[a := Table(map[b := v])]
    else if rows[a].NoTable? then rows
    else rows[a := Table(rows[a].entries[b := v])]
  }

  function Delete<A, B, V>(rows: Rows<A, B, V>, a: A, b: B): Rows<A, B, V> {
    if a in rows && rows[a].Table? then rows[a := Table(rows[a].entries - {b})] else rows
  }

  function Update<A, B, V>(rows: Rows<A, B, V>, a: A, b: B, fn: V -> V): Rows<A, B, V> {
    match Lookup(rows, a, b)
    case None => rows
    case Some(v) => rows[a := Table(EntriesAt(rows, a)[b := fn(v)])]
  }

  function SetIfAbsent<A, B, V>(rows: Rows<A, B, V>, a: A, b: B, v: V): Rows<A, B, V> {
    if Lookup(rows, a, b).Some? then rows else Store(rows, a, b, v)
  }

  function SetIfPresent<A, B, V>(rows: Rows<A, B, V>, a: A, b: B, v: V): Rows<A, B, V> {
    if a !in rows then rows[a := Table(map[])]
    else if Lookup(rows, a, b).Some? then Store(rows, a, b, v)
    else rows
  }

  function LoadOrNew<A, B, V>(rows: Rows<A, B, V>, a: A): Rows<A, B, V> {
    if a in rows then rows else rows[a := NoTable]
  }

  /** LoadOrNew as its callers take it to be: the row it makes has a table. */
  function LiveLoadOrNew<A, B, V>(rows: Rows<A, B, V>, a: A): Rows<A, B, V> {
    if a in rows then rows else rows[a := Table(map[])]
  }

  /** Stores a list of entries one after the other. */
  function StoreAll<A, B, V>(rows: Rows<A, B, V>, a: A, kvs: seq<(B, V)>): Rows<A, B, V> {
    if kvs == [] then rows
    else var last := |kvs| - 1; Store(StoreAll(rows, a, kvs[..last]), a, kvs[last].0, kvs[last].1)
  }

  /** The last value a list of entries gives to a key. */
  function LastOf<B(==), V>(kvs: seq<(B, V)>, b: B): Option<V> {
    if kvs == [] then None
    else var last := |kvs| - 1; if kvs[last].0 == b then Some(kvs[last].1) else LastOf(kvs[..last], b)
  }

  /** The entries as a map: for every key the last value given to it. */
  function AsMap<B, V>(kvs: seq<(B, V)>): map<B, V> {
    if kvs == [] then map[] else var last := |kvs| - 1; AsMap(kvs[..last])[kvs[last].0 := kvs[last].1]
  }

  lemma {:induction false} AsMapFindsLast<B, V>(kvs: seq<(B, V)>, b: B)
    ensures Find(AsMap(kvs), b) == LastOf(kvs, b)
  {
    if kvs != [] {
      AsMapFindsLast(kvs[..|kvs| - 1], b);
    }
  }

  /** StoreAll, read back: every other row is untouched, and a live or absent row is overridden by the entries. */
  lemma {:induction false} StoreAllReadBack<A, B, V>(rows: Rows<A, B, V>, a: A, kvs: seq<(B, V)>)
    requires a in rows ==> rows[a].Table?
    ensures EntriesAt(StoreAll(rows, a, kvs), a) == EntriesAt(rows, a) + AsMap(kvs)
    ensures a in StoreAll(rows, a, kvs) <==> a in rows || kvs != []
    ensures a in StoreAll(rows, a, kvs) ==> StoreAll(rows, a, kvs)[a].Table?
    ensures StoreAll(rows, a, kvs) - {a} == rows - {a}
  {
    if kvs != [] {
      StoreAllReadBack(rows, a, kvs[..|kvs| - 1]);
    }
  }

  /** A row that a store can reach: it has a table, or is not there yet. */
  predicate Reachable<A, B, V>(rows: Rows<A, B, V>, a: A) {
    a in rows ==> rows[a].Table?
  }

  /** After a store the entry is what was stored, and every other entry of every row is what it was. */
  lemma StoreAt<A, B, V>(rows: Rows<A, B, V>, a: A, b: B, v: V)
    requires Reachable(rows, a)
    ensures forall x, y ::
              Lookup(Store(rows, a, b, v), x, y) == if x == a && y == b then Some(v) else Lookup(rows, x, y)
    ensures Reachable(Store(rows, a, b, v), a) && Store(rows, a, b, v).Keys == rows.Keys + {a}
  {
  }

  lemma DeleteAt<A, B, V>(rows: Rows<A, B, V>, a: A, b: B)
    ensures forall x, y :: Lookup(Delete(rows, a, b), x, y) == if x == a && y == b then None else Lookup(rows, x, y)
    ensures Delete(rows, a, b).Keys == rows.Keys
  {
  }

  lemma UpdateAt<A, B, V>(rows: Rows<A, B, V>, a: A, b: B, fn: V -> V)
    ensures forall x, y ::
              Lookup(Update(rows, a, b, fn), x, y)
              == match Lookup(rows, x, y)
                 case None => None
                 case Some(v) => Some(if x == a && y == b then fn(v) else v)
    ensures Update(rows, a, b, fn).Keys == rows.Keys
  {
  }

  /** Storing a list: the last entry of a key wins, and a key it does not name keeps its entry. */
  lemma {:induction false} StoreAllAt<A, B, V>(rows: Rows<A, B, V>, a: A, kvs: seq<(B, V)>, b: B, i: nat)
    requires Reachable(rows, a)
    ensures i < |kvs| && kvs[i].0 == b && (forall j :: i < j < |kvs| ==> kvs[j].0 != b) ==>
              Lookup(StoreAll(rows, a, kvs), a, b) == Some(kvs[i].1)
    ensures (forall j :: 0 <= j < |kvs| ==> kvs[j].0 != b) ==>
              Lookup(StoreAll(rows, a, kvs), a, b) == Lookup(rows, a, b)
    ensures Reachable(StoreAll(rows, a, kvs), a)
  {
    if kvs != [] {
      var last := |kvs| - 1;
      StoreAllAt(rows, a, kvs[..last], b, i);
      hide Store, Lookup, Reachable;
      StoreAt(StoreAll(rows, a, kvs[..last]), a, kvs[last].0, kvs[last].1);
      assert forall j :: 0 <= j < last ==> kvs[..last][j] == kvs[j];
    }
  }

  /** Two row maps that agree on a key agree on it after the same stores, and other keys do not move. */
  lemma {:induction false} StoreAllLocal<A, B, V>(r: Rows<A, B, V>, s: Rows<A, B, V>, a: A, kvs: seq<(B, V)>)
    requires Find(r, a) == Find(s, a)
    ensures Find(StoreAll(r, a, kvs), a) == Find(StoreAll(s, a, kvs), a)
    ensures forall other :: other != a ==> Find(StoreAll(r, a, kvs), other) == Find(r, other)
  {
    if kvs != [] {
      StoreAllLocal(r, s, a, kvs[..|kvs| - 1]);
    }
  }

  lemma LoadOrNewLocal<A, B, V>(r: Rows<A, B, V>, s: Rows<A, B, V>, a: A)
    requires Find(r, a) == Find(s, a)
    ensures Find(LoadOrNew(r, a), a) == Find(LoadOrNew(s, a), a)
    ensures forall other :: other != a ==> Find(LoadOrNew(r, a), other) == Find(r, other)
  {
  }

  /** Writing entries a row already holds changes nothing. */
  lemma {:induction false} StoreAllIdempotent<A, B, V>(rows: Rows<A, B, V>, a: A, kvs: seq<(B, V)>)
    requires forall i :: 0 <= i < |kvs| ==> Lookup(rows, a, kvs[i].0) == Some(kvs[i].1)
    ensures StoreAll(rows, a, kvs) == rows
  {
    if kvs != [] {
      var last := |kvs| - 1;
      forall i | 0 <= i < last ensures Lookup(rows, a, kvs[..last][i].0) == Some(kvs[..last][i].1) {
        assert kvs[..last][i] == kvs[i];
      }
      StoreAllIdempotent(rows, a, kvs[..last]);
      var kv := kvs[last];
      assert rows[a].entries[kv.0 := kv.1] == rows[a].entries;
    }
  }

  // ---------------------------------------------------------------------------------------------------------
  // One map from key pairs

  /** No row is stuck without a table. */
  ghost predicate AllLive<A, B, V>(rows: Rows<A, B, V>) {
    forall a :: a in rows ==> rows[a].Table?
  }

  function KeyPairs<A, B, V>(rows: Rows<A, B, V>): set<(A, B)> {
    set a, b | a in rows.Keys && b in rows[a].Entries().Keys :: (a, b)
  }

  function Flat<A, B, V>(rows: Rows<A, B, V>): map<(A, B), V> {
    map p | p in KeyPairs(rows) :: rows[p.0].Entries()[p.1]
  }

  datatype Op<A, B, !V> =
    | StoreOp(a: A, b: B, v: V)
    | DeleteOp(a: A, b: B)
    | UpdateOp(a: A, b: B, fn: V -> V)
    | SetIfAbsentOp(a: A, b: B, v: V)
    | SetIfPresentOp(a: A, b: B, v: V)
    | ClearOp
    | ClearKeyOp(a: A)

  function Apply<A, B, V>(rows: Rows<A, B, V>, op: Op<A, B, V>): Rows<A, B, V> {
    match op
    case StoreOp(a, b, v) => Store(rows, a, b, v)
    case DeleteOp(a, b) => Delete(rows, a, b)
    case UpdateOp(a, b, fn) => Update(rows, a, b, fn)
    case SetIfAbsentOp(a, b, v) => SetIfAbsent(rows, a, b, v)
    case SetIfPresentOp(a, b, v) => SetIfPresent(rows, a, b, v)
    case ClearOp => map[]
    case ClearKeyOp(a) => rows - {a}
  }

  function Run<A, B, V>(rows: Rows<A, B, V>, ops: seq<Op<A, B, V>>): Rows<A, B, V> {
    if ops == [] then rows else Apply(Run(rows, ops[..|ops| - 1]), ops[|ops| - 1])
  }

  /** What the same operation does to an ordinary map from key pairs. */
  function FlatApply<A(==), B(==), V>(m: map<(A, B), V>, op: Op<A, B, V>): map<(A, B), V> {
    match op
    case StoreOp(a, b, v) => m[(a, b) := v]
    case DeleteOp(a, b) => m - {(a, b)}
    case UpdateOp(a, b, fn) => if (a, b) in m then m[(a, b) := fn(m[(a, b)])] else m
    case SetIfAbsentOp(a, b, v) => if (a, b) in m then m else m[(a, b) := v]
    case SetIfPresentOp(a, b, v) => if (a, b) in m then m[(a, b) := v] else m
    case ClearOp => map[]
    case ClearKeyOp(a) => map p | p in m && p.0 != a :: m[p]
  }

  function FlatRun<A(==), B(==), V>(m: map<(A, B), V>, ops: seq<Op<A, B, V>>): map<(A, B), V> {
    if ops == [] then m else FlatApply(FlatRun(m, ops[..|ops| - 1]), ops[|ops| - 1])
  }

  lemma FlatLookup<A, B, V>(rows: Rows<A, B, V>, a: A, b: B)
    ensures Find(Flat(rows), (a, b)) == Lookup(rows, a, b)
  {
    assert (a, b) in KeyPairs(rows) <==> a in rows && b in rows[a].Entries();
  }

  lemma FlatExtensional<A, B, V>(m: map<(A, B), V>, n: map<(A, B), V>)
    requires forall a, b :: Find(m, (a, b)) == Find(n, (a, b))
    ensures m == n
  {
    forall p | p in m || p in n
      ensures p in m && p in n && m[p] == n[p]
    {
      assert Find(m, (p.0, p.1)) == Find(n, (p.0, p.1));
    }
  }

  /** Where the row can be reached, every operation does to the entries what it does to the one map. */
  lemma ApplyAtReachable<A, B, V>(rows: Rows<A, B, V>, op: Op<A, B, V>, a: A, b: B)
    requires op.ClearOp? || Reachable(rows, op.a)
    ensures Lookup(Apply(rows, op), a, b) == Find(FlatApply(Flat(rows), op), (a, b))
  {
    FlatLookup(rows, a, b);
    if !op.ClearOp? && !op.ClearKeyOp? {
      FlatLookup(rows, op.a, op.b);
    }
  }

  lemma ApplyIsFlatApply<A, B, V>(rows: Rows<A, B, V>, op: Op<A, B, V>)
    requires AllLive(rows)
    ensures AllLive(Apply(rows, op))
    ensures Flat(Apply(rows, op)) == FlatApply(Flat(rows), op)
  {
    hide Flat, FlatApply;
    forall a, b
      ensures Find(Flat(Apply(rows, op)), (a, b)) == Find(FlatApply(Flat(rows), op), (a, b))
    {
      FlatLookup(Apply(rows, op), a, b);
      ApplyAtReachable(rows, op, a, b);
    }
    FlatExtensional(Flat(Apply(rows, op)), FlatApply(Flat(rows), op));
  }

  /** Any sequence of operations makes the two-level cache behave as one map from key pairs. */
  lemma {:induction false} BehavesAsOneMap<A, B, V>(rows: Rows<A, B, V>, ops: seq<Op<A, B, V>>)
    requires AllLive(rows)
    ensures AllLive(Run(rows, ops))
    ensures Flat(Run(rows, ops)) == FlatRun(Flat(rows), ops)
  {
    if ops != [] {
      BehavesAsOneMap(rows, ops[..|ops| - 1]);
      ApplyIsFlatApply(Run(rows, ops[..|ops| - 1]), ops[|ops| - 1]);
    }
  }

  /**
   Rows come and go with three operations each, and none but a clear takes a table away or gives one to a row that has
   none.
   */
  lemma RowsComeAndGo<A, B, V>(rows: Rows<A, B, V>, op: Op<A, B, V>, a: A)
    ensures var after := Apply(rows, op);
            && (a in after <==>
                  match op
                  case ClearOp => false
                  case ClearKeyOp(x) => a in rows && a != x
                  case DeleteOp(_, _) => a in rows
                  case UpdateOp(_, _, _) => a in rows
                  case _ => a in rows || a == op.a)
            && (a in after && a in rows ==> (after[a].Table? <==> rows[a].Table?))
            && (a in after && a !in rows ==> after[a].Table?)
  {
  }

  /** Sum of the row sizes, in the order the outer table is visited. */
  function CountAlong<A, B, V>(rows: Rows<A, B, V>, ks: seq<A>): nat {
    if ks == [] then 0
    else CountAlong(rows, ks[..|ks| - 1]) + |EntriesAt(rows, ks[|ks| - 1])|
  }

  /** The key pairs of some rows. */
  function PairsIn<A, B, V>(rows: Rows<A, B, V>, ks: seq<A>): set<(A, B)> {
    set p | p in KeyPairs(rows) && p.0 in ks
  }

  lemma OneMoreRow<A, B, V>(rows: Rows<A, B, V>, init: seq<A>, last: A)
    requires last !in init && last in rows
    ensures var row := set b | b in EntriesAt(rows, last).Keys :: (last, b);
            PairsIn(rows, init + [last]) == PairsIn(rows, init) + row && PairsIn(rows, init) !! row
  {
    var row := set b | b in EntriesAt(rows, last).Keys :: (last, b);
    forall p
      ensures p in PairsIn(rows, init + [last]) <==> p in PairsIn(rows, init) || p in row
    {
      assert p in row <==> p.0 == last && p.1 in EntriesAt(rows, last).Keys;
      assert p == (p.0, p.1);
    }
  }

  lemma {:induction false} CountAlongIsFlatSize<A, B, V>(rows: Rows<A, B, V>, ks: seq<A>)
    requires forall i, j :: 0 <= i < j < |ks| ==> ks[i] != ks[j]
    requires forall k :: k in ks ==> k in rows
    ensures CountAlong(rows, ks) == |PairsIn(rows, ks)|
  {
    if ks == [] {
      assert PairsIn(rows, ks) == {};
    } else {
      var last, init := ks[|ks| - 1], ks[..|ks| - 1];
      CountAlongIsFlatSize(rows, init);
      assert ks == init + [last];
      OneMoreRow(rows, init, last);
      PairingKeepsSize(last, EntriesAt(rows, last).Keys);
    }
  }

  lemma {:induction false} PairingKeepsSize<A, B>(a: A, bs: set<B>)
    ensures |set b | b in bs :: (a, b)| == |bs|
  {
    var pairs := set b | b in bs :: (a, b);
    if bs == {} {
      assert pairs == {};
    } else {
      var b :| b in bs;
      PairingKeepsSize(a, bs - {b});
      assert pairs == (set c | c in bs - {b} :: (a, c)) + {(a, b)};
    }
  }

  /** TotalCount, whatever order it visits the rows in, is the size of the one map. */
  lemma TotalCountIsFlatSize<A, B, V>(rows: Rows<A, B, V>, ks: seq<A>)
    requires Enumerates(ks, rows.Keys)
    ensures CountAlong(rows, ks) == |Flat(rows)|
  {
    CountAlongIsFlatSize(rows, ks);
    assert PairsIn(rows, ks) == KeyPairs(rows);
    assert Flat(rows).Keys == KeyPairs(rows);
    assert |Flat(rows).Keys| == |Flat(rows)|;
  }

  // ---------------------------------------------------------------------------------------------------------
  // LoadOrNew

  /** A store through the cache takes effect exactly when the row is not stuck without a table. */
  lemma StoreTakesEffectIff<A, B, V>(rows: Rows<A, B, V>, a: A, b: B, v: V)
    ensures Lookup(Store(rows, a, b, v), a, b) == Some(v) <==> !(a in rows && rows[a].NoTable?)
  {
  }

  /** So a row made by LoadOrNew stays empty under every further store, until its key is cleared. */
  lemma {:induction false} RowMadeByLoadOrNewStaysEmpty<A, B, V>(rows: Rows<A, B, V>, a: A, ops: seq<Op<A, B, V>>)
    requires a !in rows
    requires forall i :: 0 <= i < |ops| ==> !ops[i].ClearOp? && ops[i] != ClearKeyOp(a)
    ensures Find(Run(LoadOrNew(rows, a), ops), a) == Some(NoTable)
  {
    if ops != [] {
      RowMadeByLoadOrNewStaysEmpty(rows, a, ops[..|ops| - 1]);
    }
  }
}
