/** Records and their secondary indexes, written through client sessions.

    The key constructors and the record encoding are parameters; all that is used of them
    is that they are injective, as `Sound` says. */
module SecondaryIndex {
  import opened Keys
  import opened Mvcc
  import opened Occ

  type Record = map<string, string>

  datatype Index = Index(name: string, column: string, vector: bool)

  datatype Schema = Schema(primaryKey: string, indexes: seq<Index>)

  datatype Codec = Codec(
    dataKey: string -> Key,
    indexKey: (string, string, string) -> Key,      // index name, stored value, primary key
    indexValue: string -> string,
    encode: Record -> Value,
    decode: Value -> Option<Record>)

  ghost predicate Sound(c: Codec) {
    && (forall p, q :: c.dataKey(p) == c.dataKey(q) ==> p == q)
    && (forall n, v, p, n', v', p' :: c.indexKey(n, v, p) == c.indexKey(n', v', p') ==> n == n' && v == v' && p == p')
    && (forall p, n, v, q :: c.dataKey(p) != c.indexKey(n, v, q))
    && (forall r :: c.decode(c.encode(r)) == Some(r))
  }

  ghost predicate NamesDistinct(schema: Schema) {
    forall i, j :: 0 <= i < j < |schema.indexes| ==> schema.indexes[i].name != schema.indexes[j].name
  }

  function KeyOf(c: Codec, ix: Index, r: Record, pk: string): Key
    requires ix.column in r
  {
    c.indexKey(ix.name, c.indexValue(r[ix.column]), pk)
  }

  // ---------------------------------------------------------------- record operations

  datatype Outcome = Done | MissingPrimaryKey | BadRow | MissingField

  /** Deletes the entries of `was` in the first n indexes; vector indexes only if asked. */
  function DeleteOld(c: Codec, ixs: seq<Index>, st: Store, x: Session, was: Record, pk: string, vectors: bool,
                     n: nat): Session
    requires n <= |ixs|
  {
    if n == 0 then x
    else
      var y := DeleteOld(c, ixs, st, x, was, pk, vectors, n - 1);
      if ixs[n - 1].column in was && (vectors || !ixs[n - 1].vector)
      then AfterWrite(st, y, KeyOf(c, ixs[n - 1], was, pk), None) else y
  }

  /** Writes the entries of `r` in the first n indexes. */
  function PutNew(c: Codec, ixs: seq<Index>, st: Store, x: Session, r: Record, pk: string, n: nat): Session
    requires n <= |ixs| && forall i :: 0 <= i < n ==> ixs[i].column in r
  {
    if n == 0 then x
    else AfterWrite(st, PutNew(c, ixs, st, x, r, pk, n - 1), KeyOf(c, ixs[n - 1], r, pk), Some(""))
  }

  /** Number of leading indexes whose column the record has. */
  function Covered(ixs: seq<Index>, r: Record): (m: nat)
    ensures m <= |ixs| && forall i :: 0 <= i < m ==> ixs[i].column in r
    ensures m < |ixs| ==> ixs[m].column !in r
    decreases |ixs|
  {
    if ixs == [] || ixs[0].column !in r then 0 else 1 + Covered(ixs[1..], r)
  }

  function PutRow(c: Codec, schema: Schema, st: Store, x: Session, r: Record, pk: string): Session {
    PutNew(c, schema.indexes, st, AfterWrite(st, x, c.dataKey(pk), Some(c.encode(r))), r, pk,
           Covered(schema.indexes, r))
  }

  /** `session_put_record`. */
  function PutRecord(c: Codec, schema: Schema, st: Store, x: Session, r: Record): (Session, Outcome) {
    if schema.primaryKey !in r then (x, MissingPrimaryKey)
    else
      var pk := r[schema.primaryKey];
      var y := AfterGet(st, x, c.dataKey(pk));
      var outcome := if Covered(schema.indexes, r) == |schema.indexes| then Done else MissingField;
      match Answer(st, x, c.dataKey(pk))
      case None => (PutRow(c, schema, st, y, r, pk), outcome)
      case Some(v) =>
        match c.decode(v)
        case None => (y, BadRow)
        case Some(was) =>
          (PutRow(c, schema, st, DeleteOld(c, schema.indexes, st, y, was, pk, true, |schema.indexes|), r, pk), outcome)
  }

  /** `session_delete_record`. */
  function DeleteRecord(c: Codec, schema: Schema, st: Store, x: Session, pk: string): (Session, Outcome) {
    var y := AfterGet(st, x, c.dataKey(pk));
    match Answer(st, x, c.dataKey(pk))
    case None => (y, Done)
    case Some(v) =>
      match c.decode(v)
      case None => (y, BadRow)
      case Some(was) =>
        (AfterWrite(st, DeleteOld(c, schema.indexes, st, y, was, pk, false, |schema.indexes|), c.dataKey(pk), None),
         Done)
  }

  /** When a put or a delete succeeds, and how else it ends. */
  lemma OutcomesExactly(c: Codec, schema: Schema, st: Store, x: Session, r: Record, pk: string)
    ensures var row := Answer(st, x, c.dataKey(pk));
      && (DeleteRecord(c, schema, st, x, pk).1 == if row.Some? && c.decode(row.value) == None then BadRow else Done)
      && (schema.primaryKey !in r <==> PutRecord(c, schema, st, x, r).1 == MissingPrimaryKey)
      && (schema.primaryKey in r && r[schema.primaryKey] == pk ==>
            PutRecord(c, schema, st, x, r).1 ==
              if row.Some? && c.decode(row.value) == None then BadRow
              else if exists i :: 0 <= i < |schema.indexes| && schema.indexes[i].column !in r then MissingField
              else Done)
  {
    var m := Covered(schema.indexes, r);
    assert m < |schema.indexes| ==> schema.indexes[m].column !in r;
  }

  /** The loop over the entries of the row being replaced or deleted. */
  method DeleteEntries(c: Codec, ixs: seq<Index>, st: Store, session: Session, was: Record, pk: string, vectors: bool)
    returns (x: Session)
    ensures x == DeleteOld(c, ixs, st, session, was, pk, vectors, |ixs|)
  {
    x := session;
    for i := 0 to |ixs|
      invariant x == DeleteOld(c, ixs, st, session, was, pk, vectors, i)
    {
      if (vectors || !ixs[i].vector) && ixs[i].column in was {
        x := AfterWrite(st, x, KeyOf(c, ixs[i], was, pk), None);
      }
    }
  }

  /** The loop over the entries of the new row, which stops at the first missing column. */
  method PutEntries(c: Codec, ixs: seq<Index>, st: Store, session: Session, r: Record, pk: string)
    returns (x: Session, complete: bool)
    ensures x == PutNew(c, ixs, st, session, r, pk, Covered(ixs, r))
    ensures complete <==> forall i :: 0 <= i < |ixs| ==> ixs[i].column in r
  {
    x := session;
    for i := 0 to |ixs|
      invariant i <= Covered(ixs, r)
      invariant x == PutNew(c, ixs, st, session, r, pk, i)
    {
      if ixs[i].column !in r { return x, false; }
      x := AfterWrite(st, x, KeyOf(c, ixs[i], r, pk), Some(""));
    }
    complete := true;
  }

  /** `session_put_record` as the program runs it. */
  method SessionPutRecord(c: Codec, schema: Schema, st: Store, session: Session, r: Record)
    returns (x: Session, outcome: Outcome)
    ensures (x, outcome) == PutRecord(c, schema, st, session, r)
  {
    x := session;
    if schema.primaryKey !in r { return x, MissingPrimaryKey; }
    var pk := r[schema.primaryKey];
    var dkey := c.dataKey(pk);
    var before := Answer(st, x, dkey);
    x := AfterGet(st, x, dkey);
    if before.Some? {
      var decoded := c.decode(before.value);
      if decoded == None { return x, BadRow; }
      x := DeleteEntries(c, schema.indexes, st, x, decoded.value, pk, true);
    }
    x := AfterWrite(st, x, dkey, Some(c.encode(r)));
    var complete;
    x, complete := PutEntries(c, schema.indexes, st, x, r, pk);
    outcome := if complete then Done else MissingField;
  }

  /** `session_delete_record` as the program runs it. */
  method SessionDeleteRecord(c: Codec, schema: Schema, st: Store, session: Session, pk: string)
    returns (x: Session, outcome: Outcome)
    ensures (x, outcome) == DeleteRecord(c, schema, st, session, pk)
  {
    x := session;
    var dkey := c.dataKey(pk);
    var before := Answer(st, x, dkey);
    x := AfterGet(st, x, dkey);
    if before == None { return x, Done; }
    var decoded := c.decode(before.value);
    if decoded == None { return x, BadRow; }
    x := DeleteEntries(c, schema.indexes, st, x, decoded.value, pk, false);
    x := AfterWrite(st, x, dkey, None);
    outcome := Done;
  }

  // ---------------------------------------------------------------- agreement

  function RowAt(c: Codec, db: Db, pk: string): Option<Record> {
    if c.dataKey(pk) in db then c.decode(db[c.dataKey(pk)]) else None
  }

  ghost predicate EntryRight(c: Codec, ix: Index, db: Db, val: string, pk: string) {
    c.indexKey(ix.name, val, pk) in db <==>
    (RowAt(c, db, pk).Some? && ix.column in RowAt(c, db, pk).value &&
     c.indexValue(RowAt(c, db, pk).value[ix.column]) == val)
  }

  /** Rows decode, and each non-vector index holds exactly the entries of the live rows. */
  ghost predicate Agreement(c: Codec, schema: Schema, db: Db) {
    && (forall pk :: c.dataKey(pk) in db ==> c.decode(db[c.dataKey(pk)]).Some?)
    && (forall j, val, pk :: 0 <= j < |schema.indexes| && !schema.indexes[j].vector ==>
          EntryRight(c, schema.indexes[j], db, val, pk))
  }

  // ---------------------------------------------------------------- what the loops write

  /** The recorded reads are what the snapshot shows. */
  ghost predicate Tracked(st: Store, x: Session) {
    x.observed.Keys == x.readSet.Keys && forall k :: k in x.observed ==> x.observed[k] == ReadAt(st, k, x.readTs)
  }

  ghost predicate Extends(st: Store, x: Session, y: Session) {
    Tracked(st, y) && y.readTs == x.readTs && x.observed.Keys <= y.observed.Keys
  }

  ghost predicate Touches(c: Codec, ix: Index, r: Record, pk: string, k: Key) {
    ix.column in r && k == KeyOf(c, ix, r, pk)
  }

  ghost predicate DeletesKey(c: Codec, ixs: seq<Index>, was: Record, pk: string, vectors: bool, n: nat, k: Key)
    requires n <= |ixs|
  {
    exists i :: 0 <= i < n && (vectors || !ixs[i].vector) && Touches(c, ixs[i], was, pk, k)
  }

  ghost predicate PutsKey(c: Codec, ixs: seq<Index>, r: Record, pk: string, n: nat, k: Key)
    requires n <= |ixs|
  {
    exists i :: 0 <= i < n && Touches(c, ixs[i], r, pk, k)
  }

  /** What a session would see at `k` on the state `db`. */
  function View(db: Db, x: Session, k: Key): Option<Value> {
    if k in x.writes then x.writes[k] else At(db, k)
  }

  lemma WriteEffect(st: Store, x: Session, k0: Key, op: Option<Value>, db: Db, k: Key)
    ensures View(db, AfterWrite(st, x, k0, op), k) == if k == k0 then op else View(db, x, k)
  {
  }

  lemma WriteExtends(st: Store, x: Session, y: Session, k: Key, op: Option<Value>)
    requires Tracked(st, x) && Extends(st, x, y)
    ensures Extends(st, x, AfterWrite(st, y, k, op))
  {
  }

  lemma {:induction false} DeleteOldExtends(c: Codec, ixs: seq<Index>, st: Store, x: Session, was: Record, pk: string,
                                            vectors: bool, n: nat)
    requires n <= |ixs| && Tracked(st, x)
    ensures Extends(st, x, DeleteOld(c, ixs, st, x, was, pk, vectors, n))
    decreases n
  {
    if n > 0 {
      DeleteOldExtends(c, ixs, st, x, was, pk, vectors, n - 1);
      if ixs[n - 1].column in was && (vectors || !ixs[n - 1].vector) {
        WriteExtends(st, x, DeleteOld(c, ixs, st, x, was, pk, vectors, n - 1), KeyOf(c, ixs[n - 1], was, pk), None);
      }
    }
  }

  lemma {:induction false} PutNewExtends(c: Codec, ixs: seq<Index>, st: Store, x: Session, r: Record, pk: string,
                                         n: nat)
    requires n <= |ixs| && Tracked(st, x) && forall i :: 0 <= i < n ==> ixs[i].column in r
    ensures Extends(st, x, PutNew(c, ixs, st, x, r, pk, n))
    decreases n
  {
    if n > 0 {
      PutNewExtends(c, ixs, st, x, r, pk, n - 1);
      WriteExtends(st, x, PutNew(c, ixs, st, x, r, pk, n - 1), KeyOf(c, ixs[n - 1], r, pk), Some(""));
    }
  }

  lemma {:induction false} DeleteOldEffect(c: Codec, ixs: seq<Index>, st: Store, x: Session, was: Record, pk: string,
                                           vectors: bool, n: nat, db: Db, k: Key)
    requires n <= |ixs|
    ensures View(db, DeleteOld(c, ixs, st, x, was, pk, vectors, n), k) ==
            if DeletesKey(c, ixs, was, pk, vectors, n, k) then None else View(db, x, k)
    decreases n
  {
    if n > 0 {
      DeleteOldEffect(c, ixs, st, x, was, pk, vectors, n - 1, db, k);
      if ixs[n - 1].column in was && (vectors || !ixs[n - 1].vector) {
        WriteEffect(st, DeleteOld(c, ixs, st, x, was, pk, vectors, n - 1), KeyOf(c, ixs[n - 1], was, pk), None, db, k);
      }
    }
  }

  lemma {:induction false} PutNewEffect(c: Codec, ixs: seq<Index>, st: Store, x: Session, r: Record, pk: string,
                                        n: nat, db: Db, k: Key)
    requires n <= |ixs| && forall i :: 0 <= i < n ==> ixs[i].column in r
    ensures View(db, PutNew(c, ixs, st, x, r, pk, n), k) ==
            if PutsKey(c, ixs, r, pk, n, k) then Some("") else View(db, x, k)
    decreases n
  {
    if n > 0 {
      PutNewEffect(c, ixs, st, x, r, pk, n - 1, db, k);
      WriteEffect(st, PutNew(c, ixs, st, x, r, pk, n - 1), KeyOf(c, ixs[n - 1], r, pk), Some(""), db, k);
    }
  }

  /** The row a session reads is the row of any state that shows it its recorded reads. */
  lemma ReadsRow(st: Store, x: Session, k: Key, db: Db)
    requires Tracked(st, x)
    ensures Extends(st, x, AfterGet(st, x, k))
    ensures Sees(db, AfterGet(st, x, k)) ==> At(Exec(db, x.writes), k) == Answer(st, x, k)
  {
    var y := AfterGet(st, x, k);
    if k !in x.writes { assert k in y.observed; }
  }

  ghost predicate Sees(db: Db, x: Session) {
    forall k :: k in x.observed ==> x.observed[k] == At(db, k)
  }

  // ---------------------------------------------------------------- one operation, any state

  /** The state after writing `r`: new entries of the first m indexes, the row, and the
      entries of the row it replaces removed. */
  ghost predicate PutShape(c: Codec, schema: Schema, db: Db, db': Db, r: Record, pk: string, m: nat)
    requires m <= |schema.indexes|
  {
    forall k :: At(db', k) ==
      if PutsKey(c, schema.indexes, r, pk, m, k) then Some("")
      else if k == c.dataKey(pk) then Some(c.encode(r))
      else if RowAt(c, db, pk).Some? &&
              DeletesKey(c, schema.indexes, RowAt(c, db, pk).value, pk, true, |schema.indexes|, k) then None
      else At(db, k)
  }

  ghost predicate DeleteShape(c: Codec, schema: Schema, db: Db, db': Db, pk: string) {
    forall k :: At(db', k) ==
      if RowAt(c, db, pk).Some? &&
         (|| k == c.dataKey(pk)
          || DeletesKey(c, schema.indexes, RowAt(c, db, pk).value, pk, false, |schema.indexes|, k)) then None
      else At(db, k)
  }

  lemma TouchesExactly(c: Codec, schema: Schema, i: nat, j: nat, r: Record, pk: string, val: string, p: string)
    requires Sound(c) && NamesDistinct(schema) && i < |schema.indexes| && j < |schema.indexes|
    ensures Touches(c, schema.indexes[i], r, pk, c.indexKey(schema.indexes[j].name, val, p)) <==>
      (i == j && p == pk && schema.indexes[j].column in r && c.indexValue(r[schema.indexes[j].column]) == val)
    ensures forall q :: !Touches(c, schema.indexes[i], r, pk, c.dataKey(q))
  {
    if i != j { assert schema.indexes[i].name != schema.indexes[j].name; }
  }

  lemma RowAfterPut(c: Codec, schema: Schema, db: Db, db': Db, r: Record, pk: string, m: nat, p: string)
    requires Sound(c) && m <= |schema.indexes| && PutShape(c, schema, db, db', r, pk, m)
    ensures At(db', c.dataKey(p)) == if p == pk then Some(c.encode(r)) else At(db, c.dataKey(p))
    ensures RowAt(c, db', p) == if p == pk then Some(r) else RowAt(c, db, p)
  {
    assert !PutsKey(c, schema.indexes, r, pk, m, c.dataKey(p));
    assert RowAt(c, db, pk).Some? ==>
      !DeletesKey(c, schema.indexes, RowAt(c, db, pk).value, pk, true, |schema.indexes|, c.dataKey(p));
    assert At(db', c.dataKey(p)) == if p == pk then Some(c.encode(r)) else At(db, c.dataKey(p));
  }

  lemma EntryAfterPut(c: Codec, schema: Schema, db: Db, db': Db, r: Record, pk: string, j: nat, val: string, p: string)
    requires Sound(c) && NamesDistinct(schema) && Agreement(c, schema, db)
    requires PutShape(c, schema, db, db', r, pk, Covered(schema.indexes, r))
    requires j < |schema.indexes| && !schema.indexes[j].vector
    ensures var ix := schema.indexes[j];
      EntryRight(c, ix, db', val, p) <==>
      !(p == pk && j >= Covered(schema.indexes, r) && ix.column in r && c.indexValue(r[ix.column]) == val)
  {
    var ixs, ix, m := schema.indexes, schema.indexes[j], Covered(schema.indexes, r);
    var k := c.indexKey(ix.name, val, p);
    RowAfterPut(c, schema, db, db', r, pk, m, p);
    assert EntryRight(c, ix, db, val, p);
    assert PutsKey(c, ixs, r, pk, m, k) <==> j < m && p == pk && c.indexValue(r[ix.column]) == val by {
      forall i | 0 <= i < m { TouchesExactly(c, schema, i, j, r, pk, val, p); }
      if j < m && p == pk && c.indexValue(r[ix.column]) == val { assert Touches(c, ixs[j], r, pk, k); }
    }
    if RowAt(c, db, pk).Some? {
      var was := RowAt(c, db, pk).value;
      assert DeletesKey(c, ixs, was, pk, true, |ixs|, k) <==>
        p == pk && ix.column in was && c.indexValue(was[ix.column]) == val by {
        forall i | 0 <= i < |ixs| { TouchesExactly(c, schema, i, j, was, pk, val, p); }
        if p == pk && ix.column in was && c.indexValue(was[ix.column]) == val { assert Touches(c, ixs[j], was, pk, k); }
      }
    }
    assert k in db' <==> At(db', k).Some?;
  }

  /** Writing a record keeps the indexes right exactly when no index after the first one it
      lacks a column for has its column: only then is a failed put harmless. */
  lemma PutAgreement(c: Codec, schema: Schema, db: Db, db': Db, r: Record, pk: string)
    requires Sound(c) && NamesDistinct(schema) && Agreement(c, schema, db)
    requires PutShape(c, schema, db, db', r, pk, Covered(schema.indexes, r))
    ensures Agreement(c, schema, db') <==> Harmless(schema, r)
  {
    forall p | c.dataKey(p) in db' ensures c.decode(db'[c.dataKey(p)]).Some? {
      RowAfterPut(c, schema, db, db', r, pk, Covered(schema.indexes, r), p);
      assert At(db', c.dataKey(p)).Some?;
    }
    forall j, val, p | 0 <= j < |schema.indexes| && !schema.indexes[j].vector
      ensures var ix := schema.indexes[j];
        EntryRight(c, ix, db', val, p) <==>
        !(p == pk && j >= Covered(schema.indexes, r) && ix.column in r && c.indexValue(r[ix.column]) == val)
    {
      EntryAfterPut(c, schema, db, db', r, pk, j, val, p);
    }
    if !Harmless(schema, r) {
      var j :| Covered(schema.indexes, r) <= j < |schema.indexes| && !schema.indexes[j].vector &&
               schema.indexes[j].column in r;
      assert !EntryRight(c, schema.indexes[j], db', c.indexValue(r[schema.indexes[j].column]), pk);
    }
  }

  predicate Harmless(schema: Schema, r: Record) {
    forall j :: Covered(schema.indexes, r) <= j < |schema.indexes| && !schema.indexes[j].vector ==>
      schema.indexes[j].column !in r
  }

  lemma DeleteAgreement(c: Codec, schema: Schema, db: Db, db': Db, pk: string)
    requires Sound(c) && NamesDistinct(schema) && Agreement(c, schema, db) && DeleteShape(c, schema, db, db', pk)
    ensures Agreement(c, schema, db')
  {
    if RowAt(c, db, pk) == None {
      assert forall k :: At(db', k) == At(db, k);
      forall j, val, p | 0 <= j < |schema.indexes| && !schema.indexes[j].vector
        ensures EntryRight(c, schema.indexes[j], db', val, p)
      {
        assert EntryRight(c, schema.indexes[j], db, val, p);
        assert At(db', c.dataKey(p)) == At(db, c.dataKey(p));
        assert At(db', c.indexKey(schema.indexes[j].name, val, p)) ==
          At(db, c.indexKey(schema.indexes[j].name, val, p));
      }
    } else {
      forall j, val, p | 0 <= j < |schema.indexes| && !schema.indexes[j].vector
        ensures EntryRight(c, schema.indexes[j], db', val, p)
      {
        EntryAfterDelete(c, schema, db, db', pk, j, val, p);
      }
    }
    forall p | c.dataKey(p) in db' ensures c.decode(db'[c.dataKey(p)]).Some? {
      assert At(db', c.dataKey(p)) == At(db, c.dataKey(p));
    }
  }

  lemma EntryAfterDelete(c: Codec, schema: Schema, db: Db, db': Db, pk: string, j: nat, val: string, p: string)
    requires Sound(c) && NamesDistinct(schema) && Agreement(c, schema, db) && DeleteShape(c, schema, db, db', pk)
    requires RowAt(c, db, pk).Some? && j < |schema.indexes| && !schema.indexes[j].vector
    ensures EntryRight(c, schema.indexes[j], db', val, p)
  {
    var ixs, ix, was := schema.indexes, schema.indexes[j], RowAt(c, db, pk).value;
    var k := c.indexKey(ix.name, val, p);
    assert EntryRight(c, ix, db, val, p);
    forall i | 0 <= i < |ixs|
      ensures !Touches(c, ixs[i], was, pk, c.dataKey(p))
      ensures Touches(c, ixs[i], was, pk, k) <==>
        i == j && p == pk && ix.column in was && c.indexValue(was[ix.column]) == val
    {
      TouchesExactly(c, schema, i, j, was, pk, val, p);
    }
    assert At(db', c.dataKey(p)) == if p == pk then None else At(db, c.dataKey(p));
    assert RowAt(c, db', p) == if p == pk then None else RowAt(c, db, p);
    assert k in db' <==> At(db', k).Some?;
    if p == pk && ix.column in was && c.indexValue(was[ix.column]) == val { assert Touches(c, ixs[j], was, pk, k); }
  }

  // ---------------------------------------------------------------- one operation in a session

  lemma SeesEarlier(st: Store, x: Session, y: Session, db: Db)
    requires Tracked(st, x) && Extends(st, x, y) && Sees(db, y)
    ensures Sees(db, x)
  {
    forall k | k in x.observed ensures x.observed[k] == At(db, k) {
      assert k in y.observed;
    }
  }

  lemma PutRowExtends(c: Codec, schema: Schema, st: Store, x: Session, r: Record, pk: string)
    requires Tracked(st, x)
    ensures Extends(st, x, PutRow(c, schema, st, x, r, pk))
  {
    WriteExtends(st, x, x, c.dataKey(pk), Some(c.encode(r)));
    PutNewExtends(c, schema.indexes, st, AfterWrite(st, x, c.dataKey(pk), Some(c.encode(r))), r, pk,
                  Covered(schema.indexes, r));
  }

  lemma PutRowShape(c: Codec, schema: Schema, st: Store, x: Session, r: Record, pk: string, db: Db, k: Key)
    ensures View(db, PutRow(c, schema, st, x, r, pk), k) ==
      if PutsKey(c, schema.indexes, r, pk, Covered(schema.indexes, r), k) then Some("")
      else if k == c.dataKey(pk) then Some(c.encode(r)) else View(db, x, k)
  {
    WriteEffect(st, x, c.dataKey(pk), Some(c.encode(r)), db, k);
    PutNewEffect(c, schema.indexes, st, AfterWrite(st, x, c.dataKey(pk), Some(c.encode(r))), r, pk,
                 Covered(schema.indexes, r), db, k);
  }

  ghost predicate Wrote(outcome: Outcome) {
    outcome == Done || outcome == MissingField
  }

  lemma PutRecordExtends(c: Codec, schema: Schema, st: Store, x: Session, r: Record)
    requires Tracked(st, x)
    ensures Extends(st, x, PutRecord(c, schema, st, x, r).0)
    ensures schema.primaryKey in r ==>
      Extends(st, AfterGet(st, x, c.dataKey(r[schema.primaryKey])), PutRecord(c, schema, st, x, r).0)
  {
    if schema.primaryKey in r {
      var pk := r[schema.primaryKey];
      var y, before := AfterGet(st, x, c.dataKey(pk)), Answer(st, x, c.dataKey(pk));
      if before == None {
        PutRowExtends(c, schema, st, y, r, pk);
      } else if c.decode(before.value).Some? {
        var was := c.decode(before.value).value;
        DeleteOldExtends(c, schema.indexes, st, y, was, pk, true, |schema.indexes|);
        PutRowExtends(c, schema, st, DeleteOld(c, schema.indexes, st, y, was, pk, true, |schema.indexes|), r, pk);
      }
    }
  }

  lemma PutRecordAt(c: Codec, schema: Schema, st: Store, x: Session, r: Record, db: Db, k: Key)
    requires Wrote(PutRecord(c, schema, st, x, r).1)
    ensures var pk, before := r[schema.primaryKey], Answer(st, x, c.dataKey(r[schema.primaryKey]));
      View(db, PutRecord(c, schema, st, x, r).0, k) ==
      if PutsKey(c, schema.indexes, r, pk, Covered(schema.indexes, r), k) then Some("")
      else if k == c.dataKey(pk) then Some(c.encode(r))
      else if before.Some? && DeletesKey(c, schema.indexes, c.decode(before.value).value, pk, true, |schema.indexes|,
                                         k) then None
      else View(db, x, k)
  {
    var pk := r[schema.primaryKey];
    var y, before := AfterGet(st, x, c.dataKey(pk)), Answer(st, x, c.dataKey(pk));
    if before == None {
      PutRowShape(c, schema, st, y, r, pk, db, k);
    } else {
      var was := c.decode(before.value).value;
      DeleteOldEffect(c, schema.indexes, st, y, was, pk, true, |schema.indexes|, db, k);
      PutRowShape(c, schema, st, DeleteOld(c, schema.indexes, st, y, was, pk, true, |schema.indexes|), r, pk, db, k);
    }
  }

  /** The session's row is the row of the state it is replayed on. */
  lemma SameRow(c: Codec, st: Store, x: Session, z: Session, pk: string, db: Db)
    requires Tracked(st, x) && Extends(st, AfterGet(st, x, c.dataKey(pk)), z) && Sees(db, z)
    ensures At(Exec(db, x.writes), c.dataKey(pk)) == Answer(st, x, c.dataKey(pk))
  {
    ReadsRow(st, x, c.dataKey(pk), db);
    SeesEarlier(st, AfterGet(st, x, c.dataKey(pk)), z, db);
  }

  /** On any state that shows the session its recorded reads, a put rewrites the session's
      view of the state as `PutShape` says. */
  lemma PutRecordShape(c: Codec, schema: Schema, st: Store, x: Session, r: Record, db: Db)
    requires Tracked(st, x) && Sees(db, PutRecord(c, schema, st, x, r).0)
    requires Wrote(PutRecord(c, schema, st, x, r).1)
    ensures PutShape(c, schema, Exec(db, x.writes), Exec(db, PutRecord(c, schema, st, x, r).0.writes), r,
                     r[schema.primaryKey], Covered(schema.indexes, r))
  {
    var pk, z := r[schema.primaryKey], PutRecord(c, schema, st, x, r).0;
    PutRecordExtends(c, schema, st, x, r);
    SameRow(c, st, x, z, pk, db);
    forall k { PutRecordAt(c, schema, st, x, r, db, k); }
  }

  lemma DeleteRecordExtends(c: Codec, schema: Schema, st: Store, x: Session, pk: string)
    requires Tracked(st, x)
    ensures Extends(st, x, DeleteRecord(c, schema, st, x, pk).0)
    ensures Extends(st, AfterGet(st, x, c.dataKey(pk)), DeleteRecord(c, schema, st, x, pk).0)
  {
    var k := c.dataKey(pk);
    var y, before := AfterGet(st, x, k), Answer(st, x, k);
    if before.Some? && c.decode(before.value).Some? {
      var was := c.decode(before.value).value;
      DeleteOldExtends(c, schema.indexes, st, y, was, pk, false, |schema.indexes|);
      WriteExtends(st, y, DeleteOld(c, schema.indexes, st, y, was, pk, false, |schema.indexes|), k, None);
    }
  }

  lemma DeleteRecordAt(c: Codec, schema: Schema, st: Store, x: Session, pk: string, db: Db, k: Key)
    ensures var before := Answer(st, x, c.dataKey(pk));
      View(db, DeleteRecord(c, schema, st, x, pk).0, k) ==
      if before.Some? && c.decode(before.value).Some? &&
         (k == c.dataKey(pk) || DeletesKey(c, schema.indexes, c.decode(before.value).value, pk, false,
                                           |schema.indexes|, k))
      then None else View(db, x, k)
  {
    var y, before := AfterGet(st, x, c.dataKey(pk)), Answer(st, x, c.dataKey(pk));
    if before.Some? && c.decode(before.value).Some? {
      var was := c.decode(before.value).value;
      DeleteOldEffect(c, schema.indexes, st, y, was, pk, false, |schema.indexes|, db, k);
      WriteEffect(st, DeleteOld(c, schema.indexes, st, y, was, pk, false, |schema.indexes|), c.dataKey(pk), None, db,
                  k);
    }
  }

  lemma DeleteRecordShape(c: Codec, schema: Schema, st: Store, x: Session, pk: string, db: Db)
    requires Tracked(st, x) && Sees(db, DeleteRecord(c, schema, st, x, pk).0)
    ensures DeleteShape(c, schema, Exec(db, x.writes), Exec(db, DeleteRecord(c, schema, st, x, pk).0.writes), pk)
  {
    var z := DeleteRecord(c, schema, st, x, pk).0;
    DeleteRecordExtends(c, schema, st, x, pk);
    SameRow(c, st, x, z, pk, db);
    forall k { DeleteRecordAt(c, schema, st, x, pk, db, k); }
  }

  // ---------------------------------------------------------------- runs

  /** Whatever agreeing state shows the session its reads, its writes leave it agreeing. */
  ghost predicate Portable(c: Codec, schema: Schema, x: Session) {
    forall db: Db {:trigger Sees(db, x)} :: Agreement(c, schema, db) && Sees(db, x) ==>
      Agreement(c, schema, Exec(db, x.writes))
  }

  lemma PutKeepsPortable(c: Codec, schema: Schema, st: Store, x: Session, r: Record)
    requires Sound(c) && NamesDistinct(schema) && Tracked(st, x) && Portable(c, schema, x)
    requires PutRecord(c, schema, st, x, r).1 == MissingField ==> Harmless(schema, r)
    ensures Portable(c, schema, PutRecord(c, schema, st, x, r).0)
  {
    var z := PutRecord(c, schema, st, x, r).0;
    forall db: Db | Agreement(c, schema, db) && Sees(db, z) ensures Agreement(c, schema, Exec(db, z.writes)) {
      PutRecordExtends(c, schema, st, x, r);
      SeesEarlier(st, x, z, db);
      if Wrote(PutRecord(c, schema, st, x, r).1) {
        PutRecordShape(c, schema, st, x, r, db);
        PutAgreement(c, schema, Exec(db, x.writes), Exec(db, z.writes), r, r[schema.primaryKey]);
      }
    }
  }

  lemma DeleteKeepsPortable(c: Codec, schema: Schema, st: Store, x: Session, pk: string)
    requires Sound(c) && NamesDistinct(schema) && Tracked(st, x) && Portable(c, schema, x)
    ensures Portable(c, schema, DeleteRecord(c, schema, st, x, pk).0)
  {
    var z := DeleteRecord(c, schema, st, x, pk).0;
    forall db: Db | Agreement(c, schema, db) && Sees(db, z) ensures Agreement(c, schema, Exec(db, z.writes)) {
      DeleteRecordExtends(c, schema, st, x, pk);
      SeesEarlier(st, x, z, db);
      DeleteRecordShape(c, schema, st, x, pk, db);
      DeleteAgreement(c, schema, Exec(db, x.writes), Exec(db, z.writes), pk);
    }
  }

  lemma GetKeepsPortable(c: Codec, schema: Schema, st: Store, x: Session, k: Key)
    requires Tracked(st, x) && Portable(c, schema, x)
    ensures Portable(c, schema, AfterGet(st, x, k))
  {
    var z := AfterGet(st, x, k);
    forall db: Db | Agreement(c, schema, db) && Sees(db, z) ensures Agreement(c, schema, Exec(db, z.writes)) {
      ReadsRow(st, x, k, db);
      SeesEarlier(st, x, z, db);
    }
  }

  datatype RecordAction = Put(id: nat, record: Record) | Remove(id: nat, pk: string) | Plain(action: Action)

  /** `spoiled` are the sessions in which a put failed on a missing field and left an index behind. */
  datatype RecordState = RecordState(sys: System, spoiled: set<nat>)

  predicate Spoils(c: Codec, schema: Schema, st: Store, x: Session, r: Record) {
    PutRecord(c, schema, st, x, r).1 == MissingField && !Harmless(schema, r)
  }

  /** Record operations on open sessions, with every other step of the system in between. */
  ghost predicate RecordStep(c: Codec, schema: Schema, s: RecordState, a: RecordAction, s': RecordState) {
    var sys := s.sys;
    match a
    case Put(id, r) =>
      && id in sys.sessions
      && var x := sys.sessions[id];
         s' == RecordState(sys.(sessions := sys.sessions[id := PutRecord(c, schema, sys.store, x, r).0]),
                           if Spoils(c, schema, sys.store, x, r) then s.spoiled + {id} else s.spoiled)
    case Remove(id, pk) =>
      && id in sys.sessions
      && var x := sys.sessions[id];
         s' == s.(sys := sys.(sessions := sys.sessions[id := DeleteRecord(c, schema, sys.store, x, pk).0]))
    case Plain(action) => !action.Write? && Step(sys, action, s'.sys) && s'.spoiled == s.spoiled
  }

  ghost predicate RecordPath(c: Codec, schema: Schema, ss: seq<RecordState>, acts: seq<RecordAction>) {
    && |ss| == |acts| + 1 && ss[0] == RecordState(INITIAL, {})
    && forall i {:trigger acts[i]} :: 0 <= i < |acts| ==> RecordStep(c, schema, ss[i], acts[i], ss[i + 1])
  }

  /** The client rolls a spoiled session back, and late calls are in time. */
  ghost predicate Prudent(s: RecordState, a: RecordAction) {
    a.Plain? ==>
      && InTime(s.sys, a.action)
      && (a.action.CommitTxn? || a.action.CommitQuietly? ==> a.action.id !in s.spoiled)
  }

  ghost predicate RecordRun(c: Codec, schema: Schema, ss: seq<RecordState>, acts: seq<RecordAction>) {
    RecordPath(c, schema, ss, acts) && forall i {:trigger acts[i]} :: 0 <= i < |acts| ==> Prudent(ss[i], acts[i])
  }

  ghost function Agrees(c: Codec, schema: Schema): Db -> bool { db => Agreement(c, schema, db) }

  ghost predicate RecordInv(c: Codec, schema: Schema, s: RecordState) {
    && Inv(s.sys)
    && KeptAlone(Agrees(c, schema), s.sys.history)
    && AllPortable(c, schema, s.sys.sessions, s.spoiled)
    && forall id :: id in s.spoiled ==> id <= s.sys.nextId
  }

  lemma SessionTracked(s: System, id: nat)
    requires Inv(s) && id in s.sessions
    ensures Tracked(s.store, s.sessions[id])
  {
  }

  lemma SessionReplaced(s: System, id: nat, y: Session)
    requires Inv(s) && id in s.sessions && Extends(s.store, s.sessions[id], y)
    ensures Inv(s.(sessions := s.sessions[id := y]))
  {
  }

  lemma {:induction false} CommitKeptAlone(c: Codec, schema: Schema, h: seq<Txn>, x: Session, t: Txn)
    requires KeptAlone(Agrees(c, schema), h) && Portable(c, schema, x)
    requires t.observed == x.observed && t.writes == x.writes
    ensures KeptAlone(Agrees(c, schema), h + [t])
  {
    var P, h' := Agrees(c, schema), h + [t];
    forall i, db: Db | 0 <= i < |h'| && P(db) && Shows(db, h'[i]) ensures P(Exec(db, h'[i].writes)) {
      if i < |h| {
        assert h'[i] == h[i];
      } else {
        assert Sees(db, x);
      }
    }
  }

  lemma NewSessionPortable(c: Codec, schema: Schema, readTs: Ts)
    ensures Portable(c, schema, Session(readTs, map[], map[], map[]))
  {
    forall db: Db | Agreement(c, schema, db) ensures Agreement(c, schema, Exec(db, map[])) {
      assert Exec(db, map[]) == db;
    }
  }

  ghost predicate AllPortable(c: Codec, schema: Schema, sessions: map<nat, Session>, spoiled: set<nat>) {
    forall id :: id in sessions && id !in spoiled ==> Portable(c, schema, sessions[id])
  }

  lemma CommitKeepsPortable(c: Codec, schema: Schema, s: System, spoiled: set<nat>, id: nat)
    requires KeptAlone(Agrees(c, schema), s.history) && AllPortable(c, schema, s.sessions, spoiled)
    requires id in s.sessions && id !in spoiled
    ensures KeptAlone(Agrees(c, schema), Committed(s, id).history)
    ensures AllPortable(c, schema, Committed(s, id).sessions, spoiled)
  {
    var x := s.sessions[id];
    CommitKeptAlone(c, schema, s.history, x, Txn(s.lastApplied + 1, x.observed, x.writes));
    assert Committed(s, id).sessions == s.sessions - {id};
  }

  lemma PlainKeepsPortable(c: Codec, schema: Schema, s: System, spoiled: set<nat>, a: Action, s': System)
    requires Step(s, a, s') && !a.Write?
    requires KeptAlone(Agrees(c, schema), s.history) && AllPortable(c, schema, s.sessions, spoiled)
    requires forall id :: id in s.sessions ==> Tracked(s.store, s.sessions[id])
    requires a.CommitTxn? || a.CommitQuietly? ==> a.id !in spoiled
    ensures KeptAlone(Agrees(c, schema), s'.history) && AllPortable(c, schema, s'.sessions, spoiled)
  {
    match a
    case Get(id, k) => if id !in spoiled { GetKeepsPortable(c, schema, s.store, s.sessions[id], k); }
    case CommitTxn(id) => CommitKeepsPortable(c, schema, s, spoiled, id);
    case CommitQuietly(id) => CommitKeepsPortable(c, schema, s, spoiled, id);
    case BeginTxn => NewSessionPortable(c, schema, s.lastApplied);
    case Register(b) => NewSessionPortable(c, schema, s.loaded[b]);
    case _ =>
  }

  lemma IdsStay(s: System, a: Action, s': System)
    requires Step(s, a, s')
    ensures s.nextId <= s'.nextId
  {
  }

  lemma PlainKeepsRecordInv(c: Codec, schema: Schema, s: RecordState, a: Action, s': RecordState)
    requires RecordInv(c, schema, s) && RecordStep(c, schema, s, Plain(a), s') && Prudent(s, Plain(a))
    ensures RecordInv(c, schema, s')
  {
    StepKeepsInv(s.sys, a, s'.sys);
    forall id | id in s.sys.sessions ensures Tracked(s.sys.store, s.sys.sessions[id]) { SessionTracked(s.sys, id); }
    PlainKeepsPortable(c, schema, s.sys, s.spoiled, a, s'.sys);
    IdsStay(s.sys, a, s'.sys);
  }

  lemma SessionPortable(c: Codec, schema: Schema, sessions: map<nat, Session>, spoiled: set<nat>, id: nat, y: Session)
    requires AllPortable(c, schema, sessions, spoiled) && (id !in spoiled ==> Portable(c, schema, y))
    ensures AllPortable(c, schema, sessions[id := y], spoiled)
  {
  }

  lemma SpoiltOne(c: Codec, schema: Schema, sessions: map<nat, Session>, spoiled: set<nat>, id: nat, y: Session)
    requires AllPortable(c, schema, sessions, spoiled)
    ensures AllPortable(c, schema, sessions[id := y], spoiled + {id})
  {
  }

  lemma PutKeepsRecordInv(c: Codec, schema: Schema, s: RecordState, id: nat, r: Record, s': RecordState)
    requires Sound(c) && NamesDistinct(schema) && RecordInv(c, schema, s) && RecordStep(c, schema, s, Put(id, r), s')
    ensures RecordInv(c, schema, s')
  {
    var sys, x := s.sys, s.sys.sessions[id];
    var y := PutRecord(c, schema, sys.store, x, r).0;
    SessionTracked(sys, id);
    PutRecordExtends(c, schema, sys.store, x, r);
    SessionReplaced(sys, id, y);
    if Spoils(c, schema, sys.store, x, r) {
      SpoiltOne(c, schema, sys.sessions, s.spoiled, id, y);
    } else {
      if id !in s.spoiled { PutKeepsPortable(c, schema, sys.store, x, r); }
      SessionPortable(c, schema, sys.sessions, s.spoiled, id, y);
    }
  }

  lemma RemoveKeepsRecordInv(c: Codec, schema: Schema, s: RecordState, id: nat, pk: string, s': RecordState)
    requires Sound(c) && NamesDistinct(schema) && RecordInv(c, schema, s) &&
             RecordStep(c, schema, s, Remove(id, pk), s')
    ensures RecordInv(c, schema, s')
  {
    var sys, x := s.sys, s.sys.sessions[id];
    var y := DeleteRecord(c, schema, sys.store, x, pk).0;
    SessionTracked(sys, id);
    DeleteRecordExtends(c, schema, sys.store, x, pk);
    SessionReplaced(sys, id, y);
    if id !in s.spoiled { DeleteKeepsPortable(c, schema, sys.store, x, pk); }
    SessionPortable(c, schema, sys.sessions, s.spoiled, id, y);
  }

  lemma RecordStepKeepsInv(c: Codec, schema: Schema, s: RecordState, a: RecordAction, s': RecordState)
    requires Sound(c) && NamesDistinct(schema)
    requires RecordInv(c, schema, s) && RecordStep(c, schema, s, a, s') && Prudent(s, a)
    ensures RecordInv(c, schema, s')
  {
    match a
    case Put(id, r) => PutKeepsRecordInv(c, schema, s, id, r, s');
    case Remove(id, pk) => RemoveKeepsRecordInv(c, schema, s, id, pk, s');
    case Plain(action) => PlainKeepsRecordInv(c, schema, s, action, s');
  }

  lemma {:induction false} RecordRunKeepsInv(c: Codec, schema: Schema, ss: seq<RecordState>, acts: seq<RecordAction>,
                                             n: nat)
    requires Sound(c) && NamesDistinct(schema) && RecordRun(c, schema, ss, acts) && n < |ss|
    ensures RecordInv(c, schema, ss[n])
    decreases n
  {
    if n > 0 {
      RecordRunKeepsInv(c, schema, ss, acts, n - 1);
      var a := acts[n - 1];
      RecordStepKeepsInv(c, schema, ss[n - 1], a, ss[n]);
    }
  }

  /** In every run, each non-vector index agrees exactly with the live rows: in the committed
      store, in every open snapshot, and in the own view of every session whose puts went
      through or failed harmlessly. */
  lemma IndexesAgree(c: Codec, schema: Schema, ss: seq<RecordState>, acts: seq<RecordAction>, n: nat)
    requires Sound(c) && NamesDistinct(schema) && RecordRun(c, schema, ss, acts) && n < |ss|
    ensures Agreement(c, schema, Serial(ss[n].sys.history))
    ensures forall id :: id in ss[n].sys.sessions ==>
      var x, snapshot := ss[n].sys.sessions[id], SerialAt(ss[n].sys.history, ss[n].sys.sessions[id].readTs);
      Agreement(c, schema, snapshot) && (id !in ss[n].spoiled ==> Agreement(c, schema, Exec(snapshot, x.writes)))
  {
    var s, h, P := ss[n].sys, ss[n].sys.history, Agrees(c, schema);
    RecordRunKeepsInv(c, schema, ss, acts, n);
    PrefixesSatisfy(P, h, |h|);
    assert h[..|h|] == h;
    forall id | id in s.sessions
      ensures var x, snapshot := s.sessions[id], SerialAt(h, s.sessions[id].readTs);
        Agreement(c, schema, snapshot) && (id !in ss[n].spoiled ==> Agreement(c, schema, Exec(snapshot, x.writes)))
    {
      var x := s.sessions[id];
      var m := SerialAtIsPrefix(h, x.readTs);
      PrefixesSatisfy(P, h, m);
      assert P(SerialAt(h, x.readTs));
      assert Sees(SerialAt(h, x.readTs), x);
    }
  }

  lemma EmptyAgrees(c: Codec, schema: Schema)
    ensures Agreement(c, schema, map[])
  {
  }

  /** What a harmful put writes into an empty table breaks an index. */
  lemma HarmfulPut(c: Codec, schema: Schema, r: Record, x: Session)
    requires Sound(c) && NamesDistinct(schema) && schema.primaryKey in r && !Harmless(schema, r)
    requires x == Session(0, map[], map[], map[])
    ensures Spoils(c, schema, map[], x, r)
    ensures !Agreement(c, schema, Exec(map[], PutRecord(c, schema, map[], x, r).0.writes))
  {
    var z := PutRecord(c, schema, map[], x, r).0;
    EmptyAgrees(c, schema);
    assert Tracked(map[], x);
    PutRecordExtends(c, schema, map[], x, r);
    forall k | k in z.observed ensures z.observed[k] == At(map[], k) {
      assert z.observed[k] == ReadAt(map[], k, 0);
    }
    assert Sees(map[], z);
    PutRecordShape(c, schema, map[], x, r, map[]);
    assert Exec(map[], x.writes) == map[];
    PutAgreement(c, schema, map[], Exec(map[], z.writes), r, r[schema.primaryKey]);
  }

  /** Committing a spoiled session does break an index: for every record that misses an indexed
      field and has a later one, the run begin, put, commit ends in a committed store that
      disagrees with its rows. */
  lemma PartialPutBreaks(c: Codec, schema: Schema, r: Record) returns (ss: seq<RecordState>, acts: seq<RecordAction>)
    requires Sound(c) && NamesDistinct(schema) && schema.primaryKey in r && !Harmless(schema, r)
    ensures RecordPath(c, schema, ss, acts) && acts == [Plain(BeginTxn), Put(1, r), Plain(CommitTxn(1))]
    ensures !Agreement(c, schema, Serial(ss[3].sys.history))
  {
    var x := Session(0, map[], map[], map[]);
    HarmfulPut(c, schema, r, x);
    var s2;
    ss, acts, s2 := BeginPutCommit(c, schema, r, x);
    FirstCommit(c, schema, s2, PutRecord(c, schema, map[], x, r).0);
  }

  lemma BeginPutCommit(c: Codec, schema: Schema, r: Record, x: Session)
    returns (ss: seq<RecordState>, acts: seq<RecordAction>, s2: System)
    requires x == Session(0, map[], map[], map[]) && Spoils(c, schema, map[], x, r)
    ensures RecordPath(c, schema, ss, acts) && acts == [Plain(BeginTxn), Put(1, r), Plain(CommitTxn(1))]
    ensures s2.history == [] && s2.lastCommit == map[]
    ensures 1 in s2.sessions && s2.sessions[1] == PutRecord(c, schema, map[], x, r).0 && ss[3].sys == Commit(s2, 1)
  {
    var s1, z := Begin(INITIAL), PutRecord(c, schema, map[], x, r).0;
    assert s1.sessions == map[1 := x] && s1.store == map[];
    s2 := s1.(sessions := s1.sessions[1 := z]);
    var r0, r1, r2, r3 := RecordState(INITIAL, {}), RecordState(s1, {}), RecordState(s2, {} + {1}),
      RecordState(Commit(s2, 1), {} + {1});
    assert RecordStep(c, schema, r0, Plain(BeginTxn), r1);
    assert RecordStep(c, schema, r1, Put(1, r), r2);
    assert RecordStep(c, schema, r2, Plain(CommitTxn(1)), r3);
    ss, acts := [r0, r1, r2, r3], [Plain(BeginTxn), Put(1, r), Plain(CommitTxn(1))];
  }

  /** The first commit of a system leaves what its session wrote. */
  lemma FirstCommit(c: Codec, schema: Schema, s: System, z: Session)
    requires s.history == [] && s.lastCommit == map[] && 1 in s.sessions && s.sessions[1] == z
    requires !Agreement(c, schema, Exec(map[], z.writes))
    ensures !Agreement(c, schema, Serial(Commit(s, 1).history))
  {
    EmptyAgrees(c, schema);
    assert z.writes != map[] by { assert Exec(map[], map[]) == map[]; }
    assert Validates(s.lastCommit, z);
    var h := Commit(s, 1).history;
    assert h == [Txn(s.lastApplied + 1, z.observed, z.writes)];
    assert h[..0] == [];
  }
}
