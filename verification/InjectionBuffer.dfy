/**
 The durable queue of messages for a thread's next model step (src/agent/injection-buffer.ts): a SQL
 table and an in-memory array behind one interface.
 */
module InjectionBuffer {
  import opened Wrappers

  datatype Kind = WatcherCompletion | SubagentCompletion | UserMessage | WorkbenchSwitch

  datatype Message = Message(id: string, text: string)

  datatype Entry = Entry(key: string, kind: Kind, message: Message)

  datatype Row = Row(seqNo: int, entry: Entry)

  /** The pending rows in seq order, and the seq the next row gets. */
  datatype Buffer = Buffer(rows: seq<Row>, next: int)

  predicate HasKey(rows: seq<Row>, key: string) {
    exists i :: 0 <= i < |rows| && rows[i].entry.key == key
  }

  function Enqueue(b: Buffer, entry: Entry): Buffer {
    if HasKey(b.rows, entry.key) then b else Buffer(b.rows + [Row(b.next, entry)], b.next + 1)
  }

  function Without(rows: seq<Row>, seqs: set<int>): seq<Row> {
    if rows == [] then []
    else
      var last := rows[|rows| - 1];
      Without(rows[..|rows| - 1], seqs) + (if last.seqNo in seqs then [] else [last])
  }

  function DeleteDrained(b: Buffer, seqs: set<int>): Buffer {
    b.(rows := Without(b.rows, seqs))
  }

  function PendingKeys(rows: seq<Row>, kind: Kind): seq<string> {
    if rows == [] then []
    else
      var last := rows[|rows| - 1].entry;
      PendingKeys(rows[..|rows| - 1], kind) + (if last.kind == kind then [last.key] else [])
  }

  /** The row `remove` would take out. */
  function Removable(rows: seq<Row>, key: string, kind: Option<Kind>): Option<Row> {
    if rows == [] then None
    else
      var last := rows[|rows| - 1];
      if last.entry.key == key then (if kind.Some? && kind.value != last.entry.kind then None else Some(last))
      else Removable(rows[..|rows| - 1], key, kind)
  }

  function Remove(b: Buffer, key: string, kind: Option<Kind>): Buffer {
    match Removable(b.rows, key, kind)
    case None => b
    case Some(row) => DeleteDrained(b, {row.seqNo})
  }

  /** Rows in strict seq order below `next`, one per dedupe key. */
  predicate WellFormed(b: Buffer) {
    && (forall i, j :: 0 <= i < j < |b.rows| ==> b.rows[i].seqNo < b.rows[j].seqNo)
    && (forall i :: 0 <= i < |b.rows| ==> b.rows[i].seqNo < b.next)
    && (forall i, j :: 0 <= i < j < |b.rows| ==> b.rows[i].entry.key != b.rows[j].entry.key)
  }

  // ---------- deletion ----------

  lemma {:induction false} WithoutContains(rows: seq<Row>, seqs: set<int>)
    ensures forall r :: r in Without(rows, seqs) <==> r in rows && r.seqNo !in seqs
  {
    if rows != [] {
      WithoutContains(rows[..|rows| - 1], seqs);
      assert rows == rows[..|rows| - 1] + [rows[|rows| - 1]];
    }
  }

  predicate Rising(rows: seq<Row>) {
    forall i, j :: 0 <= i < j < |rows| ==> rows[i].seqNo < rows[j].seqNo
  }

  predicate KeysDistinct(rows: seq<Row>) {
    forall i, j :: 0 <= i < j < |rows| ==> rows[i].entry.key != rows[j].entry.key
  }

  lemma {:induction false} WithoutRises(rows: seq<Row>, seqs: set<int>)
    requires Rising(rows)
    ensures Rising(Without(rows, seqs))
  {
    if rows != [] {
      var n := |rows| - 1;
      WithoutRises(rows[..n], seqs);
      WithoutContains(rows[..n], seqs);
      BelowLast(rows, Without(rows[..n], seqs));
      SnocRises(Without(rows[..n], seqs), rows[n]);
    }
  }

  lemma {:induction false} BelowLast(rows: seq<Row>, kept: seq<Row>)
    requires Rising(rows) && rows != [] && forall r :: r in kept ==> r in rows[..|rows| - 1]
    ensures forall i :: 0 <= i < |kept| ==> kept[i].seqNo < rows[|rows| - 1].seqNo
  {
    forall i | 0 <= i < |kept| ensures kept[i].seqNo < rows[|rows| - 1].seqNo {
      assert kept[i] in kept;
    }
  }

  lemma {:induction false} SnocRises(rows: seq<Row>, r: Row)
    requires Rising(rows) && forall i :: 0 <= i < |rows| ==> rows[i].seqNo < r.seqNo
    ensures Rising(rows + [r])
  {
  }

  lemma {:induction false} WithoutKeepsKeys(rows: seq<Row>, seqs: set<int>)
    requires KeysDistinct(rows)
    ensures KeysDistinct(Without(rows, seqs))
  {
    if rows != [] {
      var n := |rows| - 1;
      WithoutKeepsKeys(rows[..n], seqs);
      WithoutContains(rows[..n], seqs);
      var kept := Without(rows[..n], seqs);
      forall i | 0 <= i < |kept| ensures kept[i].entry.key != rows[n].entry.key {
        assert kept[i] in rows[..n];
      }
    }
  }

  lemma {:induction false} DeleteKeepsWellFormed(b: Buffer, seqs: set<int>)
    requires WellFormed(b)
    ensures WellFormed(DeleteDrained(b, seqs))
  {
    WithoutRises(b.rows, seqs);
    WithoutKeepsKeys(b.rows, seqs);
    WithoutContains(b.rows, seqs);
    var kept := Without(b.rows, seqs);
    forall i | 0 <= i < |kept| ensures kept[i].seqNo < b.next {
      assert kept[i] in b.rows;
    }
  }

  lemma {:induction false} RemovableIsPending(rows: seq<Row>, key: string, kind: Option<Kind>)
    ensures var r := Removable(rows, key, kind);
            r.Some? ==> r.value in rows && r.value.entry.key == key && (kind.Some? ==> r.value.entry.kind == kind.value)
  {
    if rows != [] {
      RemovableIsPending(rows[..|rows| - 1], key, kind);
    }
  }

  lemma {:induction false} EnqueueKeepsWellFormed(b: Buffer, entry: Entry)
    requires WellFormed(b)
    ensures WellFormed(Enqueue(b, entry))
  {
  }

  // ---------- splicing one row out ----------

  lemma {:induction false} WithoutAbsent(rows: seq<Row>, seqs: set<int>)
    requires forall i :: 0 <= i < |rows| ==> rows[i].seqNo !in seqs
    ensures Without(rows, seqs) == rows
  {
    if rows != [] {
      WithoutAbsent(rows[..|rows| - 1], seqs);
    }
  }

  /** In a well-formed buffer deleting one row's seq is splicing it out. */
  lemma {:induction false} DeleteIsSplice(rows: seq<Row>, i: nat)
    requires Rising(rows) && i < |rows|
    ensures Without(rows, {rows[i].seqNo}) == rows[..i] + rows[i + 1..]
  {
    var n := |rows| - 1;
    var front := rows[..n];
    if i == n {
      WithoutAbsent(front, {rows[i].seqNo});
      assert rows[i + 1..] == [];
    } else {
      assert front[i] == rows[i];
      DeleteIsSplice(front, i);
      assert front[..i] + front[i + 1..] + [rows[n]] == rows[..i] + rows[i + 1..];
    }
  }

  lemma {:induction false} RemovableAt(rows: seq<Row>, key: string, kind: Option<Kind>, i: nat)
    requires KeysDistinct(rows) && i < |rows| && rows[i].entry.key == key
    ensures Removable(rows, key, kind) == if kind.Some? && kind.value != rows[i].entry.kind then None else Some(rows[i])
  {
    var n := |rows| - 1;
    if i < n {
      assert rows[i].entry.key != rows[n].entry.key;
      assert rows[..n][i] == rows[i];
      RemovableAt(rows[..n], key, kind, i);
    }
  }

  lemma {:induction false} NotRemovable(rows: seq<Row>, key: string, kind: Option<Kind>)
    requires forall i :: 0 <= i < |rows| ==> rows[i].entry.key != key
    ensures Removable(rows, key, kind) == None
  {
    if rows != [] {
      NotRemovable(rows[..|rows| - 1], key, kind);
    }
  }

  /** An entry goes behind the pending ones under the next seq, unless its key is pending already. */
  lemma {:induction false} EnqueueExact(b: Buffer, entry: Entry)
    ensures Enqueue(b, entry) ==
            if exists r :: r in b.rows && r.entry.key == entry.key then b
            else Buffer(b.rows + [Row(b.next, entry)], b.next + 1)
  {
    if HasKey(b.rows, entry.key) {
      var i :| 0 <= i < |b.rows| && b.rows[i].entry.key == entry.key;
      assert b.rows[i] in b.rows;
    }
  }

  /** Removing takes out exactly the row with the key, if it is of the kind asked for. */
  lemma {:induction false} RemoveExact(b: Buffer, key: string, kind: Option<Kind>)
    requires WellFormed(b)
    ensures forall i :: 0 <= i < |b.rows| && b.rows[i].entry.key == key ==>
              Remove(b, key, kind) == if kind.None? || kind.value == b.rows[i].entry.kind
                                      then Buffer(b.rows[..i] + b.rows[i + 1..], b.next) else b
    ensures (forall r :: r in b.rows ==> r.entry.key != key) ==> Remove(b, key, kind) == b
  {
    forall i | 0 <= i < |b.rows| && b.rows[i].entry.key == key
      ensures Remove(b, key, kind) == if kind.None? || kind.value == b.rows[i].entry.kind
                                      then Buffer(b.rows[..i] + b.rows[i + 1..], b.next) else b
    {
      RemovableAt(b.rows, key, kind, i);
      DeleteIsSplice(b.rows, i);
    }
    if forall r :: r in b.rows ==> r.entry.key != key {
      NotRemovable(b.rows, key, kind);
    }
  }

  /** Rows of one kind among the first `n`. */
  function OfKind(rows: seq<Row>, kind: Kind, n: nat): nat
    requires n <= |rows|
  {
    if n == 0 then 0 else OfKind(rows, kind, n - 1) + (if rows[n - 1].entry.kind == kind then 1 else 0)
  }

  lemma {:induction false} OfKindFront(rows: seq<Row>, kind: Kind, n: nat)
    requires n < |rows|
    ensures OfKind(rows[..|rows| - 1], kind, n) == OfKind(rows, kind, n)
  {
    if n > 0 {
      OfKindFront(rows, kind, n - 1);
    }
  }

  lemma {:induction false} OfKindGrows(rows: seq<Row>, kind: Kind, i: nat, n: nat)
    requires i <= n <= |rows|
    ensures OfKind(rows, kind, i) <= OfKind(rows, kind, n)
  {
    if i < n {
      OfKindGrows(rows, kind, i, n - 1);
    }
  }

  /** The pending keys of a kind are exactly those of its rows, in their order. */
  lemma {:induction false} PendingKeysExact(rows: seq<Row>, kind: Kind, i: nat)
    ensures |PendingKeys(rows, kind)| == OfKind(rows, kind, |rows|)
    ensures i < |rows| && rows[i].entry.kind == kind ==>
              OfKind(rows, kind, i) < |PendingKeys(rows, kind)|
              && PendingKeys(rows, kind)[OfKind(rows, kind, i)] == rows[i].entry.key
  {
    if rows != [] {
      var n := |rows| - 1;
      PendingKeysExact(rows[..n], kind, i);
      OfKindFront(rows, kind, n);
      if i < n {
        OfKindFront(rows, kind, i);
        OfKindGrows(rows, kind, i, n);
      }
    }
  }

  class MemoryInjectionBuffer {
    var rows: seq<Row>
    var nextSeq: int

    function View(): Buffer
      reads this
    {
      Buffer(rows, nextSeq)
    }

    predicate Valid()
      reads this
    {
      WellFormed(View())
    }

    constructor ()
      ensures Valid() && View() == Buffer([], 0)
    {
      rows, nextSeq := [], 0;
    }

    method EnqueueEntry(entry: Entry) returns (written: bool)
      requires Valid()
      modifies this
      ensures Valid() && View() == Enqueue(old(View()), entry)
      ensures written == !HasKey(old(rows), entry.key)
    {
      EnqueueKeepsWellFormed(View(), entry);
      if HasKey(rows, entry.key) {
        return false;
      }
      rows := rows + [Row(nextSeq, entry)];
      nextSeq := nextSeq + 1;
      return true;
    }

    method PeekAll() returns (peeked: seq<Row>)
      ensures peeked == View().rows
    {
      return rows;
    }

    method KeysOf(kind: Kind) returns (keys: seq<string>)
      ensures keys == PendingKeys(View().rows, kind)
    {
      keys := [];
      for i := 0 to |rows|
        invariant keys == PendingKeys(rows[..i], kind)
      {
        assert rows[..i + 1][..i] == rows[..i];
        if rows[i].entry.kind == kind {
          keys := keys + [rows[i].entry.key];
        }
      }
      assert rows[..|rows|] == rows;
    }

    method IsEmpty() returns (empty: bool)
      ensures empty == (View().rows == [])
    {
      return |rows| == 0;
    }

    method DeleteSeqs(seqs: set<int>)
      requires Valid()
      modifies this
      ensures Valid() && View() == DeleteDrained(old(View()), seqs)
    {
      DeleteKeepsWellFormed(View(), seqs);
      var remaining: seq<Row> := [];
      for i := 0 to |rows|
        invariant remaining == Without(rows[..i], seqs)
      {
        assert rows[..i + 1][..i] == rows[..i];
        if rows[i].seqNo !in seqs {
          remaining := remaining + [rows[i]];
        }
      }
      assert rows[..|rows|] == rows;
      rows := remaining;
    }

    /** Finds the key's row by a forward scan and splices it out. */
    method RemoveKey(key: string, kind: Option<Kind>) returns (removed: Option<Message>)
      requires Valid()
      modifies this
      ensures Valid() && View() == Remove(old(View()), key, kind)
      ensures var row := Removable(old(rows), key, kind);
              removed == if row.Some? then Some(row.value.entry.message) else None
    {
      var idx := 0;
      while idx < |rows| && rows[idx].entry.key != key
        invariant idx <= |rows| && forall i :: 0 <= i < idx ==> rows[i].entry.key != key
      {
        idx := idx + 1;
      }
      if idx == |rows| {
        NotRemovable(rows, key, kind);
        return None;
      }
      RemovableAt(rows, key, kind, idx);
      if kind.Some? && kind.value != rows[idx].entry.kind {
        return None;
      }
      var row := rows[idx];
      DeleteIsSplice(rows, idx);
      DeleteKeepsWellFormed(View(), {row.seqNo});
      rows := rows[..idx] + rows[idx + 1..];
      return Some(row.entry.message);
    }
  }

  // ---------- the table ----------

  /** The table's rows with seq at most `n`, in seq order. */
  function RowsUpTo(table: map<int, Entry>, n: nat): seq<Row> {
    if n == 0 then [] else RowsUpTo(table, n - 1) + (if n in table then [Row(n, table[n])] else [])
  }

  lemma {:induction false} RowsUpToContains(table: map<int, Entry>, n: nat)
    ensures forall r :: r in RowsUpTo(table, n) <==> 1 <= r.seqNo <= n && r.seqNo in table && r.entry == table[r.seqNo]
  {
    if n > 0 {
      RowsUpToContains(table, n - 1);
    }
  }

  lemma {:induction false} RowsUpToRises(table: map<int, Entry>, n: nat)
    ensures Rising(RowsUpTo(table, n))
    ensures forall i :: 0 <= i < |RowsUpTo(table, n)| ==> RowsUpTo(table, n)[i].seqNo <= n
  {
    if n > 0 {
      RowsUpToRises(table, n - 1);
    }
  }

  lemma {:induction false} RowsUpToAgree(a: map<int, Entry>, b: map<int, Entry>, n: nat)
    requires forall k :: 1 <= k <= n ==> (k in a <==> k in b) && (k in a ==> a[k] == b[k])
    ensures RowsUpTo(a, n) == RowsUpTo(b, n)
  {
    if n > 0 {
      RowsUpToAgree(a, b, n - 1);
    }
  }

  /** Deleting seqs from the table deletes exactly those rows of the listing. */
  lemma {:induction false} RowsUpToDelete(table: map<int, Entry>, n: nat, seqs: set<int>)
    ensures RowsUpTo(table - seqs, n) == Without(RowsUpTo(table, n), seqs)
  {
    if n > 0 {
      RowsUpToDelete(table, n - 1, seqs);
      if n in table {
        assert RowsUpTo(table, n)[..|RowsUpTo(table, n)| - 1] == RowsUpTo(table, n - 1);
      } else {
        assert RowsUpTo(table, n) == RowsUpTo(table, n - 1);
        assert RowsUpTo(table - seqs, n) == RowsUpTo(table - seqs, n - 1);
      }
    }
  }

  lemma {:induction false} RowsUpToGrows(table: map<int, Entry>, n: nat)
    requires n > 0
    ensures var before, after := RowsUpTo(table, n - 1), RowsUpTo(table, n);
            if n in table then after == before + [Row(n, table[n])] && after[..|after| - 1] == before
            else after == before
  {
  }

  lemma {:induction false} KeysNext(table: map<int, Entry>, n: nat, kind: Kind)
    requires n > 0
    ensures PendingKeys(RowsUpTo(table, n), kind)
            == PendingKeys(RowsUpTo(table, n - 1), kind)
               + (if n in table && table[n].kind == kind then [table[n].key] else [])
  {
    RowsUpToGrows(table, n);
  }

  lemma {:induction false} EmptyListing(table: map<int, Entry>, n: nat)
    requires forall k :: k in table ==> 1 <= k <= n
    ensures RowsUpTo(table, n) == [] <==> !exists k :: k in table
  {
    RowsUpToContains(table, n);
    var rows := RowsUpTo(table, n);
    if k :| k in table {
      assert Row(k, table[k]) in rows;
    } else if rows != [] {
      assert rows[0] in rows;
    }
  }

  /** The `pending_injections` table with its autoincrement key. */
  class SqlInjectionBuffer {
    var table: map<int, Entry>
    var lastSeq: nat

    function View(): Buffer
      reads this
    {
      Buffer(RowsUpTo(table, lastSeq), lastSeq + 1)
    }

    predicate Valid()
      reads this
    {
      (forall k :: k in table ==> 1 <= k <= lastSeq) && WellFormed(View())
    }

    constructor ()
      ensures Valid() && View() == Buffer([], 1)
    {
      table, lastSeq := map[], 0;
    }

    method EnqueueEntry(entry: Entry) returns (written: bool)
      requires Valid()
      modifies this
      ensures Valid() && View() == Enqueue(old(View()), entry)
      ensures written == !HasKey(old(View()).rows, entry.key)
    {
      hide HasKey, WellFormed;
      KeyIsListed(table, lastSeq, entry.key);
      EnqueueKeepsWellFormed(View(), entry);
      if exists k :: k in table && table[k].key == entry.key {
        return false;
      }
      RowsUpToAgree(table, table[lastSeq + 1 := entry], lastSeq);
      lastSeq := lastSeq + 1;
      table := table[lastSeq := entry];
      return true;
    }

    /** `SELECT ... ORDER BY seq ASC`. */
    method PeekAll() returns (peeked: seq<Row>)
      requires Valid()
      ensures peeked == View().rows && Rising(peeked)
    {
      RowsUpToRises(table, lastSeq);
      peeked := [];
      for n := 1 to lastSeq + 1
        invariant peeked == RowsUpTo(table, n - 1)
      {
        if n in table {
          peeked := peeked + [Row(n, table[n])];
        }
      }
    }

    method KeysOf(kind: Kind) returns (keys: seq<string>)
      requires Valid()
      ensures keys == PendingKeys(View().rows, kind)
    {
      keys := [];
      for n := 1 to lastSeq + 1
        invariant keys == PendingKeys(RowsUpTo(table, n - 1), kind)
      {
        KeysNext(table, n, kind);
        if n in table && table[n].kind == kind {
          keys := keys + [table[n].key];
        }
      }
    }

    method IsEmpty() returns (empty: bool)
      requires Valid()
      ensures empty == (View().rows == [])
    {
      EmptyListing(table, lastSeq);
      empty := !exists k :: k in table;
    }

    method DeleteSeqs(seqs: set<int>)
      requires Valid()
      modifies this
      ensures Valid() && View() == DeleteDrained(old(View()), seqs)
    {
      RowsUpToDelete(table, lastSeq, seqs);
      DeleteKeepsWellFormed(View(), seqs);
      table := table - seqs;
    }

    method RemoveKey(key: string, kind: Option<Kind>) returns (removed: Option<Message>)
      requires Valid()
      modifies this
      ensures Valid() && View() == Remove(old(View()), key, kind)
      ensures var row := Removable(old(View()).rows, key, kind);
              removed == if row.Some? then Some(row.value.entry.message) else None
    {
      KeyIsListed(table, lastSeq, key);
      if !exists k :: k in table && table[k].key == key {
        NotRemovable(View().rows, key, kind);
        return None;
      }
      hide Without, RowsUpTo, Removable, Remove;
      var k :| k in table && table[k].key == key;
      RowOfKey(View().rows, table, lastSeq, k, kind);
      if kind.Some? && table[k].kind != kind.value {
        return None;
      }
      removed := Some(table[k].message);
      RemoveIsDelete(View(), table, lastSeq, k, kind);
      table := map j | j in table && table[j].key != key :: table[j];
    }
  }

  /** Deleting by dedupe key deletes one row of the listing. */
  lemma {:induction false} RemoveIsDelete(b: Buffer, table: map<int, Entry>, n: nat, k: int, kind: Option<Kind>)
    requires b == Buffer(RowsUpTo(table, n), n + 1) && WellFormed(b)
    requires (forall j :: j in table ==> 1 <= j <= n) && k in table && (kind.Some? ==> table[k].kind == kind.value)
    ensures var left := map j | j in table && table[j].key != table[k].key :: table[j];
            && left.Keys <= table.Keys && Remove(b, table[k].key, kind) == Buffer(RowsUpTo(left, n), n + 1)
            && WellFormed(Buffer(RowsUpTo(left, n), n + 1))
  {
    hide Without, RowsUpTo, Removable;
    RowOfKey(b.rows, table, n, k, kind);
    OnlyThatKey(table, n, k);
    RowsUpToDelete(table, n, {k});
    DeleteKeepsWellFormed(b, {k});
  }

  lemma {:induction false} KeyIsListed(table: map<int, Entry>, n: nat, key: string)
    requires forall k :: k in table ==> 1 <= k <= n
    ensures HasKey(RowsUpTo(table, n), key) <==> exists k :: k in table && table[k].key == key
  {
    RowsUpToContains(table, n);
    var rows := RowsUpTo(table, n);
    if HasKey(rows, key) {
      var i :| 0 <= i < |rows| && rows[i].entry.key == key;
      assert rows[i] in rows;
    }
    if exists k :: k in table && table[k].key == key {
      var k :| k in table && table[k].key == key;
      assert Row(k, table[k]) in rows;
    }
  }

  lemma {:induction false} RowOfKey(rows: seq<Row>, table: map<int, Entry>, n: nat, k: int, kind: Option<Kind>)
    requires rows == RowsUpTo(table, n) && KeysDistinct(rows) && k in table && 1 <= k <= n
    ensures Removable(rows, table[k].key, kind)
            == if kind.Some? && kind.value != table[k].kind then None else Some(Row(k, table[k]))
  {
    RowsUpToContains(table, n);
    assert Row(k, table[k]) in rows;
    var i :| 0 <= i < |rows| && rows[i] == Row(k, table[k]);
    RemovableAt(rows, table[k].key, kind, i);
  }

  /** Deleting by dedupe key deletes one row. */
  lemma {:induction false} OnlyThatKey(table: map<int, Entry>, n: nat, k: int)
    requires (forall j :: j in table ==> 1 <= j <= n) && k in table && KeysDistinct(RowsUpTo(table, n))
    ensures (map j | j in table && table[j].key != table[k].key :: table[j]) == table - {k}
  {
    RowsUpToContains(table, n);
    var rows := RowsUpTo(table, n);
    forall j | j in table && j != k ensures table[j].key != table[k].key {
      assert Row(j, table[j]) in rows && Row(k, table[k]) in rows;
    }
  }

  // ---------- the two buffers behave alike ----------

  datatype Op =
    | DoEnqueue(entry: Entry)
    | DoPeekAll
    | DoDelete(seqs: set<int>)
    | DoPendingKeys(kind: Kind)
    | DoRemove(key: string, only: Option<Kind>)
    | DoIsEmpty

  datatype Answer =
    | Written(written: bool)
    | Peeked(rows: seq<Row>)
    | Deleted
    | Keys(keys: seq<string>)
    | Removed(message: Option<Message>)
    | Empty(empty: bool)

  function After(b: Buffer, op: Op): Buffer {
    match op
    case DoEnqueue(entry) => Enqueue(b, entry)
    case DoDelete(seqs) => DeleteDrained(b, seqs)
    case DoRemove(key, only) => Remove(b, key, only)
    case _ => b
  }

  function Reply(b: Buffer, op: Op): Answer {
    match op
    case DoEnqueue(entry) => Written(!HasKey(b.rows, entry.key))
    case DoPeekAll => Peeked(b.rows)
    case DoDelete(_) => Deleted
    case DoPendingKeys(kind) => Keys(PendingKeys(b.rows, kind))
    case DoRemove(key, only) =>
      var row := Removable(b.rows, key, only);
      Removed(if row.Some? then Some(row.value.entry.message) else None)
    case DoIsEmpty => Empty(b.rows == [])
  }

  function AfterAll(b: Buffer, ops: seq<Op>): Buffer {
    if ops == [] then b else After(AfterAll(b, ops[..|ops| - 1]), ops[|ops| - 1])
  }

  function Replies(b: Buffer, ops: seq<Op>): seq<Answer> {
    if ops == [] then []
    else Replies(b, ops[..|ops| - 1]) + [Reply(AfterAll(b, ops[..|ops| - 1]), ops[|ops| - 1])]
  }

  method PerformInMemory(buffer: MemoryInjectionBuffer, op: Op) returns (answer: Answer)
    requires buffer.Valid()
    modifies buffer
    ensures buffer.Valid() && buffer.View() == After(old(buffer.View()), op) && answer == Reply(old(buffer.View()), op)
  {
    match op {
      case DoEnqueue(entry) =>
        var written := buffer.EnqueueEntry(entry);
        answer := Written(written);
      case DoPeekAll =>
        var rows := buffer.PeekAll();
        answer := Peeked(rows);
      case DoDelete(seqs) =>
        buffer.DeleteSeqs(seqs);
        answer := Deleted;
      case DoPendingKeys(kind) =>
        var keys := buffer.KeysOf(kind);
        answer := Keys(keys);
      case DoRemove(key, only) =>
        var message := buffer.RemoveKey(key, only);
        answer := Removed(message);
      case DoIsEmpty =>
        var empty := buffer.IsEmpty();
        answer := Empty(empty);
    }
  }

  method PerformInSql(buffer: SqlInjectionBuffer, op: Op) returns (answer: Answer)
    requires buffer.Valid()
    modifies buffer
    ensures buffer.Valid() && buffer.View() == After(old(buffer.View()), op) && answer == Reply(old(buffer.View()), op)
  {
    match op {
      case DoEnqueue(entry) =>
        var written := buffer.EnqueueEntry(entry);
        answer := Written(written);
      case DoPeekAll =>
        var rows := buffer.PeekAll();
        answer := Peeked(rows);
      case DoDelete(seqs) =>
        buffer.DeleteSeqs(seqs);
        answer := Deleted;
      case DoPendingKeys(kind) =>
        var keys := buffer.KeysOf(kind);
        answer := Keys(keys);
      case DoRemove(key, only) =>
        var message := buffer.RemoveKey(key, only);
        answer := Removed(message);
      case DoIsEmpty =>
        var empty := buffer.IsEmpty();
        answer := Empty(empty);
    }
  }

  function ShiftRows(rows: seq<Row>, d: int): seq<Row> {
    seq(|rows|, i requires 0 <= i < |rows| => rows[i].(seqNo := rows[i].seqNo + d))
  }

  function Shift(b: Buffer, d: int): Buffer {
    Buffer(ShiftRows(b.rows, d), b.next + d)
  }

  function ShiftSeqs(seqs: set<int>, d: int): set<int> {
    set k | k in seqs :: k + d
  }

  function ShiftOp(op: Op, d: int): Op {
    if op.DoDelete? then DoDelete(ShiftSeqs(op.seqs, d)) else op
  }

  function ShiftAnswer(a: Answer, d: int): Answer {
    if a.Peeked? then Peeked(ShiftRows(a.rows, d)) else a
  }

  function ShiftOps(ops: seq<Op>, d: int): seq<Op> {
    seq(|ops|, i requires 0 <= i < |ops| => ShiftOp(ops[i], d))
  }

  function ShiftAnswers(answers: seq<Answer>, d: int): seq<Answer> {
    seq(|answers|, i requires 0 <= i < |answers| => ShiftAnswer(answers[i], d))
  }

  lemma {:induction false} ShiftFront(rows: seq<Row>, d: int)
    requires rows != []
    ensures ShiftRows(rows, d)[..|rows| - 1] == ShiftRows(rows[..|rows| - 1], d)
  {
  }

  lemma {:induction false} ShiftWithout(rows: seq<Row>, seqs: set<int>, d: int)
    ensures ShiftRows(Without(rows, seqs), d) == Without(ShiftRows(rows, d), ShiftSeqs(seqs, d))
  {
    if rows != [] {
      var last := rows[|rows| - 1];
      ShiftFront(rows, d);
      ShiftWithout(rows[..|rows| - 1], seqs, d);
      assert last.seqNo in seqs <==> last.seqNo + d in ShiftSeqs(seqs, d);
    }
  }

  lemma {:induction false} ShiftKeys(rows: seq<Row>, kind: Kind, d: int)
    ensures PendingKeys(ShiftRows(rows, d), kind) == PendingKeys(rows, kind)
  {
    if rows != [] {
      ShiftFront(rows, d);
      ShiftKeys(rows[..|rows| - 1], kind, d);
    }
  }

  lemma {:induction false} ShiftRemovable(rows: seq<Row>, key: string, kind: Option<Kind>, d: int)
    ensures var r := Removable(rows, key, kind);
            Removable(ShiftRows(rows, d), key, kind) ==
            if r.Some? then Some(r.value.(seqNo := r.value.seqNo + d)) else None
  {
    if rows != [] {
      ShiftFront(rows, d);
      ShiftRemovable(rows[..|rows| - 1], key, kind, d);
    }
  }

  lemma {:induction false} ShiftHasKey(rows: seq<Row>, key: string, d: int)
    ensures HasKey(ShiftRows(rows, d), key) <==> HasKey(rows, key)
  {
    if HasKey(rows, key) {
      var i :| 0 <= i < |rows| && rows[i].entry.key == key;
      assert ShiftRows(rows, d)[i].entry.key == key;
    }
  }

  lemma {:induction false} ShiftStep(b: Buffer, op: Op, d: int)
    ensures After(Shift(b, d), ShiftOp(op, d)) == Shift(After(b, op), d)
    ensures Reply(Shift(b, d), ShiftOp(op, d)) == ShiftAnswer(Reply(b, op), d)
  {
    match op
    case DoEnqueue(entry) =>
      ShiftHasKey(b.rows, entry.key, d);
      assert ShiftRows(b.rows + [Row(b.next, entry)], d) == ShiftRows(b.rows, d) + [Row(b.next + d, entry)];
    case DoDelete(seqs) => ShiftWithout(b.rows, seqs, d);
    case DoPendingKeys(kind) => ShiftKeys(b.rows, kind, d);
    case DoRemove(key, only) =>
      ShiftRemovable(b.rows, key, only, d);
      var r := Removable(b.rows, key, only);
      if r.Some? {
        ShiftWithout(b.rows, {r.value.seqNo}, d);
        assert ShiftSeqs({r.value.seqNo}, d) == {r.value.seqNo + d};
      }
    case _ =>
  }

  lemma {:induction false} ShiftRun(b: Buffer, ops: seq<Op>, d: int)
    ensures AfterAll(Shift(b, d), ShiftOps(ops, d)) == Shift(AfterAll(b, ops), d)
    ensures Replies(Shift(b, d), ShiftOps(ops, d)) == ShiftAnswers(Replies(b, ops), d)
  {
    if ops != [] {
      var front := ops[..|ops| - 1];
      assert ShiftOps(ops, d)[..|ops| - 1] == ShiftOps(front, d);
      ShiftRun(b, front, d);
      ShiftStep(AfterAll(b, front), ops[|ops| - 1], d);
    }
  }

  /** Over every operation sequence the array and the table give the same answers, except that the
      table numbers its rows from one instead of zero. */
  lemma {:induction false} MemoryRefinesSql(ops: seq<Op>)
    ensures Replies(Buffer([], 1), ShiftOps(ops, 1)) == ShiftAnswers(Replies(Buffer([], 0), ops), 1)
    ensures AfterAll(Buffer([], 1), ShiftOps(ops, 1)) == Shift(AfterAll(Buffer([], 0), ops), 1)
  {
    assert Shift(Buffer([], 0), 1) == Buffer([], 1);
    ShiftRun(Buffer([], 0), ops, 1);
  }

  /** One operation on both buffers, each given the seqs it handed out itself. */
  method PerformOnBoth(list: MemoryInjectionBuffer, table: SqlInjectionBuffer, op: Op) returns (a: Answer, b: Answer)
    requires list.Valid() && table.Valid() && table.View() == Shift(list.View(), 1)
    modifies list, table
    ensures list.Valid() && table.Valid() && table.View() == Shift(list.View(), 1)
    ensures list.View() == After(old(list.View()), op) && a == Reply(old(list.View()), op)
    ensures b == ShiftAnswer(a, 1)
  {
    ShiftStep(list.View(), op, 1);
    a := PerformInMemory(list, op);
    b := PerformInSql(table, ShiftOp(op, 1));
  }

  /** Both buffers, fresh, through one operation sequence. */
  method Lockstep(ops: seq<Op>) returns (memory: seq<Answer>, sql: seq<Answer>)
    ensures memory == Replies(Buffer([], 0), ops)
    ensures sql == ShiftAnswers(memory, 1)
  {
    var list := new MemoryInjectionBuffer();
    var table := new SqlInjectionBuffer();
    assert table.View() == Shift(list.View(), 1);
    hide After, Reply, Shift, ShiftAnswer, RowsUpTo, WellFormed;
    memory, sql := [], [];
    ghost var state := list.View();
    for i := 0 to |ops|
      invariant list.Valid() && table.Valid() && fresh(list) && fresh(table)
      invariant table.View() == Shift(list.View(), 1) && list.View() == state
      invariant state == AfterAll(Buffer([], 0), ops[..i]) && memory == Replies(Buffer([], 0), ops[..i])
      invariant sql == ShiftAnswers(memory, 1)
    {
      RepliesSnoc(Buffer([], 0), ops, i);
      var a, b := PerformOnBoth(list, table, ops[i]);
      ShiftAnswersSnoc(memory, a, 1);
      memory, sql, state := memory + [a], sql + [b], After(state, ops[i]);
    }
    assert ops[..|ops|] == ops;
  }

  lemma {:induction false} RepliesSnoc(b: Buffer, ops: seq<Op>, i: nat)
    requires i < |ops|
    ensures AfterAll(b, ops[..i + 1]) == After(AfterAll(b, ops[..i]), ops[i])
    ensures Replies(b, ops[..i + 1]) == Replies(b, ops[..i]) + [Reply(AfterAll(b, ops[..i]), ops[i])]
  {
    assert ops[..i + 1][..i] == ops[..i];
  }

  lemma {:induction false} ShiftAnswersSnoc(answers: seq<Answer>, a: Answer, d: int)
    ensures ShiftAnswers(answers + [a], d) == ShiftAnswers(answers, d) + [ShiftAnswer(a, d)]
  {
  }
}
