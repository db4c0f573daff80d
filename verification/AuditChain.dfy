/** The audit log's hash chain: rows sealed at flush time, appended by
    transactions that run at the same time, and what the last hash pins down. */
module AuditChain {
  import opened Base

  /** What the hash covers, beside the previous hash. */
  datatype Fields = Fields(action: string, oldValue: Option<string>, newValue: Option<string>, actorType: string,
                           actorName: Option<string>, createdAt: Option<string>, extraData: Option<string>)

  /** HMAC-SHA256 of the canonical JSON, under the server's key. */
  type Mac = (Fields, Option<string>) -> string

  /** A row of the table; `requestId` is not among the hashed values. */
  datatype Row = Row(requestId: int, fields: Fields, previous: Option<string>, entry: string)

  ghost predicate CollisionFree(mac: Mac) {
    forall f, p, g, q :: mac(f, p) == mac(g, q) ==> f == g && p == q
  }

  function HeadOf(rows: seq<Row>, start: Option<string>): Option<string> {
    if rows == [] then start else Some(rows[|rows| - 1].entry)
  }

  /** Row `i` names the hash of the row before it, and its own hash recomputes. */
  predicate Linked(mac: Mac, rows: seq<Row>, start: Option<string>, i: int)
    requires 0 <= i < |rows|
  {
    && rows[i].previous == (if i == 0 then start else Some(rows[i - 1].entry))
    && rows[i].entry == mac(rows[i].fields, rows[i].previous)
  }

  /** Recomputing every hash finds nothing wrong. */
  predicate ValidChain(mac: Mac, rows: seq<Row>, start: Option<string>) {
    forall i :: 0 <= i < |rows| ==> Linked(mac, rows, start, i)
  }

  // ---- what a head hash says ---------------------------------------------

  function Hashed(rows: seq<Row>): (fs: seq<Fields>)
    ensures |fs| == |rows| && forall i :: 0 <= i < |fs| ==> fs[i] == rows[i].fields
  {
    seq(|rows|, i requires 0 <= i < |rows| => rows[i].fields)
  }

  lemma PrefixIsValid(mac: Mac, rows: seq<Row>, start: Option<string>, n: nat)
    requires ValidChain(mac, rows, start) && n <= |rows|
    ensures ValidChain(mac, rows[..n], start)
  {
    forall i | 0 <= i < n ensures Linked(mac, rows[..n], start, i) {
      assert Linked(mac, rows, start, i);
    }
  }

  lemma LastIsLinked(mac: Mac, rows: seq<Row>, start: Option<string>)
    requires ValidChain(mac, rows, start) && rows != []
    ensures ValidChain(mac, rows[..|rows| - 1], start)
    ensures var last := rows[|rows| - 1];
            HeadOf(rows, start) == Some(mac(last.fields, HeadOf(rows[..|rows| - 1], start)))
  {
    PrefixIsValid(mac, rows, start, |rows| - 1);
    assert Linked(mac, rows, start, |rows| - 1);
  }

  lemma MacDetermines(mac: Mac, f: Fields, p: Option<string>, g: Fields, q: Option<string>)
    requires CollisionFree(mac) && mac(f, p) == mac(g, q)
    ensures f == g && p == q
  {
  }

  lemma HashedGrows(rows: seq<Row>)
    requires rows != []
    ensures Hashed(rows) == Hashed(rows[..|rows| - 1]) + [rows[|rows| - 1].fields]
  {
  }

  /** The head determines how many rows there are and every hashed value in them. */
  lemma {:induction false} HeadDetermines(mac: Mac, xs: seq<Row>, ys: seq<Row>)
    requires CollisionFree(mac) && ValidChain(mac, xs, None) && ValidChain(mac, ys, None)
    requires HeadOf(xs, None) == HeadOf(ys, None)
    ensures Hashed(xs) == Hashed(ys)
    decreases |xs|
  {
    hide ValidChain;
    hide CollisionFree;
    if xs != [] && ys != [] {
      var m, n := |xs| - 1, |ys| - 1;
      LastIsLinked(mac, xs, None);
      LastIsLinked(mac, ys, None);
      MacDetermines(mac, xs[m].fields, HeadOf(xs[..m], None), ys[n].fields, HeadOf(ys[..n], None));
      HeadDetermines(mac, xs[..m], ys[..n]);
      HashedGrows(xs);
      HashedGrows(ys);
    }
  }

  lemma {:induction false} HashedDetermineHead(mac: Mac, xs: seq<Row>, ys: seq<Row>, start: Option<string>)
    requires ValidChain(mac, xs, start) && ValidChain(mac, ys, start) && Hashed(xs) == Hashed(ys)
    ensures HeadOf(xs, start) == HeadOf(ys, start)
    decreases |xs|
  {
    if xs != [] {
      assert |Hashed(ys)| == |xs|;
      LastIsLinked(mac, xs, start);
      LastIsLinked(mac, ys, start);
      HashedGrows(xs);
      HashedGrows(ys);
      HashedDetermineHead(mac, xs[..|xs| - 1], ys[..|ys| - 1], start);
    }
  }

  /** Two histories show the same head exactly when they agree on every hashed
      value, so the head is a fingerprint of the whole history, and of no more:
      moving a row to another request does not show. */
  lemma HeadIsTheHistory(mac: Mac, xs: seq<Row>, ys: seq<Row>)
    requires CollisionFree(mac) && ValidChain(mac, xs, None) && ValidChain(mac, ys, None)
    ensures HeadOf(xs, None) == HeadOf(ys, None) <==> Hashed(xs) == Hashed(ys)
  {
    if HeadOf(xs, None) == HeadOf(ys, None) {
      HeadDetermines(mac, xs, ys);
    } else if Hashed(xs) == Hashed(ys) {
      HashedDetermineHead(mac, xs, ys, None);
    }
  }

  /** No hash appears twice in a chain. */
  lemma HashesAreDistinct(mac: Mac, rows: seq<Row>, i: nat, j: nat)
    requires CollisionFree(mac) && ValidChain(mac, rows, None) && i < j < |rows|
    ensures rows[i].entry != rows[j].entry
  {
    PrefixIsValid(mac, rows, None, i + 1);
    PrefixIsValid(mac, rows, None, j + 1);
    hide ValidChain;
    hide CollisionFree;
    if rows[i].entry == rows[j].entry {
      HeadDetermines(mac, rows[..i + 1], rows[..j + 1]);
    }
    assert |Hashed(rows[..i + 1])| == i + 1 && |Hashed(rows[..j + 1])| == j + 1;
  }

  lemma RequestIdIsNotCovered(mac: Mac, rows: seq<Row>, i: nat, id: int)
    requires ValidChain(mac, rows, None) && i < |rows|
    ensures ValidChain(mac, rows[i := rows[i].(requestId := id)], None)
  {
    var moved := rows[i := rows[i].(requestId := id)];
    forall k | 0 <= k < |moved| ensures Linked(mac, moved, None, k) {
      assert Linked(mac, rows, None, k);
    }
  }

  // ---- sealing one flush --------------------------------------------------

  /** New rows as a flush leaves them, in order, linked from `head`. */
  function Sealed(mac: Mac, head: Option<string>, pending: seq<(int, Fields)>): (rows: seq<Row>)
    ensures |rows| == |pending|
    decreases |pending|
  {
    if pending == [] then []
    else
      var entry := mac(pending[0].1, head);
      [Row(pending[0].0, pending[0].1, head, entry)] + Sealed(mac, Some(entry), pending[1..])
  }

  /** Each sealed row keeps its values, names the hash before it, and hashes both. */
  lemma {:induction false} SealedAt(mac: Mac, head: Option<string>, pending: seq<(int, Fields)>, i: nat)
    requires i < |pending|
    ensures var rows := Sealed(mac, head, pending);
      && rows[i].requestId == pending[i].0 && rows[i].fields == pending[i].1
      && rows[i].previous == (if i == 0 then head else Some(rows[i - 1].entry))
      && rows[i].entry == mac(rows[i].fields, rows[i].previous)
    decreases i
  {
    if i > 0 {
      SealedAt(mac, Some(mac(pending[0].1, head)), pending[1..], i - 1);
    }
  }

  lemma {:induction false} SealedExtends(mac: Mac, rows: seq<Row>, start: Option<string>, pending: seq<(int, Fields)>)
    requires ValidChain(mac, rows, start)
    ensures ValidChain(mac, rows + Sealed(mac, HeadOf(rows, start), pending), start)
    decreases |pending|
  {
    var head := HeadOf(rows, start);
    if pending == [] {
      assert rows + Sealed(mac, head, pending) == rows;
    } else {
      var row := Row(pending[0].0, pending[0].1, head, mac(pending[0].1, head));
      Extend(mac, rows, start, row);
      SealedExtends(mac, rows + [row], start, pending[1..]);
      assert rows + Sealed(mac, head, pending) == rows + [row] + Sealed(mac, Some(row.entry), pending[1..]);
    }
  }

  lemma Extend(mac: Mac, rows: seq<Row>, start: Option<string>, row: Row)
    requires ValidChain(mac, rows, start) && row.previous == HeadOf(rows, start)
             && row.entry == mac(row.fields, row.previous)
    ensures ValidChain(mac, rows + [row], start)
  {
    var more := rows + [row];
    forall i | 0 <= i < |more| ensures Linked(mac, more, start, i) {
      assert i < |rows| ==> Linked(mac, rows, start, i);
    }
  }

  /** One row object of the session, as the listener finds and leaves it. */
  class AuditRow {
    const seqNo: nat
    var requestId: int
    var fields: Fields
    var previous: Option<string>
    var entry: string

    constructor (n: nat, id: int, f: Fields)
      ensures seqNo == n && requestId == id && fields == f
    {
      seqNo, requestId, fields, previous, entry := n, id, f, None, "";
    }

    function Stamped(now: string): Fields
      reads this
    {
      if fields.createdAt.None? then fields.(createdAt := Some(now)) else fields
    }

    /** One turn of the listener's loop. */
    method Seal(mac: Mac, running: Option<string>, now: string)
      modifies this
      ensures AsRow() == Row(old(requestId), old(Stamped(now)), running, mac(old(Stamped(now)), running))
    {
      if fields.createdAt.None? {
        fields := fields.(createdAt := Some(now));
      }
      previous := running;
      entry := mac(fields, running);
    }

    function AsRow(): Row
      reads this
    {
      Row(requestId, fields, previous, entry)
    }
  }

  predicate Sorted(rows: seq<AuditRow>) {
    forall i, j :: 0 <= i < j < |rows| ==> rows[i].seqNo <= rows[j].seqNo
  }

  function InsertRow(r: AuditRow, rows: seq<AuditRow>): (out: seq<AuditRow>)
    ensures multiset(out) == multiset(rows) + multiset{r} && |out| == |rows| + 1
  {
    if rows == [] then [r]
    else if r.seqNo < rows[0].seqNo then
      assert multiset([r] + rows) == multiset{r} + multiset(rows);
      [r] + rows
    else
      assert rows == [rows[0]] + rows[1..];
      [rows[0]] + InsertRow(r, rows[1..])
  }

  /** `pending.sort(key=_seq)` */
  function SortBySeq(rows: seq<AuditRow>): (out: seq<AuditRow>)
    ensures multiset(out) == multiset(rows) && |out| == |rows|
  {
    if rows == [] then []
    else
      assert rows == rows[..|rows| - 1] + [rows[|rows| - 1]];
      InsertRow(rows[|rows| - 1], SortBySeq(rows[..|rows| - 1]))
  }

  lemma {:induction false} InsertedAre(r: AuditRow, rows: seq<AuditRow>)
    ensures forall x :: x in InsertRow(r, rows) ==> x == r || x in rows
  {
    if rows != [] && r.seqNo >= rows[0].seqNo {
      InsertedAre(r, rows[1..]);
    }
  }

  lemma {:induction false} InsertKeepsSorted(r: AuditRow, rows: seq<AuditRow>)
    requires Sorted(rows)
    ensures Sorted(InsertRow(r, rows))
  {
    if rows != [] && r.seqNo >= rows[0].seqNo {
      InsertKeepsSorted(r, rows[1..]);
      InsertedAre(r, rows[1..]);
      assert forall x :: x in rows[1..] ==> rows[0].seqNo <= x.seqNo;
    }
  }

  lemma {:induction false} SortIsSorted(rows: seq<AuditRow>)
    ensures Sorted(SortBySeq(rows))
  {
    if rows != [] {
      SortIsSorted(rows[..|rows| - 1]);
      InsertKeepsSorted(rows[|rows| - 1], SortBySeq(rows[..|rows| - 1]));
    }
  }

  /** The rows' values, `clock[i]` being the time read at the `i`-th. */
  function Pending(rows: seq<AuditRow>, clock: seq<string>): seq<(int, Fields)>
    requires |clock| == |rows|
    reads rows
  {
    seq(|rows|, i requires 0 <= i < |rows| reads rows => (rows[i].requestId, rows[i].Stamped(clock[i])))
  }

  function AsRows(rows: seq<AuditRow>): seq<Row>
    reads rows
  {
    seq(|rows|, i requires 0 <= i < |rows| reads rows => rows[i].AsRow())
  }

  ghost predicate Distinct(rows: seq<AuditRow>) {
    forall i, j :: 0 <= i < j < |rows| ==> rows[i] != rows[j]
  }

  lemma DistinctByCount(rows: seq<AuditRow>, out: seq<AuditRow>)
    requires Distinct(rows) && multiset(out) == multiset(rows)
    ensures Distinct(out)
  {
    forall i, j | 0 <= i < j < |out| ensures out[i] != out[j] {
      if out[i] == out[j] {
        assert out == out[..i] + [out[i]] + out[i + 1..j] + [out[j]] + out[j + 1..];
        assert multiset(out)[out[i]] >= 2;
        CountOne(rows, out[i]);
        assert false;
      }
    }
  }

  lemma {:induction false} CountOne(rows: seq<AuditRow>, r: AuditRow)
    requires Distinct(rows)
    ensures multiset(rows)[r] <= 1
  {
    if rows != [] {
      assert rows == [rows[0]] + rows[1..];
      CountOne(rows[1..], r);
      if rows[0] == r {
        assert r !in rows[1..];
      }
    }
  }

  /** The hash loop of the listeners. */
  method SealInOrder(mac: Mac, order: seq<AuditRow>, last: Option<string>, clock: seq<string>)
    requires Distinct(order) && |clock| == |order|
    modifies order
    ensures AsRows(order) == Sealed(mac, last, old(Pending(order, clock)))
  {
    hide Sealed;
    var running := last;
    ghost var before := Pending(order, clock);
    ghost var done: seq<Row> := [];
    assert before[0..] == before && done + Sealed(mac, last, before) == Sealed(mac, last, before);
    for i := 0 to |order|
      invariant |done| == i && forall k :: 0 <= k < i ==> order[k].AsRow() == done[k]
      invariant forall k :: i <= k < |order| ==> before[k] == (order[k].requestId, order[k].Stamped(clock[k]))
      invariant done + Sealed(mac, running, before[i..]) == Sealed(mac, last, before)
    {
      SealedUnfolds(mac, running, before[i..]);
      assert before[i..][0] == before[i] && before[i..][1..] == before[i + 1..];
      order[i].Seal(mac, running, clock[i]);
      done := done + [order[i].AsRow()];
      running := Some(order[i].entry);
    }
    assert before[|order|..] == [];
    SealedOfNothing(mac, running);
    assert AsRows(order) == done;
  }

  lemma SealedOfNothing(mac: Mac, head: Option<string>)
    ensures Sealed(mac, head, []) == []
  {
  }

  /** Row `i` has kept its request and values, but for a date if it had none, and
      is linked to the row before it, the first to `last`. */
  twostate predicate LeftSealed(mac: Mac, order: seq<AuditRow>, last: Option<string>, clock: seq<string>, i: int)
    requires 0 <= i < |order| == |clock|
    reads order
  {
    && order[i].requestId == old(order[i].requestId) && Dated(old(order[i].fields), order[i].fields, clock[i])
    && order[i].previous == (if i == 0 then last else Some(order[i - 1].entry))
    && order[i].entry == mac(order[i].fields, order[i].previous)
  }

  /** `_request_audit_hash_chain`: in creation order, each row links to the one
      before it, the first to the last hash in the table. */
  method SealPending(mac: Mac, pending: seq<AuditRow>, last: Option<string>, clock: seq<string>)
    returns (order: seq<AuditRow>)
    requires Distinct(pending) && |clock| == |pending|
    modifies pending
    ensures order == SortBySeq(pending) && Sorted(order)
    ensures AsRows(order) == Sealed(mac, last, old(Pending(SortBySeq(pending), clock)))
    ensures multiset(order) == multiset(pending) && forall i :: 0 <= i < |order| ==> order[i] in pending
    ensures forall i :: 0 <= i < |order| ==> LeftSealed(mac, order, last, clock, i)
  {
    hide Sealed;
    order := SortBySeq(pending);
    SortIsSorted(pending);
    DistinctByCount(pending, order);
    SameElements(order, pending);
    ghost var before := Pending(order, clock);
    SealInOrder(mac, order, last, clock);
    forall i | 0 <= i < |order| ensures LeftSealed(mac, order, last, clock, i) {
      SealedAt(mac, last, before, i);
      assert AsRows(order)[i] == order[i].AsRow();
      assert before[i] == (old(order[i].requestId), old(order[i].Stamped(clock[i])));
      if i > 0 {
        assert AsRows(order)[i - 1] == order[i - 1].AsRow();
      }
    }
  }

  /** A row that had a date keeps it, one that had none gets `time`, and nothing
      else of its values changes. */
  predicate Dated(was: Fields, now: Fields, time: string) {
    && now.createdAt == (if was.createdAt.Some? then was.createdAt else Some(time))
    && now.action == was.action && now.oldValue == was.oldValue && now.newValue == was.newValue
    && now.actorType == was.actorType && now.actorName == was.actorName && now.extraData == was.extraData
  }

  lemma SameElements(a: seq<AuditRow>, b: seq<AuditRow>)
    requires multiset(a) == multiset(b)
    ensures forall i :: 0 <= i < |a| ==> a[i] in b
  {
    forall i | 0 <= i < |a| ensures a[i] in b {
      assert a[i] in multiset(a);
      assert a[i] in multiset(b);
    }
  }

  lemma SealedUnfolds(mac: Mac, head: Option<string>, pending: seq<(int, Fields)>)
    requires pending != []
    ensures var entry := mac(pending[0].1, head);
      Sealed(mac, head, pending) == [Row(pending[0].0, pending[0].1, head, entry)]
          + Sealed(mac, Some(entry), pending[1..])
  {
  }
}
