/** Transactions writing audit rows at the same time: an advisory lock held to
    the end of each, and what every schedule leaves in the table. */
module AuditSchedule {
  import opened Base
  import opened AuditChain

  datatype Stored = Stored(id: nat, row: Row)

  /** An open transaction: what it has inserted, and the rows its current flush
      has sealed and has yet to insert. */
  datatype Txn = Txn(inserted: seq<Stored>, todo: seq<Row>)

  /** `committed` is in order of commit. A drawn id is never given back, not
      even by a rollback. */
  datatype Db = Db(committed: seq<Stored>, nextId: nat, lock: Option<nat>, open: map<nat, Txn>)

  datatype Action =
    | Begin(t: nat)
    | Lock(t: nat)
    | Seal(t: nat, pending: seq<(int, Fields)>)
    | Insert(t: nat, skipped: nat)
    | Commit(t: nat)
    | Rollback(t: nat)

  function Rows(stored: seq<Stored>): (rows: seq<Row>)
    ensures |rows| == |stored| && forall i :: 0 <= i < |rows| ==> rows[i] == stored[i].row
  {
    seq(|stored|, i requires 0 <= i < |stored| => stored[i].row)
  }

  /** The entry with the greatest id, as `ORDER BY id DESC LIMIT 1` finds it. */
  function Newest(stored: seq<Stored>): Option<Stored> {
    if stored == [] then None
    else
      var best := Newest(stored[..|stored| - 1]);
      var last := stored[|stored| - 1];
      if best.Some? && best.value.id > last.id then best else Some(last)
  }

  function NewestHash(stored: seq<Stored>): Option<string> {
    if Newest(stored).None? then None else Some(Newest(stored).value.row.entry)
  }

  function Freed(lock: Option<nat>, t: nat): Option<nat> {
    if lock == Some(t) then None else lock
  }

  /** What one statement does; None where it would wait or cannot be sent. A
      transaction sees what is committed and its own inserts. */
  function Next(mac: Mac, d: Db, a: Action): Option<Db> {
    match a
    case Begin(t) => if t in d.open then None else Some(d.(open := d.open[t := Txn([], [])]))
    case Lock(t) =>
      if t in d.open && (d.lock == None || d.lock == Some(t)) then Some(d.(lock := Some(t))) else None
    case Seal(t, pending) =>
      if t !in d.open || d.lock != Some(t) || d.open[t].todo != [] then None
      else
        var txn := d.open[t];
        Some(d.(open := d.open[t := txn.(todo := Sealed(mac, NewestHash(d.committed + txn.inserted), pending))]))
    case Insert(t, skipped) =>
      if t !in d.open || d.open[t].todo == [] then None
      else
        var txn, id := d.open[t], d.nextId + skipped;
        Some(d.(nextId := id + 1,
                open := d.open[t := Txn(txn.inserted + [Stored(id, txn.todo[0])], txn.todo[1..])]))
    case Commit(t) =>
      if t !in d.open || d.open[t].todo != [] then None
      else Some(d.(committed := d.committed + d.open[t].inserted, lock := Freed(d.lock, t), open := d.open - {t}))
    case Rollback(t) =>
      if t !in d.open then None else Some(d.(lock := Freed(d.lock, t), open := d.open - {t}))
  }

  function Run(mac: Mac, d: Db, actions: seq<Action>): Option<Db> {
    if actions == [] then Some(d)
    else
      match Run(mac, d, actions[..|actions| - 1])
      case None => None
      case Some(e) => Next(mac, e, actions[|actions| - 1])
  }

  predicate Empty(d: Db) {
    d.committed == [] && d.lock == None && d.open == map[]
  }

  // ---- what every schedule keeps -----------------------------------------

  predicate InIdOrder(stored: seq<Stored>, bound: nat) {
    && (forall i, j :: 0 <= i < j < |stored| ==> stored[i].id < stored[j].id)
    && (forall i :: 0 <= i < |stored| ==> stored[i].id < bound)
  }

  ghost predicate TxnInv(mac: Mac, d: Db, txn: Txn) {
    && InIdOrder(d.committed + txn.inserted, d.nextId)
    && ValidChain(mac, Rows(d.committed + txn.inserted) + txn.todo, None)
  }

  ghost predicate Inv(mac: Mac, d: Db) {
    && InIdOrder(d.committed, d.nextId) && ValidChain(mac, Rows(d.committed), None)
    && forall t :: t in d.open ==> TxnInv(mac, d, d.open[t]) && (d.open[t] != Txn([], []) ==> d.lock == Some(t))
  }

  lemma NewestIsLast(stored: seq<Stored>, bound: nat)
    requires InIdOrder(stored, bound)
    ensures NewestHash(stored) == HeadOf(Rows(stored), None)
  {
    if stored != [] {
      var best := Newest(stored[..|stored| - 1]);
      if best.Some? {
        NewestIsAmong(stored[..|stored| - 1]);
      }
    }
  }

  lemma {:induction false} NewestIsAmong(stored: seq<Stored>)
    requires stored != []
    ensures Newest(stored).Some? && Newest(stored).value in stored
  {
    if |stored| > 1 {
      NewestIsAmong(stored[..|stored| - 1]);
    }
  }

  lemma SealKeeps(mac: Mac, d: Db, txn: Txn, pending: seq<(int, Fields)>)
    requires TxnInv(mac, d, txn) && txn.todo == []
    ensures TxnInv(mac, d, txn.(todo := Sealed(mac, NewestHash(d.committed + txn.inserted), pending)))
  {
    var seen := d.committed + txn.inserted;
    NewestIsLast(seen, d.nextId);
    assert Rows(seen) + txn.todo == Rows(seen);
    SealedExtends(mac, Rows(seen), None, pending);
  }

  lemma InsertKeeps(mac: Mac, d: Db, txn: Txn, id: nat)
    requires TxnInv(mac, d, txn) && txn.todo != [] && id >= d.nextId
    ensures TxnInv(mac, d.(nextId := id + 1), Txn(txn.inserted + [Stored(id, txn.todo[0])], txn.todo[1..]))
  {
    var seen := d.committed + txn.inserted;
    var more := d.committed + (txn.inserted + [Stored(id, txn.todo[0])]);
    assert more == seen + [Stored(id, txn.todo[0])];
    assert Rows(more) + txn.todo[1..] == Rows(seen) + txn.todo;
  }

  lemma IdleKeeps(mac: Mac, d: Db, bound: nat)
    requires InIdOrder(d.committed, d.nextId) && ValidChain(mac, Rows(d.committed), None) && bound >= d.nextId
    ensures TxnInv(mac, d.(nextId := bound), Txn([], []))
  {
    assert d.committed + [] == d.committed && Rows(d.committed) + [] == Rows(d.committed);
  }

  lemma NextKeeps(mac: Mac, d: Db, a: Action)
    requires Inv(mac, d) && Next(mac, d, a).Some?
    ensures Inv(mac, Next(mac, d, a).value)
  {
    hide TxnInv;
    var e := Next(mac, d, a).value;
    match a {
      case Begin(t) =>
        IdleKeeps(mac, d, d.nextId);
        forall u | u in e.open ensures TxnInv(mac, e, e.open[u]) { SameView(mac, d, e, e.open[u]); }
      case Lock(t) =>
        assert forall u :: u in d.open && u != t ==> d.open[u] == Txn([], []);
        forall u | u in d.open ensures TxnInv(mac, e, d.open[u]) { SameView(mac, d, e, d.open[u]); }
      case Seal(t, pending) =>
        SealKeeps(mac, d, d.open[t], pending);
        forall u | u in e.open ensures TxnInv(mac, e, e.open[u]) { SameView(mac, d, e, e.open[u]); }
      case Insert(t, skipped) =>
        InsertKeeps(mac, d, d.open[t], d.nextId + skipped);
        IdleKeeps(mac, d, e.nextId);
        SameView(mac, d.(nextId := e.nextId), e, e.open[t]);
        SameView(mac, d.(nextId := e.nextId), e, Txn([], []));
      case Commit(t) =>
        CommitKeeps(mac, d, d.open[t]);
        IdleKeeps(mac, e, e.nextId);
        if d.open[t].inserted == [] {
          assert e.committed == d.committed;
          forall u | u in e.open ensures TxnInv(mac, e, e.open[u]) { SameView(mac, d, e, e.open[u]); }
        } else {
          assert forall u :: u in e.open ==> e.open[u] == Txn([], []);
        }
      case Rollback(t) =>
        forall u | u in e.open ensures TxnInv(mac, e, e.open[u]) { SameView(mac, d, e, e.open[u]); }
    }
  }

  /** A transaction's invariant only looks at the committed rows and the next id. */
  lemma SameView(mac: Mac, d: Db, e: Db, txn: Txn)
    requires d.committed == e.committed && d.nextId == e.nextId
    ensures TxnInv(mac, d, txn) <==> TxnInv(mac, e, txn)
  {
  }

  lemma CommitKeeps(mac: Mac, d: Db, txn: Txn)
    requires TxnInv(mac, d, txn) && txn.todo == []
    ensures InIdOrder(d.committed + txn.inserted, d.nextId) && ValidChain(mac, Rows(d.committed + txn.inserted), None)
  {
    assert Rows(d.committed + txn.inserted) + [] == Rows(d.committed + txn.inserted);
  }

  /** Over every schedule of concurrent transactions, with any number of flushes
      in each, and commits and rollbacks anywhere: in id order, the committed
      rows are one chain from no previous hash, and every hash recomputes. */
  lemma {:induction false} EverySchedule(mac: Mac, d: Db, actions: seq<Action>, e: Db)
    requires Empty(d) && Run(mac, d, actions) == Some(e)
    ensures Inv(mac, e)
    ensures InIdOrder(e.committed, e.nextId) && ValidChain(mac, Rows(e.committed), None)
    decreases |actions|
  {
    if actions == [] {
      assert Rows(e.committed) == [];
    } else {
      var before := Run(mac, d, actions[..|actions| - 1]).value;
      EverySchedule(mac, d, actions[..|actions| - 1], before);
      NextKeeps(mac, before, actions[|actions| - 1]);
    }
  }

  /** It never forks: no two committed rows name the same predecessor. */
  lemma NeverForks(mac: Mac, d: Db, actions: seq<Action>, e: Db, i: nat, j: nat)
    requires CollisionFree(mac) && Empty(d) && Run(mac, d, actions) == Some(e)
    requires i < j < |e.committed|
    ensures e.committed[i].row.previous != e.committed[j].row.previous
  {
    EverySchedule(mac, d, actions, e);
    var rows := Rows(e.committed);
    assert Linked(mac, rows, None, i) && Linked(mac, rows, None, j);
    if i > 0 {
      HashesAreDistinct(mac, rows, i - 1, j - 1);
    }
  }

  lemma {:induction false} CommittedOnlyGrows(mac: Mac, d: Db, actions: seq<Action>, e: Db)
    requires Run(mac, d, actions) == Some(e)
    ensures d.committed <= e.committed
    decreases |actions|
  {
    if actions != [] {
      CommittedOnlyGrows(mac, d, actions[..|actions| - 1], Run(mac, d, actions[..|actions| - 1]).value);
    }
  }

  /** An anchored head pins what was there: whatever a later table holds, if it
      is a valid chain passing through the anchored hash, then up to that hash it
      has the rows the anchor saw, values and number. */
  lemma AnchorPinsHistory(mac: Mac, d: Db, actions: seq<Action>, e: Db, later: seq<Row>, k: nat)
    requires CollisionFree(mac) && Empty(d) && Run(mac, d, actions) == Some(e) && e.committed != []
    requires ValidChain(mac, later, None) && k < |later| && Some(later[k].entry) == NewestHash(e.committed)
    ensures Hashed(later[..k + 1]) == Hashed(Rows(e.committed)) && k + 1 == |e.committed|
  {
    EverySchedule(mac, d, actions, e);
    NewestIsLast(e.committed, e.nextId);
    PrefixIsValid(mac, later, None, k + 1);
    HeadDetermines(mac, later[..k + 1], Rows(e.committed));
    assert |Hashed(later[..k + 1])| == k + 1;
  }

  // ---- creation order and insert order ------------------------------------

  /** The rows a flush sealed, stored in some other order, are not a chain: the
      request log relies on ids being drawn in creation order. */
  lemma {:induction false} OnlyOneOrder(mac: Mac, start: seq<Row>, flushed: seq<Row>, stored: seq<Row>)
    requires CollisionFree(mac) && ValidChain(mac, start + flushed, None) && multiset(stored) == multiset(flushed)
    ensures ValidChain(mac, start + stored, None) <==> stored == flushed
    decreases |flushed|
  {
    hide ValidChain;
    hide CollisionFree;
    if ValidChain(mac, start + stored, None) {
      assert |stored| == |multiset(stored)| == |multiset(flushed)| == |flushed|;
      if flushed != [] {
        FirstIsFirst(mac, start, flushed, stored);
        var x := flushed[0];
        WithoutFirst(flushed, stored);
        assert start + flushed == start + [x] + flushed[1..] && start + stored == start + [x] + stored[1..];
        OnlyOneOrder(mac, start + [x], flushed[1..], stored[1..]);
      }
    }
  }

  lemma WithoutFirst(flushed: seq<Row>, stored: seq<Row>)
    requires multiset(stored) == multiset(flushed) && flushed != [] && stored != [] && stored[0] == flushed[0]
    ensures multiset(stored[1..]) == multiset(flushed[1..])
    ensures flushed == [flushed[0]] + flushed[1..] && stored == [flushed[0]] + stored[1..]
  {
    var x := flushed[0];
    assert flushed == [x] + flushed[1..] && stored == [x] + stored[1..];
    assert multiset(flushed[1..]) == multiset(flushed) - multiset{x};
    assert multiset(stored[1..]) == multiset(stored) - multiset{x};
  }

  lemma FirstIsFirst(mac: Mac, start: seq<Row>, flushed: seq<Row>, stored: seq<Row>)
    requires CollisionFree(mac) && ValidChain(mac, start + flushed, None) && ValidChain(mac, start + stored, None)
    requires multiset(stored) == multiset(flushed) && flushed != [] && stored != []
    ensures stored[0] == flushed[0]
  {
    var n, a, b := |start|, start + flushed, start + stored;
    assert stored[0] in multiset(stored);
    var k :| 0 <= k < |flushed| && flushed[k] == stored[0];
    assert Linked(mac, a, None, n + k) && Linked(mac, b, None, n);
    assert a[n + k] == b[n] && (n > 0 ==> a[n - 1] == b[n - 1]);
    if k > 0 && n > 0 {
      HashesAreDistinct(mac, a, n - 1, n + k - 1);
    }
  }
}
