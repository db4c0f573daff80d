/** Numbering tax parcels: blocks per street side, lots per block, and a PIN
    that has to be unique even where two neighbourhoods' blocks collide. */
module Parcels {
  import opened Base
  import opened Text
  import Versions

  datatype Lot = Lot(hid: int, sfid: string, side: string)

  /** `block_base` of each neighbourhood, by id. */
  type Bases = map<int, int>

  // ---- decimal -----------------------------------------------------------

  /** `str(n)` */
  function Str(n: int): string {
    if n < 0 then "-" + Versions.Digits(-n) else Versions.Digits(n)
  }

  lemma StrIsPlain(n: int)
    ensures Str(n) != "" && '_' !in Str(n)
  {
  }

  lemma StrDetermines(m: int, n: int)
    requires Str(m) == Str(n)
    ensures m == n
  {
    assert m < 0 ==> Str(m)[0] == '-' && Str(m)[1..] == Versions.Digits(-m);
    assert n < 0 ==> Str(n)[0] == '-' && Str(n)[1..] == Versions.Digits(-n);
    assert m >= 0 ==> IsDigit(Str(m)[0]);
    assert n >= 0 ==> IsDigit(Str(n)[0]);
    Versions.DigitsRead(if m < 0 then -m else m);
    Versions.DigitsRead(if n < 0 then -n else n);
  }

  /** `f"{MUN_CODE}_{block}_{lot}"` */
  function Pin(code: string, block: int, lot: int): string {
    code + "_" + (Str(block) + "_" + Str(lot))
  }

  lemma PinDetermines(code: string, b1: int, l1: int, b2: int, l2: int)
    requires Pin(code, b1, l1) == Pin(code, b2, l2)
    ensures b1 == b2 && l1 == l2
  {
    var x, y := Str(b1) + "_" + Str(l1), Str(b2) + "_" + Str(l2);
    assert Pin(code, b1, l1)[|code| + 1..] == x && Pin(code, b2, l2)[|code| + 1..] == y;
    StrIsPlain(b1);
    StrIsPlain(b2);
    Versions.FirstOccurrence(Str(b1), Str(l1), '_');
    Versions.FirstOccurrence(Str(b2), Str(l2), '_');
    assert |Str(b1)| == |Str(b2)|;
    assert x[..|Str(b1)|] == Str(b1) && y[..|Str(b2)|] == Str(b2);
    assert x[|Str(b1)| + 1..] == Str(l1) && y[|Str(b2)| + 1..] == Str(l2);
    StrDetermines(b1, b2);
    StrDetermines(l1, l2);
  }

  // ---- what number each row gets -------------------------------------------

  /** Where a street side first comes up; its block is opened there. */
  function First(rows: seq<Lot>, key: Lot): (f: nat)
    requires key in rows
    ensures f < |rows| && rows[f] == key && key !in rows[..f]
  {
    if rows[0] == key then 0
    else
      var f := 1 + First(rows[1..], key);
      assert rows[..f] == [rows[0]] + rows[1..][..f - 1];
      f
  }

  /** Blocks opened in a neighbourhood by the first `n` rows. */
  function Opened(rows: seq<Lot>, hid: int, n: nat): nat
    requires n <= |rows|
  {
    if n == 0 then 0
    else Opened(rows, hid, n - 1) + if rows[n - 1].hid == hid && First(rows, rows[n - 1]) == n - 1 then 1 else 0
  }

  predicate Known(rows: seq<Lot>, bases: Bases) {
    forall i :: 0 <= i < |rows| ==> rows[i].hid in bases
  }

  /** Blocks count up from the neighbourhood's base in order of opening. */
  function Block(rows: seq<Lot>, bases: Bases, i: nat): int
    requires i < |rows| && Known(rows, bases)
  {
    bases[rows[i].hid] + Opened(rows, rows[i].hid, First(rows, rows[i]) + 1)
  }

  /** Rows so far in a block, whichever neighbourhood put them there. */
  function InBlock(rows: seq<Lot>, bases: Bases, block: int, n: nat): nat
    requires n <= |rows| && Known(rows, bases)
  {
    if n == 0 then 0
    else InBlock(rows, bases, block, n - 1) + if Block(rows, bases, n - 1) == block then 1 else 0
  }

  function PinOf(code: string, rows: seq<Lot>, bases: Bases, i: nat): string
    requires i < |rows| && Known(rows, bases)
  {
    Pin(code, Block(rows, bases, i), InBlock(rows, bases, Block(rows, bases, i), i + 1))
  }

  lemma {:induction false} InBlockGrows(rows: seq<Lot>, bases: Bases, block: int, m: nat, n: nat)
    requires m <= n <= |rows| && Known(rows, bases)
    ensures InBlock(rows, bases, block, m) <= InBlock(rows, bases, block, n)
    decreases n
  {
    if m < n {
      InBlockGrows(rows, bases, block, m, n - 1);
    }
  }

  /** No two rows get the same PIN, even where block numbers collide. */
  lemma PinsAreDistinct(code: string, rows: seq<Lot>, bases: Bases, i: nat, j: nat)
    requires i < j < |rows| && Known(rows, bases)
    ensures PinOf(code, rows, bases, i) != PinOf(code, rows, bases, j)
  {
    hide Pin;
    hide Block;
    var b, c := Block(rows, bases, i), Block(rows, bases, j);
    LotsCountUp(rows, bases, i, j);
    if PinOf(code, rows, bases, i) == PinOf(code, rows, bases, j) {
      PinDetermines(code, b, InBlock(rows, bases, b, i + 1), c, InBlock(rows, bases, c, j + 1));
    }
  }

  lemma LotsCountUp(rows: seq<Lot>, bases: Bases, i: nat, j: nat)
    requires i < j < |rows| && Known(rows, bases)
    ensures var c := Block(rows, bases, j); InBlock(rows, bases, c, i + 1) < InBlock(rows, bases, c, j + 1)
  {
    hide Block;
    InBlockGrows(rows, bases, Block(rows, bases, j), i + 1, j);
  }

  /** Rows on one street side share a block, and rows on different sides of one
      neighbourhood never do. */
  lemma BlocksFollowSides(rows: seq<Lot>, bases: Bases, i: nat, j: nat)
    requires i < |rows| && j < |rows| && Known(rows, bases) && rows[i].hid == rows[j].hid
    ensures Block(rows, bases, i) == Block(rows, bases, j) <==> rows[i] == rows[j]
  {
    var f, g := First(rows, rows[i]), First(rows, rows[j]);
    if f < g {
      OpenedGrows(rows, rows[i].hid, f + 1, g);
    } else if g < f {
      OpenedGrows(rows, rows[i].hid, g + 1, f);
    }
  }

  lemma {:induction false} OpenedGrows(rows: seq<Lot>, hid: int, m: nat, n: nat)
    requires m <= n <= |rows|
    ensures Opened(rows, hid, m) <= Opened(rows, hid, n)
    decreases n
  {
    if m < n {
      OpenedGrows(rows, hid, m, n - 1);
    }
  }

  // ---- what a PIN says -----------------------------------------------------

  /** The street sides of a neighbourhood among the first `n` rows. */
  function SidesIn(rows: seq<Lot>, hid: int, n: nat): set<Lot>
    requires n <= |rows|
  {
    set k | 0 <= k < n && rows[k].hid == hid :: rows[k]
  }

  lemma {:induction false} OpenedCounts(rows: seq<Lot>, hid: int, n: nat)
    requires n <= |rows|
    ensures Opened(rows, hid, n) == |SidesIn(rows, hid, n)|
    decreases n
  {
    if n == 0 {
      assert SidesIn(rows, hid, 0) == {};
    } else {
      OpenedCounts(rows, hid, n - 1);
      NewIsFirst(rows, n - 1);
      OneMoreSide(rows, hid, n - 1);
      hide SidesIn;
      hide First;
    }
  }

  lemma OneMoreSide(rows: seq<Lot>, hid: int, n: nat)
    requires n < |rows|
    ensures |SidesIn(rows, hid, n + 1)| ==
            |SidesIn(rows, hid, n)| + if rows[n].hid == hid && rows[n] !in rows[..n] then 1 else 0
  {
    var before, row := SidesIn(rows, hid, n), rows[n];
    if row.hid == hid {
      assert SidesIn(rows, hid, n + 1) == before + {row};
      assert row in before <==> row in rows[..n];
    } else {
      assert SidesIn(rows, hid, n + 1) == before;
    }
  }

  /** The rows among the first `n` that lie in a block. */
  function RowsIn(rows: seq<Lot>, bases: Bases, block: int, n: nat): set<nat>
    requires n <= |rows| && Known(rows, bases)
  {
    set k: nat | k < n && Block(rows, bases, k) == block
  }

  lemma {:induction false} InBlockCounts(rows: seq<Lot>, bases: Bases, block: int, n: nat)
    requires n <= |rows| && Known(rows, bases)
    ensures InBlock(rows, bases, block, n) == |RowsIn(rows, bases, block, n)|
    decreases n
  {
    hide Block;
    if n == 0 {
      assert RowsIn(rows, bases, block, 0) == {};
    } else {
      InBlockCounts(rows, bases, block, n - 1);
      var before := RowsIn(rows, bases, block, n - 1);
      if Block(rows, bases, n - 1) == block {
        assert RowsIn(rows, bases, block, n) == before + {n - 1};
      } else {
        assert RowsIn(rows, bases, block, n) == before;
      }
    }
  }

  /** A row's PIN is the code, its block and its lot: the block is the base of its
      neighbourhood plus the number of street sides seen there when its own first
      came up, its own included, and the lot is its place in the block. */
  lemma PinSays(code: string, rows: seq<Lot>, bases: Bases, i: nat) returns (block: int, lot: nat, first: nat)
    requires i < |rows| && Known(rows, bases)
    ensures PinOf(code, rows, bases, i) == code + "_" + Str(block) + "_" + Str(lot)
    ensures first <= i && rows[first] == rows[i] && forall k :: 0 <= k < first ==> rows[k] != rows[i]
    ensures block == bases[rows[i].hid] + |SidesIn(rows, rows[i].hid, first + 1)| == Block(rows, bases, i)
    ensures lot == |RowsIn(rows, bases, block, i + 1)|
  {
    first := First(rows, rows[i]);
    SidesUpTo(rows, i);
    block := Block(rows, bases, i);
    lot := InBlock(rows, bases, block, i + 1);
    InBlockCounts(rows, bases, block, i + 1);
    PinIsWritten(code, block, lot);
    hide Pin;
    hide First;
    hide Opened;
    hide SidesIn;
    hide RowsIn;
    hide InBlock;
  }

  lemma SidesUpTo(rows: seq<Lot>, i: nat)
    requires i < |rows|
    ensures var first := First(rows, rows[i]);
      && first <= i && (forall k :: 0 <= k < first ==> rows[k] != rows[i])
      && Opened(rows, rows[i].hid, first + 1) == |SidesIn(rows, rows[i].hid, first + 1)|
  {
    var first := First(rows, rows[i]);
    OpenedCounts(rows, rows[i].hid, first + 1);
    hide Opened;
    hide SidesIn;
    assert forall k :: 0 <= k < first ==> rows[..first][k] == rows[k];
  }

  lemma PinIsWritten(code: string, block: int, lot: int)
    ensures Pin(code, block, lot) == code + "_" + Str(block) + "_" + Str(lot)
  {
    hide Str;
    assert code + "_" + (Str(block) + "_" + Str(lot)) == code + "_" + Str(block) + "_" + Str(lot);
  }

  // ---- the loop ----------------------------------------------------------

  function GetInt<K>(m: map<K, int>, k: K, otherwise: int): int {
    if k in m then m[k] else otherwise
  }

  /** `build_parcels`, as far as the PINs: an unknown neighbourhood raises;
      otherwise every row gets its feature. */
  method BuildParcels(code: string, rows: seq<Lot>, bases: Bases) returns (pins: Result<seq<string>, int>)
    ensures pins.Ok? <==> Known(rows, bases)
    ensures pins.Ok? ==> |pins.value| == |rows| && forall i :: 0 <= i < |rows| ==>
            pins.value[i] == PinOf(code, rows, bases, i)
  {
    hide Opening;
    hide Counting;
    hide Numbered;
    hide PinOf;
    hide Str;
    Beginning(code, rows, bases);
    var blockOf: map<Lot, string>, nextBlock: map<int, int>, lotNo: map<string, int> := map[], map[], map[];
    var seen: set<string>, features: seq<string> := {}, [];
    for n := 0 to |rows|
      invariant forall i :: 0 <= i < n ==> rows[i].hid in bases
      invariant Known(rows, bases) ==>
        && Numbered(code, rows, bases, n, features, seen)
        && Opening(rows, bases, n, blockOf, nextBlock) && Counting(rows, bases, n, lotNo)
    {
      var key := rows[n];
      if key.hid !in bases {
        return Err(key.hid);
      }
      ghost var blocks, nexts := blockOf, nextBlock;
      if key !in blockOf {
        nextBlock := nextBlock[key.hid := GetInt(nextBlock, key.hid, bases[key.hid]) + 1];
        blockOf := blockOf[key := Str(nextBlock[key.hid])];
      }
      var block := blockOf[key];
      ghost var lots := lotNo;
      lotNo := lotNo[block := GetInt(lotNo, block, 0) + 1];
      var pin := code + "_" + (block + "_" + Str(lotNo[block]));
      if Known(rows, bases) {
        OpenNext(rows, bases, n, blocks, nexts, blockOf, nextBlock);
        CountNext(rows, bases, n, lots, lotNo);
        NotSeen(code, rows, bases, n, features, seen, block, lotNo);
      }
      if pin !in seen {
        seen := seen + {pin};
        features := features + [pin];
      }
    }
    if Known(rows, bases) {
      AllNumbered(code, rows, bases, features, seen);
    }
    return Ok(features);
  }

  lemma Beginning(code: string, rows: seq<Lot>, bases: Bases)
    ensures Known(rows, bases) ==>
            Numbered(code, rows, bases, 0, [], {}) && Opening(rows, bases, 0, map[], map[])
            && Counting(rows, bases, 0, map[])
  {
  }

  lemma AllNumbered(code: string, rows: seq<Lot>, bases: Bases, features: seq<string>, seen: set<string>)
    requires Known(rows, bases) && Numbered(code, rows, bases, |rows|, features, seen)
    ensures |features| == |rows| && forall i :: 0 <= i < |rows| ==> features[i] == PinOf(code, rows, bases, i)
  {
  }

  /** Every row so far has its feature. */
  ghost predicate Numbered(code: string, rows: seq<Lot>, bases: Bases, n: nat, features: seq<string>, seen: set<string>)
    requires n <= |rows| && Known(rows, bases)
  {
    && |features| == n && (forall i :: 0 <= i < n ==> features[i] == PinOf(code, rows, bases, i))
    && forall p :: p in seen ==> p in features
  }

  ghost predicate Opening(rows: seq<Lot>, bases: Bases, n: nat, blockOf: map<Lot, string>, nextBlock: map<int, int>)
    requires n <= |rows| && Known(rows, bases)
  {
    && (forall key :: key in blockOf <==> key in rows[..n])
    && (forall i :: 0 <= i < n ==> blockOf[rows[i]] == Str(Block(rows, bases, i)))
    && (forall h :: h in bases ==> GetInt(nextBlock, h, bases[h]) == bases[h] + Opened(rows, h, n))
  }

  ghost predicate Counting(rows: seq<Lot>, bases: Bases, n: nat, lotNo: map<string, int>)
    requires n <= |rows| && Known(rows, bases)
  {
    forall b: int :: GetInt(lotNo, Str(b), 0) == InBlock(rows, bases, b, n)
  }

  lemma NotSeen(code: string, rows: seq<Lot>, bases: Bases, n: nat, features: seq<string>, seen: set<string>,
                block: string, lotNo: map<string, int>)
    requires n < |rows| && Known(rows, bases) && Numbered(code, rows, bases, n, features, seen)
    requires block == Str(Block(rows, bases, n)) && Counting(rows, bases, n + 1, lotNo) && block in lotNo
    ensures var pin := code + "_" + (block + "_" + Str(lotNo[block]));
      pin !in seen && Numbered(code, rows, bases, n + 1, features + [pin], seen + {pin})
  {
    hide Str;
    var b := Block(rows, bases, n);
    assert GetInt(lotNo, Str(b), 0) == InBlock(rows, bases, b, n + 1);
    forall i | 0 <= i < n ensures features[i] != PinOf(code, rows, bases, n) {
      PinsAreDistinct(code, rows, bases, i, n);
    }
  }

  /** A key is new at `n` exactly when this is where it first comes up. */
  lemma NewIsFirst(rows: seq<Lot>, n: nat)
    requires n < |rows|
    ensures rows[n] !in rows[..n] <==> First(rows, rows[n]) == n
  {
    var key := rows[n];
    var f := First(rows, key);
    assert f < n ==> rows[..n][f] == key;
  }

  lemma OpenedNext(rows: seq<Lot>, h: int, n: nat)
    requires n < |rows|
    ensures Opened(rows, h, n + 1) == Opened(rows, h, n) + if rows[n].hid == h && rows[n] !in rows[..n] then 1 else 0
  {
    NewIsFirst(rows, n);
  }

  lemma SameBlock(rows: seq<Lot>, bases: Bases, n: nat, i: nat)
    requires i < |rows| && n < |rows| && Known(rows, bases) && rows[i] == rows[n]
    ensures Block(rows, bases, i) == Block(rows, bases, n)
  {
  }

  lemma NewBlock(rows: seq<Lot>, bases: Bases, n: nat)
    requires n < |rows| && Known(rows, bases) && rows[n] !in rows[..n]
    ensures Block(rows, bases, n) == bases[rows[n].hid] + Opened(rows, rows[n].hid, n + 1)
  {
    NewIsFirst(rows, n);
  }

  lemma OpenNext(rows: seq<Lot>, bases: Bases, n: nat, blocks: map<Lot, string>, nexts: map<int, int>,
                 blockOf: map<Lot, string>, nextBlock: map<int, int>)
    requires n < |rows| && Known(rows, bases) && Opening(rows, bases, n, blocks, nexts)
    requires var key := rows[n];
      if key in blocks then blockOf == blocks && nextBlock == nexts
      else
        && nextBlock == nexts[key.hid := GetInt(nexts, key.hid, bases[key.hid]) + 1]
        && blockOf == blocks[key := Str(nextBlock[key.hid])]
    ensures Opening(rows, bases, n + 1, blockOf, nextBlock) && blockOf[rows[n]] == Str(Block(rows, bases, n))
  {
    hide Str;
    hide Opened;
    hide Block;
    var key := rows[n];
    assert rows[..n + 1] == rows[..n] + [key];
    forall h | h in bases ensures GetInt(nextBlock, h, bases[h]) == bases[h] + Opened(rows, h, n + 1) {
      OpenedNext(rows, h, n);
    }
    if key in blocks {
      var k :| 0 <= k < n && rows[k] == key;
      SameBlock(rows, bases, n, k);
    } else {
      NewBlock(rows, bases, n);
    }
    forall i | 0 <= i < n ensures blockOf[rows[i]] == Str(Block(rows, bases, i)) {
      assert rows[i] in rows[..n];
    }
  }

  lemma CountNext(rows: seq<Lot>, bases: Bases, n: nat, lots: map<string, int>, lotNo: map<string, int>)
    requires n < |rows| && Known(rows, bases) && Counting(rows, bases, n, lots)
    requires var block := Str(Block(rows, bases, n)); lotNo == lots[block := GetInt(lots, block, 0) + 1]
    ensures Counting(rows, bases, n + 1, lotNo)
  {
    var here := Block(rows, bases, n);
    forall b: int ensures GetInt(lotNo, Str(b), 0) == InBlock(rows, bases, b, n + 1) {
      assert GetInt(lots, Str(b), 0) == InBlock(rows, bases, b, n);
      if Str(b) == Str(here) {
        StrDetermines(b, here);
      }
    }
  }
}
