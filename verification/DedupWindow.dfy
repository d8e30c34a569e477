/** The order-id window: a byte-slice bitmap and the window built on it. */
module DedupWindow {
  /** A window as a value: the residues whose bit is set. */
  datatype Window = Window(min: int, max: int, cap: int, taken: set<int>)

  function NewWindow(min: int, max: int): Window {
    Window(min, max, max - min, {})
  }

  /** Ids above the fixed maximum are always accepted: `put` slides a copy of the window. */
  predicate Accepts(w: Window, id: int)
    requires w.cap > 0
  {
    id > w.min && (id > w.max || id % w.cap !in w.taken)
  }

  function Put(w: Window, id: int): Window
    requires w.cap > 0
  {
    if Accepts(w, id) then w.(taken := w.taken + {id % w.cap}) else w
  }

  function PutAll(w: Window, ids: seq<int>): (r: Window)
    requires w.cap > 0
    ensures (r.min, r.max, r.cap) == (w.min, w.max, w.cap)
  {
    if ids == [] then w else Put(PutAll(w, ids[..|ids| - 1]), ids[|ids| - 1])
  }

  /** Whether the k-th id offered to the window was accepted. */
  predicate AcceptedAt(w: Window, ids: seq<int>, k: int)
    requires w.cap > 0 && 0 <= k < |ids|
  {
    Accepts(PutAll(w, ids[..k]), ids[k])
  }

  lemma {:induction false} TakenAreAcceptedResidues(w: Window, ids: seq<int>, j: int)
    requires w.cap > 0 && w.taken == {}
    ensures j in PutAll(w, ids).taken <==> exists k :: 0 <= k < |ids| && AcceptedAt(w, ids, k) && ids[k] % w.cap == j
  {
    if ids != [] {
      var n := |ids| - 1;
      var front := ids[..n];
      TakenAreAcceptedResidues(w, front, j);
      assert forall k :: 0 <= k < n ==> front[..k] == ids[..k];
      assert forall k :: 0 <= k < n ==> AcceptedAt(w, front, k) == AcceptedAt(w, ids, k);
      assert AcceptedAt(w, ids, n) == Accepts(PutAll(w, front), ids[n]);
      if AcceptedAt(w, ids, n) && ids[n] % w.cap == j {
        assert j in PutAll(w, ids).taken;
      }
    }
  }

  /** From an empty window: an id within the range is accepted exactly when no earlier accepted id shares
      its residue, so never twice; an id above the range is always accepted, one at or below it never. */
  lemma {:induction false} AcceptedExactly(w: Window, ids: seq<int>, k: int)
    requires w.cap > 0 && w.taken == {} && 0 <= k < |ids|
    ensures w.min < ids[k] <= w.max ==>
              (AcceptedAt(w, ids, k) <==>
               !exists i :: 0 <= i < k && AcceptedAt(w, ids, i) && ids[i] % w.cap == ids[k] % w.cap)
    ensures ids[k] > w.max && ids[k] > w.min ==> AcceptedAt(w, ids, k)
    ensures ids[k] <= w.min ==> !AcceptedAt(w, ids, k)
    ensures forall i :: 0 <= i < k && ids[i] == ids[k] <= w.max ==> !(AcceptedAt(w, ids, i) && AcceptedAt(w, ids, k))
  {
    var before := ids[..k];
    TakenAreAcceptedResidues(w, before, ids[k] % w.cap);
    assert forall i :: 0 <= i < k ==> before[..i] == ids[..i];
    assert forall i :: 0 <= i < k ==> AcceptedAt(w, before, i) == AcceptedAt(w, ids, i) && before[i] == ids[i];
  }

  // ---------------------------------------------------------------- bits

  const SET_MASK: seq<bv8> := [1, 2, 4, 8, 16, 32, 64, 128]
  const CLEAR_MASK: seq<bv8> := [254, 253, 251, 247, 239, 223, 191, 127]

  predicate GetBit(b: bv8, i: nat)
    requires i < 8
  {
    b & SET_MASK[i] != 0
  }

  function SetBit(b: bv8, i: nat, v: bool): (r: bv8)
    requires i < 8
    ensures GetBit(r, i) == v
    ensures forall j: nat :: j < 8 && j != i ==> GetBit(r, j) == GetBit(b, j)
  {
    SetBitLaw(b, i, v);
    if v then b | SET_MASK[i] else b & CLEAR_MASK[i]
  }

  lemma {:induction false} SetBitLaw(b: bv8, i: nat, v: bool)
    requires i < 8
    ensures var r := if v then b | SET_MASK[i] else b & CLEAR_MASK[i];
            GetBit(r, i) == v && forall j: nat :: j < 8 && j != i ==> GetBit(r, j) == GetBit(b, j)
  {
    var r := if v then b | SET_MASK[i] else b & CLEAR_MASK[i];
    forall j: nat | j < 8
      ensures GetBit(r, j) == if j == i then v else GetBit(b, j)
    {
      MaskLaw(b, i, j);
    }
  }

  lemma {:induction false} MaskLaw(b: bv8, i: nat, j: nat)
    requires i < 8 && j < 8
    ensures ((b | SET_MASK[i]) & SET_MASK[j] != 0) == (i == j || b & SET_MASK[j] != 0)
    ensures ((b & CLEAR_MASK[i]) & SET_MASK[j] != 0) == (i != j && b & SET_MASK[j] != 0)
  {
  }

  /** Bit i of a byte slice. */
  predicate Get(m: seq<bv8>, i: nat)
    requires i < 8 * |m|
  {
    GetBit(m[i / 8], i % 8)
  }

  method NewSlice(l: nat) returns (m: array<bv8>)
    ensures fresh(m)
    ensures 8 * m.Length >= l && 8 * m.Length < l + 8
    ensures forall i: nat :: i < 8 * m.Length ==> !Get(m[..], i)
  {
    var remainder := l % 8;
    if remainder != 0 {
      remainder := 1;
    }
    m := new bv8[l / 8 + remainder](_ => 0);
    forall i: nat | i < 8 * m.Length
      ensures !Get(m[..], i)
    {
      assert (0 as bv8) & SET_MASK[i % 8] == 0;
    }
  }

  /** Writes bit i and no other. */
  method Set(m: array<bv8>, i: nat, v: bool)
    requires i < 8 * m.Length
    modifies m
    ensures forall j: nat :: j < 8 * m.Length ==> Get(m[..], j) == if j == i then v else old(Get(m[..], j))
  {
    var index := i / 8;
    var bit := i % 8;
    m[index] := SetBit(m[index], bit, v);
    forall j: nat | j < 8 * m.Length
      ensures Get(m[..], j) == if j == i then v else old(Get(m[..], j))
    {
      assert m[..][j / 8] == m[j / 8];
    }
  }

  class BitWindow {
    const min: int
    const max: int
    const cap: int
    const bitmap: array<bv8>

    predicate Valid() {
      0 <= min < max && cap == max - min <= 8 * bitmap.Length
    }

    function Model(): Window
      requires Valid()
      reads bitmap
    {
      Window(min, max, cap, set j: int | 0 <= j < cap && Get(bitmap[..], j))
    }

    constructor (min: int, max: int)
      requires 0 <= min < max
      ensures Valid() && fresh(bitmap)
      ensures Model() == NewWindow(min, max)
    {
      var m := NewSlice(max - min);
      this.min, this.max, this.cap, this.bitmap := min, max, max - min, m;
    }

    /** A window restored from its saved value. */
    constructor From(w: Window)
      requires 0 <= w.min < w.max && w.cap == w.max - w.min
      requires forall j :: j in w.taken ==> 0 <= j < w.cap
      ensures Valid() && fresh(bitmap) && Model() == w
    {
      var m := NewSlice(w.cap);
      this.min, this.max, this.cap, this.bitmap := w.min, w.max, w.cap, m;
      new;
      var i := 0;
      while i < cap
        invariant 0 <= i <= cap
        invariant forall j: nat :: j < 8 * bitmap.Length ==> (Get(bitmap[..], j) <==> j < i && j in w.taken)
      {
        if i in w.taken {
          Set(bitmap, i, true);
        }
        i := i + 1;
      }
      assert Model().taken == w.taken;
    }

    /** The receiver is a copy, so moving min and max is lost; the bitmap is shared, so its bits stay. */
    method PutId(id: int) returns (ok: bool)
      requires Valid()
      modifies bitmap
      ensures Model() == Put(old(Model()), id)
      ensures ok == Accepts(old(Model()), id)
    {
      var wMin, wMax := min, max;
      if id <= wMin {
        return false;
      } else if id > wMax {
        var delta := id - wMax;
        wMin := wMin + delta;
        wMax := wMax + delta;
        Set(bitmap, id % cap, true);
      } else if Get(bitmap[..], id % cap) {
        return false;
      } else {
        Set(bitmap, id % cap, true);
      }
      ghost var was := old(bitmap[..]);
      forall j: nat | j < cap
        ensures Get(bitmap[..], j) == (j == id % cap || Get(was, j))
      {
      }
      assert Model().taken == old(Model()).taken + {id % cap};
      return true;
    }
  }
}
