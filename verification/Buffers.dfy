/** The message buffer of ft_alloc_msgs: its size and the place of its receive
    and send slots. Positions are offsets from the start of the allocation. */
module Buffers {
  import opened Bits

  const SIZE_T: nat := 0x1_0000_0000_0000_0000
  const MAX_CTRL_MSG: nat := 256

  function Max(a: nat, b: nat): nat {
    if a > b then a else b
  }

  function Slot(size: nat): (s: nat)
    ensures s >= MAX_CTRL_MSG && s >= size
  {
    Max(size, MAX_CTRL_MSG)
  }

  predicate Holds(s: nat, size: nat) {
    s >= size && s >= 256
  }

  /** s is the least size that holds the message and a control message. */
  ghost predicate Least(s: nat, size: nat) {
    Holds(s, size) && forall t: nat :: Holds(t, size) ==> s <= t
  }

  lemma SlotIsLeast(s: nat, size: nat)
    ensures Least(s, size) <==> s == Slot(size)
  {
    assert Holds(Slot(size), size);
  }

  // --------------------------------------------------------------- arithmetic

  lemma ModPlusMultiple(r: nat, q: nat, m: nat)
    requires m > 0
    ensures (q * m + r) % m == r % m
  {
    var q', r' := r / m, r % m;
    assert r == m * q' + r';
    assert q * m + r == (q + q') * m + r';
    DivModSplit(q + q', m, r');
  }

  lemma ModOfSum(a: nat, b: nat, m: nat)
    requires m > 0
    ensures (a % m + b % m) % m == (a + b) % m
  {
    var qa, qb := a / m, b / m;
    var r := a % m + b % m;
    assert a == m * qa + a % m && b == m * qb + b % m;
    assert a + b == (qa + qb) * m + r;
    ModPlusMultiple(r, qa + qb, m);
  }

  lemma ModOfProduct(a: nat, w: nat, m: nat)
    requires m > 0
    ensures ((a % m) * w) % m == (a * w) % m
  {
    var q, r := a / m, a % m;
    assert a == m * q + r;
    assert (m * q) * w == (q * w) * m;
    assert a * w == (q * w) * m + r * w;
    ModPlusMultiple(r * w, q * w, m);
  }

  lemma WrapKeepsIff(whole: nat, m: nat)
    requires m > 0
    ensures whole <= whole % m <==> whole < m
    ensures whole < m ==> whole % m == whole
  {
  }

  /** Room for whole bytes, when a more are asked for. */
  lemma RoomIff(whole: nat, a: nat)
    requires a < SIZE_T
    ensures whole <= (whole % SIZE_T + a) % SIZE_T <==> whole + a < SIZE_T
  {
    var r := whole % SIZE_T;
    if whole < SIZE_T {
      assert r == whole;
      assert (whole + a) % SIZE_T == if whole + a < SIZE_T then whole + a else whole + a - SIZE_T;
    }
  }

  // -------------------------------------------------------------- buffer size

  /** Both programs compute in size_t, with wrap-around. */
  function RefBufSize(txSize: nat, rxSize: nat, window: nat): nat {
    (Slot(txSize) * window % SIZE_T + Slot(rxSize) * window % SIZE_T) % SIZE_T
  }

  function PortBufSize(txSize: nat, rxSize: nat, window: nat): nat {
    ((Slot(txSize) + Slot(rxSize)) % SIZE_T * window) % SIZE_T
  }

  /** The port's factored formula is the reference's, even when it wraps. */
  lemma PortSizeIsRefSize(txSize: nat, rxSize: nat, window: nat)
    ensures PortBufSize(txSize, rxSize, window) == RefBufSize(txSize, rxSize, window)
    ensures RefBufSize(txSize, rxSize, window) == (Slot(txSize) + Slot(rxSize)) * window % SIZE_T
  {
    var t, r := Slot(txSize), Slot(rxSize);
    ModOfProduct(t + r, window, SIZE_T);
    ModOfSum(t * window, r * window, SIZE_T);
    assert t * window + r * window == (t + r) * window;
  }

  // ------------------------------------------------------------------- layout

  datatype Region = Region(start: nat, length: nat)

  predicate Inside(a: Region, size: nat) {
    a.start + a.length <= size
  }

  predicate Apart(a: Region, b: Region) {
    a.start + a.length <= b.start || b.start + b.length <= a.start
  }

  /** Slot k of a run of equal slots. */
  function Nth(start: nat, slot: nat, k: nat): Region {
    Region(start + k * slot, slot)
  }

  lemma SlotsInRow(slot: nat, j: nat, k: nat)
    requires j < k
    ensures j * slot + slot <= k * slot
  {
    var g := k - j - 1;
    assert g * slot >= 0;
    assert k * slot == j * slot + slot + g * slot;
  }

  /** The slots of the receive buffer, then those of the send buffer: any two
      are apart, and together they end where window slots of each kind do. */
  ghost predicate SlotsApart(rxBuf: nat, rxSlot: nat, txBuf: nat, txSlot: nat, window: nat) {
    && (forall j, k :: 0 <= j < k < window ==> Apart(Nth(rxBuf, rxSlot, j), Nth(rxBuf, rxSlot, k)))
    && (forall j, k :: 0 <= j < k < window ==> Apart(Nth(txBuf, txSlot, j), Nth(txBuf, txSlot, k)))
    && (forall j, k :: 0 <= j < window && 0 <= k < window ==>
          Apart(Nth(rxBuf, rxSlot, j), Nth(txBuf, txSlot, k)))
  }

  ghost predicate SlotsInside(rxBuf: nat, rxSlot: nat, txBuf: nat, txSlot: nat, window: nat, size: nat) {
    forall k :: 0 <= k < window ==>
      Inside(Nth(rxBuf, rxSlot, k), size) && Inside(Nth(txBuf, txSlot, k), size)
  }

  lemma LayoutApart(rxSlot: nat, txSlot: nat, window: nat)
    ensures SlotsApart(0, rxSlot, rxSlot * window, txSlot, window)
  {
    var txBuf := rxSlot * window;
    forall j, k | 0 <= j < k < window ensures Apart(Nth(0, rxSlot, j), Nth(0, rxSlot, k)) {
      SlotsInRow(rxSlot, j, k);
    }
    forall j, k | 0 <= j < k < window ensures Apart(Nth(txBuf, txSlot, j), Nth(txBuf, txSlot, k)) {
      SlotsInRow(txSlot, j, k);
    }
    forall j, k | 0 <= j < window && 0 <= k < window
      ensures Apart(Nth(0, rxSlot, j), Nth(txBuf, txSlot, k))
    {
      SlotsInRow(rxSlot, j, window);
      assert rxSlot * window == window * rxSlot;
    }
  }

  /** Whatever size was allocated, the slots fit exactly when it is at least
      the true, unwrapped size. */
  lemma LayoutInsideIff(rxSlot: nat, txSlot: nat, window: nat, size: nat)
    requires window >= 1
    ensures SlotsInside(0, rxSlot, rxSlot * window, txSlot, window, size) <==>
            (rxSlot + txSlot) * window <= size
  {
    var txBuf := rxSlot * window;
    assert (rxSlot + txSlot) * window == rxSlot * window + txSlot * window;
    assert rxSlot * window == window * rxSlot && txSlot * window == window * txSlot;
    var last := window - 1;
    assert window * txSlot == last * txSlot + txSlot;
    if (rxSlot + txSlot) * window <= size {
      forall k | 0 <= k < window
        ensures Inside(Nth(0, rxSlot, k), size) && Inside(Nth(txBuf, txSlot, k), size)
      {
        SlotsInRow(rxSlot, k, window);
        SlotsInRow(txSlot, k, window);
      }
    } else {
      assert !Inside(Nth(txBuf, txSlot, last), size);
    }
  }

  /** The slots fit the size that the program computes exactly when that
      computation does not wrap around. */
  lemma FitsIffNoOverflow(txSize: nat, rxSize: nat, window: nat)
    requires window >= 1
    ensures SlotsInside(0, Slot(rxSize), Slot(rxSize) * window, Slot(txSize), window,
                        RefBufSize(txSize, rxSize, window)) <==>
            (Slot(txSize) + Slot(rxSize)) * window < SIZE_T
  {
    var size := RefBufSize(txSize, rxSize, window);
    PortSizeIsRefSize(txSize, rxSize, window);
    LayoutInsideIff(Slot(rxSize), Slot(txSize), window, size);
    WrapKeepsIff((Slot(txSize) + Slot(rxSize)) * window, SIZE_T);
  }

  lemma OneWindow(rxSlot: nat, txSlot: nat, size: nat)
    requires rxSlot + txSlot <= size
    ensures rxSlot * 1 == rxSlot && (rxSlot + txSlot) * 1 == rxSlot + txSlot
    ensures SlotsApart(0, rxSlot, rxSlot, txSlot, 1)
    ensures SlotsInside(0, rxSlot, rxSlot, txSlot, 1, size)
  {
    LayoutApart(rxSlot, txSlot, 1);
    LayoutInsideIff(rxSlot, txSlot, 1, size);
  }

  lemma FirstSlots(rxSlot: nat, txSlot: nat, window: nat)
    requires window >= 1
    ensures rxSlot <= rxSlot * window
    ensures rxSlot * window + txSlot <= (rxSlot + txSlot) * window
  {
    SlotsInRow(rxSlot, 0, window);
    SlotsInRow(txSlot, 0, window);
    assert rxSlot * window == window * rxSlot && txSlot * window == window * txSlot;
    assert (rxSlot + txSlot) * window == rxSlot * window + txSlot * window;
  }

  // --------------------------------------------------------------- ft_alloc_msgs

  /** The globals that ft_alloc_msgs fills in. */
  class MessageBuffers {
    var txSize: nat
    var rxSize: nat
    var bufSize: nat
    var rxBuf: nat
    var txBuf: nat

    constructor () {
      txSize, rxSize, bufSize, rxBuf, txBuf := 0, 0, 0, 0, 0;
    }

    /** Every receive slot and every send slot has its own place in the buffer;
        the first ones hold a control message of 256 bytes. */
    ghost predicate LaidOut(window: nat)
      reads this
    {
      && rxBuf == 0
      && txBuf == Slot(rxSize) * window
      && bufSize >= (Slot(rxSize) + Slot(txSize)) * window
      && SlotsApart(rxBuf, Slot(rxSize), txBuf, Slot(txSize), window)
      && SlotsInside(rxBuf, Slot(rxSize), txBuf, Slot(txSize), window, bufSize)
      && (window >= 1 ==>
            && Inside(Region(rxBuf, Max(rxSize, MAX_CTRL_MSG)), txBuf)
            && Inside(Region(txBuf, MAX_CTRL_MSG), bufSize))
    }

    /** One region for all windows. The sizes are what ft_set_tx_rx_sizes
        gives; alignment is 0 when no alignment is asked for. */
    method AllocWindow(tx: nat, rx: nat, window: nat, alignment: nat)
      modifies this
      ensures txSize == tx && rxSize == rx
      ensures bufSize == (RefBufSize(tx, rx, window) + alignment) % SIZE_T
      ensures forall t: nat, r: nat :: Least(t, tx) && Least(r, rx) ==>
                && bufSize == ((t + r) * window % 0x1_0000_0000_0000_0000 + alignment) % 0x1_0000_0000_0000_0000
                && rxBuf == 0 && txBuf == r * window
      ensures (Slot(tx) + Slot(rx)) * window + alignment < SIZE_T ==> LaidOut(window)
      ensures alignment < SIZE_T ==> (LaidOut(window) <==> (Slot(tx) + Slot(rx)) * window + alignment < SIZE_T)
    {
      txSize, rxSize := tx, rx;
      bufSize := (Max(txSize, MAX_CTRL_MSG) * window % SIZE_T
                  + Max(rxSize, MAX_CTRL_MSG) * window % SIZE_T) % SIZE_T;
      bufSize := (bufSize + alignment) % SIZE_T;
      rxBuf := 0;
      txBuf := rxBuf + Max(rxSize, MAX_CTRL_MSG) * window;
      forall t: nat, r: nat | Least(t, tx) && Least(r, rx) ensures t == Slot(tx) && r == Slot(rx) {
        SlotIsLeast(t, tx);
        SlotIsLeast(r, rx);
      }
      ghost var whole := (Slot(tx) + Slot(rx)) * window;
      PortSizeIsRefSize(tx, rx, window);
      assert bufSize == (whole % SIZE_T + alignment) % SIZE_T;
      if alignment < SIZE_T {
        RoomIff(whole, alignment);
      }
      if whole + alignment < SIZE_T {
        LayoutApart(Slot(rx), Slot(tx), window);
        if window >= 1 {
          LayoutInsideIff(Slot(rx), Slot(tx), window, bufSize);
          FirstSlots(Slot(rx), Slot(tx), window);
        }
      }
    }

    /** One memory region per message: the buffer holds control messages only. */
    method AllocMultMr(rxPrefix: nat, txPrefix: nat, alignment: nat)
      modifies this
      ensures rxSize == (MAX_CTRL_MSG + rxPrefix) % SIZE_T && txSize == (MAX_CTRL_MSG + txPrefix) % SIZE_T
      ensures bufSize == ((rxSize + txSize) % SIZE_T + alignment) % SIZE_T
      ensures rxBuf == 0 && Least(txBuf, rxSize)
      ensures 2 * MAX_CTRL_MSG + rxPrefix + txPrefix + alignment < SIZE_T ==> LaidOut(1)
      ensures MAX_CTRL_MSG + rxPrefix < SIZE_T && MAX_CTRL_MSG + txPrefix < SIZE_T && alignment < SIZE_T ==>
                (LaidOut(1) <==> 2 * MAX_CTRL_MSG + rxPrefix + txPrefix + alignment < SIZE_T)
    {
      rxSize := (MAX_CTRL_MSG + rxPrefix) % SIZE_T;
      txSize := (MAX_CTRL_MSG + txPrefix) % SIZE_T;
      bufSize := (rxSize + txSize) % SIZE_T;
      bufSize := (bufSize + alignment) % SIZE_T;
      rxBuf := 0;
      txBuf := rxBuf + Max(rxSize, MAX_CTRL_MSG);
      SlotIsLeast(txBuf, rxSize);
      if alignment < SIZE_T {
        RoomIff(rxSize + txSize, alignment);
      }
      if 2 * MAX_CTRL_MSG + rxPrefix + txPrefix + alignment < SIZE_T {
        assert rxSize == MAX_CTRL_MSG + rxPrefix && txSize == MAX_CTRL_MSG + txPrefix;
        assert Slot(rxSize) == rxSize && Slot(txSize) == txSize;
        OneWindow(rxSize, txSize, bufSize);
      }
    }
  }
}
