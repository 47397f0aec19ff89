/**
 * Scan dispatch and input classification: resolving a scanned tag against
 * the catalog and the cart, deciding whether keyboard input came from a
 * reader burst, and the gate of the automatic scan.
 */
module Scanning {
  import opened Wrappers
  import opened Inventory

  /** The four outcomes of a scan of a non-empty buffer. */
  datatype ScanOutcome = NotFound | AlreadySold | AlreadyInCart | Added(product: Product)

  /** Which input path put an item into the cart (used in the log entry). */
  datatype ScanSource = ViaReader | ViaManual | ViaSerial

  /** Quiet time, in milliseconds, after which a reader burst is submitted. */
  const AutoScanDelay := 100

  /** The decision `scanRfidTag` makes for a non-empty buffer `tag`. */
  function Dispatch(products: seq<Product>, cart: seq<Product>, tag: string): (o: ScanOutcome)
    ensures o.NotFound? <==> !HasTag(products, tag)
    ensures o.AlreadySold? ==> exists i :: 0 <= i < |products| && products[i].rfidTag == tag && products[i].rfidStatus == Disabled
    ensures o.AlreadyInCart? ==> HasTag(cart, tag)
    ensures o.Added? ==>
      && o.product in products
      && o.product.rfidTag == tag
      && o.product.rfidStatus == Active
      && !HasTag(cart, tag)
  {
    match FindByTag(products, tag)
    case None => NotFound
    case Some(p) =>
      if p.rfidStatus.Disabled? then AlreadySold
      else if HasTag(cart, tag) then AlreadyInCart
      else Added(p)
  }

  /** With unique tags the outcome is fixed by the one catalog entry carrying the tag. */
  lemma DispatchByEntry(products: seq<Product>, cart: seq<Product>, i: int)
    requires UniqueTags(products)
    requires 0 <= i < |products|
    ensures var tag := products[i].rfidTag;
      Dispatch(products, cart, tag) ==
        if products[i].rfidStatus == Disabled then AlreadySold
        else if HasTag(cart, tag) then AlreadyInCart
        else Added(products[i])
  {
    FindByTagUnique(products, i);
  }

  /** Rescanning anything already in a well-formed cart is reported as already in the cart. */
  lemma RescanOfCartItem(products: seq<Product>, cart: seq<Product>, i: int)
    requires UniqueTags(products)
    requires forall j :: 0 <= j < |cart| ==> cart[j] in products && cart[j].rfidStatus == Active
    requires 0 <= i < |cart|
    ensures Dispatch(products, cart, cart[i].rfidTag) == AlreadyInCart
  {
    assert cart[i] in products;
    var k :| 0 <= k < |products| && products[k] == cart[i];
    DispatchByEntry(products, cart, k);
  }

  /** An empty scan buffer cannot match a catalog whose tags are all non-empty. */
  lemma EmptyTagNotFound(products: seq<Product>, cart: seq<Product>)
    requires forall i :: 0 <= i < |products| ==> products[i].rfidTag != ""
    ensures Dispatch(products, cart, "") == NotFound
  {
  }

  /** The serial path's auto-add test: found, still active and not in the cart yet. */
  predicate SerialAddable(products: seq<Product>, cart: seq<Product>, tag: string)
  {
    var found := FindByTag(products, tag);
    found.Some? && found.value.rfidStatus == Active && !HasTag(cart, tag)
  }

  /** The serial auto-add is exactly the "added" outcome of a keyboard scan, with the same product. */
  lemma SerialAddableIsAdded(products: seq<Product>, cart: seq<Product>, tag: string)
    ensures SerialAddable(products, cart, tag) <==> Dispatch(products, cart, tag).Added?
    ensures SerialAddable(products, cart, tag) ==>
      Dispatch(products, cart, tag).product == FindByTag(products, tag).value
  {
  }

  /** The cart after the serial path's delayed auto-add of `tag`, judged against the current catalog and cart. */
  function CartAfterSerialScan(products: seq<Product>, cart: seq<Product>, tag: string): (r: seq<Product>)
    ensures SerialAddable(products, cart, tag) ==> |r| == |cart| + 1 && r[..|cart|] == cart && r[|cart|].rfidTag == tag
    ensures !SerialAddable(products, cart, tag) ==> r == cart
    ensures UniqueTags(cart) ==> UniqueTags(r)
    ensures (forall i :: 0 <= i < |cart| ==> cart[i] in products && cart[i].rfidStatus == Active) ==>
              forall i :: 0 <= i < |r| ==> r[i] in products && r[i].rfidStatus == Active
  {
    if SerialAddable(products, cart, tag) then cart + [FindByTag(products, tag).value] else cart
  }

  /**
   * The serial auto-add as the read loop runs it: the test reads `seenProducts` and
   * `seenCart`, the catalog and cart as they were when the port was connected, while
   * the append goes to the live cart.
   */
  function SerialAutoAddStale(seenProducts: seq<Product>, seenCart: seq<Product>, cart: seq<Product>, tag: string): seq<Product>
  {
    if SerialAddable(seenProducts, seenCart, tag) then cart + [FindByTag(seenProducts, tag).value] else cart
  }

  /** The same tag read twice on the serial port goes into the cart twice, and a product sold since connecting is sold again. */
  lemma StaleSerialAddBreaksCart(p: Product)
    requires p.rfidStatus == Active
    ensures var once := SerialAutoAddStale([p], [], [], p.rfidTag);
      SerialAutoAddStale([p], [], once, p.rfidTag) == [p, p]
    ensures SerialAutoAddStale([p], [], [], p.rfidTag) == [p]
    ensures CartAfterSerialScan([p], [p], p.rfidTag) == [p]
    ensures CartAfterSerialScan([p.(rfidStatus := Disabled)], [], p.rfidTag) == []
  {
    assert FindByTag([p], p.rfidTag) == Some(p);
    assert HasTag([p], p.rfidTag);
    var q := p.(rfidStatus := Disabled);
    assert FindByTag([q], p.rfidTag) == Some(q);
  }

  /**
   * The length of a string as JavaScript's `length` reports it: UTF-16 code
   * units, so a character beyond the Basic Multilingual Plane counts twice.
   */
  function Utf16Length(s: string): nat
  {
    if s == [] then 0 else Utf16Length(s[..|s| - 1]) + (if s[|s| - 1] as int >= 0x1_0000 then 2 else 1)
  }

  /** Code-unit lengths add up over concatenation. */
  lemma {:induction false} Utf16LengthConcat(a: string, b: string)
    ensures Utf16Length(a + b) == Utf16Length(a) + Utf16Length(b)
    decreases |b|
  {
    if b == [] {
      assert a + b == a;
    } else {
      assert (a + b)[..|a + b| - 1] == a + b[..|b| - 1];
      Utf16LengthConcat(a, b[..|b| - 1]);
    }
  }

  /** `handleRfidInputChange`: reader mode when the field grew by more than one code unit at once. */
  function ReaderMode(previous: string, value: string): bool
  {
    Utf16Length(value) > Utf16Length(previous) + 1
  }

  /** Text added at the end of the field is a burst exactly when it is two or more code units long. */
  lemma ReaderModeOnAppend(s: string, t: string)
    ensures ReaderMode(s, s + t) <==> Utf16Length(t) >= 2
  {
    Utf16LengthConcat(s, t);
  }

  /** One typed character of the Basic Multilingual Plane is never a burst. */
  lemma TypedCharIsNotBurst(s: string, c: char)
    requires c as int < 0x1_0000
    ensures !ReaderMode(s, s + [c])
  {
    ReaderModeOnAppend(s, [c]);
    assert [c][..0] == [];
  }

  /** One character beyond the Basic Multilingual Plane (an emoji, say) is two code units, so it counts as a burst. */
  lemma AstralCharIsBurst(s: string, c: char)
    requires c as int >= 0x1_0000
    ensures ReaderMode(s, s + [c])
  {
    ReaderModeOnAppend(s, [c]);
    assert [c][..0] == [];
  }

  /** Deleting from the end of the field is never a burst. */
  lemma DeletionIsNotBurst(s: string, k: nat)
    requires k <= |s|
    ensures !ReaderMode(s, s[..k])
  {
    assert s == s[..k] + s[k..];
    Utf16LengthConcat(s[..k], s[k..]);
  }

  /** The reader mode after typing `keys` onto `s` one character per input event, starting from `mode`. */
  function ModeAfterTyping(s: string, keys: string, mode: bool): bool
    decreases |keys|
  {
    if keys == [] then mode else ModeAfterTyping(s + [keys[0]], keys[1..], ReaderMode(s, s + [keys[0]]))
  }

  /** The auto-scan timer submits the buffer only in reader mode, with a non-empty buffer, after 100 ms of quiet. */
  predicate AutoScanFires(buffer: string, readerMode: bool, now: int, lastScanTime: int)
  {
    buffer != "" && readerMode && now - lastScanTime >= AutoScanDelay
  }

  /**
   * Right after an input change that set the buffer to `value` at time `changedAt`,
   * the timer fires at `now` exactly when the change grew the field by two or more
   * code units and 100 ms have passed.
   */
  lemma AutoScanAfterChange(previous: string, value: string, changedAt: int, now: int)
    ensures AutoScanFires(value, ReaderMode(previous, value), now, changedAt)
        <==> Utf16Length(value) > Utf16Length(previous) + 1 && now >= changedAt + AutoScanDelay
  {
  }

  /**
   * Typing Basic Multilingual Plane characters one per input event leaves reader
   * mode off, so the auto-scan never fires, however long the pause.
   */
  lemma {:induction false} TypingNeverAutoScans(s: string, keys: string, now: int, lastScanTime: int)
    requires keys != []
    requires forall i :: 0 <= i < |keys| ==> keys[i] as int < 0x1_0000
    ensures forall mode :: !ModeAfterTyping(s, keys, mode)
    ensures forall mode :: !AutoScanFires(s + keys, ModeAfterTyping(s, keys, mode), now, lastScanTime)
    decreases |keys|
  {
    TypedCharIsNotBurst(s, keys[0]);
    if |keys| > 1 {
      TypingNeverAutoScans(s + [keys[0]], keys[1..], now, lastScanTime);
    }
  }

  /** Pasting (or a reader sending) two or more code units at once makes the auto-scan fire once 100 ms have passed. */
  lemma PasteAutoScans(s: string, t: string, changedAt: int, now: int)
    requires Utf16Length(t) >= 2
    requires now >= changedAt + AutoScanDelay
    ensures AutoScanFires(s + t, ReaderMode(s, s + t), now, changedAt)
  {
    ReaderModeOnAppend(s, t);
    assert t != [];
  }
}
