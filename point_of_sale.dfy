/**
 * The point-of-sale terminal: the component's state (catalog, cart,
 * transactions, activity log, scan buffer, reader mode, serial link and
 * kill settings) and the handlers that update it.
 */
module PointOfSale {
  import opened Wrappers
  import opened Inventory
  import opened Scanning
  import opened Checkout
  import opened ActivityLog
  import opened SerialProtocol

  /** What pressing "Add Product" did. */
  datatype AddOutcome = Rejected(reason: AddRejection) | Created(product: Product)

  /** What pressing "Create Invoice" did. */
  datatype PaymentOutcome = EmptyCart | Declined | Completed(transaction: Transaction)

  /** The log entries of a scan with the given outcome. */
  function ScanEvents(o: ScanOutcome, tag: string, readerMode: bool): seq<Event>
  {
    match o
    case NotFound => [TagNotFound(tag)]
    case AlreadySold => [SoldTagScanned(tag)]
    case AlreadyInCart => []
    case Added(p) => [AddedToCart(p.productName, p.price, if readerMode then ViaReader else ViaManual)]
  }

  /** The cart after a scan with the given outcome. */
  function CartAfterScan(cart: seq<Product>, o: ScanOutcome): seq<Product>
  {
    if o.Added? then cart + [o.product] else cart
  }

  /** The log entries of killing one tag: the command was sent, or the kill was simulated. */
  function ItemKillEvents(tag: string, connected: bool): seq<Event>
  {
    if connected then [KillCommandSent(tag)] else [KillSimulated(tag), KillPermanentNotice]
  }

  /** The log entries of the kill step for `items`, in order. */
  function KillEvents(items: seq<Product>, connected: bool): seq<Event>
  {
    if items == [] then []
    else KillEvents(items[..|items| - 1], connected) + ItemKillEvents(items[|items| - 1].rfidTag, connected)
  }

  /** The log entries that close a sale. */
  function SaleEvents(id: string, total: real, count: nat, killed: bool): seq<Event>
  {
    [TransactionCompleted(id), AmountCharged(total), ProductsSold(count)] + (if killed then [TagsKilled(count)] else [])
  }

  /** Concatenation regroups freely; stated once so the loop in `KillSoldTags` can regroup its log and frames cheaply. */
  lemma AppendAssoc<T>(a: seq<T>, b: seq<T>, c: seq<T>)
    ensures (a + b) + c == a + (b + c)
  {
  }

  /** One more item of the cart adds its own log entries and its own frame at the end. */
  lemma KillStepsExtend(items: seq<Product>, i: int, connected: bool, password: string)
    requires 0 <= i < |items|
    ensures KillEvents(items[..i + 1], connected) == KillEvents(items[..i], connected) + ItemKillEvents(items[i].rfidTag, connected)
    ensures KillFrames(TagsOf(items[..i + 1]), password) == KillFrames(TagsOf(items[..i]), password) + [KillFrame(items[i].rfidTag, password)]
  {
    assert items[..i + 1][..i] == items[..i];
  }

  class Terminal {
    var products: seq<Product>
    var cart: seq<Product>
    var transactions: seq<Transaction>
    /** The in-memory log, never trimmed. */
    var logs: seq<Event>
    /** The persisted copy of the log, trimmed to the last LogCap entries. */
    var storedLogs: seq<Event>
    var newProduct: ProductForm
    var scanRfid: string
    var isRfidReaderMode: bool
    var lastScanTime: int
    /** A serial port is held (the source's `serialPort` and `isSerialConnected`, which change together). */
    var serialConnected: bool
    var killTagAfterSale: bool
    var killPassword: string
    /** Frames written to the serial port, oldest first. */
    var sentFrames: seq<string>

    /** Tags are non-empty and pairwise distinct. */
    ghost predicate CatalogValid()
      reads this
    {
      UniqueTags(products) && forall i :: 0 <= i < |products| ==> products[i].rfidTag != ""
    }

    /** The cart holds distinct tags, each an active product of the catalog. */
    ghost predicate CartValid()
      reads this
    {
      UniqueTags(cart) && forall i :: 0 <= i < |cart| ==> cart[i] in products && cart[i].rfidStatus == Active
    }

    /** The persisted log is the last LogCap entries of the in-memory log. */
    ghost predicate LogsInSync()
      reads this
    {
      storedLogs == KeepLast(logs, LogCap)
    }

    ghost predicate Valid()
      reads this
    {
      CatalogValid() && CartValid() && LogsInSync()
    }

    constructor ()
      ensures Valid()
      ensures products == [] && cart == [] && transactions == [] && logs == [] && storedLogs == []
      ensures newProduct == EmptyForm && scanRfid == "" && !isRfidReaderMode && lastScanTime == 0
      ensures !serialConnected && !killTagAfterSale && killPassword == DefaultKillPassword && sentFrames == []
    {
      products := [];
      cart := [];
      transactions := [];
      logs := [];
      storedLogs := [];
      newProduct := EmptyForm;
      scanRfid := "";
      isRfidReaderMode := false;
      lastScanTime := 0;
      serialConnected := false;
      killTagAfterSale := false;
      killPassword := DefaultKillPassword;
      sentFrames := [];
    }

    /** `addLog`: append to the in-memory log and keep the last LogCap entries in the persisted copy. */
    method AddLog(e: Event)
      requires LogsInSync()
      modifies this`logs, this`storedLogs
      ensures LogsInSync()
      ensures logs == old(logs) + [e]
      ensures storedLogs == KeepLast(old(storedLogs) + [e], LogCap)
    {
      KeepLastAppend(logs, e, LogCap);
      logs := logs + [e];
      storedLogs := KeepLast(storedLogs + [e], LogCap);
    }

    /** `addProduct`: validate the form, then append an active product and clear the form. */
    method AddProduct(price: real, id: int, createdAt: string) returns (r: AddOutcome)
      requires Valid()
      modifies this`products, this`newProduct, this`logs, this`storedLogs
      ensures Valid()
      ensures products == AddedCatalog(old(products), old(newProduct), price, id, createdAt)
      ensures NoReactivation(old(products), products)
      ensures match Rejection(old(products), old(newProduct))
        case Some(reason) => r == Rejected(reason) && newProduct == old(newProduct) && logs == old(logs)
        case None =>
          && r == Created(products[|products| - 1])
          && newProduct == EmptyForm
          && logs == old(logs) + [ProductAdded(old(newProduct).productName, old(newProduct).rfidTag)]
    {
      AddedCatalogNoReactivation(products, newProduct, price, id, createdAt);
      var form := newProduct;
      if MissingRequired(form) {
        return Rejected(MissingField);
      }
      if FindByTag(products, form.rfidTag).Some? {
        return Rejected(DuplicateTag);
      }
      var product := NewProduct(form, price, id, createdAt);
      products := products + [product];
      AddLog(ProductAdded(product.productName, product.rfidTag));
      newProduct := EmptyForm;
      r := Created(product);
    }

    /** `scanRfidTag`: resolve the buffer to one of four outcomes, add the product on the last, and clear the buffer. */
    method ScanRfidTag() returns (o: Option<ScanOutcome>)
      requires Valid()
      modifies this`cart, this`scanRfid, this`logs, this`storedLogs
      ensures Valid()
      ensures old(scanRfid) == "" ==> o == None && cart == old(cart) && scanRfid == "" && logs == old(logs)
      ensures old(scanRfid) != "" ==>
        && o == Some(Dispatch(products, old(cart), old(scanRfid)))
        && cart == CartAfterScan(old(cart), o.value)
        && scanRfid == ""
        && logs == old(logs) + ScanEvents(o.value, old(scanRfid), isRfidReaderMode)
    {
      if scanRfid == "" {
        return None;
      }
      var tag := scanRfid;
      var found := FindByTag(products, tag);
      if found.None? {
        AddLog(TagNotFound(tag));
        scanRfid := "";
        return Some(NotFound);
      }
      var product := found.value;
      if product.rfidStatus.Disabled? {
        AddLog(SoldTagScanned(tag));
        scanRfid := "";
        return Some(AlreadySold);
      }
      if HasTag(cart, tag) {
        scanRfid := "";
        return Some(AlreadyInCart);
      }
      cart := cart + [product];
      AddLog(AddedToCart(product.productName, product.price, if isRfidReaderMode then ViaReader else ViaManual));
      scanRfid := "";
      o := Some(Added(product));
    }

    /** `handleRfidInputChange`: classify the change, then store the new value and its time. */
    method HandleRfidInputChange(value: string, now: int)
      requires Valid()
      modifies this`isRfidReaderMode, this`scanRfid, this`lastScanTime, this`logs, this`storedLogs
      ensures Valid()
      ensures isRfidReaderMode == ReaderMode(old(scanRfid), value)
      ensures scanRfid == value && lastScanTime == now
      ensures logs == old(logs) + (if isRfidReaderMode then [ReaderDetected] else [])
    {
      if ReaderMode(scanRfid, value) {
        isRfidReaderMode := true;
        AddLog(ReaderDetected);
      } else {
        isRfidReaderMode := false;
      }
      scanRfid := value;
      lastScanTime := now;
    }

    /** The auto-scan timer going off at `now`: it scans only when the gate is open. */
    method AutoScanTimer(now: int) returns (o: Option<ScanOutcome>)
      requires Valid()
      modifies this`cart, this`scanRfid, this`logs, this`storedLogs
      ensures Valid()
      ensures !AutoScanFires(old(scanRfid), isRfidReaderMode, now, lastScanTime) ==>
        o == None && cart == old(cart) && scanRfid == old(scanRfid) && logs == old(logs)
      ensures AutoScanFires(old(scanRfid), isRfidReaderMode, now, lastScanTime) ==>
        && o == Some(Dispatch(products, old(cart), old(scanRfid)))
        && cart == CartAfterScan(old(cart), o.value)
        && scanRfid == ""
        && logs == old(logs) + ScanEvents(o.value, old(scanRfid), isRfidReaderMode)
    {
      if AutoScanFires(scanRfid, isRfidReaderMode, now, lastScanTime) {
        o := ScanRfidTag();
      } else {
        o := None;
      }
    }

    /** `handleRfidKeyPress` on Enter: note a manual scan when not in reader mode, then scan. */
    method PressEnter() returns (o: Option<ScanOutcome>)
      requires Valid()
      modifies this`cart, this`scanRfid, this`logs, this`storedLogs
      ensures Valid()
      ensures var notice := if isRfidReaderMode then [] else [ManualScanInitiated];
        if old(scanRfid) == "" then
          o == None && cart == old(cart) && scanRfid == "" && logs == old(logs) + notice
        else
          && o == Some(Dispatch(products, old(cart), old(scanRfid)))
          && cart == CartAfterScan(old(cart), o.value)
          && scanRfid == ""
          && logs == old(logs) + notice + ScanEvents(o.value, old(scanRfid), isRfidReaderMode)
    {
      if !isRfidReaderMode {
        AddLog(ManualScanInitiated);
      }
      o := ScanRfidTag();
    }

    /** A decoded, trimmed line from the serial reader: a non-empty one becomes the scan buffer. */
    method SerialFrameReceived(rfidData: string)
      requires Valid()
      modifies this`scanRfid, this`logs, this`storedLogs
      ensures Valid()
      ensures rfidData == "" ==> scanRfid == old(scanRfid) && logs == old(logs)
      ensures rfidData != "" ==> scanRfid == rfidData && logs == old(logs) + [SerialTagDetected(rfidData)]
    {
      if rfidData != "" {
        scanRfid := rfidData;
        AddLog(SerialTagDetected(rfidData));
      }
    }

    /** The serial path's delayed auto-add of `rfidData`, against the current catalog and cart. */
    method SerialAutoAdd(rfidData: string) returns (added: bool)
      requires Valid()
      modifies this`cart, this`scanRfid, this`logs, this`storedLogs
      ensures Valid()
      ensures added == SerialAddable(products, old(cart), rfidData)
      ensures added == Dispatch(products, old(cart), rfidData).Added?
      ensures cart == CartAfterSerialScan(products, old(cart), rfidData)
      ensures !added ==> scanRfid == old(scanRfid) && logs == old(logs)
      ensures added ==>
        var p := FindByTag(products, rfidData).value;
        scanRfid == "" && logs == old(logs) + [AddedToCart(p.productName, p.price, ViaSerial)]
    {
      SerialAddableIsAdded(products, cart, rfidData);
      added := SerialAddable(products, cart, rfidData);
      if added {
        var product := FindByTag(products, rfidData).value;
        cart := cart + [product];
        AddLog(AddedToCart(product.productName, product.price, ViaSerial));
        scanRfid := "";
      }
    }

    /** `clearCart`. */
    method ClearCart()
      requires Valid()
      modifies this`cart, this`logs, this`storedLogs
      ensures Valid()
      ensures cart == [] && logs == old(logs) + [CartCleared]
    {
      cart := [];
      AddLog(CartCleared);
    }

    /** The end of a successful `connectSerialRfid`, once the port is granted and open. */
    method ConnectSerial()
      requires Valid()
      modifies this`serialConnected, this`logs, this`storedLogs
      ensures Valid()
      ensures serialConnected && logs == old(logs) + [SerialConnected]
    {
      serialConnected := true;
      AddLog(SerialConnected);
    }

    /**
     * `disconnectSerialRfid`: release a held port; with no port held it does nothing,
     * so it is idempotent. `closeOk` is whether `serialPort.close()` resolves: when it
     * rejects, the handler stops before any state change.
     */
    method DisconnectSerial(closeOk: bool)
      requires Valid()
      modifies this`serialConnected, this`logs, this`storedLogs
      ensures Valid()
      ensures serialConnected == (old(serialConnected) && !closeOk)
      ensures logs == old(logs) + (if old(serialConnected) && closeOk then [SerialDisconnected] else [])
    {
      if serialConnected {
        if !closeOk {
          return;
        }
        serialConnected := false;
        AddLog(SerialDisconnected);
      }
    }

    /** `killRfidTag`: fail without a port, otherwise write the kill frame. */
    method KillRfidTag(tag: string) returns (ok: bool)
      requires LogsInSync()
      modifies this`sentFrames, this`logs, this`storedLogs
      ensures LogsInSync()
      ensures ok == serialConnected
      ensures sentFrames == old(sentFrames) + (if ok then [KillFrame(tag, killPassword)] else [])
      ensures logs == old(logs) + [if ok then KillCommandSent(tag) else KillUnavailable(tag)]
    {
      if !serialConnected {
        AddLog(KillUnavailable(tag));
        return false;
      }
      sentFrames := sentFrames + [KillFrame(tag, killPassword)];
      AddLog(KillCommandSent(tag));
      ok := true;
    }

    /** `simulateKillTag`: log what a kill would have done. */
    method SimulateKillTag(tag: string)
      requires LogsInSync()
      modifies this`logs, this`storedLogs
      ensures LogsInSync()
      ensures logs == old(logs) + [KillSimulated(tag), KillPermanentNotice]
    {
      AddLog(KillSimulated(tag));
      AddLog(KillPermanentNotice);
    }

    /** One iteration of `cart.forEach(...)` in `processPayment`: a real kill when a port is connected, a simulated one otherwise. */
    method KillOne(tag: string)
      requires LogsInSync()
      modifies this`sentFrames, this`logs, this`storedLogs
      ensures LogsInSync()
      ensures logs == old(logs) + ItemKillEvents(tag, serialConnected)
      ensures sentFrames == old(sentFrames) + (if serialConnected then [KillFrame(tag, killPassword)] else [])
    {
      if serialConnected {
        var ok := KillRfidTag(tag);
      } else {
        SimulateKillTag(tag);
      }
    }

    /** `cart.forEach(...)` in `processPayment`: kill every sold tag, in cart order. */
    method KillSoldTags(items: seq<Product>)
      requires LogsInSync()
      modifies this`sentFrames, this`logs, this`storedLogs
      ensures LogsInSync()
      ensures logs == old(logs) + KillEvents(items, serialConnected)
      ensures sentFrames == old(sentFrames) + (if serialConnected then KillFrames(TagsOf(items), killPassword) else [])
    {
      var i := 0;
      while i < |items|
        invariant 0 <= i <= |items|
        invariant LogsInSync()
        invariant logs == old(logs) + KillEvents(items[..i], serialConnected)
        invariant sentFrames == old(sentFrames) + (if serialConnected then KillFrames(TagsOf(items[..i]), killPassword) else [])
      {
        var tag := items[i].rfidTag;
        KillOne(tag);
        KillStepsExtend(items, i, serialConnected, killPassword);
        AppendAssoc(old(logs), KillEvents(items[..i], serialConnected), ItemKillEvents(tag, serialConnected));
        AppendAssoc(old(sentFrames), KillFrames(TagsOf(items[..i]), killPassword), [KillFrame(tag, killPassword)]);
        i := i + 1;
      }
      assert items[..i] == items;
    }

    /** The log entries `processPayment` writes once the transaction is recorded. */
    method LogSale(id: string, total: real, count: nat, killed: bool)
      requires LogsInSync()
      modifies this`logs, this`storedLogs
      ensures LogsInSync()
      ensures logs == old(logs) + SaleEvents(id, total, count, killed)
    {
      AddLog(TransactionCompleted(id));
      AddLog(AmountCharged(total));
      AddLog(ProductsSold(count));
      if killed {
        AddLog(TagsKilled(count));
      }
    }

    /** The `products.map(...)` step of `processPayment`: every product whose tag is in `items` becomes disabled. */
    method MarkSold(items: seq<Product>)
      requires CatalogValid()
      modifies this`products
      ensures CatalogValid()
      ensures products == DisableSold(old(products), items)
      ensures NoReactivation(old(products), products)
    {
      DisableSoldNoReactivation(products, items);
      products := DisableSold(products, items);
    }

    /** The confirmed branch of `processPayment`: the commit of a non-empty cart. */
    method CompleteSale(transactionId: string, date: string) returns (sale: Transaction)
      requires CatalogValid() && LogsInSync()
      modifies this`products, this`cart, this`transactions, this`sentFrames, this`logs, this`storedLogs
      ensures CatalogValid() && LogsInSync()
      ensures NoReactivation(old(products), products)
      ensures sale == Transaction(transactionId, old(cart), Total(old(cart)), date, killTagAfterSale)
      ensures products == DisableSold(old(products), old(cart))
      ensures transactions == old(transactions) + [sale]
      ensures cart == []
      ensures sentFrames == old(sentFrames)
        + (if killTagAfterSale && serialConnected then KillFrames(TagsOf(old(cart)), killPassword) else [])
      ensures logs == old(logs)
        + (if killTagAfterSale then KillEvents(old(cart), serialConnected) else [])
        + SaleEvents(transactionId, Total(old(cart)), |old(cart)|, killTagAfterSale)
    {
      if killTagAfterSale {
        KillSoldTags(cart);
      }
      sale := Transaction(transactionId, cart, Total(cart), date, killTagAfterSale);
      MarkSold(cart);
      transactions := transactions + [sale];
      LogSale(transactionId, sale.total, |cart|, killTagAfterSale);
      cart := [];
    }

    /**
     * `processPayment`: refuse an empty cart, ask for confirmation, then mark every
     * cart tag sold, kill the tags if so configured, record the transaction and
     * empty the cart.
     */
    method ProcessPayment(confirmed: bool, transactionId: string, date: string) returns (r: PaymentOutcome)
      requires Valid()
      modifies this`products, this`cart, this`transactions, this`sentFrames, this`logs, this`storedLogs
      ensures Valid()
      ensures NoReactivation(old(products), products)
      ensures old(cart) == [] ==> r == EmptyCart
      ensures old(cart) != [] && !confirmed ==> r == Declined
      ensures r.EmptyCart? || r.Declined? ==>
        && products == old(products) && cart == old(cart) && transactions == old(transactions)
        && sentFrames == old(sentFrames) && logs == old(logs)
      ensures old(cart) != [] && confirmed ==>
        var sale := Transaction(transactionId, old(cart), Total(old(cart)), date, killTagAfterSale);
        && r == Completed(sale)
        && products == DisableSold(old(products), old(cart))
        && transactions == old(transactions) + [sale]
        && cart == []
        && sentFrames == old(sentFrames)
             + (if killTagAfterSale && serialConnected then KillFrames(TagsOf(old(cart)), killPassword) else [])
        && logs == old(logs)
             + (if killTagAfterSale then KillEvents(old(cart), serialConnected) else [])
             + SaleEvents(transactionId, Total(old(cart)), |old(cart)|, killTagAfterSale)
    {
      if |cart| == 0 {
        return EmptyCart;
      }
      if !confirmed {
        return Declined;
      }
      var sale := CompleteSale(transactionId, date);
      r := Completed(sale);
    }
  }
}
