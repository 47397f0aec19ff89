# RFID point-of-sale terminal

The model covers the point-of-sale state machine inside the `RFIDInventorySystem` React component in `src/app.jsx`. The component keeps:

- a catalog of products, each with an RFID tag that is either `active` or `disabled` (sold);
- a cart;
- a list of transactions;
- an activity log, with a persisted copy cut to the last 100 entries;
- a scan buffer and a "reader mode" flag that tells a fast RFID reader from manual typing;
- a serial link to a reader that can "kill" a sold tag.

The rendering is dropped. Each handler becomes a method of the class `PointOfSale.Terminal`. The handler's `find`/`map`/`filter`/`reduce` expressions become functions in the modules below. The class keeps four invariants: tags are pairwise distinct and non-empty; the cart is duplicate-free by tag; every cart item is an active catalog product; the persisted log is the last 100 entries of the in-memory log. Every handler preserves all four. `AddLog` is a step of every handler, and `MarkSold`, `CompleteSale`, `KillRfidTag`, `SimulateKillTag`, `KillOne`, `KillSoldTags` and `LogSale` are steps inside `processPayment`: each keeps the invariants about the state it changes, and `ProcessPayment` re-establishes all four. No method ever turns a disabled product back to active (`NoReactivation`).

Modules:

- `Inventory`: products, the add-product form, tag lookup, the add-product rules, the filtered catalog view.
- `Scanning`: the four-way scan dispatch, the serial auto-add rule, the reader-mode classifier and the auto-scan gate.
- `Checkout`: the cart total, the status-disabling map, transactions and the invoice arithmetic.
- `ActivityLog`: the log entries, one constructor per message the component writes, and the "keep last 100" cap.
- `SerialProtocol`: the kill-command frame, its parser, and the kill loop as written.
- `PointOfSale`: the `Terminal` class, i.e. the component state and its handlers.

Prices and the tax rate are exact `real` numbers. The source's `parseFloat(price)` result is passed to `AddProduct` as a parameter. Several inputs the source gets from the browser are also parameters:

- the `window.confirm` answer;
- the `Math.random` transaction id;
- `Date.now()` ids and times;
- ISO date strings.

`addProduct` (src/app.jsx:150-153) only tests that the price text is non-empty, so `AddProduct` accepts any price, negative ones included.

Lengths of the scan field are compared as JavaScript's `length` counts them, in UTF-16 code units (`Scanning.Utf16Length`). One typed character beyond the Basic Multilingual Plane, such as an emoji, therefore counts as a burst and switches reader mode on.

## Model

| member | source | states |
|---|---|---|
| Inventory.FindByTag | src/app.jsx:156 | `products.find` by tag: nothing exactly when no product has the tag; otherwise the first product carrying that tag (the one at `TagIndex`, before which no product has the tag) |
| Inventory.FindByTagUnique | src/app.jsx:156 | when tags are distinct, looking up an entry's tag returns that very entry |
| Inventory.Rejection | src/app.jsx:150-159 | a missing tag, name, code or price rejects the form; otherwise a tag already in the catalog rejects it; otherwise it is accepted (each as an if-and-only-if) |
| Inventory.NewProduct | src/app.jsx:161-170 | the product built from an accepted form is active, never has a blank category, and carries the form's tag, the given id and the given creation time |
| Inventory.AddedCatalog | src/app.jsx:150-174 | a rejected form leaves the catalog unchanged; an accepted one appends exactly one product at the end, `NewProduct` of the form, id and time: the form's tag, name and code, the given price, status active, category "N/A" when blank; earlier products are untouched; distinct tags stay distinct |
| Inventory.AddAllKeepsTagsUnique | src/app.jsx:149-174 | over any sequence of add attempts, tags stay pairwise distinct and earlier products are never changed |
| Inventory.DuplicateAddRefused | src/app.jsx:156-159 | adding a tag a second time, after it was accepted once, is refused as a duplicate |
| Inventory.FilteredProducts | src/app.jsx:474-479 | with "show all" the view is the catalog; otherwise it holds exactly the active products; never longer than the catalog |
| Inventory.ActiveOnly | src/app.jsx:478 | the `filter` keeps exactly the active products |
| Inventory.ActiveOnlyConcat | src/app.jsx:478 | the `filter` works item by item: the filtered catalog is the filtered parts in order, so catalog order and multiplicity are kept |
| Inventory.ActiveOnlySingle | src/app.jsx:478 | one product is kept exactly when it is active |
| Inventory.FilteredProductsInOrder | src/app.jsx:474-479 | either view is computed part by part in catalog order, and a single product shows exactly when the view admits it |
| Scanning.Dispatch | src/app.jsx:186-215 | a scanned tag is not found exactly when no product has it; already sold only if a disabled product has it; already in cart only if the cart has it; added only for an active catalog product whose tag is not in the cart |
| Scanning.DispatchByEntry | src/app.jsx:193-213 | with distinct tags, the outcome for a catalog entry's tag is decided by that entry's status and by the cart alone |
| Scanning.RescanOfCartItem | src/app.jsx:207-211 | rescanning an item already in a valid cart reports "already in cart" and adds nothing |
| Scanning.EmptyTagNotFound | src/app.jsx:187 | with non-empty catalog tags, an empty tag is never found |
| Scanning.SerialAddableIsAdded | src/app.jsx:290-292 | the serial auto-add condition holds exactly when the keyboard scan would add the product, and then the product is the catalog entry for the tag |
| Scanning.CartAfterSerialScan | src/app.jsx:289-296 | the serial auto-add appends the product at the end when the condition holds and leaves the cart unchanged otherwise; it keeps the cart duplicate-free and made of active catalog products |
| Scanning.SerialAddable | src/app.jsx:290-291 | the auto-add condition: a catalog product has the tag, it is active, and the cart does not hold the tag |
| Scanning.SerialAutoAddStale | src/app.jsx:289-296 | the auto-add as written: the condition is tested on the catalog and cart captured at connect time, and the product is appended to the live cart |
| Scanning.StaleSerialAddBreaksCart | src/app.jsx:289-296 | the auto-add as written, which reads the catalog and cart seen at connect time, puts the same product in the cart twice when its tag is read twice; the current-state rule does not |
| Scanning.Utf16Length | src/app.jsx:224 | JavaScript's `length`: a character beyond the Basic Multilingual Plane counts two code units |
| Scanning.Utf16LengthConcat | src/app.jsx:224 | code-unit lengths add up over concatenation |
| Scanning.ReaderMode | src/app.jsx:224-230 | reader mode is on when the field grew by more than one code unit at once |
| Scanning.ReaderModeOnAppend | src/app.jsx:224-230 | text added at the end is a burst exactly when it is two or more code units long |
| Scanning.TypedCharIsNotBurst | src/app.jsx:224-230 | typing one Basic Multilingual Plane character is never a burst |
| Scanning.AstralCharIsBurst | src/app.jsx:224-230 | typing one character beyond the Basic Multilingual Plane is a burst |
| Scanning.DeletionIsNotBurst | src/app.jsx:224-230 | deleting from the end of the field is never a burst |
| Scanning.AutoScanFires | src/app.jsx:238-240 | the timer gate: a non-empty buffer, reader mode on, and at least 100 ms since the last input |
| Scanning.AutoScanAfterChange | src/app.jsx:237-241 | after an input change, the auto-scan fires exactly when the field grew by two or more code units and at least 100 ms have passed |
| Scanning.TypingNeverAutoScans | src/app.jsx:224-241 | typing Basic Multilingual Plane characters one per input event leaves reader mode off, so the auto-scan never fires, however long the pause |
| Scanning.PasteAutoScans | src/app.jsx:224-241 | adding two or more code units in one input event makes the auto-scan fire once 100 ms have passed |
| Checkout.Total | src/app.jsx:421 | the `reduce` sum of the cart's prices, starting from 0 |
| Checkout.TotalConcat | src/app.jsx:421 | the cart total adds up over concatenation |
| Checkout.TotalNonNegative | src/app.jsx:421 | a cart of non-negative prices has a non-negative total |
| Checkout.DisableSold | src/app.jsx:427-433 | the catalog keeps its length and order; a product whose tag is in the cart becomes disabled with all its other fields unchanged; every other product is identical |
| Checkout.DisableSoldNoReactivation | src/app.jsx:427-433 | marking a sale never turns a disabled product back to active and keeps tags distinct |
| Checkout.NoReactivationTransitive | src/app.jsx:427-433 | "no reactivation" composes over successive operations |
| Checkout.AddedCatalogNoReactivation | src/app.jsx:161-174 | adding a product never changes an existing product's status |
| Checkout.SoldTagIsDisabled | src/app.jsx:427-433 | after a sale, looking up any sold tag finds a disabled product |
| Checkout.Invoice | src/app.jsx:923-925 | the subtotal is the cart total; the total is subtotal × (100 + rate) / 100 and exceeds the subtotal by the tax; a zero rate adds nothing; a non-negative rate never lowers the total |
| Checkout.InvoiceExample | src/app.jsx:46 | at the default 8.5 % rate, items of 10.99 and 5.00 give subtotal 15.99, tax 1.35915 and total 17.34915 |
| SerialProtocol.KillFrame | src/app.jsx:327 | the kill command `KILL:<tag>:<password>` followed by a newline |
| SerialProtocol.KillFrameRoundTrip | src/app.jsx:327 | the frame `KILL:<tag>:<password>` plus a newline parses back to the tag and the password when the password has no colon |
| SerialProtocol.KillFramesOnePerTag | src/app.jsx:438-446 | the sequential kill step writes one frame per sold item, in cart order |
| SerialProtocol.KillWithoutAwait | src/app.jsx:438-446 | the kill loop as written makes one write attempt per sold item |
| SerialProtocol.KillWithoutAwaitSendsAtMostOne | src/app.jsx:326-330 | as written, at most one frame of a sale reaches the port: the first writer still holds the lock when the next `getWriter` is called |
| SerialProtocol.SecondKillOfSaleFails | src/app.jsx:438-446 | for a two-item sale the second kill fails as written, while the sequential kill sends both frames |
| ActivityLog.KeepLast | src/app.jsx:60 | `slice(-n)`: the whole log when it is short, otherwise its last n entries |
| ActivityLog.KeepLastIsNewestSuffix | src/app.jsx:58-60 | the persisted log holds the newest `min(n, length)` entries, in order |
| ActivityLog.KeepLastAppend | src/app.jsx:58-60 | cutting the persisted copy after every push gives the same result as cutting the full log once |
| PointOfSale.Terminal.constructor | src/app.jsx:6-26 | initial state: empty catalog, cart, transactions and log; empty form and buffer; reader mode off; no port; kill after sale off; default kill password "00000000" |
| PointOfSale.Terminal.AddLog | src/app.jsx:52-61 | the log gains the entry at the end, and the persisted copy becomes the last 100 entries of the new log |
| PointOfSale.Terminal.AddProduct | src/app.jsx:149-183 | the catalog becomes `AddedCatalog` of the old catalog and form; a rejection changes neither form nor log; a success returns the appended product, clears the form and logs it; the invariants hold and no status is reactivated |
| PointOfSale.Terminal.ScanRfidTag | src/app.jsx:186-216 | an empty buffer changes nothing; otherwise the outcome is `Dispatch` of the buffer, only "added" appends the product to the cart, the buffer is cleared, and not-found and already-sold are logged; the cart stays duplicate-free and made of active catalog products |
| PointOfSale.Terminal.HandleRfidInputChange | src/app.jsx:219-234 | the buffer becomes the new value, the time is recorded, reader mode becomes `ReaderMode(old buffer, value)`, and every burst is logged, even when reader mode was already on |
| PointOfSale.Terminal.AutoScanTimer | src/app.jsx:237-247 | the timer scans exactly when the buffer is non-empty, reader mode is on and 100 ms have passed; otherwise nothing changes |
| PointOfSale.Terminal.PressEnter | src/app.jsx:250-258 | Enter logs a manual scan when not in reader mode, then scans as `ScanRfidTag` does |
| PointOfSale.Terminal.SerialFrameReceived | src/app.jsx:283-287 | a non-empty line from the reader becomes the buffer and is logged; an empty one changes nothing |
| PointOfSale.Terminal.SerialAutoAdd | src/app.jsx:289-296 | the product is added exactly when the keyboard scan would add it; the cart becomes `CartAfterSerialScan`; on success the buffer is cleared and the addition logged |
| PointOfSale.Terminal.ClearCart | src/app.jsx:409-412 | the cart becomes empty and the clearing is logged |
| PointOfSale.Terminal.ConnectSerial | src/app.jsx:271-273 | once the port is open, the terminal is connected and logs it |
| PointOfSale.Terminal.DisconnectSerial | src/app.jsx:309-316 | with no port held nothing changes; with a port held and `close()` resolving, the terminal ends disconnected and logs it; when `close()` rejects, it stays connected and logs nothing |
| PointOfSale.Terminal.KillRfidTag | src/app.jsx:319-331 | with no port it fails, writes nothing and logs that; otherwise it writes exactly `KillFrame(tag, password)`, logs the command and succeeds |
| PointOfSale.Terminal.SimulateKillTag | src/app.jsx:347-351 | logs the simulated kill and the permanence notice |
| PointOfSale.Terminal.KillOne | src/app.jsx:439-445 | one item of the kill step: a real kill when connected, a simulated one otherwise |
| PointOfSale.Terminal.KillSoldTags | src/app.jsx:438-446 | the whole kill step: one frame per sold tag in cart order when connected, and the matching log entries |
| PointOfSale.Terminal.LogSale | src/app.jsx:459-464 | logs the transaction id, the amount, the number of products sold and, when kills are on, the number of tags killed |
| PointOfSale.Terminal.MarkSold | src/app.jsx:427-435 | the catalog becomes `DisableSold` of the old catalog and the cart; tags stay distinct and nothing is reactivated |
| PointOfSale.Terminal.CompleteSale | src/app.jsx:424-469 | the confirmed sale: cart tags disabled, tags killed if configured, one transaction appended whose items are the cart, whose total is the sum of its prices and whose kill flag is the setting; the cart is emptied |
| PointOfSale.Terminal.ProcessPayment | src/app.jsx:415-471 | an empty cart or a declined confirmation changes no state; otherwise the result is `CompleteSale`'s; all invariants hold and no status is reactivated |

## Left out

- Rendering, modals and all JSX (src/app.jsx:484 onwards): this is UI.
- localStorage loading and saving of products, transactions and logs; the auto-save effects; the online/offline listeners: this is browser I/O. The model keeps only the persisted log's 100-entry cap, and the terminal starts with an empty persisted log.
- Export, import and `clearAllData` (src/app.jsx:354-406): file and JSON I/O plus wholesale replacement of the state.
- The Web Serial connect and read loop (src/app.jsx:261-307): device I/O. Port selection, opening, decoding and errors are not modelled. `ConnectSerial` is the success tail. `SerialFrameReceived` and `SerialAutoAdd` are one loop iteration and its delayed auto-add.
- The writer calls in `killRfidTag` and their error path (src/app.jsx:328-330, 339-342): `sentFrames` records the frame instead. A write error is not modelled.
- The "killed successfully" log written 1000 ms after a kill (src/app.jsx:335-337), and all other `setTimeout` scheduling: timers. Only the predicate that decides whether a scan fires is modelled.
- The order of kill log entries against the sale's log entries: the source's kills are asynchronous. The model writes them in cart order before the sale's entries.
- The time-of-day prefix of each log entry and the text of each message: a log entry is an `Event` value.
- `alert` and `window.confirm` and their texts; `Math.random` ids; `Date.now` and `toISOString`: these are parameters.
- `parseFloat` and `toFixed` rounding: floating point and display formatting. Prices and totals are exact reals.
- The `showAllProducts` toggle, the kill-password and kill-after-sale setters, and the form-field setters: plain assignments with no logic. `FilteredProducts` takes the flag as a parameter.
- The billing window and customer details are UI state and markup. `completeBilling`, `printInvoice` and `generateInvoiceHTML` are called (src/app.jsx:943, 1003, 1010) but not defined in src/app.jsx. Only the subtotal, tax and total arithmetic is modelled.
- PointOfSale.Terminal.DisconnectSerial: whether `serialPort.close()` resolves is an input. The model does not derive it from the read loop, which still holds the reader lock taken at src/app.jsx:276 while it runs.
- React's batching of state updates: each handler is one atomic method.
- PointOfSale.Terminal.SerialAutoAdd: reads the current catalog and cart. The source's closure reads the values captured at connect time (see Findings).
- PointOfSale.Terminal.KillSoldTags: kills sequentially, as the loop evidently intends. As written, only the first write goes through (see Findings).

## Findings

| source | as written | input that shows it | evidently intended | confidence | as-written member | corrected member |
|---|---|---|---|---|---|---|
| src/app.jsx:438-446 | `cart.forEach` calls the async `killRfidTag` without awaiting it. Each call runs synchronously up to `await writer.write`, still holding the writer's lock, so every later `getWriter()` throws and logs a kill error | a connected port, kill after sale on, a cart of two items with tags a and b: only `KILL:a:…` is written | one kill frame per sold item, in cart order | not executed | SerialProtocol.SecondKillOfSaleFails | SerialProtocol.KillFramesOnePerTag |
| src/app.jsx:289-296 | the delayed auto-add reads the `products` and `cart` captured when the port was connected, not the current ones | an active product p in the catalog at connect time and an empty cart; the reader sends p's tag twice: the cart becomes [p, p]; a product sold since connecting is also added again | add only an active catalog product that is not already in the current cart | not executed | Scanning.StaleSerialAddBreaksCart | Scanning.CartAfterSerialScan |
